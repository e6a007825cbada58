/** Bundles, deliveries and generation-fenced work units
(continuity/delivery.py, continuity/work.py, continuity/checkpoints.py, continuity/common.py).

Every operation runs under the project's advisory lock, so it is one step. The rows of a bundle -
its units with their claim rows, and its deliveries - are kept together with it. */
module Continuity {
  import opened Common
  import HandoffLease

  const MAX_UNITS := 32

  datatype Error = NotFound | Conflict | Invalid | Forbidden | Ineligible | PolicyMissing

  datatype UnitState = Available | Claimed | Completed | Cancelled

  /** A row of the claims table: the generation granted to an actor's token. */
  datatype Grant = Grant(generation: nat, actor: User, token: Digest)

  datatype Unit = Unit(
    key: string, summary: string, assignees: set<User>, state: UnitState,
    owner: Option<User>, token: Option<Digest>, lease: Option<Time>, generation: nat, grants: seq<Grant>)

  datatype Delivery = Delivery(recipient: User, routing: nat, acknowledged: bool, revoked: bool)

  datatype Source = FromCheckpoint(row: nat) | FromHandoff(id: string)

  datatype Bundle = Bundle(
    source: Source, sender: User, version: nat, expiresAt: Time, revoked: bool,
    units: seq<Unit>, deliveries: seq<Delivery>)

  /** Version 0 stands for the absent row. */
  datatype Policy = Policy(
    version: nat, enabled: bool, leaseSeconds: nat, retentionSeconds: nat, allowEmergency: bool,
    defaults: seq<User>, rules: seq<(User, seq<User>)>)

  /** A work unit as a publisher or administrator describes it. */
  datatype Spec = Spec(key: string, summary: string, assignees: set<User>)

  datatype Actor = Actor(user: User, admin: bool)

  // ---------------------------------------------------------------- predicates of one bundle

  predicate Terminal(s: UnitState) {
    s == Completed || s == Cancelled
  }

  predicate Retained(b: Bundle, now: Time) {
    !b.revoked && b.expiresAt > now
  }

  predicate Receives(ds: seq<Delivery>, user: User) {
    exists i :: 0 <= i < |ds| && ds[i].recipient == user && !ds[i].revoked
  }

  predicate Live(u: Unit, now: Time) {
    u.state == Claimed && u.lease.Some? && u.lease.value > now
  }

  predicate OwnedBy(u: Unit, actor: User, token: Digest, generation: nat) {
    u.state == Claimed && u.owner == Some(actor) && u.token == Some(token) && u.generation == generation
  }

  /** locate: an assignee of the unit whose delivery is current, in a retained bundle. */
  predicate Reachable(b: Bundle, i: nat, actor: User, now: Time) {
    i < |b.units| && actor in b.units[i].assignees && Retained(b, now) && Receives(b.deliveries, actor)
  }

  predicate Used(u: Unit, actor: User, token: Digest) {
    exists k :: 0 <= k < |u.grants| && u.grants[k].actor == actor && u.grants[k].token == token
  }

  ghost predicate UniqueKeys(units: seq<Unit>) {
    forall i, k :: 0 <= i < k < |units| ==> units[i].key != units[k].key
  }

  ghost predicate GrantsOrdered(u: Unit) {
    && (forall i, k :: 0 <= i < k < |u.grants| ==>
          u.grants[i].generation < u.grants[k].generation
          && (u.grants[i].actor, u.grants[i].token) != (u.grants[k].actor, u.grants[k].token))
    && (forall i :: 0 <= i < |u.grants| ==> 1 <= u.grants[i].generation <= u.generation)
  }

  ghost predicate UnitInv(u: Unit, expiresAt: Time, ds: seq<Delivery>) {
    && GrantsOrdered(u)
    && u.assignees != {}
    && (if u.state == Claimed then
          && u.owner.Some? && u.token.Some? && u.lease.Some?
          && u.owner.value in u.assignees && u.lease.value <= expiresAt
          && |u.grants| > 0 && u.grants[|u.grants| - 1] == Grant(u.generation, u.owner.value, u.token.value)
        else u.owner.None? && u.token.None? && u.lease.None?)
    && (!Terminal(u.state) ==> forall a :: a in u.assignees ==> Receives(ds, a))
  }

  /** uq_continuity_active_delivery: at most one unrevoked delivery per recipient. */
  ghost predicate OneDeliveryEach(ds: seq<Delivery>) {
    forall i, k :: 0 <= i < k < |ds| && !ds[i].revoked && !ds[k].revoked ==> ds[i].recipient != ds[k].recipient
  }

  /** The joint invariant of a bundle's rows. */
  ghost predicate BundleInv(b: Bundle) {
    && b.version >= 1
    && 1 <= |b.units| <= MAX_UNITS
    && UniqueKeys(b.units)
    && (forall i :: 0 <= i < |b.units| ==> UnitInv(b.units[i], b.expiresAt, b.deliveries))
    && OneDeliveryEach(b.deliveries)
    && (b.revoked ==> forall i :: 0 <= i < |b.units| ==> b.units[i].state == Cancelled)
    && (b.revoked ==> forall i :: 0 <= i < |b.deliveries| ==> b.deliveries[i].revoked)
  }

  // ---------------------------------------------------------------- work ownership

  datatype ClaimAnswer = Granted(generation: nat) | Replayed(generation: nat) | Refused(error: Error)

  function ClaimUnit(b: Bundle, i: nat, actor: User, token: Digest, expected: Option<nat>, routing: Option<nat>,
                     policy: Policy, now: Time): (Bundle, ClaimAnswer)
  {
    if !policy.enabled then (b, Refused(PolicyMissing))
    else if !Reachable(b, i, actor, now) then (b, Refused(NotFound))
    else
      var u := b.units[i];
      if routing.Some? && b.version != routing.value then (b, Refused(Conflict))
      else if Live(u, now) then
        if u.owner == Some(actor) && u.token == Some(token) && (expected.Some? ==> expected.value + 1 == u.generation)
        then (b, Replayed(u.generation)) else (b, Refused(Conflict))
      else if expected.Some? && u.generation != expected.value then (b, Refused(Conflict))
      else if Terminal(u.state) then (b, Refused(Conflict))
      else if Used(u, actor, token) then (b, Refused(Conflict))
      else
        var g := u.generation + 1;
        var v := u.(state := Claimed, owner := Some(actor), token := Some(token), generation := g,
                    lease := Some(Min(b.expiresAt, now + policy.leaseSeconds)),
                    grants := u.grants + [Grant(g, actor, token)]);
        (b.(units := b.units[i := v]), Granted(g))
  }

  /** active: the caller still owns this very generation on an unexpired lease. */
  predicate Active(b: Bundle, i: nat, actor: User, token: Digest, generation: nat, now: Time) {
    Reachable(b, i, actor, now) && OwnedBy(b.units[i], actor, token, generation) && Live(b.units[i], now)
  }

  datatype RenewAnswer = Renewed(until: Time, extended: bool) | NotRenewed(error: Error)

  function RenewUnit(b: Bundle, i: nat, actor: User, token: Digest, generation: nat, deadline: Time,
                     policy: Policy, now: Time): (Bundle, RenewAnswer)
  {
    if policy.version == 0 then (b, NotRenewed(PolicyMissing))
    else if !Reachable(b, i, actor, now) then (b, NotRenewed(NotFound))
    else if !Active(b, i, actor, token, generation, now) then (b, NotRenewed(Conflict))
    else
      var current := b.units[i].lease.value;
      if deadline > current && deadline > now + policy.leaseSeconds then (b, NotRenewed(Conflict))
      else
        var effective := Max(current, Min(deadline, b.expiresAt));
        (b.(units := b.units[i := b.units[i].(lease := Some(effective))]), Renewed(effective, effective > current))
  }

  /** Release keeps the generation; only the next claim raises it. */
  function Freed(u: Unit, state: UnitState): Unit {
    u.(state := state, owner := None, token := None, lease := None)
  }

  function ReleaseUnit(b: Bundle, i: nat, actor: User, token: Digest, generation: nat, complete: bool,
                       now: Time): (Bundle, Option<Error>)
  {
    if !Reachable(b, i, actor, now) then (b, Some(NotFound))
    else if !Active(b, i, actor, token, generation, now) then (b, Some(Conflict))
    else (b.(units := b.units[i := Freed(b.units[i], if complete then Completed else Available)]), None)
  }

  lemma ReplaceUnitKeepsInvariant(b: Bundle, i: nat, u: Unit)
    requires BundleInv(b) && i < |b.units| && u.key == b.units[i].key && !b.revoked
    requires UnitInv(u, b.expiresAt, b.deliveries)
    ensures BundleInv(b.(units := b.units[i := u]))
  {
  }

  lemma ClaimKeepsInvariant(b: Bundle, i: nat, actor: User, token: Digest, expected: Option<nat>,
                            routing: Option<nat>, policy: Policy, now: Time)
    requires BundleInv(b)
    ensures BundleInv(ClaimUnit(b, i, actor, token, expected, routing, policy, now).0)
  {
    var (c, answer) := ClaimUnit(b, i, actor, token, expected, routing, policy, now);
    if answer.Granted? {
      var u := b.units[i];
      assert UnitInv(u, b.expiresAt, b.deliveries);
      ReplaceUnitKeepsInvariant(b, i, c.units[i]);
    }
  }

  lemma RenewKeepsInvariant(b: Bundle, i: nat, actor: User, token: Digest, generation: nat, deadline: Time,
                            policy: Policy, now: Time)
    requires BundleInv(b)
    ensures BundleInv(RenewUnit(b, i, actor, token, generation, deadline, policy, now).0)
  {
    var (c, answer) := RenewUnit(b, i, actor, token, generation, deadline, policy, now);
    if answer.Renewed? {
      ReplaceUnitKeepsInvariant(b, i, c.units[i]);
    }
  }

  lemma ReleaseKeepsInvariant(b: Bundle, i: nat, actor: User, token: Digest, generation: nat, complete: bool, now: Time)
    requires BundleInv(b)
    ensures BundleInv(ReleaseUnit(b, i, actor, token, generation, complete, now).0)
    ensures var (c, error) := ReleaseUnit(b, i, actor, token, generation, complete, now);
            if error.Some? then c == b
            else
              && i < |b.units| && OwnedBy(b.units[i], actor, token, generation) && Live(b.units[i], now)
              && |c.units| == |b.units| && (forall k :: 0 <= k < |b.units| && k != i ==> c.units[k] == b.units[k])
              && var v := c.units[i];
                 && v.state == (if complete then Completed else Available) && v.owner.None? && v.token.None?
                      && v.lease.None?
                 && v.generation == generation && v.grants == b.units[i].grants
  {
    var (c, error) := ReleaseUnit(b, i, actor, token, generation, complete, now);
    if error.None? {
      ReplaceUnitKeepsInvariant(b, i, c.units[i]);
    }
  }

  // ---------------------------------------------------------------- routing

  predicate UnitsValid(specs: seq<Spec>, recipients: set<User>) {
    && (forall i, k :: 0 <= i < k < |specs| ==> specs[i].key != specs[k].key)
    && (forall i :: 0 <= i < |specs| ==> specs[i].assignees <= recipients)
  }

  /** The bounds the tool schema puts on every request. Recipient lists arrive in sorted order. */
  ghost predicate RecipientsValid(recipients: seq<User>) {
    1 <= |recipients| <= 32 && forall i, k :: 0 <= i < k < |recipients| ==> recipients[i] != recipients[k]
  }

  ghost predicate SpecsValid(specs: seq<Spec>) {
    1 <= |specs| <= MAX_UNITS && forall i :: 0 <= i < |specs| ==> specs[i].assignees != {}
  }

  function NewUnit(s: Spec): Unit {
    Unit(s.key, s.summary, s.assignees, Available, None, None, None, 0, [])
  }

  function NewUnits(specs: seq<Spec>): seq<Unit> {
    seq(|specs|, i requires 0 <= i < |specs| => NewUnit(specs[i]))
  }

  function NewDeliveries(users: seq<User>, routing: nat): seq<Delivery> {
    seq(|users|, i requires 0 <= i < |users| => Delivery(users[i], routing, false, false))
  }

  function Users(s: seq<User>): set<User> {
    set i | 0 <= i < |s| :: s[i]
  }

  function FreshBundle(source: Source, sender: User, expiresAt: Time, recipients: seq<User>, specs: seq<Spec>): Bundle {
    Bundle(source, sender, 1, expiresAt, false, NewUnits(specs), NewDeliveries(recipients, 1))
  }

  lemma FreshBundleInvariant(source: Source, sender: User, expiresAt: Time, recipients: seq<User>, specs: seq<Spec>)
    requires RecipientsValid(recipients) && SpecsValid(specs) && UnitsValid(specs, Users(recipients))
    ensures BundleInv(FreshBundle(source, sender, expiresAt, recipients, specs))
  {
    var b := FreshBundle(source, sender, expiresAt, recipients, specs);
    forall i | 0 <= i < |b.units|
      ensures UnitInv(b.units[i], expiresAt, b.deliveries)
    {
      forall a | a in specs[i].assignees ensures Receives(b.deliveries, a) {
        assert a in Users(recipients);
        var k :| 0 <= k < |recipients| && recipients[k] == a;
        assert b.deliveries[k].recipient == a;
      }
    }
  }

  datatype Routing = Routing(
    expectedVersion: nat, expectedGenerations: map<string, nat>, recipients: seq<User>, specs: seq<Spec>,
    emergency: bool, confirmed: bool, takeover: set<string>)

  function Generations(units: seq<Unit>): map<string, nat> {
    if units == [] then map[]
    else Generations(units[..|units| - 1])[units[|units| - 1].key := units[|units| - 1].generation]
  }

  function Selected(specs: seq<Spec>, key: string): Option<Spec> {
    if specs == [] then None
    else if specs[|specs| - 1].key == key then Some(specs[|specs| - 1])
    else Selected(specs[..|specs| - 1], key)
  }

  predicate HasKey(units: seq<Unit>, key: string) {
    exists i :: 0 <= i < |units| && units[i].key == key
  }

  datatype Fate = Keep | Refuse | Reset(unit: Unit)

  /** What one existing unit undergoes: terminal and actively claimed units are protected. */
  function FateOf(u: Unit, r: Routing, now: Time): Fate {
    var updated := Selected(r.specs, u.key);
    var changed := updated.None? || u.summary != updated.value.summary || u.assignees != updated.value.assignees;
    var force := u.key in r.takeover && u.state == Claimed;
    if !changed && !force then Keep
    else if Terminal(u.state) then if updated.Some? then Refuse else Keep
    else if Live(u, now) && !force then Refuse
    else
      var v := Freed(u, if updated.Some? then Available else Cancelled).(generation := u.generation + 1);
      Reset(if updated.Some? then v.(summary := updated.value.summary, assignees := updated.value.assignees) else v)
  }

  function Rerouted(u: Unit, r: Routing, now: Time): Unit {
    var f := FateOf(u, r, now);
    if f.Reset? then f.unit else u
  }

  function ReroutedAll(units: seq<Unit>, r: Routing, now: Time): seq<Unit> {
    seq(|units|, i requires 0 <= i < |units| => Rerouted(units[i], r, now))
  }

  /** Specifications without an existing unit, in request order. */
  function Added(units: seq<Unit>, specs: seq<Spec>): seq<Spec> {
    if specs == [] then []
    else
      var last := specs[|specs| - 1];
      Added(units, specs[..|specs| - 1]) + if HasKey(units, last.key) then [] else [last]
  }

  function RevokedAbsent(ds: seq<Delivery>, recipients: set<User>): seq<Delivery> {
    seq(|ds|, i requires 0 <= i < |ds| => if ds[i].recipient in recipients then ds[i] else ds[i].(revoked := true))
  }

  function Newcomers(ds: seq<Delivery>, recipients: seq<User>): seq<User> {
    if recipients == [] then []
    else
      var last := recipients[|recipients| - 1];
      Newcomers(ds, recipients[..|recipients| - 1]) + if Receives(ds, last) then [] else [last]
  }

  function RoutingError(b: Bundle, r: Routing, policy: Policy, members: set<User>, now: Time): Option<Error> {
    if !policy.enabled then Some(PolicyMissing)
    else if !Retained(b, now) then Some(NotFound)
    else if b.version != r.expectedVersion then Some(Conflict)
    else if !UnitsValid(r.specs, Users(r.recipients)) then Some(Invalid)
    else if b.sender in Users(r.recipients) then Some(Invalid)
    else if !(Users(r.recipients) <= members) then Some(Ineligible)
    else if r.expectedGenerations != Generations(b.units) then Some(Conflict)
    else if r.emergency && !(policy.allowEmergency && r.confirmed) then Some(Conflict)
    else if (r.emergency && r.takeover == {}) || (r.takeover != {} && !r.emergency)
            || !(forall k :: k in r.takeover ==> HasKey(b.units, k)) then Some(Invalid)
    else if exists i :: 0 <= i < |b.units| && FateOf(b.units[i], r, now).Refuse? then Some(Conflict)
    else if |b.units| + |Added(b.units, r.specs)| > MAX_UNITS then Some(Invalid)
    else None
  }

  function ReassignBundle(
      b: Bundle, r: Routing, policy: Policy, members: set<User>, now: Time): (Bundle, Option<Error>)
  {
    var error := RoutingError(b, r, policy, members, now);
    if error.Some? then (b, error)
    else
      (b.(version := b.version + 1,
          units := ReroutedAll(b.units, r, now) + NewUnits(Added(b.units, r.specs)),
          deliveries := RevokedAbsent(b.deliveries, Users(r.recipients))
                        + NewDeliveries(Newcomers(b.deliveries, r.recipients), b.version + 1)), None)
  }

  function Erased(u: Unit): Unit {
    Freed(u, Cancelled).(generation := u.generation + 1)
  }

  function AllCancelled(units: seq<Unit>): seq<Unit> {
    seq(|units|, i requires 0 <= i < |units| => Erased(units[i]))
  }

  function AllRevoked(ds: seq<Delivery>): seq<Delivery> {
    seq(|ds|, i requires 0 <= i < |ds| => ds[i].(revoked := true))
  }

  /** Erasure of the source: every delivery revoked, every unit cancelled under a new generation. */
  function RevokeBundle(b: Bundle): Bundle {
    b.(version := b.version + 1, revoked := true,
       units := AllCancelled(b.units), deliveries := AllRevoked(b.deliveries))
  }

  lemma RevokeKeepsInvariant(b: Bundle)
    requires BundleInv(b)
    ensures BundleInv(RevokeBundle(b))
  {
    var c := RevokeBundle(b);
    forall i | 0 <= i < |c.units| ensures UnitInv(c.units[i], c.expiresAt, c.deliveries) {
      assert UnitInv(b.units[i], b.expiresAt, b.deliveries);
    }
  }

  // ---------------------------------------------------------------- reassignment keeps the invariant

  lemma {:induction false} SelectedIs(specs: seq<Spec>, key: string)
    ensures Selected(specs, key).Some? ==> Selected(specs, key).value in specs && Selected(specs, key).value.key == key
    ensures Selected(specs, key).None? ==> forall s :: s in specs ==> s.key != key
  {
    if specs == [] {
    } else {
      SelectedIs(specs[..|specs| - 1], key);
      assert specs == specs[..|specs| - 1] + [specs[|specs| - 1]];
    }
  }

  lemma {:induction false} AddedAre(units: seq<Unit>, specs: seq<Spec>)
    requires forall i, k :: 0 <= i < k < |specs| ==> specs[i].key != specs[k].key
    ensures var a := Added(units, specs);
            && (forall i :: 0 <= i < |a| ==> a[i] in specs && !HasKey(units, a[i].key))
            && |a| <= |specs|
            && (forall i, k :: 0 <= i < k < |a| ==> a[i].key != a[k].key)
  {
    if specs == [] {
    } else {
      var front := specs[..|specs| - 1];
      var last := specs[|specs| - 1];
      AddedAre(units, front);
      assert specs == front + [last];
      assert last in specs;
      assert forall s :: s in front ==> s in specs && s.key != last.key;
      assert forall i :: 0 <= i < |Added(units, front)| ==> Added(units, front)[i] in front;
    }
  }

  lemma {:induction false} NewcomersAre(ds: seq<Delivery>, recipients: seq<User>)
    requires forall i, k :: 0 <= i < k < |recipients| ==> recipients[i] != recipients[k]
    ensures var n := Newcomers(ds, recipients);
            && (forall i :: 0 <= i < |n| ==> n[i] in recipients && !Receives(ds, n[i]))
            && (forall i, k :: 0 <= i < k < |n| ==> n[i] != n[k])
            && (forall u :: u in recipients && !Receives(ds, u) ==> u in n)
  {
    if recipients == [] {
    } else {
      var front := recipients[..|recipients| - 1];
      NewcomersAre(ds, front);
      assert recipients == front + [recipients[|recipients| - 1]];
    }
  }

  /** After rerouting, exactly the requested recipients receive, each once. */
  lemma DeliveriesFollowRequest(ds: seq<Delivery>, recipients: seq<User>, routing: nat)
    requires OneDeliveryEach(ds)
    requires forall i, k :: 0 <= i < k < |recipients| ==> recipients[i] != recipients[k]
    ensures var after := RevokedAbsent(ds, Users(recipients)) + NewDeliveries(Newcomers(ds, recipients), routing);
            && OneDeliveryEach(after)
            && forall u :: Receives(after, u) <==> u in Users(recipients)
  {
    NewcomersAre(ds, recipients);
    var kept := RevokedAbsent(ds, Users(recipients));
    var joining := Newcomers(ds, recipients);
    var after := kept + NewDeliveries(joining, routing);
    forall u | u in Users(recipients) ensures Receives(after, u) {
      if Receives(ds, u) {
        var i :| 0 <= i < |ds| && ds[i].recipient == u && !ds[i].revoked;
        assert after[i] == ds[i];
      } else {
        var k :| 0 <= k < |joining| && joining[k] == u;
        assert after[|kept| + k].recipient == u;
      }
    }
    ReroutedOnce(ds, recipients, routing);
  }

  lemma ReroutedOnce(ds: seq<Delivery>, recipients: seq<User>, routing: nat)
    requires OneDeliveryEach(ds)
    requires forall i, k :: 0 <= i < k < |recipients| ==> recipients[i] != recipients[k]
    ensures OneDeliveryEach(RevokedAbsent(ds, Users(recipients)) + NewDeliveries(Newcomers(ds, recipients), routing))
  {
    NewcomersAre(ds, recipients);
    var kept := RevokedAbsent(ds, Users(recipients));
    var joining := Newcomers(ds, recipients);
    var after := kept + NewDeliveries(joining, routing);
    forall i, k | 0 <= i < k < |after| && !after[i].revoked && !after[k].revoked
      ensures after[i].recipient != after[k].recipient
    {
      if k < |kept| {
        assert after[i] == ds[i] && after[k] == ds[k];
      } else {
        assert after[k].recipient == joining[k - |kept|];
        if i < |kept| {
          assert after[i] == ds[i];
        } else {
          assert after[i].recipient == joining[i - |kept|];
        }
      }
    }
  }

  lemma ReroutedInvariant(u: Unit, r: Routing, now: Time, expiresAt: Time, ds: seq<Delivery>, after: seq<Delivery>)
    requires UnitInv(u, expiresAt, ds) && !FateOf(u, r, now).Refuse?
    requires UnitsValid(r.specs, Users(r.recipients)) && forall s :: s in r.specs ==> s.assignees != {}
    requires forall a :: a in Users(r.recipients) ==> Receives(after, a)
    ensures UnitInv(Rerouted(u, r, now), expiresAt, after)
    ensures Rerouted(u, r, now).key == u.key
  {
    SelectedIs(r.specs, u.key);
    var updated := Selected(r.specs, u.key);
    if updated.Some? {
      assert updated.value.assignees <= Users(r.recipients);
    }
  }

  lemma ReassignKeepsInvariant(b: Bundle, r: Routing, policy: Policy, members: set<User>, now: Time)
    requires BundleInv(b) && RecipientsValid(r.recipients) && SpecsValid(r.specs)
    ensures BundleInv(ReassignBundle(b, r, policy, members, now).0)
  {
    var (c, error) := ReassignBundle(b, r, policy, members, now);
    if error.None? {
      DeliveriesFollowRequest(b.deliveries, r.recipients, b.version + 1);
      AddedAre(b.units, r.specs);
      var kept := ReroutedAll(b.units, r, now);
      var added := Added(b.units, r.specs);
      forall i | 0 <= i < |c.units| ensures UnitInv(c.units[i], c.expiresAt, c.deliveries) {
        if i < |kept| {
          ReroutedInvariant(b.units[i], r, now, b.expiresAt, b.deliveries, c.deliveries);
        } else {
          var s := added[i - |kept|];
          assert c.units[i] == NewUnit(s);
          assert s in r.specs;
        }
      }
      KeysStayUnique(b.units, r, now);
    }
  }

  lemma KeysStayUnique(units: seq<Unit>, r: Routing, now: Time)
    requires UniqueKeys(units) && UnitsValid(r.specs, Users(r.recipients))
    ensures UniqueKeys(ReroutedAll(units, r, now) + NewUnits(Added(units, r.specs)))
  {
    AddedAre(units, r.specs);
    var kept := ReroutedAll(units, r, now);
    var all := kept + NewUnits(Added(units, r.specs));
    forall i, k | 0 <= i < k < |all| ensures all[i].key != all[k].key {
      if i < |kept| {
        assert all[i].key == units[i].key;
        if k >= |kept| {
          var s := Added(units, r.specs)[k - |kept|];
          assert all[k] == NewUnit(s) && !HasKey(units, s.key);
        }
      }
    }
  }

  // ---------------------------------------------------------------- how one unit evolves

  /** Every step keeps a unit's claim history, never lowers its generation, and never reopens terminal work. */
  ghost predicate Evolves(u: Unit, v: Unit) {
    && u.key == v.key
    && u.grants <= v.grants
    && u.generation <= v.generation
    && (Terminal(u.state) ==> Terminal(v.state) && v.grants == u.grants)
    && (u.state == Cancelled ==> v.state == Cancelled)
    && (v.state == Claimed && v.generation == u.generation ==>
          u.state == Claimed && u.owner == v.owner && u.token == v.token)
  }

  ghost predicate AllEvolve(a: seq<Unit>, b: seq<Unit>) {
    |a| <= |b| && forall i :: 0 <= i < |a| ==> Evolves(a[i], b[i])
  }

  /** The owner keeps the unit and its generation; the lease can only have grown. */
  predicate StillOwned(u: Unit, v: Unit) {
    u.lease.Some? && v.lease.Some? && v == u.(lease := v.lease) && u.lease.value <= v.lease.value
  }

  lemma ClaimEvolves(b: Bundle, i: nat, actor: User, token: Digest, expected: Option<nat>, routing: Option<nat>,
                     policy: Policy, now: Time)
    ensures var c := ClaimUnit(b, i, actor, token, expected, routing, policy, now).0;
            && AllEvolve(b.units, c.units)
            && forall k :: 0 <= k < |b.units| && Live(b.units[k], now) ==> c.units[k] == b.units[k]
  {
  }

  lemma RenewEvolves(b: Bundle, i: nat, actor: User, token: Digest, generation: nat, deadline: Time, policy: Policy,
                     now: Time)
    ensures var c := RenewUnit(b, i, actor, token, generation, deadline, policy, now).0;
            && AllEvolve(b.units, c.units)
            && forall k :: 0 <= k < |b.units| && Live(b.units[k], now) ==> StillOwned(b.units[k], c.units[k])
  {
  }

  lemma ReleaseEvolves(b: Bundle, i: nat, actor: User, token: Digest, generation: nat, complete: bool, now: Time)
    ensures var c := ReleaseUnit(b, i, actor, token, generation, complete, now).0;
            && AllEvolve(b.units, c.units)
            && forall k :: 0 <= k < |b.units| && !(k == i && OwnedBy(b.units[k], actor, token, generation)) ==>
                 c.units[k] == b.units[k]
  {
  }

  /** An emergency takeover that the policy enables, the caller confirmed, and that names the unit. */
  predicate TakesOver(r: Routing, policy: Policy, u: Unit) {
    r.emergency && r.confirmed && policy.allowEmergency && u.key in r.takeover
  }

  lemma ReassignEvolves(b: Bundle, r: Routing, policy: Policy, members: set<User>, now: Time)
    ensures var c := ReassignBundle(b, r, policy, members, now).0;
            && AllEvolve(b.units, c.units)
            && forall k :: 0 <= k < |b.units| && Live(b.units[k], now) && !TakesOver(r, policy, b.units[k]) ==>
                 c.units[k] == b.units[k]
  {
    var (c, error) := ReassignBundle(b, r, policy, members, now);
    if error.None? {
      forall k | 0 <= k < |b.units|
        ensures Evolves(b.units[k], c.units[k])
        ensures Live(b.units[k], now) && !TakesOver(r, policy, b.units[k]) ==> c.units[k] == b.units[k]
      {
        assert c.units[k] == Rerouted(b.units[k], r, now);
        assert !FateOf(b.units[k], r, now).Refuse?;
      }
    }
  }

  /** A successful reassignment leaves each old unit alone or moves it to a new generation without an owner,
      available on the requested terms when it is still listed and cancelled when it is not. */
  lemma ReroutingFences(b: Bundle, r: Routing, policy: Policy, members: set<User>, now: Time, k: nat)
    requires BundleInv(b) && k < |b.units|
    requires ReassignBundle(b, r, policy, members, now).1.None?
    ensures var v := ReassignBundle(b, r, policy, members, now).0.units[k];
            var u := b.units[k];
            v == u ||
            (&& v.generation == u.generation + 1 && v.owner.None? && v.token.None? && v.lease.None?
             && v.grants == u.grants
             && !Terminal(u.state)
             && (v.state == Available <==> exists s :: s in r.specs && s.key == u.key)
             && (v.state == Available ==> Spec(v.key, v.summary, v.assignees) in r.specs)
             && (v.state != Available ==> v.state == Cancelled))
  {
    SelectedIs(r.specs, b.units[k].key);
    assert !FateOf(b.units[k], r, now).Refuse?;
  }

  /** A claim must select the unit as it is: any other routing version, and any generation but the current one - or,
      for the retry of a live claim, the one before it - is refused. */
  lemma StaleSelectionIsRefused(b: Bundle, i: nat, actor: User, token: Digest, expected: nat, routing: nat,
                                policy: Policy, now: Time)
    requires i < |b.units|
    requires b.version != routing || b.units[i].generation != expected + (if Live(b.units[i], now) then 1 else 0)
    ensures ClaimUnit(b, i, actor, token, Some(expected), Some(routing), policy, now).1.Refused?
    ensures ClaimUnit(b, i, actor, token, Some(expected), Some(routing), policy, now).0 == b
  {
  }

  /** Exactly when a claim is granted: the policy is on, the caller is an assignee in a retained bundle, the
      selection is current, the unit is available or its lease ran out, and the token is new. That an assignee of
      open work still receives the bundle need not be asked: it is part of the invariant. */
  lemma ClaimGrantedExactlyWhen(b: Bundle, i: nat, actor: User, token: Digest, expected: Option<nat>,
                                routing: Option<nat>, policy: Policy, now: Time)
    requires BundleInv(b)
    ensures var (c, answer) := ClaimUnit(b, i, actor, token, expected, routing, policy, now);
            && (answer.Granted? <==>
                  && policy.enabled && i < |b.units| && Retained(b, now) && actor in b.units[i].assignees
                  && (routing.Some? ==> routing.value == b.version)
                  && (expected.Some? ==> expected.value == b.units[i].generation)
                  && (b.units[i].state == Available
                      || (b.units[i].state == Claimed && b.units[i].lease.Some? && b.units[i].lease.value <= now))
                  && !Used(b.units[i], actor, token))
            && (answer.Granted? ==>
                  && c.units[i].grants == b.units[i].grants + [Grant(b.units[i].generation + 1, actor, token)]
                  && OwnedBy(c.units[i], actor, token, b.units[i].generation + 1))
  {
    if i < |b.units| {
      assert UnitInv(b.units[i], b.expiresAt, b.deliveries);
    }
  }

  /** Leases stay inside retention and the configured length; a renewal repeated later extends nothing more. */
  lemma WorkLeaseIsBounded(b: Bundle, i: nat, actor: User, token: Digest, generation: nat, deadline: Time,
                           policy: Policy, now: Time, again: Time)
    requires BundleInv(b) && i < |b.units| && now <= again
    ensures var (c, answer) := RenewUnit(b, i, actor, token, generation, deadline, policy, now);
            answer.Renewed? ==>
              && b.units[i].lease.Some? && b.units[i].lease.value <= answer.until <= b.expiresAt
              && answer.until <= Max(b.units[i].lease.value, now + policy.leaseSeconds)
              && (deadline <= b.expiresAt ==> deadline <= answer.until)
              && c.units[i] == b.units[i].(lease := Some(answer.until))
              && (answer.until > again && b.expiresAt > again ==>
                    RenewUnit(c, i, actor, token, generation, deadline, policy, again)
                        == (c, Renewed(answer.until, false)))
    ensures forall expected, routing ::
              var (c, answer) := ClaimUnit(b, i, actor, token, expected, routing, policy, now);
              answer.Granted? ==> OwnedBy(c.units[i], actor, token, b.units[i].generation + 1)
                                  && c.units[i].lease == Some(Min(b.expiresAt, now + policy.leaseSeconds))
  {
    assert UnitInv(b.units[i], b.expiresAt, b.deliveries);
    var c := RenewUnit(b, i, actor, token, generation, deadline, policy, now).0;
    assert c.units == c.units[i := c.units[i]];
  }

  // ---------------------------------------------------------------- the project

  datatype Checkpoint = Checkpoint(
    author: User, work: string, version: nat, classification: Classification, expiresAt: Time, forgotten: bool)

  /** A handoff with its receipts, pending requests and grants, as the lease protocol keeps them. */
  datatype Legacy = Legacy(sender: User, sys: HandoffLease.Sys)

  datatype Op =
    | Save(work: string, expected: nat, classification: Classification)
    | Publish(source: Source, expectedPolicy: nat, recipients: Option<seq<User>>, specs: Option<seq<Spec>>)
    | Reassign(bundle: nat, routing: Routing)
    | AcknowledgeDelivery(bundle: nat, delivery: nat)
    | Release(bundle: nat, unit: nat, token: Digest, generation: nat, complete: bool)
    | Forget(checkpoint: nat)

  datatype OpName = SaveName | PublishName | ReassignName | AckName | ReleaseName | ForgetName

  function Name(op: Op): OpName {
    match op
    case Save(_, _, _) => SaveName
    case Publish(_, _, _, _) => PublishName
    case Reassign(_, _) => ReassignName
    case AcknowledgeDelivery(_, _) => AckName
    case Release(_, _, _, _, _) => ReleaseName
    case Forget(_) => ForgetName
  }

  datatype ReceiptKey = ReceiptKey(actor: User, name: OpName, key: string)

  /** A receipt stores the digest of its request - which identifies the request - and the answer. */
  datatype Receipt = Receipt(op: Op, answer: nat)

  datatype Project = Project(
    policy: Policy, checkpoints: seq<Checkpoint>, legacy: map<string, Legacy>, bundles: seq<Bundle>,
    receipts: map<ReceiptKey, Receipt>)

  datatype Answer = Done(value: nat) | Replay(value: nat) | Failed(error: Error)

  function LatestVersion(cs: seq<Checkpoint>, author: User, work: string): nat {
    if cs == [] then 0
    else
      var c := cs[|cs| - 1];
      var before := LatestVersion(cs[..|cs| - 1], author, work);
      if c.author == author && c.work == work && before < c.version then c.version else before
  }

  /** The classification of the latest version; Public when there is none. */
  function LatestClass(cs: seq<Checkpoint>, author: User, work: string): Classification {
    if cs == [] then Public
    else
      var c := cs[|cs| - 1];
      var front := cs[..|cs| - 1];
      if c.author == author && c.work == work && LatestVersion(front, author, work) < c.version then c.classification
      else LatestClass(front, author, work)
  }

  function SaveCheckpoint(p: Project, actor: Actor, op: Op, now: Time): (Project, Answer)
    requires op.Save?
  {
    var version := LatestVersion(p.checkpoints, actor.user, op.work);
    if !p.policy.enabled then (p, Failed(PolicyMissing))
    else if version != op.expected then (p, Failed(Conflict))
    else if op.classification.Rank() < LatestClass(p.checkpoints, actor.user, op.work).Rank() then (p, Failed(Conflict))
    else
      var expires := now + p.policy.retentionSeconds;
      var row := Checkpoint(actor.user, op.work, version + 1, op.classification, expires, false);
      (p.(checkpoints := p.checkpoints + [row]), Done(|p.checkpoints|))
  }

  function Resolve(policy: Policy, sender: User): seq<User> {
    ResolveIn(policy.rules, policy.defaults, sender)
  }

  function ResolveIn(rules: seq<(User, seq<User>)>, defaults: seq<User>, sender: User): seq<User> {
    if rules == [] then defaults
    else if rules[0].0 == sender then rules[0].1
    else ResolveIn(rules[1..], defaults, sender)
  }

  /** Who sent the source, until when it is retained, and the legacy rows after a promotion. */
  datatype SourceRow = Found(sender: User, expiresAt: Time, legacy: map<string, Legacy>) | Missing(error: Error)

  function LocateSource(p: Project, actor: Actor, source: Source, now: Time): SourceRow {
    match source
    case FromCheckpoint(i) =>
      if i >= |p.checkpoints| || p.checkpoints[i].forgotten || p.checkpoints[i].expiresAt <= now then Missing(NotFound)
      else if p.checkpoints[i].author != actor.user && !actor.admin then Missing(NotFound)
      else Found(p.checkpoints[i].author, p.checkpoints[i].expiresAt, p.legacy)
    case FromHandoff(id) =>
      if !actor.admin then Missing(Forbidden)
      else if id !in p.legacy || !HandoffLease.Retained(p.legacy[id].sys.h.row, now) then Missing(NotFound)
      else
        var row := p.legacy[id];
        var (h, promoted) := HandoffLease.Promote(row.sys.h, now);
        if !promoted then Missing(Conflict)
        else Found(row.sender, row.sys.h.row.expiresAt.value, p.legacy[id := row.(sys := row.sys.(h := h))])
  }

  predicate HasBundle(bundles: seq<Bundle>, source: Source) {
    exists i :: 0 <= i < |bundles| && bundles[i].source == source
  }

  function PublishBundle(p: Project, actor: Actor, op: Op, members: set<User>, now: Time): (Project, Answer)
    requires op.Publish?
  {
    if !p.policy.enabled then (p, Failed(PolicyMissing))
    else if p.policy.version != op.expectedPolicy then (p, Failed(Conflict))
    else
      match LocateSource(p, actor, op.source, now)
      case Missing(error) => (p, Failed(error))
      case Found(sender, expiresAt, legacy) =>
        if HasBundle(p.bundles, op.source) then (p, Failed(Conflict))
        else
          var defaults := Resolve(p.policy, sender);
          var recipients := if op.recipients.Some? then op.recipients.value else defaults;
          var specs := if op.specs.Some? then op.specs.value
              else [Spec("continue", "Continue the pinned source after local preflight", Users(recipients))];
          if !actor.admin && !(Users(recipients) <= Users(defaults)) then (p, Failed(Forbidden))
          else if sender in Users(recipients) then (p, Failed(Invalid))
          else if !(Users(recipients) <= members) then (p, Failed(Ineligible))
          else if !UnitsValid(specs, Users(recipients)) then (p, Failed(Invalid))
          else
            var b := FreshBundle(op.source, sender, Min(expiresAt, now + p.policy.retentionSeconds), recipients, specs);
            (p.(bundles := p.bundles + [b], legacy := legacy), Done(|p.bundles|))
  }

  function Acknowledged(b: Bundle, d: nat, actor: User, now: Time): (Bundle, Option<Error>) {
    if d >= |b.deliveries| || b.deliveries[d].recipient != actor || b.deliveries[d].revoked || !Retained(b, now)
        then (b, Some(NotFound))
    else (b.(deliveries := b.deliveries[d := b.deliveries[d].(acknowledged := true)]), None)
  }

  function ForgetCheckpoint(p: Project, c: nat): (Project, Answer) {
    if c >= |p.checkpoints| then (p, Failed(NotFound))
    else if p.checkpoints[c].forgotten then (p, Done(c))
    else
      (p.(checkpoints := p.checkpoints[c := p.checkpoints[c].(forgotten := true)],
          bundles := seq(|p.bundles|, i requires 0 <= i < |p.bundles| =>
            if p.bundles[i].source == FromCheckpoint(c) && !p.bundles[i].revoked
            then RevokeBundle(p.bundles[i]) else p.bundles[i])),
       Done(c))
  }

  function WithBundle(p: Project, i: nat, r: (Bundle, Option<Error>)): (Project, Answer)
    requires i < |p.bundles|
  {
    if r.1.Some? then (p, Failed(r.1.value)) else (p.(bundles := p.bundles[i := r.0]), Done(i))
  }

  function Perform(p: Project, actor: Actor, op: Op, members: set<User>, now: Time): (Project, Answer) {
    match op
    case Save(_, _, _) => SaveCheckpoint(p, actor, op, now)
    case Publish(_, _, _, _) => PublishBundle(p, actor, op, members, now)
    case Reassign(i, routing) =>
      if i >= |p.bundles| then (p, Failed(NotFound))
      else WithBundle(p, i, ReassignBundle(p.bundles[i], routing, p.policy, members, now))
    case AcknowledgeDelivery(i, d) =>
      if i >= |p.bundles| then (p, Failed(NotFound))
      else WithBundle(p, i, Acknowledged(p.bundles[i], d, actor.user, now))
    case Release(i, u, token, generation, complete) =>
      if i >= |p.bundles| then (p, Failed(NotFound))
      else WithBundle(p, i, ReleaseUnit(p.bundles[i], u, actor.user, token, generation, complete, now))
    case Forget(c) => ForgetCheckpoint(p, c)
  }

  /** The tools of the admin scope. Authority is checked before anything is looked up, receipts included. */
  predicate Authorized(actor: Actor, op: Op) {
    op.Reassign? || op.Forget? ==> actor.admin
  }

  /** The receipt protocol around every keyed mutation. */
  function Keyed(p: Project, actor: Actor, key: string, op: Op, members: set<User>, now: Time): (Project, Answer) {
    var k := ReceiptKey(actor.user, Name(op), key);
    if !Authorized(actor, op) then (p, Failed(Forbidden))
    else if k in p.receipts then
      (p, if p.receipts[k].op == op then Replay(p.receipts[k].answer) else Failed(Conflict))
    else
      var (q, answer) := Perform(p, actor, op, members, now);
      if answer.Done? then (q.(receipts := q.receipts[k := Receipt(op, answer.value)]), answer) else (p, answer)
  }

  datatype Step =
    | KeyedStep(actor: Actor, key: string, op: Op, members: set<User>, now: Time)
    | ClaimStep(user: User, bundle: nat, unit: nat, token: Digest, expected: Option<nat>, routing: Option<nat>,
        now: Time)
    | RenewStep(user: User, bundle: nat, unit: nat, token: Digest, generation: nat, deadline: Time, now: Time)
    | PolicyStep(policy: Policy, now: Time)
    | InsertStep(id: string, sender: User, sys: HandoffLease.Sys, now: Time)
    | LegacyStep(id: string, step: HandoffLease.Step, now: Time)

  /** Requests obey the tool schema. A handoff is inserted once, and then takes any step of the lease protocol at any
      time; promotion alone is reserved to publication. */
  ghost predicate Enabled(p: Project, e: Step) {
    match e
    case KeyedStep(_, _, op, _, _) =>
      && (op.Reassign? ==> RecipientsValid(op.routing.recipients) && SpecsValid(op.routing.specs))
      && (op.Publish? && op.recipients.Some? ==> RecipientsValid(op.recipients.value))
      && (op.Publish? && op.specs.Some? ==> SpecsValid(op.specs.value))
    case PolicyStep(policy, _) =>
      && policy.version == p.policy.version + 1 && PolicyValid(policy)
    case InsertStep(id, _, sys, _) => id !in p.legacy && HandoffLease.Initial(sys)
    case LegacyStep(id, step, now) =>
      id in p.legacy && !step.PromoteStep? && step.now == now && HandoffLease.Enabled(p.legacy[id].sys, step)
    case _ => true
  }

  ghost predicate PolicyValid(policy: Policy) {
    RecipientsValid(policy.defaults) && forall i :: 0 <= i < |policy.rules| ==> RecipientsValid(policy.rules[i].1)
  }

  function Apply(p: Project, e: Step): Project {
    match e
    case KeyedStep(actor, key, op, members, now) => Keyed(p, actor, key, op, members, now).0
    case ClaimStep(actor, i, u, token, expected, routing, now) =>
      if i >= |p.bundles| then p
      else p.(bundles := p.bundles[i := ClaimUnit(p.bundles[i], u, actor, token, expected, routing, p.policy, now).0])
    case RenewStep(actor, i, u, token, generation, deadline, now) =>
      if i >= |p.bundles| then p
      else
        var b := RenewUnit(p.bundles[i], u, actor, token, generation, deadline, p.policy, now).0;
        p.(bundles := p.bundles[i := b])
    case PolicyStep(policy, now) => p.(policy := policy)
    case InsertStep(id, sender, sys, now) => p.(legacy := p.legacy[id := Legacy(sender, sys)])
    case LegacyStep(id, step, now) =>
      if id !in p.legacy then p
      else p.(legacy := p.legacy[id := p.legacy[id].(sys := HandoffLease.Apply(p.legacy[id].sys, step))])
  }

  const NO_POLICY := Policy(0, false, 0, 0, false, [], [])
  const EMPTY := Project(NO_POLICY, [], map[], [], map[])

  // ---------------------------------------------------------------- the project invariant

  /** Rows of the same author and work up to n. */
  function Saves(cs: seq<Checkpoint>, n: nat, author: User, work: string): nat
    requires n <= |cs|
  {
    if n == 0 then 0
    else Saves(cs, n - 1, author, work) + if cs[n - 1].author == author && cs[n - 1].work == work then 1 else 0
  }

  predicate IsNumbered(cs: seq<Checkpoint>, i: nat)
    requires i < |cs|
  {
    cs[i].version == Saves(cs, i, cs[i].author, cs[i].work) + 1
  }

  /** Versions of one author's work are 1, 2, 3, ... and its classification never falls. */
  ghost predicate CheckpointsInv(cs: seq<Checkpoint>) {
    && (forall i: nat :: i < |cs| ==> IsNumbered(cs, i))
    && (forall i, k :: 0 <= i < k < |cs| && cs[i].author == cs[k].author && cs[i].work == cs[k].work ==>
          cs[i].classification.Rank() <= cs[k].classification.Rank())
  }

  /** A bundle is revoked exactly when its source checkpoint was forgotten; a promoted row stays fenced. */
  ghost predicate SourceInv(p: Project, b: Bundle) {
    match b.source
    case FromCheckpoint(c) => c < |p.checkpoints| && (b.revoked <==> p.checkpoints[c].forgotten)
    case FromHandoff(id) => !b.revoked && id in p.legacy && p.legacy[id].sys.h.row.managed
  }

  ghost predicate BundlesInv(bs: seq<Bundle>) {
    && (forall i :: 0 <= i < |bs| ==> BundleInv(bs[i]))
    && (forall i, k :: 0 <= i < k < |bs| ==> bs[i].source != bs[k].source)
  }

  ghost predicate HandoffOk(legacy: map<string, Legacy>, id: string)
    requires id in legacy
  {
    HandoffLease.Inv(legacy[id].sys)
  }

  ghost predicate LegacyInv(legacy: map<string, Legacy>) {
    forall id {:trigger HandoffOk(legacy, id)} :: id in legacy ==> HandoffOk(legacy, id)
  }

  lemma ReplaceHandoffKeepsInvariant(legacy: map<string, Legacy>, id: string, row: Legacy)
    requires LegacyInv(legacy) && HandoffLease.Inv(row.sys)
    ensures LegacyInv(legacy[id := row])
  {
    var after := legacy[id := row];
    forall i | i in after ensures HandoffOk(after, i) {
      if i != id {
        assert HandoffOk(legacy, i);
      }
    }
  }

  ghost predicate ProjectInv(p: Project) {
    && LegacyInv(p.legacy)
    && (p.policy == NO_POLICY || PolicyValid(p.policy))
    && CheckpointsInv(p.checkpoints)
    && BundlesInv(p.bundles)
    && (forall i :: 0 <= i < |p.bundles| ==> SourceInv(p, p.bundles[i]))
  }

  lemma CheckpointsPrefix(cs: seq<Checkpoint>)
    requires CheckpointsInv(cs) && cs != []
    ensures CheckpointsInv(cs[..|cs| - 1])
  {
    var front := cs[..|cs| - 1];
    forall i: nat | i < |front| ensures IsNumbered(front, i) {
      assert IsNumbered(cs, i);
      SavesPrefix(cs, front, i, front[i].author, front[i].work);
    }
  }

  lemma {:induction false} LatestIsCount(cs: seq<Checkpoint>, author: User, work: string)
    requires CheckpointsInv(cs)
    ensures LatestVersion(cs, author, work) == Saves(cs, |cs|, author, work)
  {
    if cs == [] {
    } else {
      var front := cs[..|cs| - 1];
      SavesPrefix(cs, front, |front|, author, work);
      CheckpointsPrefix(cs);
      assert IsNumbered(cs, |front|);
      LatestIsCount(front, author, work);
    }
  }

  /** The newest checkpoint of a line of work is its last one. */
  lemma LastIsNewest(cs: seq<Checkpoint>)
    requires CheckpointsInv(cs) && cs != []
    ensures var n := |cs| - 1;
            LatestVersion(cs[..n], cs[n].author, cs[n].work) < cs[n].version
  {
    var n := |cs| - 1;
    var front := cs[..n];
    CheckpointsPrefix(cs);
    assert IsNumbered(cs, n);
    LatestIsCount(front, cs[n].author, cs[n].work);
    SavesPrefix(cs, front, n, cs[n].author, cs[n].work);
  }

  lemma {:induction false} LatestClassIsHighest(cs: seq<Checkpoint>, i: nat)
    requires CheckpointsInv(cs) && i < |cs|
    ensures cs[i].classification.Rank() <= LatestClass(cs, cs[i].author, cs[i].work).Rank()
    decreases |cs|
  {
    var n := |cs| - 1;
    LastIsNewest(cs);
    if cs[n].author == cs[i].author && cs[n].work == cs[i].work {
      assert LatestClass(cs, cs[i].author, cs[i].work) == cs[n].classification;
    } else {
      CheckpointsPrefix(cs);
      LatestClassIsHighest(cs[..n], i);
    }
  }

  lemma SavesPrefix(cs: seq<Checkpoint>, ds: seq<Checkpoint>, n: nat, author: User, work: string)
    requires n <= |cs| && n <= |ds|
    requires forall i :: 0 <= i < n ==> cs[i].author == ds[i].author && cs[i].work == ds[i].work
    ensures Saves(cs, n, author, work) == Saves(ds, n, author, work)
  {
  }

  lemma SaveKeepsCheckpoints(cs: seq<Checkpoint>, row: Checkpoint)
    requires CheckpointsInv(cs)
    requires row.version == LatestVersion(cs, row.author, row.work) + 1
    requires LatestClass(cs, row.author, row.work).Rank() <= row.classification.Rank()
    ensures CheckpointsInv(cs + [row])
  {
    LatestIsCount(cs, row.author, row.work);
    var ds := cs + [row];
    forall i | 0 <= i < |cs| && cs[i].author == row.author && cs[i].work == row.work
      ensures cs[i].classification.Rank() <= row.classification.Rank()
    {
      LatestClassIsHighest(cs, i);
    }
    forall i: nat | i < |ds| ensures IsNumbered(ds, i) {
      assert i < |cs| ==> IsNumbered(cs, i);
      SavesPrefix(cs, ds, i, ds[i].author, ds[i].work);
    }
  }

  lemma ForgetKeepsCheckpoints(cs: seq<Checkpoint>, c: nat)
    requires CheckpointsInv(cs) && c < |cs|
    ensures CheckpointsInv(cs[c := cs[c].(forgotten := true)])
  {
    var ds := cs[c := cs[c].(forgotten := true)];
    forall i: nat | i < |ds| ensures IsNumbered(ds, i) {
      assert i < |cs| ==> IsNumbered(cs, i);
      SavesPrefix(cs, ds, i, ds[i].author, ds[i].work);
    }
  }

  lemma ReplaceBundleKeepsInvariant(p: Project, i: nat, b: Bundle)
    requires ProjectInv(p) && i < |p.bundles| && BundleInv(b)
    requires b.source == p.bundles[i].source && b.revoked == p.bundles[i].revoked
    ensures ProjectInv(p.(bundles := p.bundles[i := b]))
  {
    var q := p.(bundles := p.bundles[i := b]);
    forall k | 0 <= k < |q.bundles| ensures SourceInv(q, q.bundles[k]) {
      assert SourceInv(p, p.bundles[k]);
    }
  }

  lemma AcknowledgeKeepsInvariant(b: Bundle, d: nat, actor: User, now: Time)
    requires BundleInv(b)
    ensures BundleInv(Acknowledged(b, d, actor, now).0)
  {
    var (c, error) := Acknowledged(b, d, actor, now);
    if error.None? {
      forall i | 0 <= i < |c.units| ensures UnitInv(c.units[i], c.expiresAt, c.deliveries) {
        assert UnitInv(b.units[i], b.expiresAt, b.deliveries);
        forall a | Receives(b.deliveries, a) ensures Receives(c.deliveries, a) {
          var k :| 0 <= k < |b.deliveries| && b.deliveries[k].recipient == a && !b.deliveries[k].revoked;
          assert c.deliveries[k].recipient == a && !c.deliveries[k].revoked;
        }
      }
    }
  }

  lemma ResolveIsValid(rules: seq<(User, seq<User>)>, defaults: seq<User>, sender: User)
    requires RecipientsValid(defaults) && forall i :: 0 <= i < |rules| ==> RecipientsValid(rules[i].1)
    ensures RecipientsValid(ResolveIn(rules, defaults, sender))
  {
  }

  lemma LocateKeepsLegacy(p: Project, actor: Actor, source: Source, now: Time)
    requires LegacyInv(p.legacy)
    ensures var row := LocateSource(p, actor, source, now);
            row.Found? ==>
              && LegacyInv(row.legacy)
              && (forall id :: id in p.legacy ==> id in row.legacy)
              && (source.FromHandoff? ==> source.id in row.legacy && row.legacy[source.id].sys.h.row.managed)
              && forall id :: id in p.legacy && HandoffLease.Closed(p.legacy[id].sys.h.row) ==>
                   row.legacy[id] == p.legacy[id]
  {
    if source.FromHandoff? && source.id in p.legacy {
      var row := p.legacy[source.id];
      assert HandoffOk(p.legacy, source.id);
      var h := HandoffLease.Promote(row.sys.h, now).0;
      HandoffLease.PromoteKeepsInvariant(row.sys, now);
      ReplaceHandoffKeepsInvariant(p.legacy, source.id, row.(sys := row.sys.(h := h)));
    }
  }

  /** Whatever publication inserts is a fresh bundle over requested or default recipients. */
  lemma PublishedIsFresh(p: Project, actor: Actor, op: Op, members: set<User>, now: Time)
    requires op.Publish? && PublishBundle(p, actor, op, members, now).1.Done?
    requires PolicyValid(p.policy)
    requires op.recipients.Some? ==> RecipientsValid(op.recipients.value)
    requires op.specs.Some? ==> SpecsValid(op.specs.value)
    ensures var q := PublishBundle(p, actor, op, members, now).0;
            && |q.bundles| == |p.bundles| + 1 && BundleInv(q.bundles[|p.bundles|])
            && q.bundles[|p.bundles|].source == op.source && !q.bundles[|p.bundles|].revoked
  {
    var row := LocateSource(p, actor, op.source, now);
    ResolveIsValid(p.policy.rules, p.policy.defaults, row.sender);
    var recipients := if op.recipients.Some? then op.recipients.value else Resolve(p.policy, row.sender);
    assert recipients[0] in Users(recipients);
    var specs := if op.specs.Some? then op.specs.value
                 else [Spec("continue", "Continue the pinned source after local preflight", Users(recipients))];
    FreshBundleInvariant(op.source, row.sender, Min(row.expiresAt, now + p.policy.retentionSeconds), recipients, specs);
  }

  lemma PublishKeepsInvariant(p: Project, actor: Actor, op: Op, members: set<User>, now: Time)
    requires ProjectInv(p) && op.Publish?
    requires op.recipients.Some? ==> RecipientsValid(op.recipients.value)
    requires op.specs.Some? ==> SpecsValid(op.specs.value)
    ensures ProjectInv(PublishBundle(p, actor, op, members, now).0)
  {
    var (q, answer) := PublishBundle(p, actor, op, members, now);
    if answer.Done? {
      LocateKeepsLegacy(p, actor, op.source, now);
      PublishedIsFresh(p, actor, op, members, now);
      forall k | 0 <= k < |q.bundles| ensures SourceInv(q, q.bundles[k]) {
        if k < |p.bundles| {
          assert SourceInv(p, p.bundles[k]);
        }
      }
    }
  }

  lemma ForgetKeepsInvariant(p: Project, c: nat)
    requires ProjectInv(p)
    ensures ProjectInv(ForgetCheckpoint(p, c).0)
  {
    var q := ForgetCheckpoint(p, c).0;
    if c < |p.checkpoints| && !p.checkpoints[c].forgotten {
      ForgetKeepsCheckpoints(p.checkpoints, c);
      forall k | 0 <= k < |q.bundles|
        ensures BundleInv(q.bundles[k]) && SourceInv(q, q.bundles[k]) && q.bundles[k].source == p.bundles[k].source
      {
        assert SourceInv(p, p.bundles[k]);
        RevokeKeepsInvariant(p.bundles[k]);
      }
    }
  }

  lemma PerformKeepsInvariant(p: Project, actor: Actor, op: Op, members: set<User>, now: Time)
    requires ProjectInv(p) && Enabled(p, KeyedStep(actor, "", op, members, now))
    ensures ProjectInv(Perform(p, actor, op, members, now).0)
  {
    match op
    case Save(work, expected, classification) =>
      var (q, answer) := SaveCheckpoint(p, actor, op, now);
      if answer.Done? {
        SaveKeepsCheckpoints(p.checkpoints, q.checkpoints[|p.checkpoints|]);
        forall k | 0 <= k < |q.bundles| ensures SourceInv(q, q.bundles[k]) {
          assert SourceInv(p, p.bundles[k]);
        }
      }
    case Publish(_, _, _, _) =>
      PublishKeepsInvariant(p, actor, op, members, now);
    case Reassign(i, routing) =>
      if i < |p.bundles| {
        ReassignKeepsInvariant(p.bundles[i], routing, p.policy, members, now);
        ReplaceBundleKeepsInvariant(p, i, ReassignBundle(p.bundles[i], routing, p.policy, members, now).0);
      }
    case AcknowledgeDelivery(i, d) =>
      if i < |p.bundles| {
        AcknowledgeKeepsInvariant(p.bundles[i], d, actor.user, now);
        ReplaceBundleKeepsInvariant(p, i, Acknowledged(p.bundles[i], d, actor.user, now).0);
      }
    case Release(i, u, token, generation, complete) =>
      if i < |p.bundles| {
        ReleaseKeepsInvariant(p.bundles[i], u, actor.user, token, generation, complete, now);
        ReplaceBundleKeepsInvariant(p, i, ReleaseUnit(p.bundles[i], u, actor.user, token, generation, complete, now).0);
      }
    case Forget(c) =>
      ForgetKeepsInvariant(p, c);
  }

  lemma ReceiptsAreIrrelevant(p: Project, receipts: map<ReceiptKey, Receipt>)
    requires ProjectInv(p)
    ensures ProjectInv(p.(receipts := receipts))
  {
    var q := p.(receipts := receipts);
    forall k | 0 <= k < |q.bundles| ensures SourceInv(q, q.bundles[k]) {
      assert SourceInv(p, p.bundles[k]);
    }
  }

  lemma HandoffStepKeepsInvariant(p: Project, e: Step)
    requires ProjectInv(p) && Enabled(p, e) && (e.InsertStep? || e.LegacyStep?)
    ensures ProjectInv(Apply(p, e))
  {
    var q := Apply(p, e);
    if e.InsertStep? {
      HandoffLease.InitialIsInvariant(e.sys);
    } else {
      assert HandoffOk(p.legacy, e.id);
      HandoffLease.StepKeepsInvariant(p.legacy[e.id].sys, e.step);
      if p.legacy[e.id].sys.h.row.managed {
        HandoffLease.ClosedStays(p.legacy[e.id].sys, e.step);
      }
    }
    ReplaceHandoffKeepsInvariant(p.legacy, e.id, q.legacy[e.id]);
    assert q.legacy == p.legacy[e.id := q.legacy[e.id]];
    forall k | 0 <= k < |q.bundles| ensures SourceInv(q, q.bundles[k]) {
      assert SourceInv(p, p.bundles[k]);
    }
  }

  lemma StepKeepsInvariant(p: Project, e: Step)
    requires ProjectInv(p) && Enabled(p, e)
    ensures ProjectInv(Apply(p, e))
  {
    match e
    case KeyedStep(actor, key, op, members, now) =>
      PerformKeepsInvariant(p, actor, op, members, now);
      var (q, answer) := Perform(p, actor, op, members, now);
      if answer.Done? {
        ReceiptsAreIrrelevant(q, q.receipts[ReceiptKey(actor.user, Name(op), key) := Receipt(op, answer.value)]);
      }
    case ClaimStep(user, i, u, token, expected, routing, now) =>
      if i < |p.bundles| {
        ClaimKeepsInvariant(p.bundles[i], u, user, token, expected, routing, p.policy, now);
        ReplaceBundleKeepsInvariant(p, i, ClaimUnit(p.bundles[i], u, user, token, expected, routing, p.policy, now).0);
      }
    case RenewStep(user, i, u, token, generation, deadline, now) =>
      if i < |p.bundles| {
        RenewKeepsInvariant(p.bundles[i], u, user, token, generation, deadline, p.policy, now);
        ReplaceBundleKeepsInvariant(p, i,
            RenewUnit(p.bundles[i], u, user, token, generation, deadline, p.policy, now).0);
      }
    case PolicyStep(policy, now) =>
      var q := Apply(p, e);
      forall k | 0 <= k < |q.bundles| ensures SourceInv(q, q.bundles[k]) {
        assert SourceInv(p, p.bundles[k]);
      }
    case InsertStep(_, _, _, _) => HandoffStepKeepsInvariant(p, e);
    case LegacyStep(_, _, _) => HandoffStepKeepsInvariant(p, e);
  }

  // ---------------------------------------------------------------- steps on one unit

  predicate IsUnit(p: Project, b: nat, i: nat) {
    b < |p.bundles| && i < |p.bundles[b].units|
  }

  function UnitAt(p: Project, b: nat, i: nat): Unit
    requires IsUnit(p, b, i)
  {
    p.bundles[b].units[i]
  }

  /** The only operations that may end a live lease: its owner's release, a takeover of the unit, erasure of its
      source. */
  predicate EndsBy(p: Project, actor: User, op: Op, b: nat, i: nat)
    requires IsUnit(p, b, i)
  {
    match op
    case Release(c, k, token, generation, _) => c == b && k == i && OwnedBy(UnitAt(p, b, i), actor, token, generation)
    case Reassign(c, r) => c == b && TakesOver(r, p.policy, UnitAt(p, b, i))
    case Forget(c) => p.bundles[b].source == FromCheckpoint(c)
    case _ => false
  }

  /** A step that took effect as one of them; a refused or replayed call ends nothing. */
  predicate Ends(p: Project, e: Step, b: nat, i: nat)
    requires IsUnit(p, b, i)
  {
    && e.KeyedStep? && Keyed(p, e.actor, e.key, e.op, e.members, e.now).1.Done?
    && EndsBy(p, e.actor.user, e.op, b, i)
  }

  lemma RevokeEvolves(b: Bundle)
    ensures AllEvolve(b.units, RevokeBundle(b).units)
  {
  }

  lemma OtherOpsKeepUnits(p: Project, actor: Actor, op: Op, members: set<User>, now: Time, b: nat)
    requires b < |p.bundles| && (op.Save? || op.Publish? || op.AcknowledgeDelivery?)
    ensures var q := Perform(p, actor, op, members, now).0;
            b < |q.bundles| && q.bundles[b].units == p.bundles[b].units
  {
  }

  lemma PerformEvolves(p: Project, actor: Actor, op: Op, members: set<User>, now: Time, b: nat, i: nat)
    requires IsUnit(p, b, i)
    ensures var q := Perform(p, actor, op, members, now).0;
            && IsUnit(q, b, i) && Evolves(UnitAt(p, b, i), UnitAt(q, b, i))
            && (Live(UnitAt(p, b, i), now) && !EndsBy(p, actor.user, op, b, i) ==>
                  UnitAt(q, b, i) == UnitAt(p, b, i))
  {
    if op.Save? || op.Publish? || op.AcknowledgeDelivery? {
      OtherOpsKeepUnits(p, actor, op, members, now, b);
    } else {
      BundleOpEvolves(p, actor, op, members, now, b, i);
    }
  }

  lemma BundleOpEvolves(p: Project, actor: Actor, op: Op, members: set<User>, now: Time, b: nat, i: nat)
    requires IsUnit(p, b, i) && (op.Reassign? || op.Release? || op.Forget?)
    ensures var q := Perform(p, actor, op, members, now).0;
            && IsUnit(q, b, i) && Evolves(UnitAt(p, b, i), UnitAt(q, b, i))
            && (Live(UnitAt(p, b, i), now) && !EndsBy(p, actor.user, op, b, i) ==>
                  UnitAt(q, b, i) == UnitAt(p, b, i))
  {
    if op.Reassign? {
      ReassignOpEvolves(p, actor, op, members, now, b, i);
    } else if op.Release? {
      if op.bundle < |p.bundles| {
        ReleaseEvolves(p.bundles[op.bundle], op.unit, actor.user, op.token, op.generation, op.complete, now);
      }
    } else {
      RevokeEvolves(p.bundles[b]);
    }
  }

  lemma ReassignOpEvolves(p: Project, actor: Actor, op: Op, members: set<User>, now: Time, b: nat, i: nat)
    requires IsUnit(p, b, i) && op.Reassign?
    ensures var q := Perform(p, actor, op, members, now).0;
            && IsUnit(q, b, i) && Evolves(UnitAt(p, b, i), UnitAt(q, b, i))
            && (Live(UnitAt(p, b, i), now) && !EndsBy(p, actor.user, op, b, i) ==>
                  UnitAt(q, b, i) == UnitAt(p, b, i))
  {
    if op.bundle < |p.bundles| {
      ReassignEvolves(p.bundles[op.bundle], op.routing, p.policy, members, now);
    }
  }

  lemma StepEvolves(p: Project, e: Step, b: nat, i: nat)
    requires IsUnit(p, b, i)
    ensures IsUnit(Apply(p, e), b, i) && Evolves(UnitAt(p, b, i), UnitAt(Apply(p, e), b, i))
    ensures Live(UnitAt(p, b, i), e.now) && !Ends(p, e, b, i) ==> StillOwned(UnitAt(p, b, i), UnitAt(Apply(p, e), b, i))
  {
    match e
    case KeyedStep(actor, key, op, members, now) =>
      PerformEvolves(p, actor, op, members, now, b, i);
    case ClaimStep(user, c, u, token, expected, routing, now) =>
      if c < |p.bundles| {
        ClaimEvolves(p.bundles[c], u, user, token, expected, routing, p.policy, now);
      }
    case RenewStep(user, c, u, token, generation, deadline, now) =>
      if c < |p.bundles| {
        RenewEvolves(p.bundles[c], u, user, token, generation, deadline, p.policy, now);
      }
    case PolicyStep(_, _) =>
    case InsertStep(_, _, _, _) =>
    case LegacyStep(_, _, _) =>
  }

  // ---------------------------------------------------------------- runs

  ghost predicate StepAt(tr: seq<Project>, es: seq<Step>, i: nat)
    requires i < |es| && |tr| == |es| + 1
  {
    && Enabled(tr[i], es[i]) && tr[i + 1] == Apply(tr[i], es[i])
    && (i > 0 ==> es[i - 1].now <= es[i].now)
  }

  ghost predicate IsRun(tr: seq<Project>, es: seq<Step>) {
    && |tr| == |es| + 1 && tr[0] == EMPTY
    && forall i :: 0 <= i < |es| ==> StepAt(tr, es, i)
  }

  /** The joint invariant holds in every reachable state. */
  lemma {:induction false} RunKeepsInvariant(tr: seq<Project>, es: seq<Step>, m: nat)
    requires IsRun(tr, es) && m < |tr|
    ensures ProjectInv(tr[m])
  {
    if m == 0 {
    } else {
      RunKeepsInvariant(tr, es, m - 1);
      assert StepAt(tr, es, m - 1);
      StepKeepsInvariant(tr[m - 1], es[m - 1]);
    }
  }

  /** Units are never deleted; generations and claim rows only grow; terminal work is never claimed again. */
  lemma {:induction false} UnitsEvolve(tr: seq<Project>, es: seq<Step>, k: nat, m: nat, b: nat, i: nat)
    requires IsRun(tr, es) && k <= m < |tr| && IsUnit(tr[k], b, i)
    ensures IsUnit(tr[m], b, i) && Evolves(UnitAt(tr[k], b, i), UnitAt(tr[m], b, i))
    decreases m
  {
    if k == m {
    } else {
      UnitsEvolve(tr, es, k, m - 1, b, i);
      assert StepAt(tr, es, m - 1);
      StepEvolves(tr[m - 1], es[m - 1], b, i);
    }
  }

  /** Over a whole run each generation of a unit goes to one actor and token, and no pair gets two generations. */
  lemma GenerationsAreFenced(tr: seq<Project>, es: seq<Step>, k: nat, m: nat, b: nat, i: nat, g: Grant, h: Grant)
    requires IsRun(tr, es) && k <= m < |tr| && IsUnit(tr[k], b, i) && IsUnit(tr[m], b, i)
    requires g in UnitAt(tr[k], b, i).grants && h in UnitAt(tr[m], b, i).grants
    ensures g.generation == h.generation || (g.actor == h.actor && g.token == h.token) ==> g == h
  {
    UnitsEvolve(tr, es, k, m, b, i);
    RunKeepsInvariant(tr, es, m);
    assert UnitInv(UnitAt(tr[m], b, i), tr[m].bundles[b].expiresAt, tr[m].bundles[b].deliveries);
    assert g in UnitAt(tr[m], b, i).grants;
  }

  /** While a lease has not run out, and none of the three ending steps occurs, its owner keeps the unit and its
      generation, the lease never shrinks, and no other claim row appears. */
  lemma {:induction false} OwnershipIsExclusive(tr: seq<Project>, es: seq<Step>, k: nat, m: nat, b: nat, i: nat,
                                                now: Time)
    requires IsRun(tr, es) && k <= m < |tr| && IsUnit(tr[k], b, i)
    requires Live(UnitAt(tr[k], b, i), now) && (m > 0 ==> es[m - 1].now <= now)
    requires forall j :: k <= j < m ==> IsUnit(tr[j], b, i) && !Ends(tr[j], es[j], b, i)
    ensures IsUnit(tr[m], b, i) && StillOwned(UnitAt(tr[k], b, i), UnitAt(tr[m], b, i))
    ensures Live(UnitAt(tr[m], b, i), now)
    decreases m
  {
    if k == m {
    } else {
      assert StepAt(tr, es, m - 1);
      OwnershipIsExclusive(tr, es, k, m - 1, b, i, now);
      StepEvolves(tr[m - 1], es[m - 1], b, i);
    }
  }

  /** The same along runs, for every bundle of every reachable state. */
  lemma ReachableClaimGrantedExactlyWhen(tr: seq<Project>, es: seq<Step>, m: nat, b: nat, i: nat, actor: User,
                                         token: Digest, expected: Option<nat>, routing: Option<nat>, now: Time)
    requires IsRun(tr, es) && m < |tr| && b < |tr[m].bundles|
    ensures var bundle := tr[m].bundles[b];
            ClaimUnit(bundle, i, actor, token, expected, routing, tr[m].policy, now).1.Granted? <==>
              && tr[m].policy.enabled && i < |bundle.units| && Retained(bundle, now)
              && actor in bundle.units[i].assignees
              && (routing.Some? ==> routing.value == bundle.version)
              && (expected.Some? ==> expected.value == bundle.units[i].generation)
              && (bundle.units[i].state == Available
                  || (bundle.units[i].state == Claimed && bundle.units[i].lease.Some?
                      && bundle.units[i].lease.value <= now))
              && !Used(bundle.units[i], actor, token)
  {
    RunKeepsInvariant(tr, es, m);
    ClaimGrantedExactlyWhen(tr[m].bundles[b], i, actor, token, expected, routing, tr[m].policy, now);
  }

  /** Whoever lost a claim never passes its fence again: the generation it held is not handed out twice. */
  lemma LostClaimNeverReturns(tr: seq<Project>, es: seq<Step>, k: nat, m: nat, b: nat, i: nat, actor: User,
                              token: Digest, g: nat)
    requires IsRun(tr, es) && k <= m < |tr| && IsUnit(tr[k], b, i) && IsUnit(tr[m], b, i)
    requires UnitAt(tr[k], b, i).generation >= g && !OwnedBy(UnitAt(tr[k], b, i), actor, token, g)
    ensures !OwnedBy(UnitAt(tr[m], b, i), actor, token, g)
    ensures forall now :: !Active(tr[m].bundles[b], i, actor, token, g, now)
  {
    UnitsEvolve(tr, es, k, m, b, i);
  }

  lemma OtherStepsKeepHandoffs(p: Project, e: Step)
    requires !e.InsertStep? && !e.LegacyStep? && !(e.KeyedStep? && e.op.Publish?)
    ensures Apply(p, e).legacy == p.legacy
  {
  }

  lemma PublishKeepsHandoff(p: Project, e: Step, id: string)
    requires LegacyInv(p.legacy) && e.KeyedStep? && e.op.Publish?
    requires id in p.legacy && HandoffLease.Closed(p.legacy[id].sys.h.row)
    ensures id in Apply(p, e).legacy && Apply(p, e).legacy[id] == p.legacy[id]
  {
    LocateKeepsLegacy(p, e.actor, e.op.source, e.now);
  }

  lemma ClosedHandoffStays(p: Project, e: Step, id: string)
    requires LegacyInv(p.legacy) && Enabled(p, e) && id in p.legacy && HandoffLease.Closed(p.legacy[id].sys.h.row)
    ensures var q := Apply(p, e);
            && id in q.legacy && q.legacy[id].sys.h == p.legacy[id].sys.h
            && q.legacy[id].sys.grants == p.legacy[id].sys.grants
  {
    if e.LegacyStep? {
      if e.id == id {
        assert HandoffOk(p.legacy, id);
        HandoffLease.ClosedStays(p.legacy[id].sys, e.step);
      }
    } else if e.KeyedStep? && e.op.Publish? {
      PublishKeepsHandoff(p, e, id);
    } else if !e.InsertStep? {
      OtherStepsKeepHandoffs(p, e);
    }
  }

  /** A bundle keeps its source, and once revoked stays so. */
  ghost predicate SameSource(p: Project, q: Project, b: nat)
    requires b < |p.bundles|
  {
    b < |q.bundles| && q.bundles[b].source == p.bundles[b].source && (p.bundles[b].revoked ==> q.bundles[b].revoked)
  }

  lemma PublishKeepsSource(p: Project, actor: Actor, op: Op, members: set<User>, now: Time, b: nat)
    requires b < |p.bundles| && op.Publish?
    ensures SameSource(p, PublishBundle(p, actor, op, members, now).0, b)
  {
  }

  lemma RoutingKeepsSource(b: Bundle, r: Routing, policy: Policy, members: set<User>, now: Time)
    ensures var c := ReassignBundle(b, r, policy, members, now).0;
            c.source == b.source && c.revoked == b.revoked
  {
  }

  lemma OperationKeepsSource(p: Project, actor: Actor, op: Op, members: set<User>, now: Time, b: nat)
    requires b < |p.bundles|
    ensures SameSource(p, Perform(p, actor, op, members, now).0, b)
  {
    match op
    case Save(_, _, _) =>
    case Publish(_, _, _, _) => PublishKeepsSource(p, actor, op, members, now, b);
    case Reassign(c, r) =>
      if c < |p.bundles| {
        RoutingKeepsSource(p.bundles[c], r, p.policy, members, now);
      }
    case AcknowledgeDelivery(_, _) =>
    case Release(_, _, _, _, _) =>
    case Forget(_) =>
  }

  lemma SourceStays(p: Project, e: Step, b: nat)
    requires b < |p.bundles|
    ensures SameSource(p, Apply(p, e), b)
  {
    if e.KeyedStep? {
      OperationKeepsSource(p, e.actor, e.op, e.members, e.now, b);
    }
  }

  lemma PromotedIsClosed(p: Project, b: nat, now: Time)
    requires ProjectInv(p) && b < |p.bundles| && p.bundles[b].source.FromHandoff?
    ensures var id := p.bundles[b].source.id;
            && id in p.legacy && p.legacy[id].sys.h.row.managed && !HandoffLease.LeaseLive(p.legacy[id].sys.h.row, now)
  {
    assert SourceInv(p, p.bundles[b]) && HandoffOk(p.legacy, p.bundles[b].source.id);
  }

  /** Promotion fences the legacy row: from then on no claim, pull, sweep, renewal, acknowledgement or rejection,
      however it interleaves, changes the row, its receipts or its grants, and nobody holds a live lease on it. */
  lemma {:induction false} PromotedIsFrozen(tr: seq<Project>, es: seq<Step>, k: nat, m: nat, b: nat, now: Time)
    requires IsRun(tr, es) && k <= m < |tr| && b < |tr[k].bundles| && tr[k].bundles[b].source.FromHandoff?
    ensures b < |tr[m].bundles| && tr[m].bundles[b].source == tr[k].bundles[b].source
    ensures var id := tr[k].bundles[b].source.id;
            && id in tr[k].legacy && id in tr[m].legacy && tr[k].legacy[id].sys.h.row.managed
            && tr[m].legacy[id].sys.h == tr[k].legacy[id].sys.h
            && tr[m].legacy[id].sys.grants == tr[k].legacy[id].sys.grants
            && !HandoffLease.LeaseLive(tr[m].legacy[id].sys.h.row, now)
    decreases m
  {
    RunKeepsInvariant(tr, es, k);
    PromotedIsClosed(tr[k], b, now);
    if k == m {
    } else {
      PromotedIsFrozen(tr, es, k, m - 1, b, now);
      RunKeepsInvariant(tr, es, m - 1);
      assert StepAt(tr, es, m - 1);
      SourceStays(tr[m - 1], es[m - 1], b);
      ClosedHandoffStays(tr[m - 1], es[m - 1], tr[k].bundles[b].source.id);
    }
  }

  // ---------------------------------------------------------------- completed work

  /** The step is an administrator's first erasure of the checkpoint behind bundle b; all of it can be read before
      the call. */
  predicate Erases(p: Project, e: Step, b: nat)
    requires b < |p.bundles|
  {
    && e.KeyedStep? && e.op.Forget? && e.actor.admin && ReceiptKey(e.actor.user, ForgetName, e.key) !in p.receipts
    && p.bundles[b].source == FromCheckpoint(e.op.checkpoint)
  }

  /** One step leaves a completed unit completed unless it erases the unit's source, which cancels it. */
  lemma CompletedStep(p: Project, e: Step, b: nat, i: nat)
    requires ProjectInv(p) && IsUnit(p, b, i) && UnitAt(p, b, i).state == Completed
    ensures IsUnit(Apply(p, e), b, i)
    ensures UnitAt(Apply(p, e), b, i).state == if Erases(p, e, b) then Cancelled else Completed
  {
    assert BundleInv(p.bundles[b]) && SourceInv(p, p.bundles[b]);
    StepEvolves(p, e, b, i);
    if e.KeyedStep? && !e.op.Forget? {
      CompletedSurvivesOps(p, e.actor, e.op, e.members, e.now, b, i);
    }
  }

  lemma CompletedSurvivesOps(p: Project, actor: Actor, op: Op, members: set<User>, now: Time, b: nat, i: nat)
    requires IsUnit(p, b, i) && UnitAt(p, b, i).state == Completed && !op.Forget?
    ensures var q := Perform(p, actor, op, members, now).0;
            IsUnit(q, b, i) && UnitAt(q, b, i).state == Completed
  {
    if op.Save? || op.Publish? || op.AcknowledgeDelivery? {
      OtherOpsKeepUnits(p, actor, op, members, now, b);
    } else if op.Reassign? && op.bundle == b {
      var q := Perform(p, actor, op, members, now).0;
      assert q == p || UnitAt(q, b, i) == Rerouted(UnitAt(p, b, i), op.routing, now);
    }
  }

  /** Erased or still completed. */
  ghost predicate CompletedOrErased(p: Project, b: nat, i: nat) {
    IsUnit(p, b, i) && UnitAt(p, b, i).state == if p.bundles[b].revoked then Cancelled else Completed
  }

  lemma CompletedIsNotErased(p: Project, b: nat, i: nat)
    requires ProjectInv(p) && IsUnit(p, b, i) && UnitAt(p, b, i).state == Completed
    ensures CompletedOrErased(p, b, i)
  {
    assert BundleInv(p.bundles[b]);
  }

  lemma SourceDecides(p: Project, b: nat)
    requires ProjectInv(p) && b < |p.bundles|
    ensures match p.bundles[b].source
            case FromCheckpoint(c) => c < |p.checkpoints| && (p.bundles[b].revoked <==> p.checkpoints[c].forgotten)
            case FromHandoff(_) => !p.bundles[b].revoked
  {
    assert SourceInv(p, p.bundles[b]);
  }

  lemma ErasureStep(p: Project, e: Step, b: nat, i: nat)
    requires ProjectInv(p) && Enabled(p, e) && CompletedOrErased(p, b, i)
    ensures CompletedOrErased(Apply(p, e), b, i)
    ensures UnitAt(Apply(p, e), b, i).state == Completed <==> UnitAt(p, b, i).state == Completed && !Erases(p, e, b)
  {
    SourceStays(p, e, b);
    StepEvolves(p, e, b, i);
    if UnitAt(p, b, i).state == Completed {
      CompletedStep(p, e, b, i);
      StepKeepsInvariant(p, e);
      if !Erases(p, e, b) {
        CompletedIsNotErased(Apply(p, e), b, i);
      } else {
        ErasureRevokes(p, e, b);
      }
    }
  }

  lemma ErasureRevokes(p: Project, e: Step, b: nat)
    requires ProjectInv(p) && b < |p.bundles| && Erases(p, e, b)
    ensures Apply(p, e).bundles[b].revoked
  {
    SourceDecides(p, b);
  }

  ghost predicate ErasedAt(tr: seq<Project>, es: seq<Step>, j: nat, b: nat)
    requires j < |es| && |tr| == |es| + 1
  {
    b < |tr[j].bundles| && Erases(tr[j], es[j], b)
  }

  lemma ErasureStepAt(tr: seq<Project>, es: seq<Step>, j: nat, b: nat, i: nat)
    requires IsRun(tr, es) && j < |es| && CompletedOrErased(tr[j], b, i)
    ensures CompletedOrErased(tr[j + 1], b, i)
    ensures UnitAt(tr[j + 1], b, i).state == Completed <==>
            UnitAt(tr[j], b, i).state == Completed && !ErasedAt(tr, es, j, b)
  {
    RunKeepsInvariant(tr, es, j);
    assert StepAt(tr, es, j);
    ErasureStep(tr[j], es[j], b, i);
  }

  lemma {:induction false} CompletedUntilStep(tr: seq<Project>, es: seq<Step>, k: nat, m: nat, b: nat, i: nat)
    requires IsRun(tr, es) && k <= m < |tr| && IsUnit(tr[k], b, i) && UnitAt(tr[k], b, i).state == Completed
    ensures CompletedOrErased(tr[m], b, i)
    ensures UnitAt(tr[m], b, i).state == Completed <==> forall j: nat :: k <= j < m ==> !ErasedAt(tr, es, j, b)
    decreases m
  {
    if k < m {
      CompletedUntilStep(tr, es, k, m - 1, b, i);
      ErasureStepAt(tr, es, m - 1, b, i);
    } else {
      RunKeepsInvariant(tr, es, k);
      CompletedIsNotErased(tr[k], b, i);
    }
  }

  /** Exactly when "completed is permanent" holds: over any run, a completed unit is still completed if and only if
      no step in between erased its source, that is, if and only if its bundle is not revoked, and otherwise it is
      cancelled. For a checkpoint that is whether the checkpoint is forgotten; work over a promoted handoff stays
      completed for good. */
  lemma CompletedUntilErased(tr: seq<Project>, es: seq<Step>, k: nat, m: nat, b: nat, i: nat)
    requires IsRun(tr, es) && k <= m < |tr| && IsUnit(tr[k], b, i) && UnitAt(tr[k], b, i).state == Completed
    ensures IsUnit(tr[m], b, i)
    ensures UnitAt(tr[m], b, i).state == if tr[m].bundles[b].revoked then Cancelled else Completed
    ensures UnitAt(tr[m], b, i).state == Completed <==> forall j: nat :: k <= j < m ==> !ErasedAt(tr, es, j, b)
    ensures match tr[m].bundles[b].source
            case FromCheckpoint(c) =>
              c < |tr[m].checkpoints| && (UnitAt(tr[m], b, i).state == Completed <==> !tr[m].checkpoints[c].forgotten)
            case FromHandoff(_) => UnitAt(tr[m], b, i).state == Completed
  {
    CompletedUntilStep(tr, es, k, m, b, i);
    RunKeepsInvariant(tr, es, m);
    SourceDecides(tr[m], b);
  }

  lemma RunGrows(tr: seq<Project>, es: seq<Step>, e: Step) returns (longer: seq<Project>)
    requires IsRun(tr, es) && Enabled(tr[|es|], e) && (es != [] ==> es[|es| - 1].now <= e.now)
    ensures longer == tr + [Apply(tr[|es|], e)] && IsRun(longer, es + [e])
  {
    longer := tr + [Apply(tr[|es|], e)];
    forall i | 0 <= i < |es| + 1 ensures StepAt(longer, es + [e], i) {
      if i < |es| {
        assert StepAt(tr, es, i);
      }
    }
  }

  const OPEN_POLICY := Policy(1, true, 60, 3600, false, ["bob"], [])
  const ANN := Actor("ann", false)
  const BOB := Actor("bob", false)
  const ADMIN := Actor("root", true)

  lemma PublishedForBob(p: Project)
    requires p == EMPTY.(policy := OPEN_POLICY)
    ensures var q := Keyed(p, ANN, "k1", Save("work", 0, Public), {}, 0).0;
            var r := Keyed(q, ANN, "k2", Publish(FromCheckpoint(0), 1, None, None), {"bob"}, 0).0;
            && r.policy == OPEN_POLICY && |r.bundles| == 1 && |r.checkpoints| == 1 && !r.checkpoints[0].forgotten
            && r.bundles[0] == FreshBundle(FromCheckpoint(0), "ann", 3600, ["bob"],
                                           [Spec("continue", "Continue the pinned source after local preflight",
                                               {"bob"})])
            && r.receipts.Keys == {ReceiptKey("ann", SaveName, "k1"), ReceiptKey("ann", PublishName, "k2")}
  {
    var q := Keyed(p, ANN, "k1", Save("work", 0, Public), {}, 0).0;
    assert q.checkpoints == [Checkpoint("ann", "work", 1, Public, 3600, false)];
    assert q.receipts.Keys == {ReceiptKey("ann", SaveName, "k1")};
    assert ResolveIn([], ["bob"], "ann") == ["bob"];
    assert Users(["bob"]) == {"bob"} by {
      assert ["bob"][0] == "bob";
    }
    assert "ann" !in {"bob"} by {
      assert "ann"[0] == 'a' && "bob"[0] == 'b';
    }
  }

  lemma BobCompletes(p: Project)
    requires p.policy == OPEN_POLICY && |p.bundles| == 1 && BobMayClaim(p.bundles[0])
    requires ReceiptKey("bob", ReleaseName, "k3") !in p.receipts
    ensures var q := Apply(p, ClaimStep("bob", 0, 0, "token", None, None, 0));
            var r := Keyed(q, BOB, "k3", Release(0, 0, "token", 1, true), {}, 0).0;
            && r.checkpoints == p.checkpoints && |r.bundles| == 1 && r.bundles[0].source == p.bundles[0].source
            && |r.bundles[0].units| == 1 && r.bundles[0].units[0].state == Completed
            && r.receipts.Keys == p.receipts.Keys + {ReceiptKey("bob", ReleaseName, "k3")}
  {
    var q := Apply(p, ClaimStep("bob", 0, 0, "token", None, None, 0));
    assert q.bundles[0].units[0].state == Claimed && Active(q.bundles[0], 0, "bob", "token", 1, 0);
  }

  predicate BobMayClaim(b: Bundle) {
    && Retained(b, 0) && Receives(b.deliveries, "bob") && |b.units| == 1
    && b.units[0].state == Available && b.units[0].grants == [] && b.units[0].generation == 0
    && "bob" in b.units[0].assignees
  }

  lemma PublishedRun() returns (tr: seq<Project>, es: seq<Step>)
    ensures IsRun(tr, es) && |es| == 3 && es[2].now == 0
    ensures var p := tr[3];
            && p.policy == OPEN_POLICY && |p.bundles| == 1 && BobMayClaim(p.bundles[0])
            && p.bundles[0].source == FromCheckpoint(0)
            && p.receipts.Keys == {ReceiptKey("ann", SaveName, "k1"), ReceiptKey("ann", PublishName, "k2")}
  {
    var save := KeyedStep(ANN, "k1", Save("work", 0, Public), {}, 0);
    var publish := KeyedStep(ANN, "k2", Publish(FromCheckpoint(0), 1, None, None), {"bob"}, 0);
    es := [PolicyStep(OPEN_POLICY, 0)];
    tr := RunGrows([EMPTY], [], es[0]);
    assert [] + [es[0]] == es;
    tr := RunGrows(tr, es, save);
    es := es + [save];
    tr := RunGrows(tr, es, publish);
    es := es + [publish];
    PublishedForBob(tr[1]);
    var b := tr[3].bundles[0];
    assert b.deliveries[0] == Delivery("bob", 1, false, false);
    assert b.units[0].assignees == {"bob"};
  }

  lemma CompletedRun() returns (tr: seq<Project>, es: seq<Step>)
    ensures IsRun(tr, es) && |es| == 5 && es[4].now == 0
    ensures var p := tr[5];
            && |p.bundles| == 1 && IsUnit(p, 0, 0) && UnitAt(p, 0, 0).state == Completed
            && p.bundles[0].source == FromCheckpoint(0)
            && ReceiptKey("root", ForgetName, "k4") !in p.receipts
  {
    tr, es := PublishedRun();
    var published := tr[3];
    BobCompletes(published);
    var claim := ClaimStep("bob", 0, 0, "token", None, None, 0);
    tr := RunGrows(tr, es, claim);
    es := es + [claim];
    var complete := KeyedStep(BOB, "k3", Release(0, 0, "token", 1, true), {}, 0);
    tr := RunGrows(tr, es, complete);
    es := es + [complete];
  }

  /** "Completed is permanent" is false: save, publish, claim, complete, then have an administrator forget the
      checkpoint, and the unit is cancelled. */
  lemma CompletedCanBeCancelled() returns (tr: seq<Project>, es: seq<Step>)
    ensures IsRun(tr, es) && |es| == 6 && es[5].KeyedStep? && es[5].op == Forget(0) && es[5].actor.admin
    ensures IsUnit(tr[5], 0, 0) && UnitAt(tr[5], 0, 0).state == Completed
    ensures IsUnit(tr[6], 0, 0) && UnitAt(tr[6], 0, 0).state == Cancelled
  {
    tr, es := CompletedRun();
    var completed := tr[5];
    RunKeepsInvariant(tr, es, 5);
    var forget := KeyedStep(ADMIN, "k4", Forget(0), {}, 0);
    tr := RunGrows(tr, es, forget);
    es := es + [forget];
    CompletedStep(completed, forget, 0, 0);
  }

  // ---------------------------------------------------------------- receipts

  lemma PerformKeepsReceipts(p: Project, actor: Actor, op: Op, members: set<User>, now: Time)
    ensures Perform(p, actor, op, members, now).0.receipts == p.receipts
  {
  }

  lemma StepKeepsReceipts(p: Project, e: Step, k: ReceiptKey)
    requires k in p.receipts
    ensures k in Apply(p, e).receipts && Apply(p, e).receipts[k] == p.receipts[k]
  {
    if e.KeyedStep? {
      PerformKeepsReceipts(p, e.actor, e.op, e.members, e.now);
    }
  }

  lemma {:induction false} ReceiptsAreForever(tr: seq<Project>, es: seq<Step>, k: nat, m: nat, key: ReceiptKey)
    requires IsRun(tr, es) && k <= m < |tr| && key in tr[k].receipts
    ensures key in tr[m].receipts && tr[m].receipts[key] == tr[k].receipts[key]
    decreases m
  {
    if k == m {
    } else {
      ReceiptsAreForever(tr, es, k, m - 1, key);
      assert StepAt(tr, es, m - 1);
      StepKeepsReceipts(tr[m - 1], es[m - 1], key);
    }
  }

  /** An idempotency key takes effect once: every later use by that user and operation changes nothing, and, as long
      as the user still has the authority, repeats the stored answer exactly when it carries the same request. */
  lemma KeyAppliesOnce(tr: seq<Project>, es: seq<Step>, k: nat, m: nat, actor: Actor, op: Op, members: set<User>,
                       now: Time)
    requires IsRun(tr, es) && k < m < |tr| && es[k].KeyedStep?
    requires Keyed(tr[k], es[k].actor, es[k].key, es[k].op, es[k].members, es[k].now).1.Done?
    requires actor.user == es[k].actor.user && Name(op) == Name(es[k].op)
    ensures var (q, answer) := Keyed(tr[m], actor, es[k].key, op, members, now);
            && q == tr[m]
            && answer == if !Authorized(actor, op) then Failed(Forbidden)
                         else if op == es[k].op
                         then Replay(Keyed(tr[k], es[k].actor, es[k].key, es[k].op, es[k].members, es[k].now).1.value)
                         else Failed(Conflict)
  {
    assert StepAt(tr, es, k);
    var key := ReceiptKey(actor.user, Name(op), es[k].key);
    assert key in tr[k + 1].receipts;
    ReceiptsAreForever(tr, es, k + 1, m, key);
  }

  // ---------------------------------------------------------------- the rows, updated in place

  /** validate_units: keys seen so far, and assignees among the recipients. */
  method ValidateUnits(specs: seq<Spec>, recipients: set<User>) returns (ok: bool)
    ensures ok <==> UnitsValid(specs, recipients)
  {
    var keys: set<string> := {};
    var i := 0;
    while i < |specs|
      invariant 0 <= i <= |specs|
      invariant keys == set k | 0 <= k < i :: specs[k].key
      invariant UnitsValid(specs[..i], recipients)
    {
      if specs[i].key in keys || !(specs[i].assignees <= recipients) {
        if specs[i].key in keys {
          var k :| 0 <= k < i && specs[k].key == specs[i].key;
        }
        return false;
      }
      keys := keys + {specs[i].key};
      assert specs[..i + 1] == specs[..i] + [specs[i]];
      i := i + 1;
    }
    assert specs[..i] == specs;
    ok := true;
  }

  class BundleRows {
    const source: Source
    const sender: User
    const expiresAt: Time
    var version: nat
    var revoked: bool
    var units: seq<Unit>
    var deliveries: seq<Delivery>

    function Value(): Bundle
      reads this
    {
      Bundle(source, sender, version, expiresAt, revoked, units, deliveries)
    }

    /** Publication: one delivery per recipient, one available unit per specification. */
    constructor (source: Source, sender: User, expiresAt: Time, recipients: seq<User>, specs: seq<Spec>)
      ensures Value() == FreshBundle(source, sender, expiresAt, recipients, specs)
    {
      this.source, this.sender, this.expiresAt := source, sender, expiresAt;
      version, revoked, units, deliveries := 1, false, [], [];
      new;
      var i := 0;
      while i < |recipients|
        invariant 0 <= i <= |recipients|
        invariant deliveries == NewDeliveries(recipients, 1)[..i]
        invariant version == 1 && !revoked && units == []
      {
        deliveries := deliveries + [Delivery(recipients[i], 1, false, false)];
        i := i + 1;
      }
      i := 0;
      while i < |specs|
        invariant 0 <= i <= |specs|
        invariant deliveries == NewDeliveries(recipients, 1)
        invariant version == 1 && !revoked && units == NewUnits(specs)[..i]
      {
        units := units + [NewUnit(specs[i])];
        i := i + 1;
      }
    }

    method Claim(i: nat, actor: User, token: Digest, expected: Option<nat>, routing: Option<nat>, policy: Policy,
                 now: Time)
      returns (answer: ClaimAnswer)
      modifies this`units
      ensures (Value(), answer) == ClaimUnit(old(Value()), i, actor, token, expected, routing, policy, now)
    {
      if !policy.enabled {
        return Refused(PolicyMissing);
      }
      if !Reachable(Value(), i, actor, now) {
        return Refused(NotFound);
      }
      var row := units[i];
      if routing.Some? && version != routing.value {
        return Refused(Conflict);
      }
      if row.state == Claimed && row.lease.Some? && row.lease.value > now {
        if row.owner == Some(actor) && row.token == Some(token) {
          if expected.Some? && expected.value != row.generation - 1 {
            return Refused(Conflict);
          }
          return Replayed(row.generation);
        }
        return Refused(Conflict);
      }
      if expected.Some? && row.generation != expected.value {
        return Refused(Conflict);
      }
      if row.state != Available && row.state != Claimed {
        return Refused(Conflict);
      }
      if Used(row, actor, token) {
        return Refused(Conflict);
      }
      row := row.(state := Claimed, owner := Some(actor), token := Some(token), generation := row.generation + 1,
                  lease := Some(Min(expiresAt, now + policy.leaseSeconds)));
      units := units[i := row.(grants := row.grants + [Grant(row.generation, actor, token)])];
      answer := Granted(row.generation);
    }

    method Renew(i: nat, actor: User, token: Digest, generation: nat, deadline: Time, policy: Policy, now: Time)
      returns (answer: RenewAnswer)
      modifies this`units
      ensures (Value(), answer) == RenewUnit(old(Value()), i, actor, token, generation, deadline, policy, now)
    {
      if policy.version == 0 {
        return NotRenewed(PolicyMissing);
      }
      if !Reachable(Value(), i, actor, now) {
        return NotRenewed(NotFound);
      }
      if !Active(Value(), i, actor, token, generation, now) {
        return NotRenewed(Conflict);
      }
      var row := units[i];
      if deadline > row.lease.value && deadline > now + policy.leaseSeconds {
        return NotRenewed(Conflict);
      }
      var effective := Max(row.lease.value, Min(deadline, expiresAt));
      units := units[i := row.(lease := Some(effective))];
      answer := Renewed(effective, effective > row.lease.value);
    }

    method Release(i: nat, actor: User, token: Digest, generation: nat, complete: bool, now: Time)
      returns (error: Option<Error>)
      modifies this`units
      ensures (Value(), error) == ReleaseUnit(old(Value()), i, actor, token, generation, complete, now)
    {
      if !Reachable(Value(), i, actor, now) {
        return Some(NotFound);
      }
      if !Active(Value(), i, actor, token, generation, now) {
        return Some(Conflict);
      }
      var state := if complete then Completed else Available;
      units := units[i := units[i].(state := state, token := None, lease := None, owner := None)];
      error := None;
    }

    /** Reassignment, row by row; a refusal undoes what the loop already wrote. */
    method Reassign(r: Routing, policy: Policy, members: set<User>, now: Time) returns (error: Option<Error>)
      modifies this
      ensures (Value(), error) == ReassignBundle(old(Value()), r, policy, members, now)
    {
      if !policy.enabled {
        return Some(PolicyMissing);
      }
      if !Retained(Value(), now) {
        return Some(NotFound);
      }
      if version != r.expectedVersion {
        return Some(Conflict);
      }
      var valid := ValidateUnits(r.specs, Users(r.recipients));
      if !valid || sender in Users(r.recipients) {
        return Some(Invalid);
      }
      if !(Users(r.recipients) <= members) {
        return Some(Ineligible);
      }
      if r.expectedGenerations != Generations(units) || (r.emergency && !(policy.allowEmergency && r.confirmed)) {
        return Some(Conflict);
      }
      if (r.emergency && r.takeover == {}) || (r.takeover != {} && !r.emergency)
          || !(forall k :: k in r.takeover ==> HasKey(units, k)) {
        return Some(Invalid);
      }
      var existing := units;
      var kept := RerouteUnits(r, now);
      if !kept {
        return Some(Conflict);
      }
      var added := Added(existing, r.specs);
      if |existing| + |added| > MAX_UNITS {
        units := existing;
        return Some(Invalid);
      }
      units := units + NewUnits(added);
      RouteDeliveries(r.recipients);
      version := version + 1;
      error := None;
    }

    /** Walk the existing units; false, with nothing changed, when one of them refuses. */
    method RerouteUnits(r: Routing, now: Time) returns (ok: bool)
      modifies this`units
      ensures ok <==> forall k :: 0 <= k < |old(units)| ==> !FateOf(old(units)[k], r, now).Refuse?
      ensures units == if ok then ReroutedAll(old(units), r, now) else old(units)
    {
      var existing := units;
      var i := 0;
      while i < |existing|
        invariant 0 <= i <= |existing| == |units|
        invariant forall k :: 0 <= k < i ==> !FateOf(existing[k], r, now).Refuse?
        invariant forall k :: 0 <= k < i ==> units[k] == Rerouted(existing[k], r, now)
        invariant forall k :: i <= k < |units| ==> units[k] == existing[k]
      {
        var fate := FateOf(existing[i], r, now);
        if fate.Refuse? {
          units := existing;
          return false;
        }
        if fate.Reset? {
          units := units[i := fate.unit];
        }
        i := i + 1;
      }
      assert units == ReroutedAll(existing, r, now);
      ok := true;
    }

    /** Revoke the deliveries of absent recipients, then insert one per newcomer. */
    method RouteDeliveries(recipients: seq<User>)
      modifies this`deliveries
      ensures deliveries == RevokedAbsent(old(deliveries), Users(recipients))
                            + NewDeliveries(Newcomers(old(deliveries), recipients), version + 1)
    {
      var before := deliveries;
      RevokeOthers(recipients);
      InsertNewcomers(before, recipients);
    }

    method RevokeOthers(recipients: seq<User>)
      modifies this`deliveries
      ensures deliveries == RevokedAbsent(old(deliveries), Users(recipients))
    {
      var before := deliveries;
      var i := 0;
      while i < |before|
        invariant 0 <= i <= |before| == |deliveries|
        invariant forall k :: 0 <= k < i ==> deliveries[k] == RevokedAbsent(before, Users(recipients))[k]
        invariant forall k :: i <= k < |before| ==> deliveries[k] == before[k]
      {
        if before[i].recipient !in Users(recipients) {
          deliveries := deliveries[i := before[i].(revoked := true)];
        }
        i := i + 1;
      }
    }

    method InsertNewcomers(before: seq<Delivery>, recipients: seq<User>)
      modifies this`deliveries
      ensures deliveries == old(deliveries) + NewDeliveries(Newcomers(before, recipients), version + 1)
    {
      var i := 0;
      while i < |recipients|
        invariant 0 <= i <= |recipients|
        invariant deliveries == old(deliveries) + NewDeliveries(Newcomers(before, recipients[..i]), version + 1)
      {
        assert recipients[..i + 1][..i] == recipients[..i];
        if !Receives(before, recipients[i]) {
          deliveries := deliveries + [Delivery(recipients[i], version + 1, false, false)];
        }
        i := i + 1;
      }
      assert recipients[..i] == recipients;
    }

    /** Erasure cascades to every delivery and every unit, completed ones included. */
    method Revoke()
      modifies this
      ensures Value() == RevokeBundle(old(Value()))
    {
      version, revoked := version + 1, true;
      RevokeDeliveries();
      CancelUnits();
      assert Value() == RevokeBundle(old(Value()));
    }

    method RevokeDeliveries()
      modifies this`deliveries
      ensures deliveries == AllRevoked(old(deliveries))
    {
      var i := 0;
      while i < |deliveries|
        invariant 0 <= i <= |deliveries| == |old(deliveries)|
        invariant forall k :: 0 <= k < i ==> deliveries[k] == old(deliveries)[k].(revoked := true)
        invariant forall k :: i <= k < |deliveries| ==> deliveries[k] == old(deliveries)[k]
      {
        deliveries := deliveries[i := deliveries[i].(revoked := true)];
        i := i + 1;
      }
    }

    method CancelUnits()
      modifies this`units
      ensures units == AllCancelled(old(units))
    {
      var i := 0;
      while i < |units|
        invariant 0 <= i <= |units| == |old(units)|
        invariant forall k :: 0 <= k < i ==> units[k] == Erased(old(units)[k])
        invariant forall k :: i <= k < |units| ==> units[k] == old(units)[k]
      {
        var row := units[i];
        units := units[i := row.(state := Cancelled, token := None, lease := None, owner := None,
                                 generation := row.generation + 1)];
        i := i + 1;
      }
    }
  }
}
