/** Recoverable handoff leases (store/queries.py, handoff/collaboration_store.py, handoff/collaboration.py,
and the promotion branch of continuity/delivery.py), for one handoff row and its claim receipts.

A claim, renewal, pull, sweep or promotion is one row-locked step. An acknowledgement or rejection
probes the receipts first and locks the row only afterwards, so other transactions may run between. */
module HandoffLease {
  import opened Common

  datatype Status = Pending | Claimed | Acknowledged | Expired
  datatype Disposition = WasAcknowledged | WasNacked
  datatype Reason = Retryable | ProcessingFailed | Shutdown | Cancelled

  datatype Row = Row(
    status: Status, expiresAt: Option<Time>, version: nat, recipient: Option<User>, managed: bool,
    claimedBy: Option<User>, token: Option<Digest>, lease: Option<Time>, generation: nat,
    disposition: Option<Disposition>, reason: Option<Reason>)

  /** An acknowledgement receipt carries no reason, a rejection receipt always does. */
  datatype Receipt = Receipt(actor: User, token: Digest, generation: nat, reason: Option<Reason>)

  datatype Handoff = Handoff(row: Row, receipts: seq<Receipt>)

  /** Requests to settle a claim: Some(reason) rejects, None acknowledges. */
  datatype Request = Request(actor: User, token: Digest, generation: nat, reason: Option<Reason>)

  // ---------------------------------------------------------------- row predicates

  predicate Retained(row: Row, now: Time) {
    row.expiresAt.Some? && row.expiresAt.value > now
  }

  predicate LeaseLive(row: Row, now: Time) {
    row.status == Claimed && row.lease.Some? && row.lease.value > now
  }

  predicate LeaseLapsed(row: Row, now: Time) {
    row.status == Claimed && row.lease.Some? && row.lease.value <= now
  }

  predicate HeldBy(row: Row, actor: User, token: Digest) {
    row.claimedBy == Some(actor) && row.token == Some(token)
  }

  predicate HasReceipt(rs: seq<Receipt>, actor: User, token: Digest) {
    exists i :: 0 <= i < |rs| && rs[i].actor == actor && rs[i].token == token
  }

  predicate Addressed(row: Row, actor: User) {
    row.recipient.None? || row.recipient == Some(actor)
  }

  // ---------------------------------------------------------------- transactions

  datatype ClaimAnswer = Unavailable | Replayed | Granted

  /** claim_handoff_lease: the clock is read under the lock, and again when the lease is written. */
  function ClaimLease(h: Handoff, actor: User, token: Digest, seconds: nat, accept: nat, now: Time,
                      later: Time): (Handoff, ClaimAnswer)
  {
    var row := h.row;
    if !Retained(row, now) || row.managed || row.version > accept || !Addressed(row, actor) then (h, Unavailable)
    else if LeaseLive(row, now) && HeldBy(row, actor, token) then (h, Replayed)
    else if !(row.status == Pending || LeaseLapsed(row, now)) then (h, Unavailable)
    else if HasReceipt(h.receipts, actor, token) then (h, Unavailable)
    else
      (h.(row := row.(status := Claimed, claimedBy := Some(actor), token := Some(token),
                      lease := Some(Min(later + seconds, row.expiresAt.value)),
                      generation := row.generation + 1, disposition := None, reason := None)), Granted)
  }

  /** claim_handoff: the legacy one-shot pull, timed by its transaction's start. */
  function LegacyPull(h: Handoff, actor: User, start: Time): (Handoff, bool) {
    var row := h.row;
    if row.status == Pending && Retained(row, start) && row.version == 1 && !row.managed
    then (h.(row := row.(status := Claimed, claimedBy := Some(actor), token := None, lease := None,
                         generation := row.generation + 1, disposition := None, reason := None)), true)
    else (h, false)
  }

  /** The sweep that precedes every legacy listing. */
  function Sweep(h: Handoff, start: Time): Handoff {
    var row := h.row;
    if row.status == Pending && row.expiresAt.Some? && row.expiresAt.value <= start && row.version == 1 && !row.managed
    then h.(row := row.(status := Expired))
    else h
  }

  predicate Listed(row: Row, start: Time) {
    && (row.status == Pending
         || (row.status == Claimed && row.token.Some? && row.lease.Some? && row.lease.value <= start))
    && Retained(row, start) && row.version == 1 && !row.managed
  }

  datatype RenewAnswer = NoLease | TooLong | Renewed(until: Time, extended: bool)

  function Renew(h: Handoff, actor: User, token: Digest, generation: nat, deadline: Time, maximum: nat,
                 now: Time): (Handoff, RenewAnswer)
  {
    var row := h.row;
    if !LeaseLive(row, now) || row.managed || !HeldBy(row, actor, token) || row.generation != generation
       || !Addressed(row, actor) || !Retained(row, now) then (h, NoLease)
    else
      var current := row.lease.value;
      if deadline > current && deadline > now + maximum then (h, TooLong)
      else
        var effective := Max(current, Min(deadline, row.expiresAt.value));
        (h.(row := row.(lease := Some(effective))), Renewed(effective, effective > current))
  }

  /** Promotion into a continuity bundle fences the row for good. */
  function Promote(h: Handoff, now: Time): (Handoff, bool) {
    var row := h.row;
    if !Retained(row, now) || row.managed || !(row.status == Pending || LeaseLapsed(row, now)) then (h, false)
    else (h.(row := row.(managed := true, generation := row.generation + 1, token := None, lease := None,
                         claimedBy := None, status := Pending, disposition := None, reason := None)), true)
  }

  datatype SettleAnswer = Mismatch | Already(generation: nat) | Fresh(generation: nat) | Proceed

  /** The receipt with the request's exact actor, token and generation, for its operation. */
  ghost predicate Backed(rs: seq<Receipt>, q: Request) {
    exists i :: 0 <= i < |rs| && Matches(rs[i], q)
  }

  predicate Matches(r: Receipt, q: Request) {
    r.actor == q.actor && r.token == q.token && r.generation == q.generation && r.reason.Some? == q.reason.Some?
  }

  function FindReceipt(rs: seq<Receipt>, q: Request): (r: Option<Receipt>)
    ensures r.Some? <==> Backed(rs, q)
    ensures r.Some? ==> r.value in rs && Matches(r.value, q)
  {
    if rs == [] then None
    else if Matches(rs[0], q) then Some(rs[0])
    else
      var r := FindReceipt(rs[1..], q);
      assert rs == [rs[0]] + rs[1..];
      assert forall i :: 0 < i < |rs| ==> rs[i] == rs[1..][i - 1];
      r
  }

  /** First step, without the row lock. */
  function Probe(rs: seq<Receipt>, q: Request): SettleAnswer {
    match FindReceipt(rs, q)
    case None => Proceed
    case Some(r) => if r.reason == q.reason then Already(q.generation) else Mismatch
  }

  /** Second step, under the row lock. */
  function Settle(h: Handoff, q: Request, now: Time): (Handoff, SettleAnswer) {
    var row := h.row;
    if !HeldBy(row, q.actor, q.token) || row.generation != q.generation then (h, Mismatch)
    else if q.reason.None? && row.status == Acknowledged && row.disposition == Some(WasAcknowledged)
        then (h, Already(q.generation))
    else if q.reason.Some? && row.status == Pending && row.disposition == Some(WasNacked) then
      (h, if row.reason == q.reason then Already(q.generation) else Mismatch)
    else if !LeaseLive(row, now) || !Retained(row, now) then (h, Mismatch)
    else
      var settled :=
        if q.reason.None? then row.(status := Acknowledged, disposition := Some(WasAcknowledged), reason := None)
        else row.(status := Pending, lease := None, disposition := Some(WasNacked), reason := q.reason);
      (Handoff(settled, Insert(h.receipts, Receipt(q.actor, q.token, q.generation, q.reason))), Fresh(q.generation))
  }

  /** ON CONFLICT (handoff, project, actor, token, operation) DO NOTHING. */
  function Insert(rs: seq<Receipt>, r: Receipt): seq<Receipt> {
    if Conflicts(rs, r) then rs else rs + [r]
  }

  predicate Conflicts(rs: seq<Receipt>, r: Receipt) {
    exists i ::
      0 <= i < |rs| && rs[i].actor == r.actor && rs[i].token == r.token && rs[i].reason.Some? == r.reason.Some?
  }

  // ---------------------------------------------------------------- the interleaved system

  datatype Grant = Grant(generation: nat, actor: User, token: Digest)

  /** The row, its receipts, the clock, the requests between their two steps, and every lease ever granted. */
  datatype Sys = Sys(h: Handoff, clock: Time, probed: multiset<Request>, grants: seq<Grant>)

  datatype Step =
    | ClaimStep(actor: User, token: Digest, seconds: nat, accept: nat, now: Time, later: Time)
    | PullStep(actor: User, start: Time, now: Time)
    | SweepStep(start: Time, now: Time)
    | RenewStep(actor: User, token: Digest, generation: nat, deadline: Time, maximum: nat, now: Time)
    | PromoteStep(now: Time)
    | ProbeStep(q: Request, now: Time)
    | SettleStep(q: Request, now: Time)

  /** The clock never goes back, and only a request that found no receipt reaches its second step. */
  predicate Enabled(s: Sys, e: Step) {
    && s.clock <= e.now
    && (e.ClaimStep? ==> e.now <= e.later)
    && (e.PullStep? ==> e.start <= e.now)
    && (e.SweepStep? ==> e.start <= e.now)
    && (e.SettleStep? ==> e.q in s.probed)
  }

  function Apply(s: Sys, e: Step): Sys {
    match e
    case ClaimStep(actor, token, seconds, accept, now, later) =>
      var (h, answer) := ClaimLease(s.h, actor, token, seconds, accept, now, later);
      s.(h := h, clock := later,
         grants := if answer == Granted then s.grants + [Grant(h.row.generation, actor, token)] else s.grants)
    case PullStep(actor, start, now) => s.(h := LegacyPull(s.h, actor, start).0, clock := now)
    case SweepStep(start, now) => s.(h := Sweep(s.h, start), clock := now)
    case RenewStep(actor, token, generation, deadline, maximum, now) =>
      s.(h := Renew(s.h, actor, token, generation, deadline, maximum, now).0, clock := now)
    case PromoteStep(now) => s.(h := Promote(s.h, now).0, clock := now)
    case ProbeStep(q, now) =>
      s.(clock := now, probed := if Probe(s.h.receipts, q) == Proceed then s.probed + multiset{q} else s.probed)
    case SettleStep(q, now) => s.(h := Settle(s.h, q, now).0, clock := now, probed := s.probed - multiset{q})
  }

  /** A newly inserted handoff. */
  predicate Initial(s: Sys) {
    && s.h.row.status == Pending && s.h.row.expiresAt.Some? && !s.h.row.managed
    && (s.h.row.version == 1 ==> s.h.row.recipient.None?) && 1 <= s.h.row.version <= 2
    && s.h.row.claimedBy.None? && s.h.row.token.None? && s.h.row.lease.None?
    && s.h.row.generation == 0 && s.h.row.disposition.None? && s.h.row.reason.None?
    && s.h.receipts == [] && s.probed == multiset{} && s.grants == []
  }

  // ---------------------------------------------------------------- invariant

  ghost predicate RowInv(row: Row) {
    && (row.status == Claimed ==> row.claimedBy.Some? && (row.lease.Some? <==> row.token.Some?))
    && (row.status == Claimed && row.lease.Some? ==> row.expiresAt.Some? && row.lease.value <= row.expiresAt.value)
    && (row.disposition == Some(WasAcknowledged) <==> row.status == Acknowledged)
    && (row.disposition == Some(WasNacked) ==> row.status == Pending || row.status == Expired)
    && (row.disposition.Some? ==> row.claimedBy.Some? && row.token.Some?)
    && (row.disposition == Some(WasNacked) <==> row.reason.Some?)
    && (row.managed ==> row.status == Pending && row.claimedBy.None? && row.token.None?)
    && (row.status == Expired ==> row.version == 1)
    && (row.version == 1 ==> row.recipient.None?) && 1 <= row.version <= 2
  }

  /** The receipt the row's own disposition stands for. */
  function RowReceipt(row: Row): Receipt
    requires row.claimedBy.Some? && row.token.Some?
  {
    Receipt(row.claimedBy.value, row.token.value, row.generation, row.reason)
  }

  ghost predicate ReceiptInv(h: Handoff)
    requires RowInv(h.row)
  {
    && (forall i, k :: 0 <= i < k < |h.receipts| ==>
          h.receipts[i].generation < h.receipts[k].generation
          && (h.receipts[i].actor, h.receipts[i].token) != (h.receipts[k].actor, h.receipts[k].token))
    && (forall r :: r in h.receipts ==> r.generation <= h.row.generation)
    && (h.row.status == Claimed ==> forall r :: r in h.receipts ==> r.generation < h.row.generation)
    && (h.row.status == Claimed && h.row.token.Some? ==>
         !HasReceipt(h.receipts, h.row.claimedBy.value, h.row.token.value))
    && (h.row.disposition.Some? ==> RowReceipt(h.row) in h.receipts)
    // An acknowledgement receipt exists only for the acknowledged row it closed.
    && (forall r :: r in h.receipts && r.reason.None? ==> h.row.status == Acknowledged && r == RowReceipt(h.row))
  }

  ghost predicate GrantInv(s: Sys) {
    && (forall i, k :: 0 <= i < k < |s.grants| ==> s.grants[i].generation < s.grants[k].generation)
    && (forall g :: g in s.grants ==> 1 <= g.generation <= s.h.row.generation)
    && (s.h.row.token.Some? && s.h.row.claimedBy.Some? ==>
          Grant(s.h.row.generation, s.h.row.claimedBy.value, s.h.row.token.value) in s.grants)
    && (forall r :: r in s.h.receipts ==> Grant(r.generation, r.actor, r.token) in s.grants)
  }

  ghost predicate Inv(s: Sys) {
    RowInv(s.h.row) && ReceiptInv(s.h) && GrantInv(s)
  }

  /** In an owned state a settlement adds the very first receipt of its actor and token. */
  lemma SettleIsFirst(h: Handoff, q: Request, now: Time)
    requires RowInv(h.row) && ReceiptInv(h)
    ensures Settle(h, q, now).1.Fresh? ==>
              && !HasReceipt(h.receipts, q.actor, q.token)
              && Settle(h, q, now).0.receipts == h.receipts + [Receipt(q.actor, q.token, q.generation, q.reason)]
  {
  }

  lemma ClaimKeepsInvariant(s: Sys, e: Step)
    requires Inv(s) && Enabled(s, e) && e.ClaimStep?
    ensures Inv(Apply(s, e))
  {
    var t := Apply(s, e);
    if ClaimLease(s.h, e.actor, e.token, e.seconds, e.accept, e.now, e.later).1.Granted? {
      assert RowInv(t.h.row);
      assert ReceiptInv(t.h);
      assert t.grants[|s.grants|] == Grant(t.h.row.generation, e.actor, e.token);
    }
  }

  lemma SettleKeepsInvariant(s: Sys, e: Step)
    requires Inv(s) && Enabled(s, e) && e.SettleStep?
    ensures Inv(Apply(s, e))
  {
    var t := Apply(s, e);
    SettleIsFirst(s.h, e.q, e.now);
    if Settle(s.h, e.q, e.now).1.Fresh? {
      var r := Receipt(e.q.actor, e.q.token, e.q.generation, e.q.reason);
      assert r == t.h.receipts[|s.h.receipts|];
      assert RowInv(t.h.row);
      assert ReceiptInv(t.h);
    }
  }

  /** The legacy operations keep receipts and grants as they are. */
  lemma LegacyKeepsInvariant(s: Sys, e: Step)
    requires Inv(s) && (e.PullStep? || e.SweepStep?)
    ensures Inv(Apply(s, e))
  {
  }

  lemma RenewKeepsInvariant(s: Sys, e: Step)
    requires Inv(s) && e.RenewStep?
    ensures Inv(Apply(s, e))
  {
  }

  lemma StepKeepsInvariant(s: Sys, e: Step)
    requires Inv(s) && Enabled(s, e)
    ensures Inv(Apply(s, e))
    ensures s.clock <= Apply(s, e).clock
  {
    match e
    case ClaimStep(_, _, _, _, _, _) => ClaimKeepsInvariant(s, e);
    case SettleStep(q, now) => SettleKeepsInvariant(s, e);
    case PullStep(actor, start, now) => LegacyKeepsInvariant(s, e);
    case SweepStep(start, now) => LegacyKeepsInvariant(s, e);
    case RenewStep(_, _, _, _, _, _) => RenewKeepsInvariant(s, e);
    case PromoteStep(now) => PromoteKeepsInvariant(s, now);
    case ProbeStep(q, now) =>
  }

  lemma InitialIsInvariant(s: Sys)
    requires Initial(s)
    ensures Inv(s)
  {
  }

  lemma PromoteKeepsInvariant(s: Sys, now: Time)
    requires Inv(s)
    ensures Inv(s.(h := Promote(s.h, now).0))
  {
  }

  // ---------------------------------------------------------------- settlements

  /** A fresh answer is given exactly to the live owner of the current generation. */
  lemma FreshOnlyForLiveOwner(h: Handoff, q: Request, now: Time)
    requires RowInv(h.row) && ReceiptInv(h)
    ensures Settle(h, q, now).1.Fresh? <==>
              && LeaseLive(h.row, now) && Retained(h.row, now)
              && h.row.claimedBy == Some(q.actor) && h.row.token == Some(q.token) && h.row.generation == q.generation
    ensures !Settle(h, q, now).1.Fresh? ==> Settle(h, q, now).0 == h
    ensures Settle(h, q, now).1.Fresh? ==>
              var after := Settle(h, q, now).0;
              && (q.reason.None? ==> after.row.status == Acknowledged)
              && (q.reason.Some? ==> after.row.status == Pending && after.row.reason == q.reason)
              && after.row.generation == h.row.generation
              && Backed(after.receipts, q) && !Conflicts(h.receipts, Receipt(q.actor, q.token, q.generation, q.reason))
  {
    SettleIsFirst(h, q, now);
    if Settle(h, q, now).1.Fresh? {
      var rs := Settle(h, q, now).0.receipts;
      assert Matches(rs[|h.receipts|], q);
    }
  }

  lemma AlreadyHasReceipt(h: Handoff, q: Request, now: Time)
    requires RowInv(h.row) && ReceiptInv(h)
    ensures Probe(h.receipts, q).Already? || Settle(h, q, now).1.Already? ==>
              Receipt(q.actor, q.token, q.generation, q.reason) in h.receipts
  {
    if Settle(h, q, now).1.Already? {
      assert RowReceipt(h.row) in h.receipts;
    }
  }

  // ---------------------------------------------------------------- runs

  ghost predicate StepAt(tr: seq<Sys>, es: seq<Step>, i: nat)
    requires i + 1 < |tr| == |es| + 1
  {
    Enabled(tr[i], es[i]) && tr[i + 1] == Apply(tr[i], es[i])
  }

  ghost predicate IsRun(tr: seq<Sys>, es: seq<Step>) {
    && |tr| == |es| + 1 && Initial(tr[0])
    && forall i :: 0 <= i < |es| ==> StepAt(tr, es, i)
  }

  lemma {:induction false} RunKeepsInvariant(tr: seq<Sys>, es: seq<Step>, i: nat)
    requires IsRun(tr, es) && i < |tr|
    ensures Inv(tr[i])
  {
    if i == 0 {
    } else {
      RunKeepsInvariant(tr, es, i - 1);
      assert StepAt(tr, es, i - 1);
      StepKeepsInvariant(tr[i - 1], es[i - 1]);
    }
  }

  lemma {:induction false} ClockAdvances(tr: seq<Sys>, es: seq<Step>, k: nat, m: nat)
    requires IsRun(tr, es) && k <= m < |tr|
    ensures tr[k].clock <= tr[m].clock
    decreases m
  {
    if k == m {
    } else {
      ClockAdvances(tr, es, k, m - 1);
      assert StepAt(tr, es, m - 1);
    }
  }

  /** Step j freshly settled the claim of request q. */
  ghost predicate SettledAt(tr: seq<Sys>, es: seq<Step>, j: nat, q: Request)
    requires j < |es| && |tr| == |es| + 1
  {
    es[j].SettleStep? && es[j].q == q && Settle(tr[j].h, q, es[j].now).1.Fresh?
  }

  lemma {:induction false} ReceiptHasOrigin(tr: seq<Sys>, es: seq<Step>, m: nat, r: Receipt) returns (j: nat)
    requires IsRun(tr, es) && m < |tr| && r in tr[m].h.receipts
    ensures j < m && SettledAt(tr, es, j, Request(r.actor, r.token, r.generation, r.reason))
  {
    assert m > 0;
    assert StepAt(tr, es, m - 1);
    if r in tr[m - 1].h.receipts {
      j := ReceiptHasOrigin(tr, es, m - 1, r);
    } else {
      j := m - 1;
    }
  }

  /** Every "already" answer of a run, from either step, repeats a settlement with the same reason that took effect
      before. */
  lemma AlreadyIsBacked(tr: seq<Sys>, es: seq<Step>, m: nat, q: Request, now: Time) returns (j: nat)
    requires IsRun(tr, es) && m < |tr|
    requires Probe(tr[m].h.receipts, q).Already? || Settle(tr[m].h, q, now).1.Already?
    ensures j < m && SettledAt(tr, es, j, q)
  {
    RunKeepsInvariant(tr, es, m);
    AlreadyHasReceipt(tr[m].h, q, now);
    j := ReceiptHasOrigin(tr, es, m, Receipt(q.actor, q.token, q.generation, q.reason));
  }

  /** In every reachable state: one receipt per claim, at most one acknowledgement ever,
      and every receipt closes a lease that was granted to exactly its actor and token. */
  lemma ReceiptsAreUnique(tr: seq<Sys>, es: seq<Step>, m: nat, i: nat, k: nat)
    requires IsRun(tr, es) && m < |tr|
    requires i < |tr[m].h.receipts| && k < |tr[m].h.receipts|
    ensures var rs := tr[m].h.receipts;
            && (rs[i].actor == rs[k].actor && rs[i].token == rs[k].token ==> i == k)
            && (rs[i].generation == rs[k].generation ==> i == k)
            && (rs[i].reason.None? && rs[k].reason.None? ==> i == k)
            && Grant(rs[i].generation, rs[i].actor, rs[i].token) in tr[m].grants
  {
    RunKeepsInvariant(tr, es, m);
    var rs := tr[m].h.receipts;
    assert rs[i] in rs && rs[k] in rs;
  }

  /** Each generation is granted once. */
  lemma GenerationsAreGrantedOnce(tr: seq<Sys>, es: seq<Step>, m: nat, g: Grant, f: Grant)
    requires IsRun(tr, es) && m < |tr| && g in tr[m].grants && f in tr[m].grants && g.generation == f.generation
    ensures g == f
  {
    RunKeepsInvariant(tr, es, m);
  }

  /** Acknowledged, pulled by a legacy client, or promoted. */
  predicate Closed(row: Row) {
    row.status == Acknowledged || (row.status == Claimed && row.lease.None?) || row.managed
  }

  lemma ClosedStays(s: Sys, e: Step)
    requires Inv(s) && Enabled(s, e) && Closed(s.h.row)
    ensures Apply(s, e).h == s.h && Apply(s, e).grants == s.grants
  {
  }

  lemma {:induction false} ClosedIsFrozen(tr: seq<Sys>, es: seq<Step>, k: nat, m: nat)
    requires IsRun(tr, es) && k <= m < |tr| && Closed(tr[k].h.row)
    ensures tr[m].h == tr[k].h && tr[m].grants == tr[k].grants
    decreases m
  {
    if k == m {
    } else {
      ClosedIsFrozen(tr, es, k, m - 1);
      RunKeepsInvariant(tr, es, m - 1);
      assert StepAt(tr, es, m - 1);
      ClosedStays(tr[m - 1], es[m - 1]);
    }
  }

  /** A closed row is never owned, settled, pulled, swept or promoted again. */
  lemma ClosedForever(tr: seq<Sys>, es: seq<Step>, k: nat, m: nat, now: Time)
    requires IsRun(tr, es) && k <= m < |tr| && Closed(tr[k].h.row)
    ensures tr[m].h == tr[k].h && tr[m].grants == tr[k].grants
    ensures !LeaseLive(tr[m].h.row, now)
  {
    ClosedIsFrozen(tr, es, k, m);
    RunKeepsInvariant(tr, es, k);
  }

  /** The owner of row settles its own claim. */
  predicate SettledByOwner(row: Row, e: Step) {
    e.SettleStep? && HeldBy(row, e.q.actor, e.q.token) && e.q.generation == row.generation
  }

  lemma LiveLeaseSurvives(s: Sys, e: Step)
    requires Inv(s) && Enabled(s, e) && !SettledByOwner(s.h.row, e)
    requires LeaseLive(s.h.row, Apply(s, e).clock)
    ensures var row := Apply(s, e).h.row;
            && row == s.h.row.(lease := row.lease)
            && row.lease.Some? && s.h.row.lease.value <= row.lease.value
    ensures Apply(s, e).h.receipts == s.h.receipts && Apply(s, e).grants == s.grants
  {
  }

  /** Mutual exclusion: while a granted lease has not run out, nothing but its owner's own acknowledgement or
      rejection ends it; nobody else is granted the row and no receipt is written. */
  lemma {:induction false} OwnershipIsExclusive(tr: seq<Sys>, es: seq<Step>, k: nat, m: nat)
    requires IsRun(tr, es) && k <= m < |tr| && LeaseLive(tr[k].h.row, tr[m].clock)
    requires forall i :: k <= i < m ==> !SettledByOwner(tr[k].h.row, es[i])
    ensures LeaseLive(tr[m].h.row, tr[m].clock)
    ensures tr[m].h.row == tr[k].h.row.(lease := tr[m].h.row.lease)
    ensures tr[k].h.row.lease.value <= tr[m].h.row.lease.value
    ensures tr[m].h.receipts == tr[k].h.receipts && tr[m].grants == tr[k].grants
    decreases m
  {
    if k == m {
    } else {
      ClockAdvances(tr, es, m - 1, m);
      OwnershipIsExclusive(tr, es, k, m - 1);
      RunKeepsInvariant(tr, es, m - 1);
      assert StepAt(tr, es, m - 1);
      LiveLeaseSurvives(tr[m - 1], es[m - 1]);
    }
  }

  // ---------------------------------------------------------------- views of claimability

  datatype DeliveryState =
    | ContinuityManaged | WasAcked | WasExpired | IsAvailable | LegacyClaimed | IsLeased | LeaseExpired

  function DeliveryStateOf(row: Row, now: Time): DeliveryState {
    if row.managed then ContinuityManaged
    else if row.status == Acknowledged then WasAcked
    else if row.expiresAt.None? || row.expiresAt.value <= now || row.status == Expired then WasExpired
    else if row.status == Pending then IsAvailable
    else if row.lease.None? then LegacyClaimed
    else if row.lease.value > now then IsLeased
    else LeaseExpired
  }

  predicate CanClaim(row: Row, actor: User, now: Time) {
    (DeliveryStateOf(row, now) == IsAvailable || DeliveryStateOf(row, now) == LeaseExpired) && Addressed(row, actor)
  }

  /** The inbox filter of the "available" view; a comparison with NULL is never true. */
  predicate InAvailableView(row: Row, actor: User, now: Time) {
    && !row.managed && Retained(row, now) && Addressed(row, actor)
    && (row.status == Pending || LeaseLapsed(row, now))
  }

  /** The inbox filter, the derived state and a fresh-token claim agree in every reachable row;
      for version 1 rows so does the legacy listing after its sweep. */
  lemma ViewsAgree(h: Handoff, actor: User, token: Digest, seconds: nat, now: Time, later: Time)
    requires RowInv(h.row) && ReceiptInv(h) && now <= later && !HasReceipt(h.receipts, actor, token)
    ensures InAvailableView(h.row, actor, now) <==> CanClaim(h.row, actor, now)
    ensures CanClaim(h.row, actor, now) <==> ClaimLease(h, actor, token, seconds, 2, now, later).1.Granted?
    ensures h.row.version == 1 ==> (CanClaim(h.row, actor, now) <==> Listed(Sweep(h, now).row, now))
    ensures h.row.version == 2 ==> !Listed(Sweep(h, now).row, now)
  {
  }

  /** A granted lease lasts the requested seconds, cut at retention, under the next generation. */
  lemma GrantIsBounded(h: Handoff, actor: User, token: Digest, seconds: nat, accept: nat, now: Time, later: Time)
    requires RowInv(h.row) && now <= later
    requires ClaimLease(h, actor, token, seconds, accept, now, later).1.Granted?
    ensures var row := ClaimLease(h, actor, token, seconds, accept, now, later).0.row;
            && HeldBy(row, actor, token) && row.generation == h.row.generation + 1
            && row.lease.value <= row.expiresAt.value && row.lease.value <= later + seconds
            && (LeaseLive(row, later) <==> seconds > 0 && Retained(row, later))
  {
  }

  /** Renewal never shortens, never passes retention, never exceeds the maximum from now unless the lease already
      did; and repeating a deadline later, while the lease lives, neither fails nor extends. */
  lemma RenewalIsBounded(h: Handoff, actor: User, token: Digest, generation: nat, deadline: Time, maximum: nat,
                         now: Time, again: Time)
    requires RowInv(h.row) && now <= again
    requires Renew(h, actor, token, generation, deadline, maximum, now).1.Renewed?
    ensures var (after, answer) := Renew(h, actor, token, generation, deadline, maximum, now);
            && after.row == h.row.(lease := Some(answer.until))
            && h.row.lease.value <= answer.until <= h.row.expiresAt.value
            && answer.until <= Max(h.row.lease.value, now + maximum)
            && (answer.extended <==> h.row.lease.value < answer.until)
            && (deadline <= h.row.expiresAt.value ==> deadline <= answer.until)
            && (answer.until > again ==>
                  Renew(after, actor, token, generation, deadline, maximum, again)
                      == (after, Renewed(answer.until, false)))
  {
  }

  /** No claim asks for more than `bound` seconds, and no renewal is allowed more than `bound` from its own time. */
  predicate WithinBound(e: Step, bound: nat) {
    && (e.ClaimStep? ==> e.seconds <= bound)
    && (e.RenewStep? ==> e.maximum <= bound)
  }

  /** One step that writes a lease: a grant or a renewal, which ends it at most `bound` after that step. */
  lemma WrittenLeaseIsBounded(s: Sys, e: Step, bound: nat)
    requires Inv(s) && Enabled(s, e) && WithinBound(e, bound) && Apply(s, e).h.row.lease.Some?
    requires s.h.row.lease != Apply(s, e).h.row.lease || s.h.row.generation != Apply(s, e).h.row.generation
    ensures e.ClaimStep? || e.RenewStep?
    ensures Apply(s, e).h.row.lease.value <= Apply(s, e).clock + bound
  {
    if e.ClaimStep? {
      GrantIsBounded(s.h, e.actor, e.token, e.seconds, e.accept, e.now, e.later);
    } else if e.RenewStep? {
      RenewalIsBounded(s.h, e.actor, e.token, e.generation, e.deadline, e.maximum, e.now, e.now);
    }
  }

  /** Over a run, a lease was written by some grant or renewal, has not changed since, and ends no later than the
      configured bound after that very step; however often it is renewed, it never runs longer than the bound from
      any later time. */
  lemma {:induction false} LeaseIsBoundedFromLastGrant(tr: seq<Sys>, es: seq<Step>, m: nat, bound: nat) returns (j: nat)
    requires IsRun(tr, es) && m < |tr| && tr[m].h.row.lease.Some?
    requires forall i :: 0 <= i < m ==> WithinBound(es[i], bound)
    ensures j < m && (es[j].ClaimStep? || es[j].RenewStep?) && tr[j].h.row != tr[j + 1].h.row
    ensures forall i :: j < i <= m ==>
            tr[i].h.row.lease == tr[m].h.row.lease && tr[i].h.row.generation == tr[m].h.row.generation
    ensures tr[m].h.row.lease.value <= tr[j + 1].clock + bound <= tr[m].clock + bound
  {
    assert m > 0;
    assert StepAt(tr, es, m - 1);
    var before, after := tr[m - 1].h.row, tr[m].h.row;
    if before.lease == after.lease && before.generation == after.generation {
      j := LeaseIsBoundedFromLastGrant(tr, es, m - 1, bound);
      ClockAdvances(tr, es, m - 1, m);
    } else {
      j := m - 1;
      RunKeepsInvariant(tr, es, j);
      WrittenLeaseIsBounded(tr[j], es[j], bound);
    }
  }

  // ---------------------------------------------------------------- the tables, updated in place

  class HandoffTable {
    const expiresAt: Option<Time>
    const version: nat
    const recipient: Option<User>
    var status: Status
    var managed: bool
    var claimedBy: Option<User>
    var token: Option<Digest>
    var lease: Option<Time>
    var generation: nat
    var disposition: Option<Disposition>
    var reason: Option<Reason>
    var receipts: seq<Receipt>

    constructor (expiresAt: Time, version: nat, recipient: Option<User>)
      ensures Value() ==
              Handoff(Row(Pending, Some(expiresAt), version, recipient, false, None, None, None, 0, None, None), [])
    {
      this.expiresAt, this.version, this.recipient := Some(expiresAt), version, recipient;
      status, managed, claimedBy, token, lease := Pending, false, None, None, None;
      generation, disposition, reason, receipts := 0, None, None, [];
    }

    function Value(): Handoff
      reads this
    {
      Handoff(
        Row(status, expiresAt, version, recipient, managed, claimedBy, token, lease, generation, disposition, reason),
        receipts)
    }

    method AcquireLease(actor: User, t: Digest, seconds: nat, accept: nat, now: Time, later: Time)
      returns (answer: ClaimAnswer)
      modifies this
      ensures (Value(), answer) == ClaimLease(old(Value()), actor, t, seconds, accept, now, later)
    {
      if expiresAt.None? || expiresAt.value <= now {
        return Unavailable;
      }
      if managed || version > accept || (recipient.Some? && recipient != Some(actor)) {
        return Unavailable;
      }
      if status == Claimed && lease.Some? && lease.value > now && claimedBy == Some(actor) && token == Some(t) {
        return Replayed;
      }
      if !(status == Pending || (status == Claimed && lease.Some? && lease.value <= now)) {
        return Unavailable;
      }
      var i := 0;
      while i < |receipts|
        invariant 0 <= i <= |receipts|
        invariant forall k :: 0 <= k < i ==> receipts[k].actor != actor || receipts[k].token != t
      {
        if receipts[i].actor == actor && receipts[i].token == t {
          return Unavailable;
        }
        i := i + 1;
      }
      status, claimedBy, token := Claimed, Some(actor), Some(t);
      lease := Some(Min(later + seconds, expiresAt.value));
      generation, disposition, reason := generation + 1, None, None;
      answer := Granted;
    }

    method Pull(actor: User, start: Time) returns (done: bool)
      modifies this
      ensures (Value(), done) == LegacyPull(old(Value()), actor, start)
    {
      done := status == Pending && expiresAt.Some? && expiresAt.value > start && version == 1 && !managed;
      if done {
        status, claimedBy, token, lease := Claimed, Some(actor), None, None;
        generation, disposition, reason := generation + 1, None, None;
      }
    }

    method RenewLease(actor: User, t: Digest, g: nat, deadline: Time, maximum: nat, now: Time)
      returns (answer: RenewAnswer)
      modifies this`lease
      ensures (Value(), answer) == Renew(old(Value()), actor, t, g, deadline, maximum, now)
    {
      if status != Claimed || managed || claimedBy != Some(actor) || token != Some(t) || generation != g
         || (recipient.Some? && recipient != Some(actor)) || lease.None? || lease.value <= now
         || expiresAt.None? || expiresAt.value <= now {
        return NoLease;
      }
      var current := lease.value;
      if deadline > current && deadline > now + maximum {
        return TooLong;
      }
      var effective := Max(current, Min(deadline, expiresAt.value));
      if effective > current {
        lease := Some(effective);
      }
      answer := Renewed(effective, effective > current);
    }

    method PromoteRow(now: Time) returns (done: bool)
      modifies this
      ensures (Value(), done) == Promote(old(Value()), now)
    {
      if expiresAt.None? || expiresAt.value <= now {
        return false;
      }
      if managed || !(status == Pending || (status == Claimed && lease.Some? && lease.value <= now)) {
        return false;
      }
      managed, generation, token, lease, claimedBy := true, generation + 1, None, None, None;
      status, disposition, reason := Pending, None, None;
      done := true;
    }

    /** The row-locked half of an acknowledgement (no reason) or a rejection. */
    method SettleLocked(q: Request, now: Time) returns (answer: SettleAnswer)
      modifies this
      ensures (Value(), answer) == Settle(old(Value()), q, now)
    {
      if claimedBy != Some(q.actor) || token != Some(q.token) || generation != q.generation {
        return Mismatch;
      }
      if q.reason.None? && status == Acknowledged && disposition == Some(WasAcknowledged) {
        return Already(generation);
      }
      if q.reason.Some? && status == Pending && disposition == Some(WasNacked) {
        return if reason != q.reason then Mismatch else Already(generation);
      }
      var active := status == Claimed && lease.Some? && lease.value > now && expiresAt.Some? && expiresAt.value > now;
      if !active {
        return Mismatch;
      }
      if q.reason.None? {
        status, disposition, reason := Acknowledged, Some(WasAcknowledged), None;
      } else {
        status, lease, disposition, reason := Pending, None, Some(WasNacked), q.reason;
      }
      receipts := Insert(receipts, Receipt(q.actor, q.token, q.generation, q.reason));
      answer := Fresh(generation);
    }
  }
}
