/** Reviewed experiences and the skills built on them (experience/lifecycle.py, experience/submissions.py,
experience/persistence.py, skills/, and the trigger of migration 007).

All of it runs under one project lock. Every update of an experience row fires the trigger that
invalidates the skill revisions bound to it. */
module Experience {
  import opened Common

  datatype Status = Pending | Active | Rejected | Archived | Superseded | Forgotten
  datatype Action = Approve | Reject | Archive | Forget | Supersede

  datatype Event = Event(version: nat, actor: User, action: Action, before: Status, after: Status, related: Option<nat>)

  /** What is suppressed: a source together with the normalized content claimed from it. */
  datatype Claim = Claim(source: Digest, fingerprint: Digest)

  datatype Link = Link(parent: nat, version: nat)

  datatype Exp = Exp(
    claim: Claim, lock: Digest, kind: string, classification: Classification,
    author: User, key: string, digest: Digest, expiresAt: Option<Time>, validFrom: Option<Time>,
    link: Option<Link>, root: Option<nat>, number: nat,
    status: Status, version: nat, erased: bool, events: seq<Event>)

  datatype Suppression = Suppression(version: nat, released: bool, actor: User)

  datatype RevStatus = RPending | RActive | RRejected | RArchived | RSuperseded | RStale | RForgotten
  datatype Origin = Manual | Generated

  datatype RevAction = RevApprove | RevReject | RevArchive | RevForget | RevSupersede | RevInvalidate

  datatype RevEvent = RevEvent(version: nat, actor: User, action: RevAction, before: RevStatus, after: RevStatus)

  /** `authored` is the digest of the parts of the body a person has to write: triggers, steps and validation. */
  datatype Revision = Revision(
    skill: nat, number: nat, base: Option<nat>, origin: Origin, bindings: map<nat, nat>,
    author: User, key: string, digest: Digest, authored: Digest,
    status: RevStatus, version: nat, erased: bool, events: seq<RevEvent>)

  datatype Skill = Skill(name: string, latest: nat, active: Option<nat>)

  datatype World = World(
    exps: seq<Exp>, suppressions: map<Claim, Suppression>, skills: seq<Skill>, revs: seq<Revision>)

  const EMPTY := World([], map[], [], [])

  // ---------------------------------------------------------------- the trigger

  predicate Hit(r: Revision, m: nat, e: Exp) {
    && m in r.bindings && r.status != RForgotten
    && (e.status == Forgotten
        || ((r.status == RPending || r.status == RActive) && (e.status != Active || e.version != r.bindings[m])))
  }

  function Invalidated(r: Revision, e: Exp): Revision {
    var after := if e.status == Forgotten then RForgotten else RStale;
    r.(status := after, version := r.version + 1, erased := r.erased || e.status == Forgotten,
       events := r.events + [RevEvent(r.version + 1, "source-lifecycle", RevInvalidate, r.status, after)])
  }

  predicate LosesActive(w: World, s: nat, m: nat, e: Exp)
    requires s < |w.skills|
  {
    exists k ::
      0 <= k < |w.revs| && Hit(w.revs[k], m, e) && w.revs[k].skill == s && w.skills[s].active == Some(w.revs[k].number)
  }

  /** Replace the row of experience m and run the trigger. */
  function Touch(w: World, m: nat, e: Exp): World
    requires m < |w.exps|
  {
    var v := w.(exps := w.exps[m := e]);
    if e.status == w.exps[m].status && e.version == w.exps[m].version then v
    else
      v.(revs := seq(|w.revs|, k requires 0 <= k < |w.revs| =>
           if Hit(w.revs[k], m, e) then Invalidated(w.revs[k], e) else w.revs[k]),
         skills := seq(|w.skills|, s requires 0 <= s < |w.skills| =>
           if LosesActive(w, s, m, e) then w.skills[s].(active := None) else w.skills[s]))
  }

  // ---------------------------------------------------------------- experience operations

  predicate Suppressed(w: World, c: Claim) {
    c in w.suppressions && !w.suppressions[c].released
  }

  function Suppress(w: World, c: Claim, actor: User): World {
    var version := if c in w.suppressions then w.suppressions[c].version + 1 else 1;
    w.(suppressions := w.suppressions[c := Suppression(version, false, actor)])
  }

  /** _event: move a row to its next status and version, and log it. */
  function Logged(e: Exp, actor: User, action: Action, before: Status, after: Status, related: Option<nat>): Exp {
    e.(status := after, version := e.version + 1,
       events := e.events + [Event(e.version + 1, actor, action, before, after, related)])
  }

  function Erased(e: Exp): Exp {
    e.(status := Forgotten, erased := true)
  }

  function Required(action: Action): Option<Status> {
    match action
    case Approve => Some(Pending)
    case Reject => Some(Pending)
    case Archive => Some(Active)
    case _ => None
  }

  function After(action: Action): Status {
    match action
    case Approve => Active
    case Reject => Rejected
    case Archive => Archived
    case Supersede => Superseded
    case Forget => Forgotten
  }

  datatype Error = Missing | Conflict | ParentChanged | OutsideValidity | IsSuppressed | KeyReused

  datatype ReviewAnswer =
    | Applied(status: Status, version: nat)
    | AlreadyApplied(status: Status, version: nat)
    | Refused(error: Error)

  predicate InForce(e: Exp, now: Time) {
    (e.expiresAt.None? || e.expiresAt.value > now) && (e.validFrom.None? || e.validFrom.value <= now)
  }

  predicate ParentStands(w: World, e: Exp) {
    e.link.None? ||
    (e.link.value.parent < |w.exps| && w.exps[e.link.value.parent].status == Active
     && w.exps[e.link.value.parent].version == e.link.value.version)
  }

  function IsReplay(e: Exp, actor: User, action: Action, expected: nat): Option<Event> {
    if 1 <= expected <= |e.events| && e.events[expected - 1].actor == actor && e.events[expected - 1].action == action
    then Some(e.events[expected - 1]) else None
  }

  function ReviewError(w: World, i: nat, actor: User, action: Action, expected: nat, now: Time): Option<Error>
    requires i < |w.exps|
  {
    var e := w.exps[i];
    if e.version != expected || e.status == Forgotten
        || (Required(action).Some? && e.status != Required(action).value) then Some(Conflict)
    else if action == Approve && !ParentStands(w, e) then Some(ParentChanged)
    else if action == Approve && !InForce(e, now) then Some(OutsideValidity)
    else if action == Approve && Suppressed(w, e.claim) then Some(IsSuppressed)
    else None
  }

  /** Approving a revision retires its parent first, suppressing the parent's claim when it differs. */
  function Retire(w: World, i: nat, actor: User): World
    requires i < |w.exps| && ParentStands(w, w.exps[i])
  {
    var e := w.exps[i];
    if e.link.None? then w
    else
      var p := e.link.value.parent;
      var v := if w.exps[p].claim != e.claim then Suppress(w, w.exps[p].claim, actor) else w;
      Touch(v, p, Logged(w.exps[p], actor, Supersede, Active, Superseded, Some(i)))
  }

  function Review(w: World, i: nat, actor: User, action: Action, expected: nat, now: Time): (World, ReviewAnswer) {
    if i >= |w.exps| || action == Supersede then (w, Refused(Missing))
    else
      var e := w.exps[i];
      var replay := IsReplay(e, actor, action, expected);
      if replay.Some? then (w, AlreadyApplied(replay.value.after, replay.value.version))
      else
        var error := ReviewError(w, i, actor, action, expected, now);
        if error.Some? then (w, Refused(error.value))
        else
          var related := if action == Approve && e.link.Some? then Some(e.link.value.parent) else None;
          var w1 := if action == Approve then Retire(w, i, actor) else w;
          var w2 := if action == Reject || action == Forget then Suppress(w1, e.claim, actor) else w1;
          var w3 := if action == Forget then Touch(w2, i, Erased(e)) else w2;
          var row := Logged(if action == Forget then Erased(e) else e, actor, action, e.status, After(action), related);
          (Touch(w3, i, row), Applied(After(action), e.version + 1))
  }

  /** A proposal's source handoff row, as found. */
  datatype SourceRow = SourceRow(payload: Digest, lock: Digest, classification: Classification)

  datatype Proposal = Proposal(
    author: User, key: string, digest: Digest, kind: string, fingerprint: Digest,
    expiresAt: Option<Time>, validFrom: Option<Time>, revises: Option<Link>)

  datatype ProposeAnswer = Proposed(id: nat) | AlreadyProposed(id: nat) | NotProposed(error: Error)

  function FindKey(exps: seq<Exp>, author: User, key: string): (r: Option<nat>)
    ensures r.Some? ==> r.value < |exps| && exps[r.value].author == author && exps[r.value].key == key
    ensures r.None? ==> forall i :: 0 <= i < |exps| ==> exps[i].author != author || exps[i].key != key
  {
    if exps == [] then None
    else
      var n := |exps| - 1;
      if exps[n].author == author && exps[n].key == key then Some(n) else FindKey(exps[..n], author, key)
  }

  predicate ValidInterval(p: Proposal, now: Time) {
    p.expiresAt.Some? ==> p.expiresAt.value > now && (p.validFrom.Some? ==> p.validFrom.value < p.expiresAt.value)
  }

  function Propose(w: World, p: Proposal, source: Option<SourceRow>, now: Time): (World, ProposeAnswer) {
    var existing := FindKey(w.exps, p.author, p.key);
    if existing.Some? then
      (w, if w.exps[existing.value].digest == p.digest then AlreadyProposed(existing.value) else NotProposed(KeyReused))
    else if p.revises.Some? && p.revises.value.parent >= |w.exps| then (w, NotProposed(Missing))
    else if p.revises.Some?
            && !(w.exps[p.revises.value.parent].status == Active
                 && w.exps[p.revises.value.parent].version == p.revises.value.version) then
      (w, NotProposed(ParentChanged))
    else if source.None? then (w, NotProposed(Missing))
    else if !ValidInterval(p, now) then (w, NotProposed(OutsideValidity))
    else
      var claim := Claim(source.value.payload, p.fingerprint);
      if Suppressed(w, claim) then (w, NotProposed(IsSuppressed))
      else
        var base := if p.revises.Some? then Some(w.exps[p.revises.value.parent]) else None;
        var row := Exp(
          claim, source.value.lock, p.kind,
          if base.Some? then MaxClass(source.value.classification, base.value.classification)
          else source.value.classification,
          p.author, p.key, p.digest, p.expiresAt, p.validFrom, p.revises,
          if base.None? then None else if base.value.root.Some? then base.value.root else Some(p.revises.value.parent),
          if base.Some? then base.value.number + 1 else 1,
          Pending, 1, false, []);
        (w.(exps := w.exps + [row]), Proposed(|w.exps|))
  }

  datatype ReleaseAnswer = Released | AlreadyReleased | NotReleased(error: Error)

  function ReleaseSuppression(w: World, i: nat, actor: User, expected: nat): (World, ReleaseAnswer) {
    if i >= |w.exps| || w.exps[i].claim !in w.suppressions then (w, NotReleased(Missing))
    else
      var c := w.exps[i].claim;
      var s := w.suppressions[c];
      if s.released && s.version == expected + 1 && s.actor == actor then (w, AlreadyReleased)
      else if s.version != expected || s.released then (w, NotReleased(Conflict))
      else (w.(suppressions := w.suppressions[c := Suppression(s.version + 1, true, actor)]), Released)
  }

  // ---------------------------------------------------------------- skill operations

  /** capture: every reference is an approved experience at exactly that version, valid now, with one lock and a
      procedure among them; `evidence` stands for the conditions on the handoff rows behind them. */
  predicate Captures(w: World, refs: map<nat, nat>, evidence: bool, now: Time) {
    && 1 <= |refs| <= 8 && evidence
    && (forall m :: m in refs ==>
         m < |w.exps| && w.exps[m].status == Active && w.exps[m].version == refs[m] && InForce(w.exps[m], now))
    && (exists m :: m in refs && w.exps[m].kind == "procedure")
    && (forall m, n :: m in refs && n in refs ==> w.exps[m].lock == w.exps[n].lock)
  }

  datatype Target = NewSkill(name: string) | Revise(skill: nat, latest: nat)

  datatype Submission = Submission(
    author: User, key: string, digest: Digest, target: Target, authored: Digest, origin: Origin, refs: map<nat, nat>)

  datatype SkillError = SourcesMissing | SkillConflict | SubmissionReused | Unauthored

  datatype SubmitAnswer = Submitted(id: nat) | AlreadySubmitted(id: nat) | NotSubmitted(error: SkillError)

  function FindSubmission(revs: seq<Revision>, author: User, key: string): (r: Option<nat>)
    ensures r.Some? ==> r.value < |revs| && revs[r.value].author == author && revs[r.value].key == key
    ensures r.None? ==> forall i :: 0 <= i < |revs| ==> revs[i].author != author || revs[i].key != key
  {
    if revs == [] then None
    else
      var n := |revs| - 1;
      if revs[n].author == author && revs[n].key == key then Some(n) else FindSubmission(revs[..n], author, key)
  }

  predicate HasName(skills: seq<Skill>, name: string) {
    exists s :: 0 <= s < |skills| && skills[s].name == name
  }

  /** A person submits the generated revision `previous` again without having written anything of their own. */
  predicate Scaffold(previous: Revision, sub: Submission) {
    sub.origin == Manual && previous.origin == Generated && !previous.erased && previous.authored == sub.authored
  }

  function SubmitError(w: World, sub: Submission, evidence: bool, now: Time): Option<SkillError> {
    if !Captures(w, sub.refs, evidence, now) then Some(SourcesMissing)
    else
      match sub.target
      case NewSkill(name) => if HasName(w.skills, name) then Some(SkillConflict) else None
      case Revise(s, latest) =>
        if s >= |w.skills| || w.skills[s].latest != latest then Some(SkillConflict)
        else
          var p := FindRevision(w.revs, s, latest);
          if p < |w.revs| && Scaffold(w.revs[p], sub) then Some(Unauthored) else None
  }

  /** _submit: found a new skill, or revise one at its expected latest revision. */
  function Submit(w: World, sub: Submission, evidence: bool, now: Time): (World, SubmitAnswer) {
    var existing := FindSubmission(w.revs, sub.author, sub.key);
    if existing.Some? then
      (w, if w.revs[existing.value].digest == sub.digest then AlreadySubmitted(existing.value)
          else NotSubmitted(SubmissionReused))
    else
      var error := SubmitError(w, sub, evidence, now);
      if error.Some? then (w, NotSubmitted(error.value))
      else
        var s := if sub.target.Revise? then sub.target.skill else |w.skills|;
        var skills := if sub.target.Revise? then w.skills else w.skills + [Skill(sub.target.name, 0, None)];
        var r := Revision(
          s, skills[s].latest + 1, skills[s].active, sub.origin, sub.refs,
          sub.author, sub.key, sub.digest, sub.authored, RPending, 1, false, []);
        (w.(skills := skills[s := skills[s].(latest := skills[s].latest + 1)], revs := w.revs + [r]),
            Submitted(|w.revs|))
  }

  function RevRequired(action: RevAction): Option<RevStatus> {
    match action
    case RevApprove => Some(RPending)
    case RevReject => Some(RPending)
    case RevArchive => Some(RActive)
    case _ => None
  }

  function RevAfter(action: RevAction): RevStatus {
    match action
    case RevApprove => RActive
    case RevReject => RRejected
    case RevArchive => RArchived
    case RevSupersede => RSuperseded
    case RevInvalidate => RStale
    case RevForget => RForgotten
  }

  function Transitioned(r: Revision, actor: User, action: RevAction): Revision {
    r.(status := RevAfter(action), version := r.version + 1, erased := r.erased || action == RevForget,
       events := r.events + [RevEvent(r.version + 1, actor, action, r.status, RevAfter(action))])
  }

  function FindRevision(revs: seq<Revision>, s: nat, number: nat): (r: nat)
    ensures r <= |revs|
    ensures r < |revs| ==> revs[r].skill == s && revs[r].number == number
    ensures r == |revs| ==> forall k :: 0 <= k < |revs| ==> revs[k].skill != s || revs[k].number != number
  {
    if revs == [] then 0
    else
      var n := |revs| - 1;
      var r := FindRevision(revs[..n], s, number);
      if r < n then r else if revs[n].skill == s && revs[n].number == number then n else |revs|
  }

  datatype SkillAnswer =
    | SkillApplied(status: RevStatus, version: nat)
    | SkillReplayed(status: RevStatus, version: nat)
    | SkillRefused

  function RevReplay(r: Revision, actor: User, action: RevAction, expected: nat): Option<RevEvent> {
    if 1 <= expected <= |r.events| && r.events[expected - 1].actor == actor && r.events[expected - 1].action == action
    then Some(r.events[expected - 1]) else None
  }

  function ReviewSkill(w: World, k: nat, actor: User, action: RevAction, expected: nat, evidence: bool,
                       now: Time): (World, SkillAnswer)
  {
    if k >= |w.revs| || w.revs[k].skill >= |w.skills| || action == RevSupersede || action == RevInvalidate
        then (w, SkillRefused)
    else
      var r := w.revs[k];
      var s := w.skills[r.skill];
      var replay := RevReplay(r, actor, action, expected);
      var applied := SkillApplied(RevAfter(action), r.version + 1);
      if replay.Some? then (w, SkillReplayed(replay.value.after, replay.value.version))
      else if r.version != expected || r.status == RForgotten
          || (RevRequired(action).Some? && r.status != RevRequired(action).value) then (w, SkillRefused)
      else if action == RevApprove
              && (r.origin != Manual || !Captures(w, r.bindings, evidence, now) || r.base != s.active) then
        (w, SkillRefused)
      else if action == RevApprove then
        var p := if s.active.Some? then FindRevision(w.revs, r.skill, s.active.value) else |w.revs|;
        var revs := if p < |w.revs| then w.revs[p := Transitioned(w.revs[p], actor, RevSupersede)] else w.revs;
        (w.(revs := revs[k := Transitioned(r, actor, action)],
            skills := w.skills[r.skill := s.(active := Some(r.number))]), applied)
      else
        (w.(revs := w.revs[k := Transitioned(r, actor, action)],
            skills := if s.active == Some(r.number) then w.skills[r.skill := s.(active := None)] else w.skills),
         applied)
  }

  // ---------------------------------------------------------------- invariants

  predicate Approved(e: Exp) {
    |e.events| > 0 && e.events[0].action == Approve
  }

  /** The transitions the event table admits. */
  predicate Legal(v: Event) {
    match v.action
    case Approve => v.before == Pending && v.after == Active
    case Reject => v.before == Pending && v.after == Rejected
    case Archive => v.before == Active && v.after == Archived
    case Supersede => v.before == Active && v.after == Superseded
    case Forget => v.before != Forgotten && v.after == Forgotten
  }

  /** Folding the event log from a pending row gives exactly the row's status and version. */
  function Fold(events: seq<Event>): (Status, nat) {
    if events == [] then (Pending, 1)
    else (events[|events| - 1].after, Fold(events[..|events| - 1]).1 + 1)
  }

  /** Event k has version k + 2, is legal, and starts where its predecessor ended. */
  predicate EventOk(events: seq<Event>, k: nat)
    requires k < |events|
  {
    && events[k].version == k + 2 && Legal(events[k])
    && events[k].before == if k == 0 then Pending else events[k - 1].after
  }

  ghost predicate LogInv(e: Exp) {
    && Fold(e.events) == (e.status, e.version)
    && (forall k :: 0 <= k < |e.events| ==> EventOk(e.events, k))
    && (e.erased <==> e.status == Forgotten)
  }

  function Family(exps: seq<Exp>, i: nat): nat
    requires i < |exps|
  {
    if exps[i].root.Some? then exps[i].root.value else i
  }

  /** A revision extends the family of an approved parent; approving it superseded that very parent. */
  ghost predicate LineageAt(exps: seq<Exp>, i: nat)
    requires i < |exps|
  {
    var e := exps[i];
    if e.link.None? then e.root.None? && e.number == 1
    else
      var p := e.link.value.parent;
      && p < i && e.root == Some(Family(exps, p)) && e.number == exps[p].number + 1
      && exps[p].classification.Rank() <= e.classification.Rank()
      && Approved(exps[p])
      && (Approved(e) ==>
           |exps[p].events| > 1 && exps[p].events[1].action == Supersede && exps[p].events[1].related == Some(i))
  }

  ghost predicate RowOk(exps: seq<Exp>, i: nat)
    requires i < |exps|
  {
    LogInv(exps[i]) && LineageAt(exps, i)
  }

  ghost predicate ExpsInv(exps: seq<Exp>) {
    forall i :: 0 <= i < |exps| ==> RowOk(exps, i)
  }

  /** Pending and active revisions stand on approved experiences at exactly the bound versions;
      nothing readable is left of a forgotten source. */
  ghost predicate BindingOk(exps: seq<Exp>, r: Revision, m: nat)
    requires m in r.bindings
  {
    && m < |exps|
    && (r.status == RPending || r.status == RActive ==> exps[m].status == Active && exps[m].version == r.bindings[m])
    && (exps[m].status == Forgotten ==> r.status == RForgotten)
  }

  ghost predicate BindingsOk(exps: seq<Exp>, r: Revision) {
    forall m :: m in r.bindings ==> BindingOk(exps, r, m)
  }

  ghost predicate RevOk(skills: seq<Skill>, r: Revision) {
    && r.skill < |skills| && r.number <= skills[r.skill].latest
    && (r.erased <==> r.status == RForgotten)
    && (r.status == RActive ==> skills[r.skill].active == Some(r.number) && r.origin == Manual)
  }

  ghost predicate NumbersUnique(revs: seq<Revision>) {
    forall k, l :: 0 <= k < l < |revs| ==> (revs[k].skill, revs[k].number) != (revs[l].skill, revs[l].number)
  }

  /** The pointer of a skill names an active revision. */
  ghost predicate PointerOk(revs: seq<Revision>, s: nat, active: Option<nat>) {
    active.Some? ==> HasActive(revs, s, active.value)
  }

  ghost predicate SkillsInv(w: World) {
    && (forall k :: 0 <= k < |w.revs| ==> BindingsOk(w.exps, w.revs[k]))
    && (forall k :: 0 <= k < |w.revs| ==> RevOk(w.skills, w.revs[k]))
    && NumbersUnique(w.revs)
    && (forall s :: 0 <= s < |w.skills| ==> PointerOk(w.revs, s, w.skills[s].active))
  }

  predicate HasActive(revs: seq<Revision>, s: nat, number: nat) {
    exists k :: 0 <= k < |revs| && revs[k].skill == s && revs[k].number == number && revs[k].status == RActive
  }

  ghost predicate Inv(w: World) {
    ExpsInv(w.exps) && SkillsInv(w) && LogsInv(w.revs) && KeysInv(w)
  }

  // ---------------------------------------------------------------- revision logs and submission keys

  /** The transitions a revision admits; the trigger may erase any revision and make a pending or active one stale. */
  predicate RevLegal(v: RevEvent) {
    match v.action
    case RevApprove => v.before == RPending && v.after == RActive
    case RevReject => v.before == RPending && v.after == RRejected
    case RevArchive => v.before == RActive && v.after == RArchived
    case RevSupersede => v.before == RActive && v.after == RSuperseded
    case RevForget => v.before != RForgotten && v.after == RForgotten
    case RevInvalidate =>
      v.before != RForgotten
          && (v.after == RForgotten || (v.after == RStale && (v.before == RPending || v.before == RActive)))
  }

  function RevFold(events: seq<RevEvent>): (RevStatus, nat) {
    if events == [] then (RPending, 1)
    else (events[|events| - 1].after, RevFold(events[..|events| - 1]).1 + 1)
  }

  predicate RevEventOk(events: seq<RevEvent>, k: nat)
    requires k < |events|
  {
    && events[k].version == k + 2 && RevLegal(events[k])
    && events[k].before == if k == 0 then RPending else events[k - 1].after
  }

  ghost predicate RevLogInv(r: Revision) {
    && RevFold(r.events) == (r.status, r.version)
    && forall k: nat :: k < |r.events| ==> RevEventOk(r.events, k)
  }

  ghost predicate LogsInv(revs: seq<Revision>) {
    forall k :: 0 <= k < |revs| ==> RevLogInv(revs[k])
  }

  ghost predicate HasLatest(revs: seq<Revision>, s: nat, latest: nat) {
    exists k :: 0 <= k < |revs| && revs[k].skill == s && revs[k].number == latest
  }

  /** Idempotency keys and skill names are unique, and every skill has its latest revision. */
  ghost predicate KeysInv(w: World) {
    && (forall i, j :: 0 <= i < j < |w.exps| ==> (w.exps[i].author, w.exps[i].key) != (w.exps[j].author, w.exps[j].key))
    && (forall i, j :: 0 <= i < j < |w.revs| ==> (w.revs[i].author, w.revs[i].key) != (w.revs[j].author, w.revs[j].key))
    && (forall i, j :: 0 <= i < j < |w.skills| ==> w.skills[i].name != w.skills[j].name)
    && (forall s :: 0 <= s < |w.skills| ==> HasLatest(w.revs, s, w.skills[s].latest))
  }

  /** The same submission, with its log extended. */
  ghost predicate RevExtends(a: Revision, b: Revision) {
    && b == a.(status := b.status, version := b.version, erased := b.erased, events := b.events)
    && a.events <= b.events
  }

  ghost predicate RevsExtend(a: seq<Revision>, b: seq<Revision>) {
    |a| <= |b| && forall k :: 0 <= k < |a| ==> RevExtends(a[k], b[k])
  }

  ghost predicate SameSkills(a: seq<Skill>, b: seq<Skill>) {
    |a| == |b| && forall s :: 0 <= s < |a| ==> b[s] == a[s].(active := b[s].active)
  }

  /** What every step but a submission does to the skills: logs grow, pointers move, nothing else. */
  ghost predicate SkillsEvolve(w: World, v: World) {
    |w.revs| == |v.revs| && RevsExtend(w.revs, v.revs) && LogsInv(v.revs) && SameSkills(w.skills, v.skills)
  }

  lemma SkillsEvolveFurther(a: World, b: World, c: World)
    requires SkillsEvolve(a, b) && SkillsEvolve(b, c)
    ensures SkillsEvolve(a, c)
  {
    forall k | 0 <= k < |a.revs| ensures RevExtends(a.revs[k], c.revs[k]) {
      assert RevExtends(a.revs[k], b.revs[k]) && RevExtends(b.revs[k], c.revs[k]);
    }
  }

  lemma RevFoldLength(events: seq<RevEvent>)
    ensures RevFold(events).1 == |events| + 1
    ensures RevFold(events).0 == if events == [] then RPending else events[|events| - 1].after
  {
  }

  lemma LoggingKeepsRevLog(r: Revision, b: Revision, e: RevEvent)
    requires RevLogInv(r) && RevLegal(e) && e.before == r.status && e.version == r.version + 1
    requires b.events == r.events + [e] && b.status == e.after && b.version == r.version + 1
    ensures RevLogInv(b)
  {
    RevFoldLength(r.events);
    RevFoldLength(b.events);
    forall k: nat | k < |b.events| ensures RevEventOk(b.events, k) {
      if k < |r.events| {
        assert RevEventOk(r.events, k);
      }
    }
  }

  lemma TouchEvolvesSkills(w: World, m: nat, e: Exp)
    requires LogsInv(w.revs) && m < |w.exps|
    ensures SkillsEvolve(w, Touch(w, m, e))
  {
    var v := Touch(w, m, e);
    forall k | 0 <= k < |w.revs| ensures RevExtends(w.revs[k], v.revs[k]) && RevLogInv(v.revs[k]) {
      var r := w.revs[k];
      if v.revs != w.revs && Hit(r, m, e) {
        LoggingKeepsRevLog(r, Invalidated(r, e), Invalidated(r, e).events[|r.events|]);
      }
    }
  }

  lemma TransitionExtends(r: Revision, actor: User, action: RevAction)
    requires RevLogInv(r) && RevLegal(RevEvent(0, actor, action, r.status, RevAfter(action)))
    ensures RevExtends(r, Transitioned(r, actor, action)) && RevLogInv(Transitioned(r, actor, action))
  {
    LoggingKeepsRevLog(r, Transitioned(r, actor, action),
        RevEvent(r.version + 1, actor, action, r.status, RevAfter(action)));
  }

  /** Evolving skills keep every submission key, name and latest revision. */
  lemma EvolvingKeepsKeys(w: World, v: World)
    requires KeysInv(w) && SkillsEvolve(w, v)
    requires |w.exps| == |v.exps| && forall i :: 0 <= i < |w.exps| ==>
            v.exps[i].author == w.exps[i].author && v.exps[i].key == w.exps[i].key
    ensures KeysInv(v)
  {
    forall i, j | 0 <= i < j < |v.revs| ensures (v.revs[i].author, v.revs[i].key) != (v.revs[j].author, v.revs[j].key) {
      assert RevExtends(w.revs[i], v.revs[i]) && RevExtends(w.revs[j], v.revs[j]);
    }
    forall s | 0 <= s < |v.skills| ensures HasLatest(v.revs, s, v.skills[s].latest) {
      assert HasLatest(w.revs, s, w.skills[s].latest);
      var k :| 0 <= k < |w.revs| && w.revs[k].skill == s && w.revs[k].number == w.skills[s].latest;
      assert RevExtends(w.revs[k], v.revs[k]);
    }
  }

  // ---------------------------------------------------------------- the trigger keeps skills in agreement

  lemma TouchKeepsBindings(w: World, m: nat, e: Exp, k: nat)
    requires m < |w.exps| && k < |w.revs| && BindingsOk(w.exps, w.revs[k])
    ensures BindingsOk(Touch(w, m, e).exps, Touch(w, m, e).revs[k])
  {
    var v := Touch(w, m, e);
    forall n | n in v.revs[k].bindings ensures BindingOk(v.exps, v.revs[k], n) {
      assert BindingOk(w.exps, w.revs[k], n);
    }
  }

  lemma TouchKeepsRevision(w: World, m: nat, e: Exp, k: nat)
    requires m < |w.exps| && k < |w.revs| && RevOk(w.skills, w.revs[k]) && NumbersUnique(w.revs)
    ensures RevOk(Touch(w, m, e).skills, Touch(w, m, e).revs[k])
  {
    var v := Touch(w, m, e);
    var r := w.revs[k];
    if v.revs[k].status == RActive && v.revs != w.revs {
      assert !Hit(r, m, e);
      forall l | 0 <= l < |w.revs| && Hit(w.revs[l], m, e) && w.revs[l].skill == r.skill
        ensures w.revs[l].number != r.number
      {
      }
    }
  }

  lemma TouchKeepsPointer(w: World, m: nat, e: Exp, s: nat)
    requires m < |w.exps| && s < |w.skills| && PointerOk(w.revs, s, w.skills[s].active)
    ensures PointerOk(Touch(w, m, e).revs, s, Touch(w, m, e).skills[s].active)
  {
    var v := Touch(w, m, e);
    if v.skills[s].active.Some? && v.revs != w.revs {
      var k :| 0 <= k < |w.revs| && w.revs[k].skill == s && w.revs[k].number == w.skills[s].active.value
          && w.revs[k].status == RActive;
      assert !Hit(w.revs[k], m, e);
      assert v.revs[k] == w.revs[k];
    }
  }

  /** Whatever an update does to an experience row, the trigger keeps skills in agreement with it. */
  lemma TouchKeepsSkills(w: World, m: nat, e: Exp)
    requires SkillsInv(w) && m < |w.exps|
    ensures SkillsInv(Touch(w, m, e))
  {
    var v := Touch(w, m, e);
    forall k | 0 <= k < |v.revs| ensures BindingsOk(v.exps, v.revs[k]) {
      TouchKeepsBindings(w, m, e, k);
    }
    forall k | 0 <= k < |v.revs| ensures RevOk(v.skills, v.revs[k]) {
      TouchKeepsRevision(w, m, e, k);
    }
    forall s | 0 <= s < |v.skills| ensures PointerOk(v.revs, s, v.skills[s].active) {
      TouchKeepsPointer(w, m, e, s);
    }
    assert forall k :: 0 <= k < |w.revs| ==> v.revs[k].skill == w.revs[k].skill && v.revs[k].number == w.revs[k].number;
  }

  // ---------------------------------------------------------------- the event log

  lemma StatusFromLog(e: Exp)
    requires LogInv(e)
    ensures e.version == |e.events| + 1
    ensures e.status == Active ==> |e.events| == 1 && Approved(e)
    ensures e.status == Pending <==> e.events == []
    ensures e.status == Superseded || e.status == Archived ==> |e.events| == 2 && Approved(e)
    ensures e.status == Rejected ==> |e.events| == 1 && !Approved(e)
  {
    FoldLength(e.events);
    var n := |e.events|;
    if n > 0 {
      assert EventOk(e.events, n - 1) && EventOk(e.events, 0);
      if n > 1 {
        assert EventOk(e.events, n - 2) && EventOk(e.events, 1);
        if n > 2 {
          assert EventOk(e.events, n - 3);
        }
      }
    }
  }

  lemma FoldLength(events: seq<Event>)
    ensures Fold(events).1 == |events| + 1
    ensures Fold(events).0 == if events == [] then Pending else events[|events| - 1].after
  {
  }

  lemma LoggingKeepsLog(e: Exp, base: Exp, actor: User, action: Action, related: Option<nat>)
    requires LogInv(e) && Legal(Event(0, actor, action, e.status, After(action), related))
    requires base == if action == Forget then Erased(e) else e
    ensures LogInv(Logged(base, actor, action, e.status, After(action), related))
  {
    FoldLength(e.events);
    var row := Logged(base, actor, action, e.status, After(action), related);
    FoldLength(row.events);
    forall k | 0 <= k < |row.events| ensures EventOk(row.events, k) {
      if k < |e.events| {
        assert EventOk(e.events, k);
      }
    }
  }

  // ---------------------------------------------------------------- lineage

  /** The same submission, with its log extended. */
  ghost predicate Extends(a: Exp, b: Exp) {
    && b == a.(status := b.status, version := b.version, erased := b.erased, events := b.events)
    && a.events <= b.events
  }

  lemma LineageSurvives(xs: seq<Exp>, ys: seq<Exp>, k: nat)
    requires |xs| <= |ys| && forall j :: 0 <= j < |xs| ==> Extends(xs[j], ys[j])
    requires k < |xs| && LineageAt(xs, k)
    requires Approved(ys[k]) && ys[k].link.Some? && !Approved(xs[k]) ==>
               var p := ys[k].link.value.parent;
               p < |ys| && |ys[p].events| > 1 && ys[p].events[1].action == Supersede
                   && ys[p].events[1].related == Some(k)
    ensures LineageAt(ys, k)
  {
    assert Extends(xs[k], ys[k]);
    if xs[k].link.Some? {
      assert Extends(xs[xs[k].link.value.parent], ys[xs[k].link.value.parent]);
    }
  }

  /** The experience rows after an applied review. */
  function ReviewedRows(w: World, i: nat, actor: User, action: Action): seq<Exp>
    requires i < |w.exps| && ParentStands(w, w.exps[i])
  {
    var e := w.exps[i];
    var related := if action == Approve && e.link.Some? then Some(e.link.value.parent) else None;
    var rows := if action == Approve && e.link.Some?
                then w.exps[e.link.value.parent :=
                              Logged(w.exps[e.link.value.parent], actor, Supersede, Active, Superseded, Some(i))]
                else w.exps;
    rows[i := Logged(if action == Forget then Erased(e) else e, actor, action, e.status, After(action), related)]
  }

  lemma ReviewRows(w: World, i: nat, actor: User, action: Action, expected: nat, now: Time)
    requires i < |w.exps| && Review(w, i, actor, action, expected, now).1.Applied?
    ensures action == Approve ==> ParentStands(w, w.exps[i])
    ensures Review(w, i, actor, action, expected, now).0.exps ==
            if action == Approve then ReviewedRows(w, i, actor, action)
            else
              var base := if action == Forget then Erased(w.exps[i]) else w.exps[i];
              w.exps[i := Logged(base, actor, action, w.exps[i].status, After(action), None)]
  {
  }

  lemma ApproveKeepsExps(w: World, i: nat, actor: User)
    requires ExpsInv(w.exps) && i < |w.exps| && w.exps[i].status == Pending && ParentStands(w, w.exps[i])
    ensures ExpsInv(ReviewedRows(w, i, actor, Approve))
  {
    var ys := ReviewedRows(w, i, actor, Approve);
    var e := w.exps[i];
    assert RowOk(w.exps, i);
    StatusFromLog(e);
    LoggingKeepsLog(e, e, actor, Approve, if e.link.Some? then Some(e.link.value.parent) else None);
    if e.link.Some? {
      var p := e.link.value.parent;
      assert RowOk(w.exps, p);
      StatusFromLog(w.exps[p]);
      LoggingKeepsLog(w.exps[p], w.exps[p], actor, Supersede, Some(i));
      assert ys[p].events[1] == Event(3, actor, Supersede, Active, Superseded, Some(i));
    }
    forall k | 0 <= k < |ys| ensures RowOk(ys, k) {
      assert RowOk(w.exps, k);
      LineageSurvives(w.exps, ys, k);
    }
  }

  lemma OtherReviewKeepsExps(w: World, i: nat, actor: User, action: Action)
    requires ExpsInv(w.exps) && i < |w.exps| && action != Approve && action != Supersede
    requires w.exps[i].status != Forgotten && (Required(action).Some? ==> w.exps[i].status == Required(action).value)
    ensures var base := if action == Forget then Erased(w.exps[i]) else w.exps[i];
            ExpsInv(w.exps[i := Logged(base, actor, action, w.exps[i].status, After(action), None)])
  {
    var e := w.exps[i];
    var base := if action == Forget then Erased(e) else e;
    assert RowOk(w.exps, i);
    LoggingKeepsLog(e, base, actor, action, None);
    var ys := w.exps[i := Logged(base, actor, action, e.status, After(action), None)];
    forall k | 0 <= k < |ys| ensures RowOk(ys, k) {
      assert RowOk(w.exps, k);
      LineageSurvives(w.exps, ys, k);
    }
  }

  lemma ReviewKeepsSkills(w: World, i: nat, actor: User, action: Action, expected: nat, now: Time)
    requires SkillsInv(w)
    ensures SkillsInv(Review(w, i, actor, action, expected, now).0)
  {
    if i < |w.exps| && Review(w, i, actor, action, expected, now).1.Applied? {
      var e := w.exps[i];
      var w1 := if action == Approve then Retire(w, i, actor) else w;
      if action == Approve && e.link.Some? {
        var p := e.link.value.parent;
        var v := if w.exps[p].claim != e.claim then Suppress(w, w.exps[p].claim, actor) else w;
        TouchKeepsSkills(v, p, Logged(w.exps[p], actor, Supersede, Active, Superseded, Some(i)));
      }
      var w2 := if action == Reject || action == Forget then Suppress(w1, e.claim, actor) else w1;
      var w3 := if action == Forget then Touch(w2, i, Erased(e)) else w2;
      if action == Forget {
        TouchKeepsSkills(w2, i, Erased(e));
      }
      var related := if action == Approve && e.link.Some? then Some(e.link.value.parent) else None;
      TouchKeepsSkills(w3, i,
          Logged(if action == Forget then Erased(e) else e, actor, action, e.status, After(action), related));
    }
  }

  lemma RetireEvolvesSkills(w: World, i: nat, actor: User)
    requires LogsInv(w.revs) && i < |w.exps| && ParentStands(w, w.exps[i])
    ensures SkillsEvolve(w, Retire(w, i, actor))
  {
    var e := w.exps[i];
    if e.link.Some? {
      var p := e.link.value.parent;
      var v := if w.exps[p].claim != e.claim then Suppress(w, w.exps[p].claim, actor) else w;
      TouchEvolvesSkills(v, p, Logged(w.exps[p], actor, Supersede, Active, Superseded, Some(i)));
    }
  }

  lemma ReviewEvolvesSkills(w: World, i: nat, actor: User, action: Action, expected: nat, now: Time)
    requires LogsInv(w.revs)
    ensures SkillsEvolve(w, Review(w, i, actor, action, expected, now).0)
  {
    if i < |w.exps| && Review(w, i, actor, action, expected, now).1.Applied? {
      var e := w.exps[i];
      var related := if action == Approve && e.link.Some? then Some(e.link.value.parent) else None;
      var row := Logged(if action == Forget then Erased(e) else e, actor, action, e.status, After(action), related);
      var w1 := if action == Approve then Retire(w, i, actor) else w;
      if action == Approve {
        RetireEvolvesSkills(w, i, actor);
      }
      var w2 := if action == Reject || action == Forget then Suppress(w1, e.claim, actor) else w1;
      var w3 := if action == Forget then Touch(w2, i, Erased(e)) else w2;
      if action == Forget {
        TouchEvolvesSkills(w2, i, Erased(e));
      }
      TouchEvolvesSkills(w3, i, row);
      SkillsEvolveFurther(w, w3, Touch(w3, i, row));
    }
  }

  lemma ReviewKeepsKeys(w: World, i: nat, actor: User, action: Action, expected: nat, now: Time)
    requires Inv(w)
    ensures KeysInv(Review(w, i, actor, action, expected, now).0)
  {
    ReviewEvolvesSkills(w, i, actor, action, expected, now);
    if i < |w.exps| && Review(w, i, actor, action, expected, now).1.Applied? {
      ReviewRows(w, i, actor, action, expected, now);
    }
    EvolvingKeepsKeys(w, Review(w, i, actor, action, expected, now).0);
  }

  lemma ReviewKeepsInvariant(w: World, i: nat, actor: User, action: Action, expected: nat, now: Time)
    requires Inv(w)
    ensures Inv(Review(w, i, actor, action, expected, now).0)
  {
    ReviewKeepsSkills(w, i, actor, action, expected, now);
    ReviewEvolvesSkills(w, i, actor, action, expected, now);
    ReviewKeepsKeys(w, i, actor, action, expected, now);
    if i < |w.exps| && Review(w, i, actor, action, expected, now).1.Applied? {
      ReviewRows(w, i, actor, action, expected, now);
      if action == Approve {
        ApproveKeepsExps(w, i, actor);
      } else {
        OtherReviewKeepsExps(w, i, actor, action);
      }
    }
  }

  lemma ProposeKeepsInvariant(w: World, p: Proposal, source: Option<SourceRow>, now: Time)
    requires Inv(w)
    ensures Inv(Propose(w, p, source, now).0)
  {
    var (v, answer) := Propose(w, p, source, now);
    if answer.Proposed? {
      if p.revises.Some? {
        assert RowOk(w.exps, p.revises.value.parent);
        StatusFromLog(w.exps[p.revises.value.parent]);
      }
      forall k | 0 <= k < |v.exps| ensures RowOk(v.exps, k) {
        if k < |w.exps| {
          assert RowOk(w.exps, k);
          LineageSurvives(w.exps, v.exps, k);
        }
      }
      forall k | 0 <= k < |v.revs| ensures BindingsOk(v.exps, v.revs[k]) {
        assert BindingsOk(w.exps, w.revs[k]);
        forall m | m in v.revs[k].bindings ensures BindingOk(v.exps, v.revs[k], m) {
          assert BindingOk(w.exps, w.revs[k], m);
        }
      }
    }
  }

  // ---------------------------------------------------------------- skills

  /** The outcome of an accepted submission. */
  ghost predicate Accepted(w: World, sub: Submission, v: World, id: nat) {
    && v.exps == w.exps && v.suppressions == w.suppressions
    && w.revs <= v.revs && |v.revs| == |w.revs| + 1 && id == |w.revs|
    && var r := v.revs[id];
       && r.author == sub.author && r.key == sub.key && r.digest == sub.digest && r.bindings == sub.refs
       && r.status == RPending && r.version == 1 && r.events == []
       && FindSubmission(w.revs, sub.author, sub.key).None?
       && r.skill < |v.skills| && v.skills[r.skill].latest == r.number && v.skills[r.skill].active == r.base
       && (forall s :: 0 <= s < |w.skills| && s < |v.skills| ==>
             v.skills[s].name == w.skills[s].name && (s != r.skill ==> v.skills[s] == w.skills[s]))
       && match sub.target
          case Revise(s, latest) => r.skill == s && r.number == latest + 1 && |v.skills| == |w.skills|
          case NewSkill(name) =>
            && r.skill == |w.skills| && |v.skills| == |w.skills| + 1 && r.number == 1 && r.base.None?
            && v.skills[r.skill].name == name && !HasName(w.skills, name)
  }

  lemma SubmitKeepsSkills(w: World, sub: Submission, evidence: bool, now: Time)
    requires SkillsInv(w)
    ensures var (v, answer) := Submit(w, sub, evidence, now);
            && SkillsInv(v)
            && (if answer.Submitted? then Accepted(w, sub, v, answer.id) && Captures(w, sub.refs, evidence, now)
                else v == w)
            && (answer.Submitted? ==> forall k :: 0 <= k < |w.revs| && w.revs[k].skill == v.revs[answer.id].skill ==>
                                        w.revs[k].number < v.revs[answer.id].number)
  {
    var (v, answer) := Submit(w, sub, evidence, now);
    if answer.Submitted? {
      forall k | 0 <= k < |v.revs| ensures BindingsOk(v.exps, v.revs[k]) && RevOk(v.skills, v.revs[k]) {
        if k < |w.revs| {
          assert BindingsOk(w.exps, w.revs[k]) && RevOk(w.skills, w.revs[k]);
        }
      }
      forall k, l | 0 <= k < l < |v.revs|
          ensures (v.revs[k].skill, v.revs[k].number) != (v.revs[l].skill, v.revs[l].number) {
        assert RevOk(w.skills, w.revs[k]);
      }
      forall s | 0 <= s < |v.skills| ensures PointerOk(v.revs, s, v.skills[s].active) {
        if s < |w.skills| {
          assert PointerOk(w.revs, s, w.skills[s].active);
          KeepActive(w.revs, v.revs, s, v.skills[s].active);
        }
      }
    }
  }

  lemma LatestSurvives(a: seq<Revision>, b: seq<Revision>, s: nat, latest: nat)
    requires a <= b && HasLatest(a, s, latest)
    ensures HasLatest(b, s, latest)
  {
    var k :| 0 <= k < |a| && a[k].skill == s && a[k].number == latest;
    assert b[k] == a[k];
  }

  lemma AcceptedKeepsLatest(w: World, sub: Submission, v: World, id: nat)
    requires KeysInv(w) && Accepted(w, sub, v, id)
    ensures forall s :: 0 <= s < |v.skills| ==> HasLatest(v.revs, s, v.skills[s].latest)
  {
    var r := v.revs[id];
    forall s | 0 <= s < |v.skills| ensures HasLatest(v.revs, s, v.skills[s].latest) {
      if s == r.skill {
        assert v.revs[id].skill == s && v.revs[id].number == v.skills[s].latest;
      } else {
        LatestSurvives(w.revs, v.revs, s, w.skills[s].latest);
      }
    }
  }

  lemma AcceptedKeepsNames(w: World, sub: Submission, v: World, id: nat)
    requires KeysInv(w) && Accepted(w, sub, v, id)
    ensures forall i, j :: 0 <= i < j < |v.skills| ==> v.skills[i].name != v.skills[j].name
  {
  }

  lemma AcceptedKeepsSubmissions(w: World, sub: Submission, v: World, id: nat)
    requires KeysInv(w) && LogsInv(w.revs) && Accepted(w, sub, v, id)
    ensures forall i, j :: 0 <= i < j < |v.revs| ==>
            (v.revs[i].author, v.revs[i].key) != (v.revs[j].author, v.revs[j].key)
    ensures LogsInv(v.revs) && RevsExtend(w.revs, v.revs)
  {
    forall k | 0 <= k < |v.revs| ensures RevLogInv(v.revs[k]) {
      assert k < |w.revs| ==> v.revs[k] == w.revs[k];
    }
  }

  lemma AcceptedKeepsKeys(w: World, sub: Submission, v: World, id: nat)
    requires LogsInv(w.revs) && KeysInv(w) && Accepted(w, sub, v, id)
    ensures LogsInv(v.revs) && KeysInv(v) && RevsExtend(w.revs, v.revs)
  {
    AcceptedKeepsLatest(w, sub, v, id);
    AcceptedKeepsNames(w, sub, v, id);
    AcceptedKeepsSubmissions(w, sub, v, id);
  }

  lemma KeepActive(a: seq<Revision>, b: seq<Revision>, s: nat, active: Option<nat>)
    requires PointerOk(a, s, active) && a <= b
    ensures PointerOk(b, s, active)
  {
    if active.Some? {
      var k :| 0 <= k < |a| && a[k].skill == s && a[k].number == active.value && a[k].status == RActive;
      assert b[k] == a[k];
    }
  }

  /** Replacing revision k by a row that is not active keeps every pointer that does not name it. */
  lemma PointerSurvives(revs: seq<Revision>, k: nat, r: Revision, s: nat, active: Option<nat>)
    requires k < |revs| && PointerOk(revs, s, active)
    requires active.Some? ==> revs[k].skill != s || revs[k].number != active.value
    ensures PointerOk(revs[k := r], s, active)
  {
    if active.Some? {
      var l :| 0 <= l < |revs| && revs[l].skill == s && revs[l].number == active.value && revs[l].status == RActive;
      assert revs[k := r][l] == revs[l];
    }
  }

  lemma TransitionKeepsBindings(exps: seq<Exp>, r: Revision, actor: User, action: RevAction)
    requires BindingsOk(exps, r) && r.status != RForgotten
    requires action == RevApprove ==> r.status == RPending
    ensures BindingsOk(exps, Transitioned(r, actor, action))
  {
    forall m | m in r.bindings ensures BindingOk(exps, Transitioned(r, actor, action), m) {
      assert BindingOk(exps, r, m);
    }
  }

  lemma RetireRevisionKeepsSkills(w: World, k: nat, actor: User, action: RevAction)
    requires SkillsInv(w) && k < |w.revs| && action != RevApprove && w.revs[k].status != RForgotten
    ensures var r := w.revs[k];
            var s := w.skills[r.skill];
            SkillsInv(w.(revs := w.revs[k := Transitioned(r, actor, action)],
                         skills := if s.active == Some(r.number) then w.skills[r.skill := s.(active := None)]
                             else w.skills))
  {
    var r := w.revs[k];
    assert RevOk(w.skills, r);
    var s := w.skills[r.skill];
    var v := w.(revs := w.revs[k := Transitioned(r, actor, action)],
                skills := if s.active == Some(r.number) then w.skills[r.skill := s.(active := None)] else w.skills);
    TransitionKeepsBindings(w.exps, r, actor, action);
    forall l | 0 <= l < |v.revs| ensures BindingsOk(v.exps, v.revs[l]) && RevOk(v.skills, v.revs[l]) {
      assert BindingsOk(w.exps, w.revs[l]) && RevOk(w.skills, w.revs[l]);
    }
    forall t | 0 <= t < |v.skills| ensures PointerOk(v.revs, t, v.skills[t].active) {
      assert PointerOk(w.revs, t, w.skills[t].active);
      if v.skills[t].active.Some? {
        PointerSurvives(w.revs, k, Transitioned(r, actor, action), t, v.skills[t].active);
      }
    }
  }

  lemma ActivateKeepsSkills(w: World, k: nat, actor: User)
    requires SkillsInv(w) && k < |w.revs| && w.revs[k].status == RPending && w.revs[k].skill < |w.skills|
    requires w.revs[k].origin == Manual
    requires w.skills[w.revs[k].skill].active.None?
    ensures var r := w.revs[k];
            SkillsInv(w.(revs := w.revs[k := Transitioned(r, actor, RevApprove)],
                         skills := w.skills[r.skill := w.skills[r.skill].(active := Some(r.number))]))
  {
    var r := w.revs[k];
    var v := w.(revs := w.revs[k := Transitioned(r, actor, RevApprove)],
                skills := w.skills[r.skill := w.skills[r.skill].(active := Some(r.number))]);
    TransitionKeepsBindings(w.exps, r, actor, RevApprove);
    forall l | 0 <= l < |v.revs| ensures BindingsOk(v.exps, v.revs[l]) && RevOk(v.skills, v.revs[l]) {
      assert BindingsOk(w.exps, w.revs[l]) && RevOk(w.skills, w.revs[l]);
      assert RevOk(w.skills, r);
    }
    forall t | 0 <= t < |v.skills| ensures PointerOk(v.revs, t, v.skills[t].active) {
      assert PointerOk(w.revs, t, w.skills[t].active);
      if t == r.skill {
        assert v.revs[k].status == RActive;
      } else if v.skills[t].active.Some? {
        PointerSurvives(w.revs, k, Transitioned(r, actor, RevApprove), t, v.skills[t].active);
      }
    }
  }

  lemma ReviewSkillKeepsSkills(w: World, k: nat, actor: User, action: RevAction, expected: nat, evidence: bool,
                               now: Time)
    requires SkillsInv(w)
    ensures SkillsInv(ReviewSkill(w, k, actor, action, expected, evidence, now).0)
  {
    var (v, answer) := ReviewSkill(w, k, actor, action, expected, evidence, now);
    if answer.SkillApplied? {
      var r := w.revs[k];
      var s := w.skills[r.skill];
      if action != RevApprove {
        RetireRevisionKeepsSkills(w, k, actor, action);
      } else if s.active.None? {
        ActivateKeepsSkills(w, k, actor);
      } else {
        assert PointerOk(w.revs, r.skill, s.active);
        var p := FindRevision(w.revs, r.skill, s.active.value);
        assert p < |w.revs| && w.revs[p].status == RActive && p != k;
        var u := w.(revs := w.revs[p := Transitioned(w.revs[p], actor, RevSupersede)],
                    skills := w.skills[r.skill := s.(active := None)]);
        RetireRevisionKeepsSkills(w, p, actor, RevSupersede);
        assert u.revs[k] == r;
        ActivateKeepsSkills(u, k, actor);
        assert v.skills == u.skills[r.skill := u.skills[r.skill].(active := Some(r.number))];
      }
    }
  }

  /** One revision transitions and pointers move. */
  lemma TransitionEvolves(w: World, k: nat, actor: User, action: RevAction, skills: seq<Skill>)
    requires LogsInv(w.revs) && k < |w.revs| && SameSkills(w.skills, skills)
    requires RevLegal(RevEvent(0, actor, action, w.revs[k].status, RevAfter(action)))
    ensures SkillsEvolve(w, w.(revs := w.revs[k := Transitioned(w.revs[k], actor, action)], skills := skills))
  {
    TransitionExtends(w.revs[k], actor, action);
  }

  /** The active revision, if any, is superseded before the new one is activated. */
  lemma ReplaceEvolves(w: World, p: nat, k: nat, actor: User, skills: seq<Skill>)
    requires LogsInv(w.revs) && p < |w.revs| && k < |w.revs| && p != k && SameSkills(w.skills, skills)
    requires w.revs[p].status == RActive && w.revs[k].status == RPending
    ensures var revs := w.revs[p := Transitioned(w.revs[p], actor, RevSupersede)];
            SkillsEvolve(w, w.(revs := revs[k := Transitioned(w.revs[k], actor, RevApprove)], skills := skills))
  {
    var u := w.(revs := w.revs[p := Transitioned(w.revs[p], actor, RevSupersede)]);
    TransitionEvolves(w, p, actor, RevSupersede, w.skills);
    TransitionEvolves(u, k, actor, RevApprove, skills);
    SkillsEvolveFurther(w, u, u.(revs := u.revs[k := Transitioned(u.revs[k], actor, RevApprove)], skills := skills));
  }

  lemma ReviewSkillEvolves(w: World, k: nat, actor: User, action: RevAction, expected: nat, evidence: bool, now: Time)
    requires SkillsInv(w) && LogsInv(w.revs)
    ensures SkillsEvolve(w, ReviewSkill(w, k, actor, action, expected, evidence, now).0)
  {
    var (v, answer) := ReviewSkill(w, k, actor, action, expected, evidence, now);
    if answer.SkillApplied? {
      var s := w.skills[w.revs[k].skill];
      if action == RevApprove && s.active.Some? {
        var p := ActiveRevision(w, k);
        ReplaceEvolves(w, p, k, actor, v.skills);
      } else {
        TransitionEvolves(w, k, actor, action, v.skills);
      }
    }
  }

  /** The lookup of the revision to supersede finds the active one. */
  lemma ActiveRevision(w: World, k: nat) returns (p: nat)
    requires SkillsInv(w) && k < |w.revs| && w.revs[k].skill < |w.skills|
    requires w.skills[w.revs[k].skill].active.Some? && w.revs[k].status == RPending
    ensures p == FindRevision(w.revs, w.revs[k].skill, w.skills[w.revs[k].skill].active.value)
    ensures p < |w.revs| && p != k && w.revs[p].status == RActive
  {
    var s := w.revs[k].skill;
    p := FindRevision(w.revs, s, w.skills[s].active.value);
    assert PointerOk(w.revs, s, w.skills[s].active);
  }

  // ---------------------------------------------------------------- runs

  datatype Step =
    | ReviewStep(i: nat, actor: User, action: Action, expected: nat, now: Time)
    | ProposeStep(p: Proposal, source: Option<SourceRow>, now: Time)
    | ReleaseStep(i: nat, actor: User, expected: nat)
    | SubmitStep(sub: Submission, evidence: bool, now: Time)
    | SkillStep(k: nat, actor: User, act: RevAction, expected: nat, evidence: bool, now: Time)

  function Apply(w: World, e: Step): World {
    match e
    case ReviewStep(i, actor, action, expected, now) => Review(w, i, actor, action, expected, now).0
    case ProposeStep(p, source, now) => Propose(w, p, source, now).0
    case ReleaseStep(i, actor, expected) => ReleaseSuppression(w, i, actor, expected).0
    case SubmitStep(sub, evidence, now) => Submit(w, sub, evidence, now).0
    case SkillStep(k, actor, act, expected, evidence, now) => ReviewSkill(w, k, actor, act, expected, evidence, now).0
  }

  lemma SubmitKeepsInvariant(w: World, sub: Submission, evidence: bool, now: Time)
    requires Inv(w)
    ensures Inv(Submit(w, sub, evidence, now).0)
  {
    SubmitKeepsSkills(w, sub, evidence, now);
    var (v, answer) := Submit(w, sub, evidence, now);
    if answer.Submitted? {
      AcceptedKeepsKeys(w, sub, v, answer.id);
    }
  }

  lemma ReviewSkillKeepsInvariant(
      w: World, k: nat, actor: User, action: RevAction, expected: nat, evidence: bool, now: Time)
    requires Inv(w)
    ensures Inv(ReviewSkill(w, k, actor, action, expected, evidence, now).0)
  {
    ReviewSkillKeepsSkills(w, k, actor, action, expected, evidence, now);
    ReviewSkillEvolves(w, k, actor, action, expected, evidence, now);
    EvolvingKeepsKeys(w, ReviewSkill(w, k, actor, action, expected, evidence, now).0);
  }

  lemma StepKeepsInvariant(w: World, e: Step)
    requires Inv(w)
    ensures Inv(Apply(w, e))
  {
    match e
    case ReviewStep(i, actor, action, expected, now) => ReviewKeepsInvariant(w, i, actor, action, expected, now);
    case ProposeStep(p, source, now) => ProposeKeepsInvariant(w, p, source, now);
    case ReleaseStep(i, actor, expected) =>
    case SubmitStep(sub, evidence, now) => SubmitKeepsInvariant(w, sub, evidence, now);
    case SkillStep(k, actor, act, expected, evidence, now) =>
      ReviewSkillKeepsInvariant(w, k, actor, act, expected, evidence, now);
  }

  ghost predicate StepAt(tr: seq<World>, es: seq<Step>, i: nat)
    requires i < |es| && |tr| == |es| + 1
  {
    tr[i + 1] == Apply(tr[i], es[i])
  }

  ghost predicate IsRun(tr: seq<World>, es: seq<Step>) {
    |tr| == |es| + 1 && tr[0] == EMPTY && forall i :: 0 <= i < |es| ==> StepAt(tr, es, i)
  }

  lemma {:induction false} RunKeepsInvariant(tr: seq<World>, es: seq<Step>, m: nat)
    requires IsRun(tr, es) && m < |tr|
    ensures Inv(tr[m])
  {
    if m == 0 {
    } else {
      RunKeepsInvariant(tr, es, m - 1);
      assert StepAt(tr, es, m - 1);
      StepKeepsInvariant(tr[m - 1], es[m - 1]);
    }
  }

  // ---------------------------------------------------------------- linear approved history

  lemma NumbersArePositive(exps: seq<Exp>, i: nat)
    requires ExpsInv(exps) && i < |exps|
    ensures exps[i].number >= 1 && (exps[i].number == 1 <==> exps[i].link.None?)
  {
    assert RowOk(exps, i);
    if exps[i].link.Some? {
      NumbersArePositive(exps, exps[i].link.value.parent);
    }
  }

  /** The member of an approved revision's history with a given lower number: approved, same family, superseded
      since. */
  lemma {:induction false} AncestorAt(exps: seq<Exp>, i: nat, n: nat) returns (k: nat)
    requires ExpsInv(exps) && i < |exps| && Approved(exps[i]) && 1 <= n <= exps[i].number
    ensures k <= i && Approved(exps[k]) && exps[k].number == n && Family(exps, k) == Family(exps, i)
    ensures exps[k].classification.Rank() <= exps[i].classification.Rank()
    ensures n < exps[i].number ==> exps[k].status == Superseded || exps[k].status == Forgotten
  {
    NumbersArePositive(exps, i);
    assert RowOk(exps, i);
    if n == exps[i].number {
      k := i;
    } else {
      var p := exps[i].link.value.parent;
      assert RowOk(exps, p);
      RetiredForGood(exps[p]);
      if n == exps[p].number {
        k := p;
      } else {
        k := AncestorAt(exps, p, n);
      }
    }
  }

  lemma RetiredForGood(e: Exp)
    requires LogInv(e) && |e.events| > 1 && e.events[1].action == Supersede
    ensures e.status == Superseded || e.status == Forgotten
  {
    FoldLength(e.events);
    var n := |e.events|;
    assert EventOk(e.events, n - 1) && EventOk(e.events, 1);
    if n > 2 {
      assert EventOk(e.events, 2);
      if n > 3 {
        assert EventOk(e.events, 3);
      }
    }
  }

  /** Two approved members of a family with one revision number are one row. */
  lemma {:induction false} ApprovedNumbersAreUnique(exps: seq<Exp>, i: nat, j: nat)
    requires ExpsInv(exps) && i < |exps| && j < |exps| && Approved(exps[i]) && Approved(exps[j])
    requires Family(exps, i) == Family(exps, j) && exps[i].number == exps[j].number
    ensures i == j
    decreases exps[i].number
  {
    NumbersArePositive(exps, i);
    NumbersArePositive(exps, j);
    assert RowOk(exps, i) && RowOk(exps, j);
    if exps[i].link.Some? {
      ApprovedNumbersAreUnique(exps, exps[i].link.value.parent, exps[j].link.value.parent);
    }
  }

  /** In every reachable state the ever-approved members of a family form one path, numbered 1, 2, 3, ... with
      classification never falling; only its last member can be active, so a family has at most one. */
  lemma HistoryIsLinear(tr: seq<World>, es: seq<Step>, m: nat, i: nat, j: nat) returns (k: nat)
    requires IsRun(tr, es) && m < |tr|
    requires i < |tr[m].exps| && j < |tr[m].exps| && Approved(tr[m].exps[i]) && Approved(tr[m].exps[j])
    requires Family(tr[m].exps, i) == Family(tr[m].exps, j) && tr[m].exps[i].number <= tr[m].exps[j].number
    ensures tr[m].exps[i].number == tr[m].exps[j].number ==> i == j
    ensures tr[m].exps[i].classification.Rank() <= tr[m].exps[j].classification.Rank()
    ensures tr[m].exps[i].status == Active ==> i == j
    ensures tr[m].exps[i].number < tr[m].exps[j].number ==>
              && k < |tr[m].exps| && tr[m].exps[k].number == tr[m].exps[i].number + 1
              && Approved(tr[m].exps[k]) && tr[m].exps[k].link.Some? && tr[m].exps[k].link.value.parent == i
  {
    RunKeepsInvariant(tr, es, m);
    var exps := tr[m].exps;
    NumbersArePositive(exps, i);
    var a := AncestorAt(exps, j, exps[i].number);
    ApprovedNumbersAreUnique(exps, a, i);
    if exps[i].number < exps[j].number {
      k := AncestorAt(exps, j, exps[i].number + 1);
      NumbersArePositive(exps, k);
      assert RowOk(exps, k);
      assert RowOk(exps, exps[k].link.value.parent);
      ApprovedNumbersAreUnique(exps, exps[k].link.value.parent, i);
    } else {
      ApprovedNumbersAreUnique(exps, i, j);
      k := i;
    }
  }

  /** Folding a reachable row's log gives its status and version, with events dense from 2 to version. */
  lemma LogExplainsRow(tr: seq<World>, es: seq<Step>, m: nat, i: nat)
    requires IsRun(tr, es) && m < |tr| && i < |tr[m].exps|
    ensures var e := tr[m].exps[i];
            && Fold(e.events) == (e.status, e.version) && |e.events| == e.version - 1
            && (forall k :: 0 <= k < |e.events| ==> e.events[k].version == k + 2)
            && (e.erased <==> e.status == Forgotten)
  {
    RunKeepsInvariant(tr, es, m);
    assert RowOk(tr[m].exps, i);
    FoldLength(tr[m].exps[i].events);
    forall k | 0 <= k < |tr[m].exps[i].events| ensures tr[m].exps[i].events[k].version == k + 2 {
      assert EventOk(tr[m].exps[i].events, k);
    }
  }

  // ---------------------------------------------------------------- skills agree with their sources

  /** In every reachable state: a pending or active skill revision stands on experiences active at exactly the
      bound versions; a forgotten experience leaves only forgotten, erased revisions; and a skill's pointer is r
      exactly when r is its one active revision. */
  lemma SkillsAgree(tr: seq<World>, es: seq<Step>, m: nat, k: nat, source: nat, s: nat, number: nat)
    requires IsRun(tr, es) && m < |tr| && k < |tr[m].revs| && source in tr[m].revs[k].bindings && s < |tr[m].skills|
    ensures var w := tr[m];
            && source < |w.exps|
            && (w.revs[k].status == RPending || w.revs[k].status == RActive ==>
                  w.exps[source].status == Active && w.exps[source].version == w.revs[k].bindings[source])
            && (w.exps[source].status == Forgotten ==> w.revs[k].status == RForgotten && w.revs[k].erased)
            && (w.skills[s].active == Some(number) <==> HasActive(w.revs, s, number))
    ensures forall l :: 0 <= l < |tr[m].revs| && tr[m].revs[l].skill == tr[m].revs[k].skill && l != k ==>
              tr[m].revs[l].status != RActive || tr[m].revs[k].status != RActive
  {
    RunKeepsInvariant(tr, es, m);
    var w := tr[m];
    assert BindingsOk(w.exps, w.revs[k]) && BindingOk(w.exps, w.revs[k], source);
    assert RevOk(w.skills, w.revs[k]);
    assert PointerOk(w.revs, s, w.skills[s].active);
    if HasActive(w.revs, s, number) {
      var l :| 0 <= l < |w.revs| && w.revs[l].skill == s && w.revs[l].number == number && w.revs[l].status == RActive;
      assert RevOk(w.skills, w.revs[l]);
    }
    forall l | 0 <= l < |w.revs| && w.revs[l].skill == w.revs[k].skill && w.revs[l].status == RActive
        && w.revs[k].status == RActive
      ensures l == k
    {
      assert RevOk(w.skills, w.revs[l]);
    }
  }

  // ---------------------------------------------------------------- revision logs along runs

  lemma OtherStepsKeepRevisions(w: World, e: Step)
    requires e.ProposeStep? || e.ReleaseStep?
    ensures Apply(w, e).revs == w.revs
  {
  }

  lemma SubmitExtendsRevisions(w: World, sub: Submission, evidence: bool, now: Time)
    ensures RevsExtend(w.revs, Submit(w, sub, evidence, now).0.revs)
  {
  }

  lemma StepExtendsRevisions(w: World, e: Step)
    requires Inv(w)
    ensures RevsExtend(w.revs, Apply(w, e).revs)
  {
    if e.ReviewStep? {
      ReviewEvolvesSkills(w, e.i, e.actor, e.action, e.expected, e.now);
    } else if e.SubmitStep? {
      SubmitExtendsRevisions(w, e.sub, e.evidence, e.now);
    } else if e.SkillStep? {
      ReviewSkillEvolves(w, e.k, e.actor, e.act, e.expected, e.evidence, e.now);
    } else {
      OtherStepsKeepRevisions(w, e);
    }
  }

  lemma RevisionExtendsAt(tr: seq<World>, es: seq<Step>, j: nat, k: nat)
    requires IsRun(tr, es) && j < |es| && k < |tr[j].revs|
    ensures k < |tr[j + 1].revs| && RevExtends(tr[j].revs[k], tr[j + 1].revs[k])
  {
    RunKeepsInvariant(tr, es, j);
    assert StepAt(tr, es, j);
    StepExtendsRevisions(tr[j], es[j]);
  }

  /** A submitted revision never changes but for its status, version and log, and its log only grows. */
  lemma {:induction false} RevisionsOnlyExtend(tr: seq<World>, es: seq<Step>, j: nat, m: nat, k: nat)
    requires IsRun(tr, es) && j <= m < |tr| && k < |tr[j].revs|
    ensures k < |tr[m].revs| && RevExtends(tr[j].revs[k], tr[m].revs[k])
    decreases m
  {
    if j == m {
    } else {
      RevisionsOnlyExtend(tr, es, j, m - 1, k);
      RevisionExtendsAt(tr, es, m - 1, k);
    }
  }

  /** Folding a reachable revision's log from pending gives its status and version, with events dense from 2, each
      legal and starting where its predecessor ended; only manual revisions are ever active, and erased means
      forgotten. */
  lemma LogExplainsRevision(tr: seq<World>, es: seq<Step>, m: nat, k: nat)
    requires IsRun(tr, es) && m < |tr| && k < |tr[m].revs|
    ensures var r := tr[m].revs[k];
            && RevFold(r.events) == (r.status, r.version) && |r.events| == r.version - 1
            && (forall j: nat :: j < |r.events| ==> RevEventOk(r.events, j))
            && (r.erased <==> r.status == RForgotten) && (r.status == RActive ==> r.origin == Manual)
  {
    RunKeepsInvariant(tr, es, m);
    var r := tr[m].revs[k];
    assert RevLogInv(r) && RevOk(tr[m].skills, r);
    RevFoldLength(r.events);
  }

  lemma SkillReviewIsLogged(w: World, k: nat, actor: User, act: RevAction, expected: nat, evidence: bool, now: Time)
    requires Inv(w) && ReviewSkill(w, k, actor, act, expected, evidence, now).1.SkillApplied?
    ensures var v := ReviewSkill(w, k, actor, act, expected, evidence, now).0;
            && k < |v.revs| && 1 <= expected <= |v.revs[k].events|
            && v.revs[k].events[expected - 1] == RevEvent(expected + 1, actor, act, w.revs[k].status, RevAfter(act))
  {
    RevFoldLength(w.revs[k].events);
    assert RevLogInv(w.revs[k]);
  }

  lemma LoggedReviewReplays(
      w: World, k: nat, actor: User, act: RevAction, expected: nat, evidence: bool, now: Time)
    requires k < |w.revs| && w.revs[k].skill < |w.skills| && act != RevSupersede && act != RevInvalidate
    requires 1 <= expected <= |w.revs[k].events|
    requires w.revs[k].events[expected - 1].actor == actor && w.revs[k].events[expected - 1].action == act
    ensures var logged := w.revs[k].events[expected - 1];
            ReviewSkill(w, k, actor, act, expected, evidence, now) == (w, SkillReplayed(logged.after, logged.version))
  {
  }

  /** An applied skill review is a durable receipt: however long after, whatever became of the revision and its
      sources, the same call changes nothing and repeats its answer. */
  lemma SkillReviewReplays(tr: seq<World>, es: seq<Step>, j: nat, m: nat, evidence: bool, now: Time)
    requires IsRun(tr, es) && j < m < |tr| && es[j].SkillStep?
    requires var e := es[j];
             ReviewSkill(tr[j], e.k, e.actor, e.act, e.expected, e.evidence, e.now).1.SkillApplied?
    ensures ReviewSkill(tr[m], es[j].k, es[j].actor, es[j].act, es[j].expected, evidence, now)
            == (tr[m], SkillReplayed(RevAfter(es[j].act), es[j].expected + 1))
  {
    var e := es[j];
    var logged := SkillReviewLogged(tr, es, j);
    RevisionsOnlyExtend(tr, es, j + 1, m, e.k);
    assert tr[m].revs[e.k].events[e.expected - 1] == logged;
    RunKeepsInvariant(tr, es, m);
    assert RevOk(tr[m].skills, tr[m].revs[e.k]);
    LoggedReviewReplays(tr[m], e.k, e.actor, e.act, e.expected, evidence, now);
  }

  lemma SkillReviewLogged(tr: seq<World>, es: seq<Step>, j: nat) returns (logged: RevEvent)
    requires IsRun(tr, es) && j < |es| && es[j].SkillStep?
    requires var e := es[j];
             ReviewSkill(tr[j], e.k, e.actor, e.act, e.expected, e.evidence, e.now).1.SkillApplied?
    ensures es[j].k < |tr[j + 1].revs| && 1 <= es[j].expected <= |tr[j + 1].revs[es[j].k].events|
    ensures logged == tr[j + 1].revs[es[j].k].events[es[j].expected - 1]
    ensures logged.version == es[j].expected + 1 && logged.actor == es[j].actor
    ensures logged.action == es[j].act && logged.after == RevAfter(es[j].act)
    ensures es[j].act != RevSupersede && es[j].act != RevInvalidate
  {
    var e := es[j];
    RunKeepsInvariant(tr, es, j);
    assert StepAt(tr, es, j);
    SkillReviewIsLogged(tr[j], e.k, e.actor, e.act, e.expected, e.evidence, e.now);
    logged := tr[j + 1].revs[e.k].events[e.expected - 1];
  }

  lemma KnownSubmissionReplays(w: World, k: nat, sub: Submission, evidence: bool, now: Time)
    requires KeysInv(w) && k < |w.revs| && w.revs[k].author == sub.author && w.revs[k].key == sub.key
    ensures Submit(w, sub, evidence, now)
            == (w, if w.revs[k].digest == sub.digest then AlreadySubmitted(k) else NotSubmitted(SubmissionReused))
  {
    var found := FindSubmission(w.revs, sub.author, sub.key);
    assert found == Some(k);
  }

  lemma SubmissionIsStored(tr: seq<World>, es: seq<Step>, j: nat)
    requires IsRun(tr, es) && j < |es| && es[j].SubmitStep?
    requires Submit(tr[j], es[j].sub, es[j].evidence, es[j].now).1.Submitted?
    ensures |tr[j + 1].revs| == |tr[j].revs| + 1
    ensures var r := tr[j + 1].revs[|tr[j].revs|];
            r.author == es[j].sub.author && r.key == es[j].sub.key && r.digest == es[j].sub.digest
  {
    assert StepAt(tr, es, j);
  }

  /** A submission key takes effect once: every later submission under it changes nothing, and is answered by the
      revision it created exactly when it carries the same content, even after that revision was forgotten. */
  lemma SubmissionAppliesOnce(
      tr: seq<World>, es: seq<Step>, j: nat, m: nat, sub: Submission, evidence: bool, now: Time)
    requires IsRun(tr, es) && j < m < |tr| && es[j].SubmitStep?
    requires Submit(tr[j], es[j].sub, es[j].evidence, es[j].now).1.Submitted?
    requires sub.author == es[j].sub.author && sub.key == es[j].sub.key
    ensures var answer := if sub.digest == es[j].sub.digest then AlreadySubmitted(|tr[j].revs|)
                          else NotSubmitted(SubmissionReused);
            Submit(tr[m], sub, evidence, now) == (tr[m], answer)
  {
    SubmissionIsStored(tr, es, j);
    RunKeepsInvariant(tr, es, m);
    RevisionsOnlyExtend(tr, es, j + 1, m, |tr[j].revs|);
    KnownSubmissionReplays(tr[m], |tr[j].revs|, sub, evidence, now);
  }

  // ---------------------------------------------------------------- immutability and replay

  lemma StepExtends(w: World, e: Step)
    requires ExpsInv(w.exps)
    ensures |w.exps| <= |Apply(w, e).exps|
    ensures forall i :: 0 <= i < |w.exps| ==> Extends(w.exps[i], Apply(w, e).exps[i])
    ensures forall i :: 0 <= i < |w.exps| && w.exps[i].status == Forgotten ==> Apply(w, e).exps[i] == w.exps[i]
  {
    if e.ReviewStep? && e.i < |w.exps| && Review(w, e.i, e.actor, e.action, e.expected, e.now).1.Applied? {
      ReviewExtends(w, e.i, e.actor, e.action, e.expected, e.now);
    } else {
      OtherStepsKeepRows(w, e);
    }
  }

  lemma ReviewExtends(w: World, i: nat, actor: User, action: Action, expected: nat, now: Time)
    requires i < |w.exps| && Review(w, i, actor, action, expected, now).1.Applied?
    ensures var ys := Review(w, i, actor, action, expected, now).0.exps;
            && |ys| == |w.exps| && (forall k :: 0 <= k < |ys| ==> Extends(w.exps[k], ys[k]))
            && forall k :: 0 <= k < |ys| && w.exps[k].status == Forgotten ==> ys[k] == w.exps[k]
  {
    ReviewRows(w, i, actor, action, expected, now);
  }

  lemma OtherStepsKeepRows(w: World, e: Step)
    requires e.ReviewStep? && e.i < |w.exps| ==> !Review(w, e.i, e.actor, e.action, e.expected, e.now).1.Applied?
    ensures w.exps <= Apply(w, e).exps
  {
  }

  lemma RowExtendsAt(tr: seq<World>, es: seq<Step>, j: nat, i: nat)
    requires IsRun(tr, es) && j < |es| && i < |tr[j].exps|
    ensures i < |tr[j + 1].exps| && Extends(tr[j].exps[i], tr[j + 1].exps[i])
    ensures tr[j].exps[i].status == Forgotten ==> tr[j + 1].exps[i] == tr[j].exps[i]
  {
    RunKeepsInvariant(tr, es, j);
    assert StepAt(tr, es, j);
    StepExtends(tr[j], es[j]);
  }

  /** What was submitted never changes: along a run a row only gains events, its content is gone exactly when it was
      forgotten, and a forgotten row never changes again. */
  lemma {:induction false} RowsOnlyExtend(tr: seq<World>, es: seq<Step>, k: nat, m: nat, i: nat)
    requires IsRun(tr, es) && k <= m < |tr| && i < |tr[k].exps|
    ensures i < |tr[m].exps| && Extends(tr[k].exps[i], tr[m].exps[i])
    ensures tr[m].exps[i].erased <==> tr[m].exps[i].status == Forgotten
    ensures tr[k].exps[i].status == Forgotten ==> tr[m].exps[i] == tr[k].exps[i]
    decreases m
  {
    RunKeepsInvariant(tr, es, m);
    assert i < |tr[m].exps| ==> RowOk(tr[m].exps, i);
    if k == m {
    } else {
      RowsOnlyExtend(tr, es, k, m - 1, i);
      RowExtendsAt(tr, es, m - 1, i);
      assert RowOk(tr[m].exps, i);
    }
  }

  /** The same for a proposal: its key takes effect once, even after the experience was forgotten. */
  lemma ProposalAppliesOnce(tr: seq<World>, es: seq<Step>, j: nat, m: nat, p: Proposal, source: Option<SourceRow>,
                            now: Time)
    requires IsRun(tr, es) && j < m < |tr| && es[j].ProposeStep?
    requires Propose(tr[j], es[j].p, es[j].source, es[j].now).1.Proposed?
    requires p.author == es[j].p.author && p.key == es[j].p.key
    ensures Propose(tr[m], p, source, now)
            == (tr[m], if p.digest == es[j].p.digest then AlreadyProposed(|tr[j].exps|) else NotProposed(KeyReused))
  {
    RunKeepsInvariant(tr, es, m);
    assert StepAt(tr, es, j);
    var k := |tr[j].exps|;
    RowsOnlyExtend(tr, es, j + 1, m, k);
    assert tr[m].exps[k].author == p.author && tr[m].exps[k].key == p.key;
    assert FindKey(tr[m].exps, p.author, p.key) == Some(k);
  }

  lemma ReviewIsLogged(w: World, i: nat, actor: User, action: Action, expected: nat, now: Time)
    requires ExpsInv(w.exps) && i < |w.exps| && Review(w, i, actor, action, expected, now).1.Applied?
    ensures var v := Review(w, i, actor, action, expected, now).0;
            && i < |v.exps| && 1 <= expected <= |v.exps[i].events|
            && var logged := v.exps[i].events[expected - 1];
               logged.version == expected + 1 && logged.actor == actor && logged.action == action
                   && logged.after == After(action)
  {
    ReviewRows(w, i, actor, action, expected, now);
    assert RowOk(w.exps, i);
    StatusFromLog(w.exps[i]);
  }

  /** An applied review is a durable receipt: however long after, the same call changes nothing and repeats its
      answer. */
  lemma ReviewReplays(tr: seq<World>, es: seq<Step>, k: nat, m: nat, now: Time)
    requires IsRun(tr, es) && k < m < |tr| && es[k].ReviewStep?
    requires Review(tr[k], es[k].i, es[k].actor, es[k].action, es[k].expected, es[k].now).1.Applied?
    ensures Review(tr[m], es[k].i, es[k].actor, es[k].action, es[k].expected, now)
            == (tr[m], AlreadyApplied(After(es[k].action), es[k].expected + 1))
  {
    var e := es[k];
    RunKeepsInvariant(tr, es, k);
    assert StepAt(tr, es, k);
    ReviewIsLogged(tr[k], e.i, e.actor, e.action, e.expected, e.now);
    RowsOnlyExtend(tr, es, k + 1, m, e.i);
    assert tr[m].exps[e.i].events[e.expected - 1] == tr[k + 1].exps[e.i].events[e.expected - 1];
  }

  // ---------------------------------------------------------------- suppression

  /** The claim of a row newly approved, or newly proposed, by a step. */
  predicate Admits(w: World, e: Step, c: Claim) {
    match e
    case ReviewStep(i, actor, action, expected, now) =>
      action == Approve && i < |w.exps| && w.exps[i].claim == c && Review(w, i, actor, action, expected, now).1.Applied?
    case ProposeStep(p, source, now) =>
      Propose(w, p, source, now).1.Proposed? && source.Some? && c == Claim(source.value.payload, p.fingerprint)
    case _ => false
  }

  /** The step turns claim c away: it rejects or erases a row with that claim, or approves a revision that replaces
      such a row by one with another claim. Everything here can be read before the call. */
  predicate Condemns(w: World, e: Step, c: Claim) {
    && e.ReviewStep? && e.i < |w.exps|
    && var row := w.exps[e.i];
       && row.version == e.expected && IsReplay(row, e.actor, e.action, e.expected).None?
       && match e.action
          case Reject => row.status == Pending && row.claim == c
          case Forget => row.status != Forgotten && row.claim == c
          case Approve =>
            && row.status == Pending && row.claim != c && InForce(row, e.now) && !Suppressed(w, row.claim)
            && row.link.Some? && ParentStands(w, row) && w.exps[row.link.value.parent].claim == c
          case _ => false
  }

  /** The step lifts the suppression of claim c, at its current version. */
  predicate Releases(w: World, e: Step, c: Claim) {
    && e.ReleaseStep? && e.i < |w.exps| && w.exps[e.i].claim == c
    && Suppressed(w, c) && w.suppressions[c].version == e.expected
  }

  lemma ReviewSuppressions(w: World, i: nat, actor: User, action: Action, expected: nat, now: Time)
    requires i < |w.exps| && Review(w, i, actor, action, expected, now).1.Applied?
    ensures var e := w.exps[i];
            && (action == Approve ==> ParentStands(w, e))
            && Review(w, i, actor, action, expected, now).0.suppressions ==
               if action == Reject || action == Forget then Suppress(w, e.claim, actor).suppressions
               else if action == Approve && e.link.Some? && w.exps[e.link.value.parent].claim != e.claim
               then Suppress(w, w.exps[e.link.value.parent].claim, actor).suppressions
               else w.suppressions
  {
  }

  /** Exactly what a step does to the suppression of a claim; every change raises its version. */
  lemma SuppressionSteps(w: World, e: Step, c: Claim)
    ensures var v := Apply(w, e);
            && (Suppressed(v, c) <==> Condemns(w, e, c) || (Suppressed(w, c) && !Releases(w, e, c)))
            && (c in w.suppressions ==>
                  && c in v.suppressions
                  && (v.suppressions[c] == w.suppressions[c]
                       || v.suppressions[c].version == w.suppressions[c].version + 1))
            && (Condemns(w, e, c) || Releases(w, e, c) ==>
                  c in v.suppressions
                      && (c in w.suppressions ==> v.suppressions[c].version == w.suppressions[c].version + 1))
  {
    if e.ReviewStep? && e.i < |w.exps| && Review(w, e.i, e.actor, e.action, e.expected, e.now).1.Applied? {
      ReviewSuppressions(w, e.i, e.actor, e.action, e.expected, e.now);
    }
  }

  /** Approvals and fresh proposals need an unsuppressed claim and leave it unsuppressed. */
  lemma AdmittedIsUnsuppressed(w: World, e: Step, c: Claim)
    requires Admits(w, e, c)
    ensures !Suppressed(w, c) && !Suppressed(Apply(w, e), c)
    ensures e.ReviewStep? ==> Apply(w, e).exps[e.i].status == Active && Apply(w, e).exps[e.i].claim == c
  {
    SuppressionSteps(w, e, c);
    if e.ReviewStep? {
      ReviewRows(w, e.i, e.actor, e.action, e.expected, e.now);
    }
  }

  lemma SuppressionAt(tr: seq<World>, es: seq<Step>, j: nat, c: Claim)
    requires IsRun(tr, es) && j < |es|
    ensures Suppressed(tr[j + 1], c) <==>
            Condemns(tr[j], es[j], c) || (Suppressed(tr[j], c) && !Releases(tr[j], es[j], c))
    ensures Admits(tr[j], es[j], c) ==> !Suppressed(tr[j], c) && !Suppressed(tr[j + 1], c)
  {
    assert StepAt(tr, es, j);
    SuppressionSteps(tr[j], es[j], c);
    if Admits(tr[j], es[j], c) {
      AdmittedIsUnsuppressed(tr[j], es[j], c);
    }
  }

  /** Between a suppression and its release nothing with that claim is approved or freshly proposed. */
  lemma {:induction false} SuppressedUntilReleased(tr: seq<World>, es: seq<Step>, k: nat, m: nat, c: Claim)
    requires IsRun(tr, es) && k <= m < |tr| && Suppressed(tr[k], c)
    requires forall j :: k <= j < m ==> !Releases(tr[j], es[j], c)
    ensures Suppressed(tr[m], c)
    ensures forall j :: k <= j < m ==> !Admits(tr[j], es[j], c)
    decreases m
  {
    if k == m {
    } else {
      SuppressedUntilReleased(tr, es, k, m - 1, c);
      SuppressionAt(tr, es, m - 1, c);
    }
  }

  lemma SuppressionVersionAt(tr: seq<World>, es: seq<Step>, j: nat, c: Claim)
    requires IsRun(tr, es) && j < |es| && c in tr[j].suppressions
    ensures c in tr[j + 1].suppressions && tr[j].suppressions[c].version <= tr[j + 1].suppressions[c].version
  {
    assert StepAt(tr, es, j);
    SuppressionSteps(tr[j], es[j], c);
  }

  lemma {:induction false} SuppressionVersionRises(tr: seq<World>, es: seq<Step>, k: nat, m: nat, c: Claim)
    requires IsRun(tr, es) && k <= m < |tr| && c in tr[k].suppressions
    ensures c in tr[m].suppressions && tr[k].suppressions[c].version <= tr[m].suppressions[c].version
    decreases m
  {
    if k == m {
    } else {
      SuppressionVersionRises(tr, es, k, m - 1, c);
      SuppressionVersionAt(tr, es, m - 1, c);
    }
  }

  /** A release is never repeated: retrying it later, even after a newer suppression, changes nothing. */
  lemma StaleReleaseIsInert(tr: seq<World>, es: seq<Step>, k: nat, m: nat, i: nat, actor: User)
    requires IsRun(tr, es) && k < m < |tr| && es[k].ReleaseStep? && es[k].i < |tr[k].exps|
    requires Releases(tr[k], es[k], tr[k].exps[es[k].i].claim)
    requires i < |tr[m].exps| && tr[m].exps[i].claim == tr[k].exps[es[k].i].claim
    ensures ReleaseSuppression(tr[m], i, actor, es[k].expected).0 == tr[m]
  {
    assert StepAt(tr, es, k);
    SuppressionVersionRises(tr, es, k + 1, m, tr[k].exps[es[k].i].claim);
  }

  /** Two proposals of one claim, both waiting. */
  predicate TwinsPending(w: World) {
    && |w.exps| == 2 && w.suppressions == map[] && w.exps[0].claim == w.exps[1].claim
    && forall i :: 0 <= i < 2 ==>
         && w.exps[i].status == Pending && w.exps[i].version == 1 && w.exps[i].events == []
         && w.exps[i].link.None? && w.exps[i].expiresAt.None? && w.exps[i].validFrom.None?
  }

  lemma TwinsAreAccepted(p: Proposal, source: SourceRow)
    requires p.revises.None? && p.expiresAt.None? && p.validFrom.None? && p.key != "k2"
    ensures TwinsPending(Propose(Propose(EMPTY, p, Some(source), 0).0, p.(key := "k2"), Some(source), 0).0)
  {
    var w := Propose(EMPTY, p, Some(source), 0).0;
    assert |w.exps| == 1 && w.exps[0].key == p.key;
    assert FindKey(w.exps, p.author, "k2").None?;
  }

  lemma TwinsDiverge(w: World, actor: User)
    requires TwinsPending(w)
    ensures var v := Review(Review(w, 0, actor, Approve, 1, 0).0, 1, actor, Reject, 1, 0).0;
            |v.exps| == 2 && v.exps[0].status == Active && Suppressed(v, v.exps[0].claim)
  {
    assert Review(w, 0, actor, Approve, 1, 0).1.Applied?;
    ReviewRows(w, 0, actor, Approve, 1, 0);
    ReviewSuppressions(w, 0, actor, Approve, 1, 0);
    var v := Review(w, 0, actor, Approve, 1, 0).0;
    assert v.exps[1] == w.exps[1] && v.exps[0].status == Active && v.exps[0].claim == w.exps[0].claim;
    assert Review(v, 1, actor, Reject, 1, 0).1.Applied?;
    ReviewRows(v, 1, actor, Reject, 1, 0);
    ReviewSuppressions(v, 1, actor, Reject, 1, 0);
  }

  lemma RunGrows(tr: seq<World>, es: seq<Step>, e: Step) returns (longer: seq<World>)
    requires IsRun(tr, es)
    ensures longer == tr + [Apply(tr[|es|], e)] && IsRun(longer, es + [e])
  {
    longer := tr + [Apply(tr[|es|], e)];
    forall i | 0 <= i < |es| + 1 ensures StepAt(longer, es + [e], i) {
      if i < |es| {
        assert StepAt(tr, es, i);
      }
    }
  }

  lemma TwinsRun() returns (tr: seq<World>, es: seq<Step>)
    ensures IsRun(tr, es) && |es| == 2 && TwinsPending(tr[2])
  {
    var source := SourceRow("payload", "lock", Public);
    var p := Proposal("ann", "k1", "d1", "fact", "same", None, None, None);
    es := [ProposeStep(p, Some(source), 0)];
    assert [] + [es[0]] == es;
    tr := RunGrows([EMPTY], [], es[0]);
    var again := ProposeStep(p.(key := "k2"), Some(source), 0);
    tr := RunGrows(tr, es, again);
    es := es + [again];
    TwinsAreAccepted(p, source);
  }

  /** "An active experience is never suppressed" is false: approve one of two equal proposals, then reject the other.
      ActiveSuppressedExactlyWhen says exactly when it fails. */
  lemma ActiveCanBeSuppressed() returns (tr: seq<World>, es: seq<Step>)
    ensures IsRun(tr, es)
    ensures var w := tr[|tr| - 1]; |w.exps| > 0 && w.exps[0].status == Active && Suppressed(w, w.exps[0].claim)
  {
    tr, es := TwinsRun();
    TwinsDiverge(tr[2], "eve");
    var approve, reject := ReviewStep(0, "eve", Approve, 1, 0), ReviewStep(1, "eve", Reject, 1, 0);
    tr := RunGrows(tr, es, approve);
    es := es + [approve];
    tr := RunGrows(tr, es, reject);
    es := es + [reject];
  }

  /** Step j condemned the claim and nothing has released it before state m. */
  ghost predicate CondemnedSince(tr: seq<World>, es: seq<Step>, j: nat, m: nat, c: Claim)
    requires |tr| == |es| + 1 && j < m < |tr|
  {
    Condemns(tr[j], es[j], c) && forall l :: j < l < m ==> !Releases(tr[l], es[l], c)
  }

  /** After an approval or fresh proposal of a claim, the claim is suppressed exactly when some later step condemned it
      and no step since then released it. */
  lemma {:induction false} SuppressedExactlyWhenCondemned(tr: seq<World>, es: seq<Step>, k: nat, m: nat, c: Claim)
    requires IsRun(tr, es) && k < m < |tr| && Admits(tr[k], es[k], c)
    ensures Suppressed(tr[m], c) <==> exists j: nat :: k < j < m && CondemnedSince(tr, es, j, m, c)
    decreases m
  {
    if k + 1 == m {
      SuppressionAt(tr, es, k, c);
    } else {
      SuppressedExactlyWhenCondemned(tr, es, k, m - 1, c);
      SuppressionAt(tr, es, m - 1, c);
      if Condemns(tr[m - 1], es[m - 1], c) {
        assert CondemnedSince(tr, es, m - 1, m, c);
      } else if Suppressed(tr[m], c) {
        var j: nat :| k < j < m - 1 && CondemnedSince(tr, es, j, m - 1, c);
        assert CondemnedSince(tr, es, j, m, c);
      } else if exists j: nat :: k < j < m && CondemnedSince(tr, es, j, m, c) {
        var j: nat :| k < j < m && CondemnedSince(tr, es, j, m, c);
        assert CondemnedSince(tr, es, j, m - 1, c);
      }
    }
  }

  /** Only an approval makes a row active. */
  lemma StepActivates(w: World, e: Step, i: nat)
    requires i < |Apply(w, e).exps| && Apply(w, e).exps[i].status == Active
    requires i < |w.exps| ==> w.exps[i].status != Active
    ensures e.ReviewStep? && e.i == i && e.action == Approve && Admits(w, e, Apply(w, e).exps[i].claim)
  {
    if e.ReviewStep? && e.i < |w.exps| && Review(w, e.i, e.actor, e.action, e.expected, e.now).1.Applied? {
      ReviewRows(w, e.i, e.actor, e.action, e.expected, e.now);
    }
  }

  /** Exactly when "an active experience is never suppressed" fails: an active row was approved by some step k, and
      its claim is suppressed exactly when a step after k condemned that claim and none since has released it. */
  lemma {:induction false} ActiveSuppressedExactlyWhen(tr: seq<World>, es: seq<Step>, m: nat, i: nat) returns (k: nat)
    requires IsRun(tr, es) && m < |tr| && i < |tr[m].exps| && tr[m].exps[i].status == Active
    ensures k < m && es[k].ReviewStep? && es[k].i == i && es[k].action == Approve
    ensures Admits(tr[k], es[k], tr[m].exps[i].claim)
    ensures Suppressed(tr[m], tr[m].exps[i].claim) <==>
              exists j: nat :: k < j < m && CondemnedSince(tr, es, j, m, tr[m].exps[i].claim)
    decreases m
  {
    assert m > 0;
    assert StepAt(tr, es, m - 1);
    if i < |tr[m - 1].exps| && tr[m - 1].exps[i].status == Active {
      k := ActiveSuppressedExactlyWhen(tr, es, m - 1, i);
      RowExtendsAt(tr, es, m - 1, i);
    } else {
      StepActivates(tr[m - 1], es[m - 1], i);
      k := m - 1;
    }
    SuppressedExactlyWhenCondemned(tr, es, k, m, tr[m].exps[i].claim);
  }

  // ---------------------------------------------------------------- the tables, updated in place

  /** The content guard of migration 005, as a condition on one UPDATE: attribution never changes, and content only
      in the very statement that forgets the row. */
  predicate GuardAllows(was: Exp, row: Exp) {
    && row == was.(status := row.status, version := row.version, erased := row.erased, events := row.events)
    && (row.status != Forgotten || was.status == Forgotten ==> row.erased == was.erased)
  }

  class Library {
    var exps: seq<Exp>
    var suppressions: map<Claim, Suppression>
    var skills: seq<Skill>
    var revs: seq<Revision>

    constructor ()
      ensures Value() == EMPTY
    {
      exps, suppressions, skills, revs := [], map[], [], [];
    }

    function Value(): World
      reads this
    {
      World(exps, suppressions, skills, revs)
    }

    /** UPDATE of one experience row, with the trigger's loop over the revisions bound to it. */
    method Update(m: nat, e: Exp)
      requires m < |exps| && forall k :: 0 <= k < |revs| ==> revs[k].skill < |skills|
      requires GuardAllows(exps[m], e)
      modifies this
      ensures Value() == Touch(old(Value()), m, e)
    {
      ghost var w := Value();
      var same := e.status == exps[m].status && e.version == exps[m].version;
      exps := exps[m := e];
      if same {
        return;
      }
      var k := 0;
      while k < |revs|
        invariant 0 <= k <= |revs| == |w.revs| && |skills| == |w.skills|
        invariant exps == w.exps[m := e] && suppressions == w.suppressions
        invariant forall l :: 0 <= l < k ==> revs[l] == if Hit(w.revs[l], m, e) then Invalidated(w.revs[l], e)
                else w.revs[l]
        invariant forall l :: k <= l < |revs| ==> revs[l] == w.revs[l]
        invariant forall s :: 0 <= s < |skills| ==>
                    skills[s] == if LosesActiveBelow(w, s, m, e, k) then w.skills[s].(active := None) else w.skills[s]
      {
        var target := revs[k];
        if Hit(target, m, e) {
          revs := revs[k := Invalidated(target, e)];
          if skills[target.skill].active == Some(target.number) {
            skills := skills[target.skill := skills[target.skill].(active := None)];
          }
        }
        k := k + 1;
      }
      assert Value() == Touch(w, m, e);
    }

    method SuppressClaim(c: Claim, actor: User)
      modifies this`suppressions
      ensures Value() == Suppress(old(Value()), c, actor)
    {
      var version := if c in suppressions then suppressions[c].version + 1 else 1;
      suppressions := suppressions[c := Suppression(version, false, actor)];
    }

    /** The guards of review, in the order of the code; None when the action may proceed. */
    method CheckReview(i: nat, actor: User, action: Action, expected: nat, now: Time) returns (error: Option<Error>)
      requires i < |exps|
      ensures error == ReviewError(Value(), i, actor, action, expected, now)
    {
      var row := exps[i];
      if row.version != expected || row.status == Forgotten
          || (Required(action).Some? && row.status != Required(action).value) {
        return Some(Conflict);
      }
      if action == Approve {
        if !ParentStands(Value(), row) {
          return Some(ParentChanged);
        }
        if !InForce(row, now) {
          return Some(OutsideValidity);
        }
        if row.claim in suppressions && !suppressions[row.claim].released {
          return Some(IsSuppressed);
        }
      }
      return None;
    }

    /** Approving a revision suppresses the parent's claim when it differs, and supersedes the parent. */
    method RetireParent(i: nat, actor: User)
      requires i < |exps| && ParentStands(Value(), exps[i])
      requires forall k :: 0 <= k < |revs| ==> revs[k].skill < |skills|
      modifies this
      ensures Value() == Retire(old(Value()), i, actor)
    {
      var row := exps[i];
      if row.link.Some? {
        var p := row.link.value.parent;
        var parent := exps[p];
        if parent.claim != row.claim {
          SuppressClaim(parent.claim, actor);
        }
        Update(p, Logged(parent, actor, Supersede, Active, Superseded, Some(i)));
      }
    }

    method ReviewExperience(i: nat, actor: User, action: Action, expected: nat, now: Time)
      returns (answer: ReviewAnswer)
      requires forall k :: 0 <= k < |revs| ==> revs[k].skill < |skills|
      modifies this
      ensures (Value(), answer) == Review(old(Value()), i, actor, action, expected, now)
    {
      if i >= |exps| || action == Supersede {
        return Refused(Missing);
      }
      var row := exps[i];
      var replay := IsReplay(row, actor, action, expected);
      if replay.Some? {
        return AlreadyApplied(replay.value.after, replay.value.version);
      }
      var error := CheckReview(i, actor, action, expected, now);
      if error.Some? {
        return Refused(error.value);
      }
      var related: Option<nat> := None;
      if action == Approve {
        related := if row.link.Some? then Some(row.link.value.parent) else None;
        RetireParent(i, actor);
      }
      if action == Reject || action == Forget {
        SuppressClaim(row.claim, actor);
      }
      var base := row;
      if action == Forget {
        base := Erased(row);
        Update(i, base);
      }
      Update(i, Logged(base, actor, action, row.status, After(action), related));
      answer := Applied(After(action), row.version + 1);
    }

    method ProposeExperience(p: Proposal, source: Option<SourceRow>, now: Time) returns (answer: ProposeAnswer)
      modifies this`exps
      ensures (Value(), answer) == Propose(old(Value()), p, source, now)
    {
      var existing := FindKey(exps, p.author, p.key);
      if existing.Some? {
        return if exps[existing.value].digest == p.digest then AlreadyProposed(existing.value)
            else NotProposed(KeyReused);
      }
      var base: Option<Exp> := None;
      if p.revises.Some? {
        var parent := p.revises.value.parent;
        if parent >= |exps| {
          return NotProposed(Missing);
        }
        if exps[parent].status != Active || exps[parent].version != p.revises.value.version {
          return NotProposed(ParentChanged);
        }
        base := Some(exps[parent]);
      }
      if source.None? {
        return NotProposed(Missing);
      }
      if !ValidInterval(p, now) {
        return NotProposed(OutsideValidity);
      }
      var claim := Claim(source.value.payload, p.fingerprint);
      if claim in suppressions && !suppressions[claim].released {
        return NotProposed(IsSuppressed);
      }
      var classification, root: Option<nat>, number := source.value.classification, None, 1;
      if base.Some? {
        classification := MaxClass(classification, base.value.classification);
        root := if base.value.root.Some? then base.value.root else Some(p.revises.value.parent);
        number := base.value.number + 1;
      }
      answer := Proposed(|exps|);
      var row := Exp(claim, source.value.lock, p.kind, classification, p.author, p.key, p.digest,
                     p.expiresAt, p.validFrom, p.revises, root, number, Pending, 1, false, []);
      exps := exps + [row];
    }

    method Release(i: nat, actor: User, expected: nat) returns (answer: ReleaseAnswer)
      modifies this`suppressions
      ensures (Value(), answer) == ReleaseSuppression(old(Value()), i, actor, expected)
    {
      if i >= |exps| || exps[i].claim !in suppressions {
        return NotReleased(Missing);
      }
      var row := suppressions[exps[i].claim];
      if row.released && row.version == expected + 1 && row.actor == actor {
        return AlreadyReleased;
      }
      if row.version != expected || row.released {
        return NotReleased(Conflict);
      }
      suppressions := suppressions[exps[i].claim := Suppression(row.version + 1, true, actor)];
      answer := Released;
    }

    method SubmitRevision(sub: Submission, evidence: bool, now: Time) returns (answer: SubmitAnswer)
      modifies this`skills, this`revs
      ensures (Value(), answer) == Submit(old(Value()), sub, evidence, now)
    {
      var existing := FindSubmission(revs, sub.author, sub.key);
      if existing.Some? {
        return if revs[existing.value].digest == sub.digest then AlreadySubmitted(existing.value)
            else NotSubmitted(SubmissionReused);
      }
      if !Captures(Value(), sub.refs, evidence, now) {
        return NotSubmitted(SourcesMissing);
      }
      var s := |skills|;
      if sub.target.Revise? {
        s := sub.target.skill;
        if s >= |skills| || skills[s].latest != sub.target.latest {
          return NotSubmitted(SkillConflict);
        }
        var previous := FindRevision(revs, s, sub.target.latest);
        if previous < |revs| && Scaffold(revs[previous], sub) {
          return NotSubmitted(Unauthored);
        }
      } else {
        if HasName(skills, sub.target.name) {
          return NotSubmitted(SkillConflict);
        }
        skills := skills + [Skill(sub.target.name, 0, None)];
      }
      answer := Submitted(|revs|);
      revs := revs + [Revision(s, skills[s].latest + 1, skills[s].active, sub.origin, sub.refs,
                               sub.author, sub.key, sub.digest, sub.authored, RPending, 1, false, [])];
      skills := skills[s := skills[s].(latest := skills[s].latest + 1)];
    }

    method Transition(k: nat, actor: User, action: RevAction)
      requires k < |revs|
      modifies this`revs
      ensures revs == old(revs)[k := Transitioned(old(revs)[k], actor, action)]
    {
      var row := revs[k];
      var logged := RevEvent(row.version + 1, actor, action, row.status, RevAfter(action));
      row := row.(status := RevAfter(action), version := row.version + 1, events := row.events + [logged]);
      revs := revs[k := if action == RevForget then row.(erased := true) else row];
    }

    method ReviewRevision(k: nat, actor: User, action: RevAction, expected: nat, evidence: bool, now: Time)
      returns (answer: SkillAnswer)
      modifies this`skills, this`revs
      ensures (Value(), answer) == ReviewSkill(old(Value()), k, actor, action, expected, evidence, now)
    {
      if k >= |revs| || revs[k].skill >= |skills| || action == RevSupersede || action == RevInvalidate {
        return SkillRefused;
      }
      var row := revs[k];
      var s := row.skill;
      var replay := RevReplay(row, actor, action, expected);
      if replay.Some? {
        return SkillReplayed(replay.value.after, replay.value.version);
      }
      if row.version != expected || row.status == RForgotten
          || (RevRequired(action).Some? && row.status != RevRequired(action).value) {
        return SkillRefused;
      }
      if action == RevApprove {
        if row.origin != Manual || !Captures(Value(), row.bindings, evidence, now) || row.base != skills[s].active {
          return SkillRefused;
        }
        if skills[s].active.Some? {
          var parent := FindRevision(revs, s, skills[s].active.value);
          if parent < |revs| {
            Transition(parent, actor, RevSupersede);
          }
        }
        skills := skills[s := skills[s].(active := Some(row.number))];
        revs := revs[k := Transitioned(row, actor, action)];
      } else {
        if skills[s].active == Some(row.number) {
          skills := skills[s := skills[s].(active := None)];
        }
        Transition(k, actor, action);
      }
      answer := SkillApplied(RevAfter(action), row.version + 1);
    }
  }

  /** LosesActive restricted to the revisions already visited. */
  predicate LosesActiveBelow(w: World, s: nat, m: nat, e: Exp, n: nat)
    requires s < |w.skills| && n <= |w.revs|
  {
    exists k ::
        0 <= k < n && Hit(w.revs[k], m, e) && w.revs[k].skill == s && w.skills[s].active == Some(w.revs[k].number)
  }
}
