/** Observed presence (continuity/presence.py, continuity/presence_state.py).

A session row keeps only its latest report and two start times; the answers it gives are justified
here by the whole history of accepted reports. No assumption is made that the clock never steps back. */
module Presence {
  import opened Common

  datatype State = Running | WaitingApproval | Blocked | Idle | Unknown
  datatype Scope = Worker | Controller | Partial

  /** The fields whose change starts a new observed state. */
  datatype Fields = Fields(state: State, scope: Scope, available: bool, active: nat, unit: Option<string>)

  datatype Policy = Policy(enabled: bool, stale: nat, idle: nat)

  datatype Session = Session(
    kind: Scope, sequence: nat, stateSequence: nat, digest: Option<Digest>,
    fields: Fields, classification: Classification,
    lastSeen: Time, stateSince: Time, idleSince: Option<Time>, ended: Option<Time>, retired: bool)

  const UNOBSERVED := Fields(Unknown, Partial, false, 0, None)
  const MAX_ACTIVE := 128

  /** One accepted observation: registration first, then heartbeats, each with the stale threshold then in force. */
  datatype Beat = Beat(at: Time, fields: Fields, stale: nat)

  /** A session with the history behind it. */
  datatype Observed = Observed(row: Session, history: seq<Beat>)

  // ---------------------------------------------------------------- decisions

  datatype Times = Times(stateSince: Time, idleSince: Option<Time>)

  predicate Discontinuous(lastSeen: Time, now: Time, stale: nat) {
    now < lastSeen || now - lastSeen >= stale
  }

  function NextTimes(row: Session, state: State, now: Time, stale: nat, stateChanged: bool): Times {
    var changed := stateChanged || Discontinuous(row.lastSeen, now, stale) || row.fields.state != state;
    Times(if changed then now else row.stateSince,
          if state != Idle then None else if changed then Some(now) else row.idleSince)
  }

  datatype Freshness = NotKnown | Fresh | Stale | EndedSession
  datatype Effective = IsUnknown | IsEnded | IsStale | IsRunning | IsWaitingApproval | IsBlocked | IsIdle | IsWaiting
  datatype Cause =
    | SessionEnded | ClockDiscontinuity | ReportDelayed | ObservationIncomplete | StateUnknown | InconsistentReport
    | ReportedState | IdleIntervalUnknown | IdleThresholdReached | IdleThresholdPending

  datatype View = View(
    freshness: Freshness, effective: Effective, cause: Cause,
    stateSeconds: Option<nat>, idleSeconds: Option<nat>, isIdle: bool)

  function Plain(freshness: Freshness, effective: Effective, cause: Cause): View {
    View(freshness, effective, cause, None, None, false)
  }

  function SessionState(row: Session, now: Time, policy: Policy): View {
    var f := row.fields;
    if row.ended.Some? then Plain(EndedSession, IsEnded, SessionEnded)
    else if now < row.lastSeen || now < row.stateSince then Plain(NotKnown, IsUnknown, ClockDiscontinuity)
    else if now - row.lastSeen >= policy.stale then Plain(Stale, IsStale, ReportDelayed)
    else if !f.available || f.scope == Partial || f.active > MAX_ACTIVE
        then Plain(Fresh, IsUnknown, ObservationIncomplete)
    else if f.state == Unknown then Plain(Fresh, IsUnknown, StateUnknown)
    else if (f.state == Running && f.active == 0) || (f.state == Idle && f.active != 0)
        then Plain(Fresh, IsUnknown, InconsistentReport)
    else
      var lasted: nat := now - row.stateSince;
      if f.state != Idle then
        var shown :=
          if f.state == Running then IsRunning else if f.state == Blocked then IsBlocked else IsWaitingApproval;
        View(Fresh, shown, ReportedState, Some(lasted), None, false)
      else if row.idleSince.None? || row.idleSince.value < row.stateSince || row.idleSince.value > row.lastSeen
          || row.idleSince.value > now then
        View(Fresh, IsUnknown, IdleIntervalUnknown, Some(lasted), None, false)
      else
        var seconds: nat := now - row.idleSince.value;
        var idle := seconds >= policy.idle;
        View(Fresh, if idle then IsIdle else IsWaiting, if idle then IdleThresholdReached else IdleThresholdPending,
             Some(lasted), Some(seconds), idle)
  }

  // ---------------------------------------------------------------- mutations

  datatype Report = Report(
    sequence: nat, stateSequence: nat, fields: Fields, digest: Digest, classification: Classification)

  datatype Answer = Accepted | Replayed | Refused(error: Error)
  datatype Error = Invalid | Conflict | Disabled | Unavailable | Retired

  /** _validate_report. */
  predicate Consistent(f: Fields) {
    && (f.state != Unknown ==> f.available && f.scope != Partial)
    && (f.state == Running ==> f.active != 0)
    && (f.state == Idle ==> f.active == 0)
  }

  function Registered(kind: Scope, classification: Classification, now: Time): Observed {
    Observed(
      Session(kind, 0, 0, None, UNOBSERVED, classification, now, now, None, None, false), [Beat(now, UNOBSERVED, 0)])
  }

  /** `bound` is the highest classification of the work unit, checkpoint and parent the report names, None when one
      is unavailable. */
  function Heartbeat(
      o: Observed, r: Report, bound: Option<Classification>, policy: Policy, now: Time): (Observed, Answer)
  {
    var row := o.row;
    if !Consistent(r.fields) then (o, Refused(Invalid))
    else if row.retired then (o, Refused(Retired))
    else if row.ended.Some? then (o, Refused(Conflict))
    else if r.sequence == row.sequence && row.digest == Some(r.digest) then (o, Replayed)
    else if r.sequence <= row.sequence then (o, Refused(Conflict))
    else if !policy.enabled then (o, Refused(Disabled))
    else if r.fields.scope != row.kind && r.fields.scope != Partial then (o, Refused(Invalid))
    else
      var changed := r.fields != row.fields;
      if r.stateSequence != row.stateSequence + (if changed then 1 else 0) then (o, Refused(Conflict))
      else if bound.None? then (o, Refused(Unavailable))
      else
        var t := NextTimes(row, r.fields.state, now, policy.stale, changed);
        (Observed(row.(sequence := r.sequence, stateSequence := r.stateSequence,
                       digest := Some(r.digest), fields := r.fields,
                       classification := MaxClass(MaxClass(row.classification, r.classification), bound.value),
                       lastSeen := now, stateSince := t.stateSince, idleSince := t.idleSince),
                  o.history + [Beat(now, r.fields, policy.stale)]), Accepted)
  }

  function End(o: Observed, sequence: nat, digest: Digest, now: Time): (Observed, Answer) {
    var row := o.row;
    if row.retired then (o, Refused(Retired))
    else if row.ended.Some?
        then (o, if sequence == row.sequence && row.digest == Some(digest) then Replayed else Refused(Conflict))
    else if sequence <= row.sequence then (o, Refused(Conflict))
    else (o.(row := row.(sequence := sequence, digest := Some(digest), ended := Some(now))), Accepted)
  }

  /** Retirement by prune blanks the observation and ends the session. */
  function Retire(o: Observed, now: Time): Observed {
    if o.row.retired then o
    else o.(row := o.row.(retired := true, ended := if o.row.ended.Some? then o.row.ended else Some(now),
                          fields := UNOBSERVED, idleSince := None))
  }

  datatype Step =
    | HeartbeatStep(r: Report, bound: Option<Classification>, policy: Policy, now: Time)
    | EndStep(sequence: nat, digest: Digest, now: Time)
    | RetireStep(now: Time)

  function Apply(o: Observed, e: Step): Observed {
    match e
    case HeartbeatStep(r, bound, policy, now) => Heartbeat(o, r, bound, policy, now).0
    case EndStep(sequence, digest, now) => End(o, sequence, digest, now).0
    case RetireStep(now) => Retire(o, now)
  }

  // ---------------------------------------------------------------- the history behind a row

  /** Consecutive observations that continue one state: same fields, no gap as long as the threshold then in force. */
  predicate Continues(a: Beat, b: Beat) {
    a.fields == b.fields && a.at <= b.at && b.at - a.at < b.stale
  }

  /** The observations from s on form one unbroken state, and s is where it began. */
  ghost predicate Unbroken(h: seq<Beat>, s: nat) {
    && s < |h|
    && (forall k :: s < k < |h| ==> Continues(h[k - 1], h[k]))
    && (s > 0 ==> !Continues(h[s - 1], h[s]))
  }

  ghost predicate Justified(o: Observed) {
    var h := o.history;
    && |h| > 0
    && h[|h| - 1].at == o.row.lastSeen
    && (!o.row.retired ==> h[|h| - 1].fields == o.row.fields)
    && (exists s: nat :: Unbroken(h, s) && h[s].at == o.row.stateSince)
    && (forall k :: 0 <= k < |h| ==> Consistent(h[k].fields))
  }

  ghost predicate Inv(o: Observed) {
    && Justified(o)
    && Consistent(o.row.fields)
    && o.row.stateSince <= o.row.lastSeen
    && (!o.row.retired ==> o.row.idleSince == if o.row.fields.state == Idle then Some(o.row.stateSince) else None)
    && (o.row.retired ==> o.row.ended.Some?)
  }

  lemma AcceptedIsJustified(o: Observed, r: Report, bound: Option<Classification>, policy: Policy, now: Time)
    requires Inv(o) && Heartbeat(o, r, bound, policy, now).1.Accepted?
    ensures Inv(Heartbeat(o, r, bound, policy, now).0)
  {
    var v := Heartbeat(o, r, bound, policy, now).0;
    var h := o.history;
    var g := v.history;
    var b := Beat(now, r.fields, policy.stale);
    var s: nat :| Unbroken(h, s) && h[s].at == o.row.stateSince;
    if Continues(h[|h| - 1], b) {
      assert forall k :: s < k < |h| ==> Continues(g[k - 1], g[k]) by {
        assert forall k :: s < k < |h| ==> Continues(h[k - 1], h[k]);
      }
      assert Unbroken(g, s) && g[s].at == v.row.stateSince;
    } else {
      assert Unbroken(g, |h|) && g[|h|].at == v.row.stateSince;
    }
  }

  lemma StepKeepsInvariant(o: Observed, e: Step)
    requires Inv(o)
    ensures Inv(Apply(o, e))
    ensures o.history <= Apply(o, e).history
    ensures o.row.classification.Rank() <= Apply(o, e).row.classification.Rank()
    ensures o.row.sequence <= Apply(o, e).row.sequence
  {
    match e
    case HeartbeatStep(r, bound, policy, now) =>
      if Heartbeat(o, r, bound, policy, now).1.Accepted? {
        AcceptedIsJustified(o, r, bound, policy, now);
      }
    case EndStep(sequence, digest, now) =>
      var s: nat :| Unbroken(o.history, s) && o.history[s].at == o.row.stateSince;
      assert Unbroken(Apply(o, e).history, s);
    case RetireStep(now) =>
      var s: nat :| Unbroken(o.history, s) && o.history[s].at == o.row.stateSince;
      assert Unbroken(Apply(o, e).history, s);
  }

  /** Sessions reachable from registration. */
  function Replay(o: Observed, es: seq<Step>): Observed {
    if es == [] then o else Apply(Replay(o, es[..|es| - 1]), es[|es| - 1])
  }

  lemma {:induction false} ReachableIsJustified(kind: Scope, classification: Classification, start: Time, es: seq<Step>)
    ensures Inv(Replay(Registered(kind, classification, start), es))
  {
    if es == [] {
      assert Unbroken([Beat(start, UNOBSERVED, 0)], 0);
    } else {
      ReachableIsJustified(kind, classification, start, es[..|es| - 1]);
      StepKeepsInvariant(Replay(Registered(kind, classification, start), es[..|es| - 1]), es[|es| - 1]);
    }
  }

  /** Idle for n seconds is witnessed: exactly since the first of an unbroken stretch of accepted idle heartbeats with
      identical fields, each within the threshold of the one before, the last within the threshold of now;
      and the observation before the stretch, if any, differs or came too long before. */
  lemma IdleIsWitnessed(kind: Scope, classification: Classification, start: Time, es: seq<Step>, now: Time,
                        policy: Policy) returns (s: nat)
    ensures var o := Replay(Registered(kind, classification, start), es);
            var view := SessionState(o.row, now, policy);
            view.idleSeconds.Some? ==>
              && 0 < s < |o.history|
              && o.history[s].at == now - view.idleSeconds.value
              && (forall k :: s <= k < |o.history| ==> o.history[k].fields == o.row.fields)
              && o.row.fields.state == Idle && o.row.fields.active == 0
              && (forall k :: s < k < |o.history| ==> Continues(o.history[k - 1], o.history[k]))
              && !Continues(o.history[s - 1], o.history[s])
              && now - o.history[|o.history| - 1].at < policy.stale
              && (view.isIdle <==> view.idleSeconds.value >= policy.idle)
              && view.stateSeconds == view.idleSeconds
  {
    var o := Replay(Registered(kind, classification, start), es);
    ReachableIsJustified(kind, classification, start, es);
    HistoryStartsUnobserved(kind, classification, start, es);
    s :| Unbroken(o.history, s) && o.history[s].at == o.row.stateSince;
    SameFields(o.history, s, |o.history| - 1);
    forall k | s <= k < |o.history| ensures o.history[k].fields == o.history[s].fields {
      SameFields(o.history, s, k);
    }
  }

  lemma {:induction false} SameFields(h: seq<Beat>, s: nat, k: nat)
    requires Unbroken(h, s) && s <= k < |h|
    ensures h[k].fields == h[s].fields
  {
    if s == k {
    } else {
      SameFields(h, s, k - 1);
      assert Continues(h[k - 1], h[k]);
    }
  }

  lemma {:induction false} HistoryStartsUnobserved(
      kind: Scope, classification: Classification, start: Time, es: seq<Step>)
    ensures var h := Replay(Registered(kind, classification, start), es).history;
            |h| > 0 && h[0] == Beat(start, UNOBSERVED, 0)
  {
    if es == [] {
    } else {
      HistoryStartsUnobserved(kind, classification, start, es[..|es| - 1]);
    }
  }

  /** For reachable rows the two defensive outcomes never occur, and the idle start is the state start exactly when
      idle. */
  lemma DefensiveOutcomesUnreachable(kind: Scope, classification: Classification, start: Time, es: seq<Step>,
                                     now: Time, policy: Policy)
    ensures var o := Replay(Registered(kind, classification, start), es);
            var cause := SessionState(o.row, now, policy).cause;
            && cause != InconsistentReport && cause != IdleIntervalUnknown
            && (!o.row.retired ==>
                  o.row.idleSince == if o.row.fields.state == Idle then Some(o.row.stateSince) else None)
            && (cause == ObservationIncomplete ==> o.row.fields.state == Unknown || o.row.fields.active > MAX_ACTIVE)
  {
    ReachableIsJustified(kind, classification, start, es);
  }

  // ---------------------------------------------------------------- aggregation

  /** What SessionState can answer for a reachable row. */
  predicate Coherent(v: View) {
    && (v.effective == IsIdle || v.effective == IsWaiting <==> v.idleSeconds.Some?)
    && (v.isIdle <==> v.effective == IsIdle)
    && (v.idleSeconds.Some? ==> v.freshness == Fresh)
    && (v.freshness == EndedSession <==> v.effective == IsEnded)
    && (v.freshness == Stale <==> v.effective == IsStale)
    && (v.freshness == NotKnown ==> v.effective == IsUnknown)
  }

  lemma AnswersAreCoherent(row: Session, now: Time, policy: Policy)
    ensures Coherent(SessionState(row, now, policy))
  {
  }

  datatype Summary =
    | SRunning | SWaitingApproval | SBlocked | SPartiallyUnknown | SEnded | SNotObserved | SIdle | SWaiting

  datatype Aggregate = Aggregate(effective: Summary, idleSeconds: Option<nat>, isIdle: bool, uncertain: bool)

  predicate Open(v: View) { v.freshness != EndedSession }

  predicate SomeFresh(vs: seq<View>, effective: Effective) {
    exists i :: 0 <= i < |vs| && Open(vs[i]) && vs[i].freshness == Fresh && vs[i].effective == effective
  }

  predicate Uncertain(v: View) {
    Open(v) && (v.freshness == Stale || v.freshness == NotKnown || v.effective == IsUnknown)
  }

  /** min over the open sessions' idle seconds. */
  function LeastIdle(vs: seq<View>): Option<nat> {
    if vs == [] then None
    else
      var rest := LeastIdle(vs[1..]);
      if !Open(vs[0]) || vs[0].idleSeconds.None? then rest
      else if rest.Some? && rest.value < vs[0].idleSeconds.value then rest
      else vs[0].idleSeconds
  }

  function AggregateStates(vs: seq<View>, complete: bool): Aggregate {
    var uncertain := !complete || exists i :: 0 <= i < |vs| && Uncertain(vs[i]);
    if SomeFresh(vs, IsRunning) then Aggregate(SRunning, None, false, uncertain)
    else if SomeFresh(vs, IsWaitingApproval) then Aggregate(SWaitingApproval, None, false, uncertain)
    else if SomeFresh(vs, IsBlocked) then Aggregate(SBlocked, None, false, uncertain)
    else if uncertain then Aggregate(SPartiallyUnknown, None, false, true)
    else if forall i :: 0 <= i < |vs| ==> !Open(vs[i])
        then Aggregate(if vs == [] then SNotObserved else SEnded, None, false, false)
    else if forall i :: 0 <= i < |vs| && Open(vs[i]) ==>
        vs[i].freshness == Fresh && (vs[i].effective == IsIdle || vs[i].effective == IsWaiting) then
      var idle := forall i :: 0 <= i < |vs| && Open(vs[i]) ==> vs[i].isIdle;
      Aggregate(if idle then SIdle else SWaiting, LeastIdle(vs), idle, false)
    else Aggregate(SPartiallyUnknown, None, false, true)
  }

  lemma {:induction false} LeastIdleIsLeast(vs: seq<View>)
    requires forall i :: 0 <= i < |vs| ==> Coherent(vs[i])
    ensures var m := LeastIdle(vs);
            && (m.Some? <==> exists i :: 0 <= i < |vs| && Open(vs[i]) && vs[i].idleSeconds.Some?)
            && (m.Some? ==> exists i :: 0 <= i < |vs| && Open(vs[i]) && vs[i].idleSeconds == m)
            && (forall i :: 0 <= i < |vs| && Open(vs[i]) && vs[i].idleSeconds.Some? ==>
                 m.Some? && m.value <= vs[i].idleSeconds.value)
  {
    if vs == [] {
    } else {
      LeastIdleIsLeast(vs[1..]);
      assert vs == [vs[0]] + vs[1..];
      assert forall i :: 0 < i < |vs| ==> vs[i] == vs[1..][i - 1];
      if LeastIdle(vs[1..]).Some? {
        var k :| 0 <= k < |vs[1..]| && Open(vs[1..][k]) && vs[1..][k].idleSeconds == LeastIdle(vs[1..]);
        assert vs[k + 1].idleSeconds == LeastIdle(vs[1..]);
      }
    }
  }

  /** A scope is idle exactly when the evidence is complete, somebody is open, and every open session is idle;
      it has then been idle as long as its most recently idle session. Any uncertainty forbids the answer,
      but a session known to be running is reported whatever else is unknown. */
  lemma AggregateIsConservative(vs: seq<View>, complete: bool)
    requires forall i :: 0 <= i < |vs| ==> Coherent(vs[i])
    ensures var a := AggregateStates(vs, complete);
            && (a.isIdle <==> complete && (exists i :: 0 <= i < |vs| && Open(vs[i]))
                              && forall i :: 0 <= i < |vs| && Open(vs[i]) ==> vs[i].isIdle)
            && (a.idleSeconds.Some? ==>
                  && complete && !a.uncertain
                  && (exists i :: 0 <= i < |vs| && Open(vs[i]) && vs[i].idleSeconds == a.idleSeconds)
                  && forall i :: 0 <= i < |vs| && Open(vs[i]) ==>
                       vs[i].idleSeconds.Some? && a.idleSeconds.value <= vs[i].idleSeconds.value)
            && (a.effective == SRunning <==> SomeFresh(vs, IsRunning))
            && (a.effective == SEnded || a.effective == SNotObserved ==>
                  complete && forall i :: 0 <= i < |vs| ==> !Open(vs[i]))
  {
    LeastIdleIsLeast(vs);
  }

  function Views(rows: seq<Session>, now: Time, policy: Policy): seq<View> {
    seq(|rows|, i requires 0 <= i < |rows| => SessionState(rows[i], now, policy))
  }

  lemma RowIsIdle(row: Session, now: Time, policy: Policy)
    ensures var v := SessionState(row, now, policy);
            && Coherent(v) && (Open(v) <==> row.ended.None?)
            && (v.isIdle <==> v.idleSeconds.Some? && v.idleSeconds.value >= policy.idle)
  {
    AnswersAreCoherent(row, now, policy);
  }

  lemma ViewsAreIdleExactlyWhen(vs: seq<View>, complete: bool, threshold: nat)
    requires forall i :: 0 <= i < |vs| ==> Coherent(vs[i])
    requires forall i :: 0 <= i < |vs| ==>
            (vs[i].isIdle <==> vs[i].idleSeconds.Some? && vs[i].idleSeconds.value >= threshold)
    ensures var a := AggregateStates(vs, complete);
            && (a.isIdle <==> complete && (exists i :: 0 <= i < |vs| && Open(vs[i]))
                              && forall i :: 0 <= i < |vs| && Open(vs[i]) ==>
                                   vs[i].idleSeconds.Some? && vs[i].idleSeconds.value >= threshold)
            && (a.isIdle ==> a.idleSeconds.Some? && a.idleSeconds.value >= threshold)
  {
    AggregateIsConservative(vs, complete);
    LeastIdleIsLeast(vs);
  }

  /** From rows to the answer for a scope: it is idle exactly when the evidence is complete, some session has not
      ended, and every session that has not ended reports idle, unbroken, for at least the policy's threshold. */
  lemma ScopeIsIdleExactlyWhen(rows: seq<Session>, complete: bool, now: Time, policy: Policy)
    ensures var a := AggregateStates(Views(rows, now, policy), complete);
            && (a.isIdle <==>
                  && complete && (exists i :: 0 <= i < |rows| && rows[i].ended.None?)
                  && forall i :: 0 <= i < |rows| && rows[i].ended.None? ==>
                       var seconds := SessionState(rows[i], now, policy).idleSeconds;
                       seconds.Some? && seconds.value >= policy.idle)
            && (a.isIdle ==> a.idleSeconds.Some? && a.idleSeconds.value >= policy.idle)
  {
    var vs := Views(rows, now, policy);
    forall i | 0 <= i < |rows|
      ensures Coherent(vs[i]) && (Open(vs[i]) <==> rows[i].ended.None?)
      ensures vs[i].isIdle <==> vs[i].idleSeconds.Some? && vs[i].idleSeconds.value >= policy.idle
    {
      RowIsIdle(rows[i], now, policy);
    }
    ViewsAreIdleExactlyWhen(vs, complete, policy.idle);
    assert (exists i :: 0 <= i < |vs| && Open(vs[i])) <==> exists i :: 0 <= i < |rows| && rows[i].ended.None?;
  }

  // ---------------------------------------------------------------- the row, updated in place

  class SessionRow {
    const kind: Scope
    var sequence: nat
    var stateSequence: nat
    var digest: Option<Digest>
    var fields: Fields
    var classification: Classification
    var lastSeen: Time
    var stateSince: Time
    var idleSince: Option<Time>
    var ended: Option<Time>
    var retired: bool
    ghost var history: seq<Beat>

    constructor (kind: Scope, classification: Classification, now: Time)
      ensures Value() == Registered(kind, classification, now)
    {
      this.kind, this.classification := kind, classification;
      sequence, stateSequence, digest, fields := 0, 0, None, UNOBSERVED;
      lastSeen, stateSince, idleSince, ended, retired := now, now, None, None, false;
      history := [Beat(now, UNOBSERVED, 0)];
    }

    function Row(): Session
      reads this
    {
      Session(kind, sequence, stateSequence, digest, fields, classification,
              lastSeen, stateSince, idleSince, ended, retired)
    }

    ghost function Value(): Observed
      reads this
    {
      Observed(Row(), history)
    }

    method Report(r: Report, bound: Option<Classification>, policy: Policy, now: Time) returns (answer: Answer)
      modifies this
      ensures (Value(), answer) == Heartbeat(old(Value()), r, bound, policy, now)
    {
      if !Consistent(r.fields) {
        return Refused(Invalid);
      }
      if retired {
        return Refused(Retired);
      }
      if ended.Some? {
        return Refused(Conflict);
      }
      if r.sequence == sequence && digest == Some(r.digest) {
        return Replayed;
      }
      if r.sequence <= sequence {
        return Refused(Conflict);
      }
      if !policy.enabled {
        return Refused(Disabled);
      }
      if r.fields.scope != kind && r.fields.scope != Partial {
        return Refused(Invalid);
      }
      var changed := r.fields != fields;
      if r.stateSequence != stateSequence + (if changed then 1 else 0) {
        return Refused(Conflict);
      }
      if bound.None? {
        return Refused(Unavailable);
      }
      var times := NextTimes(Row(), r.fields.state, now, policy.stale, changed);
      classification := MaxClass(MaxClass(classification, r.classification), bound.value);
      sequence, stateSequence, digest, fields := r.sequence, r.stateSequence, Some(r.digest), r.fields;
      lastSeen, stateSince, idleSince := now, times.stateSince, times.idleSince;
      history := history + [Beat.Beat(now, r.fields, policy.stale)];
      answer := Accepted;
    }

    method Finish(seqno: nat, d: Digest, now: Time) returns (answer: Answer)
      modifies this
      ensures (Value(), answer) == End(old(Value()), seqno, d, now)
    {
      if retired {
        return Refused(Retired);
      }
      if ended.Some? {
        return if seqno == sequence && digest == Some(d) then Replayed else Refused(Conflict);
      }
      if seqno <= sequence {
        return Refused(Conflict);
      }
      sequence, digest, ended := seqno, Some(d), Some(now);
      answer := Accepted;
    }

    method Prune(now: Time)
      modifies this
      ensures Value() == Retire(old(Value()), now)
    {
      if !retired {
        retired, fields, idleSince := true, UNOBSERVED, None;
        if ended.None? {
          ended := Some(now);
        }
      }
    }
  }

  // ---------------------------------------------------------------- the retention sweep

  /** A live session whose last sign of life is before the cutoff. */
  predicate Outdated(o: Observed, cutoff: Time) {
    !o.row.retired && (if o.row.ended.Some? then o.row.ended.value else o.row.lastSeen) < cutoff
  }

  function CountOutdated(sessions: seq<Observed>, n: nat, cutoff: Time): nat
    requires n <= |sessions|
  {
    if n == 0 then 0 else CountOutdated(sessions, n - 1, cutoff) + if Outdated(sessions[n - 1], cutoff) then 1 else 0
  }

  /** Of the sessions, in the order of their last report, the first `limit` outdated ones are retired. */
  function Swept(sessions: seq<Observed>, cutoff: Time, limit: nat, now: Time): seq<Observed> {
    seq(|sessions|, i requires 0 <= i < |sessions| =>
      if Outdated(sessions[i], cutoff) && CountOutdated(sessions, i, cutoff) < limit
      then Retire(sessions[i], now) else sessions[i])
  }

  lemma {:induction false} CountGrows(sessions: seq<Observed>, i: nat, k: nat, cutoff: Time)
    requires i <= k <= |sessions|
    ensures CountOutdated(sessions, i, cutoff) <= CountOutdated(sessions, k, cutoff)
  {
    if i == k {
    } else {
      CountGrows(sessions, i, k - 1, cutoff);
    }
  }

  /** A sweep keeps the invariant, retires no more than its limit, and leaves nothing outdated when it stayed below
      it. */
  lemma SweepIsBounded(sessions: seq<Observed>, cutoff: Time, limit: nat, now: Time)
    requires forall k :: 0 <= k < |sessions| ==> Inv(sessions[k])
    ensures var after := Swept(sessions, cutoff, limit, now);
            && |after| == |sessions|
            && (forall k :: 0 <= k < |after| ==> Inv(after[k]))
            && (forall k :: 0 <= k < |after| ==>
                  after[k] == sessions[k]
                      || (Outdated(sessions[k], cutoff) && after[k].row.retired
                          && CountOutdated(sessions, k, cutoff) < limit))
            && (CountOutdated(sessions, |sessions|, cutoff) <= limit ==>
                  forall k :: 0 <= k < |after| ==> !Outdated(after[k], cutoff))
  {
    forall k | 0 <= k < |sessions|
      ensures Inv(Swept(sessions, cutoff, limit, now)[k])
      ensures CountOutdated(sessions, |sessions|, cutoff) <= limit ==>
              !Outdated(Swept(sessions, cutoff, limit, now)[k], cutoff)
    {
      StepKeepsInvariant(sessions[k], RetireStep(now));
      CountGrows(sessions, k + 1, |sessions|, cutoff);
    }
  }

  class SessionTable {
    var sessions: seq<Observed>

    /** The sweep stops at its limit and says how many sessions it retired. */
    method Sweep(cutoff: Time, limit: nat, now: Time) returns (retired: nat)
      modifies this
      ensures sessions == Swept(old(sessions), cutoff, limit, now)
      ensures retired == Min(limit, CountOutdated(old(sessions), |old(sessions)|, cutoff))
    {
      ghost var before := sessions;
      var i := 0;
      retired := 0;
      while i < |sessions| && retired < limit
        invariant 0 <= i <= |sessions| == |before|
        invariant retired == CountOutdated(before, i, cutoff) <= limit
        invariant forall k :: 0 <= k < i ==> sessions[k] == Swept(before, cutoff, limit, now)[k]
        invariant forall k :: i <= k < |sessions| ==> sessions[k] == before[k]
      {
        if Outdated(sessions[i], cutoff) {
          sessions := sessions[i := Retire(sessions[i], now)];
          retired := retired + 1;
        }
        i := i + 1;
      }
      forall k | i <= k < |sessions| ensures sessions[k] == Swept(before, cutoff, limit, now)[k] {
        CountGrows(before, i, k, cutoff);
      }
      CountGrows(before, i, |before|, cutoff);
    }
  }
}
