/** The token usage ledger (continuity/usage.py) and its counter arithmetic (continuity/usage_metrics.py).

A report carries absolute counters, so the latest one stands for everything reported before it. What makes that
sound is an order on counter snapshots, which every accepted report climbs. */
module Usage {
  import opened Common

  const MAX_TOKENS := 1_000_000_000_000
  const MAX_UNITS := 10_000
  const MAX_REVISIONS := 512

  // ---------------------------------------------------------------- counters

  datatype Method = PromptLength | ProviderEstimate

  datatype Reason =
    | NotReported | Unsupported | Truncated | Ambiguous | NotObserved
    | AwaitingResult | InvalidReport | NotApplicable | OutsideScope

  datatype Counter = Reported(value: nat) | Estimated(value: nat, how: Method) | Unavailable(reason: Reason)

  predicate Comparable(a: Counter, b: Counter) {
    (a.Reported? && b.Reported?) || (a.Estimated? && b.Estimated? && a.how == b.how)
  }

  /** The six counters of a snapshot, in the order of FIELDS. */
  const INPUT := 0
  const OUTPUT := 1
  const TOTAL := 2
  const CACHE_READ := 3
  const CACHE_WRITE := 4
  const REASONING := 5
  const FIELDS := 6

  type Metrics = seq<Counter>

  predicate Within(parent: Counter, part: Counter) {
    Comparable(parent, part) ==> part.value <= parent.value
  }

  /** Metrics.__post_init__: what a snapshot has to satisfy to be accepted at all. */
  predicate WellFormed(m: Metrics) {
    && |m| == FIELDS
    && (forall i :: 0 <= i < FIELDS && !m[i].Unavailable? ==> m[i].value <= MAX_TOKENS)
    && (Comparable(m[INPUT], m[OUTPUT]) && Comparable(m[TOTAL], m[INPUT]) ==>
         m[TOTAL].value == m[INPUT].value + m[OUTPUT].value)
    && Within(m[TOTAL], m[INPUT]) && Within(m[TOTAL], m[OUTPUT])
    && Within(m[INPUT], m[CACHE_READ]) && Within(m[INPUT], m[CACHE_WRITE]) && Within(m[OUTPUT], m[REASONING])
    && (Comparable(m[INPUT], m[CACHE_READ]) && Comparable(m[INPUT], m[CACHE_WRITE]) ==>
          m[CACHE_READ].value + m[CACHE_WRITE].value <= m[INPUT].value)
  }

  function Filled(given: seq<Option<Counter>>): Metrics
    requires |given| == FIELDS
  {
    seq(FIELDS, i requires 0 <= i < FIELDS => if given[i].Some? then given[i].value else Unavailable(NotReported))
  }

  /** normalize: missing fields become unavailable; only the total is ever derived. None stands for the rejected
      snapshot. */
  function Normalize(given: seq<Option<Counter>>): Option<Metrics>
    requires |given| == FIELDS
  {
    var filled := Filled(given);
    var a, b := filled[INPUT], filled[OUTPUT];
    var m :=
      if given[TOTAL].None? && Comparable(a, b) then
        filled[TOTAL := if a.Reported? then Reported(a.value + b.value) else Estimated(a.value + b.value, a.how)]
      else if given[TOTAL].None? && !a.Unavailable? && !b.Unavailable? then filled[TOTAL := Unavailable(Ambiguous)]
      else filled;
    if WellFormed(m) then Some(m) else None
  }

  /** Deriving a total never invents evidence and can only fail by exceeding the token bound: a snapshot without a total
      is accepted exactly when its parts are consistent and the sum of comparable input and output is representable. */
  lemma NormalizeDerivesOnlyTotals(given: seq<Option<Counter>>)
    requires |given| == FIELDS && given[TOTAL].None?
    ensures var unknown := Filled(given);
            var m := Normalize(given);
            && (m.Some? <==>
                  && WellFormed(unknown)
                  && (Comparable(unknown[INPUT], unknown[OUTPUT]) ==>
                       unknown[INPUT].value + unknown[OUTPUT].value <= MAX_TOKENS))
            && (m.Some? ==>
                  && (forall i :: 0 <= i < FIELDS && i != TOTAL ==> m.value[i] == unknown[i])
                  && (!m.value[TOTAL].Unavailable? <==> Comparable(unknown[INPUT], unknown[OUTPUT])))
  {
    var unknown := Filled(given);
    assert unknown[TOTAL].Unavailable?;
    if Normalize(given).Some? {
      var m := Normalize(given).value;
      assert forall i :: 0 <= i < FIELDS && i != TOTAL ==> m[i] == unknown[i];
    }
    if WellFormed(unknown) && Comparable(unknown[INPUT], unknown[OUTPUT])
        && unknown[INPUT].value + unknown[OUTPUT].value <= MAX_TOKENS {
      var sum := if unknown[INPUT].Reported? then Reported(unknown[INPUT].value + unknown[OUTPUT].value)
                 else Estimated(unknown[INPUT].value + unknown[OUTPUT].value, unknown[INPUT].how);
      assert WellFormed(unknown[TOTAL := sum]);
    }
  }

  // ---------------------------------------------------------------- the order of revisions

  predicate Supersedes(older: Counter, newer: Counter) {
    || older.Unavailable?
    || (older.Estimated? && newer.Reported?)
    || (Comparable(older, newer) && older.value <= newer.value)
  }

  predicate Revises(older: Metrics, newer: Metrics) {
    |older| == |newer| && forall i :: 0 <= i < |older| ==> Supersedes(older[i], newer[i])
  }

  /** validate_revision: stops at the first counter that resets, disappears or changes its method. */
  method ValidateRevision(previous: Metrics, current: Metrics) returns (ok: bool)
    requires |previous| == |current|
    ensures ok <==> Revises(previous, current)
  {
    for i := 0 to |previous|
      invariant forall k :: 0 <= k < i ==> Supersedes(previous[k], current[k])
    {
      var older, newer := previous[i], current[i];
      if older.Unavailable? {
        continue;
      }
      if older.Estimated? && newer.Reported? {
        continue;
      }
      if !Comparable(older, newer) || newer.value < older.value {
        return false;
      }
    }
    return true;
  }

  /** A preorder whose only ties are between unknown counters, so going back and forth between two different readings
      is impossible. */
  lemma RevisionIsPreorder(a: Metrics, b: Metrics, c: Metrics)
    ensures Revises(a, a)
    ensures Revises(a, b) && Revises(b, c) ==> Revises(a, c)
    ensures Revises(a, b) && Revises(b, a) <==>
              |a| == |b| && forall i :: 0 <= i < |a| ==> a[i] == b[i] || (a[i].Unavailable? && b[i].Unavailable?)
  {
    if Revises(a, b) && Revises(b, c) {
      forall i | 0 <= i < |a| ensures Supersedes(a[i], c[i]) {
        assert Supersedes(a[i], b[i]) && Supersedes(b[i], c[i]);
      }
    }
    if Revises(a, b) && Revises(b, a) {
      forall i | 0 <= i < |a| ensures a[i] == b[i] || (a[i].Unavailable? && b[i].Unavailable?) {
        assert Supersedes(a[i], b[i]) && Supersedes(b[i], a[i]);
      }
    }
  }

  // ---------------------------------------------------------------- the ledger of one session

  datatype Basis = SourceReported | ServerReceived | Provisional

  /** A report. The fingerprint of a report is injective, so equal fingerprints are equal reports. */
  datatype Request = Request(sequence: nat, metrics: Metrics, complete: bool, ending: bool, source: Option<Time>)

  datatype Receipt = Receipt(request: Request, at: Time, bucket: Time)

  /** `host` describes the reporting host, adapter, provider and model until the session is retired. */
  datatype Session = Session(
    host: string, created: Time, acceptsUntil: Time,
    sequence: nat, metrics: Option<Metrics>, complete: bool, ended: bool,
    first: Option<Time>, last: Option<Time>, bucket: Option<Time>, basis: Option<Basis>, source: Option<Time>,
    finalized: Option<Time>, retired: bool)

  /** The row, its receipts in the order they were taken, and how often its completion was announced. */
  datatype Ledger = Ledger(row: Session, receipts: seq<Receipt>, announced: nat)

  datatype Policy = Policy(enabled: bool, lateHours: nat)

  datatype Answer = Accepted(receipt: Receipt) | Replayed(receipt: Receipt) | Refused(error: Error)
  datatype Error = Invalid | Retired | Conflict | Disabled | TooLate | Limited

  const UNKNOWN := "unknown"

  function Registered(host: string, now: Time, lateHours: nat): Ledger {
    var until := now + 3600 * lateHours;
    Ledger(Session(host, now, until, 0, None, false, false, None, None, None, None, None, None, false), [], 0)
  }

  function Recorded(receipts: seq<Receipt>, sequence: nat): (r: Option<Receipt>)
    ensures r.Some? ==> r.value in receipts && r.value.request.sequence == sequence
    ensures r.None? ==> forall i :: 0 <= i < |receipts| ==> receipts[i].request.sequence != sequence
  {
    if receipts == [] then None
    else if receipts[0].request.sequence == sequence then Some(receipts[0])
    else Recorded(receipts[1..], sequence)
  }

  /** source_time: a plausible reported end of the run, else the time of receipt. */
  function SourceTime(source: Option<Time>, now: Time, hours: nat): (Time, Basis) {
    if source.Some? && now - 3600 * hours <= source.value <= now + 300
    then (source.value, SourceReported) else (now, ServerReceived)
  }

  predicate Acceptable(r: Request) {
    WellFormed(r.metrics) && (r.complete ==> !r.metrics[TOTAL].Unavailable?)
  }

  /** The answer of report when it records nothing, None when the report is taken.
      `room` says that the project-wide and per-minute limits leave room for one more receipt. */
  function Unrecorded(l: Ledger, r: Request, policy: Policy, room: bool, now: Time): Option<Answer> {
    var row := l.row;
    var previous := Recorded(l.receipts, r.sequence);
    if !Acceptable(r) then Some(Refused(Invalid))
    else if row.retired then Some(Refused(Retired))
    else if previous.Some?
        then Some(if previous.value.request == r then Replayed(previous.value) else Refused(Conflict))
    else if r.sequence <= row.sequence then Some(Refused(Conflict))
    else if !policy.enabled then Some(Refused(Disabled))
    else if now > Min(row.acceptsUntil, row.created + 3600 * policy.lateHours) then Some(Refused(TooLate))
    else if row.metrics.Some? && !Revises(row.metrics.value, r.metrics) then Some(Refused(Conflict))
    else if (row.ended && !r.ending) || (row.complete && !r.complete) then Some(Refused(Conflict))
    else if !room || |l.receipts| >= MAX_REVISIONS then Some(Refused(Limited))
    else if row.finalized.Some? && r.source != row.source then Some(Refused(Conflict))
    else None
  }

  function Attributed(row: Session, r: Request, hours: nat, now: Time): (Time, Basis) {
    if row.finalized.Some? && row.bucket.Some? && row.basis.Some? then (row.bucket.value, row.basis.value)
    else if r.ending then SourceTime(r.source, now, hours)
    else (if row.first.Some? then row.first.value else now, Provisional)
  }

  function Taken(row: Session, r: Request, hours: nat, now: Time): Session {
    var (bucket, basis) := Attributed(row, r, hours, now);
    row.(sequence := r.sequence, metrics := Some(r.metrics), complete := r.complete, ended := r.ending,
         first := if row.first.Some? then row.first else Some(now), last := Some(now),
         bucket := Some(bucket), basis := Some(basis), source := r.source,
         finalized := if row.finalized.Some? then row.finalized else if r.ending then Some(now) else None)
  }

  function Report(l: Ledger, r: Request, policy: Policy, room: bool, now: Time): (Ledger, Answer) {
    var answer := Unrecorded(l, r, policy, room, now);
    if answer.Some? then (l, answer.value)
    else
      var receipt := Receipt(r, now, Attributed(l.row, r, policy.lateHours, now).0);
      var announced := l.announced + if !l.row.ended && r.ending then 1 else 0;
      (Ledger(Taken(l.row, r, policy.lateHours, now), l.receipts + [receipt], announced), Accepted(receipt))
  }

  /** A live session whose bucket, or else whose registration, is before the cutoff. */
  predicate Outdated(l: Ledger, cutoff: Time) {
    !l.row.retired && (if l.row.bucket.Some? then l.row.bucket.value else l.row.created) < cutoff
  }

  /** prune: the retention sweep forgets the metrics of an old session and retires it. */
  function Prune(l: Ledger, cutoff: Time): Ledger {
    if !Outdated(l, cutoff) then l else l.(row := l.row.(retired := true, metrics := None, host := UNKNOWN))
  }

  datatype Step = ReportStep(r: Request, policy: Policy, room: bool, now: Time) | PruneStep(cutoff: Time)

  function Apply(l: Ledger, e: Step): Ledger {
    match e
    case ReportStep(r, policy, room, now) => Report(l, r, policy, room, now).0
    case PruneStep(cutoff) => Prune(l, cutoff)
  }

  function Run(l: Ledger, es: seq<Step>): Ledger
    decreases |es|
  {
    if es == [] then l else Apply(Run(l, es[..|es| - 1]), es[|es| - 1])
  }

  // ---------------------------------------------------------------- what every run keeps

  /** How a later receipt relates to an earlier one of the same session. */
  predicate Follows(a: Receipt, b: Receipt) {
    && a.request.sequence < b.request.sequence
    && Revises(a.request.metrics, b.request.metrics)
    && (a.request.complete ==> b.request.complete)
    && (a.request.ending ==> b.request.ending && b.bucket == a.bucket && b.request.source == a.request.source)
  }

  /** The row is the last receipt. */
  predicate RowIsLast(row: Session, receipts: seq<Receipt>) {
    if receipts == [] then
      && row.sequence == 0 && row.metrics.None? && !row.complete && !row.ended
      && row.first.None? && row.bucket.None? && row.finalized.None?
    else
      var last := receipts[|receipts| - 1];
      && row.sequence == last.request.sequence && row.complete == last.request.complete
      && row.ended == last.request.ending
      && row.source == last.request.source && row.bucket == Some(last.bucket) && row.basis.Some?
      && row.first == Some(receipts[0].at) && row.last == Some(last.at)
      && (row.finalized.Some? <==> row.ended)
      && (row.metrics == if row.retired then None else Some(last.request.metrics))
  }

  predicate Shaped(row: Session) {
    && (row.finalized.Some? ==> row.bucket.Some? && row.basis.Some?)
    && (row.metrics.Some? ==> |row.metrics.value| == FIELDS)
  }

  predicate AreOrdered(receipts: seq<Receipt>, i: nat, j: nat) {
    i < j < |receipts| ==> Follows(receipts[i], receipts[j])
  }

  predicate Inv(l: Ledger) {
    && RowIsLast(l.row, l.receipts)
    && (forall i: nat, j: nat :: i < j < |l.receipts| ==> AreOrdered(l.receipts, i, j))
    && (forall i :: 0 <= i < |l.receipts| ==> Acceptable(l.receipts[i].request))
    && (forall i :: 0 <= i < |l.receipts| && !l.receipts[i].request.ending ==> l.receipts[i].bucket == l.receipts[0].at)
    && |l.receipts| <= MAX_REVISIONS
    && l.announced == (if l.row.ended then 1 else 0)
  }

  lemma InvariantShapes(l: Ledger)
    requires Inv(l)
    ensures Shaped(l.row)
  {
    if l.receipts != [] {
      assert Acceptable(l.receipts[|l.receipts| - 1].request);
    }
  }

  lemma NewestFollowsAll(l: Ledger, b: Receipt, i: nat)
    requires Inv(l) && i < |l.receipts| && Follows(l.receipts[|l.receipts| - 1], b)
    ensures Follows(l.receipts[i], b)
  {
    var last := |l.receipts| - 1;
    if i < last {
      assert AreOrdered(l.receipts, i, last);
      RevisionIsPreorder(l.receipts[i].request.metrics, l.receipts[last].request.metrics, b.request.metrics);
    }
  }

  lemma AcceptedFollows(l: Ledger, r: Request, policy: Policy, room: bool, now: Time)
    requires Inv(l) && Report(l, r, policy, room, now).1.Accepted?
    ensures var b := Report(l, r, policy, room, now).1.receipt;
            && Report(l, r, policy, room, now).0.receipts == l.receipts + [b]
            && b.request == r && b.at == now
            && (l.receipts != [] ==> Follows(l.receipts[|l.receipts| - 1], b))
            && RowIsLast(Report(l, r, policy, room, now).0.row, l.receipts + [b])
            && (!r.ending ==> b.bucket == if l.receipts == [] then now else l.receipts[0].at)
  {
  }

  lemma StepKeepsInvariant(l: Ledger, e: Step)
    requires Inv(l)
    ensures Inv(Apply(l, e))
    ensures l.receipts <= Apply(l, e).receipts
    ensures l.row.retired ==> Apply(l, e) == l
  {
    if e.ReportStep? && Report(l, e.r, e.policy, e.room, e.now).1.Accepted? {
      AcceptedFollows(l, e.r, e.policy, e.room, e.now);
      var v := Apply(l, e);
      var b := v.receipts[|l.receipts|];
      forall i: nat, j: nat | i < j < |v.receipts| ensures AreOrdered(v.receipts, i, j) {
        if j < |l.receipts| {
          assert AreOrdered(l.receipts, i, j);
        } else {
          NewestFollowsAll(l, b, i);
        }
      }
    }
  }

  /** In every reachable state the invariant holds, and with it what the methods below rely on. */
  lemma {:induction false} RunKeepsInvariant(host: string, start: Time, hours: nat, es: seq<Step>)
    ensures Inv(Run(Registered(host, start, hours), es)) && Shaped(Run(Registered(host, start, hours), es).row)
  {
    if es == [] {
    } else {
      RunKeepsInvariant(host, start, hours, es[..|es| - 1]);
      StepKeepsInvariant(Run(Registered(host, start, hours), es[..|es| - 1]), es[|es| - 1]);
    }
    InvariantShapes(Run(Registered(host, start, hours), es));
  }

  lemma {:induction false} RunExtends(l: Ledger, es: seq<Step>)
    requires Inv(l)
    ensures Inv(Run(l, es)) && l.receipts <= Run(l, es).receipts
    ensures l.row.retired ==> Run(l, es) == l
    decreases |es|
  {
    if es == [] {
    } else {
      RunExtends(l, es[..|es| - 1]);
      StepKeepsInvariant(Run(l, es[..|es| - 1]), es[|es| - 1]);
    }
  }

  /** The latest value stands for the whole history: while a session is live its metrics revise every report ever
      accepted, and no two receipts of it disagree about a finished run. */
  lemma LatestDominates(host: string, start: Time, hours: nat, es: seq<Step>, i: nat)
    requires i < |Run(Registered(host, start, hours), es).receipts|
    ensures var l := Run(Registered(host, start, hours), es);
            var earlier := l.receipts[i];
            && (!l.row.retired ==> l.row.metrics.Some? && Revises(earlier.request.metrics, l.row.metrics.value))
            && earlier.request.sequence <= l.row.sequence
            && (earlier.request.complete ==> l.row.complete)
            && (earlier.request.ending ==>
                  && l.row.ended && l.row.bucket == Some(earlier.bucket) && l.row.source == earlier.request.source)
            && l.announced <= 1 && (l.announced == 1 <==> l.row.ended)
  {
    var l := Run(Registered(host, start, hours), es);
    RunKeepsInvariant(host, start, hours, es);
    var last := |l.receipts| - 1;
    if i < last {
      assert AreOrdered(l.receipts, i, last);
    }
    RevisionIsPreorder(l.receipts[i].request.metrics, l.receipts[i].request.metrics, l.receipts[i].request.metrics);
  }

  lemma {:induction false} RecordedIsUnique(receipts: seq<Receipt>, i: nat)
    requires i < |receipts|
    requires forall j: nat, k: nat :: j < k < |receipts| ==> AreOrdered(receipts, j, k)
    ensures Recorded(receipts, receipts[i].request.sequence) == Some(receipts[i])
  {
    if i > 0 {
      assert AreOrdered(receipts, 0, i);
      assert forall j: nat, k: nat :: j < k < |receipts[1..]| ==> AreOrdered(receipts[1..], j, k) by {
        forall j: nat, k: nat | j < k < |receipts[1..]| ensures AreOrdered(receipts[1..], j, k) {
          assert AreOrdered(receipts, j + 1, k + 1);
        }
      }
      RecordedIsUnique(receipts[1..], i - 1);
    }
  }

  /** A report once accepted is answered with its own receipt and changes nothing, whatever happened in between and
      whatever the policy says by then, until the session is retired; the same sequence with any other content is
      refused. */
  lemma ReplayIsInert(l: Ledger, i: nat, es: seq<Step>, r: Request, policy: Policy, room: bool, now: Time)
    requires Inv(l) && i < |l.receipts| && !Run(l, es).row.retired
    requires r.sequence == l.receipts[i].request.sequence && Acceptable(r)
    ensures Report(Run(l, es), r, policy, room, now)
              == (Run(l, es), if r == l.receipts[i].request then Replayed(l.receipts[i]) else Refused(Conflict))
  {
    RunExtends(l, es);
    var v := Run(l, es);
    assert v.receipts[i] == l.receipts[i];
    RecordedIsUnique(v.receipts, i);
  }

  /** The row trigger of migration 012, as a condition on an update. */
  predicate GuardAllows(was: Session, row: Session) {
    && !was.retired && was.sequence <= row.sequence
    && row.created == was.created && row.acceptsUntil == was.acceptsUntil && (!row.retired ==> row.host == was.host)
    && (was.first.Some? ==> row.first == was.first)
    && (was.finalized.Some? ==> row.finalized == was.finalized && row.bucket == was.bucket && row.ended == was.ended)
  }

  /** The trigger is a second line of defence that never fires: every update the service makes satisfies it. */
  lemma GuardNeverFires(host: string, start: Time, hours: nat, es: seq<Step>, e: Step)
    ensures var l := Run(Registered(host, start, hours), es);
            Apply(l, e).row != l.row ==> GuardAllows(l.row, Apply(l, e).row)
  {
    RunKeepsInvariant(host, start, hours, es);
  }

  // ---------------------------------------------------------------- the row, updated in place

  class UsageRow {
    var host: string
    const created: Time
    const acceptsUntil: Time
    var sequence: nat
    var metrics: Option<Metrics>
    var complete: bool
    var ended: bool
    var first: Option<Time>
    var last: Option<Time>
    var bucket: Option<Time>
    var basis: Option<Basis>
    var source: Option<Time>
    var finalized: Option<Time>
    var retired: bool
    var receipts: seq<Receipt>
    var announced: nat

    constructor (host: string, now: Time, lateHours: nat)
      ensures Valid() && Value() == Registered(host, now, lateHours)
    {
      this.host := host;
      created, acceptsUntil, sequence, metrics, complete, ended := now, now + 3600 * lateHours, 0, None, false, false;
      first, last, bucket, basis, source, finalized, retired := None, None, None, None, None, None, false;
      receipts, announced := [], 0;
    }

    function Row(): Session
      reads this
    {
      Session(host, created, acceptsUntil, sequence, metrics, complete, ended,
              first, last, bucket, basis, source, finalized, retired)
    }

    function Value(): Ledger
      reads this
    {
      Ledger(Row(), receipts, announced)
    }

    /** The part of the invariant an update relies on. */
    predicate Valid()
      reads this
    {
      Shaped(Row())
    }

    method Check(r: Request, policy: Policy, room: bool, now: Time) returns (answer: Option<Answer>)
      requires Valid()
      ensures answer == Unrecorded(Value(), r, policy, room, now)
    {
      if !Acceptable(r) {
        return Some(Refused(Invalid));
      }
      if retired {
        return Some(Refused(Retired));
      }
      var previous := Recorded(receipts, r.sequence);
      if previous.Some? {
        return Some(if previous.value.request == r then Replayed(previous.value) else Refused(Conflict));
      }
      if r.sequence <= sequence {
        return Some(Refused(Conflict));
      }
      if !policy.enabled {
        return Some(Refused(Disabled));
      }
      if now > Min(acceptsUntil, created + 3600 * policy.lateHours) {
        return Some(Refused(TooLate));
      }
      if metrics.Some? {
        var ok := ValidateRevision(metrics.value, r.metrics);
        if !ok {
          return Some(Refused(Conflict));
        }
      }
      if (ended && !r.ending) || (complete && !r.complete) {
        return Some(Refused(Conflict));
      }
      if !room || |receipts| >= MAX_REVISIONS {
        return Some(Refused(Limited));
      }
      if finalized.Some? && r.source != source {
        return Some(Refused(Conflict));
      }
      return None;
    }

    /** Which day the run counts for: pinned once final, decided when it ends, provisional before. */
    method Attribute(r: Request, hours: nat, now: Time)
      requires Valid()
      modifies this`first, this`bucket, this`basis, this`finalized
      ensures first == if old(first).Some? then old(first) else Some(now)
      ensures var (day, why) := Attributed(old(Row()), r, hours, now); bucket == Some(day) && basis == Some(why)
      ensures finalized == if old(finalized).Some? then old(finalized) else if r.ending then Some(now) else None
    {
      first := if first.Some? then first else Some(now);
      if finalized.None? {
        if r.ending {
          var attributed := SourceTime(r.source, now, hours);
          bucket, basis, finalized := Some(attributed.0), Some(attributed.1), Some(now);
        } else {
          bucket, basis := first, Some(Provisional);
        }
      }
    }

    /** The update of the session row. */
    method Take(r: Request, hours: nat, now: Time)
      requires Valid()
      modifies this
      ensures Row() == Taken(old(Row()), r, hours, now)
      ensures bucket == Some(Attributed(old(Row()), r, hours, now).0)
      ensures receipts == old(receipts) && announced == old(announced)
    {
      Attribute(r, hours, now);
      sequence, metrics, complete, ended := r.sequence, Some(r.metrics), r.complete, r.ending;
      last, source := Some(now), r.source;
    }

    method Submit(r: Request, policy: Policy, room: bool, now: Time) returns (answer: Answer)
      requires Valid()
      modifies this
      ensures Valid()
      ensures (Value(), answer) == Report(old(Value()), r, policy, room, now)
    {
      var unrecorded := Check(r, policy, room, now);
      if unrecorded.Some? {
        return unrecorded.value;
      }
      var finished := !ended && r.ending;
      Take(r, policy.lateHours, now);
      var receipt := Receipt.Receipt(r, now, bucket.value);
      receipts := receipts + [receipt];
      announced := announced + if finished then 1 else 0;
      answer := Accepted(receipt);
    }

    method Forget(cutoff: Time)
      requires Valid()
      modifies this
      ensures Valid() && Value() == Prune(old(Value()), cutoff)
    {
      var age := if bucket.Some? then bucket.value else created;
      if !retired && age < cutoff {
        retired, metrics, host := true, None, UNKNOWN;
      }
    }
  }

  // ---------------------------------------------------------------- the retention sweep

  function CountOutdated(sessions: seq<Ledger>, n: nat, cutoff: Time): nat
    requires n <= |sessions|
  {
    if n == 0 then 0 else CountOutdated(sessions, n - 1, cutoff) + if Outdated(sessions[n - 1], cutoff) then 1 else 0
  }

  /** Of the sessions, in the order of their registration, the first `limit` outdated ones are pruned. */
  function Swept(sessions: seq<Ledger>, cutoff: Time, limit: nat): seq<Ledger> {
    seq(|sessions|, i requires 0 <= i < |sessions| =>
      if CountOutdated(sessions, i, cutoff) < limit then Prune(sessions[i], cutoff) else sessions[i])
  }

  lemma {:induction false} CountGrows(sessions: seq<Ledger>, i: nat, k: nat, cutoff: Time)
    requires i <= k <= |sessions|
    ensures CountOutdated(sessions, i, cutoff) <= CountOutdated(sessions, k, cutoff)
  {
    if i == k {
    } else {
      CountGrows(sessions, i, k - 1, cutoff);
    }
  }

  lemma PruneKeepsInvariant(l: Ledger, cutoff: Time)
    requires Inv(l)
    ensures Inv(Prune(l, cutoff)) && Prune(l, cutoff).receipts == l.receipts
  {
    StepKeepsInvariant(l, PruneStep(cutoff));
  }

  /** A sweep keeps the invariant and every receipt. */
  lemma SweepKeepsInvariant(sessions: seq<Ledger>, cutoff: Time, limit: nat, k: nat)
    requires k < |sessions| && Inv(sessions[k])
    ensures Inv(Swept(sessions, cutoff, limit)[k]) && Swept(sessions, cutoff, limit)[k].receipts == sessions[k].receipts
  {
    PruneKeepsInvariant(sessions[k], cutoff);
  }

  /** A sweep prunes no more than its limit, the oldest first, and leaves nothing outdated when it stayed below it. */
  lemma SweepIsBounded(sessions: seq<Ledger>, cutoff: Time, limit: nat)
    ensures var after := Swept(sessions, cutoff, limit);
            && |after| == |sessions|
            && (forall k :: 0 <= k < |after| ==>
                  || after[k] == sessions[k]
                  || (Outdated(sessions[k], cutoff) && after[k].row.retired
                      && CountOutdated(sessions, k, cutoff) < limit))
            && (CountOutdated(sessions, |sessions|, cutoff) <= limit ==>
                  forall k :: 0 <= k < |after| ==> !Outdated(after[k], cutoff))
  {
    forall k | 0 <= k < |sessions|
      ensures CountOutdated(sessions, |sessions|, cutoff) <= limit ==>
              !Outdated(Swept(sessions, cutoff, limit)[k], cutoff)
    {
      CountGrows(sessions, k + 1, |sessions|, cutoff);
    }
  }

  class SessionTable {
    var sessions: seq<Ledger>

    /** The sweep stops at its limit and says how many sessions it pruned. */
    method Sweep(cutoff: Time, limit: nat) returns (pruned: nat)
      modifies this
      ensures sessions == Swept(old(sessions), cutoff, limit)
      ensures pruned == Min(limit, CountOutdated(old(sessions), |old(sessions)|, cutoff))
    {
      ghost var before := sessions;
      var i := 0;
      pruned := 0;
      while i < |sessions| && pruned < limit
        invariant 0 <= i <= |sessions| == |before|
        invariant pruned == CountOutdated(before, i, cutoff) <= limit
        invariant forall k :: 0 <= k < i ==> sessions[k] == Swept(before, cutoff, limit)[k]
        invariant forall k :: i <= k < |sessions| ==> sessions[k] == before[k]
      {
        if Outdated(sessions[i], cutoff) {
          sessions := sessions[i := Prune(sessions[i], cutoff)];
          pruned := pruned + 1;
        }
        i := i + 1;
      }
      forall k | i <= k < |sessions| ensures sessions[k] == Swept(before, cutoff, limit)[k] {
        CountGrows(before, i, k, cutoff);
      }
      CountGrows(before, i, |before|, cutoff);
    }
  }

  // ---------------------------------------------------------------- aggregation

  type Snapshot = m: Metrics | |m| == FIELDS witness seq(FIELDS, i => Unavailable(NotReported))

  type Field = i: nat | i < FIELDS

  /** What a snapshot contributes to one figure of the aggregate. */
  datatype Figure =
    | KnownUnits(reported: bool, field: Field)
    | Tokens(reported: bool, field: Field)
    | Missing(field: Field)
    | Omitted(reason: Reason)

  predicate OfQuality(c: Counter, reported: bool) { if reported then c.Reported? else c.Estimated? }

  function OmissionsIn(m: seq<Counter>, reason: Reason): nat {
    if m == [] then 0 else (if m[0] == Unavailable(reason) then 1 else 0) + OmissionsIn(m[1..], reason)
  }

  function Share(m: Snapshot, f: Figure): nat
  {
    match f
    case KnownUnits(q, i) => if OfQuality(m[i], q) then 1 else 0
    case Tokens(q, i) => if OfQuality(m[i], q) then m[i].value else 0
    case Missing(i) => if m[i].Unavailable? then 1 else 0
    case Omitted(reason) => OmissionsIn(m, reason)
  }

  function Sum(ms: seq<Snapshot>, f: Figure): nat
  {
    if ms == [] then 0 else Sum(ms[..|ms| - 1], f) + Share(ms[|ms| - 1], f)
  }

  function MethodsOf(ms: seq<Snapshot>, i: Field): set<Method>
  {
    set k | 0 <= k < |ms| && ms[k][i].Estimated? :: ms[k][i].how
  }

  /** Aggregation distributes over concatenation. */
  lemma {:induction false} SumOfParts(a: seq<Snapshot>, b: seq<Snapshot>, f: Figure)
    ensures Sum(a + b, f) == Sum(a, f) + Sum(b, f)
  {
    if b == [] {
      assert a + b == a;
    } else {
      var init := b[..|b| - 1];
      SumOfParts(a, init, f);
      assert (a + b)[..|a + b| - 1] == a + init;
    }
  }

  lemma SumWithout(b: seq<Snapshot>, k: nat, f: Figure)
    requires k < |b|
    ensures var rest := b[..k] + b[k + 1..];
            multiset(rest) == multiset(b) - multiset{b[k]} && Sum(b, f) == Sum(rest, f) + Share(b[k], f)
  {
    assert b == b[..k + 1] + b[k + 1..];
    assert b == b[..k] + [b[k]] + b[k + 1..];
    SumOfParts(b[..k + 1], b[k + 1..], f);
    SumOfParts(b[..k], b[k + 1..], f);
    assert b[..k + 1][..k] == b[..k];
  }

  lemma WithoutLast(a: seq<Snapshot>)
    requires a != []
    ensures multiset(a[..|a| - 1]) == multiset(a) - multiset{a[|a| - 1]}
  {
    assert a == a[..|a| - 1] + [a[|a| - 1]];
  }

  lemma SameElement(a: seq<Snapshot>, b: seq<Snapshot>, n: nat) returns (k: nat)
    requires n < |a| && multiset(a) == multiset(b)
    ensures k < |b| && b[k] == a[n]
  {
    assert a[n] in multiset(b);
    k :| k < |b| && b[k] == a[n];
  }

  /** The figures depend only on which units are supplied, not on their order. */
  lemma {:induction false} OrderIsIrrelevant(a: seq<Snapshot>, b: seq<Snapshot>, f: Figure)
    requires multiset(a) == multiset(b)
    ensures Sum(a, f) == Sum(b, f)
    decreases |a|
  {
    if a == [] {
      assert |multiset(a)| == |multiset(b)| == 0;
    } else {
      var n := |a| - 1;
      var k := SameElement(a, b, n);
      SumWithout(b, k, f);
      WithoutLast(a);
      OrderIsIrrelevant(a[..n], b[..k] + b[k + 1..], f);
    }
  }

  lemma MethodsIgnoreOrder(a: seq<Snapshot>, b: seq<Snapshot>, i: Field)
    requires multiset(a) == multiset(b)
    ensures MethodsOf(a, i) == MethodsOf(b, i)
  {
    forall k | 0 <= k < |a| && a[k][i].Estimated? ensures a[k][i].how in MethodsOf(b, i) {
      assert a[k] in multiset(b);
      var j :| 0 <= j < |b| && b[j] == a[k];
    }
    forall k | 0 <= k < |b| && b[k][i].Estimated? ensures b[k][i].how in MethodsOf(a, i) {
      assert b[k] in multiset(a);
      var j :| 0 <= j < |a| && a[j] == b[k];
    }
  }

  /** Every unit is counted exactly once for every field. */
  lemma {:induction false} EveryUnitOnce(ms: seq<Snapshot>, i: Field)
    ensures Sum(ms, KnownUnits(true, i)) + Sum(ms, KnownUnits(false, i)) + Sum(ms, Missing(i)) == |ms|
  {
    if ms == [] {
    } else {
      EveryUnitOnce(ms[..|ms| - 1], i);
    }
  }

  /** The supplied units that know field i, with the given quality. */
  function Knowing(ms: seq<Snapshot>, q: bool, i: Field): seq<Snapshot> {
    if ms == [] then []
    else Knowing(ms[..|ms| - 1], q, i) + if OfQuality(ms[|ms| - 1][i], q) then [ms[|ms| - 1]] else []
  }

  /** An unknown counter adds nothing: the total is that of the units which know the field, and the count is their
      number. */
  lemma {:induction false} UnknownAddsNothing(ms: seq<Snapshot>, q: bool, i: Field)
    ensures Sum(ms, Tokens(q, i)) == Sum(Knowing(ms, q, i), Tokens(q, i))
    ensures Sum(ms, KnownUnits(q, i)) == |Knowing(ms, q, i)|
    ensures forall m :: m in Knowing(ms, q, i) ==> OfQuality(m[i], q)
  {
    if ms == [] {
    } else {
      var init, last := ms[..|ms| - 1], ms[|ms| - 1];
      UnknownAddsNothing(init, q, i);
      var known := Knowing(init, q, i);
      if OfQuality(last[i], q) {
        assert (known + [last])[..|known|] == known;
      } else {
        assert known + [] == known;
      }
    }
  }

  /** The tokens of a field are bounded by what its known units can carry. */
  lemma {:induction false} TokensAreBounded(ms: seq<Snapshot>, q: bool, i: Field)
    requires forall k :: 0 <= k < |ms| ==> WellFormed(ms[k])
    ensures Sum(ms, Tokens(q, i)) <= MAX_TOKENS * Sum(ms, KnownUnits(q, i))
  {
    if ms == [] {
    } else {
      TokensAreBounded(ms[..|ms| - 1], q, i);
    }
  }

  function AllMissing(ms: seq<Snapshot>): nat
  {
    Sum(ms, Missing(0)) + Sum(ms, Missing(1)) + Sum(ms, Missing(2))
    + Sum(ms, Missing(3)) + Sum(ms, Missing(4)) + Sum(ms, Missing(5))
  }

  function AllOmissions(ms: seq<Snapshot>): nat
  {
    Sum(ms, Omitted(NotReported)) + Sum(ms, Omitted(Unsupported))
    + Sum(ms, Omitted(Truncated)) + Sum(ms, Omitted(Ambiguous))
    + Sum(ms, Omitted(NotObserved)) + Sum(ms, Omitted(AwaitingResult)) + Sum(ms, Omitted(InvalidReport))
    + Sum(ms, Omitted(NotApplicable)) + Sum(ms, Omitted(OutsideScope))
  }

  function MissingIn(m: seq<Counter>): nat {
    if m == [] then 0 else (if m[0].Unavailable? then 1 else 0) + MissingIn(m[1..])
  }

  lemma {:induction false} ReasonsCoverMissing(m: seq<Counter>)
    ensures OmissionsIn(m, NotReported) + OmissionsIn(m, Unsupported)
            + OmissionsIn(m, Truncated) + OmissionsIn(m, Ambiguous)
            + OmissionsIn(m, NotObserved) + OmissionsIn(m, AwaitingResult) + OmissionsIn(m, InvalidReport)
            + OmissionsIn(m, NotApplicable) + OmissionsIn(m, OutsideScope) == MissingIn(m)
  {
    if m == [] {
    } else {
      ReasonsCoverMissing(m[1..]);
      if m[0].Unavailable? {
        match m[0].reason
        case NotReported => assert m[0] == Unavailable(NotReported);
        case Unsupported => assert m[0] == Unavailable(Unsupported);
        case Truncated => assert m[0] == Unavailable(Truncated);
        case Ambiguous => assert m[0] == Unavailable(Ambiguous);
        case NotObserved => assert m[0] == Unavailable(NotObserved);
        case AwaitingResult => assert m[0] == Unavailable(AwaitingResult);
        case InvalidReport => assert m[0] == Unavailable(InvalidReport);
        case NotApplicable => assert m[0] == Unavailable(NotApplicable);
        case OutsideScope => assert m[0] == Unavailable(OutsideScope);
      }
    }
  }

  lemma MissingBySix(m: Snapshot)
    ensures MissingIn(m) == Share(m, Missing(0)) + Share(m, Missing(1)) + Share(m, Missing(2))
                            + Share(m, Missing(3)) + Share(m, Missing(4)) + Share(m, Missing(5))
  {
    assert m[0..] == m && MissingIn(m[6..]) == 0;
    forall i | 0 <= i < FIELDS
        ensures MissingIn(m[i..]) == (if m[i].Unavailable? then 1 else 0) + MissingIn(m[i + 1..]) {
      assert m[i..][1..] == m[i + 1..];
    }
    assert MissingIn(m[4..]) == Share(m, Missing(4)) + Share(m, Missing(5));
  }

  /** Every missing counter is explained by exactly one reason. */
  lemma {:induction false} EveryOmissionExplained(ms: seq<Snapshot>)
    ensures AllMissing(ms) == AllOmissions(ms)
  {
    if ms == [] {
    } else {
      EveryOmissionExplained(ms[..|ms| - 1]);
      ReasonsCoverMissing(ms[|ms| - 1]);
      MissingBySix(ms[|ms| - 1]);
    }
  }

  datatype Coverage = NoObservations | Full | Part

  datatype Totals = Totals(tokens: Option<nat>, known: nat, missing: nat, coverage: Coverage, methods: set<Method>)

  datatype Aggregated = Aggregated(
    observed: nat, reported: seq<Totals>, estimated: seq<Totals>, omissions: map<Reason, nat>)

  /** What the aggregate means, figure by figure. */
  ghost predicate IsTotal(t: Totals, ms: seq<Snapshot>, reported: bool, i: Field)
  {
    && t.known == Sum(ms, KnownUnits(reported, i)) && t.known + t.missing == |ms|
    && t.tokens == (if t.known == 0 then None else Some(Sum(ms, Tokens(reported, i))))
    && t.coverage == (if ms == [] then NoObservations else if t.known == |ms| then Full else Part)
    && t.methods == (if reported then {} else MethodsOf(ms, i))
  }

  ghost predicate IsAggregate(a: Aggregated, ms: seq<Snapshot>)
  {
    && a.observed == |ms| && |a.reported| == FIELDS && |a.estimated| == FIELDS
    && (forall i: Field :: IsTotal(a.reported[i], ms, true, i) && IsTotal(a.estimated[i], ms, false, i))
    && (forall r: Reason ::
         (r in a.omissions <==> Sum(ms, Omitted(r)) > 0)
             && (r in a.omissions ==> a.omissions[r] == Sum(ms, Omitted(r))))
  }

  /** Two aggregates of the same units in any order are the same. */
  lemma AggregateIgnoresOrder(a: Aggregated, ms: seq<Snapshot>, b: Aggregated, ns: seq<Snapshot>)
    requires IsAggregate(a, ms) && IsAggregate(b, ns) && multiset(ms) == multiset(ns)
    ensures a == b
  {
    assert |ms| == |multiset(ms)| == |ns|;
    forall i: Field ensures a.reported[i] == b.reported[i] && a.estimated[i] == b.estimated[i] {
      assert IsTotal(a.reported[i], ms, true, i) && IsTotal(b.reported[i], ns, true, i);
      assert IsTotal(a.estimated[i], ms, false, i) && IsTotal(b.estimated[i], ns, false, i);
      forall q: bool
          ensures Sum(ms, KnownUnits(q, i)) == Sum(ns, KnownUnits(q, i))
          ensures Sum(ms, Tokens(q, i)) == Sum(ns, Tokens(q, i)) {
        OrderIsIrrelevant(ms, ns, KnownUnits(q, i));
        OrderIsIrrelevant(ms, ns, Tokens(q, i));
      }
      MethodsIgnoreOrder(ms, ns, i);
    }
    forall r: Reason ensures Sum(ms, Omitted(r)) == Sum(ns, Omitted(r)) {
      OrderIsIrrelevant(ms, ns, Omitted(r));
    }
    assert a.omissions == b.omissions;
    assert a.reported == b.reported && a.estimated == b.estimated;
  }

  method Total(ms: seq<Snapshot>, reported: bool, i: Field) returns (t: Totals)
    ensures IsTotal(t, ms, reported, i)
  {
    var known, tokens, methods := 0, 0, {};
    EveryUnitOnce(ms, i);
    for k := 0 to |ms|
      invariant known == Sum(ms[..k], KnownUnits(reported, i)) && tokens == Sum(ms[..k], Tokens(reported, i))
      invariant 0 <= known <= k
      invariant methods == if reported then {} else MethodsOf(ms[..k], i)
    {
      assert ms[..k + 1][..k] == ms[..k];
      var c := ms[k][i];
      ghost var before := MethodsOf(ms[..k], i);
      if OfQuality(c, reported) {
        known, tokens := known + 1, tokens + c.value;
        if c.Estimated? {
          methods := methods + {c.how};
          assert ms[..k + 1][k][i] == c;
        }
      }
      assert MethodsOf(ms[..k + 1], i) == before + if c.Estimated? then {c.how} else {} by {
        assert forall j :: 0 <= j < k ==> ms[..k + 1][j] == ms[..k][j];
        assert ms[..k + 1][k] == ms[k];
      }
    }
    assert ms[..|ms|] == ms;
    t := Totals(if known == 0 then None else Some(tokens), known, |ms| - known,
                if |ms| == 0 then NoObservations else if known == |ms| then Full else Part, methods);
  }

  method Omissions(ms: seq<Snapshot>) returns (reasons: map<Reason, nat>)
    ensures forall r: Reason :: r in reasons <==> Sum(ms, Omitted(r)) > 0
    ensures forall r: Reason :: r in reasons ==> reasons[r] == Sum(ms, Omitted(r))
  {
    reasons := map[];
    for k := 0 to |ms|
      invariant forall r: Reason :: (if r in reasons then reasons[r] else 0) == Sum(ms[..k], Omitted(r))
      invariant forall r: Reason :: r in reasons ==> reasons[r] > 0
    {
      assert ms[..k + 1][..k] == ms[..k];
      var m := ms[k];
      for j := 0 to FIELDS
        invariant forall r: Reason ::
                (if r in reasons then reasons[r] else 0) + OmissionsIn(m[j..], r) == Sum(ms[..k + 1], Omitted(r))
        invariant forall r: Reason :: r in reasons ==> reasons[r] > 0
      {
        assert m[j..][1..] == m[j + 1..];
        if m[j].Unavailable? {
          var reason := m[j].reason;
          reasons := reasons[reason := (if reason in reasons then reasons[reason] else 0) + 1];
        }
      }
      assert m[FIELDS..] == [];
    }
    assert ms[..|ms|] == ms;
  }

  /** aggregate: None stands for the refusal of an oversized set. */
  method Aggregate(ms: seq<Snapshot>) returns (r: Option<Aggregated>)
    ensures r.Some? <==> |ms| <= MAX_UNITS
    ensures r.Some? ==> IsAggregate(r.value, ms)
  {
    if |ms| > MAX_UNITS {
      return None;
    }
    var reported, estimated := [], [];
    for i := 0 to FIELDS
      invariant |reported| == |estimated| == i
      invariant forall k: Field :: k < i ==> IsTotal(reported[k], ms, true, k) && IsTotal(estimated[k], ms, false, k)
    {
      var t := Total(ms, true, i);
      var e := Total(ms, false, i);
      reported, estimated := reported + [t], estimated + [e];
    }
    var omissions := Omissions(ms);
    r := Some(Aggregated.Aggregated(|ms|, reported, estimated, omissions));
  }
}
