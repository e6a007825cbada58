/** The generation job queue (generation/queue.py, generation/worker.py).

Every transaction here runs under the project lock, so each is one step; workers hold only the
row they were given when they claimed, and come back with it at any later time. */
module JobQueue {
  import opened Common

  const LIFETIME_ATTEMPTS := 30
  const DEFAULT_ATTEMPTS := 3
  const REDRIVE_ATTEMPTS := 3
  const DRAIN_BATCH := 100

  datatype Status = Queued | Running | Succeeded | Dead

  datatype Lease = Lease(token: Digest, until: Time)
  datatype RedriveMark = RedriveMark(version: int, actor: User)

  /** A job row with its attempt rows: None is an unfinished attempt, Some its outcome code. */
  datatype Job = Job(
    status: Status, version: int, attempts: nat, maxAttempts: nat, lease: Option<Lease>,
    availableAt: Time, rows: map<nat, Option<string>>, redrive: Option<RedriveMark>)

  function NewJob(now: Time): Job {
    Job(Queued, 1, 0, DEFAULT_ATTEMPTS, None, now, map[], None)
  }

  /** What a worker keeps from its claim. */
  datatype Ticket = Ticket(job: nat, token: Digest, attempt: nat, maxAttempts: nat)

  /** Jobs in (created_at, id) order, tickets issued so far, and the experiences proposed by jobs. */
  datatype Queue = Queue(jobs: seq<Job>, issued: set<Ticket>, proposals: seq<nat>)

  const EMPTY := Queue([], {}, [])

  // ---------------------------------------------------------------- row transitions

  /** UPDATE ... WHERE attempt=attempts AND finished_at IS NULL. */
  function Finished(j: Job, code: string): Job {
    if j.attempts in j.rows && j.rows[j.attempts].None?
    then j.(rows := j.rows[j.attempts := Some(code)])
    else j
  }

  predicate Exhausted(j: Job, now: Time) {
    j.status == Running && j.lease.Some? && j.lease.value.until <= now && j.attempts >= j.maxAttempts
  }

  predicate Runnable(j: Job, now: Time) {
    && j.attempts < j.maxAttempts
    && ((j.status == Queued && j.availableAt <= now)
        || (j.status == Running && j.lease.Some? && j.lease.value.until <= now))
  }

  function Buried(j: Job): Job {
    Finished(j, "lease_expired").(status := Dead, version := j.version + 1, lease := None)
  }

  function Started(j: Job, token: Digest, until: Time): Job {
    var k := if j.status == Running then Finished(j, "lease_expired") else j;
    k.(status := Running, version := j.version + 1, attempts := j.attempts + 1,
       lease := Some(Lease(token, until)), rows := k.rows[j.attempts + 1 := None])
  }

  /** The fence: still running this attempt, under this token, on an unexpired lease. */
  predicate Fenced(q: Queue, t: Ticket, now: Time) {
    && t.job < |q.jobs|
    && var j := q.jobs[t.job];
       && j.status == Running && j.lease.Some?
       && j.lease.value.token == t.token && j.attempts == t.attempt && j.lease.value.until > now
  }

  function Pow2(n: nat): nat {
    if n == 0 then 1 else 2 * Pow2(n - 1)
  }

  /** Retry delay in seconds. */
  function Backoff(attempt: nat): int { Min(300, Pow2(attempt)) }

  function Failed(j: Job, t: Ticket, code: string, retryable: bool, now: Time): Job {
    var retry := retryable && t.attempt < t.maxAttempts;
    Finished(j, code).(status := if retry then Queued else Dead, version := j.version + 1,
                       lease := None, availableAt := now + Backoff(t.attempt))
  }

  function Completed(j: Job, code: string): Job {
    Finished(j, code).(status := Succeeded, version := j.version + 1, lease := None)
  }

  function Redriven(j: Job, actor: User, now: Time): Job {
    j.(status := Queued, version := j.version + 1,
       maxAttempts := Min(LIFETIME_ATTEMPTS, j.maxAttempts + REDRIVE_ATTEMPTS),
       availableAt := now, redrive := Some(RedriveMark(j.version + 1, actor)))
  }

  // ---------------------------------------------------------------- transactions

  function CountExhausted(jobs: seq<Job>, n: nat, now: Time): nat
    requires n <= |jobs|
  {
    if n == 0 then 0 else CountExhausted(jobs, n - 1, now) + if Exhausted(jobs[n - 1], now) then 1 else 0
  }

  /** The first DRAIN_BATCH exhausted leases are buried. */
  function Drained(jobs: seq<Job>, now: Time): seq<Job> {
    seq(|jobs|, i requires 0 <= i < |jobs| =>
      if Exhausted(jobs[i], now) && CountExhausted(jobs, i, now) < DRAIN_BATCH then Buried(jobs[i]) else jobs[i])
  }

  function FirstRunnable(jobs: seq<Job>, i: nat, now: Time): (r: nat)
    requires i <= |jobs|
    ensures i <= r <= |jobs|
    ensures r < |jobs| ==> Runnable(jobs[r], now)
    ensures forall k :: i <= k < r ==> !Runnable(jobs[k], now)
    decreases |jobs| - i
  {
    if i == |jobs| || Runnable(jobs[i], now) then i else FirstRunnable(jobs, i + 1, now)
  }

  /** The clock is read three times in one transaction: a claim drains, selects and leases; a completion passes three
      fences. Nothing is assumed about how the three readings compare. */
  datatype Clock = Clock(t1: Time, t2: Time, t3: Time)

  function Claimed(q: Queue, token: Digest, seconds: nat, c: Clock): (Queue, Option<Ticket>) {
    var jobs := Drained(q.jobs, c.t1);
    var i := FirstRunnable(jobs, 0, c.t2);
    if i == |jobs| then (q.(jobs := jobs), None)
    else
      var j := Started(jobs[i], token, c.t3 + seconds);
      var t := Ticket(i, token, j.attempts, j.maxAttempts);
      (q.(jobs := jobs[i := j], issued := q.issued + {t}), Some(t))
  }

  function FailJob(q: Queue, t: Ticket, code: string, retryable: bool, now: Time): (Queue, bool) {
    if Fenced(q, t, now)
    then (q.(jobs := q.jobs[t.job := Failed(q.jobs[t.job], t, code, retryable, now)]), true)
    else (q, false)
  }

  /** What the completing transaction does between its two fences; Raise stands for every GenerationFailure. */
  datatype Work = NoProposal(code: string) | Propose(code: string) | Raise

  /** A submission is keyed by its job, and a known key returns the stored receipt. */
  function Proposed(proposals: seq<nat>, job: nat): seq<nat> {
    if job in proposals then proposals else proposals + [job]
  }

  /** Complete a job: fence, work, fence again, conditional update; anything late rolls back. */
  function CompleteJob(q: Queue, t: Ticket, work: Work, c: Clock): (Queue, bool) {
    if !Fenced(q, t, c.t1) || work.Raise? || !Fenced(q, t, c.t2) || q.jobs[t.job].lease.value.until <= c.t3
        then (q, false)
    else
      (q.(jobs := q.jobs[t.job := Completed(q.jobs[t.job], work.code)],
          proposals := if work.Propose? then Proposed(q.proposals, t.job) else q.proposals), true)
  }

  datatype RedriveResult = Refused | Applied | AlreadyApplied

  function RedriveJob(q: Queue, i: nat, expected: int, actor: User, now: Time): (Queue, RedriveResult) {
    if i >= |q.jobs| then (q, Refused)
    else
      var j := q.jobs[i];
      if j.redrive == Some(RedriveMark(expected + 1, actor)) then (q, AlreadyApplied)
      else if j.status != Dead || j.version != expected || j.maxAttempts >= LIFETIME_ATTEMPTS then (q, Refused)
      else (q.(jobs := q.jobs[i := Redriven(j, actor, now)]), Applied)
  }

  datatype Step =
    | Enqueue(now: Time)
    | Claim(token: Digest, seconds: nat, clock: Clock)
    | FailStep(ticket: Ticket, code: string, retryable: bool, now: Time)
    | CompleteStep(ticket: Ticket, work: Work, clock: Clock)
    | RedriveStep(job: nat, expected: int, actor: User, now: Time)

  /** Workers present only tickets they were issued. */
  predicate Enabled(q: Queue, s: Step) {
    match s
    case FailStep(t, _, _, _) => t in q.issued
    case CompleteStep(t, _, _) => t in q.issued
    case _ => true
  }

  function Apply(q: Queue, s: Step): Queue {
    match s
    case Enqueue(now) => q.(jobs := q.jobs + [NewJob(now)])
    case Claim(token, seconds, c) => Claimed(q, token, seconds, c).0
    case FailStep(t, code, retryable, now) => FailJob(q, t, code, retryable, now).0
    case CompleteStep(t, work, c) => CompleteJob(q, t, work, c).0
    case RedriveStep(i, expected, actor, now) => RedriveJob(q, i, expected, actor, now).0
  }

  // ---------------------------------------------------------------- invariant

  ghost predicate JobInv(j: Job) {
    && j.attempts <= j.maxAttempts <= LIFETIME_ATTEMPTS
    && DEFAULT_ATTEMPTS <= j.maxAttempts
    && (j.status == Queued ==> j.attempts < j.maxAttempts)
    && (j.status == Running <==> j.lease.Some?)
    && (forall a :: a in j.rows <==> 1 <= a <= j.attempts)
    && (forall a :: a in j.rows ==> (j.rows[a].None? <==> j.status == Running && a == j.attempts))
    && (j.status == Running ==> j.attempts >= 1)
  }

  /** A ticket for the attempt in progress carries the row's own token and bound. */
  ghost predicate TicketInv(q: Queue, t: Ticket) {
    && t.job < |q.jobs|
    && 1 <= t.attempt <= q.jobs[t.job].attempts
    && (t.attempt == q.jobs[t.job].attempts && q.jobs[t.job].status == Running ==>
          t.maxAttempts == q.jobs[t.job].maxAttempts && q.jobs[t.job].lease.Some?
              && t.token == q.jobs[t.job].lease.value.token)
  }

  ghost predicate Distinct(s: seq<nat>) {
    forall i, k :: 0 <= i < k < |s| ==> s[i] != s[k]
  }

  ghost predicate QueueInv(q: Queue) {
    && (forall i :: 0 <= i < |q.jobs| ==> JobInv(q.jobs[i]))
    && (forall t :: t in q.issued ==> TicketInv(q, t))
    && (forall t, u :: t in q.issued && u in q.issued && t.job == u.job && t.attempt == u.attempt ==> t == u)
    && (forall p :: p in q.proposals ==> p < |q.jobs| && q.jobs[p].status == Succeeded)
    && Distinct(q.proposals)
  }

  /** Strictly decreases at every change of a job row: at most 69 from creation. */
  function Potential(j: Job): int {
    (LIFETIME_ATTEMPTS - j.maxAttempts + 2) / 3 + 2 * (LIFETIME_ATTEMPTS - j.attempts)
    + if j.status == Running then 1 else 0
  }

  /** How one job row may change in one step. */
  ghost predicate Moves(a: Job, b: Job) {
    && JobInv(b)
    && a.attempts <= b.attempts
    && (b.status == Running && b.attempts == a.attempts ==> a == b)
    && (a.status == Succeeded ==> b == a)
    && (a != b ==> 0 <= Potential(b) < Potential(a))
  }

  lemma BuryMoves(j: Job, now: Time)
    requires JobInv(j) && Exhausted(j, now)
    ensures Moves(j, Buried(j))
    ensures Buried(j).status == Dead
  {
  }

  lemma StartMoves(j: Job, token: Digest, until: Time, now: Time)
    requires JobInv(j) && Runnable(j, now)
    ensures Moves(j, Started(j, token, until))
  {
  }

  lemma FailMoves(j: Job, t: Ticket, code: string, retryable: bool, now: Time)
    requires JobInv(j) && j.status == Running && t.attempt == j.attempts && t.maxAttempts == j.maxAttempts
    ensures Moves(j, Failed(j, t, code, retryable, now))
  {
  }

  lemma CompleteMoves(j: Job, code: string)
    requires JobInv(j) && j.status == Running
    ensures Moves(j, Completed(j, code))
  {
  }

  lemma RedriveMoves(j: Job, actor: User, now: Time)
    requires JobInv(j) && j.status == Dead && j.maxAttempts < LIFETIME_ATTEMPTS
    ensures Moves(j, Redriven(j, actor, now))
  {
  }

  // ---------------------------------------------------------------- steps

  /** Every existing row keeps or moves; rows are only ever added. */
  ghost predicate AllMove(a: seq<Job>, b: seq<Job>) {
    && |a| <= |b|
    && (forall i :: 0 <= i < |a| ==> Moves(a[i], b[i]))
    && (forall i :: |a| <= i < |b| ==> JobInv(b[i]))
  }

  lemma DrainMoves(jobs: seq<Job>, now: Time)
    requires forall i :: 0 <= i < |jobs| ==> JobInv(jobs[i])
    ensures AllMove(jobs, Drained(jobs, now))
    ensures forall i :: 0 <= i < |jobs| ==> Drained(jobs, now)[i] == jobs[i] || Drained(jobs, now)[i].status == Dead
  {
    forall i | 0 <= i < |jobs|
      ensures Moves(jobs[i], Drained(jobs, now)[i])
    {
      if Exhausted(jobs[i], now) {
        BuryMoves(jobs[i], now);
      }
    }
  }

  lemma MovesCompose(a: Job, b: Job, c: Job)
    requires JobInv(a) && Moves(a, b) && Moves(b, c)
    requires b == a || b.status == Dead
    ensures Moves(a, c)
  {
  }

  lemma StartAfterDrainMoves(j: Job, k: Job, token: Digest, until: Time, now: Time)
    requires JobInv(j) && Moves(j, k) && (k == j || k.status == Dead) && Runnable(k, now)
    ensures Moves(j, Started(k, token, until))
  {
    StartMoves(k, token, until, now);
    MovesCompose(j, k, Started(k, token, until));
  }

  lemma ClaimMovesFrom(a: seq<Job>, b: seq<Job>, i: nat, token: Digest, until: Time, now: Time)
    requires AllMove(a, b) && |a| == |b| && i < |b| && Runnable(b[i], now)
    requires JobInv(a[i]) && (b[i] == a[i] || b[i].status == Dead)
    ensures AllMove(a, b[i := Started(b[i], token, until)])
  {
    StartAfterDrainMoves(a[i], b[i], token, until, now);
    ReplaceMoves(a, b, i, Started(b[i], token, until));
  }

  lemma ClaimMoves(q: Queue, token: Digest, seconds: nat, c: Clock)
    requires QueueInv(q)
    ensures AllMove(q.jobs, Claimed(q, token, seconds, c).0.jobs)
  {
    DrainMoves(q.jobs, c.t1);
    var jobs := Drained(q.jobs, c.t1);
    var i := FirstRunnable(jobs, 0, c.t2);
    if i != |jobs| {
      ClaimMovesFrom(q.jobs, jobs, i, token, c.t3 + seconds, c.t2);
    }
  }

  lemma ReplaceMoves(a: seq<Job>, b: seq<Job>, i: nat, j: Job)
    requires AllMove(a, b) && |a| == |b| && i < |a| && Moves(a[i], j)
    ensures AllMove(a, b[i := j])
  {
  }

  lemma OneMoves(q: Queue, i: nat, j: Job)
    requires QueueInv(q) && i < |q.jobs| && Moves(q.jobs[i], j)
    ensures AllMove(q.jobs, q.jobs[i := j])
  {
  }

  lemma StepMoves(q: Queue, s: Step)
    requires QueueInv(q) && Enabled(q, s)
    ensures AllMove(q.jobs, Apply(q, s).jobs)
  {
    match s
    case Enqueue(now) =>
    case Claim(token, seconds, c) =>
      ClaimMoves(q, token, seconds, c);
    case FailStep(t, code, retryable, now) =>
      if Fenced(q, t, now) {
        assert TicketInv(q, t);
        FailMoves(q.jobs[t.job], t, code, retryable, now);
        OneMoves(q, t.job, Failed(q.jobs[t.job], t, code, retryable, now));
      }
    case CompleteStep(t, work, c) =>
      if CompleteJob(q, t, work, c).1 {
        CompleteMoves(q.jobs[t.job], work.code);
        OneMoves(q, t.job, Completed(q.jobs[t.job], work.code));
      }
    case RedriveStep(i, expected, actor, now) =>
      if RedriveJob(q, i, expected, actor, now).1.Applied? {
        RedriveMoves(q.jobs[i], actor, now);
        OneMoves(q, i, Redriven(q.jobs[i], actor, now));
      }
  }

  /** Moving rows keep every issued ticket honest: an attempt in progress never changes its token or bound. */
  lemma TicketsSurvive(q: Queue, jobs: seq<Job>)
    requires QueueInv(q) && AllMove(q.jobs, jobs)
    ensures forall t :: t in q.issued ==> TicketInv(Queue(jobs, q.issued, q.proposals), t)
    ensures forall p :: p in q.proposals ==> p < |jobs| && jobs[p].status == Succeeded
  {
    forall t | t in q.issued
      ensures TicketInv(Queue(jobs, q.issued, q.proposals), t)
    {
      assert TicketInv(q, t);
      assert Moves(q.jobs[t.job], jobs[t.job]);
    }
    forall p | p in q.proposals
      ensures p < |jobs| && jobs[p].status == Succeeded
    {
      assert Moves(q.jobs[p], jobs[p]);
    }
  }

  /** A claim's ticket is for an attempt later than any the job's other tickets carry. */
  lemma TicketIsNew(q: Queue, token: Digest, seconds: nat, c: Clock)
    requires QueueInv(q)
    ensures var (r, got) := Claimed(q, token, seconds, c);
            got.Some? ==>
              && TicketInv(r, got.value) && r.issued == q.issued + {got.value} && r.proposals == q.proposals
              && forall u :: u in q.issued && u.job == got.value.job ==> u.attempt < got.value.attempt
  {
    var (r, got) := Claimed(q, token, seconds, c);
    if got.Some? {
      DrainMoves(q.jobs, c.t1);
      forall u | u in q.issued && u.job == got.value.job ensures u.attempt < got.value.attempt {
        assert TicketInv(q, u);
      }
    }
  }

  lemma ClaimKeepsInvariant(q: Queue, token: Digest, seconds: nat, c: Clock)
    requires QueueInv(q)
    ensures QueueInv(Claimed(q, token, seconds, c).0)
  {
    ClaimMoves(q, token, seconds, c);
    TicketIsNew(q, token, seconds, c);
    var r := Claimed(q, token, seconds, c).0;
    TicketsSurvive(q, r.jobs);
    forall u | u in r.issued ensures TicketInv(r, u) {
      if u in q.issued {
        assert TicketInv(Queue(r.jobs, q.issued, q.proposals), u);
      }
    }
  }

  lemma StepKeepsInvariant(q: Queue, s: Step)
    requires QueueInv(q) && Enabled(q, s)
    ensures QueueInv(Apply(q, s))
  {
    match s
    case Claim(token, seconds, c) =>
      ClaimKeepsInvariant(q, token, seconds, c);
    case _ =>
      StepMoves(q, s);
      TicketsSurvive(q, Apply(q, s).jobs);
      var r := Apply(q, s);
      assert r.issued == q.issued;
      forall u | u in r.issued ensures TicketInv(r, u) {
        assert TicketInv(Queue(r.jobs, q.issued, q.proposals), u);
      }
  }

  // ---------------------------------------------------------------- runs

  ghost predicate Next(a: Queue, b: Queue) {
    exists s :: Enabled(a, s) && b == Apply(a, s)
  }

  ghost predicate StepAt(tr: seq<Queue>, i: nat)
    requires i + 1 < |tr|
  {
    Next(tr[i], tr[i + 1])
  }

  ghost predicate IsRun(tr: seq<Queue>) {
    && |tr| > 0 && tr[0] == EMPTY
    && forall i :: 0 <= i < |tr| - 1 ==> StepAt(tr, i)
  }

  lemma {:induction false} RunKeepsInvariant(tr: seq<Queue>, i: nat)
    requires IsRun(tr) && i < |tr|
    ensures QueueInv(tr[i])
  {
    if i == 0 {
    } else {
      RunKeepsInvariant(tr, i - 1);
      assert StepAt(tr, i - 1);
      var s :| Enabled(tr[i - 1], s) && tr[i] == Apply(tr[i - 1], s);
      StepKeepsInvariant(tr[i - 1], s);
    }
  }

  /** The successive values of job i's row from tr[lo] on. */
  function History(tr: seq<Queue>, lo: nat, i: nat): seq<Job>
    requires lo <= |tr| && forall k :: lo <= k < |tr| ==> i < |tr[k].jobs|
  {
    seq(|tr| - lo, k requires 0 <= k < |tr| - lo => tr[lo + k].jobs[i])
  }

  function Changes(rows: seq<Job>): nat {
    if |rows| <= 1 then 0
    else Changes(rows[..|rows| - 1]) + if rows[|rows| - 2] != rows[|rows| - 1] then 1 else 0
  }

  predicate Spends(a: Job, b: Job) {
    Potential(b) + (if a != b then 1 else 0) <= Potential(a)
  }

  lemma {:induction false} ChangesAreBounded(rows: seq<Job>)
    requires |rows| > 0 && forall k :: 0 < k < |rows| ==> Spends(rows[k - 1], rows[k])
    ensures Changes(rows) + Potential(rows[|rows| - 1]) <= Potential(rows[0])
  {
    if |rows| > 1 {
      ChangesAreBounded(rows[..|rows| - 1]);
      assert Spends(rows[|rows| - 2], rows[|rows| - 1]);
    }
  }

  lemma RunMoves(tr: seq<Queue>, k: nat)
    requires IsRun(tr) && k + 1 < |tr|
    ensures AllMove(tr[k].jobs, tr[k + 1].jobs)
  {
    RunKeepsInvariant(tr, k);
    assert StepAt(tr, k);
    var s :| Enabled(tr[k], s) && tr[k + 1] == Apply(tr[k], s);
    StepMoves(tr[k], s);
  }

  lemma RunSpends(tr: seq<Queue>, k: nat, i: nat)
    requires IsRun(tr) && k + 1 < |tr| && i < |tr[k].jobs|
    ensures i < |tr[k + 1].jobs| && Spends(tr[k].jobs[i], tr[k + 1].jobs[i])
  {
    RunMoves(tr, k);
    assert Moves(tr[k].jobs[i], tr[k + 1].jobs[i]);
  }

  /** However workers fail, lose leases and are redriven, the row of a new job changes at most 69 times. */
  lemma EveryJobSettles(tr: seq<Queue>, lo: nat, i: nat, now: Time)
    requires IsRun(tr) && lo < |tr| && i < |tr[lo].jobs| && tr[lo].jobs[i] == NewJob(now)
    ensures forall k :: lo <= k < |tr| ==> i < |tr[k].jobs|
    ensures Changes(History(tr, lo, i)) <= 69
  {
    forall k | lo <= k < |tr| ensures i < |tr[k].jobs| {
      JobsNeverVanish(tr, lo, k);
    }
    var rows := History(tr, lo, i);
    forall k | 0 < k < |rows| ensures Spends(rows[k - 1], rows[k]) {
      RunSpends(tr, lo + k - 1, i);
    }
    ChangesAreBounded(rows);
    RunKeepsInvariant(tr, |tr| - 1);
    PotentialRange(rows[|rows| - 1], now);
  }

  lemma PotentialRange(j: Job, now: Time)
    requires JobInv(j)
    ensures 0 <= Potential(j) && Potential(NewJob(now)) == 69
  {
  }

  lemma {:induction false} JobsNeverVanish(tr: seq<Queue>, lo: nat, hi: nat)
    requires IsRun(tr) && lo <= hi < |tr|
    ensures |tr[lo].jobs| <= |tr[hi].jobs|
    decreases hi
  {
    if lo == hi {
    } else {
      JobsNeverVanish(tr, lo, hi - 1);
      RunMoves(tr, hi - 1);
    }
  }

  // ---------------------------------------------------------------- fencing and exactly-once

  /** At any moment at most one issued ticket of a job passes the fence. */
  lemma OneFencedWorker(q: Queue, t: Ticket, u: Ticket, now: Time)
    requires QueueInv(q) && t in q.issued && u in q.issued && t.job == u.job
    requires Fenced(q, t, now) && Fenced(q, u, now)
    ensures t == u
  {
  }

  /** A worker outside its lease, at any of the three clock readings, changes nothing at all. */
  lemma LateWorkerChangesNothing(q: Queue, t: Ticket, work: Work, c: Clock)
    requires !Fenced(q, t, c.t1) || !Fenced(q, t, c.t2) || !Fenced(q, t, c.t3)
    ensures CompleteJob(q, t, work, c) == (q, false)
  {
  }

  /** A row that is running attempt n at tr[m] is, if it had n attempts at tr[k] already, the very row it was then. */
  lemma {:induction false} AttemptIsFrozen(tr: seq<Queue>, k: nat, m: nat, i: nat)
    requires IsRun(tr) && k <= m < |tr| && i < |tr[k].jobs|
    ensures i < |tr[m].jobs| && tr[k].jobs[i].attempts <= tr[m].jobs[i].attempts
    ensures tr[m].jobs[i].status == Running && tr[m].jobs[i].attempts == tr[k].jobs[i].attempts ==>
            tr[m].jobs[i] == tr[k].jobs[i]
    decreases m
  {
    if k == m {
    } else {
      AttemptIsFrozen(tr, k, m - 1, i);
      RunMoves(tr, m - 1);
      assert Moves(tr[m - 1].jobs[i], tr[m].jobs[i]);
    }
  }

  /** Whoever has lost the fence never passes it again: not after its lease ran out, not after its attempt was
      superseded, finished or buried, and not after any number of redrives. Everything it still tries then changes
      nothing. */
  lemma LostFenceNeverReturns(tr: seq<Queue>, k: nat, m: nat, t: Ticket, now: Time, later: Time)
    requires IsRun(tr) && k <= m < |tr| && t in tr[k].issued && !Fenced(tr[k], t, now) && now <= later
    ensures !Fenced(tr[m], t, later)
    ensures forall code, retryable :: FailJob(tr[m], t, code, retryable, later) == (tr[m], false)
    ensures forall work, c: Clock :: now <= c.t1 || now <= c.t2 || now <= c.t3 ==>
            CompleteJob(tr[m], t, work, c) == (tr[m], false)
  {
    RunKeepsInvariant(tr, k);
    assert TicketInv(tr[k], t);
    AttemptIsFrozen(tr, k, m, t.job);
    forall work, c: Clock | now <= c.t1 || now <= c.t2 || now <= c.t3
        ensures CompleteJob(tr[m], t, work, c) == (tr[m], false) {
      LateWorkerChangesNothing(tr[m], t, work, c);
    }
  }

  /** A completion takes effect only for the attempt in progress, and never finds an earlier proposal of its job. */
  lemma CompletionIsFirst(q: Queue, t: Ticket, work: Work, c: Clock)
    requires QueueInv(q) && t in q.issued
    ensures CompleteJob(q, t, work, c).1 <==>
            Fenced(q, t, c.t1) && Fenced(q, t, c.t2) && Fenced(q, t, c.t3) && !work.Raise?
    ensures CompleteJob(q, t, work, c).1 ==>
              && t.job !in q.proposals
              && CompleteJob(q, t, work, c).0.proposals == if work.Propose? then q.proposals + [t.job] else q.proposals
  {
    if Fenced(q, t, c.t3) {
      assert q.jobs[t.job].status == Running;
    }
  }

  /** The step from tr[k] to tr[k + 1] finished job i successfully. */
  predicate Succeeds(tr: seq<Queue>, k: nat, i: nat) {
    k + 1 < |tr| && i < |tr[k].jobs| && i < |tr[k + 1].jobs|
    && tr[k].jobs[i].status != Succeeded && tr[k + 1].jobs[i].status == Succeeded
  }

  lemma {:induction false} SuccessIsForever(tr: seq<Queue>, k: nat, m: nat, i: nat)
    requires IsRun(tr) && k <= m < |tr| && i < |tr[k].jobs| && tr[k].jobs[i].status == Succeeded
    ensures i < |tr[m].jobs| && tr[m].jobs[i] == tr[k].jobs[i]
    decreases m
  {
    if k == m {
    } else {
      SuccessIsForever(tr, k, m - 1, i);
      RunMoves(tr, m - 1);
      assert Moves(tr[m - 1].jobs[i], tr[m].jobs[i]);
    }
  }

  /** Among any number of overlapping, expired and re-claimed workers, one completion takes effect;
      a job leaves at most one proposal, and only a succeeded job leaves one. */
  lemma ExactlyOnce(tr: seq<Queue>, k: nat, m: nat, i: nat)
    requires IsRun(tr) && Succeeds(tr, k, i) && Succeeds(tr, m, i)
    ensures k == m
    ensures multiset(tr[|tr| - 1].proposals)[i] <= 1
  {
    if k < m {
      SuccessIsForever(tr, k + 1, m, i);
    } else if m < k {
      SuccessIsForever(tr, m + 1, k, i);
    }
    RunKeepsInvariant(tr, |tr| - 1);
    DistinctCounts(tr[|tr| - 1].proposals, i);
  }

  lemma {:induction false} DistinctCounts(s: seq<nat>, x: nat)
    requires Distinct(s)
    ensures multiset(s)[x] <= 1
  {
    if s == [] {
    } else {
      var front := s[..|s| - 1];
      DistinctCounts(front, x);
      assert s == front + [s[|s| - 1]];
      if s[|s| - 1] == x {
        assert x !in front;
      }
    }
  }

  /** A queued job is never stuck: at its available time, with nothing runnable before it, it is claimed next. */
  lemma QueuedIsClaimable(q: Queue, i: nat, token: Digest, seconds: nat, c: Clock)
    requires QueueInv(q) && i < |q.jobs|
    requires q.jobs[i].status == Queued && q.jobs[i].availableAt <= c.t2
    requires forall k :: 0 <= k < i ==> !Runnable(q.jobs[k], c.t2)
    ensures var (r, got) := Claimed(q, token, seconds, c);
            && got == Some(Ticket(i, token, q.jobs[i].attempts + 1, q.jobs[i].maxAttempts))
            && (seconds > 0 ==> Fenced(r, got.value, c.t3))
  {
    var jobs := Drained(q.jobs, c.t1);
    DrainMoves(q.jobs, c.t1);
    assert jobs[i] == q.jobs[i];
    assert Runnable(jobs[i], c.t2);
    forall k | 0 <= k < i ensures !Runnable(jobs[k], c.t2) {
      assert jobs[k] == q.jobs[k] || jobs[k].status == Dead;
    }
  }

  /** A retried job waits out its backoff, two seconds doubled per attempt and at most five minutes. */
  lemma {:induction false} RetryWaits(q: Queue, t: Ticket, code: string, now: Time, later: Time)
    requires QueueInv(q) && t in q.issued && Fenced(q, t, now) && t.attempt < t.maxAttempts
    ensures var j := FailJob(q, t, code, true, now).0.jobs[t.job];
            && j.status == Queued
            && (Runnable(j, later) <==> later - now >= Min(300, Pow2(t.attempt)))
            && 2 <= Min(300, Pow2(t.attempt)) <= 300
  {
    assert TicketInv(q, t);
    DoublingStartsAtTwo(t.attempt);
  }

  lemma DoublingStartsAtTwo(n: nat)
    requires n >= 1
    ensures Pow2(n) >= 2
  {
  }

  // ---------------------------------------------------------------- the tables, updated in place

  lemma CountIsMonotone(jobs: seq<Job>, i: nat, k: nat, now: Time)
    requires i <= k <= |jobs|
    ensures CountExhausted(jobs, i, now) <= CountExhausted(jobs, k, now)
  {
    if i < k {
      CountIsMonotone(jobs, i, k - 1, now);
    }
  }

  class JobTable {
    var jobs: seq<Job>
    var proposals: seq<nat>
    ghost var issued: set<Ticket>

    constructor ()
      ensures Value() == EMPTY
    {
      jobs, proposals, issued := [], [], {};
    }

    ghost function Value(): Queue
      reads this
    {
      Queue(jobs, issued, proposals)
    }

    /** Bury a bounded batch of exhausted leases, oldest first. */
    method Drain(now: Time)
      modifies this
      ensures Value() == old(Value()).(jobs := Drained(old(jobs), now))
    {
      ghost var before := jobs;
      var i, drained := 0, 0;
      while i < |jobs| && drained < DRAIN_BATCH
        invariant 0 <= i <= |jobs| == |before|
        invariant drained == CountExhausted(before, i, now) <= DRAIN_BATCH
        invariant forall k :: 0 <= k < i ==> jobs[k] == Drained(before, now)[k]
        invariant forall k :: i <= k < |jobs| ==> jobs[k] == before[k]
        invariant issued == old(issued) && proposals == old(proposals)
      {
        if Exhausted(jobs[i], now) {
          jobs := jobs[i := Buried(jobs[i])];
          drained := drained + 1;
        }
        i := i + 1;
      }
      forall k | i <= k < |jobs| ensures jobs[k] == Drained(before, now)[k] {
        CountIsMonotone(before, i, k, now);
      }
      assert jobs == Drained(before, now);
    }

    /** Drain, then lease the first runnable job and open its next attempt. */
    method Claim(token: Digest, seconds: nat, c: Clock) returns (got: Option<Ticket>)
      modifies this
      ensures (Value(), got) == Claimed(old(Value()), token, seconds, c)
    {
      Drain(c.t1);
      var i := 0;
      while i < |jobs| && !Runnable(jobs[i], c.t2)
        invariant 0 <= i <= |jobs|
        invariant FirstRunnable(jobs, 0, c.t2) == FirstRunnable(jobs, i, c.t2)
      {
        i := i + 1;
      }
      if i == |jobs| {
        return None;
      }
      var row := jobs[i];
      if row.status == Running {
        row := Finished(row, "lease_expired");
      }
      var attempt := row.attempts + 1;
      row := row.(status := Running, version := row.version + 1, attempts := attempt,
          lease := Some(Lease(token, c.t3 + seconds)));
      jobs := jobs[i := row.(rows := row.rows[attempt := None])];
      issued := issued + {Ticket(i, token, attempt, row.maxAttempts)};
      got := Some(Ticket(i, token, attempt, row.maxAttempts));
    }

    predicate Fence(t: Ticket, now: Time)
      reads this
    {
      && t.job < |jobs|
      && jobs[t.job].status == Running && jobs[t.job].lease.Some?
      && jobs[t.job].lease.value.token == t.token && jobs[t.job].attempts == t.attempt
      && jobs[t.job].lease.value.until > now
    }

    method Fail(t: Ticket, code: string, retryable: bool, now: Time) returns (applied: bool)
      modifies this
      ensures (Value(), applied) == FailJob(old(Value()), t, code, retryable, now)
    {
      if !Fence(t, now) {
        return false;
      }
      var retry := retryable && t.attempt < t.maxAttempts;
      var row := Finished(jobs[t.job], code);
      row := row.(status := if retry then Queued else Dead, version := row.version + 1, lease := None);
      jobs := jobs[t.job := row.(availableAt := now + Backoff(t.attempt))];
      applied := true;
    }

    /** The completing transaction: everything it wrote is undone when a later fence fails. */
    method Complete(t: Ticket, work: Work, c: Clock) returns (applied: bool)
      modifies this
      ensures (Value(), applied) == CompleteJob(old(Value()), t, work, c)
    {
      if !Fence(t, c.t1) || work.Raise? {
        return false;
      }
      var savedJobs, savedProposals := jobs, proposals;
      if work.Propose? && t.job !in proposals {
        proposals := proposals + [t.job];
      }
      if !Fence(t, c.t2) {
        proposals := savedProposals;
        return false;
      }
      jobs := jobs[t.job := Finished(jobs[t.job], work.code)];
      if jobs[t.job].lease.value.until <= c.t3 {
        jobs, proposals := savedJobs, savedProposals;
        return false;
      }
      jobs := jobs[t.job := jobs[t.job].(status := Succeeded, version := jobs[t.job].version + 1, lease := None)];
      assert jobs == savedJobs[t.job := Completed(savedJobs[t.job], work.code)];
      applied := true;
    }

    method Redrive(i: nat, expected: int, actor: User, now: Time) returns (r: RedriveResult)
      modifies this
      ensures (Value(), r) == RedriveJob(old(Value()), i, expected, actor, now)
    {
      if i >= |jobs| {
        return Refused;
      }
      var row := jobs[i];
      if row.redrive == Some(RedriveMark(expected + 1, actor)) {
        return AlreadyApplied;
      }
      if row.status != Dead || row.version != expected || row.maxAttempts >= LIFETIME_ATTEMPTS {
        return Refused;
      }
      row := row.(status := Queued, version := row.version + 1, availableAt := now,
                  maxAttempts := Min(LIFETIME_ATTEMPTS, row.maxAttempts + REDRIVE_ATTEMPTS));
      jobs := jobs[i := row.(redrive := Some(RedriveMark(row.version, actor)))];
      r := Applied;
    }
  }
}
