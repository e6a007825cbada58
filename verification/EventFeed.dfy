/** The durable collaboration feed (continuity/events.py).

Writers reserve positions under the project's head-row lock and keep it until they commit or
roll back; a bounded purge deletes old rows; readers page through a committed snapshot with
encrypted cursors. `log` is the specification's memory of every event ever committed: the
event at position p is log[p - 1]. */
module EventFeed {
  import opened Common

  const RETENTION_SECONDS := 7 * 86400
  const MAX_EVENTS := 50000
  const PURGE_BATCH := 200

  datatype Kind = Signal | Checkpoint | Bundle | PresenceSession | UsageSession

  datatype Event = Event(
    kind: Kind, resource: Option<string>, classification: Classification,
    audience: set<User>, broadcast: bool, createdAt: Time)

  /** The head row and the event rows of one project. */
  datatype Feed = Feed(head: nat, prunedThrough: nat, stored: map<nat, Event>)

  const EMPTY := Feed(0, 0, map[])

  // ---------------------------------------------------------------- purge and append

  predicate Purgeable(f: Feed, p: nat, now: Time) {
    p in f.stored && (f.stored[p].createdAt < now - RETENTION_SECONDS || p <= f.head - MAX_EVENTS)
  }

  ghost function Candidates(f: Feed, now: Time): set<nat> {
    set p | p in f.stored && Purgeable(f, p, now)
  }

  ghost function Below(c: set<nat>, p: nat): set<nat> {
    set q | q in c && q < p
  }

  /** ORDER BY position LIMIT n: the members with fewer than n members below them. */
  ghost function Lowest(c: set<nat>, n: nat): set<nat> {
    set p | p in c && |Below(c, p)| < n
  }

  ghost function Victims(f: Feed, now: Time): set<nat> {
    Lowest(Candidates(f, now), PURGE_BATCH)
  }

  ghost function MaxOf(s: set<nat>): (m: nat)
    requires s != {}
    ensures m in s && forall x :: x in s ==> x <= m
  {
    assert exists m :: IsGreatest(s, m) by {
      var m := MaxExists(s);
    }
    var m :| IsGreatest(s, m);
    m
  }

  ghost predicate IsGreatest(s: set<nat>, m: nat) { m in s && forall x :: x in s ==> x <= m }

  ghost predicate IsLeast(s: set<nat>, m: nat) { m in s && forall x :: x in s ==> m <= x }

  lemma MaxExists(s: set<nat>) returns (m: nat)
    requires s != {}
    ensures IsGreatest(s, m)
  {
    m :| m in s;
    if s != {m} {
      var rest := s - {m};
      assert s == rest + {m};
      var k := MaxExists(rest);
      m := Max(k, m);
    }
  }

  lemma MinExists(s: set<nat>) returns (m: nat)
    requires s != {}
    ensures IsLeast(s, m)
  {
    m :| m in s;
    if s != {m} {
      var rest := s - {m};
      assert s == rest + {m};
      var k := MinExists(rest);
      m := Min(k, m);
    }
  }

  ghost function Purged(f: Feed, now: Time): Feed {
    var gone := Victims(f, now);
    if gone == {} then f
    else Feed(f.head, Max(f.prunedThrough, MaxOf(gone)), f.stored - gone)
  }

  ghost function Appended(f: Feed, e: Event, now: Time): Feed {
    Purged(Feed(f.head + 1, f.prunedThrough, f.stored[f.head + 1 := e]), now)
  }

  /** What the rows promise about the committed history. */
  ghost predicate FeedInv(f: Feed, log: seq<Event>) {
    && f.prunedThrough <= f.head == |log|
    && (forall p :: p in f.stored ==> 1 <= p <= f.head && f.stored[p] == log[p - 1])
    && (forall p: nat :: f.prunedThrough < p <= f.head ==> p in f.stored)
    && f.prunedThrough !in f.stored
    && |f.stored| <= MAX_EVENTS
  }

  // ---------------------------------------------------------------- retention lemmas

  lemma CountInRange(s: set<nat>, lo: nat, hi: nat)
    requires forall x :: x in s ==> lo <= x < hi
    ensures |s| <= if lo < hi then hi - lo else 0
    decreases hi
  {
    if s == {} {
    } else {
      assert lo < hi by { var x :| x in s; }
      var rest := s - {hi - 1};
      CountInRange(rest, lo, hi - 1);
    }
  }

  /** A nonempty candidate set loses its lowest member, and never more than n members. */
  lemma {:induction false} LowestIsBounded(c: set<nat>, n: nat)
    ensures |Lowest(c, n)| <= n
    ensures c != {} && n > 0 ==> Lowest(c, n) != {}
  {
    var low := Lowest(c, n);
    if low != {} {
      var top := MaxExists(low);
      assert low - {top} <= Below(c, top);
      SubsetCount(low - {top}, Below(c, top));
    }
    if c != {} && n > 0 {
      var m := MinExists(c);
      assert Below(c, m) == {};
      assert m in low;
    }
  }

  lemma SubsetCount(a: set<nat>, b: set<nat>)
    requires a <= b
    ensures |a| <= |b|
  {
    if a != {} {
      var x :| x in a;
      SubsetCount(a - {x}, b - {x});
    }
  }

  lemma PurgeKeepsInvariant(f: Feed, log: seq<Event>, now: Time)
    requires f.prunedThrough <= f.head == |log|
    requires forall p :: p in f.stored ==> 1 <= p <= f.head && f.stored[p] == log[p - 1]
    requires forall p: nat :: f.prunedThrough < p <= f.head ==> p in f.stored
    requires f.prunedThrough !in f.stored
    requires |f.stored| <= MAX_EVENTS || (|f.stored| == MAX_EVENTS + 1 && Candidates(f, now) != {})
    ensures FeedInv(Purged(f, now), log)
    ensures |Victims(f, now)| <= PURGE_BATCH
  {
    LowestIsBounded(Candidates(f, now), PURGE_BATCH);
    PurgeCounts(f, now);
  }

  /** A purge removes its victims and nothing else. */
  lemma PurgeCounts(f: Feed, now: Time)
    ensures |Purged(f, now).stored| == |f.stored| - |Victims(f, now)|
  {
    var gone, g := Victims(f, now), Purged(f, now);
    assert gone <= f.stored.Keys;
    assert g.stored.Keys == f.stored.Keys - gone;
    assert |g.stored.Keys| == |f.stored.Keys| - |gone|;
    assert |f.stored| == |f.stored.Keys| && |g.stored| == |g.stored.Keys|;
  }

  lemma AppendKeepsInvariant(f: Feed, log: seq<Event>, e: Event, now: Time)
    requires FeedInv(f, log)
    ensures FeedInv(Appended(f, e, now), log + [e])
  {
    var g := Feed(f.head + 1, f.prunedThrough, f.stored[f.head + 1 := e]);
    assert g.stored.Keys == f.stored.Keys + {g.head};
    assert g.head !in f.stored;
    assert |g.stored.Keys| == |f.stored.Keys| + 1;
    assert |f.stored| == |f.stored.Keys| && |g.stored| == |g.stored.Keys|;
    if |g.stored| == MAX_EVENTS + 1 {
      var m := MinExists(g.stored.Keys);
      CountInRange(g.stored.Keys, m, g.head + 1);
      assert Purgeable(g, m, now);
      assert m in Candidates(g, now);
    }
    PurgeKeepsInvariant(g, log + [e], now);
  }

  // ---------------------------------------------------------------- interleaved transactions

  /** The writer holding the head-row lock, with its uncommitted view of the rows. */
  datatype Holder = Holder(w: nat, view: Feed, appended: seq<Event>)

  /** Committed rows and history, the open transactions, and the head-row lock. */
  datatype Db = Db(committed: Feed, log: seq<Event>, open: set<nat>, lock: Option<Holder>)

  datatype Step =
    | Begin(w: nat)
    | Append(w: nat, e: Event, now: Time)
    | Prune(w: nat, now: Time)
    | Commit(w: nat)
    | Rollback(w: nat)

  const INITIAL := Db(EMPTY, [], {}, None)

  predicate Holds(db: Db, w: nat) {
    db.lock.Some? && db.lock.value.w == w
  }

  function ViewOf(db: Db, w: nat): Holder {
    if Holds(db, w) then db.lock.value else Holder(w, db.committed, [])
  }

  /** A writer blocks while another transaction has the head row. */
  predicate Enabled(db: Db, s: Step) {
    match s
    case Begin(w) => w !in db.open
    case Append(w, e, now) => w in db.open && (db.lock.None? || Holds(db, w))
    case Prune(w, now) => w in db.open && (db.lock.None? || Holds(db, w) || db.committed.head == 0)
    case Commit(w) => w in db.open
    case Rollback(w) => w in db.open
  }

  ghost function Apply(db: Db, s: Step): Db
    requires Enabled(db, s)
  {
    match s
    case Begin(w) => db.(open := db.open + {w})
    case Append(w, e, now) =>
      var h := ViewOf(db, w);
      db.(lock := Some(Holder(w, Appended(h.view, e, now), h.appended + [e])))
    case Prune(w, now) =>
      var h := ViewOf(db, w);
      // Without a head row there is nothing to lock and nothing to delete.
      if h.view.head == 0 then db
      else db.(lock := Some(Holder(w, Purged(h.view, now), h.appended)))
    case Commit(w) =>
      var h := ViewOf(db, w);
      Db(h.view, db.log + h.appended, db.open - {w}, if Holds(db, w) then None else db.lock)
    case Rollback(w) =>
      db.(open := db.open - {w}, lock := if Holds(db, w) then None else db.lock)
  }

  /** The uncommitted view, like the committed one, is backed by a history extending the log. */
  ghost predicate DbInv(db: Db) {
    && FeedInv(db.committed, db.log)
    && (db.lock.Some? ==> db.lock.value.w in db.open && FeedInv(db.lock.value.view, db.log + db.lock.value.appended))
  }

  ghost predicate Next(a: Db, b: Db) {
    exists s :: Enabled(a, s) && b == Apply(a, s)
  }

  ghost predicate StepAt(tr: seq<Db>, i: nat)
    requires i + 1 < |tr|
  {
    Next(tr[i], tr[i + 1])
  }

  ghost predicate IsRun(tr: seq<Db>) {
    && |tr| > 0 && tr[0] == INITIAL
    && forall i :: 0 <= i < |tr| - 1 ==> StepAt(tr, i)
  }

  lemma StepKeepsInvariant(db: Db, s: Step)
    requires DbInv(db) && Enabled(db, s)
    ensures DbInv(Apply(db, s))
    ensures db.log <= Apply(db, s).log
  {
    assert db.log + [] == db.log;
    match s
    case Begin(w) =>
    case Append(w, e, now) =>
      var h := ViewOf(db, w);
      AppendKeepsInvariant(h.view, db.log + h.appended, e, now);
      assert db.log + h.appended + [e] == db.log + (h.appended + [e]);
    case Prune(w, now) =>
      var h := ViewOf(db, w);
      PurgeKeepsInvariant(h.view, db.log + h.appended, now);
    case Commit(w) =>
    case Rollback(w) =>
  }

  /** Along every run the invariant holds and the committed history only grows. */
  lemma {:induction false} RunsKeepInvariant(tr: seq<Db>, i: nat, j: nat)
    requires IsRun(tr) && i <= j < |tr|
    ensures DbInv(tr[i]) && DbInv(tr[j])
    ensures tr[i].log <= tr[j].log
    decreases j
  {
    if j == 0 {
    } else {
      RunsKeepInvariant(tr, if i == j then j - 1 else i, j - 1);
      assert StepAt(tr, j - 1);
      var s :| Enabled(tr[j - 1], s) && tr[j] == Apply(tr[j - 1], s);
      StepKeepsInvariant(tr[j - 1], s);
    }
  }

  // ---------------------------------------------------------------- readers

  /** What one authenticated reader may see at its snapshot: labels, scope, and the live resource rows. */
  datatype View = View(levels: set<Classification>, wholeProject: bool, user: User, resources: set<(Kind, string)>)

  predicate Visible(e: Event, v: View, now: Time) {
    && e.classification in v.levels
    && (e.broadcast || v.wholeProject || v.user in e.audience)
    && e.createdAt >= now - RETENTION_SECONDS
    && (e.kind == Signal || (e.resource.Some? && (e.kind, e.resource.value) in v.resources))
  }

  datatype Reset = Initial | CursorExpired | CursorUnusable | RetentionGap | CursorAhead

  /** A cursor after decryption. */
  datatype Decoded = Foreign | Resync(reason: Reset) | At(position: nat)

  datatype Page = Page(items: seq<Event>, hasMore: bool, next: nat, reset: Option<Reset>)

  /** The largest expired position still stored, up to p; 0 when there is none. */
  function ExpiredThrough(f: Feed, now: Time, p: nat): nat {
    if p == 0 then 0
    else if p in f.stored && f.stored[p].createdAt < now - RETENTION_SECONDS then p
    else ExpiredThrough(f, now, p - 1)
  }

  /** Positions in (lo, high] whose stored event is visible, ascending. */
  function Rows(f: Feed, v: View, now: Time, lo: nat, high: nat): seq<nat>
    decreases high - lo
  {
    if lo >= high then []
    else (if lo + 1 in f.stored && Visible(f.stored[lo + 1], v, now) then [lo + 1] else [])
         + Rows(f, v, now, lo + 1, high)
  }

  lemma RowsAreStored(f: Feed, v: View, now: Time, lo: nat, high: nat)
    ensures forall k :: 0 <= k < |Rows(f, v, now, lo, high)| ==>
              Rows(f, v, now, lo, high)[k] in f.stored && lo < Rows(f, v, now, lo, high)[k] <= high
    decreases high - lo
  {
  }

  function EventsAt(f: Feed, rows: seq<nat>): seq<Event>
    requires forall k :: 0 <= k < |rows| ==> rows[k] in f.stored
  {
    seq(|rows|, k requires 0 <= k < |rows| => f.stored[rows[k]])
  }

  function StartOf(f: Feed, cursor: Decoded, now: Time): Decoded {
    var low := Max(f.prunedThrough, ExpiredThrough(f, now, f.head));
    if cursor.At? && cursor.position < low then Resync(RetentionGap)
    else if cursor.At? && cursor.position > f.head then Resync(CursorAhead)
    else cursor
  }

  /** One page of the feed for an accepted cursor. */
  function Listing(f: Feed, v: View, now: Time, cursor: Decoded, limit: nat): Page
    requires limit >= 1 && !cursor.Foreign?
  {
    match StartOf(f, cursor, now)
    case Resync(reason) => Page([], false, f.head, Some(reason))
    case At(position) =>
      var rows := Rows(f, v, now, position, f.head);
      RowsAreStored(f, v, now, position, f.head);
      var more := |rows| > limit;
      var shown := if more then rows[..limit] else rows;
      Page(EventsAt(f, shown), more, if more then shown[limit - 1] else f.head, None)
  }

  // ---------------------------------------------------------------- one page against the history

  /** The visible events of the committed history at positions (lo, hi]: the reference answer. */
  function VisibleAmong(log: seq<Event>, lo: nat, hi: nat, v: View, now: Time): seq<Event>
    requires hi <= |log|
    decreases hi - lo
  {
    if lo >= hi then []
    else (if Visible(log[lo], v, now) then [log[lo]] else []) + VisibleAmong(log, lo + 1, hi, v, now)
  }

  ghost predicate Intact(f: Feed, now: Time, p: nat) {
    forall x: nat :: p < x <= f.head ==> x in f.stored && f.stored[x].createdAt >= now - RETENTION_SECONDS
  }

  lemma ExpiredThroughIsLast(f: Feed, now: Time, p: nat)
    ensures var x := ExpiredThrough(f, now, p);
            && x <= p
            && (x > 0 ==> x in f.stored && f.stored[x].createdAt < now - RETENTION_SECONDS)
            && forall y :: x < y <= p && y in f.stored ==> f.stored[y].createdAt >= now - RETENTION_SECONDS
  {
  }

  /** A position cursor is reset exactly when it is ahead of the head or some later event is missing or expired. */
  lemma {:induction false} ResetExactlyOnGap(f: Feed, log: seq<Event>, v: View, now: Time, p: nat, limit: nat)
    requires FeedInv(f, log) && limit >= 1
    ensures Listing(f, v, now, At(p), limit).reset.Some? <==> p > f.head || !Intact(f, now, p)
  {
    ExpiredThroughIsLast(f, now, f.head);
    var x := ExpiredThrough(f, now, f.head);
    if p < f.prunedThrough {
      assert f.prunedThrough !in f.stored;
    } else if p < x {
      assert x in f.stored;
    }
  }

  lemma {:induction false} RowsPrefix(f: Feed, v: View, now: Time, lo: nat, high: nat, k: nat)
    requires 1 <= k <= |Rows(f, v, now, lo, high)|
    ensures var rows := Rows(f, v, now, lo, high);
            lo < rows[k - 1] <= high && rows[..k] == Rows(f, v, now, lo, rows[k - 1])
    decreases high - lo
  {
    var rows := Rows(f, v, now, lo, high);
    var rest := Rows(f, v, now, lo + 1, high);
    RowsAreStored(f, v, now, lo, high);
    if lo + 1 in f.stored && Visible(f.stored[lo + 1], v, now) {
      if k == 1 {
        assert rows[0] == lo + 1;
        assert Rows(f, v, now, lo + 1, lo + 1) == [];
        assert rows[..1] == [lo + 1];
      } else {
        RowsPrefix(f, v, now, lo + 1, high, k - 1);
        assert rows[..k] == [lo + 1] + rest[..k - 1];
      }
    } else {
      assert rows == rest;
      RowsPrefix(f, v, now, lo + 1, high, k);
    }
  }

  lemma EventsAfterFirst(f: Feed, p: nat, rest: seq<nat>)
    requires p in f.stored && forall k :: 0 <= k < |rest| ==> rest[k] in f.stored
    ensures forall k :: 0 <= k < |[p] + rest| ==> ([p] + rest)[k] in f.stored
    ensures EventsAt(f, [p] + rest) == [f.stored[p]] + EventsAt(f, rest)
  {
  }

  lemma {:induction false} RowsMatchHistory(f: Feed, log: seq<Event>, v: View, now: Time, lo: nat, hi: nat)
    requires FeedInv(f, log) && hi <= f.head && Intact(f, now, lo)
    ensures forall k :: 0 <= k < |Rows(f, v, now, lo, hi)| ==> Rows(f, v, now, lo, hi)[k] in f.stored
    ensures EventsAt(f, Rows(f, v, now, lo, hi)) == VisibleAmong(log, lo, hi, v, now)
    decreases hi - lo
  {
    RowsAreStored(f, v, now, lo, hi);
    if lo >= hi {
    } else {
      RowsMatchHistory(f, log, v, now, lo + 1, hi);
      var rest := Rows(f, v, now, lo + 1, hi);
      assert lo + 1 in f.stored && f.stored[lo + 1] == log[lo];
      if Visible(log[lo], v, now) {
        EventsAfterFirst(f, lo + 1, rest);
      }
    }
  }

  /** A page that is not a reset returns every visible event of (p, next], in order, and makes progress. */
  lemma {:induction false} PageIsComplete(f: Feed, log: seq<Event>, v: View, now: Time, p: nat, limit: nat)
    requires FeedInv(f, log) && limit >= 1
    requires Listing(f, v, now, At(p), limit).reset.None?
    ensures var page := Listing(f, v, now, At(p), limit);
            && p <= page.next <= f.head
            && page.items == VisibleAmong(log, p, page.next, v, now)
            && |page.items| <= limit
            && (if page.hasMore then p < page.next && |page.items| == limit else page.next == f.head)
  {
    ResetExactlyOnGap(f, log, v, now, p, limit);
    var page := Listing(f, v, now, At(p), limit);
    var rows := Rows(f, v, now, p, f.head);
    RowsAreStored(f, v, now, p, f.head);
    RowsMatchHistory(f, log, v, now, p, page.next);
    if page.hasMore {
      RowsPrefix(f, v, now, p, f.head, limit);
    }
  }

  // ---------------------------------------------------------------- cursors

  type Byte = b: int | 0 <= b < 256
  type Scope = s: seq<Byte> | |s| == 32 witness seq(32, _ => 0)

  const VERSION: Byte := 1
  const CLOCK_SKEW := 60

  /** An authenticated ciphertext reveals its body only under the key that made it. */
  datatype Token = Sealed(key: Digest, issued: Time, body: seq<Byte>) | Corrupt

  function BigEndian(n: nat, width: nat): (r: seq<Byte>)
    ensures |r| == width
  {
    if width == 0 then [] else BigEndian(n / 256, width - 1) + [n % 256]
  }

  function FromBigEndian(s: seq<Byte>): nat {
    if s == [] then 0 else FromBigEndian(s[..|s| - 1]) * 256 + s[|s| - 1]
  }

  function Limit(width: nat): nat {
    if width == 0 then 1 else 256 * Limit(width - 1)
  }

  lemma {:induction false} BigEndianRoundTrip(n: nat, width: nat)
    requires n < Limit(width)
    ensures FromBigEndian(BigEndian(n, width)) == n
  {
    if width == 0 {
    } else {
      BigEndianRoundTrip(n / 256, width - 1);
      var r := BigEndian(n, width);
      assert r[..|r| - 1] == BigEndian(n / 256, width - 1);
    }
  }

  /** Fails only where the eight-byte field overflows. */
  function EncodeCursor(secret: Digest, scope: Scope, position: nat, issued: Time): Option<Token> {
    if position >= Limit(8) then None
    else Some(Sealed(secret, issued, [VERSION] + scope + BigEndian(position, 8)))
  }

  function DecodeCursor(secret: Digest, scope: Scope, token: Token, now: Time): Decoded {
    if token.Corrupt? || token.key != secret || |token.body| != 41 then Resync(CursorUnusable)
    else if token.body[0] != VERSION || token.body[1..33] != scope then Foreign
    else if token.issued > now + CLOCK_SKEW || now - token.issued > RETENTION_SECONDS then Resync(CursorExpired)
    else At(FromBigEndian(token.body[33..]))
  }

  /** The plaintext has a fixed size, and decoding gives back the position only to its own key, scope and week. */
  lemma CursorRoundTrip(key: Digest, secret: Digest, mine: Scope, scope: Scope, position: nat, issued: Time, now: Time)
    requires position < Limit(8)
    ensures var token := EncodeCursor(key, mine, position, issued).value;
            && |token.body| == 41
            && DecodeCursor(secret, scope, token, now) ==
               if key != secret then Resync(CursorUnusable)
               else if mine != scope then Foreign
               else if issued > now + CLOCK_SKEW || issued + RETENTION_SECONDS < now then Resync(CursorExpired)
               else At(position)
  {
    var token := EncodeCursor(key, mine, position, issued).value;
    assert token.body[1..33] == mine;
    assert token.body[33..] == BigEndian(position, 8);
    BigEndianRoundTrip(position, 8);
  }

  // ---------------------------------------------------------------- chains of pages

  /** One poll: the committed state it read (an index of the run), its parameters, and what it got back. */
  datatype Poll = Poll(
    at: nat, view: View, now: Time, limit: nat, cursor: Option<Token>, stamp: Time,
    page: Page, issued: Option<Token>)

  function Read(secret: Digest, scope: Scope, q: Poll): Decoded {
    if q.cursor.None? then Resync(Initial) else DecodeCursor(secret, scope, q.cursor.value, q.now)
  }

  ghost predicate Served(tr: seq<Db>, secret: Digest, scope: Scope, q: Poll) {
    && q.at < |tr| && q.limit >= 1
    && !Read(secret, scope, q).Foreign?
    && q.page == Listing(tr[q.at].committed, q.view, q.now, Read(secret, scope, q), q.limit)
    && q.issued == EncodeCursor(secret, scope, q.page.next, q.stamp)
  }

  /** Consecutive polls of one reader, each with the cursor the previous one returned, none of them a reset. */
  ghost predicate CatchUp(tr: seq<Db>, secret: Digest, scope: Scope, qs: seq<Poll>) {
    && (forall i :: 0 <= i < |qs| ==> Served(tr, secret, scope, qs[i]) && qs[i].page.reset.None?)
    && (forall i :: 0 < i < |qs| ==> qs[i - 1].at <= qs[i].at && qs[i].cursor == qs[i - 1].issued)
  }

  function Items(qs: seq<Poll>): seq<Event> {
    if qs == [] then [] else Items(qs[..|qs| - 1]) + qs[|qs| - 1].page.items
  }

  /** Where page i starts: the first page at p, every other where its predecessor stopped. */
  function From(p: nat, qs: seq<Poll>, i: nat): nat
    requires i < |qs|
  {
    if i == 0 then p else qs[i - 1].page.next
  }

  /** The reference catch-up from position p: each page's stretch of the history under that page's view. */
  function Reference(log: seq<Event>, p: nat, qs: seq<Poll>): seq<Event>
    requires forall i :: 0 <= i < |qs| ==> qs[i].page.next <= |log|
  {
    if qs == [] then []
    else
      var n := |qs| - 1;
      Reference(log, p, qs[..n]) + VisibleAmong(log, From(p, qs, n), qs[n].page.next, qs[n].view, qs[n].now)
  }

  lemma HistoryIsStable(log: seq<Event>, longer: seq<Event>, lo: nat, hi: nat, v: View, now: Time)
    requires log <= longer && hi <= |log|
    ensures VisibleAmong(log, lo, hi, v, now) == VisibleAmong(longer, lo, hi, v, now)
    decreases hi - lo
  {
  }

  lemma PollIsComplete(tr: seq<Db>, secret: Digest, scope: Scope, q: Poll, from: nat)
    requires IsRun(tr) && Served(tr, secret, scope, q) && q.page.reset.None?
    requires Read(secret, scope, q) == At(from)
    ensures var log := tr[|tr| - 1].log;
            from <= q.page.next <= |log| && q.page.items == VisibleAmong(log, from, q.page.next, q.view, q.now)
  {
    RunsKeepInvariant(tr, q.at, |tr| - 1);
    PageIsComplete(tr[q.at].committed, tr[q.at].log, q.view, q.now, from, q.limit);
    HistoryIsStable(tr[q.at].log, tr[|tr| - 1].log, from, q.page.next, q.view, q.now);
  }

  lemma CursorCarriesPosition(tr: seq<Db>, secret: Digest, scope: Scope, q: Poll, r: Poll)
    requires Served(tr, secret, scope, q) && Served(tr, secret, scope, r)
    requires r.cursor == q.issued && r.page.reset.None?
    ensures Read(secret, scope, r) == At(q.page.next)
  {
    if q.issued.Some? {
      CursorRoundTrip(secret, secret, scope, scope, q.page.next, q.stamp, r.now);
    }
  }

  lemma {:induction false} ItemsAreReference(log: seq<Event>, p: nat, qs: seq<Poll>)
    requires forall i :: 0 <= i < |qs| ==> qs[i].page.next <= |log|
    requires forall i :: 0 <= i < |qs| ==>
               qs[i].page.items == VisibleAmong(log, From(p, qs, i), qs[i].page.next, qs[i].view, qs[i].now)
    ensures Items(qs) == Reference(log, p, qs)
  {
    if qs == [] {
    } else {
      var front := qs[..|qs| - 1];
      assert forall i :: 0 <= i < |front| ==> front[i] == qs[i] && From(p, front, i) == From(p, qs, i);
      ItemsAreReference(log, p, front);
    }
  }

  /** Under any interleaving of writers and purges, a catch-up returns exactly the visible committed history
      of the positions it passed over: nothing skipped, nothing twice, in position order. */
  lemma {:induction false} CatchUpIsComplete(tr: seq<Db>, secret: Digest, scope: Scope, qs: seq<Poll>, p: nat)
    requires IsRun(tr) && CatchUp(tr, secret, scope, qs) && |qs| > 0
    requires Read(secret, scope, qs[0]) == At(p)
    ensures var log := tr[|tr| - 1].log;
            && (forall i :: 0 <= i < |qs| ==> From(p, qs, i) <= qs[i].page.next <= |log|)
            && (forall i :: 0 <= i < |qs| ==> Read(secret, scope, qs[i]) == At(From(p, qs, i)))
            && Items(qs) == Reference(log, p, qs)
  {
    var log := tr[|tr| - 1].log;
    forall i | 0 <= i < |qs|
      ensures Read(secret, scope, qs[i]) == At(From(p, qs, i))
      ensures From(p, qs, i) <= qs[i].page.next <= |log|
      ensures qs[i].page.items == VisibleAmong(log, From(p, qs, i), qs[i].page.next, qs[i].view, qs[i].now)
    {
      if i > 0 {
        CursorCarriesPosition(tr, secret, scope, qs[i - 1], qs[i]);
      }
      PollIsComplete(tr, secret, scope, qs[i], From(p, qs, i));
    }
    ItemsAreReference(log, p, qs);
  }

  lemma {:induction false} SplitHistory(log: seq<Event>, lo: nat, mid: nat, hi: nat, v: View, now: Time)
    requires lo <= mid <= hi <= |log|
    ensures VisibleAmong(log, lo, hi, v, now) == VisibleAmong(log, lo, mid, v, now) + VisibleAmong(log, mid, hi, v, now)
    decreases mid - lo
  {
    if lo < mid {
      SplitHistory(log, lo + 1, mid, hi, v, now);
    } else {
      assert VisibleAmong(log, lo, mid, v, now) == [];
    }
  }

  lemma SameSightSameAnswer(log: seq<Event>, lo: nat, hi: nat, v: View, now: Time, v': View, now': Time)
    requires hi <= |log|
    requires forall e :: e in log ==> Visible(e, v, now) == Visible(e, v', now')
    ensures VisibleAmong(log, lo, hi, v, now) == VisibleAmong(log, lo, hi, v', now')
    decreases hi - lo
  {
  }

  lemma {:induction false} JoinReference(log: seq<Event>, p: nat, qs: seq<Poll>, v: View, now: Time)
    requires |qs| > 0
    requires forall i :: 0 <= i < |qs| ==> From(p, qs, i) <= qs[i].page.next <= |log|
    requires forall i, e :: 0 <= i < |qs| && e in log ==> Visible(e, qs[i].view, qs[i].now) == Visible(e, v, now)
    ensures p <= qs[|qs| - 1].page.next
    ensures Reference(log, p, qs) == VisibleAmong(log, p, qs[|qs| - 1].page.next, v, now)
  {
    var n := |qs| - 1;
    SameSightSameAnswer(log, From(p, qs, n), qs[n].page.next, qs[n].view, qs[n].now, v, now);
    if n > 0 {
      var front := qs[..n];
      assert forall i :: 0 <= i < |front| ==> front[i] == qs[i] && From(p, front, i) == From(p, qs, i);
      JoinReference(log, p, front, v, now);
      SplitHistory(log, p, From(p, qs, n), qs[n].page.next, v, now);
    } else {
      assert qs[..0] == [];
    }
  }

  /** With visibility unchanged between polls, a page-by-page catch-up equals one unbounded query of (p, q]. */
  lemma PagingIsInvisible(tr: seq<Db>, secret: Digest, scope: Scope, qs: seq<Poll>, p: nat, v: View, now: Time)
    requires IsRun(tr) && CatchUp(tr, secret, scope, qs) && |qs| > 0
    requires Read(secret, scope, qs[0]) == At(p)
    requires forall i, e :: 0 <= i < |qs| && e in tr[|tr| - 1].log ==>
               Visible(e, qs[i].view, qs[i].now) == Visible(e, v, now)
    ensures var log := tr[|tr| - 1].log;
            var end := qs[|qs| - 1].page.next;
            p <= end <= |log| && Items(qs) == VisibleAmong(log, p, end, v, now)
  {
    CatchUpIsComplete(tr, secret, scope, qs, p);
    JoinReference(tr[|tr| - 1].log, p, qs, v, now);
  }

  // ---------------------------------------------------------------- the row operations

  /** The head row and event rows as the transaction updates them in place. */
  class EventRows {
    var head: nat
    var prunedThrough: nat
    var stored: map<nat, Event>

    constructor ()
      ensures Value() == EMPTY
    {
      head, prunedThrough, stored := 0, 0, map[];
    }

    function Value(): Feed
      reads this
    {
      Feed(head, prunedThrough, stored)
    }

    /** DELETE ... ORDER BY position LIMIT PURGE_BATCH, then raise pruned_through. */
    method Purge(now: Time) returns (removed: nat)
      requires forall p :: p in stored ==> 1 <= p <= head
      modifies this
      ensures Value() == Purged(old(Value()), now)
      ensures removed == |Victims(old(Value()), now)| <= PURGE_BATCH
    {
      var before := Value();
      ghost var c := Candidates(before, now);
      var deepest := 0;
      ghost var gone: set<nat> := {};
      removed := 0;
      var p := 1;
      while p <= head && removed < PURGE_BATCH
        invariant 1 <= p <= head + 1
        invariant gone == Below(c, p) && removed == |gone| <= PURGE_BATCH
        invariant gone != {} ==> deepest in gone
        invariant forall x :: x in gone ==> x <= deepest
        invariant Value() == before.(stored := before.stored - gone)
      {
        assert Below(c, p + 1) == if p in c then Below(c, p) + {p} else Below(c, p);
        if p in stored && Purgeable(before, p, now) {
          stored := stored - {p};
          removed, deepest := removed + 1, p;
          gone := gone + {p};
        }
        p := p + 1;
      }
      ScanFindsLowest(c, p, head, PURGE_BATCH);
      if removed > 0 {
        prunedThrough := if prunedThrough < deepest then deepest else prunedThrough;
      }
    }

    /** Reserve the next position, insert the row, purge. */
    method Append(e: Event, now: Time)
      requires forall p :: p in stored ==> 1 <= p <= head
      modifies this
      ensures Value() == Appended(old(Value()), e, now)
    {
      head := head + 1;
      stored := stored[head := e];
      var _ := Purge(now);
    }
  }

  /** A scan in position order that stops after n hits, or at the end, has found the n lowest. */
  lemma ScanFindsLowest(c: set<nat>, p: nat, top: nat, n: nat)
    requires n > 0 && |Below(c, p)| <= n
    requires |Below(c, p)| == n || forall x :: x in c ==> x < p
    ensures Lowest(c, n) == Below(c, p)
  {
    forall x | x in c
      ensures x in Lowest(c, n) <==> x < p
    {
      if x < p {
        assert Below(c, x) <= Below(c, p) - {x};
        SubsetCount(Below(c, x), Below(c, p) - {x});
      } else {
        assert Below(c, p) <= Below(c, x);
        SubsetCount(Below(c, p), Below(c, x));
      }
    }
  }
}
