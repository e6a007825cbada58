/** Keyset paging, newest first (experience/pagination.py with the queries of experience/repository.py).

Each page is a separate query: rows may appear, leave or change between two pages. */
module Paging {
  import opened Common

  /** created_at and id: never changed once a row exists, and no two rows share both. */
  datatype Key = Key(at: Time, id: nat)

  datatype Row = Row(key: Key, status: string)

  predicate Before(a: Key, b: Key) { a.at < b.at || (a.at == b.at && a.id < b.id) }

  predicate NewestFirst(rows: seq<Row>) {
    forall i, j :: 0 <= i < j < |rows| ==> Before(rows[j].key, rows[i].key)
  }

  predicate Past(row: Row, cursor: Option<Key>) { cursor.None? || Before(row.key, cursor.value) }

  /** The WHERE clause on a table in query order. */
  function Remaining(table: seq<Row>, cursor: Option<Key>): seq<Row> {
    if table == [] then []
    else if Past(table[0], cursor) then [table[0]] + Remaining(table[1..], cursor)
    else Remaining(table[1..], cursor)
  }

  /** The query: one row more than the page shows. */
  function Fetched(table: seq<Row>, cursor: Option<Key>, limit: nat): seq<Row> {
    var rows := Remaining(table, cursor);
    rows[..Min(|rows|, limit + 1)]
  }

  datatype Page = Page(items: seq<Row>, hasMore: bool, next: Option<Key>)

  function PageOf(rows: seq<Row>, limit: nat): Page
    requires limit >= 1
  {
    var more := |rows| > limit;
    Page(rows[..Min(limit, |rows|)], more, if more then Some(rows[limit - 1].key) else None)
  }

  lemma {:induction false} RemainingIsFilter(table: seq<Row>, cursor: Option<Key>)
    requires NewestFirst(table)
    ensures var rest := Remaining(table, cursor);
            NewestFirst(rest) && forall r :: r in rest <==> r in table && Past(r, cursor)
  {
    if table == [] {
    } else {
      var tail := table[1..];
      assert table == [table[0]] + tail;
      RemainingIsFilter(tail, cursor);
      var rest := Remaining(tail, cursor);
      forall k | 0 <= k < |rest| ensures Before(rest[k].key, table[0].key) {
        assert rest[k] in tail;
        var j :| 0 <= j < |tail| && tail[j] == rest[k];
        assert table[j + 1] == rest[k];
      }
    }
  }

  /** One page: newest first, nothing but rows past the cursor, and every row of the table that is past this cursor
      but not past the next one is shown. */
  lemma PageIsGapless(table: seq<Row>, cursor: Option<Key>, limit: nat)
    requires NewestFirst(table) && limit >= 1
    ensures var page := PageOf(Fetched(table, cursor, limit), limit);
            && NewestFirst(page.items) && |page.items| <= limit
            && (forall r :: r in page.items ==> r in table && Past(r, cursor))
            && (forall r :: r in table && Past(r, cursor) && !(page.hasMore && Past(r, page.next)) ==> r in page.items)
            && (page.hasMore <==> page.next.Some?)
            && (page.hasMore ==> |page.items| == limit && page.next.value == page.items[limit - 1].key)
  {
    var rest := Remaining(table, cursor);
    RemainingIsFilter(table, cursor);
    var page := PageOf(Fetched(table, cursor, limit), limit);
    assert page.items == rest[..Min(limit, |rest|)];
    forall r | r in table && Past(r, cursor) && !(page.hasMore && Past(r, page.next)) ensures r in page.items {
      var k :| 0 <= k < |rest| && rest[k] == r;
      if k < limit {
        assert page.items[k] == r;
      } else {
        assert false;
      }
    }
  }

  /** Following the cursors, with the table as it is at each request: everything shown, and whether the end was
      reached. */
  function Walk(tables: seq<seq<Row>>, cursor: Option<Key>, limit: nat): (seq<Row>, bool)
    requires limit >= 1
  {
    if tables == [] then ([], false)
    else
      var page := PageOf(Fetched(tables[0], cursor, limit), limit);
      if !page.hasMore then (page.items, true)
      else
        var (rest, done) := Walk(tables[1..], page.next, limit);
        (page.items + rest, done)
  }

  /** How many requests a walk makes. */
  function Visits(tables: seq<seq<Row>>, cursor: Option<Key>, limit: nat): nat
    requires limit >= 1
    ensures Visits(tables, cursor, limit) <= |tables|
  {
    if tables == [] then 0
    else
      var page := PageOf(Fetched(tables[0], cursor, limit), limit);
      if page.hasMore then 1 + Visits(tables[1..], page.next, limit) else 1
  }

  lemma {:induction false} WalkIsDescending(tables: seq<seq<Row>>, cursor: Option<Key>, limit: nat)
    requires limit >= 1 && forall k :: 0 <= k < |tables| ==> NewestFirst(tables[k])
    ensures var shown := Walk(tables, cursor, limit).0;
            NewestFirst(shown) && forall k :: 0 <= k < |shown| ==> Past(shown[k], cursor)
  {
    if tables == [] {
    } else {
      var page := PageOf(Fetched(tables[0], cursor, limit), limit);
      PageIsGapless(tables[0], cursor, limit);
      if page.hasMore {
        WalkIsDescending(tables[1..], page.next, limit);
        assert forall k :: 0 <= k < |page.items| ==> page.items[k] in page.items;
        assert Past(page.items[limit - 1], cursor);
      }
    }
  }

  /** No row is shown twice, however the table changes in between: keys only ever go down along a walk. */
  lemma NothingTwice(tables: seq<seq<Row>>, limit: nat, i: nat, j: nat)
    requires limit >= 1 && forall k :: 0 <= k < |tables| ==> NewestFirst(tables[k])
    requires i < j < |Walk(tables, None, limit).0|
    ensures Walk(tables, None, limit).0[i].key != Walk(tables, None, limit).0[j].key
  {
    WalkIsDescending(tables, None, limit);
    var shown := Walk(tables, None, limit).0;
    assert Before(shown[j].key, shown[i].key);
  }

  /** A row that is there at every request of a completed walk is shown, and everything shown was there at some
      request. */
  lemma {:induction false} NothingSkipped(tables: seq<seq<Row>>, cursor: Option<Key>, limit: nat, r: Row)
    requires limit >= 1 && forall k :: 0 <= k < |tables| ==> NewestFirst(tables[k])
    ensures r in Walk(tables, cursor, limit).0 ==> exists k: nat :: k < Visits(tables, cursor, limit) && r in tables[k]
    ensures (&& Walk(tables, cursor, limit).1 && Past(r, cursor)
             && forall k: nat :: k < Visits(tables, cursor, limit) ==> r in tables[k]) ==>
                  r in Walk(tables, cursor, limit).0
  {
    if tables == [] {
    } else {
      var page := PageOf(Fetched(tables[0], cursor, limit), limit);
      PageIsGapless(tables[0], cursor, limit);
      assert 0 < Visits(tables, cursor, limit);
      if page.hasMore {
        NothingSkipped(tables[1..], page.next, limit, r);
        var later := Visits(tables[1..], page.next, limit);
        if r in Walk(tables[1..], page.next, limit).0 {
          var k: nat :| k < later && r in tables[1..][k];
          assert r in tables[k + 1];
        }
        if forall k: nat :: k < Visits(tables, cursor, limit) ==> r in tables[k] {
          forall k: nat | k < later ensures r in tables[1..][k] {
            assert r in tables[k + 1];
          }
          assert r in tables[0];
        }
      }
    }
  }

  /** On an unchanging table a walk with enough requests shows the table, all of it, in order, and nothing else. */
  lemma QuietWalkShowsTable(table: seq<Row>, tables: seq<seq<Row>>, limit: nat)
    requires limit >= 1 && NewestFirst(table) && (forall k :: 0 <= k < |tables| ==> tables[k] == table)
    requires Walk(tables, None, limit).1
    ensures Walk(tables, None, limit).0 == table
  {
    var shown := Walk(tables, None, limit).0;
    WalkIsDescending(tables, None, limit);
    forall r ensures r in shown <==> r in table {
      NothingSkipped(tables, None, limit, r);
    }
    DescendingIsDetermined(shown, table);
  }

  lemma HasMember(rows: seq<Row>)
    ensures rows == [] || exists r :: r in rows
  {
    if rows != [] {
      assert rows[0] in rows;
    }
  }

  lemma {:induction false} DescendingIsDetermined(a: seq<Row>, b: seq<Row>)
    requires NewestFirst(a) && NewestFirst(b) && forall r :: r in a <==> r in b
    ensures a == b
    decreases |a|
  {
    if a == [] {
      HasMember(b);
    } else {
      assert a[0] in b && b != [] && b[0] in a;
      assert a[0] == b[0];
      var c, d := a[1..], b[1..];
      assert a == [a[0]] + c && b == [b[0]] + d;
      forall r ensures r in c <==> r in d {
        if r in c {
          var k :| 0 <= k < |c| && c[k] == r;
          assert a[k + 1] == r && Before(r.key, a[0].key) && r in b;
        }
        if r in d {
          var k :| 0 <= k < |d| && d[k] == r;
          assert b[k + 1] == r && Before(r.key, b[0].key) && r in a;
        }
      }
      DescendingIsDetermined(c, d);
    }
  }
}
