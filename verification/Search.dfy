/** Result budgeting of memory search (retrieval/service.py) over cited items (retrieval/citations.py).

An item is the compact JSON text of a row in which only the excerpt, and the two digests that bind it, depend on how
much of the content is quoted. The hash is any function to digests of the fixed printed length. */
module Search {
  import opened Common

  const EXCERPT_CHARS := 512
  const DIGEST_CHARS := 71

  type Hash = s: string | |s| == DIGEST_CHARS witness seq(DIGEST_CHARS, i => '0')

  // ---------------------------------------------------------------- JSON strings

  function HexDigit(n: nat): char
    requires n < 16
  {
    if n < 10 then '0' + n as char else 'a' + (n - 10) as char
  }

  function HexValue(c: char): nat {
    if '0' <= c <= '9' then c as int - '0' as int else if 'a' <= c <= 'f' then c as int - 'a' as int + 10 else 0
  }

  /** One character inside a JSON string, as json.dumps writes it without ASCII escaping. */
  function EscapeChar(c: char): (s: string)
    ensures 1 <= |s| <= 6
  {
    if c == '\"' then "\\\""
    else if c == '\\' then "\\\\"
    else if c == '\n' then "\\n"
    else if c == '\r' then "\\r"
    else if c == '\t' then "\\t"
    else if c as int == 8 then "\\b"
    else if c as int == 12 then "\\f"
    else if c < ' ' then "\\u00" + [HexDigit(c as int / 16), HexDigit(c as int % 16)]
    else [c]
  }

  function Escape(s: string): string { Spread(s, EscapeChar) }

  /** Reading an escaped character back: the character and how much text it took. */
  function Unescape1(t: string): Option<(char, nat)> {
    if t == "" || t[0] == '\"' || t[0] < ' ' then None
    else if t[0] != '\\' then Some((t[0], 1))
    else if |t| < 2 then None
    else
      match t[1]
      case '\"' => Some(('\"', 2))
      case '\\' => Some(('\\', 2))
      case 'n' => Some(('\n', 2))
      case 'r' => Some(('\r', 2))
      case 't' => Some(('\t', 2))
      case 'b' => Some((8 as char, 2))
      case 'f' => Some((12 as char, 2))
      case 'u' =>
        if |t| < 6 || t[2] != '0' || t[3] != '0' then None
        else Some(((16 * HexValue(t[4]) + HexValue(t[5])) as char, 6))
      case _ => None
  }

  function Unescape(t: string): Option<string>
    decreases |t|
  {
    if t == "" then Some("")
    else
      var head := Unescape1(t);
      if head.None? || head.value.1 > |t| then None
      else
        var rest := Unescape(t[head.value.1..]);
        if rest.None? then None else Some([head.value.0] + rest.value)
  }

  lemma CharRoundTrip(c: char, rest: string)
    ensures Unescape1(EscapeChar(c) + rest) == Some((c, |EscapeChar(c)|))
  {
    var t := EscapeChar(c) + rest;
    if c < ' ' && c != '\n' && c != '\r' && c != '\t' && c as int != 8 && c as int != 12 {
      var high, low := c as int / 16, c as int % 16;
      assert t[0] == '\\' && t[1] == 'u' && t[2] == '0' && t[3] == '0' && t[4] == HexDigit(high)
          && t[5] == HexDigit(low);
      assert HexValue(HexDigit(high)) == high && HexValue(HexDigit(low)) == low;
    } else {
      assert t[0] == EscapeChar(c)[0];
      assert |EscapeChar(c)| == 2 ==> t[1] == EscapeChar(c)[1];
    }
  }

  /** What a client decodes is what was quoted. */
  lemma {:induction false} EscapeRoundTrip(s: string)
    ensures Unescape(Escape(s)) == Some(s)
    decreases |s|
  {
    if s == "" {
    } else {
      SpreadFirst(s, EscapeChar);
      CharRoundTrip(s[0], Escape(s[1..]));
      assert Escape(s)[|EscapeChar(s[0])|..] == Escape(s[1..]);
      EscapeRoundTrip(s[1..]);
      assert s == [s[0]] + s[1..];
    }
  }

  lemma {:induction false} LongerIsLarger(s: string, m: nat, n: nat)
    requires m <= n <= |s|
    ensures |Escape(s[..m])| + (n - m) <= |Escape(s[..n])|
  {
    if m == n {
    } else {
      LongerIsLarger(s, m, n - 1);
      assert s[..n][..n - 1] == s[..n - 1];
    }
  }

  // ---------------------------------------------------------------- cited items

  /** A row to cite: its content, what the binding digest covers besides the excerpt, and the pieces of its
      serialization around the binding digest, the excerpt digest and the excerpt. */
  datatype Row = Row(content: string, binding: string, opening: string, middle: string, closing: string, ending: string)

  function Excerpt(row: Row, n: nat): string { row.content[..Min(n, |row.content|)] }

  function Bound(row: Row, excerpt: string, hash: string -> Hash): string {
    row.opening + hash(row.binding + hash(excerpt)) + row.middle
  }

  function Cited(row: Row, excerpt: string, hash: string -> Hash): string {
    Bound(row, excerpt, hash) + hash(excerpt) + row.closing
  }

  /** attach followed by canonical. */
  function Item(row: Row, n: nat, hash: string -> Hash): string {
    Cited(row, Excerpt(row, n), hash) + Escape(Excerpt(row, n)) + row.ending
  }

  function ItemSize(row: Row, n: nat): nat {
    |row.opening| + |row.middle| + |row.closing| + |row.ending| + 2 * DIGEST_CHARS + |Escape(Excerpt(row, n))|
  }

  lemma SizeOfItem(row: Row, n: nat, hash: string -> Hash)
    ensures |Item(row, n, hash)| == ItemSize(row, n)
  {
    var excerpt := Excerpt(row, n);
    assert |hash(row.binding + hash(excerpt))| == DIGEST_CHARS && |hash(excerpt)| == DIGEST_CHARS;
  }

  function Whole(row: Row): nat { Min(EXCERPT_CHARS, |row.content|) }

  lemma SizeIsMonotone(row: Row, m: nat, n: nat)
    requires m <= n <= |row.content|
    ensures ItemSize(row, m) <= ItemSize(row, n) && (m < n ==> ItemSize(row, m) < ItemSize(row, n))
  {
    LongerIsLarger(row.content, m, n);
  }

  // ---------------------------------------------------------------- the page

  /** A returned item: its row and how much of the content it quotes. */
  datatype Quoted = Quoted(row: Row, chars: nat)

  function Text(items: seq<Quoted>, hash: string -> Hash): string {
    if items == [] then ""
    else
      var item := Item(items[|items| - 1].row, items[|items| - 1].chars, hash);
      if |items| == 1 then item else Text(items[..|items| - 1], hash) + "," + item
  }

  /** The compact JSON of the returned array. */
  function ArrayText(items: seq<Quoted>, hash: string -> Hash): string { "[" + Text(items, hash) + "]" }

  function Comma(first: bool): nat { if first then 0 else 1 }

  function Cost(row: Row, n: nat, first: bool): nat { ItemSize(row, n) + Comma(first) }

  /** n is how much of the row a page with this much room quotes: everything up to the excerpt limit when that fits,
      else the longest non-empty prefix that does. */
  predicate Longest(row: Row, first: bool, room: int, n: nat) {
    && n <= Whole(row) && Cost(row, n, first) <= room
    && (n < Whole(row) ==> n >= 1)
    && (forall m: nat :: n < m <= Whole(row) ==> Cost(row, m, first) > room)
  }

  /** Nothing that may be quoted of the row fits: neither all of it nor any non-empty prefix. */
  predicate NothingFits(row: Row, first: bool, room: int) {
    && Cost(row, Whole(row), first) > room
    && forall m: nat :: 1 <= m <= Whole(row) ==> Cost(row, m, first) > room
  }

  lemma LongestIsUnique(row: Row, first: bool, room: int, m: nat, n: nat)
    requires Longest(row, first, room, m)
    ensures Longest(row, first, room, n) ==> m == n
    ensures !NothingFits(row, first, room)
  {
  }

  lemma TooLargeStays(row: Row, first: bool, room: int, n: nat)
    requires n <= Whole(row) && Cost(row, n, first) > room
    ensures forall m: nat :: n <= m <= Whole(row) ==> Cost(row, m, first) > room
  {
    forall m: nat | n <= m <= Whole(row) ensures Cost(row, m, first) > room {
      SizeIsMonotone(row, n, m);
    }
  }

  /** The inner search of the loop: first the whole excerpt, then a binary search over shorter ones. */
  method Fit(row: Row, first: bool, room: int) returns (fitted: Option<nat>)
    ensures fitted.Some? ==> Longest(row, first, room, fitted.value)
    ensures fitted.None? ==> NothingFits(row, first, room)
  {
    if Cost(row, Whole(row), first) <= room {
      return Some(Whole(row));
    }
    var low, high := 1, Whole(row);
    fitted := None;
    while low <= high
      invariant 1 <= low <= high + 1 && high <= Whole(row)
      invariant if low == 1 then fitted == None else fitted == Some(low - 1) && Cost(row, low - 1, first) <= room
      invariant forall m: nat :: high < m <= Whole(row) ==> Cost(row, m, first) > room
      decreases high - low
    {
      var middle := (low + high) / 2;
      if Cost(row, middle, first) <= room {
        fitted := Some(middle);
        low := middle + 1;
      } else {
        TooLargeStays(row, first, room, middle);
        high := middle - 1;
      }
    }
  }

  /** The page after some rows: each item is fitted into what the items before it left. */
  ghost predicate Greedy(items: seq<Quoted>, rows: seq<Row>, budget: int, hash: string -> Hash) {
    && |items| <= |rows|
    && forall k :: 0 <= k < |items| ==> GreedyAt(items, rows, k, budget, hash)
  }

  ghost predicate GreedyAt(items: seq<Quoted>, rows: seq<Row>, k: nat, budget: int, hash: string -> Hash)
    requires k < |items| && k < |rows|
  {
    items[k].row == rows[k] && Longest(rows[k], k == 0, budget - |ArrayText(items[..k], hash)|, items[k].chars)
  }

  lemma ArrayGrows(items: seq<Quoted>, item: Quoted, hash: string -> Hash)
    ensures |ArrayText(items + [item], hash)| == |ArrayText(items, hash)| + Cost(item.row, item.chars, items == [])
  {
    assert (items + [item])[..|items|] == items;
    SizeOfItem(item.row, item.chars, hash);
  }

  lemma GreedyGrows(items: seq<Quoted>, item: Quoted, rows: seq<Row>, budget: int, hash: string -> Hash)
    requires Greedy(items, rows, budget, hash) && |items| < |rows| && item.row == rows[|items|]
    requires Longest(item.row, items == [], budget - |ArrayText(items, hash)|, item.chars)
    ensures Greedy(items + [item], rows, budget, hash)
  {
    var page := items + [item];
    forall k | 0 <= k < |page| ensures GreedyAt(page, rows, k, budget, hash) {
      assert page[..k] == items[..k];
      if k < |items| {
        assert GreedyAt(items, rows, k, budget, hash);
      } else {
        assert items[..k] == items;
      }
    }
  }

  predicate Clipped(items: seq<Quoted>) {
    exists k :: 0 <= k < |items| && items[k].chars != Whole(items[k].row)
  }

  lemma ClippedGrows(items: seq<Quoted>, item: Quoted)
    ensures Clipped(items + [item]) <==> Clipped(items) || item.chars != Whole(item.row)
  {
    var page := items + [item];
    assert page[|items|] == item && page[..|items|] == items;
    if Clipped(items) {
      var k :| 0 <= k < |items| && items[k].chars != Whole(items[k].row);
      assert page[k] == items[k];
    }
  }

  /** The page so far, as the loop keeps it. */
  ghost predicate PageSoFar(items: seq<Quoted>, used: nat, clipped: bool, rows: seq<Row>, budget: int,
                            hash: string -> Hash) {
    && Greedy(items, rows, budget, hash)
    && used == |ArrayText(items, hash)| && used <= Max(2, budget)
    && (clipped <==> Clipped(items))
  }

  lemma PageGrows(items: seq<Quoted>, used: nat, clipped: bool, item: Quoted, rows: seq<Row>, budget: int,
                  hash: string -> Hash)
    requires PageSoFar(items, used, clipped, rows, budget, hash) && |items| < |rows| && item.row == rows[|items|]
    requires Longest(item.row, items == [], budget - used, item.chars)
    ensures PageSoFar(items + [item], used + Cost(item.row, item.chars, items == []),
                      clipped || item.chars != Whole(item.row), rows, budget, hash)
  {
    ArrayGrows(items, item, hash);
    GreedyGrows(items, item, rows, budget, hash);
    ClippedGrows(items, item);
  }

  /** A page as the search builds it: greedy, within the limit, and ended only by the limit, the rows or the budget. */
  ghost predicate Built(items: seq<Quoted>, rows: seq<Row>, limit: nat, budget: int, hash: string -> Hash) {
    && Greedy(items, rows, budget, hash) && |items| <= limit
    && (|items| < Min(limit, |rows|) ==> NothingFits(rows[|items|], items == [], budget - |ArrayText(items, hash)|))
  }

  /** search: a greedy page of the first `limit` rows whose size is counted as it is built. */
  method BuildPage(rows: seq<Row>, limit: nat, budget: int, ghost hash: string -> Hash)
    returns (items: seq<Quoted>, used: nat, truncated: bool)
    ensures Built(items, rows, limit, budget, hash)
    ensures used == |ArrayText(items, hash)|
    ensures used <= Max(2, budget)
    ensures truncated <==> |items| < |rows| || Clipped(items)
  {
    items, used := [], 2;
    var clipped := false;
    var n := Min(limit, |rows|);
    while |items| < n
      invariant |items| <= n && PageSoFar(items, used, clipped, rows, budget, hash)
      decreases n - |items|
    {
      var row := rows[|items|];
      var fitted := Fit(row, items == [], budget - used);
      if fitted.None? {
        break;
      }
      var item := Quoted.Quoted(row, fitted.value);
      PageGrows(items, used, clipped, item, rows, budget, hash);
      clipped := clipped || fitted.value != Whole(row);
      used := used + Cost(row, fitted.value, items == []);
      items := items + [item];
    }
    truncated := clipped || |items| < |rows|;
  }

  lemma GreedyShrinks(a: seq<Quoted>, rows: seq<Row>, budget: int, hash: string -> Hash)
    requires Greedy(a, rows, budget, hash) && a != []
    ensures Greedy(a[..|a| - 1], rows, budget, hash)
  {
    var n := |a| - 1;
    forall k | 0 <= k < n ensures GreedyAt(a[..n], rows, k, budget, hash) {
      assert GreedyAt(a, rows, k, budget, hash) && a[..n][..k] == a[..k];
    }
  }

  lemma GreedyAgrees(a: seq<Quoted>, b: seq<Quoted>, rows: seq<Row>, k: nat, budget: int, hash: string -> Hash)
    requires k < |a| && k < |b| && k < |rows| && a[..k] == b[..k]
    requires GreedyAt(a, rows, k, budget, hash) && GreedyAt(b, rows, k, budget, hash)
    ensures a[k] == b[k]
  {
    LongestIsUnique(rows[k], k == 0, budget - |ArrayText(a[..k], hash)|, a[k].chars, b[k].chars);
  }

  /** The rows, the limit and the budget determine the page. */
  lemma {:induction false} GreedyPageIsUnique(a: seq<Quoted>, b: seq<Quoted>, rows: seq<Row>, budget: int,
                                              hash: string -> Hash)
    requires Greedy(a, rows, budget, hash) && Greedy(b, rows, budget, hash) && |a| <= |b|
    ensures a == b[..|a|]
    decreases |a|
  {
    if a == [] {
    } else {
      var n := |a| - 1;
      GreedyShrinks(a, rows, budget, hash);
      GreedyPageIsUnique(a[..n], b, rows, budget, hash);
      GreedyAgrees(a, b, rows, n, budget, hash);
      assert a == a[..n] + [a[n]] && b[..|a|] == b[..n] + [b[n]];
    }
  }

  lemma OneMoreCharacter(row: Row, n: nat)
    requires n < |row.content|
    ensures ItemSize(row, n + 1) <= ItemSize(row, n) + 6
  {
    assert row.content[..n + 1][..n] == row.content[..n];
  }

  /** Once an item is clipped there is no room for another, so only the last item of a page is ever clipped. */
  lemma OnlyLastIsClipped(items: seq<Quoted>, rows: seq<Row>, budget: int, hash: string -> Hash, k: nat)
    requires Greedy(items, rows, budget, hash) && k + 1 < |items|
    ensures items[k].chars == Whole(items[k].row)
  {
    assert GreedyAt(items, rows, k, budget, hash) && GreedyAt(items, rows, k + 1, budget, hash);
    var item, room := items[k], budget - |ArrayText(items[..k], hash)|;
    if item.chars < Whole(item.row) {
      OneMoreCharacter(item.row, item.chars);
      assert Cost(item.row, item.chars + 1, k == 0) > room;
      assert items[..k + 1] == items[..k] + [item];
      ArrayGrows(items[..k], item, hash);
    }
  }

  lemma MoreRoomFitsToo(row: Row, first: bool, small: int, large: int, n: nat)
    requires Longest(row, first, small, n) && small <= large
    ensures !NothingFits(row, first, large)
  {
  }

  /** With the items before it equal, the larger budget has an item here too, and quotes at least as much. */
  lemma LargerRoomShowsMore(
      a: seq<Quoted>, b: seq<Quoted>, rows: seq<Row>, limit: nat, small: int, large: int, hash: string -> Hash, k: nat)
    requires Built(a, rows, limit, small, hash) && Built(b, rows, limit, large, hash) && small <= large
    requires k < |a| && k <= |b| && a[..k] == b[..k]
    ensures k < |b| && a[k].row == b[k].row && a[k].chars <= b[k].chars
    ensures a[k].chars == Whole(a[k].row) ==> b[k] == a[k]
  {
    assert GreedyAt(a, rows, k, small, hash) && b[..|b|] == b;
    var taken := |ArrayText(a[..k], hash)|;
    MoreRoomFitsToo(rows[k], k == 0, small - taken, large - taken, a[k].chars);
    assert k < |b|;
    assert GreedyAt(b, rows, k, large, hash);
  }

  lemma {:induction false} LargerBudgetKeepsPrefix(
      a: seq<Quoted>, b: seq<Quoted>, rows: seq<Row>, limit: nat, small: int, large: int, hash: string -> Hash, k: nat)
    requires Built(a, rows, limit, small, hash) && Built(b, rows, limit, large, hash) && small <= large && k < |a|
    ensures k < |b| && a[..k] == b[..k]
  {
    if k == 0 {
      LargerRoomShowsMore(a, b, rows, limit, small, large, hash, 0);
    } else {
      LargerBudgetKeepsPrefix(a, b, rows, limit, small, large, hash, k - 1);
      LargerRoomShowsMore(a, b, rows, limit, small, large, hash, k - 1);
      OnlyLastIsClipped(a, rows, small, hash, k - 1);
      assert a[..k] == a[..k - 1] + [a[k - 1]] && b[..k] == b[..k - 1] + [b[k - 1]];
      LargerRoomShowsMore(a, b, rows, limit, small, large, hash, k);
    }
  }

  /** A bigger budget only ever shows more: at least as many items, the same rows in the same places, and each quoted
      at least as far. */
  lemma BiggerBudgetShowsMore(
      a: seq<Quoted>, b: seq<Quoted>, rows: seq<Row>, limit: nat, small: int, large: int, hash: string -> Hash)
    requires Built(a, rows, limit, small, hash) && Built(b, rows, limit, large, hash) && small <= large
    ensures |a| <= |b|
    ensures forall k :: 0 <= k < |a| ==> a[k].row == b[k].row && a[k].chars <= b[k].chars
  {
    forall k | 0 <= k < |a| ensures k < |b| && a[k].row == b[k].row && a[k].chars <= b[k].chars {
      LargerBudgetKeepsPrefix(a, b, rows, limit, small, large, hash, k);
      LargerRoomShowsMore(a, b, rows, limit, small, large, hash, k);
    }
    if a != [] {
      LargerBudgetKeepsPrefix(a, b, rows, limit, small, large, hash, |a| - 1);
    }
  }

  lemma MiddlePart(a: string, b: string, c: string)
    ensures (a + b + c)[|a|..|a| + |b|] == b
  {
  }

  lemma PartOfPrefix(a: string, b: string, i: nat, j: nat)
    requires i <= j <= |a|
    ensures (a + b)[i..j] == a[i..j]
  {
  }

  lemma BoundParts(row: Row, excerpt: string, hash: string -> Hash, rest: string)
    ensures |Bound(row, excerpt, hash)| == |row.opening| + DIGEST_CHARS + |row.middle|
    ensures (Bound(row, excerpt, hash) + rest)[|row.opening|..|row.opening| + DIGEST_CHARS]
            == hash(row.binding + hash(excerpt))
  {
    var digest := hash(row.binding + hash(excerpt));
    assert |digest| == DIGEST_CHARS;
    MiddlePart(row.opening, digest, row.middle);
    PartOfPrefix(Bound(row, excerpt, hash), rest, |row.opening|, |row.opening| + DIGEST_CHARS);
  }

  lemma CitedParts(row: Row, excerpt: string, hash: string -> Hash, rest: string)
    ensures var own := |row.opening| + DIGEST_CHARS + |row.middle|;
            var text := Cited(row, excerpt, hash) + rest;
            && |Cited(row, excerpt, hash)| == own + DIGEST_CHARS + |row.closing|
            && text[|row.opening|..|row.opening| + DIGEST_CHARS] == hash(row.binding + hash(excerpt))
            && text[own..own + DIGEST_CHARS] == hash(excerpt)
  {
    var bound, digest := Bound(row, excerpt, hash), hash(excerpt);
    assert |digest| == DIGEST_CHARS;
    BoundParts(row, excerpt, hash, digest + row.closing);
    assert bound + (digest + row.closing) == Cited(row, excerpt, hash);
    MiddlePart(bound, digest, row.closing);
    PartOfPrefix(Cited(row, excerpt, hash), rest, |row.opening|, |row.opening| + DIGEST_CHARS);
    PartOfPrefix(Cited(row, excerpt, hash), rest, |bound|, |bound| + DIGEST_CHARS);
  }

  /** The three places of an item that depend on the excerpt, found by position as a client would. */
  lemma ItemParts(row: Row, n: nat, hash: string -> Hash)
    ensures var text := Item(row, n, hash);
            var own := |row.opening| + DIGEST_CHARS + |row.middle|;
            var quote := own + DIGEST_CHARS + |row.closing|;
            && |text| == ItemSize(row, n) && quote <= |text| - |row.ending|
            && text[|row.opening|..|row.opening| + DIGEST_CHARS] == hash(row.binding + hash(Excerpt(row, n)))
            && text[own..own + DIGEST_CHARS] == hash(Excerpt(row, n))
            && text[quote..|text| - |row.ending|] == Escape(Excerpt(row, n))
  {
    var cited, quote := Cited(row, Excerpt(row, n), hash), Escape(Excerpt(row, n));
    CitedParts(row, Excerpt(row, n), hash, quote + row.ending);
    assert cited + (quote + row.ending) == Item(row, n, hash);
    MiddlePart(cited, quote, row.ending);
  }

  /** Whatever is clipped, a client recovers from the item exactly a prefix of the content, and the digests printed
      beside it are the digests of that prefix. */
  lemma ClippedItemIsBound(row: Row, n: nat, hash: string -> Hash)
    ensures var text := Item(row, n, hash);
            var own := |row.opening| + DIGEST_CHARS + |row.middle|;
            var quote := own + DIGEST_CHARS + |row.closing|;
            && quote <= |text| - |row.ending|
            && var recovered := Unescape(text[quote..|text| - |row.ending|]);
            && recovered.Some? && recovered.value == row.content[..Min(n, |row.content|)]
            && text[own..own + DIGEST_CHARS] == hash(recovered.value)
            && text[|row.opening|..|row.opening| + DIGEST_CHARS] == hash(row.binding + hash(recovered.value))
  {
    ItemParts(row, n, hash);
    EscapeRoundTrip(Excerpt(row, n));
  }
}
