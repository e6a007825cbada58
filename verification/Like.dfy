/** Substring search through LIKE (projects/records.py) against the pattern matcher (store/sqlite_functions.py).

The listing turns a query into a pattern that is meant to match it literally, anywhere in the text. Which characters
count as the same letter is left to an arbitrary relation. */
module Like {
  import opened Common

  // ---------------------------------------------------------------- escaping

  /** str.replace of one character. */
  function Replace(s: string, c: char, image: string): string {
    if s == [] then [] else Replace(s[..|s| - 1], c, image) + if s[|s| - 1] == c then image else [s[|s| - 1]]
  }

  /** The literal of the listing: three replacements, one after the other. */
  function Literal(query: string): string {
    Replace(Replace(Replace(query, '\\', "\\\\"), '%', "\\%"), '_', "\\_")
  }

  function EscapeOne(c: char): string { if c == '\\' || c == '%' || c == '_' then ['\\', c] else [c] }

  lemma {:induction false} ReplaceOfParts(a: string, b: string, c: char, image: string)
    ensures Replace(a + b, c, image) == Replace(a, c, image) + Replace(b, c, image)
  {
    if b == "" {
      assert a + b == a;
    } else {
      var n := |b| - 1;
      ReplaceOfParts(a, b[..n], c, image);
      Assoc(Replace(a, c, image), Replace(b[..n], c, image), if b[n] == c then image else [b[n]]);
      assert (a + b)[..|a + b| - 1] == a + b[..n];
    }
  }

  lemma ReplaceShort(x: char, y: char, c: char, image: string)
    ensures Replace([x], c, image) == if x == c then image else [x]
    ensures Replace([x, y], c, image) == Replace([x], c, image) + Replace([y], c, image)
  {
    assert [x][..0] == "" && [y][..0] == "" && [x, y][..1] == [x];
  }

  lemma LiteralOfOne(c: char)
    ensures Literal([c]) == EscapeOne(c)
  {
    ReplaceShort(c, c, '\\', "\\\\");
    ReplaceShort(c, c, '%', "\\%");
    ReplaceShort('\\', c, '%', "\\%");
    ReplaceShort(c, c, '_', "\\_");
    ReplaceShort('\\', c, '_', "\\_");
    ReplaceShort('\\', '\\', '_', "\\_");
  }

  /** The order of the replacements is right: together they escape each character once. */
  lemma {:induction false} ReplacesAreOneEscape(query: string)
    ensures Literal(query) == Spread(query, EscapeOne)
  {
    if query == "" {
    } else {
      var n := |query| - 1;
      var init, last := query[..n], [query[n]];
      assert query == init + last;
      ReplacesAreOneEscape(init);
      ReplaceOfParts(init, last, '\\', "\\\\");
      var a, b := Replace(init, '\\', "\\\\"), Replace(last, '\\', "\\\\");
      ReplaceOfParts(a, b, '%', "\\%");
      ReplaceOfParts(Replace(a, '%', "\\%"), Replace(b, '%', "\\%"), '_', "\\_");
      LiteralOfOne(query[n]);
    }
  }

  /** In another order the same replacements would escape the escapes. */
  lemma OrderOfReplacementsMatters()
    ensures Replace(Replace("%", '%', "\\%"), '\\', "\\\\") == "\\\\%" && Literal("%") == "\\%"
  {
    ReplaceShort('%', '%', '%', "\\%");
    ReplaceShort('\\', '%', '\\', "\\\\");
    ReplaceShort('%', '%', '\\', "\\\\");
    LiteralOfOne('%');
  }

  // ---------------------------------------------------------------- patterns

  datatype Part = Exactly(c: char) | AnyRun | AnyOne

  function Plain(c: char): Part { if c == '%' then AnyRun else if c == '_' then AnyOne else Exactly(c) }

  /** The parts a pattern denotes: a backslash takes the next character literally, and itself at the end. */
  function Parts(pattern: string): seq<Part> {
    if pattern == "" then []
    else if pattern[0] != '\\' then [Plain(pattern[0])] + Parts(pattern[1..])
    else if |pattern| == 1 then [Exactly('\\')]
    else [Exactly(pattern[1])] + Parts(pattern[2..])
  }

  /** What is still to be parsed, when the last character read was or was not an escaping backslash. */
  function Rest(escaped: bool, pattern: string): seq<Part> {
    if !escaped then Parts(pattern)
    else if pattern == [] then [Exactly('\\')]
    else [Exactly(pattern[0])] + Parts(pattern[1..])
  }

  lemma RestSteps(escaped: bool, pattern: string, i: nat)
    requires i < |pattern|
    ensures Rest(escaped, pattern[i..]) ==
              if escaped then [Exactly(pattern[i])] + Rest(false, pattern[i + 1..])
              else if pattern[i] == '\\' then Rest(true, pattern[i + 1..])
              else [Plain(pattern[i])] + Rest(false, pattern[i + 1..])
  {
    var now, next := pattern[i..], pattern[i + 1..];
    assert now[1..] == next && now[0] == pattern[i];
    if next != [] {
      assert now[2..] == next[1..] && now[1] == next[0];
    }
  }

  /** The parser of ilike: one pass with a flag. */
  method Parse(pattern: string) returns (parts: seq<Part>)
    ensures parts == Parts(pattern)
  {
    parts := [];
    var escaped := false;
    assert pattern[0..] == pattern;
    for i := 0 to |pattern|
      invariant parts + Rest(escaped, pattern[i..]) == Parts(pattern)
    {
      var c := pattern[i];
      RestSteps(escaped, pattern, i);
      if escaped {
        Assoc(parts, [Exactly(c)], Rest(false, pattern[i + 1..]));
        parts := parts + [Exactly(c)];
        escaped := false;
      } else if c == '\\' {
        escaped := true;
      } else {
        Assoc(parts, [Plain(c)], Rest(false, pattern[i + 1..]));
        parts := parts + [Plain(c)];
      }
    }
    if escaped {
      parts := parts + [Exactly('\\')];
    }
  }

  /** A full match, with `same` deciding which character of the text a literal one accepts. */
  predicate Matches(parts: seq<Part>, text: string, same: (char, char) -> bool)
    decreases |parts| + |text|
  {
    if parts == [] then text == ""
    else
      match parts[0]
      case Exactly(c) => text != "" && same(c, text[0]) && Matches(parts[1..], text[1..], same)
      case AnyOne => text != "" && Matches(parts[1..], text[1..], same)
      case AnyRun => Matches(parts[1..], text, same) || (text != "" && Matches(parts, text[1..], same))
  }

  /** The reference reading of a run: it may stand for any stretch of text. */
  lemma {:induction false} RunMatchesAnyPrefix(parts: seq<Part>, text: string, same: (char, char) -> bool)
    requires parts != [] && parts[0] == AnyRun
    ensures Matches(parts, text, same) <==> exists k: nat :: k <= |text| && Matches(parts[1..], text[k..], same)
    decreases |text|
  {
    assert text[0..] == text;
    if text == "" {
    } else {
      RunMatchesAnyPrefix(parts, text[1..], same);
      if Matches(parts, text[1..], same) {
        var k: nat :| k <= |text[1..]| && Matches(parts[1..], text[1..][k..], same);
        assert text[1..][k..] == text[k + 1..];
      }
      if exists k: nat :: 1 <= k <= |text| && Matches(parts[1..], text[k..], same) {
        var k: nat :| 1 <= k <= |text| && Matches(parts[1..], text[k..], same);
        assert text[1..][k - 1..] == text[k..];
      }
    }
  }

  // ---------------------------------------------------------------- the law

  function Exact(query: string): seq<Part> { seq(|query|, i requires 0 <= i < |query| => Exactly(query[i])) }

  predicate OccursAt(query: string, text: string, k: nat, same: (char, char) -> bool) {
    k + |query| <= |text| && forall j :: 0 <= j < |query| ==> same(query[j], text[k + j])
  }

  lemma PartsOfEscaped(c: char, rest: string)
    ensures Parts(EscapeOne(c) + rest) == [Exactly(c)] + Parts(rest)
  {
    var text := EscapeOne(c) + rest;
    if |EscapeOne(c)| == 2 {
      assert text[2..] == rest;
    } else {
      assert text[1..] == rest;
    }
  }

  lemma {:induction false} ParseUndoesSpread(query: string, rest: string)
    ensures Parts(Spread(query, EscapeOne) + rest) == Exact(query) + Parts(rest)
  {
    if query == [] {
      assert [] + rest == rest;
    } else {
      var tail := query[1..];
      SpreadFirst(query, EscapeOne);
      ParseUndoesSpread(tail, rest);
      PartsOfEscaped(query[0], Spread(tail, EscapeOne) + rest);
      Assoc(EscapeOne(query[0]), Spread(tail, EscapeOne), rest);
      Assoc([Exactly(query[0])], Exact(tail), Parts(rest));
      assert Exact(query) == [Exactly(query[0])] + Exact(tail);
    }
  }

  /** Escaping and parsing undo each other, whatever follows. */
  lemma ParseUndoesEscape(query: string, rest: string)
    ensures Parts(Literal(query) + rest) == Exact(query) + Parts(rest)
  {
    ReplacesAreOneEscape(query);
    ParseUndoesSpread(query, rest);
  }

  lemma {:induction false} ExactMatches(query: string, text: string, same: (char, char) -> bool)
    ensures Matches(Exact(query) + [AnyRun], text, same) <==> OccursAt(query, text, 0, same)
  {
    var parts := Exact(query) + [AnyRun];
    if query == "" {
      RunMatchesAnyPrefix(parts, text, same);
      assert parts == [AnyRun] && parts[1..] == [];
      assert Matches([], text[|text|..], same);
    } else if text != "" {
      var tail := query[1..];
      assert parts[1..] == Exact(tail) + [AnyRun] && parts[0] == Exactly(query[0]);
      ExactMatches(tail, text[1..], same);
      if OccursAt(tail, text[1..], 0, same) && same(query[0], text[0]) {
        forall j | 0 <= j < |query| ensures same(query[j], text[0 + j]) {
          assert j > 0 ==> query[j] == tail[j - 1] && text[j] == text[1..][j - 1];
        }
      }
      if OccursAt(query, text, 0, same) {
        forall j | 0 <= j < |tail| ensures same(tail[j], text[1..][0 + j]) {
          assert same(query[j + 1], text[0 + (j + 1)]);
        }
        assert same(query[0], text[0 + 0]);
      }
    } else {
      assert parts[0] == Exactly(query[0]);
    }
  }

  /** The listing finds a text exactly when the query occurs in it as written: no character of the query acts as a
      wildcard. */
  lemma SearchIsSubstring(query: string, text: string, same: (char, char) -> bool)
    ensures Matches(Parts("%" + Literal(query) + "%"), text, same) <==> exists k: nat :: OccursAt(query, text, k, same)
  {
    var parts := Parts("%" + Literal(query) + "%");
    var pattern := "%" + Literal(query) + "%";
    assert pattern[0] == '%' && pattern[1..] == Literal(query) + "%";
    ParseUndoesEscape(query, "%");
    assert "%"[1..] == "";
    assert parts == [AnyRun] + (Exact(query) + [AnyRun]) && parts[1..] == Exact(query) + [AnyRun];
    RunMatchesAnyPrefix(parts, text, same);
    forall k: nat | k <= |text| ensures Matches(parts[1..], text[k..], same) <==> OccursAt(query, text, k, same) {
      ExactMatches(query, text[k..], same);
      if OccursAt(query, text, k, same) {
        forall j | 0 <= j < |query| ensures same(query[j], text[k..][0 + j]) {
          assert same(query[j], text[k + j]);
        }
      }
      if OccursAt(query, text[k..], 0, same) {
        forall j | 0 <= j < |query| ensures same(query[j], text[k + j]) {
          assert same(query[j], text[k..][0 + j]);
        }
      }
    }
  }
}
