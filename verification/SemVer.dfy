/** Version order, version ranges and policy resolution (registry/policy.py).

Versions are taken after parsing: the prerelease is the list of its dot-separated identifiers, and build metadata,
which the comparison ignores, is not kept. */
module SemVer {
  import opened Common

  // ---------------------------------------------------------------- identifiers

  type Identifier = string

  predicate IsDigit(c: char) { '0' <= c <= '9' }

  predicate Numeric(s: Identifier) { s != "" && forall k :: 0 <= k < |s| ==> IsDigit(s[k]) }

  /** What parse lets through: non-empty, and no leading zero on a number. */
  predicate Valid(s: Identifier) { s != "" && (Numeric(s) && |s| > 1 ==> s[0] != '0') }

  function Value(s: string): nat
    requires forall k :: 0 <= k < |s| ==> IsDigit(s[k])
  {
    if s == "" then 0
    else
      assert IsDigit(s[|s| - 1]);
      10 * Value(s[..|s| - 1]) + (s[|s| - 1] as int - '0' as int)
  }

  lemma {:induction false} LeadingDigitCounts(s: string)
    requires Numeric(s) && s[0] != '0'
    ensures Value(s) >= 1
  {
    if |s| > 1 {
      LeadingDigitCounts(s[..|s| - 1]);
    } else {
      assert s[..0] == "";
    }
  }

  /** Without leading zeros a number has one spelling. */
  lemma {:induction false} NumbersAreInjective(s: string, t: string)
    requires Numeric(s) && Numeric(t) && Valid(s) && Valid(t) && Value(s) == Value(t)
    ensures s == t
    decreases |s|
  {
    var m, n := |s| - 1, |t| - 1;
    if m > 0 {
      LeadingDigitCounts(s[..m]);
    }
    if n > 0 {
      LeadingDigitCounts(t[..n]);
    }
    assert s == s[..m] + [s[m]] && t == t[..n] + [t[n]];
    assert Value(s[..m]) == Value(t[..n]) && s[m] == t[n] by {
      assert Value(s) == 10 * Value(s[..m]) + (s[m] as int - '0' as int);
      assert Value(t) == 10 * Value(t[..n]) + (t[n] as int - '0' as int);
    }
    if m > 0 && n > 0 {
      NumbersAreInjective(s[..m], t[..n]);
    }
  }

  predicate StringLess(s: string, t: string) {
    if t == "" then false
    else if s == "" then true
    else if s[0] == t[0] then StringLess(s[1..], t[1..])
    else s[0] < t[0]
  }

  lemma {:induction false} StringsAreOrdered(s: string, t: string)
    ensures StringLess(s, t) || StringLess(t, s) || s == t
    ensures !(StringLess(s, t) && StringLess(t, s)) && !StringLess(s, s)
  {
    if s == "" {
    } else {
      assert s == [s[0]] + s[1..];
      if t == "" || s[0] != t[0] {
        StringsAreOrdered(s[1..], s[1..]);
      } else {
        assert t == [t[0]] + t[1..];
        StringsAreOrdered(s[1..], t[1..]);
      }
    }
  }

  lemma {:induction false} StringsChain(s: string, t: string, u: string)
    requires StringLess(s, t) && StringLess(t, u)
    ensures StringLess(s, u)
  {
    if s != "" && s[0] == t[0] == u[0] {
      StringsChain(s[1..], t[1..], u[1..]);
    }
  }

  predicate IdentifierLess(a: Identifier, b: Identifier) {
    if Numeric(a) && Numeric(b) then Value(a) < Value(b)
    else if Numeric(a) != Numeric(b) then Numeric(a)
    else StringLess(a, b)
  }

  lemma IdentifiersAreOrdered(a: Identifier, b: Identifier)
    requires Valid(a) && Valid(b)
    ensures IdentifierLess(a, b) || IdentifierLess(b, a) || a == b
    ensures !(IdentifierLess(a, b) && IdentifierLess(b, a)) && !IdentifierLess(a, a)
  {
    if Numeric(a) && Numeric(b) && Value(a) == Value(b) {
      NumbersAreInjective(a, b);
    }
    StringsAreOrdered(a, b);
  }

  lemma IdentifiersChain(a: Identifier, b: Identifier, c: Identifier)
    requires IdentifierLess(a, b) && IdentifierLess(b, c)
    ensures IdentifierLess(a, c)
  {
    if !Numeric(a) {
      StringsChain(a, b, c);
    }
  }

  // ---------------------------------------------------------------- versions

  datatype Version = Version(major: nat, minor: nat, patch: nat, prerelease: Option<seq<Identifier>>)

  predicate Parsed(v: Version) {
    v.prerelease.Some? ==>
      v.prerelease.value != [] && forall k :: 0 <= k < |v.prerelease.value| ==> Valid(v.prerelease.value[k])
  }

  function Core(major: nat, minor: nat, patch: nat): Version { Version(major, minor, patch, None) }

  predicate ListLess(l: seq<Identifier>, r: seq<Identifier>) {
    if l == [] || r == [] then |l| < |r|
    else if l[0] == r[0] then ListLess(l[1..], r[1..])
    else IdentifierLess(l[0], r[0])
  }

  predicate CoreLess(a: Version, b: Version) {
    a.major < b.major || (a.major == b.major && (a.minor < b.minor || (a.minor == b.minor && a.patch < b.patch)))
  }

  predicate SameCore(a: Version, b: Version) { a.major == b.major && a.minor == b.minor && a.patch == b.patch }

  predicate Less(a: Version, b: Version) {
    if !SameCore(a, b) then CoreLess(a, b)
    else if a.prerelease.None? then false
    else if b.prerelease.None? then true
    else ListLess(a.prerelease.value, b.prerelease.value)
  }

  predicate AllValid(l: seq<Identifier>) { forall k :: 0 <= k < |l| ==> Valid(l[k]) }

  lemma {:induction false} ListsAreOrdered(l: seq<Identifier>, r: seq<Identifier>)
    requires AllValid(l) && AllValid(r)
    ensures ListLess(l, r) || ListLess(r, l) || l == r
    ensures !(ListLess(l, r) && ListLess(r, l)) && !ListLess(l, l)
    decreases |l|
  {
    if l == [] {
    } else {
      assert l == [l[0]] + l[1..];
      if r == [] || l[0] != r[0] {
        ListsAreOrdered(l[1..], l[1..]);
        if r != [] {
          IdentifiersAreOrdered(l[0], r[0]);
        }
      } else {
        assert r == [r[0]] + r[1..];
        ListsAreOrdered(l[1..], r[1..]);
      }
    }
  }

  lemma {:induction false} ListsChain(l: seq<Identifier>, m: seq<Identifier>, r: seq<Identifier>)
    requires AllValid(l) && AllValid(m) && AllValid(r) && ListLess(l, m) && ListLess(m, r)
    ensures ListLess(l, r)
  {
    if l == [] {
    } else {
      if l[0] == m[0] && m[0] == r[0] {
        ListsChain(l[1..], m[1..], r[1..]);
      } else if l[0] != m[0] && m[0] != r[0] {
        IdentifiersChain(l[0], m[0], r[0]);
        IdentifiersAreOrdered(l[0], r[0]);
      }
    }
  }

  /** Section 11 of Semantic Versioning 2.0.0: precedence is a strict total order, and versions tie exactly when they
      agree on everything but build metadata. */
  lemma OrderIsTotal(a: Version, b: Version, c: Version)
    requires Parsed(a) && Parsed(b) && Parsed(c)
    ensures !Less(a, a) && !(Less(a, b) && Less(b, a))
    ensures Less(a, b) || Less(b, a) || a == b
    ensures Less(a, b) && Less(b, c) ==> Less(a, c)
  {
    if a.prerelease.Some? {
      ListsAreOrdered(a.prerelease.value, a.prerelease.value);
      if b.prerelease.Some? {
        ListsAreOrdered(a.prerelease.value, b.prerelease.value);
        if c.prerelease.Some? && SameCore(a, b) && SameCore(b, c) && Less(a, b) && Less(b, c) {
          ListsChain(a.prerelease.value, b.prerelease.value, c.prerelease.value);
        }
      }
    }
  }

  /** A version precedes a release exactly when its core does, or it is a prerelease of that release. */
  lemma BelowRelease(v: Version, major: nat, minor: nat, patch: nat)
    ensures Less(v, Core(major, minor, patch)) <==>
              CoreLess(v, Core(major, minor, patch)) || (SameCore(v, Core(major, minor, patch)) && v.prerelease.Some?)
  {
  }

  // ---------------------------------------------------------------- ranges

  datatype Op = Ge | Le | Gt | Lt | Eq | Caret | Tilde

  /** One condition of a range. `majorOnly` records that the text gave nothing but a major number. */
  datatype Condition = Condition(op: Op, expected: Version, majorOnly: bool)

  type Range = seq<Condition>

  predicate WellFormed(range: Range) {
    range != [] && forall k :: 0 <= k < |range| ==> Parsed(range[k].expected)
  }

  function CaretBound(v: Version): Version {
    if v.major > 0 then Core(v.major + 1, 0, 0)
    else if v.minor > 0 then Core(0, v.minor + 1, 0)
    else Core(0, 0, v.patch + 1)
  }

  function TildeBound(c: Condition): Version {
    if c.majorOnly then Core(c.expected.major + 1, 0, 0) else Core(c.expected.major, c.expected.minor + 1, 0)
  }

  predicate AtLeast(a: Version, b: Version) { !Less(a, b) }

  predicate Meets(v: Version, c: Condition) {
    match c.op
    case Ge => AtLeast(v, c.expected)
    case Le => Less(v, c.expected) || v == c.expected
    case Gt => AtLeast(v, c.expected) && v != c.expected
    case Lt => Less(v, c.expected)
    case Eq => v == c.expected
    case Caret => AtLeast(v, c.expected) && Less(v, CaretBound(c.expected))
    case Tilde => AtLeast(v, c.expected) && Less(v, TildeBound(c))
  }

  predicate Satisfies(v: Version, range: Range) {
    forall k :: 0 <= k < |range| ==> Meets(v, range[k])
  }

  lemma ConditionIsConvex(a: Version, b: Version, c: Version, condition: Condition)
    requires Parsed(a) && Parsed(b) && Parsed(c) && Parsed(condition.expected)
    requires AtLeast(b, a) && AtLeast(c, b) && Meets(a, condition) && Meets(c, condition)
    ensures Meets(b, condition)
  {
    var e := condition.expected;
    var top := if condition.op.Caret? then CaretBound(e) else if condition.op.Tilde? then TildeBound(condition) else e;
    OrderIsTotal(a, b, c);
    OrderIsTotal(b, c, e);
    OrderIsTotal(b, c, top);
    OrderIsTotal(b, e, a);
    OrderIsTotal(e, a, b);
    OrderIsTotal(a, e, b);
    OrderIsTotal(c, b, a);
    OrderIsTotal(b, e, c);
    OrderIsTotal(e, b, a);
    OrderIsTotal(c, e, b);
    OrderIsTotal(e, c, b);
  }

  /** Every range accepts an interval: what lies between two accepted versions is accepted. */
  lemma RangeIsConvex(a: Version, b: Version, c: Version, range: Range)
    requires Parsed(a) && Parsed(b) && Parsed(c) && WellFormed(range)
    requires AtLeast(b, a) && AtLeast(c, b) && Satisfies(a, range) && Satisfies(c, range)
    ensures Satisfies(b, range)
  {
    forall k | 0 <= k < |range| ensures Meets(b, range[k]) {
      ConditionIsConvex(a, b, c, range[k]);
    }
  }

  /** The versions a caret means to stay within: no change to the leftmost number of e that is not zero. */
  predicate SameBreakingLine(v: Version, e: Version) {
    && v.major == e.major
    && (e.major == 0 ==> v.minor == e.minor && (e.minor == 0 ==> v.patch == e.patch))
  }

  /** The versions a tilde means to stay within: the same minor line, or the same major line when only a major was
      given. */
  predicate SameTildeLine(v: Version, c: Condition) {
    v.major == c.expected.major && (c.majorOnly || v.minor == c.expected.minor)
  }

  predicate PrereleaseOf(v: Version, release: Version) { SameCore(v, release) && v.prerelease.Some? }

  /** What a caret range accepts, for every version it can be given: the later versions of the same line, and besides
      them exactly the prereleases of its exclusive upper bound. */
  lemma CaretAccepts(v: Version, e: Version, majorOnly: bool)
    requires Parsed(v) && Parsed(e)
    ensures Meets(v, Condition(Caret, e, majorOnly)) <==>
              AtLeast(v, e) && (SameBreakingLine(v, e) || PrereleaseOf(v, CaretBound(e)))
    ensures Meets(v, Condition(Caret, e, majorOnly)) && !SameBreakingLine(v, e) <==> PrereleaseOf(v, CaretBound(e))
  {
    var top := CaretBound(e);
    BelowRelease(v, top.major, top.minor, top.patch);
  }

  /** The same for tilde ranges. */
  lemma TildeAccepts(v: Version, c: Condition)
    requires Parsed(v) && Parsed(c.expected) && c.op == Tilde
    ensures Meets(v, c) <==> AtLeast(v, c.expected) && (SameTildeLine(v, c) || PrereleaseOf(v, TildeBound(c)))
    ensures Meets(v, c) && !SameTildeLine(v, c) <==> PrereleaseOf(v, TildeBound(c))
  {
    var top := TildeBound(c);
    BelowRelease(v, top.major, top.minor, top.patch);
  }

  /** "A caret range never leaves its breaking line" is false: ^1.2.3 accepts 2.0.0-rc.1, and ^0.2.3 accepts
      0.3.0-rc.1. */
  lemma CaretAdmitsNextPrerelease()
    ensures var v := Version(2, 0, 0, Some(["rc", "1"]));
            Parsed(v) && Meets(v, Condition(Caret, Core(1, 2, 3), false)) && !SameBreakingLine(v, Core(1, 2, 3))
    ensures var v := Version(0, 3, 0, Some(["rc", "1"]));
            Parsed(v) && Meets(v, Condition(Caret, Core(0, 2, 3), false)) && !SameBreakingLine(v, Core(0, 2, 3))
  {
    var v := Version(2, 0, 0, Some(["rc", "1"]));
    assert "rc"[0] == 'r';
    CaretAccepts(v, Core(1, 2, 3), false);
    CaretAccepts(Version(0, 3, 0, v.prerelease), Core(0, 2, 3), false);
  }

  // ---------------------------------------------------------------- resolution

  type Key = (string, string)

  /** A published version of an artifact; no version when its text does not parse. */
  datatype Candidate = Candidate(key: Key, version: Option<Version>, digest: Digest)

  /** `applies` is the outcome of matching the project against the policy's pattern; no range when its text does not
      parse. */
  datatype Policy = Policy(applies: bool, key: Key, required: bool, range: Option<Range>)

  predicate HasVersion(c: Candidate) { c.version.Some? && Parsed(c.version.value) }

  predicate Usable(cs: seq<Candidate>) { forall k :: 0 <= k < |cs| ==> HasVersion(cs[k]) }

  predicate Fits(c: Candidate, range: Range) {
    c.version.Some? && Satisfies(c.version.value, range)
  }

  predicate Older(a: Candidate, b: Candidate) {
    a.version.Some? && b.version.Some? && Less(a.version.value, b.version.value)
  }

  /** The stable descending sort: an element goes in front of the first one that is not newer. */
  function Insert(c: Candidate, cs: seq<Candidate>): seq<Candidate> {
    if cs == [] || !Older(c, cs[0]) then [c] + cs else [cs[0]] + Insert(c, cs[1..])
  }

  function NewestFirst(cs: seq<Candidate>): seq<Candidate> {
    if cs == [] then [] else Insert(cs[0], NewestFirst(cs[1..]))
  }

  function FirstFit(cs: seq<Candidate>, range: Range): Option<Candidate> {
    if cs == [] then None else if Fits(cs[0], range) then Some(cs[0]) else FirstFit(cs[1..], range)
  }

  /** The published candidate a policy has to select: it fits, nothing that fits is newer, and it was listed first
      among its equals. */
  predicate IsBest(cs: seq<Candidate>, range: Range, i: nat) {
    && i < |cs| && Fits(cs[i], range)
    && (forall j :: 0 <= j < |cs| && Fits(cs[j], range) ==> !Older(cs[i], cs[j]))
    && (forall j :: 0 <= j < i && Fits(cs[j], range) ==> Older(cs[j], cs[i]))
  }

  predicate Descending(cs: seq<Candidate>) {
    forall i, j :: 0 <= i < j < |cs| ==> !Older(cs[i], cs[j])
  }

  lemma OlderIsTransitive(a: Candidate, b: Candidate, c: Candidate)
    requires HasVersion(a) && HasVersion(b) && HasVersion(c)
    ensures !Older(a, b) && !Older(b, c) ==> !Older(a, c)
    ensures Older(a, b) ==> !Older(b, a)
    ensures Older(a, b) && !Older(c, b) ==> Older(a, c)
    ensures !Older(b, a) && Older(b, c) ==> Older(a, c)
  {
    OrderIsTotal(a.version.value, b.version.value, c.version.value);
    OrderIsTotal(a.version.value, c.version.value, b.version.value);
    OrderIsTotal(b.version.value, a.version.value, c.version.value);
    OrderIsTotal(b.version.value, c.version.value, a.version.value);
  }

  lemma {:induction false} InsertAdds(c: Candidate, cs: seq<Candidate>)
    ensures multiset(Insert(c, cs)) == multiset(cs) + multiset{c}
  {
    if cs != [] && Older(c, cs[0]) {
      InsertAdds(c, cs[1..]);
      assert cs == [cs[0]] + cs[1..];
    }
  }

  lemma SameElements(a: seq<Candidate>, b: seq<Candidate>, c: Candidate)
    requires multiset(a) == multiset(b) + multiset{c} && Usable(b) && HasVersion(c)
    ensures Usable(a) && forall k :: 0 <= k < |a| ==> a[k] == c || a[k] in b
  {
    forall k | 0 <= k < |a| ensures HasVersion(a[k]) && (a[k] == c || a[k] in b) {
      assert a[k] in multiset(a);
    }
  }

  lemma {:induction false} InsertKeepsOrder(c: Candidate, cs: seq<Candidate>)
    requires HasVersion(c) && Usable(cs) && Descending(cs)
    ensures Descending(Insert(c, cs))
  {
    if cs == [] || !Older(c, cs[0]) {
      forall j | 0 <= j < |cs| ensures !Older(c, cs[j]) {
        OlderIsTransitive(c, cs[0], cs[j]);
        OlderIsTransitive(c, c, c);
      }
    } else {
      var rest := Insert(c, cs[1..]);
      InsertKeepsOrder(c, cs[1..]);
      InsertAdds(c, cs[1..]);
      SameElements(rest, cs[1..], c);
      OlderIsTransitive(c, cs[0], c);
      forall j | 0 <= j < |rest| ensures !Older(cs[0], rest[j]) {
        if rest[j] != c {
          var k :| 0 <= k < |cs[1..]| && cs[1..][k] == rest[j];
          assert rest[j] == cs[k + 1];
        }
      }
    }
  }

  lemma {:induction false} SortIsPermutation(cs: seq<Candidate>)
    requires Usable(cs)
    ensures Descending(NewestFirst(cs)) && multiset(NewestFirst(cs)) == multiset(cs) && Usable(NewestFirst(cs))
  {
    if cs == [] {
    } else {
      SortIsPermutation(cs[1..]);
      assert cs == [cs[0]] + cs[1..];
      InsertKeepsOrder(cs[0], NewestFirst(cs[1..]));
      InsertAdds(cs[0], NewestFirst(cs[1..]));
      SameElements(NewestFirst(cs), NewestFirst(cs[1..]), cs[0]);
    }
  }

  /** Inserting changes the first fit only when the new element fits and is not older. */
  lemma {:induction false} FirstFitAfterInsert(c: Candidate, cs: seq<Candidate>, range: Range)
    requires HasVersion(c) && Usable(cs) && Descending(cs)
    ensures FirstFit(Insert(c, cs), range)
              == if Fits(c, range) && (FirstFit(cs, range).None? || !Older(c, FirstFit(cs, range).value))
                  then Some(c) else FirstFit(cs, range)
  {
    var f := FirstFit(cs, range);
    FirstFitIsMember(cs, range);
    if cs == [] || !Older(c, cs[0]) {
      assert ([c] + cs)[1..] == cs;
      if f.Some? {
        var j :| 0 <= j < |cs| && cs[j] == f.value;
        OlderIsTransitive(c, cs[0], cs[j]);
        OlderIsTransitive(c, c, c);
      }
    } else {
      FirstFitAfterInsert(c, cs[1..], range);
      assert ([cs[0]] + Insert(c, cs[1..]))[1..] == Insert(c, cs[1..]);
    }
  }

  lemma {:induction false} FirstFitIsMember(cs: seq<Candidate>, range: Range)
    ensures FirstFit(cs, range).Some? ==> FirstFit(cs, range).value in cs && Fits(FirstFit(cs, range).value, range)
    ensures FirstFit(cs, range).None? ==> forall j :: 0 <= j < |cs| ==> !Fits(cs[j], range)
  {
    if cs == [] {
    } else {
      FirstFitIsMember(cs[1..], range);
      assert cs == [cs[0]] + cs[1..];
    }
  }

  /** A fitting element in front of a list is best when it is not older than the best of the list. */
  lemma BestInFront(c: Candidate, rest: seq<Candidate>, range: Range, k: nat)
    requires HasVersion(c) && Usable(rest) && Fits(c, range)
    requires (forall j :: 0 <= j < |rest| ==> !Fits(rest[j], range)) || (IsBest(rest, range, k) && !Older(c, rest[k]))
    ensures IsBest([c] + rest, range, 0)
  {
    var cs := [c] + rest;
    forall j | 0 <= j < |cs| && Fits(cs[j], range) ensures !Older(c, cs[j]) {
      OlderIsTransitive(c, c, c);
      if j > 0 {
        assert cs[j] == rest[j - 1] && Fits(rest[j - 1], range);
        OlderIsTransitive(c, rest[k], cs[j]);
      }
    }
  }

  /** The best of a list stays best behind an element that does not fit or is older. */
  lemma BestBehind(c: Candidate, rest: seq<Candidate>, range: Range, k: nat)
    requires HasVersion(c) && Usable(rest) && IsBest(rest, range, k)
    requires Fits(c, range) ==> Older(c, rest[k])
    ensures IsBest([c] + rest, range, k + 1)
  {
    var cs := [c] + rest;
    forall j | 0 <= j < |cs| && Fits(cs[j], range)
      ensures !Older(cs[k + 1], cs[j]) && (j < k + 1 ==> Older(cs[j], cs[k + 1]))
    {
      if j > 0 {
        assert cs[j] == rest[j - 1];
      } else {
        OlderIsTransitive(c, rest[k], c);
      }
    }
  }

  /** Sorting and taking the first fit selects the best candidate, and nothing exactly when nothing fits. */
  lemma {:induction false} SelectionIsBest(cs: seq<Candidate>, range: Range) returns (i: nat)
    requires Usable(cs)
    ensures FirstFit(NewestFirst(cs), range).Some? ==>
            IsBest(cs, range, i) && FirstFit(NewestFirst(cs), range).value == cs[i]
    ensures FirstFit(NewestFirst(cs), range).None? <==> forall j :: 0 <= j < |cs| ==> !Fits(cs[j], range)
  {
    i := 0;
    if cs == [] {
    } else {
      var c, rest := cs[0], cs[1..];
      assert cs == [c] + rest;
      var k := SelectionIsBest(rest, range);
      SortIsPermutation(rest);
      FirstFitAfterInsert(c, NewestFirst(rest), range);
      var f := FirstFit(NewestFirst(rest), range);
      if Fits(c, range) && (f.None? || !Older(c, f.value)) {
        BestInFront(c, rest, range, k);
      } else if f.Some? {
        i := k + 1;
        BestBehind(c, rest, range, k);
      }
    }
  }

  lemma BestIsUnique(cs: seq<Candidate>, range: Range, i: nat, j: nat)
    requires IsBest(cs, range, i) && IsBest(cs, range, j)
    ensures i == j
  {
  }

  // ---------------------------------------------------------------- the resolver

  datatype Resolution = Resolved(chosen: seq<Candidate>) | InvalidPolicy(index: nat)

  function Listed(available: map<Key, seq<Candidate>>, key: Key): seq<Candidate> {
    if key in available then available[key] else []
  }

  /** The first policy, in priority order, that applies to its artifact. */
  predicate Decides(policies: seq<Policy>, i: nat) {
    && i < |policies| && policies[i].applies
    && forall j :: 0 <= j < i && policies[j].applies ==> policies[j].key != policies[i].key
  }

  predicate Broken(p: Policy, available: map<Key, seq<Candidate>>) {
    p.range.None? || exists k :: 0 <= k < |Listed(available, p.key)| && Listed(available, p.key)[k].version.None?
  }

  /** What the first n policies resolve to. */
  function Resolve(policies: seq<Policy>, available: map<Key, seq<Candidate>>, n: nat): Resolution
    requires n <= |policies|
  {
    if n == 0 then Resolved([])
    else
      var before := Resolve(policies, available, n - 1);
      var p := policies[n - 1];
      if before.InvalidPolicy? || !Decides(policies, n - 1) || !p.required then before
      else if Broken(p, available) then InvalidPolicy(n - 1)
      else
        var selected := FirstFit(NewestFirst(Listed(available, p.key)), p.range.value);
        if selected.Some? then Resolved(before.chosen + [selected.value]) else before
  }

  method ResolvePolicies(policies: seq<Policy>, available: map<Key, seq<Candidate>>) returns (r: Resolution)
    ensures r == Resolve(policies, available, |policies|)
  {
    var seen: set<Key> := {};
    var resolved: seq<Candidate> := [];
    for i := 0 to |policies|
      invariant Resolve(policies, available, i) == Resolved(resolved)
      invariant forall key :: key in seen <==> exists j :: 0 <= j < i && policies[j].applies && policies[j].key == key
    {
      var p := policies[i];
      if !p.applies || p.key in seen {
        continue;
      }
      assert Decides(policies, i);
      seen := seen + {p.key};
      if !p.required {
        continue;
      }
      var listed := Listed(available, p.key);
      if p.range.None? || exists k :: 0 <= k < |listed| && listed[k].version.None? {
        StaysInvalid(policies, available, i + 1);
        return InvalidPolicy(i);
      }
      var selected := FirstFit(NewestFirst(listed), p.range.value);
      if selected.Some? {
        resolved := resolved + [selected.value];
      }
    }
    r := Resolved(resolved);
  }

  lemma {:induction false} StaysInvalid(policies: seq<Policy>, available: map<Key, seq<Candidate>>, n: nat)
    requires n <= |policies| && Resolve(policies, available, n).InvalidPolicy?
    ensures Resolve(policies, available, |policies|) == Resolve(policies, available, n)
    decreases |policies| - n
  {
    if n < |policies| {
      StaysInvalid(policies, available, n + 1);
    }
  }

  /** Candidates are listed under their own artifact, with parsed versions where they have one. */
  predicate Grouped(available: map<Key, seq<Candidate>>) {
    forall key :: key in available ==>
      forall k :: 0 <= k < |available[key]| ==>
        available[key][k].key == key && (available[key][k].version.Some? ==> HasVersion(available[key][k]))
  }

  /** Policy i puts candidate c into the result. */
  ghost predicate Contributes(policies: seq<Policy>, available: map<Key, seq<Candidate>>, i: nat, c: Candidate) {
    && Decides(policies, i) && policies[i].required && policies[i].range.Some?
    && exists k: nat ::
         IsBest(Listed(available, policies[i].key), policies[i].range.value, k)
             && Listed(available, policies[i].key)[k] == c
  }

  lemma {:induction false} ResolutionIsDecided(policies: seq<Policy>, available: map<Key, seq<Candidate>>, n: nat)
    requires n <= |policies| && Grouped(available) && Resolve(policies, available, n).Resolved?
    ensures var chosen := Resolve(policies, available, n).chosen;
            && (forall c :: c in chosen <==> exists i: nat :: i < n && Contributes(policies, available, i, c))
            && (forall a, b :: 0 <= a < b < |chosen| ==> chosen[a].key != chosen[b].key)
  {
    if n == 0 {
    } else {
      var p := policies[n - 1];
      var chosen := Resolve(policies, available, n).chosen;
      var before := Resolve(policies, available, n - 1).chosen;
      ResolutionIsDecided(policies, available, n - 1);
      StepContributes(policies, available, n - 1, chosen, before);
      if chosen != before {
        forall a | 0 <= a < |before| ensures before[a].key != p.key {
          assert before[a] in before;
          var i: nat :| i < n - 1 && Contributes(policies, available, i, before[a]);
          assert before[a].key == policies[i].key && policies[i].applies;
        }
      }
      forall c ensures c in chosen <==> exists i: nat :: i < n && Contributes(policies, available, i, c) {
        if c in chosen && c !in before {
          assert Contributes(policies, available, n - 1, c);
        }
        if c in before {
          var i: nat :| i < n - 1 && Contributes(policies, available, i, c);
          assert i < n && Contributes(policies, available, i, c);
        }
      }
    }
  }

  lemma StepContributes(policies: seq<Policy>, available: map<Key, seq<Candidate>>, i: nat, chosen: seq<Candidate>,
                        before: seq<Candidate>)
    requires i < |policies| && Grouped(available)
    requires Resolve(policies, available, i) == Resolved(before)
    requires Resolve(policies, available, i + 1) == Resolved(chosen)
    ensures (chosen == before && forall c :: !Contributes(policies, available, i, c))
            || (exists c :: chosen == before + [c] && c.key == policies[i].key && Contributes(policies, available, i, c)
                            && forall d :: Contributes(policies, available, i, d) ==> d == c)
  {
    var p := policies[i];
    var listed := Listed(available, p.key);
    if Decides(policies, i) && p.required {
      var k := SelectionIsBest(listed, p.range.value);
      var selected := FirstFit(NewestFirst(listed), p.range.value);
      if selected.Some? {
        forall d | Contributes(policies, available, i, d) ensures d == selected.value {
          var j: nat :| IsBest(listed, p.range.value, j) && listed[j] == d;
          BestIsUnique(listed, p.range.value, k, j);
        }
        assert Contributes(policies, available, i, selected.value);
      }
    }
  }

  /** Resolution as a whole: at most one version per artifact and kind; a version is in the result exactly when the
      first applicable policy of its artifact requires it and it is the newest listed version in that policy's range. */
  lemma FirstMatchDecides(policies: seq<Policy>, available: map<Key, seq<Candidate>>)
    requires Grouped(available) && Resolve(policies, available, |policies|).Resolved?
    ensures var chosen := Resolve(policies, available, |policies|).chosen;
            && (forall a, b :: 0 <= a < b < |chosen| ==> chosen[a].key != chosen[b].key)
            && (forall c :: c in chosen <==> exists i: nat :: i < |policies| && Contributes(policies, available, i, c))
  {
    ResolutionIsDecided(policies, available, |policies|);
  }

  /** The whole request fails exactly when some deciding, required policy has a bad range or a bad listed version,
      and it names the first of them. A bad policy that is shadowed or optional does no harm. */
  lemma {:induction false} FailsExactlyOnBrokenPolicy(
      policies: seq<Policy>, available: map<Key, seq<Candidate>>, n: nat)
    requires n <= |policies|
    ensures var r := Resolve(policies, available, n);
            && (r.InvalidPolicy? <==>
                 exists i: nat ::
                     i < n && Decides(policies, i) && policies[i].required && Broken(policies[i], available))
            && (r.InvalidPolicy? ==>
                  && r.index < n && Decides(policies, r.index) && policies[r.index].required
                  && Broken(policies[r.index], available)
                  && forall i: nat :: i < r.index && Decides(policies, i) && policies[i].required ==>
                       !Broken(policies[i], available))
  {
    if n == 0 {
    } else {
      FailsExactlyOnBrokenPolicy(policies, available, n - 1);
    }
  }
}
