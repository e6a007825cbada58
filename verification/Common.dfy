/** Shared vocabulary: optional values, clock readings, identities and the classification ladder. */
module Common {

  datatype Option<+T> = None | Some(value: T)

  /** A database clock reading in seconds. */
  type Time = int

  /** Opaque identities and digests. Equality is all the service ever uses of them. */
  type User = string
  type Digest = string

  /** The ordered classification labels (continuity/common.py). */
  datatype Classification = Public | Internal | Confidential | Restricted {
    function Rank(): nat {
      match this
      case Public => 0
      case Internal => 1
      case Confidential => 2
      case Restricted => 3
    }
  }

  function MaxClass(a: Classification, b: Classification): Classification {
    if a.Rank() < b.Rank() then b else a
  }

  function Min(a: int, b: int): int { if a <= b then a else b }

  function Max(a: int, b: int): int { if a <= b then b else a }

  lemma Assoc<T>(a: seq<T>, b: seq<T>, c: seq<T>)
    ensures (a + b) + c == a + (b + c)
  {
  }

  /** A text with every character replaced by its image. */
  function Spread(s: string, f: char -> string): string {
    if s == [] then [] else Spread(s[..|s| - 1], f) + f(s[|s| - 1])
  }

  lemma {:induction false} SpreadFirst(s: string, f: char -> string)
    requires s != []
    ensures Spread(s, f) == f(s[0]) + Spread(s[1..], f)
  {
    var n := |s| - 1;
    var tail := s[1..];
    if n == 0 {
      assert Spread(s[..0], f) == [] && Spread(tail, f) == [];
    } else {
      SpreadFirst(s[..n], f);
      assert s[..n][1..] == tail[..n - 1] && s[..n][0] == s[0];
      Assoc(f(s[0]), Spread(tail[..n - 1], f), f(s[n]));
    }
  }
}
