/** Small definitions shared by the other modules. */
module Basics {

  datatype Option<+T> = None | Some(value: T)

  newtype byte = x: int | 0 <= x < 256

  type Bytes = seq<byte>

  /** No element occurs twice. */
  ghost predicate NoDup<T>(s: seq<T>) {
    forall i, j :: 0 <= i < j < |s| ==> s[i] != s[j]
  }

  function Max(a: int, b: int): int { if a < b then b else a }

  function Min(a: int, b: int): int { if a < b then a else b }

  /** Of two prefixes of one sequence the shorter is a prefix of the other. */
  lemma {:induction false} PrefixesMeet<T>(p: seq<T>, q: seq<T>, r: seq<T>)
    requires p <= r && q <= r
    ensures if |p| < |q| then p <= q else q <= p
  {
    if |p| < |q| { assert p == r[..|p|] == q[..|p|]; } else { assert q == r[..|q|] == p[..|q|]; }
  }
}
