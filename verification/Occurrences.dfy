/** Counting how many candidates share their first physical extent (dupion/src/dedup/mod.rs). */
module Occurrences {

  datatype Candidate = Candidate(id: nat, phys: nat, occurrences: nat, fileSize: nat, nExtends: nat, ctime: int)

  /** The number of candidates at physical offset `p`. */
  function CountPhys(s: seq<Candidate>, p: nat): nat {
    if s == [] then 0 else CountPhys(s[..|s| - 1], p) + if s[|s| - 1].phys == p then 1 else 0
  }

  ghost predicate SortedByPhys(s: seq<Candidate>) {
    forall i, j :: 0 <= i < j < |s| ==> s[i].phys <= s[j].phys
  }

  /** `b` is `a` with the occurrences of the first `n` entries counted among the entries up to
      themselves, and those from `m` on counted among all. */
  ghost predicate Counted(a: seq<Candidate>, b: seq<Candidate>, n: nat, m: nat) {
    |b| == |a| && forall k :: 0 <= k < |a| ==> CountedAt(a, b, n, m, k)
  }

  ghost predicate CountedAt(a: seq<Candidate>, b: seq<Candidate>, n: nat, m: nat, k: nat)
    requires k < |a| == |b|
  {
    b[k] == if k >= m then a[k].(occurrences := CountPhys(a, a[k].phys))
            else if k < n then a[k].(occurrences := CountPhys(a[..k + 1], a[k].phys)) else a[k]
  }

  lemma {:induction false} NoneBehind(a: seq<Candidate>, p: nat, n: nat)
    requires n <= |a| && forall k :: n <= k < |a| ==> a[k].phys != p
    ensures CountPhys(a, p) == CountPhys(a[..n], p)
    decreases |a|
  {
    if n < |a| {
      NoneBehind(a[..|a| - 1], p, n);
      assert a[..|a| - 1][..n] == a[..n];
    } else {
      assert a[..n] == a;
    }
  }

  lemma {:induction false} NoneAtAll(a: seq<Candidate>, p: nat)
    requires forall k :: 0 <= k < |a| ==> a[k].phys != p
    ensures CountPhys(a, p) == 0
  {
    if a != [] { NoneAtAll(a[..|a| - 1], p); }
  }

  /** Give every candidate the number of candidates at its physical offset. */
  method CountPhysOccurrencesSorted(v: array<Candidate>)
    requires SortedByPhys(v[..])
    modifies v
    ensures forall k :: 0 <= k < v.Length ==>
      v[k] == old(v[k]).(occurrences := CountPhys(old(v[..]), old(v[k]).phys))
  {
    hide Counted, CountPhys;
    ghost var a := v[..];
    if v.Length == 0 { return; }
    var currentPhys, currentCount := v[0].phys, 0;
    Start(a);
    for i := 0 to v.Length
      invariant Counted(a, v[..], i, v.Length)
      invariant currentCount == CountPhys(a[..i], currentPhys)
      invariant currentPhys == a[if i == 0 then 0 else i - 1].phys
    {
      ghost var before := v[..];
      Untouched(a, before, i);
      if currentPhys != v[i].phys {
        currentPhys, currentCount := v[i].phys, 0;
        NoneAtAll(a[..i], currentPhys);
      }
      OneMore(a, i, currentPhys);
      currentCount := currentCount + 1;
      v[i] := v[i].(occurrences := currentCount);
      CountedStep(a, before, v[..], i, i + 1);
    }
    assert a[..v.Length] == a;
    for i := v.Length downto 0
      invariant Counted(a, v[..], v.Length, i)
      invariant currentPhys == a[if i == v.Length then i - 1 else i].phys
      invariant currentCount == CountPhys(a, currentPhys)
    {
      ghost var before := v[..];
      RunSoFar(a, before, i);
      if currentPhys != v[i].phys {
        currentPhys, currentCount := v[i].phys, v[i].occurrences;
        NoneBehind(a, currentPhys, i + 1);
      }
      v[i] := v[i].(occurrences := currentCount);
      CountedBack(a, before, v[..], i);
    }
    AllCounted(a, v[..]);
  }

  lemma {:induction false} Start(a: seq<Candidate>)
    ensures Counted(a, a, 0, |a|) && forall p :: CountPhys(a[..0], p) == 0
  {
  }

  lemma {:induction false} Untouched(a: seq<Candidate>, b: seq<Candidate>, i: nat)
    requires i < |a| && Counted(a, b, i, |a|)
    ensures |b| == |a| && b[i] == a[i]
  {
    assert CountedAt(a, b, i, |a|, i);
  }

  lemma {:induction false} RunSoFar(a: seq<Candidate>, b: seq<Candidate>, i: nat)
    requires i < |a| && Counted(a, b, |a|, i + 1)
    ensures |b| == |a| && b[i] == a[i].(occurrences := CountPhys(a[..i + 1], a[i].phys))
  {
    assert CountedAt(a, b, |a|, i + 1, i);
  }

  lemma {:induction false} OneMore(a: seq<Candidate>, i: nat, p: nat)
    requires i < |a| && a[i].phys == p
    ensures CountPhys(a[..i + 1], p) == CountPhys(a[..i], p) + 1
  {
    assert a[..i + 1][..i] == a[..i];
  }

  lemma {:induction false} AllCounted(a: seq<Candidate>, b: seq<Candidate>)
    requires Counted(a, b, |a|, 0)
    ensures |b| == |a| && forall k :: 0 <= k < |a| ==> b[k] == a[k].(occurrences := CountPhys(a, a[k].phys))
  {
    forall k | 0 <= k < |a|
      ensures b[k] == a[k].(occurrences := CountPhys(a, a[k].phys))
    {
      assert CountedAt(a, b, |a|, 0, k);
    }
  }

  lemma {:induction false} CountedStep(a: seq<Candidate>, b: seq<Candidate>, c: seq<Candidate>, i: nat, n: nat)
    requires i < |a| && n == i + 1 && Counted(a, b, i, |a|)
    requires c == b[i := a[i].(occurrences := CountPhys(a[..n], a[i].phys))]
    ensures Counted(a, c, n, |a|)
  {
    forall k | 0 <= k < |a|
      ensures CountedAt(a, c, n, |a|, k)
    {
      assert CountedAt(a, b, i, |a|, k);
    }
  }

  lemma {:induction false} CountedBack(a: seq<Candidate>, b: seq<Candidate>, c: seq<Candidate>, i: nat)
    requires i < |a| && Counted(a, b, |a|, i + 1)
    requires c == b[i := a[i].(occurrences := CountPhys(a, a[i].phys))]
    ensures Counted(a, c, |a|, i)
  {
    forall k | 0 <= k < |a|
      ensures CountedAt(a, c, |a|, i, k)
    {
      assert CountedAt(a, b, |a|, i + 1, k);
    }
  }
}
