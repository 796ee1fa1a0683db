/** Sorting of (hash, name) pairs by their bytes, and why the order of the input is irrelevant. */
module PairSort {
  import opened Basics
  import opened Arenas

  type Pair = (Hash, Name)

  predicate LexLe(a: Bytes, b: Bytes) {
    a == [] || (b != [] && (a[0] < b[0] || (a[0] == b[0] && LexLe(a[1..], b[1..]))))
  }

  predicate PairLe(p: Pair, q: Pair) {
    if p.0 != q.0 then LexLe(p.0, q.0) else LexLe(p.1, q.1)
  }

  lemma {:induction false} LexTotal(a: Bytes, b: Bytes)
    ensures LexLe(a, b) || LexLe(b, a)
    ensures LexLe(a, b) && LexLe(b, a) ==> a == b
  {
    if a != [] && b != [] && a[0] == b[0] {
      LexTotal(a[1..], b[1..]);
      assert a == [a[0]] + a[1..] && b == [b[0]] + b[1..];
    }
  }

  lemma {:induction false} LexTrans(a: Bytes, b: Bytes, c: Bytes)
    requires LexLe(a, b) && LexLe(b, c)
    ensures LexLe(a, c)
  {
    if a != [] && a[0] == b[0] && b[0] == c[0] {
      LexTrans(a[1..], b[1..], c[1..]);
    }
  }

  lemma {:induction false} PairTotal(p: Pair, q: Pair)
    ensures PairLe(p, q) || PairLe(q, p)
    ensures PairLe(p, q) && PairLe(q, p) ==> p == q
  {
    LexTotal(p.0, q.0);
    LexTotal(p.1, q.1);
  }

  lemma {:induction false} PairTrans(p: Pair, q: Pair, r: Pair)
    requires PairLe(p, q) && PairLe(q, r)
    ensures PairLe(p, r)
  {
    if p.0 != q.0 && q.0 != r.0 {
      LexTrans(p.0, q.0, r.0);
      if p.0 == r.0 { LexTotal(p.0, q.0); }
    } else if p.0 == q.0 && q.0 == r.0 {
      LexTrans(p.1, q.1, r.1);
    }
  }

  ghost predicate SortedPairs(s: seq<Pair>) {
    forall i, j :: 0 <= i < j < |s| ==> PairLe(s[i], s[j])
  }

  function Insert(p: Pair, s: seq<Pair>): seq<Pair> {
    if s == [] || PairLe(p, s[0]) then [p] + s else [s[0]] + Insert(p, s[1..])
  }

  function Sort(s: seq<Pair>): seq<Pair> {
    if s == [] then [] else Insert(s[0], Sort(s[1..]))
  }

  lemma {:induction false} InsertSorted(p: Pair, s: seq<Pair>)
    requires SortedPairs(s)
    ensures SortedPairs(Insert(p, s)) && multiset(Insert(p, s)) == multiset{p} + multiset(s)
  {
    if s == [] {
    } else if PairLe(p, s[0]) {
      forall j | 0 < j < |s|
        ensures PairLe(p, s[j])
      {
        PairTrans(p, s[0], s[j]);
      }
    } else {
      var t := Insert(p, s[1..]);
      InsertSorted(p, s[1..]);
      PairTotal(p, s[0]);
      assert s == [s[0]] + s[1..];
      forall j | 0 <= j < |t|
        ensures PairLe(s[0], t[j])
      {
        assert t[j] in multiset(t);
        assert t[j] == p || t[j] in s[1..];
      }
    }
  }

  /** `Sort` returns the same pairs in order. */
  lemma {:induction false} SortSorts(s: seq<Pair>)
    ensures SortedPairs(Sort(s)) && multiset(Sort(s)) == multiset(s)
  {
    if s != [] {
      SortSorts(s[1..]);
      InsertSorted(s[0], Sort(s[1..]));
      assert s == [s[0]] + s[1..];
    }
  }

  lemma {:induction false} SortedUnique(s: seq<Pair>, t: seq<Pair>)
    requires SortedPairs(s) && SortedPairs(t) && multiset(s) == multiset(t)
    ensures s == t
  {
    if s == [] {
      assert |multiset(t)| == 0;
    } else {
      assert |multiset(t)| == |multiset(s)| == |s|;
      SameHead(s, t);
      TailMultiset(s);
      TailMultiset(t);
      SortedUnique(s[1..], t[1..]);
    }
  }

  lemma {:induction false} TailMultiset(s: seq<Pair>)
    requires s != []
    ensures multiset(s[1..]) == multiset(s) - multiset{s[0]}
    ensures s == [s[0]] + s[1..]
  {
    assert s == [s[0]] + s[1..];
  }

  lemma {:induction false} SameHead(s: seq<Pair>, t: seq<Pair>)
    requires SortedPairs(s) && SortedPairs(t) && multiset(s) == multiset(t) && s != [] && t != []
    ensures s[0] == t[0]
  {
    assert s[0] in multiset(t) && t[0] in multiset(s);
    PairTotal(s[0], t[0]);
    HeadIsLeast(s, t[0]);
    HeadIsLeast(t, s[0]);
  }

  lemma {:induction false} HeadIsLeast(s: seq<Pair>, p: Pair)
    requires SortedPairs(s) && s != [] && p in s
    ensures PairLe(s[0], p)
  {
    var k :| 0 <= k < |s| && s[k] == p;
    if k == 0 { PairTotal(p, p); }
  }

  /** Two lists of the same pairs are sorted to the same list. */
  lemma {:induction false} SortCanonical(s: seq<Pair>, t: seq<Pair>)
    requires multiset(s) == multiset(t)
    ensures Sort(s) == Sort(t)
  {
    SortSorts(s);
    SortSorts(t);
    SortedUnique(Sort(s), Sort(t));
  }

  // ----- the order, on bytes

  /** `a` comes before `b`: it is a proper prefix, or smaller at the first byte where they differ. */
  ghost predicate Before(a: Bytes, b: Bytes) {
    a < b || exists k :: FirstSmaller(a, b, k)
  }

  ghost predicate FirstSmaller(a: Bytes, b: Bytes, k: nat) {
    k < |a| && k < |b| && a[..k] == b[..k] && a[k] < b[k]
  }

  lemma {:induction false} LexMeans(a: Bytes, b: Bytes)
    requires LexLe(a, b) && a != b
    ensures Before(a, b)
  {
    if a == [] {
      assert a < b;
    } else if a[0] < b[0] {
      assert FirstSmaller(a, b, 0);
    } else {
      assert a == [a[0]] + a[1..] && b == [b[0]] + b[1..];
      LexMeans(a[1..], b[1..]);
      if k: nat :| FirstSmaller(a[1..], b[1..], k) {
        assert a[..k + 1] == [a[0]] + a[1..][..k] && b[..k + 1] == [b[0]] + b[1..][..k];
        assert FirstSmaller(a, b, k + 1);
      }
    }
  }

  /** The pairs are sorted by their hashes, and those with one hash by their names. */
  lemma {:induction false} SortMeans(s: seq<Pair>, i: nat, j: nat)
    requires i < j < |Sort(s)|
    ensures var p, q := Sort(s)[i], Sort(s)[j]; Before(p.0, q.0) || (p.0 == q.0 && (p.1 == q.1 || Before(p.1, q.1)))
  {
    SortSorts(s);
    hide Sort, LexLe, Before;
    var p, q := Sort(s)[i], Sort(s)[j];
    assert PairLe(p, q);
    if p.0 != q.0 { LexMeans(p.0, q.0); } else if p.1 != q.1 { LexMeans(p.1, q.1); }
  }
}
