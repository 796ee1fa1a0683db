/** Trees of the same names and contents have the same hash, whatever the order of children. */
module Twins {
  import opened Basics
  import opened Arenas
  import opened PairSort
  import opened DirHashes
  import opened DirMeaning

  /** `a` and `b` head the same tree: the same names, with leaves that `eq` relates. */
  ghost predicate Same(es: Arena, a: VfsId, fs: Arena, b: VfsId, eq: (VfsId, VfsId) -> bool)
    requires Tree(es) && Tree(fs) && a < |es| && b < |fs|
    decreases |es| - a
  {
    && es[a].isFile == fs[b].isFile && es[a].isDir == fs[b].isDir
    && (es[a].isFile ==> eq(a, b))
    && (es[a].isDir ==>
          && (forall j :: 0 <= j < |es[a].childs| && Present(es, es[a].childs[j]) ==>
                exists k :: 0 <= k < |fs[b].childs| && SameKid(es, a, j, fs, b, k, eq))
          && (forall k :: 0 <= k < |fs[b].childs| && Present(fs, fs[b].childs[k]) ==>
                exists j :: 0 <= j < |es[a].childs| && SameKid(es, a, j, fs, b, k, eq)))
  }

  ghost predicate Present(es: Arena, c: VfsId) {
    c < |es| && es[c].Exists()
  }

  ghost predicate SameKid(es: Arena, a: VfsId, j: nat, fs: Arena, b: VfsId, k: nat, eq: (VfsId, VfsId) -> bool)
    requires Tree(es) && Tree(fs) && a < |es| && b < |fs| && j < |es[a].childs| && k < |fs[b].childs|
    decreases |es| - a, 0
  {
    var c, d := es[a].childs[j], fs[b].childs[k];
    && Link(es, a, c) && Link(fs, b, d) && Present(es, c) && Present(fs, d)
    && es[c].plc == fs[d].plc && Same(es, c, fs, d, eq)
  }

  // ----- permutations of the list of children

  lemma {:induction false} KidsConcat(a: seq<Kid>, b: seq<Kid>)
    ensures SumSizes(a + b) == SumSizes(a) + SumSizes(b)
    ensures Pairs(a + b) == Pairs(a) + Pairs(b)
  {
    if b == [] {
      assert a + b == a;
    } else {
      assert (a + b)[..|a + b| - 1] == a + b[..|b| - 1];
      KidsConcat(a, b[..|b| - 1]);
    }
  }

  function PairOf(k: Kid): Pair { (k.hash, FileName(k.name)) }

  function Without(ks: seq<Kid>, i: nat): seq<Kid>
    requires i < |ks|
  {
    ks[..i] + ks[i + 1..]
  }

  lemma {:induction false} MiddleOut<T>(a: seq<T>, x: T, b: seq<T>)
    ensures multiset(a + [x] + b) == multiset(a + b) + multiset{x}
  {
  }

  lemma {:induction false} CancelOne<T>(m: multiset<T>, n: multiset<T>, x: T)
    requires m + multiset{x} == n + multiset{x}
    ensures m == n
  {
    assert m == (m + multiset{x}) - multiset{x};
    assert n == (n + multiset{x}) - multiset{x};
  }

  lemma {:induction false} SingleKid(k: Kid)
    ensures SumSizes([k]) == k.size && Pairs([k]) == [PairOf(k)]
  {
    assert [k][..0] == [];
  }

  lemma {:induction false} Reassemble<T>(s: seq<T>, i: nat)
    requires i < |s|
    ensures s == s[..i] + [s[i]] + s[i + 1..]
  {
  }

  /** One child more or less, wherever it stands. */
  lemma {:induction false} TakeOut(ks: seq<Kid>, i: nat)
    requires i < |ks|
    ensures SumSizes(ks) == SumSizes(Without(ks, i)) + ks[i].size
    ensures multiset(Pairs(ks)) == multiset(Pairs(Without(ks, i))) + multiset{PairOf(ks[i])}
    ensures multiset(ks) == multiset(Without(ks, i)) + multiset{ks[i]}
  {
    var a, x, b := ks[..i], [ks[i]], ks[i + 1..];
    hide SumSizes, Pairs, PairOf;
    SingleKid(ks[i]);
    Reassemble(ks, i);
    KidsConcat(a + x, b);
    KidsConcat(a, x);
    KidsConcat(a, b);
    MiddleOut(a, ks[i], b);
    MiddleOut(Pairs(a), PairOf(ks[i]), Pairs(b));
  }

  /** Total size and sorted pairs do not depend on the order of the children. */
  lemma {:induction false} OrderIrrelevant(ks: seq<Kid>, ls: seq<Kid>)
    requires multiset(ks) == multiset(ls)
    ensures SumSizes(ks) == SumSizes(ls) && multiset(Pairs(ks)) == multiset(Pairs(ls))
    decreases |ks|
  {
    assert |multiset(ks)| == |ks| == |ls|;
    if ks == [] {
      assert ls == [];
    } else {
      hide SumSizes, Pairs, PairOf, Without;
      var i := IndexIn(ks, ls[0], ls);
      TakeOut(ks, i);
      TakeOut(ls, 0);
      SmallerWithout(ks, i);
      CancelOne(multiset(Without(ks, i)), multiset(Without(ls, 0)), ls[0]);
      OrderIrrelevant(Without(ks, i), Without(ls, 0));
    }
  }

  lemma {:induction false} IndexIn(ks: seq<Kid>, x: Kid, ls: seq<Kid>) returns (i: nat)
    requires multiset(ks) == multiset(ls) && x in ls
    ensures i < |ks| && ks[i] == x
  {
    assert x in multiset(ks);
    i :| i < |ks| && ks[i] == x;
  }

  lemma {:induction false} SmallerWithout(ks: seq<Kid>, i: nat)
    requires i < |ks|
    ensures |Without(ks, i)| < |ks|
  {
  }

  lemma {:induction false} NoDupMultiset(ks: seq<Kid>, x: Kid)
    requires NoDup(ks)
    ensures multiset(ks)[x] == if x in ks then 1 else 0
  {
    if ks != [] {
      assert ks == ks[..|ks| - 1] + [ks[|ks| - 1]];
      NoDupMultiset(ks[..|ks| - 1], x);
    }
  }

  // ----- the children of a directory

  ghost predicate IsKid(H: Hasher, es: Arena, id: VfsId, k: nat, x: Kid)
    requires Tree(es) && id < |es| && k < |es[id].childs|
  {
    var c := es[id].childs[k];
    Present(es, c) && Calc(H, es, c).Some? && x == Kid(es[c].plc, Calc(H, es, c).value.0, Calc(H, es, c).value.1)
  }

  lemma {:induction false} KidsAre(H: Hasher, es: Arena, id: VfsId, m: nat)
    requires Tree(es) && id < |es| && m <= |es[id].childs| && Kids(H, es, id, m).Some?
    ensures forall x :: x in Kids(H, es, id, m).value <==> exists k :: 0 <= k < m && IsKid(H, es, id, k, x)
  {
    if m > 0 {
      LinkOf(es, id, es[id].childs[m - 1]);
      KidsAre(H, es, id, m - 1);
      forall x
        ensures x in Kids(H, es, id, m).value <==> exists k :: 0 <= k < m && IsKid(H, es, id, k, x)
      {
        assert IsKid(H, es, id, m - 1, x) || !IsKid(H, es, id, m - 1, x);
      }
    }
  }

  lemma {:induction false} KidsNoDup(H: Hasher, es: Arena, id: VfsId, m: nat)
    requires Tree(es) && id < |es| && m <= |es[id].childs| && Kids(H, es, id, m).Some?
    ensures NoDup(Kids(H, es, id, m).value)
  {
    if m > 0 {
      LinkOf(es, id, es[id].childs[m - 1]);
      KidsNoDup(H, es, id, m - 1);
      KidsAre(H, es, id, m - 1);
      var before := Kids(H, es, id, m - 1).value;
      forall i | 0 <= i < |before|
        ensures before[i].name != es[es[id].childs[m - 1]].plc
      {
        assert before[i] in before;
        var k :| 0 <= k < m - 1 && IsKid(H, es, id, k, before[i]);
        assert es[es[id].childs[k]].plc != es[es[id].childs[m - 1]].plc;
      }
    }
  }

  /** Related leaves below `a` and `b` have the same size and hash. */
  ghost predicate LeavesAgree(es: Arena, a: VfsId, fs: Arena, b: VfsId, eq: (VfsId, VfsId) -> bool) {
    forall x: VfsId, y: VfsId :: Reached(es, a, x) && Reached(fs, b, y) && es[x].isFile && fs[y].isFile && eq(x, y) ==>
      es[x].fileSize == fs[y].fileSize && es[x].fileHash == fs[y].fileHash
  }

  lemma {:induction false} KidsAgree(es: Arena, a: VfsId, j: nat, fs: Arena, b: VfsId, k: nat,
                                     eq: (VfsId, VfsId) -> bool)
    requires Tree(es) && Tree(fs) && a < |es| && b < |fs| && es[a].isDir && fs[b].isDir
    requires j < |es[a].childs| && k < |fs[b].childs| && SameKid(es, a, j, fs, b, k, eq)
    requires LeavesAgree(es, a, fs, b, eq)
    ensures LeavesAgree(es, es[a].childs[j], fs, fs[b].childs[k], eq)
  {
    forall x: VfsId, y: VfsId | Reached(es, es[a].childs[j], x) && Reached(fs, fs[b].childs[k], y)
      ensures Reached(es, a, x) && Reached(fs, b, y)
    {
      assert Via(es, a, j, x) && Via(fs, b, k, y);
      ViaReaches(es, a, j, x);
      ViaReaches(fs, b, k, y);
    }
  }

  /** Equal trees get equal sizes and hashes, also when their children are listed in different
      orders, in one arena or in two. */
  lemma {:induction false} SameTreesSameHash(H: Hasher, es: Arena, a: VfsId, fs: Arena, b: VfsId,
                                             eq: (VfsId, VfsId) -> bool)
    requires Tree(es) && Tree(fs) && a < |es| && b < |fs|
    requires Same(es, a, fs, b, eq) && LeavesAgree(es, a, fs, b, eq)
    ensures Calc(H, es, a) == Calc(H, fs, b)
    ensures es[a].isDir ==> DirProps(H, es, a) == DirProps(H, fs, b)
    decreases |es| - a, 1
  {
    ReachedThrough(es, a, a);
    ReachedThrough(fs, b, b);
    if es[a].isDir {
      var m, n := |es[a].childs|, |fs[b].childs|;
      forall j, k | 0 <= j < m && 0 <= k < n && SameKid(es, a, j, fs, b, k, eq)
        ensures Calc(H, es, es[a].childs[j]) == Calc(H, fs, fs[b].childs[k])
      {
        KidsAgree(es, a, j, fs, b, k, eq);
        SameTreesSameHash(H, es, es[a].childs[j], fs, fs[b].childs[k], eq);
      }
      SameKidsSameProps(H, es, a, fs, b, eq);
    }
  }

  lemma {:induction false} SameKidsSameProps(H: Hasher, es: Arena, a: VfsId, fs: Arena, b: VfsId,
                                             eq: (VfsId, VfsId) -> bool)
    requires Tree(es) && Tree(fs) && a < |es| && b < |fs|
    requires Same(es, a, fs, b, eq) && es[a].isDir
    requires forall j, k :: 0 <= j < |es[a].childs| && 0 <= k < |fs[b].childs| && SameKid(es, a, j, fs, b, k, eq) ==>
      Calc(H, es, es[a].childs[j]) == Calc(H, fs, fs[b].childs[k])
    ensures DirProps(H, es, a) == DirProps(H, fs, b)
  {
    var m, n := |es[a].childs|, |fs[b].childs|;
    SameKidsFail(H, es, a, fs, b, eq);
    if Kids(H, es, a, m).Some? {
      var ks, ls := Kids(H, es, a, m).value, Kids(H, fs, b, n).value;
      SameKidsSet(H, es, a, fs, b, eq);
      SameSetMultiset(H, es, a, fs, b);
      OrderIrrelevant(ks, ls);
      SortCanonical(Pairs(ks), Pairs(ls));
    }
  }

  lemma {:induction false} SameKidsFail(H: Hasher, es: Arena, a: VfsId, fs: Arena, b: VfsId, eq: (VfsId, VfsId) -> bool)
    requires Tree(es) && Tree(fs) && a < |es| && b < |fs|
    requires Same(es, a, fs, b, eq) && es[a].isDir
    requires forall j, k :: 0 <= j < |es[a].childs| && 0 <= k < |fs[b].childs| && SameKid(es, a, j, fs, b, k, eq) ==>
      Calc(H, es, es[a].childs[j]) == Calc(H, fs, fs[b].childs[k])
    ensures Kids(H, es, a, |es[a].childs|).Some? <==> Kids(H, fs, b, |fs[b].childs|).Some?
  {
    hide Tree;
    KidsSucceed(H, es, a, |es[a].childs|);
    KidsSucceed(H, fs, b, |fs[b].childs|);
    if Kids(H, es, a, |es[a].childs|).Some? {
      forall k | 0 <= k < |fs[b].childs|
        ensures KidSucceeds(H, fs, b, k)
      {
        LinkOf(fs, b, fs[b].childs[k]);
        if Present(fs, fs[b].childs[k]) {
          var j :| 0 <= j < |es[a].childs| && SameKid(es, a, j, fs, b, k, eq);
          assert KidSucceeds(H, es, a, j);
        }
      }
    }
    if Kids(H, fs, b, |fs[b].childs|).Some? {
      forall j | 0 <= j < |es[a].childs|
        ensures KidSucceeds(H, es, a, j)
      {
        LinkOf(es, a, es[a].childs[j]);
        if Present(es, es[a].childs[j]) {
          var k :| 0 <= k < |fs[b].childs| && SameKid(es, a, j, fs, b, k, eq);
          assert KidSucceeds(H, fs, b, k);
        }
      }
    }
  }

  lemma {:induction false} SameKidsSet(H: Hasher, es: Arena, a: VfsId, fs: Arena, b: VfsId, eq: (VfsId, VfsId) -> bool)
    requires Tree(es) && Tree(fs) && a < |es| && b < |fs|
    requires Same(es, a, fs, b, eq) && es[a].isDir
    requires forall j, k :: 0 <= j < |es[a].childs| && 0 <= k < |fs[b].childs| && SameKid(es, a, j, fs, b, k, eq) ==>
      Calc(H, es, es[a].childs[j]) == Calc(H, fs, fs[b].childs[k])
    requires Kids(H, es, a, |es[a].childs|).Some? && Kids(H, fs, b, |fs[b].childs|).Some?
    ensures forall x :: x in Kids(H, es, a, |es[a].childs|).value <==> x in Kids(H, fs, b, |fs[b].childs|).value
  {
    hide Tree, Kids, Calc, SameKid;
    KidsAre(H, es, a, |es[a].childs|);
    KidsAre(H, fs, b, |fs[b].childs|);
    forall x | x in Kids(H, es, a, |es[a].childs|).value
      ensures x in Kids(H, fs, b, |fs[b].childs|).value
    {
      var j :| 0 <= j < |es[a].childs| && IsKid(H, es, a, j, x);
      var k :| 0 <= k < |fs[b].childs| && SameKid(es, a, j, fs, b, k, eq);
      KidOfTwin(H, es, a, j, fs, b, k, eq, x);
    }
    forall x | x in Kids(H, fs, b, |fs[b].childs|).value
      ensures x in Kids(H, es, a, |es[a].childs|).value
    {
      var k :| 0 <= k < |fs[b].childs| && IsKid(H, fs, b, k, x);
      var j :| 0 <= j < |es[a].childs| && SameKid(es, a, j, fs, b, k, eq);
      KidOfTwin(H, es, a, j, fs, b, k, eq, x);
    }
  }

  lemma {:induction false} KidOfTwin(H: Hasher, es: Arena, a: VfsId, j: nat, fs: Arena, b: VfsId, k: nat,
                                     eq: (VfsId, VfsId) -> bool, x: Kid)
    requires Tree(es) && Tree(fs) && a < |es| && b < |fs|
    requires j < |es[a].childs| && k < |fs[b].childs| && SameKid(es, a, j, fs, b, k, eq)
    requires Calc(H, es, es[a].childs[j]) == Calc(H, fs, fs[b].childs[k])
    ensures IsKid(H, es, a, j, x) <==> IsKid(H, fs, b, k, x)
  {
    hide Calc, Same, Tree;
  }

  lemma {:induction false} SameSetMultiset(H: Hasher, es: Arena, a: VfsId, fs: Arena, b: VfsId)
    requires Tree(es) && Tree(fs) && a < |es| && b < |fs|
    requires Kids(H, es, a, |es[a].childs|).Some? && Kids(H, fs, b, |fs[b].childs|).Some?
    requires forall x :: x in Kids(H, es, a, |es[a].childs|).value <==> x in Kids(H, fs, b, |fs[b].childs|).value
    ensures multiset(Kids(H, es, a, |es[a].childs|).value) == multiset(Kids(H, fs, b, |fs[b].childs|).value)
  {
    var ks, ls := Kids(H, es, a, |es[a].childs|).value, Kids(H, fs, b, |fs[b].childs|).value;
    KidsNoDup(H, es, a, |es[a].childs|);
    KidsNoDup(H, fs, b, |fs[b].childs|);
    hide Kids, Tree;
    forall x
      ensures multiset(ks)[x] == multiset(ls)[x]
    {
      NoDupMultiset(ks, x);
      NoDupMultiset(ls, x);
    }
  }
}
