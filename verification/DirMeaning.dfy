/** What the hash of a directory means: when it exists, the size that goes with it, and that
    equal trees get equal hashes. */
module DirMeaning {
  import opened Arenas
  import opened DirHashes

  ghost predicate LeavesHashed(es: Arena, id: VfsId) {
    forall n: VfsId :: Reached(es, id, n) && Leaf(es[n]) ==> es[n].fileHash.Some?
  }

  ghost predicate KidSucceeds(H: Hasher, es: Arena, id: VfsId, k: nat)
    requires Tree(es) && id < |es| && k < |es[id].childs|
  {
    es[id].childs[k] < |es| && (es[es[id].childs[k]].Exists() ==> Calc(H, es, es[id].childs[k]).Some?)
  }

  lemma {:induction false} KidsSucceed(H: Hasher, es: Arena, id: VfsId, m: nat)
    requires Tree(es) && id < |es| && m <= |es[id].childs|
    ensures Kids(H, es, id, m).Some? <==> forall k :: 0 <= k < m ==> KidSucceeds(H, es, id, k)
  {
    if m > 0 {
      assert Link(es, id, es[id].childs[m - 1]);
      KidsSucceed(H, es, id, m - 1);
      var c := es[id].childs[m - 1];
      assert KidSucceeds(H, es, id, m - 1) <==> es[c].Exists() ==> Calc(H, es, c).Some?;
    }
  }

  /** A hash is computed if and only if the entry is a file or directory and every existing leaf
      the walk comes to below it has a hash. */
  lemma {:induction false} SucceedsIff(H: Hasher, es: Arena, id: VfsId)
    requires Tree(es) && id < |es|
    ensures Calc(H, es, id).Some? <==> es[id].Exists() && LeavesHashed(es, id)
    ensures es[id].isDir ==> (DirProps(H, es, id).Some? <==> LeavesHashed(es, id))
    decreases |es| - id
  {
    ReachedThrough(es, id, id);
    if es[id].isDir {
      var m := |es[id].childs|;
      KidsSucceed(H, es, id, m);
      if forall k :: 0 <= k < m ==> KidSucceeds(H, es, id, k) {
        forall n: VfsId | Reached(es, id, n) && Leaf(es[n])
          ensures es[n].fileHash.Some?
        {
          ReachedThrough(es, id, n);
          var k :| 0 <= k < m && Via(es, id, k, n);
          assert KidSucceeds(H, es, id, k);
          LinkOf(es, id, es[id].childs[k]);
          SucceedsIff(H, es, es[id].childs[k]);
        }
      }
      if LeavesHashed(es, id) {
        forall k | 0 <= k < m
          ensures KidSucceeds(H, es, id, k)
        {
          LinkOf(es, id, es[id].childs[k]);
          KidLeavesHashed(es, id, k);
          SucceedsIff(H, es, es[id].childs[k]);
        }
      }
    } else {
      forall n: VfsId | Reached(es, id, n)
        ensures n == id
      {
        ReachedThrough(es, id, n);
      }
    }
  }

  /** A file, also an archive with directories below it, counts with its own size and hash, any other
      directory with those of its children. */
  lemma {:induction false} CalcMeans(H: Hasher, es: Arena, id: VfsId)
    requires Tree(es) && id < |es| && Calc(H, es, id).Some?
    ensures es[id].isFile && es[id].fileSize.Some? && es[id].fileHash.Some? ==>
      Calc(H, es, id).value == (es[id].fileSize.value, es[id].fileHash.value)
    ensures !es[id].isFile ==> es[id].isDir && Calc(H, es, id) == DirProps(H, es, id)
  {
  }

  lemma {:induction false} KidLeavesHashed(es: Arena, id: VfsId, k: nat)
    requires Tree(es) && id < |es| && es[id].isDir && k < |es[id].childs| && LeavesHashed(es, id)
    ensures es[id].childs[k] < |es| && (es[es[id].childs[k]].Exists() ==> LeavesHashed(es, es[id].childs[k]))
  {
    var c := es[id].childs[k];
    LinkOf(es, id, c);
    if es[c].Exists() {
      forall n: VfsId | Reached(es, c, n) && Leaf(es[n])
        ensures es[n].fileHash.Some?
      {
        assert Via(es, id, k, n);
        ViaReaches(es, id, k, n);
      }
    }
  }

  // ----- the size

  /** The total size of the entries among the first `n` that satisfy `p`. */
  ghost function Total(es: Arena, p: VfsId -> bool, n: nat): nat
    requires n <= |es|
  {
    if n == 0 then 0 else
      Total(es, p, n - 1) + if p(n - 1) && es[n - 1].fileSize.Some? then es[n - 1].fileSize.value else 0
  }

  lemma {:induction false} TotalSplit(es: Arena, p: VfsId -> bool, q: VfsId -> bool, r: VfsId -> bool, n: nat)
    requires n <= |es|
    requires forall i :: p(i) <==> q(i) || r(i)
    requires forall i :: !(q(i) && r(i))
    ensures Total(es, p, n) == Total(es, q, n) + Total(es, r, n)
  {
    if n > 0 {
      TotalSplit(es, p, q, r, n - 1);
    }
  }

  lemma {:induction false} TotalNone(es: Arena, p: VfsId -> bool, n: nat)
    requires n <= |es| && forall i :: !p(i)
    ensures Total(es, p, n) == 0
  {
    if n > 0 { TotalNone(es, p, n - 1); }
  }

  lemma {:induction false} TotalOne(es: Arena, p: VfsId -> bool, id: VfsId, n: nat)
    requires n <= |es| && id < |es| && forall i :: p(i) <==> i == id
    ensures Total(es, p, n) == if id < n && es[id].fileSize.Some? then es[id].fileSize.value else 0
  {
    if n > 0 { TotalOne(es, p, id, n - 1); }
  }

  lemma {:induction false} TotalSame(es: Arena, p: VfsId -> bool, q: VfsId -> bool, n: nat)
    requires n <= |es| && forall i :: p(i) <==> q(i)
    ensures Total(es, p, n) == Total(es, q, n)
  {
    if n > 0 { TotalSame(es, p, q, n - 1); }
  }

  ghost function LeavesBelow(es: Arena, id: VfsId): VfsId -> bool {
    (n: VfsId) => Reached(es, id, n) && Leaf(es[n])
  }

  ghost function LeavesVia(es: Arena, id: VfsId, m: nat): VfsId -> bool {
    (n: VfsId) => exists k :: 0 <= k < m && Via(es, id, k, n) && Leaf(es[n])
  }

  ghost predicate NoArchives(es: Arena, id: VfsId) {
    forall n: VfsId :: Reached(es, id, n) ==> !(es[n].isFile && es[n].isDir)
  }

  /** The size of a successful directory is the sum of the sizes of all leaves below it. */
  lemma {:induction false} SizeIsSumOfLeaves(H: Hasher, es: Arena, id: VfsId)
    requires Tree(es) && id < |es| && NoArchives(es, id) && Calc(H, es, id).Some?
    ensures Calc(H, es, id).value.0 == Total(es, LeavesBelow(es, id), |es|)
    decreases |es| - id, 1, 0
  {
    ReachedThrough(es, id, id);
    if es[id].isDir {
      var m := |es[id].childs|;
      KidsSum(H, es, id, m);
      forall n: VfsId
        ensures LeavesBelow(es, id)(n) <==> LeavesVia(es, id, m)(n)
      {
        ReachedThrough(es, id, n);
      }
      TotalSame(es, LeavesBelow(es, id), LeavesVia(es, id, m), |es|);
    } else {
      forall n: VfsId
        ensures LeavesBelow(es, id)(n) <==> n == id
      {
        ReachedThrough(es, id, n);
      }
      TotalOne(es, LeavesBelow(es, id), id, |es|);
    }
  }

  lemma {:induction false} KidsSum(H: Hasher, es: Arena, id: VfsId, m: nat)
    requires Tree(es) && id < |es| && es[id].isDir && NoArchives(es, id)
    requires m <= |es[id].childs| && Kids(H, es, id, m).Some?
    ensures SumSizes(Kids(H, es, id, m).value) == Total(es, LeavesVia(es, id, m), |es|)
    decreases |es| - id, 0, m
  {
    if m == 0 {
      TotalNone(es, LeavesVia(es, id, 0), |es|);
    } else {
      var c := es[id].childs[m - 1];
      LinkOf(es, id, c);
      hide Total, Reached, Tree, NoArchives;
      KidsSum(H, es, id, m - 1);
      var before := Kids(H, es, id, m - 1).value;
      if es[c].Exists() {
        KidNoArchives(es, id, m - 1);
        SizeIsSumOfLeaves(H, es, c);
        var kid := Kid(es[c].plc, Calc(H, es, c).value.0, Calc(H, es, c).value.1);
        assert (before + [kid])[..|before|] == before;
        ViaLast(es, id, m);
        TotalSplit(es, LeavesVia(es, id, m), LeavesVia(es, id, m - 1), LeavesBelow(es, c), |es|);
      } else {
        ViaAbsent(es, id, m);
        TotalSame(es, LeavesVia(es, id, m), LeavesVia(es, id, m - 1), |es|);
      }
    }
  }

  lemma {:induction false} KidNoArchives(es: Arena, id: VfsId, k: nat)
    requires Tree(es) && id < |es| && es[id].isDir && NoArchives(es, id) && k < |es[id].childs|
    requires es[id].childs[k] < |es| && es[es[id].childs[k]].Exists()
    ensures NoArchives(es, es[id].childs[k])
  {
    forall n: VfsId | Reached(es, es[id].childs[k], n)
      ensures Reached(es, id, n)
    {
      assert Via(es, id, k, n);
      ViaReaches(es, id, k, n);
    }
  }

  lemma {:induction false} ViaAbsent(es: Arena, id: VfsId, m: nat)
    requires Tree(es) && id < |es| && 0 < m <= |es[id].childs|
    requires es[id].childs[m - 1] < |es| && !es[es[id].childs[m - 1]].Exists()
    ensures forall n: VfsId :: LeavesVia(es, id, m)(n) <==> LeavesVia(es, id, m - 1)(n)
  {
    forall n: VfsId
      ensures LeavesVia(es, id, m)(n) <==> LeavesVia(es, id, m - 1)(n)
    {
      assert !Via(es, id, m - 1, n);
    }
  }

  lemma {:induction false} ViaLast(es: Arena, id: VfsId, m: nat)
    requires Tree(es) && id < |es| && 0 < m <= |es[id].childs|
    requires es[id].childs[m - 1] < |es| && es[es[id].childs[m - 1]].Exists()
    ensures forall n: VfsId ::
      && (LeavesVia(es, id, m)(n) <==> LeavesVia(es, id, m - 1)(n) || LeavesBelow(es, es[id].childs[m - 1])(n))
      && !(LeavesVia(es, id, m - 1)(n) && LeavesBelow(es, es[id].childs[m - 1])(n))
  {
    var c := es[id].childs[m - 1];
    forall n: VfsId
      ensures LeavesVia(es, id, m)(n) <==> LeavesVia(es, id, m - 1)(n) || LeavesBelow(es, c)(n)
      ensures !(LeavesVia(es, id, m - 1)(n) && LeavesBelow(es, c)(n))
    {
      assert Via(es, id, m - 1, n) <==> Reached(es, c, n);
      forall k | 0 <= k < m - 1 && Via(es, id, k, n) && Via(es, id, m - 1, n)
        ensures false
      {
        ViaOnce(es, id, k, m - 1, n);
      }
    }
  }
}
