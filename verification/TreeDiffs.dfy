/** Comparing directory trees with each other (dupion/src/output/treediff.rs). */
module TreeDiffs {
  import opened Basics
  import opened Arenas

  /** The comparison of an entry with the one found at the same place below the other root. */
  predicate HashesMatch(e: VfsEntry, f: VfsEntry) {
    if e.fileHash.Some? && f.fileHash.Some? then e.fileHash == f.fileHash
    else e.dirHash.Some? && f.dirHash.Some? && e.dirHash == f.dirHash
  }

  /** The path of `n`, carried over from below `root` to below `other`. */
  function Montage(es: Arena, root: VfsId, other: VfsId, n: VfsId): Path
    requires root < |es| && other < |es| && n < |es| && es[root].path <= es[n].path
  {
    es[other].path + es[n].path[|es[root].path|..]
  }

  /** `n` lies below `root` as `f` lies below `other`: under the same names. */
  ghost predicate Counterpart(es: Arena, root: VfsId, other: VfsId, n: VfsId, f: VfsId) {
    && root < |es| && other < |es| && n < |es| && f < |es|
    && es[root].path <= es[n].path && es[other].path <= es[f].path
    && es[n].path[|es[root].path|..] == es[f].path[|es[other].path|..]
  }

  /** `n` has an equal counterpart below `other`. */
  ghost predicate Matches(es: Arena, root: VfsId, other: VfsId, n: VfsId) {
    exists f: VfsId :: Counterpart(es, root, other, n, f) && HashesMatch(es[n], es[f])
  }

  /** The counterpart is the entry at the same names below the other root. */
  lemma {:induction false} CounterpartIs(es: Arena, root: VfsId, other: VfsId, n: VfsId, f: VfsId, names: Path)
    requires root < |es| && other < |es| && n < |es| && es[n].path == es[root].path + names
    ensures Counterpart(es, root, other, n, f) <==> At(es, es[other].path + names, f)
  {
    assert es[n].path[|es[root].path|..] == names;
    if f < |es| && es[other].path <= es[f].path {
      assert es[f].path == es[other].path + es[f].path[|es[other].path|..];
    }
  }

  /** Only the comparison results differ. */
  ghost predicate StatsOnly(es0: Arena, es: Arena) {
    |es| == |es0| && forall i :: 0 <= i < |es| ==> es[i] == es0[i].(treediffStat := es[i].treediffStat)
  }

  /** The result of one comparison walk for `n`, given the results `es` so far. */
  ghost function Raised(es0: Arena, es: Arena, root: VfsId, other: VfsId, n: VfsId): nat
    requires Tree(es0) && |es| == |es0| && n < |es0|
    decreases |es0| - n, 1, 0
  {
    Max(es[n].treediffStat,
        if Matches(es0, root, other, n) then 2
        else if es0[n].isDir && KidsRaised(es0, es, root, other, n, |es0[n].childs|) then 1 else 0)
  }

  /** The first `k` children of `n` end with a result other than 0. */
  ghost predicate KidsRaised(es0: Arena, es: Arena, root: VfsId, other: VfsId, n: VfsId, k: nat)
    requires Tree(es0) && |es| == |es0| && n < |es0| && k <= |es0[n].childs|
    decreases |es0| - n, 0, k
  {
    k == 0 || (Link(es0, n, es0[n].childs[k - 1])
               && KidsRaised(es0, es, root, other, n, k - 1)
               && Raised(es0, es, root, other, es0[n].childs[k - 1]) != 0)
  }

  /** The walk from `inner` comes to `n`: nothing above it matched. */
  ghost predicate Visited(es0: Arena, root: VfsId, other: VfsId, inner: VfsId, n: VfsId) {
    && inner < |es0| && n < |es0| && es0[inner].path <= es0[n].path
    && forall m :: 0 <= m < |es0| && es0[inner].path <= es0[m].path < es0[n].path ==> !Matches(es0, root, other, m)
  }

  /** What one walk does to all results. */
  ghost predicate Walked(es0: Arena, a: Arena, b: Arena, root: VfsId, other: VfsId, inner: VfsId)
    requires Tree(es0) && |a| == |es0|
  {
    StatsOnly(es0, b) && forall n :: 0 <= n < |es0| ==>
      b[n].treediffStat ==
        if Visited(es0, root, other, inner, n) then Raised(es0, a, root, other, n) else a[n].treediffStat
  }

  ghost predicate KidVisited(es0: Arena, root: VfsId, other: VfsId, inner: VfsId, j: nat, n: VfsId)
    requires inner < |es0| && j < |es0[inner].childs|
  {
    Visited(es0, root, other, es0[inner].childs[j], n)
  }

  ghost predicate KidsVisited(es0: Arena, root: VfsId, other: VfsId, inner: VfsId, k: nat, n: VfsId)
    requires inner < |es0| && k <= |es0[inner].childs|
  {
    exists j :: 0 <= j < k && KidVisited(es0, root, other, inner, j, n)
  }

  /** What the walks from the first `k` children do. */
  ghost predicate WalkedKids(es0: Arena, a: Arena, b: Arena, root: VfsId, other: VfsId, inner: VfsId, k: nat)
    requires Tree(es0) && |a| == |es0| && inner < |es0| && k <= |es0[inner].childs|
  {
    StatsOnly(es0, b) && forall n :: 0 <= n < |es0| ==>
      b[n].treediffStat ==
        if KidsVisited(es0, root, other, inner, k, n) then Raised(es0, a, root, other, n) else a[n].treediffStat
  }

  /** Raising looks only at what is below. */
  lemma {:induction false} RaisedLocal(es0: Arena, a: Arena, b: Arena, root: VfsId, other: VfsId, n: VfsId)
    requires Tree(es0) && |a| == |es0| && |b| == |es0| && n < |es0|
    requires forall m :: 0 <= m < |es0| && es0[n].path <= es0[m].path ==> a[m].treediffStat == b[m].treediffStat
    ensures Raised(es0, a, root, other, n) == Raised(es0, b, root, other, n)
    decreases |es0| - n, 1, 0
  {
    KidsRaisedLocal(es0, a, b, root, other, n, |es0[n].childs|);
  }

  lemma {:induction false} KidsRaisedLocal(es0: Arena, a: Arena, b: Arena, root: VfsId, other: VfsId, n: VfsId, k: nat)
    requires Tree(es0) && |a| == |es0| && |b| == |es0| && n < |es0| && k <= |es0[n].childs|
    requires forall m :: 0 <= m < |es0| && es0[n].path <= es0[m].path ==> a[m].treediffStat == b[m].treediffStat
    ensures KidsRaised(es0, a, root, other, n, k) == KidsRaised(es0, b, root, other, n, k)
    decreases |es0| - n, 0, k
  {
    if k > 0 {
      assert Link(es0, n, es0[n].childs[k - 1]);
      KidsRaisedLocal(es0, a, b, root, other, n, k - 1);
      RaisedLocal(es0, a, b, root, other, es0[n].childs[k - 1]);
    }
  }

  /** Seen from an entry that does not match, the walk visits it and what its children visit. */
  lemma {:induction false} VisitedThroughKids(es0: Arena, root: VfsId, other: VfsId, inner: VfsId, n: VfsId)
    requires Tree(es0) && inner < |es0| && n < |es0|
    ensures Visited(es0, root, other, inner, n) <==>
      || n == inner
      || (!Matches(es0, root, other, inner) && KidsVisited(es0, root, other, inner, |es0[inner].childs|, n))
  {
    if Visited(es0, root, other, inner, n) && n != inner {
      if es0[inner].path == es0[n].path { PathsUnique(es0, inner, n); }
      var c := ChildTowards(es0, inner, n);
      var j :| 0 <= j < |es0[inner].childs| && es0[inner].childs[j] == c;
      assert KidVisited(es0, root, other, inner, j, n);
    }
    forall j | 0 <= j < |es0[inner].childs| && KidVisited(es0, root, other, inner, j, n)
        && !Matches(es0, root, other, inner)
      ensures Visited(es0, root, other, inner, n)
    {
      KidVisitedIsVisited(es0, root, other, inner, j, n);
    }
  }

  lemma {:induction false} KidVisitedIsVisited(es0: Arena, root: VfsId, other: VfsId, inner: VfsId, j: nat, n: VfsId)
    requires Tree(es0) && inner < |es0| && j < |es0[inner].childs| && KidVisited(es0, root, other, inner, j, n)
    requires !Matches(es0, root, other, inner)
    ensures Visited(es0, root, other, inner, n)
  {
    var c := es0[inner].childs[j];
    assert Link(es0, inner, c);
    forall m | 0 <= m < |es0| && es0[inner].path <= es0[m].path < es0[n].path
      ensures !Matches(es0, root, other, m)
    {
      PrefixesMeet(es0[m].path, es0[c].path, es0[n].path);
      if !(es0[c].path <= es0[m].path) { PathsUnique(es0, m, inner); }
    }
  }

  /** The walk from one more child. */
  lemma {:induction false} WalkedKidsStep(es0: Arena, a: Arena, mid: Arena, b: Arena, root: VfsId, other: VfsId,
                                          inner: VfsId, k: nat)
    requires Tree(es0) && |a| == |es0| && |mid| == |es0| && inner < |es0| && k < |es0[inner].childs|
    requires WalkedKids(es0, a, mid, root, other, inner, k)
    requires Walked(es0, mid, b, root, other, es0[inner].childs[k])
    ensures WalkedKids(es0, a, b, root, other, inner, k + 1)
    ensures es0[inner].childs[k] < |es0|
    ensures Raised(es0, mid, root, other, es0[inner].childs[k]) == Raised(es0, a, root, other, es0[inner].childs[k])
  {
    var c := es0[inner].childs[k];
    assert Link(es0, inner, c);
    forall n | 0 <= n < |es0|
      ensures KidsVisited(es0, root, other, inner, k + 1, n) <==>
        KidsVisited(es0, root, other, inner, k, n) || KidVisited(es0, root, other, inner, k, n)
    {
    }
    forall n | 0 <= n < |es0| && es0[c].path <= es0[n].path
      ensures !KidsVisited(es0, root, other, inner, k, n)
      ensures Raised(es0, mid, root, other, n) == Raised(es0, a, root, other, n)
    {
      LaterKidFresh(es0, root, other, inner, k);
      forall m | 0 <= m < |es0| && es0[n].path <= es0[m].path
        ensures mid[m].treediffStat == a[m].treediffStat
      {
        assert es0[c].path <= es0[m].path;
      }
      RaisedLocal(es0, mid, a, root, other, n);
    }
  }

  lemma {:induction false} LaterKidFresh(es0: Arena, root: VfsId, other: VfsId, inner: VfsId, k: nat)
    requires Tree(es0) && inner < |es0| && k < |es0[inner].childs| && es0[inner].childs[k] < |es0|
    ensures forall n: VfsId :: n < |es0| && es0[es0[inner].childs[k]].path <= es0[n].path ==>
      !KidsVisited(es0, root, other, inner, k, n)
  {
    forall n: VfsId, j | n < |es0| && es0[es0[inner].childs[k]].path <= es0[n].path && 0 <= j < k
      ensures !KidVisited(es0, root, other, inner, j, n)
    {
      if KidVisited(es0, root, other, inner, j, n) {
        assert BelowKid(es0, inner, j, n) && BelowKid(es0, inner, k, n);
        BelowOneKid(es0, inner, j, k, n);
      }
    }
  }

  lemma {:induction false} StatsKeepTree(es0: Arena, es: Arena)
    requires Tree(es0) && StatsOnly(es0, es)
    ensures Tree(es) && SameShape(es0, es)
  {
    SameShapeTree(es0, es);
  }

  /** After its children, the entry itself. */
  lemma {:induction false} WalkedEnd(es0: Arena, a: Arena, mid: Arena, b: Arena, root: VfsId, other: VfsId,
                                     inner: VfsId)
    requires Tree(es0) && |a| == |es0| && inner < |es0| && StatsOnly(es0, a)
    requires if Matches(es0, root, other, inner) then mid == a
             else WalkedKids(es0, a, mid, root, other, inner, |es0[inner].childs|)
    requires |mid| == |es0| && b == mid[inner := mid[inner].(treediffStat := Raised(es0, a, root, other, inner))]
    ensures Walked(es0, a, b, root, other, inner)
  {
    hide Matches, Raised;
    forall n | 0 <= n < |es0|
      ensures b[n].treediffStat ==
        if Visited(es0, root, other, inner, n) then Raised(es0, a, root, other, n) else a[n].treediffStat
    {
      VisitedThroughKids(es0, root, other, inner, n);
    }
  }

  /** Below an entry, none of the children's walks touches the entry itself. */
  lemma {:induction false} InnerUntouched(es0: Arena, root: VfsId, other: VfsId, inner: VfsId, k: nat)
    requires Tree(es0) && inner < |es0| && k <= |es0[inner].childs|
    ensures !KidsVisited(es0, root, other, inner, k, inner)
  {
    forall j | 0 <= j < k
      ensures !KidVisited(es0, root, other, inner, j, inner)
    {
      assert Link(es0, inner, es0[inner].childs[j]);
    }
  }

  /** Does the entry `inner`, below `root`, match its counterpart below `other`? */
  method Compare(tree: Vfs, inner: VfsId, root: VfsId, other: VfsId, ghost es0: Arena) returns (eq: bool)
    requires Tree(es0) && StatsOnly(es0, tree.entries)
    requires inner < |es0| && root < |es0| && other < |es0| && es0[root].path <= es0[inner].path
    requires forall i :: 0 <= i < |es0| ==> Canonical(es0[i].path)
    ensures eq <==> Matches(es0, root, other, inner)
  {
    StatsKeepTree(es0, tree.entries);
    var montage := Montage(tree.entries, root, other, inner);
    MontageCanonical(es0, root, other, inner);
    var f := tree.Cid(montage);
    eq := false;
    ghost var names := es0[inner].path[|es0[root].path|..];
    assert es0[inner].path == es0[root].path + names && montage == es0[other].path + names;
    if f.Some? {
      assert At(tree.entries, montage, f.value);
      eq := HashesMatch(tree.entries[inner], tree.entries[f.value]);
      UniqueCounterpart(es0, root, other, inner, f.value, names);
    } else {
      forall i: VfsId
        ensures !At(es0, es0[other].path + names, i)
      {
        assert !At(tree.entries, montage, i);
      }
      NoCounterpart(es0, root, other, inner, names);
    }
  }

  lemma {:induction false} MontageCanonical(es0: Arena, root: VfsId, other: VfsId, n: VfsId)
    requires root < |es0| && other < |es0| && n < |es0| && es0[root].path <= es0[n].path
    requires Canonical(es0[other].path) && Canonical(es0[n].path)
    ensures Canonical(Montage(es0, root, other, n))
  {
  }

  /** Compared is the entry at the same names below the other root, and no other. */
  lemma {:induction false} UniqueCounterpart(es0: Arena, root: VfsId, other: VfsId, n: VfsId, f: VfsId, names: Path)
    requires Tree(es0) && root < |es0| && other < |es0| && n < |es0|
    requires es0[n].path == es0[root].path + names && At(es0, es0[other].path + names, f)
    ensures Matches(es0, root, other, n) <==> HashesMatch(es0[n], es0[f])
  {
    CounterpartIs(es0, root, other, n, f, names);
    forall g: VfsId | Counterpart(es0, root, other, n, g)
      ensures g == f
    {
      CounterpartIs(es0, root, other, n, g, names);
      PathsUnique(es0, f, g);
    }
  }

  /** Without such an entry there is no match. */
  lemma {:induction false} NoCounterpart(es0: Arena, root: VfsId, other: VfsId, n: VfsId, names: Path)
    requires root < |es0| && other < |es0| && n < |es0| && es0[n].path == es0[root].path + names
    requires forall i: VfsId :: !At(es0, es0[other].path + names, i)
    ensures !Matches(es0, root, other, n)
  {
    forall g: VfsId
      ensures !Counterpart(es0, root, other, n, g)
    {
      CounterpartIs(es0, root, other, n, g, names);
    }
  }

  method FindDiff(tree: Vfs, inner: VfsId, root: VfsId, other: VfsId, ghost es0: Arena) returns (stat: nat)
    requires Tree(es0) && StatsOnly(es0, tree.entries)
    requires inner < |es0| && root < |es0| && other < |es0| && es0[root].path <= es0[inner].path
    requires forall i :: 0 <= i < |es0| ==> Canonical(es0[i].path)
    modifies tree
    ensures Walked(es0, old(tree.entries), tree.entries, root, other, inner)
    ensures stat == Raised(es0, old(tree.entries), root, other, inner)
    decreases |es0| - inner, 1
  {
    hide Tree, Matches, Canonical, Walked, WalkedKids;
    ghost var start := tree.entries;
    var eq := Compare(tree, inner, root, other, es0);
    var upgrade := 2;
    if !eq {
      var uniqfree := DiffKids(tree, inner, root, other, es0);
      upgrade := if uniqfree then 1 else 0;
      InnerKept(es0, start, tree.entries, root, other, inner);
    }
    ghost var mid := tree.entries;
    stat := Max(tree.entries[inner].treediffStat, upgrade);
    tree.entries := tree.entries[inner := tree.entries[inner].(treediffStat := stat)];
    WalkedEnd(es0, start, mid, tree.entries, root, other, inner);
  }

  lemma {:induction false} InnerKept(es0: Arena, a: Arena, mid: Arena, root: VfsId, other: VfsId, inner: VfsId)
    requires Tree(es0) && |a| == |es0| && inner < |es0|
    requires WalkedKids(es0, a, mid, root, other, inner, |es0[inner].childs|)
    ensures |mid| == |es0| && mid[inner].treediffStat == a[inner].treediffStat
  {
    InnerUntouched(es0, root, other, inner, |es0[inner].childs|);
  }

  /** Walk all children, whatever the first ones say. */
  method DiffKids(tree: Vfs, inner: VfsId, root: VfsId, other: VfsId, ghost es0: Arena) returns (uniqfree: bool)
    requires Tree(es0) && StatsOnly(es0, tree.entries)
    requires inner < |es0| && root < |es0| && other < |es0| && es0[root].path <= es0[inner].path
    requires forall i :: 0 <= i < |es0| ==> Canonical(es0[i].path)
    modifies tree
    ensures WalkedKids(es0, old(tree.entries), tree.entries, root, other, inner, |es0[inner].childs|)
    ensures uniqfree <==>
      es0[inner].isDir && KidsRaised(es0, old(tree.entries), root, other, inner, |es0[inner].childs|)
    decreases |es0| - inner, 0
  {
    hide Tree, Canonical, Walked, WalkedKids, Raised;
    ghost var start := tree.entries;
    uniqfree := tree.entries[inner].isDir;
    var childs := tree.entries[inner].childs;
    WalkedKidsStart(es0, start, root, other, inner);
    for k := 0 to |childs|
      invariant WalkedKids(es0, start, tree.entries, root, other, inner, k)
      invariant StatsOnly(es0, tree.entries)
      invariant uniqfree <==> es0[inner].isDir && KidsRaised(es0, start, root, other, inner, k)
    {
      ghost var mid := tree.entries;
      LinkOf(es0, inner, childs[k]);
      var r := FindDiff(tree, childs[k], root, other, es0);
      WalkedKidsStep(es0, start, mid, tree.entries, root, other, inner, k);
      StatsOfWalk(es0, mid, tree.entries, root, other, childs[k]);
      uniqfree := uniqfree && r != 0;
    }
  }

  lemma {:induction false} WalkedKidsStart(es0: Arena, a: Arena, root: VfsId, other: VfsId, inner: VfsId)
    requires Tree(es0) && inner < |es0| && StatsOnly(es0, a)
    ensures WalkedKids(es0, a, a, root, other, inner, 0)
  {
  }

  lemma {:induction false} StatsOfWalk(es0: Arena, a: Arena, b: Arena, root: VfsId, other: VfsId, inner: VfsId)
    requires Tree(es0) && |a| == |es0| && Walked(es0, a, b, root, other, inner)
    ensures StatsOnly(es0, b)
  {
  }
}
