/** The comparison of several trees has a closed form that does not depend on the order of the
    roots (dupion/src/output/treediff.rs). */
module TreeDiffForm {
  import opened Basics
  import opened Arenas
  import opened TreeDiffs

  /** `n` has an equal counterpart below one of the roots `ks`. */
  ghost predicate MatchesAny(es: Arena, root: VfsId, ks: set<VfsId>, n: VfsId) {
    exists o :: o in ks && Matches(es, root, o, n)
  }

  /** 2: has an equal counterpart; 1: a directory of which every child is at least 1; else 0. */
  ghost function Final(es: Arena, root: VfsId, ks: set<VfsId>, n: VfsId): nat
    requires Tree(es) && n < |es|
    decreases |es| - n, 1, 0
  {
    if MatchesAny(es, root, ks, n) then 2
    else if es[n].isDir && KidsFinal(es, root, ks, n, |es[n].childs|) then 1 else 0
  }

  ghost predicate KidsFinal(es: Arena, root: VfsId, ks: set<VfsId>, n: VfsId, k: nat)
    requires Tree(es) && n < |es| && k <= |es[n].childs|
    decreases |es| - n, 0, k
  {
    k == 0 || (Link(es, n, es[n].childs[k - 1])
               && KidsFinal(es, root, ks, n, k - 1) && Final(es, root, ks, es[n].childs[k - 1]) != 0)
  }

  /** `n` lies below `root` and nothing above it has a counterpart. */
  ghost predicate Open(es: Arena, root: VfsId, ks: set<VfsId>, n: VfsId) {
    && root < |es| && n < |es| && es[root].path <= es[n].path
    && forall m :: 0 <= m < |es| && es[root].path <= es[m].path < es[n].path ==> !MatchesAny(es, root, ks, m)
  }

  /** After the walks from `root` against all of `ks`. */
  ghost predicate Settled(es0: Arena, es: Arena, root: VfsId, ks: set<VfsId>)
    requires Tree(es0) && |es| == |es0|
  {
    forall n: VfsId :: Open(es0, root, ks, n) ==>
      es[n].treediffStat == if ks == {} then 0 else Final(es0, root, ks, n)
  }

  lemma {:induction false} OpenLess(es: Arena, root: VfsId, ks: set<VfsId>, o: VfsId, n: VfsId)
    requires Open(es, root, ks + {o}, n)
    ensures Open(es, root, ks, n) && Visited(es, root, o, root, n)
  {
    forall m | 0 <= m < |es| && es[root].path <= es[m].path < es[n].path
      ensures !MatchesAny(es, root, ks, m) && !Matches(es, root, o, m)
    {
      if MatchesAny(es, root, ks, m) || Matches(es, root, o, m) {
        assert MatchesAny(es, root, ks + {o}, m);
      }
    }
  }

  lemma {:induction false} OpenKid(es: Arena, root: VfsId, ks: set<VfsId>, n: VfsId, c: VfsId)
    requires Tree(es) && Open(es, root, ks, n) && !MatchesAny(es, root, ks, n) && Link(es, n, c)
    ensures Open(es, root, ks, c)
  {
    forall m | 0 <= m < |es| && es[root].path <= es[m].path < es[c].path
      ensures !MatchesAny(es, root, ks, m)
    {
      PrefixesMeet(es[m].path, es[n].path, es[c].path);
      if es[m].path == es[n].path { PathsUnique(es, m, n); }
    }
  }

  lemma {:induction false} MatchesMore(es: Arena, root: VfsId, ks: set<VfsId>, o: VfsId, n: VfsId)
    ensures MatchesAny(es, root, ks + {o}, n) <==> MatchesAny(es, root, ks, n) || Matches(es, root, o, n)
  {
    if Matches(es, root, o, n) { assert o in ks + {o}; }
    if MatchesAny(es, root, ks, n) {
      var x :| x in ks && Matches(es, root, x, n);
      assert x in ks + {o};
    }
  }

  /** One more root to compare with never lowers a result to 0. */
  lemma {:induction false} FinalMono(es: Arena, root: VfsId, ks: set<VfsId>, o: VfsId, n: VfsId)
    requires Tree(es) && n < |es|
    ensures Final(es, root, ks, n) != 0 ==> Final(es, root, ks + {o}, n) != 0
    decreases |es| - n, 1, 0
  {
    MatchesMore(es, root, ks, o, n);
    KidsFinalMono(es, root, ks, o, n, |es[n].childs|);
  }

  lemma {:induction false} KidsFinalMono(es: Arena, root: VfsId, ks: set<VfsId>, o: VfsId, n: VfsId, k: nat)
    requires Tree(es) && n < |es| && k <= |es[n].childs|
    ensures KidsFinal(es, root, ks, n, k) ==> KidsFinal(es, root, ks + {o}, n, k)
    decreases |es| - n, 0, k
  {
    if k > 0 && KidsFinal(es, root, ks, n, k) {
      KidsFinalMono(es, root, ks, o, n, k - 1);
      FinalMono(es, root, ks, o, es[n].childs[k - 1]);
    }
  }

  /** What one more walk computes for an open entry is its result with one more root. */
  lemma {:induction false} RaisedIsFinal(es0: Arena, a: Arena, root: VfsId, ks: set<VfsId>, o: VfsId, n: VfsId)
    requires Tree(es0) && |a| == |es0| && Settled(es0, a, root, ks) && Open(es0, root, ks + {o}, n)
    ensures Raised(es0, a, root, o, n) == Final(es0, root, ks + {o}, n)
    decreases |es0| - n, 1, 0
  {
    OpenLess(es0, root, ks, o, n);
    MatchesMore(es0, root, ks, o, n);
    if !MatchesAny(es0, root, ks + {o}, n) {
      KidsRaisedIsFinal(es0, a, root, ks, o, n, |es0[n].childs|);
      KidsFinalMono(es0, root, ks, o, n, |es0[n].childs|);
    }
  }

  lemma {:induction false} KidsRaisedIsFinal(es0: Arena, a: Arena, root: VfsId, ks: set<VfsId>, o: VfsId, n: VfsId,
                                             k: nat)
    requires Tree(es0) && |a| == |es0| && Settled(es0, a, root, ks) && Open(es0, root, ks + {o}, n)
    requires !MatchesAny(es0, root, ks + {o}, n) && n < |es0| && k <= |es0[n].childs|
    ensures KidsRaised(es0, a, root, o, n, k) == KidsFinal(es0, root, ks + {o}, n, k)
    decreases |es0| - n, 0, k
  {
    hide Tree, Open, Settled, MatchesAny, Final, Raised, Matches;
    if k > 0 {
      var c := es0[n].childs[k - 1];
      LinkOf(es0, n, c);
      OpenKid(es0, root, ks + {o}, n, c);
      KidsRaisedIsFinal(es0, a, root, ks, o, n, k - 1);
      RaisedIsFinal(es0, a, root, ks, o, c);
    }
  }

  lemma {:induction false} SettledStep(es0: Arena, a: Arena, b: Arena, root: VfsId, ks: set<VfsId>, o: VfsId)
    requires Tree(es0) && |a| == |es0| && root < |es0| && Settled(es0, a, root, ks)
    requires Walked(es0, a, b, root, o, root)
    ensures Settled(es0, b, root, ks + {o})
  {
    hide Final, Raised;
    forall n: VfsId | Open(es0, root, ks + {o}, n)
      ensures b[n].treediffStat == Final(es0, root, ks + {o}, n)
    {
      OpenLess(es0, root, ks, o, n);
      RaisedIsFinal(es0, a, root, ks, o, n);
    }
  }

  /** A walk below one root leaves the trees of the other roots alone. */
  lemma {:induction false} OthersUntouched(es0: Arena, a: Arena, b: Arena, root: VfsId, o: VfsId, r: VfsId,
                                           ks: set<VfsId>)
    requires Tree(es0) && |a| == |es0| && root < |es0| && r < |es0|
    requires Walked(es0, a, b, root, o, root) && Settled(es0, a, r, ks)
    requires !(es0[root].path <= es0[r].path) && !(es0[r].path <= es0[root].path)
    ensures Settled(es0, b, r, ks)
  {
    hide Final, Raised;
    forall n: VfsId | Open(es0, r, ks, n)
      ensures b[n].treediffStat == a[n].treediffStat
    {
      if es0[root].path <= es0[n].path {
        PrefixesMeet(es0[root].path, es0[r].path, es0[n].path);
      }
    }
  }

  // ----- all roots

  /** The roots other than the `i`-th, among the first `m`. */
  ghost function Others(roots: seq<VfsId>, i: nat, m: nat): set<VfsId>
    requires m <= |roots|
  {
    set j | 0 <= j < m && j != i :: roots[j]
  }

  ghost predicate Disjoint(es: Arena, roots: seq<VfsId>) {
    && (forall i :: 0 <= i < |roots| ==> roots[i] < |es|)
    && (forall i, j :: 0 <= i < |roots| && 0 <= j < |roots| && i != j ==> !(es[roots[i]].path <= es[roots[j]].path))
  }

  /** The roots before `i` are settled, the `i`-th against the first `m`, the later ones untouched. */
  ghost predicate Progress(es0: Arena, es: Arena, roots: seq<VfsId>, i: nat, m: nat)
    requires Tree(es0) && Disjoint(es0, roots) && m <= |roots|
  {
    && StatsOnly(es0, es)
    && forall j :: 0 <= j < |roots| ==> Settled(es0, es, roots[j],
         if j < i then Others(roots, j, |roots|) else if j == i then Others(roots, j, m) else {})
  }

  method FindDiffs(tree: Vfs, roots: seq<VfsId>)
    requires Tree(tree.entries) && Disjoint(tree.entries, roots)
    requires forall i :: 0 <= i < |tree.entries| ==>
      Canonical(tree.entries[i].path) && tree.entries[i].treediffStat == 0
    modifies tree
    ensures StatsOnly(old(tree.entries), tree.entries)
    ensures forall i :: 0 <= i < |roots| ==>
      Settled(old(tree.entries), tree.entries, roots[i], Others(roots, i, |roots|))
  {
    hide Tree, Canonical, Settled, Walked, Disjoint;
    ghost var es0 := tree.entries;
    ProgressStart(es0, roots);
    for i := 0 to |roots|
      invariant Progress(es0, tree.entries, roots, i, 0)
    {
      for m := 0 to |roots|
        invariant Progress(es0, tree.entries, roots, i, m)
      {
        RootsInRange(es0, roots, i, m);
        if m != i {
          ghost var a := tree.entries;
          var r := FindDiff(tree, roots[i], roots[i], roots[m], es0);
          StatsOfWalk(es0, a, tree.entries, roots[i], roots[m], roots[i]);
          ProgressStep(es0, a, tree.entries, roots, i, m);
        } else {
          assert Others(roots, i, m + 1) == Others(roots, i, m);
        }
      }
      ProgressNext(es0, tree.entries, roots, i);
    }
  }

  lemma {:induction false} ProgressStart(es0: Arena, roots: seq<VfsId>)
    requires Tree(es0) && Disjoint(es0, roots) && forall i :: 0 <= i < |es0| ==> es0[i].treediffStat == 0
    ensures Progress(es0, es0, roots, 0, 0)
  {
    if roots != [] { assert Others(roots, 0, 0) == {}; }
  }

  lemma {:induction false} RootsInRange(es0: Arena, roots: seq<VfsId>, i: nat, m: nat)
    requires Disjoint(es0, roots) && i < |roots| && m < |roots|
    ensures roots[i] < |es0| && roots[m] < |es0|
  {
  }

  lemma {:induction false} ProgressNext(es0: Arena, es: Arena, roots: seq<VfsId>, i: nat)
    requires Tree(es0) && Disjoint(es0, roots) && i < |roots| && Progress(es0, es, roots, i, |roots|)
    ensures Progress(es0, es, roots, i + 1, 0)
  {
    hide Settled;
    if i + 1 < |roots| { assert Others(roots, i + 1, 0) == {}; }
  }

  lemma {:induction false} ProgressStep(es0: Arena, a: Arena, b: Arena, roots: seq<VfsId>, i: nat, m: nat)
    requires Tree(es0) && Disjoint(es0, roots) && i < |roots| && m < |roots| && m != i
    requires Progress(es0, a, roots, i, m) && Walked(es0, a, b, roots[i], roots[m], roots[i])
    ensures Progress(es0, b, roots, i, m + 1)
  {
    StatsOfWalk(es0, a, b, roots[i], roots[m], roots[i]);
    assert Others(roots, i, m + 1) == Others(roots, i, m) + {roots[m]};
    forall j | 0 <= j < |roots|
      ensures Settled(es0, b, roots[j],
        if j < i then Others(roots, j, |roots|) else if j == i then Others(roots, j, m + 1) else {})
    {
      hide Settled, Walked;
      if j == i {
        SettledStep(es0, a, b, roots[i], Others(roots, i, m), roots[m]);
      } else {
        OthersUntouched(es0, a, b, roots[i], roots[m], roots[j], if j < i then Others(roots, j, |roots|) else {});
      }
    }
  }

  /** No entry between the root and `n` ended with 2. */
  ghost predicate NoTwoAbove(es0: Arena, es: Arena, root: VfsId, n: VfsId)
    requires |es| == |es0| && root < |es0| && n < |es0|
  {
    forall m :: 0 <= m < |es0| && es0[root].path <= es0[m].path < es0[n].path ==> es[m].treediffStat != 2
  }

  lemma {:induction false} ClosedMeansTwo(es0: Arena, es: Arena, root: VfsId, ks: set<VfsId>, n: VfsId, m: VfsId)
    requires Tree(es0) && |es| == |es0| && root < |es0| && n < |es0| && m < |es0|
    requires Settled(es0, es, root, ks) && ks != {}
    requires es0[root].path <= es0[m].path < es0[n].path && MatchesAny(es0, root, ks, m)
    ensures !NoTwoAbove(es0, es, root, n)
    decreases |es0[m].path|
  {
    if Open(es0, root, ks, m) {
      assert es[m].treediffStat == Final(es0, root, ks, m);
    } else {
      var k :| 0 <= k < |es0| && es0[root].path <= es0[k].path < es0[m].path && MatchesAny(es0, root, ks, k);
      ClosedMeansTwo(es0, es, root, ks, n, k);
    }
  }

  lemma {:induction false} KidsFinalAre(es0: Arena, es: Arena, root: VfsId, ks: set<VfsId>, n: VfsId, k: nat)
    requires Tree(es0) && |es| == |es0| && n < |es0| && k <= |es0[n].childs|
    requires Settled(es0, es, root, ks) && ks != {} && Open(es0, root, ks, n) && !MatchesAny(es0, root, ks, n)
    ensures KidsFinal(es0, root, ks, n, k) <==> forall j :: 0 <= j < k ==> KidNotUnique(es0, es, n, j)
  {
    hide Tree, Open, Settled, MatchesAny, Final;
    if k > 0 {
      var c := es0[n].childs[k - 1];
      LinkOf(es0, n, c);
      OpenKid(es0, root, ks, n, c);
      StatOf(es0, es, root, ks, c);
      KidsFinalAre(es0, es, root, ks, n, k - 1);
      assert KidNotUnique(es0, es, n, k - 1) <==> Final(es0, root, ks, c) != 0;
    }
  }

  lemma {:induction false} StatOf(es0: Arena, es: Arena, root: VfsId, ks: set<VfsId>, n: VfsId)
    requires Tree(es0) && |es| == |es0| && n < |es0| && Settled(es0, es, root, ks) && ks != {} && Open(es0, root, ks, n)
    ensures es[n].treediffStat == Final(es0, root, ks, n)
  {
  }

  ghost predicate KidNotUnique(es0: Arena, es: Arena, n: VfsId, j: nat)
    requires n < |es0| == |es| && j < |es0[n].childs|
  {
    es0[n].childs[j] < |es| && es[es0[n].childs[j]].treediffStat != 0
  }

  /** The entry `f` stands at `names` below the `j`-th root, another one than the `i`-th, and is equal to `n`. */
  ghost predicate EqualAt(es: Arena, roots: seq<VfsId>, i: nat, n: VfsId, names: Path, j: nat, f: VfsId) {
    && j < |roots| && j != i && roots[j] < |es| && n < |es|
    && At(es, es[roots[j]].path + names, f) && HashesMatch(es[n], es[f])
  }

  lemma {:induction false} AnyIsEqual(es0: Arena, roots: seq<VfsId>, i: nat, n: VfsId, names: Path)
    requires Disjoint(es0, roots) && i < |roots| && n < |es0| && es0[n].path == es0[roots[i]].path + names
    ensures MatchesAny(es0, roots[i], Others(roots, i, |roots|), n) <==>
      exists j: nat, f: VfsId :: EqualAt(es0, roots, i, n, names, j, f)
  {
    var ks := Others(roots, i, |roots|);
    if o :| o in ks && Matches(es0, roots[i], o, n) {
      var j :| 0 <= j < |roots| && j != i && roots[j] == o;
      var f: VfsId :| Counterpart(es0, roots[i], o, n, f) && HashesMatch(es0[n], es0[f]);
      CounterpartIs(es0, roots[i], o, n, f, names);
      assert EqualAt(es0, roots, i, n, names, j, f);
    }
    if j: nat, f: VfsId :| EqualAt(es0, roots, i, n, names, j, f) {
      CounterpartIs(es0, roots[i], roots[j], n, f, names);
      assert roots[j] in ks;
    }
  }

  /** With two or more roots, an entry below no 2 ends with 2 exactly if an equal entry stands at the
      same names below another root, else with 1 exactly if it is a directory none of whose children
      ended with 0, else with 0. */
  lemma {:induction false} ClosedForm(es0: Arena, es: Arena, roots: seq<VfsId>, i: nat, n: VfsId, names: Path)
    requires Tree(es0) && |es| == |es0| && Disjoint(es0, roots) && 2 <= |roots| && i < |roots| && n < |es0|
    requires Settled(es0, es, roots[i], Others(roots, i, |roots|))
    requires es0[n].path == es0[roots[i]].path + names && NoTwoAbove(es0, es, roots[i], n)
    ensures es[n].treediffStat ==
      if exists j: nat, f: VfsId :: EqualAt(es0, roots, i, n, names, j, f) then 2
      else if es0[n].isDir && forall j :: 0 <= j < |es0[n].childs| ==> KidNotUnique(es0, es, n, j) then 1 else 0
  {
    var root, ks := roots[i], Others(roots, i, |roots|);
    assert (if i == 0 then roots[1] else roots[0]) in ks;
    forall m | 0 <= m < |es0| && es0[root].path <= es0[m].path < es0[n].path
      ensures !MatchesAny(es0, root, ks, m)
    {
      if MatchesAny(es0, root, ks, m) { ClosedMeansTwo(es0, es, root, ks, n, m); }
    }
    assert Open(es0, root, ks, n);
    AnyIsEqual(es0, roots, i, n, names);
    if !MatchesAny(es0, root, ks, n) {
      KidsFinalAre(es0, es, root, ks, n, |es0[n].childs|);
    }
  }

  /** Whatever the order of the roots, such an entry ends with the same result. */
  lemma {:induction false} OrderIrrelevant(es0: Arena, es: Arena, fs: Arena, roots: seq<VfsId>, permuted: seq<VfsId>,
                                           i: nat, j: nat, n: VfsId)
    requires Tree(es0) && |es| == |es0| && |fs| == |es0| && Disjoint(es0, roots) && Disjoint(es0, permuted)
    requires multiset(roots) == multiset(permuted) && i < |roots| && j < |permuted| && roots[i] == permuted[j]
    requires Settled(es0, es, roots[i], Others(roots, i, |roots|))
    requires Settled(es0, fs, permuted[j], Others(permuted, j, |permuted|))
    requires Open(es0, roots[i], Others(roots, i, |roots|), n)
    ensures es[n].treediffStat == fs[n].treediffStat
  {
    OthersAre(es0, roots, i);
    OthersAre(es0, permuted, j);
    forall r
      ensures r in roots <==> r in permuted
    {
      assert r in multiset(roots) <==> r in multiset(permuted);
    }
    assert Others(roots, i, |roots|) == Others(permuted, j, |permuted|);
  }

  lemma {:induction false} OthersAre(es0: Arena, roots: seq<VfsId>, i: nat)
    requires Disjoint(es0, roots) && i < |roots|
    ensures forall r :: r in Others(roots, i, |roots|) <==> r in roots && r != roots[i]
  {
    forall r | r in roots && r != roots[i]
      ensures r in Others(roots, i, |roots|)
    {
      var k :| 0 <= k < |roots| && roots[k] == r;
    }
  }
}
