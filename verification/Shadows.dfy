/** Which entries are shadowed by a duplicate above them (dupion/src/process/mod.rs). */
module Shadows {
  import opened Basics
  import opened Arenas
  import opened States

  ghost predicate SharedHash(hashes: Hashes, h: Option<Hash>) {
    h.Some? && CountHashes(hashes, h.value) > 1
  }

  /** From `id` down to `n` everything exists. */
  ghost predicate ExistsTo(es: Arena, id: VfsId, n: VfsId) {
    && id < |es| && n < |es| && es[id].path <= es[n].path
    && forall m :: 0 <= m < |es| && es[id].path <= es[m].path <= es[n].path ==> es[m].Exists()
  }

  /** `a`, reached from `id` through existing entries, is a duplicate above `n`. */
  ghost predicate Casts(es: Arena, hashes: Hashes, id: VfsId, a: VfsId, n: VfsId) {
    && ExistsTo(es, id, a) && n < |es| && es[a].path < es[n].path
    && (SharedHash(hashes, es[a].fileHash) || SharedHash(hashes, es[a].dirHash))
  }

  /** Shadowed: a duplicate stands above. */
  ghost predicate InShadow(es: Arena, hashes: Hashes, id: VfsId, n: VfsId) {
    exists a: VfsId :: Casts(es, hashes, id, a, n)
  }

  /** Shadowed as a directory: also when the entry is itself a file with a duplicate. */
  ghost predicate DirInShadow(es: Arena, hashes: Hashes, id: VfsId, n: VfsId) {
    InShadow(es, hashes, id, n) || (ExistsTo(es, id, n) && SharedHash(hashes, es[n].fileHash))
  }

  /** `b` is `a` with shadow flags raised as the walk from `id` raises them. */
  ghost predicate Shaded(es0: Arena, hashes: Hashes, id: VfsId, a: Arena, b: Arena)
    requires |es0| == |a|
  {
    |b| == |a| && forall n :: 0 <= n < |a| ==>
      b[n] == a[n].(fileShadowed := a[n].fileShadowed || InShadow(es0, hashes, id, n),
                    dirShadowed := a[n].dirShadowed || DirInShadow(es0, hashes, id, n))
  }

  ghost predicate KidShades(es0: Arena, hashes: Hashes, id: VfsId, j: nat, n: VfsId)
    requires id < |es0| && j < |es0[id].childs|
  {
    InShadow(es0, hashes, es0[id].childs[j], n)
  }

  ghost predicate AnyShades(es0: Arena, hashes: Hashes, id: VfsId, k: nat, n: VfsId)
    requires id < |es0| && k <= |es0[id].childs|
  {
    exists j :: 0 <= j < k && KidShades(es0, hashes, id, j, n)
  }

  ghost predicate AnyDirShades(es0: Arena, hashes: Hashes, id: VfsId, k: nat, n: VfsId)
    requires id < |es0| && k <= |es0[id].childs|
  {
    exists j :: 0 <= j < k && KidDirShades(es0, hashes, id, j, n)
  }

  ghost predicate KidDirShades(es0: Arena, hashes: Hashes, id: VfsId, j: nat, n: VfsId)
    requires id < |es0| && j < |es0[id].childs|
  {
    DirInShadow(es0, hashes, es0[id].childs[j], n)
  }

  /** The same after the walks from the first `k` children. */
  ghost predicate ShadedKids(es0: Arena, hashes: Hashes, id: VfsId, k: nat, a: Arena, b: Arena)
    requires |es0| == |a| && id < |es0| && k <= |es0[id].childs|
  {
    |b| == |a| && forall n :: 0 <= n < |a| ==>
      b[n] == a[n].(fileShadowed := a[n].fileShadowed || AnyShades(es0, hashes, id, k, n),
                    dirShadowed := a[n].dirShadowed || AnyDirShades(es0, hashes, id, k, n))
  }

  /** Only the shadow flags differ from the arena the walk started on. */
  ghost predicate FlagsOnly(es0: Arena, es: Arena) {
    |es| == |es0| && forall i :: 0 <= i < |es| ==>
      es[i] == es0[i].(fileShadowed := es[i].fileShadowed, dirShadowed := es[i].dirShadowed)
  }

  function Shade(e: VfsEntry): VfsEntry {
    e.(dirShadowed := true, fileShadowed := true)
  }

  /** Below a duplicate everything is in its shadow; nothing else is, seen from there. */
  lemma {:induction false} TopDuplicate(es: Arena, hashes: Hashes, id: VfsId, n: VfsId)
    requires Tree(es) && id < |es| && n < |es| && es[id].Exists()
    requires SharedHash(hashes, es[id].fileHash) || SharedHash(hashes, es[id].dirHash)
    ensures InShadow(es, hashes, id, n) <==> es[id].path < es[n].path
    ensures ExistsTo(es, id, id)
    ensures DirInShadow(es, hashes, id, n) <==>
      es[id].path < es[n].path || (n == id && SharedHash(hashes, es[id].fileHash))
  {
    forall m | 0 <= m < |es| && es[m].path == es[id].path
      ensures m == id
    {
      PathsUnique(es, m, id);
    }
    if es[id].path < es[n].path {
      assert Casts(es, hashes, id, id, n);
    }
  }

  /** An entry that is no duplicate casts no shadow: what it sees is what its children see. */
  lemma {:induction false} ThroughKids(es: Arena, hashes: Hashes, id: VfsId, n: VfsId)
    requires Tree(es) && id < |es| && n < |es| && es[id].Exists()
    requires !SharedHash(hashes, es[id].fileHash) && !SharedHash(hashes, es[id].dirHash)
    ensures InShadow(es, hashes, id, n) <==> AnyShades(es, hashes, id, |es[id].childs|, n)
    ensures DirInShadow(es, hashes, id, n) <==> AnyDirShades(es, hashes, id, |es[id].childs|, n)
  {
    if InShadow(es, hashes, id, n) {
      var a: VfsId :| Casts(es, hashes, id, a, n);
      if a != id {
        var j := ExistsViaKid(es, id, a);
        assert Casts(es, hashes, es[id].childs[j], a, n);
        assert KidShades(es, hashes, id, j, n) && KidDirShades(es, hashes, id, j, n);
      }
    }
    if ExistsTo(es, id, n) && SharedHash(hashes, es[n].fileHash) {
      var j := ExistsViaKid(es, id, n);
      assert KidDirShades(es, hashes, id, j, n);
    }
    forall j, a: VfsId | 0 <= j < |es[id].childs| && ExistsTo(es, es[id].childs[j], a)
      ensures ExistsTo(es, id, a)
    {
      KidExists(es, id, j, a);
    }
    forall j | 0 <= j < |es[id].childs| && KidShades(es, hashes, id, j, n)
      ensures InShadow(es, hashes, id, n)
    {
      var a: VfsId :| Casts(es, hashes, es[id].childs[j], a, n);
      assert Casts(es, hashes, id, a, n);
    }
    forall j | 0 <= j < |es[id].childs| && KidDirShades(es, hashes, id, j, n)
      ensures DirInShadow(es, hashes, id, n)
    {
      if KidShades(es, hashes, id, j, n) { assert InShadow(es, hashes, id, n); }
    }
  }

  lemma {:induction false} ExistsViaKid(es: Arena, id: VfsId, a: VfsId) returns (j: nat)
    requires Tree(es) && ExistsTo(es, id, a) && a != id
    ensures j < |es[id].childs| && ExistsTo(es, es[id].childs[j], a)
  {
    if es[a].path == es[id].path { PathsUnique(es, a, id); }
    var c := ChildTowards(es, id, a);
    j :| 0 <= j < |es[id].childs| && es[id].childs[j] == c;
  }

  lemma {:induction false} KidExists(es: Arena, id: VfsId, j: nat, a: VfsId)
    requires Tree(es) && id < |es| && j < |es[id].childs| && es[id].Exists() && ExistsTo(es, es[id].childs[j], a)
    ensures ExistsTo(es, id, a)
  {
    var c := es[id].childs[j];
    assert Link(es, id, c);
    forall m | 0 <= m < |es| && es[id].path <= es[m].path <= es[a].path
      ensures es[m].Exists()
    {
      if !(es[c].path <= es[m].path) {
        PrefixesMeet(es[m].path, es[c].path, es[a].path);
        PathsUnique(es, m, id);
      }
    }
  }

  /** Raise the shadow flags at and below `id`. `es0` is the arena the whole walk started on. */
  method FindShadowed(s: State, id: VfsId, ghost es0: Arena)
    requires Tree(es0) && id < |es0| && FlagsOnly(es0, s.tree.entries)
    modifies s.tree
    ensures Shaded(es0, s.hashes, id, old(s.tree.entries), s.tree.entries)
    ensures FlagsOnly(es0, s.tree.entries)
    decreases |es0| - id, 1
  {
    hide Tree, InShadow, DirInShadow, ExistsTo;
    ghost var start := s.tree.entries;
    FlagsKeepTree(es0, start);
    var e := s.tree.entries[id];
    if !e.Exists() {
      NothingReached(es0, s.hashes, id, start);
      return;
    }
    if e.fileHash.Some? {
      var n := s.NumHashes(e.fileHash.value);
      if n > 1 {
        s.tree.entries := s.tree.entries[id := s.tree.entries[id].(dirShadowed := true)];
        ShadeBelow(s, id, es0, start);
        return;
      }
    }
    if e.dirHash.Some? {
      var n := s.NumHashes(e.dirHash.value);
      if n > 1 {
        ShadeBelow(s, id, es0, start);
        return;
      }
    }
    ShadowKids(s, id, es0);
    ShadedKidsEnd(es0, s.hashes, id, start, s.tree.entries);
  }

  /** The walks from all children. */
  method ShadowKids(s: State, id: VfsId, ghost es0: Arena)
    requires Tree(es0) && id < |es0| && FlagsOnly(es0, s.tree.entries)
    modifies s.tree
    ensures ShadedKids(es0, s.hashes, id, |es0[id].childs|, old(s.tree.entries), s.tree.entries)
    ensures FlagsOnly(es0, s.tree.entries)
    decreases |es0| - id, 0
  {
    hide Tree, InShadow, DirInShadow, ExistsTo;
    ghost var start := s.tree.entries;
    var childs := s.tree.entries[id].childs;
    for k := 0 to |childs|
      invariant ShadedKids(es0, s.hashes, id, k, start, s.tree.entries)
      invariant FlagsOnly(es0, s.tree.entries)
    {
      ghost var mid := s.tree.entries;
      LinkOf(es0, id, childs[k]);
      assert childs[k] != id;
      FindShadowed(s, childs[k], es0);
      ShadedKidsStep(es0, s.hashes, id, k, start, mid, s.tree.entries);
    }
  }

  /** `id` is a duplicate: everything below it is in its shadow. */
  method ShadeBelow(s: State, id: VfsId, ghost es0: Arena, ghost start: Arena)
    requires Tree(es0) && id < |es0| && es0[id].Exists() && FlagsOnly(es0, start)
    requires SharedHash(s.hashes, es0[id].fileHash) || SharedHash(s.hashes, es0[id].dirHash)
    requires s.tree.entries ==
      if SharedHash(s.hashes, es0[id].fileHash) then start[id := start[id].(dirShadowed := true)] else start
    modifies s.tree
    ensures Shaded(es0, s.hashes, id, start, s.tree.entries) && FlagsOnly(es0, s.tree.entries)
  {
    hide Tree, SharedHash;
    FlagsKeepTree(es0, s.tree.entries);
    ghost var marked := s.tree.entries;
    s.tree.ForRecursive(id, false, e => Shade(e));
    AllBelowShaded(es0, s.hashes, id, start, marked, s.tree.entries, e => Shade(e));
  }

  lemma {:induction false} FlagsKeepTree(es0: Arena, es: Arena)
    requires Tree(es0) && FlagsOnly(es0, es)
    ensures Tree(es) && SameShape(es0, es)
  {
    SameShapeTree(es0, es);
  }

  lemma {:induction false} NothingReached(es0: Arena, hashes: Hashes, id: VfsId, es: Arena)
    requires Tree(es0) && id < |es0| && FlagsOnly(es0, es) && !es0[id].Exists()
    ensures Shaded(es0, hashes, id, es, es)
  {
    forall n: VfsId
      ensures !ExistsTo(es0, id, n)
    {
    }
  }

  lemma {:induction false} AllBelowShaded(es0: Arena, hashes: Hashes, id: VfsId, a: Arena, mid: Arena, b: Arena,
                                          f: VfsEntry -> VfsEntry)
    requires Tree(es0) && id < |es0| && FlagsOnly(es0, a) && es0[id].Exists()
    requires SharedHash(hashes, es0[id].fileHash) || SharedHash(hashes, es0[id].dirHash)
    requires mid == if SharedHash(hashes, es0[id].fileHash) then a[id := a[id].(dirShadowed := true)] else a
    requires Applied(mid, b, id, false, f) && forall e :: f(e) == Shade(e)
    ensures Shaded(es0, hashes, id, a, b) && FlagsOnly(es0, b)
  {
    forall n | 0 <= n < |a|
      ensures b[n] == a[n].(fileShadowed := a[n].fileShadowed || InShadow(es0, hashes, id, n),
                            dirShadowed := a[n].dirShadowed || DirInShadow(es0, hashes, id, n))
    {
      TopDuplicate(es0, hashes, id, n);
    }
  }

  lemma {:induction false} ShadedKidsStep(es0: Arena, hashes: Hashes, id: VfsId, k: nat, a: Arena, mid: Arena, b: Arena)
    requires |es0| == |a| == |mid| && id < |es0| && k < |es0[id].childs|
    requires ShadedKids(es0, hashes, id, k, a, mid) && Shaded(es0, hashes, es0[id].childs[k], mid, b)
    ensures ShadedKids(es0, hashes, id, k + 1, a, b)
  {
    hide InShadow, DirInShadow;
    forall n | 0 <= n < |a|
      ensures AnyShades(es0, hashes, id, k + 1, n) <==>
        AnyShades(es0, hashes, id, k, n) || KidShades(es0, hashes, id, k, n)
      ensures AnyDirShades(es0, hashes, id, k + 1, n) <==>
        AnyDirShades(es0, hashes, id, k, n) || KidDirShades(es0, hashes, id, k, n)
    {
    }
  }

  lemma {:induction false} ShadedKidsEnd(es0: Arena, hashes: Hashes, id: VfsId, a: Arena, b: Arena)
    requires Tree(es0) && id < |es0| == |a| && es0[id].Exists()
    requires !SharedHash(hashes, es0[id].fileHash) && !SharedHash(hashes, es0[id].dirHash)
    requires ShadedKids(es0, hashes, id, |es0[id].childs|, a, b)
    ensures Shaded(es0, hashes, id, a, b)
  {
    forall n | 0 <= n < |a|
      ensures InShadow(es0, hashes, id, n) <==> AnyShades(es0, hashes, id, |es0[id].childs|, n)
      ensures DirInShadow(es0, hashes, id, n) <==> AnyDirShades(es0, hashes, id, |es0[id].childs|, n)
    {
      ThroughKids(es0, hashes, id, n);
    }
  }
}
