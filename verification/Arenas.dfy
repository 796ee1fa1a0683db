/** The arena of file system entries (dupion/src/vfs/mod.rs, dupion/src/vfs/entry.rs). */
module Arenas {
  import opened Basics

  type Name = Bytes
  type Hash = Bytes
  /** The components of an absolute path; the root directory is a component too. */
  type Path = seq<Name>
  type VfsId = nat

  const ROOT: VfsId := 0

  datatype EntryType = File | Dir

  datatype VfsEntry = VfsEntry(
    path: Path, plc: Name, ctime: Option<int>,
    fileSize: Option<nat>, dirSize: Option<nat>, fileHash: Option<Hash>, dirHash: Option<Hash>,
    childs: seq<VfsId>, valid: bool, isFile: bool, isDir: bool, wasFile: bool, wasDir: bool,
    fileShadowed: bool, dirShadowed: bool, unique: bool, treediffStat: nat,
    phys: Option<nat>, nExtends: Option<nat>)
  {
    predicate Exists() { isFile || isDir }
  }

  type Arena = seq<VfsEntry>

  /** The last component of a path. */
  function ToPlc(p: Path): Name {
    if p == [] then [] else p[|p| - 1]
  }

  function NewEntry(p: Path): VfsEntry {
    VfsEntry(p, ToPlc(p), None, None, None, None, None, [], false, false, false, false, false,
             false, false, false, 0, Some(0), None)
  }

  /** `c` is a proper child of `p`: a later entry, one component below. */
  ghost predicate Link(es: Arena, p: VfsId, c: VfsId) {
    p < c < |es| && es[c].path == es[p].path + [es[c].plc]
  }

  ghost predicate Links(es: Arena) {
    forall p, k :: 0 <= p < |es| && 0 <= k < |es[p].childs| ==> Link(es, p, es[p].childs[k])
  }

  /** Siblings have different names. */
  ghost predicate Siblings(es: Arena)
    requires Links(es)
  {
    forall p, j, k :: 0 <= p < |es| && 0 <= j < k < |es[p].childs| ==>
      es[es[p].childs[j]].plc != es[es[p].childs[k]].plc
  }

  ghost predicate HasParent(es: Arena, c: VfsId) {
    exists p :: 0 <= p < |es| && c in es[p].childs
  }

  /** The arena is a tree of paths. */
  ghost predicate Tree(es: Arena) {
    && |es| > 0 && es[ROOT].path == []
    && Links(es) && Siblings(es)
    && forall c :: 0 < c < |es| ==> HasParent(es, c)
  }

  /** The entry `i` holds path `p`. */
  ghost predicate At(es: Arena, p: Path, i: VfsId) {
    i < |es| && es[i].path == p
  }

  /** Only attributes differ: paths and children are the same. */
  ghost predicate SameShape(a: Arena, b: Arena) {
    |a| == |b| && forall i :: 0 <= i < |a| ==>
      a[i].path == b[i].path && a[i].plc == b[i].plc && a[i].childs == b[i].childs
  }

  lemma {:induction false} SameShapeTree(a: Arena, b: Arena)
    requires Tree(a) && SameShape(a, b)
    ensures Tree(b)
  {
    forall p, k | 0 <= p < |b| && 0 <= k < |b[p].childs|
      ensures Link(b, p, b[p].childs[k])
    {
      assert Link(a, p, a[p].childs[k]);
    }
    forall c | 0 < c < |b|
      ensures HasParent(b, c)
    {
      assert HasParent(a, c);
    }
  }

  lemma {:induction false} LinkOf(es: Arena, p: VfsId, c: VfsId)
    requires Tree(es) && p < |es| && c in es[p].childs
    ensures Link(es, p, c)
  {
  }

  lemma {:induction false} ParentOf(es: Arena, c: VfsId) returns (p: VfsId)
    requires Tree(es) && 0 < c < |es|
    ensures Link(es, p, c) && c in es[p].childs
    ensures es[c].path != [] && es[p].path == es[c].path[..|es[c].path| - 1]
  {
    assert HasParent(es, c);
    p :| 0 <= p < |es| && c in es[p].childs;
    LinkOf(es, p, c);
  }

  lemma {:induction false} SiblingsDiffer(es: Arena, p: VfsId, c: VfsId, d: VfsId)
    requires Tree(es) && p < |es| && c in es[p].childs && d in es[p].childs
    requires c < |es| && d < |es| && es[c].plc == es[d].plc
    ensures c == d
  {
    var j :| 0 <= j < |es[p].childs| && es[p].childs[j] == c;
    var k :| 0 <= k < |es[p].childs| && es[p].childs[k] == d;
  }

  /** The arena is a map: a path has at most one entry. */
  lemma {:induction false} PathsUnique(es: Arena, i: VfsId, j: VfsId)
    requires Tree(es) && i < |es| && j < |es| && es[i].path == es[j].path
    ensures i == j
    decreases i
  {
    if i > 0 {
      var p := ParentOf(es, i);
      if j > 0 {
        var q := ParentOf(es, j);
        PathsUnique(es, p, q);
        assert es[i].plc == es[i].path[|es[i].path| - 1] == es[j].plc;
        SiblingsDiffer(es, p, i, j);
      }
    } else if j > 0 {
      var q := ParentOf(es, j);
    }
  }

  /** Every prefix of a stored path is stored, not later than the path itself. */
  lemma {:induction false} PrefixStored(es: Arena, i: VfsId, n: nat) returns (a: VfsId)
    requires Tree(es) && i < |es| && n <= |es[i].path|
    ensures At(es, es[i].path[..n], a) && a <= i
    decreases i
  {
    a := i;
    if n == |es[i].path| {
      assert es[i].path[..n] == es[i].path;
    } else if i > 0 {
      var p := ParentOf(es, i);
      a := PrefixStored(es, p, n);
      assert es[p].path[..n] == es[i].path[..n];
    }
  }

  /** The child of `a` on the way down to its descendant `i`. */
  lemma {:induction false} ChildTowards(es: Arena, a: VfsId, i: VfsId) returns (c: VfsId)
    requires Tree(es) && a < |es| && i < |es| && es[a].path < es[i].path
    ensures c in es[a].childs && Link(es, a, c) && es[c].path <= es[i].path
    decreases i
  {
    if i == 0 { assert false; }
    var p := ParentOf(es, i);
    if |es[p].path| == |es[a].path| {
      assert es[p].path == es[a].path;
      PathsUnique(es, p, a);
      c := i;
    } else {
      assert es[a].path <= es[p].path by {
        assert es[a].path == es[i].path[..|es[a].path|] == es[p].path[..|es[a].path|];
      }
      c := ChildTowards(es, a, p);
      assert es[c].path <= es[p].path <= es[i].path;
    }
  }

  /** What `CidAndCreate` does: the missing prefixes of `p` are appended, everything else is
      kept, and the proper prefixes of `p` are marked as directories. */
  ghost predicate Created(old_: Arena, p: Path, es: Arena, id: VfsId) {
    && Tree(es) && At(es, p, id) && |old_| <= |es|
    && (forall i :: 0 <= i < |old_| ==> KeptEntry(old_[i], p, es[i]))
    && (forall i :: |old_| <= i < |es| ==> FreshEntry(p, es[i]))
  }

  ghost predicate KeptEntry(a: VfsEntry, p: Path, b: VfsEntry) {
    && b == a.(isDir := a.isDir || a.path < p, childs := b.childs)
    && a.childs <= b.childs
    && (!(a.path < p) ==> b.childs == a.childs)
  }

  ghost predicate FreshEntry(p: Path, b: VfsEntry) {
    && b.path <= p
    && b == VfsEntry(b.path, if b.path == [] then [] else b.path[|b.path| - 1], None, None, None, None, None, b.childs,
                     false, false, b.path < p, false, false, false, false, false, 0, Some(0), None)
  }

  /** Every earlier lookup is preserved and exactly the prefixes of `p` become stored. */
  lemma {:induction false} CreatedLookups(es: Arena, p: Path, es': Arena, id: VfsId, q: Path, i: VfsId)
    requires Tree(es) && Created(es, p, es', id)
    ensures At(es, q, i) ==> At(es', q, i)
    ensures At(es', q, i) ==> At(es, q, i) || q <= p
    ensures q <= p ==> exists j :: At(es', q, j)
  {
    if q <= p {
      var j := PrefixStored(es', id, |q|);
      assert At(es', q, j);
    }
    if i < |es| {
      assert KeptEntry(es[i], p, es'[i]);
    } else if i < |es'| {
      assert FreshEntry(p, es'[i]);
    }
  }

  /** Creating a stored path again finds the same entry and adds none. */
  lemma {:induction false} CreatedIdempotent(es: Arena, p: Path, es': Arena, id: VfsId, i: VfsId)
    requires Tree(es) && Created(es, p, es', id) && At(es, p, i)
    ensures i == id && |es'| == |es|
    ensures forall j :: 0 <= j < |es| ==> es'[j] == es[j].(isDir := es[j].isDir || es[j].path < p)
  {
    assert KeptEntry(es[i], p, es'[i]);
    PathsUnique(es', i, id);
    if |es'| > |es| {
      var f := |es|;
      assert FreshEntry(p, es'[f]);
      var a := PrefixStored(es, i, |es'[f].path|);
      assert KeptEntry(es[a], p, es'[a]);
      PathsUnique(es', a, f);
    }
    forall j | 0 <= j < |es|
      ensures es'[j] == es[j].(isDir := es[j].isDir || es[j].path < p)
    {
      assert KeptEntry(es[j], p, es'[j]);
      NoNewChild(es, p, es', id, j);
    }
  }

  lemma {:induction false} NoNewChild(es: Arena, p: Path, es': Arena, id: VfsId, j: VfsId)
    requires Tree(es) && Created(es, p, es', id) && |es'| == |es| && j < |es|
    ensures es'[j].childs == es[j].childs
  {
    assert KeptEntry(es[j], p, es'[j]);
    if |es[j].childs| < |es'[j].childs| {
      var k := |es[j].childs|;
      var c := es'[j].childs[k];
      assert Link(es', j, c);
      var q := ParentOf(es, c);
      assert KeptEntry(es[c], p, es'[c]) && KeptEntry(es[q], p, es'[q]);
      assert es'[q].path == es'[j].path;
      PathsUnique(es', q, j);
    }
  }

  lemma {:induction false} CreatedStart(es: Arena)
    requires Tree(es)
    ensures Created(es, [], es, ROOT) && At(es, [], ROOT)
  {
  }

  /** One more component that is already there. */
  lemma {:induction false} CreatedFound(es: Arena, q: Path, mid: Arena, id: VfsId, n: Name, c: VfsId, es': Arena)
    requires Tree(es) && Created(es, q, mid, id)
    requires c in mid[id].childs && c < |mid| && mid[c].plc == n
    requires es' == mid[id := mid[id].(isDir := true)]
    ensures Created(es, q + [n], es', c) && Tree(es') && At(es', q + [n], c)
  {
    SameShapeTree(mid, es');
    LinkOf(mid, id, c);
    forall i | 0 <= i < |es|
      ensures KeptEntry(es[i], q + [n], es'[i])
    {
      assert KeptEntry(es[i], q, mid[i]);
      ExtendedPrefix(mid, q, id, n, i);
    }
    forall i | |es| <= i < |es'|
      ensures FreshEntry(q + [n], es'[i])
    {
      assert FreshEntry(q, mid[i]);
      ExtendedPrefix(mid, q, id, n, i);
    }
  }

  lemma {:induction false} ExtendedPrefix(es: Arena, q: Path, id: VfsId, n: Name, i: VfsId)
    requires Tree(es) && At(es, q, id) && i < |es|
    ensures es[i].path < q + [n] <==> es[i].path < q || i == id
    ensures es[i].path <= q ==> es[i].path <= q + [n]
  {
    var p := es[i].path;
    if p < q + [n] {
      assert p == (q + [n])[..|p|] == q[..|p|];
      if |p| == |q| { PathsUnique(es, i, id); }
    }
    if p <= q { assert p == q[..|p|] == (q + [n])[..|p|]; }
  }

  /** One more component that is not there yet. */
  lemma {:induction false} CreatedNew(es: Arena, q: Path, mid: Arena, id: VfsId, n: Name, es': Arena)
    requires Tree(es) && Created(es, q, mid, id)
    requires forall k :: 0 <= k < |mid[id].childs| ==> mid[id].childs[k] < |mid| && mid[mid[id].childs[k]].plc != n
    requires es' == mid[id := mid[id].(isDir := true, childs := mid[id].childs + [|mid|])] + [NewEntry(q + [n])]
    ensures Created(es, q + [n], es', |mid|) && Tree(es') && At(es', q + [n], |mid|)
  {
    AppendedTree(mid, id, n, es');
    hide Tree, Created, NewEntry, KeptEntry, FreshEntry;
    CreatedParts(es, q, mid, id, id);
    forall i | 0 <= i < |es|
      ensures KeptEntry(es[i], q + [n], es'[i])
    {
      NewKept(es, q, mid, id, n, es', i);
    }
    forall i | |es| <= i < |es'|
      ensures FreshEntry(q + [n], es'[i])
    {
      NewFresh(es, q, mid, id, n, es', i);
    }
    CreatedEnd(mid, id, q, n, es');
    CreatedWhole(es, q + [n], es', |mid|);
  }

  lemma {:induction false} NewKept(es: Arena, q: Path, mid: Arena, id: VfsId, n: Name, es': Arena, i: VfsId)
    requires Tree(es) && Created(es, q, mid, id) && i < |es|
    requires es' == mid[id := mid[id].(isDir := true, childs := mid[id].childs + [|mid|])] + [NewEntry(q + [n])]
    ensures KeptEntry(es[i], q + [n], es'[i])
  {
    CreatedParts(es, q, mid, id, i);
    ExtendedPrefix(mid, q, id, n, i);
  }

  lemma {:induction false} NewFresh(es: Arena, q: Path, mid: Arena, id: VfsId, n: Name, es': Arena, i: VfsId)
    requires Tree(es) && Created(es, q, mid, id) && |es| <= i <= |mid|
    requires es' == mid[id := mid[id].(isDir := true, childs := mid[id].childs + [|mid|])] + [NewEntry(q + [n])]
    ensures FreshEntry(q + [n], es'[i])
  {
    if i < |mid| {
      CreatedParts(es, q, mid, id, i);
      ExtendedPrefix(mid, q, id, n, i);
    } else {
      NewIsFresh(q + [n]);
    }
  }

  lemma {:induction false} CreatedEnd(mid: Arena, id: VfsId, q: Path, n: Name, es': Arena)
    requires id < |mid|
    requires es' == mid[id := mid[id].(isDir := true, childs := mid[id].childs + [|mid|])] + [NewEntry(q + [n])]
    ensures At(es', q + [n], |mid|)
  {
    NewIsFresh(q + [n]);
  }

  lemma {:induction false} CreatedParts(es: Arena, p: Path, es': Arena, id: VfsId, i: VfsId)
    requires Created(es, p, es', id) && i < |es'|
    ensures At(es', p, id) && |es| <= |es'|
    ensures if i < |es| then KeptEntry(es[i], p, es'[i]) else FreshEntry(p, es'[i])
  {
  }

  lemma {:induction false} NewIsFresh(p: Path)
    ensures FreshEntry(p, NewEntry(p)) && NewEntry(p).path == p
  {
  }

  lemma {:induction false} CreatedWhole(es: Arena, p: Path, es': Arena, id: VfsId)
    requires Tree(es') && At(es', p, id) && |es| <= |es'|
    requires forall i :: 0 <= i < |es| ==> KeptEntry(es[i], p, es'[i])
    requires forall i :: |es| <= i < |es'| ==> FreshEntry(p, es'[i])
    ensures Created(es, p, es', id)
  {
  }

  lemma {:induction false} AppendedTree(mid: Arena, id: VfsId, n: Name, es': Arena)
    requires Tree(mid) && id < |mid|
    requires forall k :: 0 <= k < |mid[id].childs| ==> mid[id].childs[k] < |mid| && mid[mid[id].childs[k]].plc != n
    requires es' ==
      mid[id := mid[id].(isDir := true, childs := mid[id].childs + [|mid|])] + [NewEntry(mid[id].path + [n])]
    ensures Tree(es')
  {
    forall p, k | 0 <= p < |es'| && 0 <= k < |es'[p].childs|
      ensures Link(es', p, es'[p].childs[k])
    {
      if p < |mid| && k < |mid[p].childs| {
        assert Link(mid, p, mid[p].childs[k]);
      }
    }
    forall p, j, k | 0 <= p < |es'| && 0 <= j < k < |es'[p].childs|
      ensures es'[es'[p].childs[j]].plc != es'[es'[p].childs[k]].plc
    {
      assert Link(mid, p, mid[p].childs[j]);
      if k < |mid[p].childs| {
        assert Link(mid, p, mid[p].childs[k]);
        assert mid[mid[p].childs[j]].plc != mid[mid[p].childs[k]].plc;
      }
    }
    forall c | 0 < c < |es'|
      ensures HasParent(es', c)
    {
      if c == |mid| {
        assert c == es'[id].childs[|mid[id].childs|];
      } else {
        assert HasParent(mid, c);
        var p :| 0 <= p < |mid| && c in mid[p].childs;
        var k :| 0 <= k < |mid[p].childs| && mid[p].childs[k] == c;
        assert c == es'[p].childs[k];
      }
    }
  }

  /** `n` is at or below one of the first `k` children of `id`. */
  ghost predicate BelowKids(es: Arena, id: VfsId, k: nat, n: VfsId)
    requires id < |es| && k <= |es[id].childs| && n < |es|
  {
    exists j :: 0 <= j < k && BelowKid(es, id, j, n)
  }

  ghost predicate BelowKid(es: Arena, id: VfsId, j: nat, n: VfsId)
    requires id < |es| && j < |es[id].childs| && n < |es|
  {
    es[id].childs[j] < |es| && es[es[id].childs[j]].path <= es[n].path
  }

  /** All below an entry are at or below exactly one of its children. */
  lemma {:induction false} BelowIsBelowKids(es: Arena, id: VfsId, n: VfsId)
    requires Tree(es) && id < |es| && n < |es|
    ensures es[id].path < es[n].path <==> BelowKids(es, id, |es[id].childs|, n)
  {
    if es[id].path < es[n].path {
      var c := ChildTowards(es, id, n);
      var j :| 0 <= j < |es[id].childs| && es[id].childs[j] == c;
      assert BelowKid(es, id, j, n);
    }
    forall j | 0 <= j < |es[id].childs| && BelowKid(es, id, j, n)
      ensures es[id].path < es[n].path
    {
      assert Link(es, id, es[id].childs[j]);
    }
  }

  lemma {:induction false} BelowOneKid(es: Arena, id: VfsId, j: nat, k: nat, n: VfsId)
    requires Tree(es) && id < |es| && n < |es| && j < |es[id].childs| && k < |es[id].childs|
    requires BelowKid(es, id, j, n) && BelowKid(es, id, k, n)
    ensures j == k
  {
    var c, d := es[id].childs[j], es[id].childs[k];
    assert Link(es, id, c) && Link(es, id, d);
    assert es[c].path == es[n].path[..|es[id].path| + 1] == es[d].path;
    PathsUnique(es, c, d);
  }

  /** `f` leaves the place of an entry in the tree alone. */
  ghost predicate KeepsPlace(f: VfsEntry -> VfsEntry) {
    forall e :: f(e).path == e.path && f(e).plc == e.plc && f(e).childs == e.childs
  }

  /** `f` was applied once to everything at or below the first `k` children of `id`. */
  ghost predicate AppliedKids(a: Arena, b: Arena, id: VfsId, k: nat, f: VfsEntry -> VfsEntry)
    requires id < |a| && k <= |a[id].childs|
  {
    |b| == |a| && forall n :: 0 <= n < |a| ==> b[n] == if BelowKids(a, id, k, n) then f(a[n]) else a[n]
  }

  /** `f` was applied once to everything below `id`, and to `id` itself if `withRoot`. */
  ghost predicate Applied(a: Arena, b: Arena, id: VfsId, withRoot: bool, f: VfsEntry -> VfsEntry)
    requires id < |a|
  {
    |b| == |a| && forall n :: 0 <= n < |a| ==>
      b[n] == if a[id].path < a[n].path || (withRoot && n == id) then f(a[n]) else a[n]
  }

  lemma {:induction false} AppliedShape(a: Arena, b: Arena, f: VfsEntry -> VfsEntry)
    requires Tree(a) && KeepsPlace(f) && |b| == |a|
    requires forall n :: 0 <= n < |a| ==> b[n] == f(a[n]) || b[n] == a[n]
    ensures Tree(b) && SameShape(a, b)
  {
    SameShapeTree(a, b);
  }

  lemma {:induction false} AppliedKidsStep(a: Arena, mid: Arena, b: Arena, id: VfsId, k: nat, f: VfsEntry -> VfsEntry)
    requires Tree(a) && id < |a| && k < |a[id].childs| && KeepsPlace(f)
    requires a[id].childs[k] < |mid| && AppliedKids(a, mid, id, k, f) && Applied(mid, b, a[id].childs[k], true, f)
    ensures AppliedKids(a, b, id, k + 1, f)
  {
    var c := a[id].childs[k];
    forall n | 0 <= n < |a|
      ensures b[n] == if BelowKids(a, id, k + 1, n) then f(a[n]) else a[n]
    {
      assert BelowKids(a, id, k + 1, n) <==> BelowKids(a, id, k, n) || BelowKid(a, id, k, n);
      if a[c].path <= a[n].path {
        if a[c].path == a[n].path { PathsUnique(a, c, n); }
        forall j | 0 <= j < k && BelowKid(a, id, j, n)
          ensures false
        {
          BelowOneKid(a, id, j, k, n);
        }
      }
    }
  }

  /** No ".." component: the code asserts it, and ids are given to canonical paths only. */
  predicate Canonical(p: Path) {
    [46, 46] !in p
  }

  class Vfs {
    var entries: Arena

    constructor ()
      ensures Tree(entries) && |entries| == 1
    {
      entries := [NewEntry([])];
    }

    method ChildOf(id: VfsId, c: Name) returns (r: Option<VfsId>)
      requires Tree(entries) && id < |entries|
      ensures r.Some? ==> r.value in entries[id].childs && Link(entries, id, r.value) && entries[r.value].plc == c
      ensures r == None ==> forall k :: 0 <= k < |entries[id].childs| ==>
        entries[id].childs[k] < |entries| && entries[entries[id].childs[k]].plc != c
    {
      for k := 0 to |entries[id].childs|
        invariant forall j :: 0 <= j < k ==>
          entries[id].childs[j] < |entries| && entries[entries[id].childs[j]].plc != c
      {
        var cid := entries[id].childs[k];
        assert Link(entries, id, cid);
        if entries[cid].plc == c { return Some(cid); }
      }
      r := None;
    }

    /** Lookup finds exactly the stored path. */
    method Cid(path: Path) returns (r: Option<VfsId>)
      requires Tree(entries) && Canonical(path)
      ensures forall i: VfsId :: r == Some(i) <==> At(entries, path, i)
    {
      var id := ROOT;
      for k := 0 to |path|
        invariant At(entries, path[..k], id)
      {
        var c := ChildOf(id, path[k]);
        if c == None {
          forall i: VfsId | At(entries, path, i)
            ensures false
          {
            var a := PrefixStored(entries, i, k + 1);
            var d := ChildTowards(entries, id, a);
          }
          return None;
        }
        assert path[..k + 1] == path[..k] + [path[k]];
        id := c.value;
      }
      assert path[..|path|] == path;
      forall i: VfsId | At(entries, path, i)
        ensures i == id
      {
        PathsUnique(entries, i, id);
      }
      r := Some(id);
    }

    method CidAndCreate(path: Path) returns (id: VfsId)
      requires Tree(entries) && Canonical(path)
      modifies this
      ensures Created(old(entries), path, entries, id)
    {
      hide Created, Tree, NewEntry;
      id := ROOT;
      var currentBuild: Path := [];
      CreatedStart(entries);
      for k := 0 to |path|
        invariant currentBuild == path[..k]
        invariant Created(old(entries), currentBuild, entries, id)
        invariant Tree(entries) && At(entries, currentBuild, id)
      {
        ghost var mid, before := entries, currentBuild;
        currentBuild := currentBuild + [path[k]];
        var c := ChildOf(id, path[k]);
        if c.Some? {
          entries := entries[id := entries[id].(isDir := true)];
          CreatedFound(old(entries), before, mid, id, path[k], c.value, entries);
          id := c.value;
        } else {
          var new_ := InsertNewEntry(NewEntry(currentBuild));
          entries := entries[id := entries[id].(isDir := true)];
          entries := entries[id := entries[id].(childs := entries[id].childs + [new_])];
          CreatedNew(old(entries), before, mid, id, path[k], entries);
          id := new_;
        }
      }
      assert path[..|path|] == path;
    }

    method InsertNewEntry(e: VfsEntry) returns (place: VfsId)
      modifies this
      ensures entries == old(entries) + [e] && place == |old(entries)|
    {
      place := |entries|;
      entries := entries + [e];
    }

    method ForRecursive(id: VfsId, withRoot: bool, f: VfsEntry -> VfsEntry)
      requires Tree(entries) && id < |entries| && KeepsPlace(f)
      modifies this
      ensures Applied(old(entries), entries, id, withRoot, f)
      ensures Tree(entries) && SameShape(old(entries), entries)
      decreases |entries| - id
    {
      hide Tree, KeepsPlace;
      ghost var before := entries;
      if withRoot {
        PlaceKept(before, id, f);
        entries := entries[id := f(entries[id])];
      }
      ghost var start := entries;
      var childs := entries[id].childs;
      for k := 0 to |childs|
        invariant Tree(entries) && SameShape(start, entries) && AppliedKids(start, entries, id, k, f)
      {
        ghost var mid := entries;
        LinkOf(mid, id, childs[k]);
        assert childs[k] != id;
        ForRecursive(childs[k], true, f);
        AppliedKidsStep(start, mid, entries, id, k, f);
      }
      AppliedEnd(before, start, entries, id, withRoot, f);
    }
  }

  lemma {:induction false} PlaceKept(a: Arena, id: VfsId, f: VfsEntry -> VfsEntry)
    requires Tree(a) && id < |a| && KeepsPlace(f)
    ensures Tree(a[id := f(a[id])]) && SameShape(a, a[id := f(a[id])])
  {
    AppliedShape(a, a[id := f(a[id])], f);
  }

  lemma {:induction false} AppliedEnd(before: Arena, start: Arena, es: Arena, id: VfsId, withRoot: bool,
                                      f: VfsEntry -> VfsEntry)
    requires Tree(before) && id < |before| && KeepsPlace(f)
    requires start == if withRoot then before[id := f(before[id])] else before
    requires AppliedKids(start, es, id, |start[id].childs|, f) && Tree(start)
    ensures Applied(before, es, id, withRoot, f) && SameShape(before, es)
  {
    forall n | 0 <= n < |before|
      ensures es[n] == if before[id].path < before[n].path || (withRoot && n == id) then f(before[n]) else before[n]
    {
      BelowIsBelowKids(start, id, n);
    }
  }
}
