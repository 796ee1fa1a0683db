/** The hash of a directory from the names and hashes below it (dupion/src/process/mod.rs). */
module DirHashes {
  import opened Basics
  import opened Arenas
  import opened States
  import opened PairSort

  /** An existing child with the size and hash computed for it. */
  datatype Kid = Kid(name: Name, size: nat, hash: Hash)

  /** The content hash function. */
  type Hasher = Bytes -> Hash

  function SumSizes(ks: seq<Kid>): nat {
    if ks == [] then 0 else SumSizes(ks[..|ks| - 1]) + ks[|ks| - 1].size
  }

  /** The file name of a path that ends with this component: the root directory has none. */
  function FileName(n: Name): Name {
    if n == [47] then [] else n
  }

  function Pairs(ks: seq<Kid>): seq<Pair> {
    if ks == [] then [] else Pairs(ks[..|ks| - 1]) + [(ks[|ks| - 1].hash, FileName(ks[|ks| - 1].name))]
  }

  /** Name and hash of every child, without delimiters. */
  function Preimage(ps: seq<Pair>): Bytes {
    if ps == [] then [] else Preimage(ps[..|ps| - 1]) + (ps[|ps| - 1].1 + ps[|ps| - 1].0)
  }

  predicate Leaf(e: VfsEntry) {
    e.isFile && !e.isDir
  }

  /** What the code unwraps is there: files have a size, archives (file and directory) a hash. */
  predicate HashableEntry(e: VfsEntry) {
    e.isFile ==> e.fileSize.Some? && (e.isDir ==> e.fileHash.Some?)
  }

  /** The size and hash of a file; the walk unwraps both where it uses them. */
  function FileProps(e: VfsEntry): (nat, Hash) {
    (if e.fileSize.Some? then e.fileSize.value else 0, if e.fileHash.Some? then e.fileHash.value else [])
  }

  /** Size and hash of an entry; a directory fails if anything existing below it fails. */
  ghost function Calc(H: Hasher, es: Arena, id: VfsId): Option<(nat, Hash)>
    requires Tree(es) && id < |es|
    decreases |es| - id, 2, 0
  {
    var e := es[id];
    if Leaf(e) then
      if e.fileHash.Some? then Some(FileProps(e)) else None
    else if !e.isDir then None
    else
      var d := DirProps(H, es, id);
      if d.Some? && e.isFile then Some(FileProps(e)) else d
  }

  /** The directory size and hash of an entry. */
  ghost function DirProps(H: Hasher, es: Arena, id: VfsId): Option<(nat, Hash)>
    requires Tree(es) && id < |es|
    decreases |es| - id, 1, 0
  {
    var ks := Kids(H, es, id, |es[id].childs|);
    if ks.Some? then Some((SumSizes(ks.value), H(Preimage(Sort(Pairs(ks.value)))))) else None
  }

  /** The first `n` children that exist, if all of them succeed. */
  ghost function Kids(H: Hasher, es: Arena, id: VfsId, n: nat): Option<seq<Kid>>
    requires Tree(es) && id < |es| && n <= |es[id].childs|
    decreases |es| - id, 0, n
  {
    if n == 0 then Some([]) else
      var c := es[id].childs[n - 1];
      assert Link(es, id, c);
      var before := Kids(H, es, id, n - 1);
      if !es[c].Exists() then before
      else
        var r := Calc(H, es, c);
        if before.Some? && r.Some? then Some(before.value + [Kid(es[c].plc, r.value.0, r.value.1)]) else None
  }

  /** The successful directories below `id`, in the order they finish. */
  ghost function PostDirs(H: Hasher, es: Arena, id: VfsId): seq<VfsId>
    requires Tree(es) && id < |es|
    decreases |es| - id, 1, 0
  {
    if !es[id].isDir then [] else
      PostKids(H, es, id, |es[id].childs|) + if DirProps(H, es, id).Some? then [id] else []
  }

  ghost function PostKids(H: Hasher, es: Arena, id: VfsId, n: nat): seq<VfsId>
    requires Tree(es) && id < |es| && n <= |es[id].childs|
    decreases |es| - id, 0, n
  {
    if n == 0 then [] else
      var c := es[id].childs[n - 1];
      assert Link(es, id, c);
      PostKids(H, es, id, n - 1) + if es[c].Exists() then PostDirs(H, es, c) else []
  }

  function WithDir(e: VfsEntry, d: (nat, Hash)): VfsEntry {
    e.(dirSize := Some(d.0), dirHash := Some(d.1), valid := true)
  }

  /** Store the result of one directory and put it into the groups. */
  function DirOne(st: St, id: VfsId, d: (nat, Hash)): St
    requires id < |st.es|
  {
    var e := WithDir(st.es[id], d);
    St(st.es[id := e], PushSize(st.sizes, id, e, false, true), PushHash(st.hashes, id, e, false, true))
  }

  /** Store the results, computed on `es0`, of all directories listed. */
  ghost function DirAll(H: Hasher, es0: Arena, st: St, ids: seq<VfsId>): (r: St)
    requires Tree(es0) && |st.es| == |es0|
    requires forall k :: 0 <= k < |ids| ==> ids[k] < |es0| && DirProps(H, es0, ids[k]).Some?
    ensures |r.es| == |es0|
    decreases |ids|
  {
    if ids == [] then st else
      DirAll(H, es0, DirOne(st, ids[0], DirProps(H, es0, ids[0]).value), ids[1..])
  }

  lemma {:induction false} DirAllConcat(H: Hasher, es0: Arena, st: St, a: seq<VfsId>, b: seq<VfsId>)
    requires Tree(es0) && |st.es| == |es0|
    requires forall k :: 0 <= k < |a| ==> a[k] < |es0| && DirProps(H, es0, a[k]).Some?
    requires forall k :: 0 <= k < |b| ==> b[k] < |es0| && DirProps(H, es0, b[k]).Some?
    ensures DirAll(H, es0, st, a + b) == DirAll(H, es0, DirAll(H, es0, st, a), b)
    decreases |a|
  {
    if a == [] {
      assert a + b == b;
    } else {
      assert (a + b)[1..] == a[1..] + b;
      DirAllConcat(H, es0, DirOne(st, a[0], DirProps(H, es0, a[0]).value), a[1..], b);
    }
  }

  // ----- which directories are hashed

  /** The walk from `a` comes to `n`: directories all the way, and `n` exists. */
  ghost predicate Reached(es: Arena, a: VfsId, n: VfsId) {
    && a < |es| && n < |es| && es[a].path <= es[n].path
    && (forall m :: 0 <= m < |es| && es[a].path <= es[m].path < es[n].path ==> es[m].isDir)
    && (n != a ==> es[n].Exists())
  }

  /** The walk goes on into the `k`-th child of `a` and comes to `n`. */
  ghost predicate Via(es: Arena, a: VfsId, k: nat, n: VfsId) {
    && a < |es| && k < |es[a].childs| && es[a].childs[k] < |es|
    && es[es[a].childs[k]].Exists() && Reached(es, es[a].childs[k], n)
  }

  /** Below `a`, the walk comes to `n` through one of its existing children. */
  lemma {:induction false} ReachedThrough(es: Arena, a: VfsId, n: VfsId)
    requires Tree(es) && a < |es|
    ensures Reached(es, a, n) <==> n == a || (es[a].isDir && exists k :: 0 <= k < |es[a].childs| && Via(es, a, k, n))
  {
    if Reached(es, a, n) && n != a {
      if es[a].path == es[n].path { PathsUnique(es, a, n); }
      var c := ChildTowards(es, a, n);
      var k :| 0 <= k < |es[a].childs| && es[a].childs[k] == c;
      if es[c].path == es[n].path { PathsUnique(es, c, n); }
      assert Via(es, a, k, n);
    }
    forall k | 0 <= k < |es[a].childs| && es[a].isDir && Via(es, a, k, n)
      ensures Reached(es, a, n)
    {
      ViaReaches(es, a, k, n);
    }
  }

  lemma {:induction false} ViaReaches(es: Arena, a: VfsId, k: nat, n: VfsId)
    requires Tree(es) && Via(es, a, k, n) && es[a].isDir
    ensures Reached(es, a, n) && n != a
  {
    var c := es[a].childs[k];
    assert Link(es, a, c);
    forall m | 0 <= m < |es| && es[a].path <= es[m].path < es[n].path
      ensures es[m].isDir
    {
      PrefixesMeet(es[m].path, es[c].path, es[n].path);
      if !(es[c].path <= es[m].path) {
        PathsUnique(es, m, a);
      }
    }
  }

  /** Two children never lead to the same entry. */
  lemma {:induction false} ViaOnce(es: Arena, a: VfsId, j: nat, k: nat, n: VfsId)
    requires Tree(es) && Via(es, a, j, n) && Via(es, a, k, n)
    ensures j == k
  {
    var c, d := es[a].childs[j], es[a].childs[k];
    assert Link(es, a, c) && Link(es, a, d);
    PrefixesMeet(es[c].path, es[d].path, es[n].path);
    assert es[c].path == es[d].path;
    PathsUnique(es, c, d);
  }

  /** The directories that get a hash: those the walk comes to and that succeed, even when
      siblings or ancestors fail. */
  lemma {:induction false} PostDirsAre(H: Hasher, es: Arena, id: VfsId, n: VfsId)
    requires Tree(es) && id < |es|
    ensures n in PostDirs(H, es, id) <==>
      Reached(es, id, n) && es[n].isDir && DirProps(H, es, n).Some?
    decreases |es| - id, 1, 0
  {
    ReachedThrough(es, id, n);
    if es[id].isDir {
      PostKidsAre(H, es, id, |es[id].childs|, n);
    } else if Reached(es, id, n) {
      assert n == id;
    }
  }

  lemma {:induction false} PostKidsAre(H: Hasher, es: Arena, id: VfsId, m: nat, n: VfsId)
    requires Tree(es) && id < |es| && m <= |es[id].childs|
    ensures n in PostKids(H, es, id, m) <==>
      n < |es| && es[n].isDir && DirProps(H, es, n).Some? && exists k :: 0 <= k < m && Via(es, id, k, n)
    decreases |es| - id, 0, m
  {
    if m > 0 {
      var c := es[id].childs[m - 1];
      assert Link(es, id, c);
      PostKidsAre(H, es, id, m - 1, n);
      PostDirsAre(H, es, c, n);
      assert Via(es, id, m - 1, n) <==> es[c].Exists() && Reached(es, c, n);
    }
  }

  // ----- the walk on values

  /** What the walk below `id` leaves behind. */
  ghost function DirTree(H: Hasher, es0: Arena, st: St, id: VfsId): (r: St)
    requires Tree(es0) && |st.es| == |es0| && id < |es0|
    ensures |r.es| == |es0|
  {
    PostDirsSucceed(H, es0, id);
    DirAll(H, es0, st, PostDirs(H, es0, id))
  }

  /** The same after the first `n` children. */
  ghost function DirKids(H: Hasher, es0: Arena, st: St, id: VfsId, n: nat): (r: St)
    requires Tree(es0) && |st.es| == |es0| && id < |es0| && n <= |es0[id].childs|
    ensures |r.es| == |es0|
  {
    PostKidsSucceed(H, es0, id, n);
    DirAll(H, es0, st, PostKids(H, es0, id, n))
  }

  lemma {:induction false} PostDirsSucceed(H: Hasher, es0: Arena, id: VfsId)
    requires Tree(es0) && id < |es0|
    ensures forall k :: 0 <= k < |PostDirs(H, es0, id)| ==>
      && PostDirs(H, es0, id)[k] < |es0| && es0[PostDirs(H, es0, id)[k]].isDir
      && DirProps(H, es0, PostDirs(H, es0, id)[k]).Some?
  {
    forall k | 0 <= k < |PostDirs(H, es0, id)|
      ensures PostDirs(H, es0, id)[k] < |es0| && es0[PostDirs(H, es0, id)[k]].isDir
      ensures DirProps(H, es0, PostDirs(H, es0, id)[k]).Some?
    {
      PostDirsAre(H, es0, id, PostDirs(H, es0, id)[k]);
    }
  }

  lemma {:induction false} PostKidsSucceed(H: Hasher, es0: Arena, id: VfsId, n: nat)
    requires Tree(es0) && id < |es0| && n <= |es0[id].childs|
    ensures forall k :: 0 <= k < |PostKids(H, es0, id, n)| ==>
      && PostKids(H, es0, id, n)[k] < |es0| && es0[PostKids(H, es0, id, n)[k]].isDir
      && DirProps(H, es0, PostKids(H, es0, id, n)[k]).Some?
  {
    forall k | 0 <= k < |PostKids(H, es0, id, n)|
      ensures PostKids(H, es0, id, n)[k] < |es0| && es0[PostKids(H, es0, id, n)[k]].isDir
      ensures DirProps(H, es0, PostKids(H, es0, id, n)[k]).Some?
    {
      PostKidsAre(H, es0, id, n, PostKids(H, es0, id, n)[k]);
    }
  }

  lemma {:induction false} DirKidsStep(H: Hasher, es0: Arena, st: St, id: VfsId, n: nat)
    requires Tree(es0) && |st.es| == |es0| && id < |es0| && n < |es0[id].childs|
    ensures Link(es0, id, es0[id].childs[n])
    ensures DirKids(H, es0, st, id, n + 1) ==
      if es0[es0[id].childs[n]].Exists() then DirTree(H, es0, DirKids(H, es0, st, id, n), es0[id].childs[n])
      else DirKids(H, es0, st, id, n)
  {
    var c := es0[id].childs[n];
    assert Link(es0, id, c);
    PostKidsSucceed(H, es0, id, n);
    if es0[c].Exists() {
      PostDirsSucceed(H, es0, c);
      DirAllConcat(H, es0, st, PostKids(H, es0, id, n), PostDirs(H, es0, c));
    } else {
      assert PostKids(H, es0, id, n) + [] == PostKids(H, es0, id, n);
    }
  }

  lemma {:induction false} DirTreeIs(H: Hasher, es0: Arena, st: St, id: VfsId)
    requires Tree(es0) && |st.es| == |es0| && id < |es0|
    ensures DirTree(H, es0, st, id) ==
      if !es0[id].isDir then st
      else if DirProps(H, es0, id).None? then DirKids(H, es0, st, id, |es0[id].childs|)
      else DirOne(DirKids(H, es0, st, id, |es0[id].childs|), id, DirProps(H, es0, id).value)
  {
    if es0[id].isDir {
      var kids := PostKids(H, es0, id, |es0[id].childs|);
      PostKidsSucceed(H, es0, id, |es0[id].childs|);
      if DirProps(H, es0, id).Some? {
        DirAllConcat(H, es0, st, kids, [id]);
        DirAllOne(H, es0, DirKids(H, es0, st, id, |es0[id].childs|), id);
      } else {
        assert kids + [] == kids;
      }
    }
  }

  lemma {:induction false} DirAllOne(H: Hasher, es0: Arena, st: St, id: VfsId)
    requires Tree(es0) && |st.es| == |es0| && id < |es0| && DirProps(H, es0, id).Some?
    ensures DirAll(H, es0, st, [id]) == DirOne(st, id, DirProps(H, es0, id).value)
  {
    var d := DirProps(H, es0, id).value;
    assert DirAll(H, es0, DirOne(st, id, d), [id][1..]) == DirOne(st, id, d);
  }

  /** The directories listed get their result, no other entry changes. */
  lemma {:induction false} DirAllEntry(H: Hasher, es0: Arena, st: St, ids: seq<VfsId>, n: VfsId)
    requires Tree(es0) && |st.es| == |es0| && n < |es0|
    requires forall k :: 0 <= k < |ids| ==> ids[k] < |es0| && DirProps(H, es0, ids[k]).Some?
    ensures DirAll(H, es0, st, ids).es[n] ==
      if n in ids then WithDir(st.es[n], DirProps(H, es0, n).value) else st.es[n]
    decreases |ids|
  {
    if ids != [] {
      DirAllEntry(H, es0, DirOne(st, ids[0], DirProps(H, es0, ids[0]).value), ids[1..], n);
    }
  }

  lemma {:induction false} DirTreeEntry(H: Hasher, es0: Arena, st: St, id: VfsId, n: VfsId)
    requires Tree(es0) && |st.es| == |es0| && id < |es0| && n < |es0|
    ensures DirTree(H, es0, st, id).es[n] ==
      if Reached(es0, id, n) && es0[n].isDir && DirProps(H, es0, n).Some?
      then
        var d := DirProps(H, es0, n).value;
        st.es[n].(dirSize := Some(d.0), dirHash := Some(d.1), valid := true)
      else st.es[n]
  {
    PostDirsSucceed(H, es0, id);
    PostDirsAre(H, es0, id, n);
    DirAllEntry(H, es0, st, PostDirs(H, es0, id), n);
  }

  lemma {:induction false} DirKidsEntry(H: Hasher, es0: Arena, st: St, id: VfsId, k: nat, n: VfsId)
    requires Tree(es0) && |st.es| == |es0| && id < |es0| && k <= |es0[id].childs| && n < |es0|
    ensures DirKids(H, es0, st, id, k).es[n] == st.es[n]
      || exists j :: 0 <= j < k && Via(es0, id, j, n)
    ensures DirKids(H, es0, st, id, k).es[n] == st.es[n].(dirSize := DirKids(H, es0, st, id, k).es[n].dirSize,
      dirHash := DirKids(H, es0, st, id, k).es[n].dirHash, valid := DirKids(H, es0, st, id, k).es[n].valid)
  {
    PostKidsSucceed(H, es0, id, k);
    PostKidsAre(H, es0, id, k, n);
    DirAllEntry(H, es0, st, PostKids(H, es0, id, k), n);
  }

  // ----- the walk on the state

  ghost predicate ChildIds(es: Arena, rs: seq<(VfsId, Option<(nat, Hash)>)>) {
    forall k :: 0 <= k < |rs| ==> rs[k].0 < |es|
  }

  /** The results of the children, gathered until one of them failed. */
  ghost function Gather(es: Arena, rs: seq<(VfsId, Option<(nat, Hash)>)>): Option<seq<Kid>>
    requires ChildIds(es, rs)
  {
    if rs == [] then Some([]) else
      var before, r := Gather(es, rs[..|rs| - 1]), rs[|rs| - 1];
      if before.Some? && r.1.Some? then Some(before.value + [Kid(es[r.0].plc, r.1.value.0, r.1.value.1)]) else None
  }

  lemma {:induction false} GatherFails(es: Arena, rs: seq<(VfsId, Option<(nat, Hash)>)>, n: nat)
    requires ChildIds(es, rs)
    requires n <= |rs| && Gather(es, rs[..n]) == None
    ensures Gather(es, rs) == None
  {
    if n < |rs| {
      assert rs[..|rs| - 1][..n] == rs[..n];
      GatherFails(es, rs[..|rs| - 1], n);
    } else {
      assert rs[..n] == rs;
    }
  }

  /** Between the walk's steps only directory results change. */
  ghost predicate Walking(es0: Arena, es: Arena) {
    |es| == |es0| && forall i :: 0 <= i < |es| ==>
      es[i] == es0[i].(dirSize := es[i].dirSize, dirHash := es[i].dirHash, valid := es[i].valid)
  }

  /** No entry the walk comes to has a directory result yet. */
  ghost predicate Unhashed(es0: Arena, es: Arena, id: VfsId)
    requires |es| == |es0|
  {
    forall n :: 0 <= n < |es0| && Reached(es0, id, n) ==> es[n].dirHash == None && es[n].dirSize == None
  }

  /** Of no entry the walk comes to the code unwraps what is not there. */
  ghost predicate Unwraps(es0: Arena, id: VfsId) {
    forall n :: 0 <= n < |es0| && Reached(es0, id, n) ==> HashableEntry(es0[n])
  }

  /** The size of the directory is the one that goes with its hash. */
  ghost predicate DirSized(H: Hasher, es0: Arena, n: VfsId, sz: Hash -> nat)
    requires Tree(es0) && n < |es0|
  {
    DirProps(H, es0, n).Some? ==> DirProps(H, es0, n).value.0 == sz(DirProps(H, es0, n).value.1)
  }

  /** Equal hashes of directories the walk comes to, too, come with equal sizes: the code asserts
      it. */
  ghost predicate DirsSized(H: Hasher, es0: Arena, id: VfsId, sz: Hash -> nat)
    requires Tree(es0)
  {
    forall n :: 0 <= n < |es0| && Reached(es0, id, n) && es0[n].isDir ==> DirSized(H, es0, n, sz)
  }

  lemma {:induction false} DirOneSized(st: St, id: VfsId, d: (nat, Hash), sz: Hash -> nat)
    requires id < |st.es| && Sized(st.hashes, sz) && d.0 == sz(d.1)
    ensures Sized(DirOne(st, id, d).hashes, sz)
  {
  }

  lemma {:induction false} DirAllSized(H: Hasher, es0: Arena, st: St, ids: seq<VfsId>, sz: Hash -> nat)
    requires Tree(es0) && |st.es| == |es0| && Sized(st.hashes, sz)
    requires forall k :: 0 <= k < |ids| ==> ids[k] < |es0| && DirProps(H, es0, ids[k]).Some?
    requires forall k :: 0 <= k < |ids| ==> DirSized(H, es0, ids[k], sz)
    ensures Sized(DirAll(H, es0, st, ids).hashes, sz)
    decreases |ids|
  {
    if ids != [] {
      var d := DirProps(H, es0, ids[0]).value;
      DirOneSized(st, ids[0], d, sz);
      DirAllSized(H, es0, DirOne(st, ids[0], d), ids[1..], sz);
    }
  }

  lemma {:induction false} PostKidsSized(H: Hasher, es0: Arena, id: VfsId, n: nat, sz: Hash -> nat)
    requires Tree(es0) && id < |es0| && n <= |es0[id].childs| && es0[id].isDir && DirsSized(H, es0, id, sz)
    ensures forall k :: 0 <= k < |PostKids(H, es0, id, n)| ==>
      PostKids(H, es0, id, n)[k] < |es0| && DirSized(H, es0, PostKids(H, es0, id, n)[k], sz)
  {
    forall k | 0 <= k < |PostKids(H, es0, id, n)|
      ensures PostKids(H, es0, id, n)[k] < |es0| && DirSized(H, es0, PostKids(H, es0, id, n)[k], sz)
    {
      var d := PostKids(H, es0, id, n)[k];
      PostKidsAre(H, es0, id, n, d);
      var j :| 0 <= j < n && Via(es0, id, j, d);
      ViaReaches(es0, id, j, d);
    }
  }

  /** What is asked of the entries below passes on to a child the walk enters. */
  lemma {:induction false} KidAsks(H: Hasher, es0: Arena, id: VfsId, k: nat, sz: Hash -> nat)
    requires Tree(es0) && id < |es0| && k < |es0[id].childs| && es0[id].isDir
    requires Unwraps(es0, id) && DirsSized(H, es0, id, sz)
    requires es0[id].childs[k] < |es0| && es0[es0[id].childs[k]].Exists()
    ensures Unwraps(es0, es0[id].childs[k]) && DirsSized(H, es0, es0[id].childs[k], sz)
  {
    forall n | 0 <= n < |es0| && Reached(es0, es0[id].childs[k], n)
      ensures Reached(es0, id, n)
    {
      assert Via(es0, id, k, n);
      ViaReaches(es0, id, k, n);
    }
  }

  /** What the walk asks of the entry itself. */
  lemma {:induction false} OwnAsks(H: Hasher, es0: Arena, id: VfsId, sz: Hash -> nat)
    requires Tree(es0) && id < |es0| && Unwraps(es0, id) && DirsSized(H, es0, id, sz)
    ensures HashableEntry(es0[id]) && (es0[id].isDir ==> DirSized(H, es0, id, sz))
  {
    ReachedThrough(es0, id, id);
  }

  /** What holds before the walk enters the `k`-th child. */
  lemma {:induction false} BeforeKid(H: Hasher, es0: Arena, st: St, id: VfsId, k: nat, sz: Hash -> nat)
    requires Tree(es0) && |st.es| == |es0| && id < |es0| && k <= |es0[id].childs| && es0[id].isDir
    requires Walking(es0, st.es) && Unhashed(es0, st.es, id)
    requires Sized(st.hashes, sz) && DirsSized(H, es0, id, sz)
    ensures var mid := DirKids(H, es0, st, id, k);
      && Walking(es0, mid.es) && Sized(mid.hashes, sz)
      && mid.es[id].dirHash == None && mid.es[id].dirSize == None
      && (k < |es0[id].childs| && es0[id].childs[k] < |es0| && es0[es0[id].childs[k]].Exists() ==>
            Unhashed(es0, mid.es, es0[id].childs[k]))
  {
    var mid := DirKids(H, es0, st, id, k);
    forall n | 0 <= n < |es0|
      ensures mid.es[n] == es0[n].(dirSize := mid.es[n].dirSize, dirHash := mid.es[n].dirHash, valid := mid.es[n].valid)
    {
      DirKidsEntry(H, es0, st, id, k, n);
    }
    PostKidsSucceed(H, es0, id, k);
    PostKidsSized(H, es0, id, k, sz);
    DirAllSized(H, es0, st, PostKids(H, es0, id, k), sz);
    KidUntouched(H, es0, st, id, k, id);
    ReachedThrough(es0, id, id);
    if k < |es0[id].childs| && es0[id].childs[k] < |es0| && es0[es0[id].childs[k]].Exists() {
      forall n | 0 <= n < |es0| && Reached(es0, es0[id].childs[k], n)
        ensures mid.es[n].dirHash == None && mid.es[n].dirSize == None
      {
        assert Via(es0, id, k, n);
        ViaReaches(es0, id, k, n);
        KidUntouched(H, es0, st, id, k, n);
      }
    }
  }

  /** The first `k` children leave the entry itself and the later children alone. */
  lemma {:induction false} KidUntouched(H: Hasher, es0: Arena, st: St, id: VfsId, k: nat, n: VfsId)
    requires Tree(es0) && |st.es| == |es0| && id < |es0| && k <= |es0[id].childs| && n < |es0| && es0[id].isDir
    requires n == id || Via(es0, id, k, n)
    ensures DirKids(H, es0, st, id, k).es[n] == st.es[n]
  {
    DirKidsEntry(H, es0, st, id, k, n);
    forall j | 0 <= j < k && Via(es0, id, j, n)
      ensures false
    {
      ViaReaches(es0, id, j, n);
      if n != id { ViaOnce(es0, id, j, k, n); }
    }
  }

  lemma {:induction false} GatherStep(es: Arena, rs: seq<(VfsId, Option<(nat, Hash)>)>, c: VfsId,
                                      r: Option<(nat, Hash)>)
    requires ChildIds(es, rs)
    requires c < |es|
    ensures Gather(es, rs + [(c, r)]) ==
      if Gather(es, rs).Some? && r.Some? then
        Some(Gather(es, rs).value + [Kid(es[c].plc, r.value.0, r.value.1)])
      else None
  {
    assert (rs + [(c, r)])[..|rs|] == rs;
  }

  /** Hash an entry and all directories below it, whatever fails on the way. */
  method CalculateDirHash(s: State, id: VfsId, H: Hasher, ghost es0: Arena, ghost sz: Hash -> nat)
    returns (r: Option<(nat, Hash)>)
    requires Tree(es0) && Walking(es0, s.tree.entries) && id < |es0|
    requires Unhashed(es0, s.tree.entries, id)
    requires Sized(s.hashes, sz) && Unwraps(es0, id) && DirsSized(H, es0, id, sz)
    modifies s, s.tree
    ensures r == Calc(H, es0, id)
    ensures s.Snapshot() == DirTree(H, es0, old(s.Snapshot()), id)
    decreases |es0| - id, 1
  {
    hide Tree, Unhashed, Unwraps, DirsSized, Sized, DirKids, DirTree, Kids, Gather, PushHash, PushSize;
    OwnAsks(H, es0, id, sz);
    ghost var st := s.Snapshot();
    DirTreeIs(H, es0, st, id);
    var e := s.tree.entries[id];
    if Leaf(e) {
      return if e.fileHash.Some? then Some((e.fileSize.value, e.fileHash.value)) else None;
    }
    if !e.isDir { return None; }
    var results := CalculateKids(s, id, H, es0, sz);
    BeforeKid(H, es0, st, id, |es0[id].childs|, sz);
    var summed := SumUp(es0, s.tree.entries, results);
    if summed == None { return None; }
    var (size, hashes) := summed.value;
    var hash := HashPairs(H, Sort(hashes));
    StoreDir(s, id, size, hash, sz);
    if s.tree.entries[id].isFile {
      return Some((s.tree.entries[id].fileSize.value, s.tree.entries[id].fileHash.value));
    }
    r := Some((size, hash));
  }

  /** Record one directory result and group it. */
  method StoreDir(s: State, id: VfsId, size: nat, hash: Hash, ghost sz: Hash -> nat)
    requires id < |s.tree.entries|
    requires s.tree.entries[id].dirHash == None && s.tree.entries[id].dirSize == None
    requires Sized(s.hashes, sz) && size == sz(hash)
    modifies s, s.tree
    ensures s.Snapshot() == DirOne(old(s.Snapshot()), id, (size, hash))
  {
    hide Sized, PushHash, PushSize, FiledBySize;
    s.tree.entries := s.tree.entries[id := s.tree.entries[id].(dirSize := Some(size))];
    s.tree.entries := s.tree.entries[id := s.tree.entries[id].(dirHash := Some(hash))];
    s.tree.entries := s.tree.entries[id := s.tree.entries[id].(valid := true)];
    s.PushToSizeGroup(id, false, true);
    s.PushToHashGroup(id, false, true, sz);
  }

  /** All existing children are computed, also after one of them failed. */
  method CalculateKids(s: State, id: VfsId, H: Hasher, ghost es0: Arena, ghost sz: Hash -> nat)
    returns (results: seq<(VfsId, Option<(nat, Hash)>)>)
    requires Tree(es0) && Walking(es0, s.tree.entries) && id < |es0| && es0[id].isDir
    requires Unhashed(es0, s.tree.entries, id)
    requires Sized(s.hashes, sz) && Unwraps(es0, id) && DirsSized(H, es0, id, sz)
    modifies s, s.tree
    ensures ChildIds(es0, results)
    ensures Gather(es0, results) == Kids(H, es0, id, |es0[id].childs|)
    ensures s.Snapshot() == DirKids(H, es0, old(s.Snapshot()), id, |es0[id].childs|)
    decreases |es0| - id, 0
  {
    hide Tree, Unhashed, Unwraps, Sized, DirKids, DirTree, DirsSized, PostKids, Kids, Calc, Gather;
    ghost var st := s.Snapshot();
    results := [];
    var childs := s.tree.entries[id].childs;
    DirKidsStart(H, es0, st, id);
    assert Gather(es0, []) == Kids(H, es0, id, 0) by { KidsStart(H, es0, id); }
    for k := 0 to |childs|
      invariant ChildIds(es0, results)
      invariant Gather(es0, results) == Kids(H, es0, id, k)
      invariant s.Snapshot() == DirKids(H, es0, st, id, k)
    {
      DirKidsStep(H, es0, st, id, k);
      KidsStep(H, es0, id, k);
      BeforeKid(H, es0, st, id, k, sz);
      var c := childs[k];
      if s.tree.entries[c].Exists() {
        KidAsks(H, es0, id, k, sz);
        var r := CalculateDirHash(s, c, H, es0, sz);
        GatherStep(es0, results, c, r);
        results := results + [(c, r)];
      }
    }
  }

  lemma {:induction false} KidsStart(H: Hasher, es: Arena, id: VfsId)
    requires Tree(es) && id < |es|
    ensures Kids(H, es, id, 0) == Gather(es, []) == Some([])
  {
  }

  lemma {:induction false} KidsStep(H: Hasher, es: Arena, id: VfsId, k: nat)
    requires Tree(es) && id < |es| && k < |es[id].childs| && Link(es, id, es[id].childs[k])
    ensures var c := es[id].childs[k];
      var before, r := Kids(H, es, id, k), Calc(H, es, c);
      Kids(H, es, id, k + 1) ==
        if !es[c].Exists() then before
        else if before.Some? && r.Some? then Some(before.value + [Kid(es[c].plc, r.value.0, r.value.1)]) else None
  {
  }

  lemma {:induction false} DirKidsStart(H: Hasher, es0: Arena, st: St, id: VfsId)
    requires Tree(es0) && |st.es| == |es0| && id < |es0|
    ensures DirKids(H, es0, st, id, 0) == st
  {
  }

  /** The total size and the list of (hash, name), unless a child failed. */
  method SumUp(ghost es0: Arena, es: Arena, results: seq<(VfsId, Option<(nat, Hash)>)>)
    returns (r: Option<(nat, seq<Pair>)>)
    requires Walking(es0, es) && ChildIds(es0, results)
    ensures r == if Gather(es0, results).Some?
                 then Some((SumSizes(Gather(es0, results).value), Pairs(Gather(es0, results).value))) else None
  {
    var size, hashes := 0, [];
    ghost var kids: seq<Kid> := [];
    for i := 0 to |results|
      invariant Gather(es0, results[..i]) == Some(kids)
      invariant size == SumSizes(kids) && hashes == Pairs(kids)
    {
      var (c, res) := results[i];
      assert results[..i + 1] == results[..i] + [(c, res)];
      GatherStep(es0, results[..i], c, res);
      if res == None {
        GatherFails(es0, results, i + 1);
        return None;
      }
      ghost var kid := Kid(es0[c].plc, res.value.0, res.value.1);
      assert (kids + [kid])[..|kids|] == kids;
      size := size + res.value.0;
      hashes := hashes + [(res.value.1, FileName(es[c].plc))];
      kids := kids + [kid];
    }
    assert results[..|results|] == results;
    r := Some((size, hashes));
  }

  /** Feed names and hashes to the hash function. */
  method HashPairs(H: Hasher, sorted: seq<Pair>) returns (hash: Hash)
    ensures hash == H(Preimage(sorted))
  {
    var fed: Bytes := [];
    for i := 0 to |sorted|
      invariant fed == Preimage(sorted[..i])
    {
      assert sorted[..i + 1][..i] == sorted[..i];
      fed := fed + (sorted[i].1 + sorted[i].0);
    }
    assert sorted[..|sorted|] == sorted;
    hash := H(fed);
  }
}
