/** The walk that hashes the directories keeps the indexes in agreement with the arena
    (dupion/src/process/mod.rs). */
module DirIndex {
  import opened Basics
  import opened Arenas
  import opened States
  import opened Index
  import opened ScanIndex
  import opened DirHashes

  // ----- hash groups

  lemma {:induction false} DirOneKeepsIndex(st: St, id: VfsId, d: (nat, Hash), sz: Hash -> nat)
    requires HashInv(st, sz) && id < |st.es| && d.0 == sz(d.1)
    requires st.es[id].dirHash == None || st.es[id].dirHash == Some(d.1)
    ensures HashInv(DirOne(st, id, d), sz)
  {
    var r := DirOne(st, id, d);
    DirOneCoherent(st, id, d, sz);
    DirOneKeepsSound(st, id, d, sz);
    hide Tree, HashSound, InfuseHash, InHash, PushHash, Sized, SizedValid, FilesValid;
    forall i | 0 <= i < |r.es|
      ensures Indexed(r.es[i], i, r.hashes)
    {
      assert Indexed(st.es[i], i, st.hashes);
    }
  }

  lemma {:induction false} DirOneCoherent(st: St, id: VfsId, d: (nat, Hash), sz: Hash -> nat)
    requires Tree(st.es) && SizedValid(st.es, sz) && FilesValid(st.es) && id < |st.es| && d.0 == sz(d.1)
    ensures var es := DirOne(st, id, d).es; Tree(es) && SizedValid(es, sz) && FilesValid(es)
  {
    SameShapeTree(st.es, DirOne(st, id, d).es);
  }

  /** Giving a directory its hash contradicts no group, and files it in the group of that hash. */
  lemma {:induction false} DirOneKeepsSound(st: St, id: VfsId, d: (nat, Hash), sz: Hash -> nat)
    requires HashInv(st, sz) && id < |st.es| && d.0 == sz(d.1)
    requires st.es[id].dirHash == None || st.es[id].dirHash == Some(d.1)
    ensures var r := DirOne(st, id, d);
      && HashSound(r.es, r.hashes) && Sized(r.hashes, sz)
      && (!st.es[id].unique ==> InHash(r.hashes, d.1, id))
      && forall h, i :: InHash(st.hashes, h, i) ==> InHash(r.hashes, h, i)
  {
    hide Tree, HashSound, Sized, InHash, InfuseHash, HashComplete;
    var es := st.es[id := WithDir(st.es[id], d)];
    forall h | InHash(st.hashes, h, id)
      ensures st.es[id].valid
    {
      GroupedFacts(st, id, h);
    }
    UpdateKeepsSound(st.es, es, st.hashes);
    if !es[id].unique { InfuseKeeps(es, st.hashes, (Dir, id), d.0, d.1, sz); }
  }

  lemma {:induction false} DirAllKeepsIndex(H: Hasher, es0: Arena, st: St, ids: seq<VfsId>, sz: Hash -> nat)
    requires Tree(es0) && |st.es| == |es0| && HashInv(st, sz)
    requires forall k :: 0 <= k < |ids| ==> ids[k] < |es0| && DirProps(H, es0, ids[k]).Some?
    requires forall k :: 0 <= k < |ids| ==> DirSized(H, es0, ids[k], sz)
    requires forall k :: 0 <= k < |ids| ==>
      st.es[ids[k]].dirHash == None || st.es[ids[k]].dirHash == Some(DirProps(H, es0, ids[k]).value.1)
    ensures HashInv(DirAll(H, es0, st, ids), sz)
    decreases |ids|
  {
    if ids != [] {
      var d := DirProps(H, es0, ids[0]).value;
      DirOneKeepsIndex(st, ids[0], d, sz);
      DirAllKeepsIndex(H, es0, DirOne(st, ids[0], d), ids[1..], sz);
    }
  }

  lemma {:induction false} DirTreeKeepsIndex(H: Hasher, st: St, id: VfsId, sz: Hash -> nat)
    requires Tree(st.es) && id < |st.es| && HashInv(st, sz) && NoDirs(st.es) && DirsSized(H, st.es, id, sz)
    ensures HashInv(DirTree(H, st.es, st, id), sz)
  {
    PostDirsSucceed(H, st.es, id);
    forall k | 0 <= k < |PostDirs(H, st.es, id)|
      ensures DirSized(H, st.es, PostDirs(H, st.es, id)[k], sz)
    {
      PostDirsAre(H, st.es, id, PostDirs(H, st.es, id)[k]);
    }
    DirAllKeepsIndex(H, st.es, st, PostDirs(H, st.es, id), sz);
  }

  lemma {:induction false} TwoInGroup(st: St, h: Hash, a: VfsId, b: VfsId)
    requires InHash(st.hashes, h, a) && InHash(st.hashes, h, b) && a != b
    ensures CountHashes(st.hashes, h) > 1
  {
    var g := st.hashes[h].entries;
    var i :| 0 <= i < |g| && g[i].1 == a;
    var j :| 0 <= j < |g| && g[j].1 == b;
  }

  lemma {:induction false} FiledDir(st: St, id: VfsId, sz: Hash -> nat)
    requires HashInv(st, sz) && id < |st.es| && !st.es[id].unique && st.es[id].dirHash.Some?
    ensures InHash(st.hashes, st.es[id].dirHash.value, id)
  {
    assert Indexed(st.es[id], id, st.hashes);
  }

  // ----- size groups

  /** Giving a directory its size contradicts no group, and files it in the group of that size. */
  lemma {:induction false} DirOneKeepsSizes(st: St, id: VfsId, d: (nat, Hash))
    requires SizeInv(st) && id < |st.es| && (st.es[id].dirSize == None || st.es[id].dirSize == Some(d.0))
    ensures SizeInv(DirOne(st, id, d))
  {
    var e := WithDir(st.es[id], d);
    var es, r := st.es[id := e], DirOne(st, id, d);
    forall k | k in st.sizes
      ensures SizeGroupOk(es, st.sizes[k], k)
    {
      assert SizeGroupOk(st.es, st.sizes[k], k);
      forall j | 0 <= j < |st.sizes[k].entries|
        ensures SizeMemberOk(es, st.sizes[k].entries[j], k)
      {
        assert SizeMemberOk(st.es, st.sizes[k].entries[j], k);
      }
    }
    if !e.unique { InfuseSizeKeeps(es, st.sizes, (Dir, id), d.0); }
    hide SizeGroupOk, InfuseSize;
    forall i | 0 <= i < |es|
      ensures SizeIndexed(es[i], i, r.sizes)
    {
      assert SizeIndexed(st.es[i], i, st.sizes);
    }
  }

  lemma {:induction false} DirAllKeepsSizes(H: Hasher, es0: Arena, st: St, ids: seq<VfsId>)
    requires Tree(es0) && |st.es| == |es0| && SizeInv(st)
    requires forall k :: 0 <= k < |ids| ==> ids[k] < |es0| && DirProps(H, es0, ids[k]).Some?
    requires forall k :: 0 <= k < |ids| ==>
      st.es[ids[k]].dirSize == None || st.es[ids[k]].dirSize == Some(DirProps(H, es0, ids[k]).value.0)
    ensures SizeInv(DirAll(H, es0, st, ids))
    decreases |ids|
  {
    if ids != [] {
      hide SizeInv;
      var d := DirProps(H, es0, ids[0]).value;
      DirOneKeepsSizes(st, ids[0], d);
      DirAllKeepsSizes(H, es0, DirOne(st, ids[0], d), ids[1..]);
    }
  }

  /** After the walk, too, each file and each hashed directory is in the group of its size, once. */
  lemma {:induction false} DirTreeKeepsSizes(H: Hasher, st: St, id: VfsId)
    requires Tree(st.es) && id < |st.es| && SizeInv(st) && NoDirs(st.es)
    ensures SizeInv(DirTree(H, st.es, st, id))
  {
    hide SizeInv;
    PostDirsSucceed(H, st.es, id);
    DirAllKeepsSizes(H, st.es, st, PostDirs(H, st.es, id));
  }
}
