/** Every step of a scan keeps the index in agreement with the arena, and exactly which step
    does not. */
module Index {
  import opened Basics
  import opened Arenas
  import opened States

  ghost predicate FilesValid(es: Arena) {
    forall i :: 0 <= i < |es| && es[i].isFile ==> es[i].valid
  }

  ghost predicate HashInv(st: St, sz: Hash -> nat) {
    Coherent(st, sz) && HashIndex(st) && FilesValid(st.es)
  }

  ghost predicate SizeMemberOk(es: Arena, m: Member, size: nat) {
    && m.1 < |es| && es[m.1].valid
    && match m.0
       case File => es[m.1].isFile && es[m.1].fileSize == Some(size)
       case Dir => es[m.1].dirSize == Some(size)
  }

  ghost predicate SizeGroupOk(es: Arena, g: SizeGroup, size: nat) {
    && g.size == size && g.entries != [] && NoDup(g.entries)
    && forall k :: 0 <= k < |g.entries| ==> SizeMemberOk(es, g.entries[k], size)
  }

  ghost predicate SizeIndexed(e: VfsEntry, id: VfsId, sizes: Sizes) {
    && (e.isFile && !e.unique && e.fileSize.Some? ==> InSize(sizes, e.fileSize.value, (File, id)))
    && (!e.unique && e.dirSize.Some? ==> InSize(sizes, e.dirSize.value, (Dir, id)))
  }

  /** Each file and directory of known size is in the group of that size, once, and nothing else is. */
  ghost predicate SizeInv(st: St) {
    && (forall k :: k in st.sizes ==> SizeGroupOk(st.es, st.sizes[k], k))
    && (forall i :: 0 <= i < |st.es| ==> SizeIndexed(st.es[i], i, st.sizes))
  }

  ghost predicate Grouped(hashes: Hashes, id: VfsId) {
    exists h :: InHash(hashes, h, id)
  }

  /** Store `e` at `id` and put the file it describes into the groups. */
  ghost function Put(st: St, id: VfsId, e: VfsEntry): St
    requires id < |st.es| && (e.isFile ==> e.valid)
    requires e.isFile && e.fileHash.Some? ==> e.fileSize.Some?
  {
    St(st.es[id := e],
       if e.isFile && e.fileSize.Some? then PushSize(st.sizes, id, e, true, false) else st.sizes,
       if e.isFile && e.fileHash.Some? then PushHash(st.hashes, id, e, true, false) else st.hashes)
  }

  /** What a new value of an entry must respect: its place in the tree, the size that goes with
      its hash, and, if it is already in hash groups, what they say about it. */
  ghost predicate MayPut(st: St, id: VfsId, e: VfsEntry, sz: Hash -> nat) {
    && id < |st.es|
    && e.path == st.es[id].path && e.plc == st.es[id].plc && e.childs == st.es[id].childs
    && e.unique == st.es[id].unique
    && (e.isFile ==> e.valid) && SizedEntry(e, sz)
    && (e.dirHash == None || e.dirHash == st.es[id].dirHash)
    && (KeepsMember(st.es[id], e) || !Grouped(st.hashes, id))
  }

  lemma {:induction false} PutKeepsHashes(st: St, id: VfsId, e: VfsEntry, sz: Hash -> nat)
    requires HashInv(st, sz) && MayPut(st, id, e, sz)
    ensures HashInv(Put(st, id, e), sz)
  {
    var es := st.es[id := e];
    SameShapeTree(st.es, es);
    forall i | 0 <= i < |st.es| && exists h :: InHash(st.hashes, h, i)
      ensures KeepsMember(st.es[i], es[i])
    {
      if i == id { assert Grouped(st.hashes, id); }
    }
    UpdateKeepsSound(st.es, es, st.hashes);
    var r := Put(st, id, e);
    if e.isFile && e.fileHash.Some? && !e.unique {
      InfuseKeeps(es, st.hashes, (File, id), e.fileSize.value, e.fileHash.value, sz);
    }
    forall i | 0 <= i < |es|
      ensures Indexed(es[i], i, r.hashes)
    {
      assert Indexed(st.es[i], i, st.hashes);
    }
  }

  lemma {:induction false} InfuseSizeKeeps(es: Arena, sizes: Sizes, m: Member, size: nat)
    requires forall k :: k in sizes ==> SizeGroupOk(es, sizes[k], k)
    requires SizeMemberOk(es, m, size)
    ensures var r := InfuseSize(sizes, m, size);
      && (forall k :: k in r ==> SizeGroupOk(es, r[k], k)) && InSize(r, size, m)
      && forall k, x :: InSize(sizes, k, x) ==> InSize(r, k, x)
  {
    var r := InfuseSize(sizes, m, size);
    if size in sizes {
      assert SizeGroupOk(es, sizes[size], size);
      if m !in sizes[size].entries {
        assert r[size].entries[|r[size].entries| - 1] == m;
      }
    } else {
      assert r[size].entries[0] == m;
    }
    assert SizeGroupOk(es, r[size], size);
  }

  lemma {:induction false} PutKeepsSizes(st: St, id: VfsId, e: VfsEntry)
    requires SizeInv(st) && id < |st.es| && (e.isFile ==> e.valid) && e.unique == st.es[id].unique
    requires e.isFile && e.fileHash.Some? ==> e.fileSize.Some?
    requires e.dirSize == st.es[id].dirSize
    requires !st.es[id].valid || (e.valid && (st.es[id].isFile ==> e.isFile && e.fileSize == st.es[id].fileSize))
    ensures SizeInv(Put(st, id, e))
  {
    var es := st.es[id := e];
    forall k | k in st.sizes
      ensures SizeGroupOk(es, st.sizes[k], k)
    {
      assert SizeGroupOk(st.es, st.sizes[k], k);
      forall j | 0 <= j < |st.sizes[k].entries|
        ensures SizeMemberOk(es, st.sizes[k].entries[j], k)
      {
        assert SizeMemberOk(st.es, st.sizes[k].entries[j], k);
      }
    }
    var r := Put(st, id, e);
    if e.isFile && e.fileSize.Some? && !e.unique {
      InfuseSizeKeeps(es, st.sizes, (File, id), e.fileSize.value);
    }
    forall i | 0 <= i < |es|
      ensures SizeIndexed(es[i], i, r.sizes)
    {
      assert SizeIndexed(st.es[i], i, st.sizes);
    }
  }

  /** A group only holds valid entries that carry its hash. */
  lemma {:induction false} GroupedFacts(st: St, id: VfsId, h: Hash)
    requires HashSound(st.es, st.hashes) && InHash(st.hashes, h, id)
    ensures id < |st.es| && st.es[id].valid
    ensures (st.es[id].isFile && st.es[id].fileHash == Some(h)) || st.es[id].dirHash == Some(h)
  {
    assert GroupOk(st.es, st.hashes[h], h);
    var k :| 0 <= k < |st.hashes[h].entries| && st.hashes[h].entries[k].1 == id;
    assert MemberOk(st.es, st.hashes[h].entries[k], st.hashes[h].size, h);
  }

  lemma {:induction false} UngroupedWithoutHash(st: St, id: VfsId)
    requires HashSound(st.es, st.hashes) && id < |st.es|
    requires !st.es[id].valid || (st.es[id].fileHash == None && st.es[id].dirHash == None)
    ensures !Grouped(st.hashes, id)
  {
    forall h | InHash(st.hashes, h, id)
      ensures false
    {
      GroupedFacts(st, id, h);
    }
  }

  // ----- what the queries mean

  /** No entry is exempt from grouping; nothing in the program ever sets the flag. */
  ghost predicate NoUnique(es: Arena) {
    forall i :: 0 <= i < |es| ==> !es[i].unique
  }

  /** The member is a file, or a hashed directory, of this size. */
  ghost predicate OfSize(es: Arena, m: Member, size: nat) {
    && m.1 < |es|
    && match m.0
       case File => es[m.1].isFile && es[m.1].fileSize == Some(size)
       case Dir => es[m.1].dirSize == Some(size)
  }

  /** More than one size: there are two different files or directories of this size. */
  lemma {:induction false} SharedSizeIff(st: St, size: nat)
    requires SizeInv(st) && NoUnique(st.es)
    ensures NumSizes(st.sizes, size) > 1 <==>
      exists m: Member, n: Member :: m != n && OfSize(st.es, m, size) && OfSize(st.es, n, size)
  {
    if NumSizes(st.sizes, size) > 1 {
      var g := st.sizes[size].entries;
      assert SizeGroupOk(st.es, st.sizes[size], size);
      assert SizeMemberOk(st.es, g[0], size) && SizeMemberOk(st.es, g[1], size);
      assert OfSize(st.es, g[0], size) && OfSize(st.es, g[1], size);
    }
    forall m: Member, n: Member | m != n && OfSize(st.es, m, size) && OfSize(st.es, n, size)
      ensures NumSizes(st.sizes, size) > 1
    {
      assert SizeIndexed(st.es[m.1], m.1, st.sizes) && SizeIndexed(st.es[n.1], n.1, st.sizes);
      var g := st.sizes[size].entries;
      var i :| 0 <= i < |g| && g[i] == m;
      var j :| 0 <= j < |g| && g[j] == n;
    }
  }

  /** The entry is a file or a directory with this hash. */
  ghost predicate Carries(es: Arena, id: VfsId, h: Hash) {
    id < |es| && ((es[id].isFile && es[id].fileHash == Some(h)) || es[id].dirHash == Some(h))
  }

  /** More than one hash: two different entries carry it. */
  lemma {:induction false} SharedHashIff(st: St, h: Hash)
    requires HashIndex(st) && NoUnique(st.es)
    ensures CountHashes(st.hashes, h) > 1 <==>
      exists a: VfsId, b: VfsId :: a != b && Carries(st.es, a, h) && Carries(st.es, b, h)
  {
    if CountHashes(st.hashes, h) > 1 {
      var g := st.hashes[h].entries;
      assert GroupOk(st.es, st.hashes[h], h);
      assert MemberOk(st.es, g[0], st.hashes[h].size, h) && MemberOk(st.es, g[1], st.hashes[h].size, h);
      assert Carries(st.es, g[0].1, h) && Carries(st.es, g[1].1, h);
    }
    forall a: VfsId, b: VfsId | a != b && Carries(st.es, a, h) && Carries(st.es, b, h)
      ensures CountHashes(st.hashes, h) > 1
    {
      assert Indexed(st.es[a], a, st.hashes) && Indexed(st.es[b], b, st.hashes);
      var g := st.hashes[h].entries;
      var i :| 0 <= i < |g| && g[i].1 == a;
      var j :| 0 <= j < |g| && g[j].1 == b;
    }
  }

  // ----- the steps of a scan

  lemma {:induction false} CreatedKeepsIndex(st: St, path: Path, es: Arena, id: VfsId, sz: Hash -> nat)
    requires HashInv(st, sz) && Created(st.es, path, es, id)
    ensures HashInv(st.(es := es), sz)
    ensures SizeInv(st) ==> SizeInv(st.(es := es))
  {
    CreatedSized(st.es, path, es, id, sz);
    forall i | 0 <= i < |st.es|
      ensures KeepsMember(st.es[i], es[i]) && st.es[i].isFile == es[i].isFile && st.es[i].valid == es[i].valid
      ensures st.es[i].unique == es[i].unique
    {
      assert KeptEntry(st.es[i], path, es[i]);
    }
    UpdateKeepsSound(st.es, es, st.hashes);
    forall i | 0 <= i < |es|
      ensures Indexed(es[i], i, st.hashes) && (es[i].isFile ==> es[i].valid)
    {
      if i < |st.es| { assert Indexed(st.es[i], i, st.hashes); } else { assert FreshEntry(path, es[i]); }
    }
    if SizeInv(st) { CreatedKeepsSizes(st, path, es, id); }
  }

  lemma {:induction false} CreatedKeepsSizes(st: St, path: Path, es: Arena, id: VfsId)
    requires SizeInv(st) && Created(st.es, path, es, id)
    ensures SizeInv(st.(es := es))
  {
    forall k | k in st.sizes
      ensures SizeGroupOk(es, st.sizes[k], k)
    {
      assert SizeGroupOk(st.es, st.sizes[k], k);
      forall j | 0 <= j < |st.sizes[k].entries|
        ensures SizeMemberOk(es, st.sizes[k].entries[j], k)
      {
        assert SizeMemberOk(st.es, st.sizes[k].entries[j], k);
        var i := st.sizes[k].entries[j].1;
        assert KeptEntry(st.es[i], path, es[i]);
      }
    }
    forall i | 0 <= i < |es|
      ensures SizeIndexed(es[i], i, st.sizes)
    {
      if i < |st.es| {
        assert SizeIndexed(st.es[i], i, st.sizes) && KeptEntry(st.es[i], path, es[i]);
      } else {
        assert FreshEntry(path, es[i]);
      }
    }
  }

  /** Reviving cached entries never harms the index. */
  lemma {:induction false} ValidateAllKeepsIndex(st: St, ids: seq<VfsId>, sz: Hash -> nat)
    requires HashInv(st, sz) && CanRevive(st.es, ids, sz)
    ensures HashInv(ValidateAll(st, ids, sz), sz)
    ensures SizeInv(st) ==> SizeInv(ValidateAll(st, ids, sz))
    decreases |ids|
  {
    if ids != [] {
      var e := Mark(st.es[ids[0]]);
      assert ValidateOne(st, ids[0]) == Put(st, ids[0], e);
      PutKeepsHashes(st, ids[0], e, sz);
      if SizeInv(st) { PutKeepsSizes(st, ids[0], e); }
      ValidateAllKeepsIndex(ValidateOne(st, ids[0]), ids[1..], sz);
    }
  }

  /** An entry that is in no hash group, or whose cached data still holds, can be sized. */
  lemma {:induction false} SizeKeepsHashes(st: St, id: VfsId, size: nat, ctime: int, phys: nat, n: nat, sz: Hash -> nat,
                                           st': St)
    requires HashInv(st, sz) && CanSize(st, id, size, ctime, sz) && SizeStep(st, id, size, ctime, phys, n, sz, st')
    requires Unchanged(st.es[id], ctime, Some(size), None) || !Grouped(st.hashes, id)
    ensures HashInv(st', sz)
  {
    hide HashIndex, ValidateAll, PushSize, PushHash, Grouped;
    var mid := Validated(st, id, ctime, Some(size), None, sz);
    ValidatedEntry(st, id, ctime, size, sz);
    var e := mid.es[id].(isFile := true, fileSize := Some(size), phys := Some(phys), nExtends := Some(n));
    if Unchanged(st.es[id], ctime, Some(size), None) {
      PreorderFits(st.es, id, sz);
      PreorderIsSubtree(st.es, id, id);
      ValidateAllKeepsIndex(st, Preorder(st.es, id), sz);
      ValidateAllEntry(st, Preorder(st.es, id), id, sz);
    } else {
      ResetKeepsHashes(st, id, ctime, sz);
    }
    assert st' == Put(mid, id, e);
    PutKeepsHashes(mid, id, e, sz);
  }

  lemma {:induction false} ResetKeepsHashes(st: St, id: VfsId, ctime: int, sz: Hash -> nat)
    requires HashInv(st, sz) && id < |st.es| && !Grouped(st.hashes, id)
    ensures HashInv(st.(es := st.es[id := Reset(st.es[id], ctime)]), sz)
  {
    var e := Reset(st.es[id], ctime);
    assert Put(st, id, e) == st.(es := st.es[id := e]);
    PutKeepsHashes(st, id, e, sz);
  }

  /** Sizing a path keeps the hash index if and only if the entry is in no group yet or its
      cached data still holds: a changed file that was grouped before leaves a stale member. */
  lemma {:induction false} SizeKeepsHashesIff(st: St, id: VfsId, size: nat, ctime: int, phys: nat, n: nat,
                                              sz: Hash -> nat, st': St)
    requires HashInv(st, sz) && CanSize(st, id, size, ctime, sz) && SizeStep(st, id, size, ctime, phys, n, sz, st')
    ensures HashInv(st', sz) <==> Unchanged(st.es[id], ctime, Some(size), None) || !Grouped(st.hashes, id)
  {
    if Unchanged(st.es[id], ctime, Some(size), None) || !Grouped(st.hashes, id) {
      SizeKeepsHashes(st, id, size, ctime, phys, n, sz, st');
    } else {
      var h :| InHash(st.hashes, h, id);
      assert InHash(st'.hashes, h, id);
      if HashInv(st', sz) { GroupedFacts(st', id, h); }
    }
  }

  lemma {:induction false} SizeKeepsSizes(st: St, id: VfsId, size: nat, ctime: int, phys: nat, n: nat, sz: Hash -> nat,
                                          st': St)
    requires HashInv(st, sz) && SizeInv(st) && CanSize(st, id, size, ctime, sz)
    requires SizeStep(st, id, size, ctime, phys, n, sz, st')
    requires !st.es[id].valid && st.es[id].dirSize == None
    ensures SizeInv(st')
  {
    hide SizeInv, SizedValid, Sized, HashIndex, ValidTree;
    var mid := Validated(st, id, ctime, Some(size), None, sz);
    ValidatedEntry(st, id, ctime, size, sz);
    ValidatedKeepsSizes(st, id, ctime, size, sz);
    var e := mid.es[id].(isFile := true, fileSize := Some(size), phys := Some(phys), nExtends := Some(n));
    assert st' == Put(mid, id, e);
    PutKeepsSizes(mid, id, e);
  }

  lemma {:induction false} ValidatedKeepsSizes(st: St, id: VfsId, ctime: int, size: nat, sz: Hash -> nat)
    requires HashInv(st, sz) && SizeInv(st) && CanSize(st, id, size, ctime, sz)
    requires !st.es[id].valid && st.es[id].dirSize == None
    ensures var r := Validated(st, id, ctime, Some(size), None, sz);
      && SizeInv(r) && id < |r.es| && (r.es[id].isFile ==> r.es[id].fileSize == Some(size))
  {
    hide SizeInv, HashIndex, ValidateAll;
    if Unchanged(st.es[id], ctime, Some(size), None) {
      PreorderFits(st.es, id, sz);
      ValidateAllKeepsIndex(st, Preorder(st.es, id), sz);
      ValidateAllEntry(st, Preorder(st.es, id), id, sz);
    } else {
      ResetKeepsSizes(st, id, ctime);
    }
  }

  lemma {:induction false} ResetKeepsSizes(st: St, id: VfsId, ctime: int)
    requires SizeInv(st) && id < |st.es| && !st.es[id].valid && st.es[id].dirSize == None
    requires !st.es[id].isFile
    ensures SizeInv(st.(es := st.es[id := Reset(st.es[id], ctime)]))
  {
    var r := Reset(st.es[id], ctime);
    assert Put(st, id, r) == st.(es := st.es[id := r]);
    PutKeepsSizes(st, id, r);
  }

  /** Storing the hash of a file that has none yet, or the same one again. */
  lemma {:induction false} HashedKeepsIndex(st: St, id: VfsId, hash: Hash, archive: bool, sz: Hash -> nat)
    requires HashInv(st, sz) && SizeInv(st) && id < |st.es|
    requires st.es[id].valid && st.es[id].isFile && st.es[id].fileSize == Some(sz(hash))
    requires st.es[id].fileHash == Some(hash) || (st.es[id].fileHash == None && st.es[id].dirHash == None)
    ensures HashInv(Hashed(st, id, hash, archive), sz) && SizeInv(Hashed(st, id, hash, archive))
  {
    hide Tree, Sized, HashSound, HashComplete, PushHash, SizeGroupOk;
    var e := st.es[id].(fileHash := Some(hash), isDir := st.es[id].isDir || archive);
    assert SizeIndexed(st.es[id], id, st.sizes);
    assert PushSize(st.sizes, id, e, true, false) == st.sizes;
    assert Hashed(st, id, hash, archive) == Put(st, id, e);
    if st.es[id].fileHash == None { UngroupedWithoutHash(st, id); }
    PutKeepsHashes(st, id, e, sz);
    PutKeepsSizes(st, id, e);
  }

  /** An archive member that is not valid yet, or decodes to what is known of it. */
  lemma {:induction false} DecodedKeepsIndex(st: St, id: VfsId, size: nat, hash: Hash, sz: Hash -> nat)
    requires HashInv(st, sz) && SizeInv(st) && id < |st.es| && size == sz(hash)
    requires st.es[id].dirHash == None && st.es[id].dirSize == None
    requires !st.es[id].valid
      || (st.es[id].isFile && st.es[id].fileHash == Some(hash) && st.es[id].fileSize == Some(size))
    ensures HashInv(Decoded(st, id, size, hash), sz) && SizeInv(Decoded(st, id, size, hash))
  {
    var e := st.es[id].(isDir := false, isFile := true, fileSize := Some(size), fileHash := Some(hash),
                        phys := None, valid := true);
    assert Decoded(st, id, size, hash) == Put(st, id, e);
    if !st.es[id].valid { UngroupedWithoutHash(st, id); }
    PutKeepsHashes(st, id, e, sz);
    PutKeepsSizes(st, id, e);
  }
}
