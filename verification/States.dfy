/** The duplicate index: size groups and hash groups over the arena
    (dupion/src/state/mod.rs, dupion/src/vfs/entry.rs). */
module States {
  import opened Basics
  import opened Arenas

  type Member = (EntryType, VfsId)

  datatype SizeGroup = SizeGroup(entries: seq<Member>, size: nat)

  datatype HashGroup = HashGroup(entries: seq<Member>, size: nat, hash: Hash)

  type Sizes = map<nat, SizeGroup>
  type Hashes = map<Hash, HashGroup>

  datatype Opts = Opts(isArchive: Path -> bool, scanSizeMin: nat, scanSizeMax: nat)

  /** The value of the whole state at one moment. */
  datatype St = St(es: Arena, sizes: Sizes, hashes: Hashes)

  function InfuseSize(sizes: Sizes, m: Member, size: nat): Sizes {
    if size !in sizes then sizes[size := SizeGroup([m], size)]
    else if m in sizes[size].entries then sizes
    else sizes[size := SizeGroup(sizes[size].entries + [m], sizes[size].size)]
  }

  predicate HasId(entries: seq<Member>, id: VfsId) {
    exists k :: 0 <= k < |entries| && entries[k].1 == id
  }

  function InfuseHash(hashes: Hashes, m: Member, size: nat, hash: Hash): Hashes {
    if hash !in hashes then hashes[hash := HashGroup([m], size, hash)]
    else if HasId(hashes[hash].entries, m.1) then hashes
    else hashes[hash := hashes[hash].(entries := hashes[hash].entries + [m])]
  }

  /** The sizes that `push_to_size_group` unwraps are there. */
  predicate CanPushSize(e: VfsEntry, file: bool, dir: bool) {
    e.valid && (e.unique || ((file ==> e.fileSize.Some?) && (dir ==> e.dirSize.Some?)))
  }

  function PushSize(sizes: Sizes, id: VfsId, e: VfsEntry, file: bool, dir: bool): Sizes
    requires CanPushSize(e, file, dir)
  {
    if e.unique then sizes else
      var s := if file then InfuseSize(sizes, (File, id), e.fileSize.value) else sizes;
      if dir then InfuseSize(s, (Dir, id), e.dirSize.value) else s
  }

  /** Equal hash implies equal size, as `push_to_hash_group` asserts: `sz` gives that size. */
  ghost predicate Sized(hashes: Hashes, sz: Hash -> nat) {
    forall h :: h in hashes ==> hashes[h].size == sz(h) && hashes[h].hash == h
  }

  ghost predicate SizedFile(e: VfsEntry, sz: Hash -> nat) {
    e.fileHash.Some? ==> e.fileSize == Some(sz(e.fileHash.value))
  }

  ghost predicate SizedDir(e: VfsEntry, sz: Hash -> nat) {
    e.dirHash.Some? ==> e.dirSize == Some(sz(e.dirHash.value))
  }

  /** What is stored of a file that exists, and of a directory; the cached hash of a file that does not
      exist is left open. */
  ghost predicate SizedEntry(e: VfsEntry, sz: Hash -> nat) {
    (e.isFile ==> SizedFile(e, sz)) && SizedDir(e, sz)
  }

  predicate CanPushHash(e: VfsEntry, file: bool, dir: bool) {
    && e.valid
    && (|| e.unique
        || ((file ==> e.fileHash.Some? && e.fileSize.Some?) && (dir ==> e.dirHash.Some? && e.dirSize.Some?)))
  }

  function PushHash(hashes: Hashes, id: VfsId, e: VfsEntry, file: bool, dir: bool): Hashes
    requires CanPushHash(e, file, dir)
  {
    if e.unique then hashes else
      var h := if file then InfuseHash(hashes, (File, id), e.fileSize.value, e.fileHash.value) else hashes;
      if dir then InfuseHash(h, (Dir, id), e.dirSize.value, e.dirHash.value) else h
  }

  function NumSizes(sizes: Sizes, size: nat): nat {
    if size in sizes then |sizes[size].entries| else 0
  }

  function CountHashes(hashes: Hashes, hash: Hash): nat {
    if hash in hashes then |hashes[hash].entries| else 0
  }

  /** Which files are worth reading: those of a shared size, and archives. */
  predicate ReadCandidate(st: St, id: VfsId, opts: Opts)
    requires id < |st.es| && (opts.isArchive(st.es[id].path) || st.es[id].fileSize.Some?)
  {
    var e := st.es[id];
    if opts.isArchive(e.path) then e.isFile && (e.fileHash == None || !e.isDir)
    else
      && e.fileHash == None && e.isFile
      && NumSizes(st.sizes, e.fileSize.value) > 1
      && opts.scanSizeMin <= e.fileSize.value <= opts.scanSizeMax
  }

  // ----- validation

  function Mark(e: VfsEntry): VfsEntry {
    e.(valid := true, isFile := e.isFile || e.wasFile, isDir := e.isDir || e.wasDir)
  }

  /** What `set_valid` does to one entry. */
  function ValidateOne(st: St, id: VfsId): St
    requires id < |st.es|
    requires Mark(st.es[id]).isFile && st.es[id].fileHash.Some? ==> st.es[id].fileSize.Some?
  {
    var e := Mark(st.es[id]);
    St(st.es[id := e],
       if e.isFile && e.fileSize.Some? then PushSize(st.sizes, id, e, true, false) else st.sizes,
       if e.isFile && e.fileHash.Some? then PushHash(st.hashes, id, e, true, false) else st.hashes)
  }

  /** The hashes of all valid entries come with their sizes; what the cache holds of others is open. */
  ghost predicate SizedValid(es: Arena, sz: Hash -> nat) {
    forall i :: 0 <= i < |es| && es[i].valid ==> SizedEntry(es[i], sz)
  }

  /** What reviving the entry puts into a group comes with its size. */
  ghost predicate Fit(e: VfsEntry, sz: Hash -> nat) {
    SizedEntry(Mark(e), sz)
  }

  lemma {:induction false} MarkedFits(e: VfsEntry, sz: Hash -> nat)
    ensures Fit(Mark(e), sz) <==> Fit(e, sz)
  {
  }

  /** The hashes that reviving these entries puts into groups come with their sizes. */
  ghost predicate CanRevive(es: Arena, ids: seq<VfsId>, sz: Hash -> nat) {
    forall k :: 0 <= k < |ids| ==> ids[k] < |es| && Fit(es[ids[k]], sz)
  }

  ghost function ValidateAll(st: St, ids: seq<VfsId>, sz: Hash -> nat): (r: St)
    requires SizedValid(st.es, sz) && Sized(st.hashes, sz) && CanRevive(st.es, ids, sz)
    ensures SizedValid(r.es, sz) && Sized(r.hashes, sz)
    ensures SameShape(st.es, r.es)
    decreases |ids|
  {
    if ids == [] then st else
      OneKeepsSized(st, ids[0], sz);
      var mid := ValidateOne(st, ids[0]);
      ValidateAll(mid, ids[1..], sz)
  }

  lemma {:induction false} OneKeepsSized(st: St, id: VfsId, sz: Hash -> nat)
    requires SizedValid(st.es, sz) && Sized(st.hashes, sz) && id < |st.es| && Fit(st.es[id], sz)
    ensures SizedValid(ValidateOne(st, id).es, sz) && Sized(ValidateOne(st, id).hashes, sz)
  {
  }

  lemma {:induction false} ValidateAllConcat(st: St, a: seq<VfsId>, b: seq<VfsId>, sz: Hash -> nat)
    requires SizedValid(st.es, sz) && Sized(st.hashes, sz) && CanRevive(st.es, a, sz) && CanRevive(st.es, b, sz)
    ensures CanRevive(st.es, a + b, sz) && CanRevive(ValidateAll(st, a, sz).es, b, sz)
    ensures ValidateAll(st, a + b, sz) == ValidateAll(ValidateAll(st, a, sz), b, sz)
    decreases |a|
  {
    if a == [] {
      assert a + b == b;
    } else {
      assert (a + b)[1..] == a[1..] + b;
      ReviveOther(st, a[0], a[1..], sz);
      ReviveOther(st, a[0], b, sz);
      OneKeepsSized(st, a[0], sz);
      hide Fit, PushSize, PushHash, Sized, SizedValid, ValidateOne;
      ValidateAllConcat(ValidateOne(st, a[0]), a[1..], b, sz);
    }
  }

  /** The ids below `id`, itself first, children in order. */
  ghost function Preorder(es: Arena, id: VfsId): seq<VfsId>
    requires Tree(es) && id < |es|
    decreases |es| - id, 1, 0
  {
    [id] + PreorderKids(es, id, |es[id].childs|)
  }

  /** The first `n` children of `id` with all below them. */
  ghost function PreorderKids(es: Arena, id: VfsId, n: nat): seq<VfsId>
    requires Tree(es) && id < |es| && n <= |es[id].childs|
    decreases |es| - id, 0, n
  {
    if n == 0 then [] else
      assert Link(es, id, es[id].childs[n - 1]);
      PreorderKids(es, id, n - 1) + Preorder(es, es[id].childs[n - 1])
  }

  lemma {:induction false} PreorderShape(a: Arena, b: Arena, id: VfsId)
    requires Tree(a) && Tree(b) && SameShape(a, b) && id < |a|
    ensures Preorder(a, id) == Preorder(b, id)
    decreases |a| - id, 1, 0
  {
    PreorderKidsShape(a, b, id, |a[id].childs|);
  }

  lemma {:induction false} PreorderKidsShape(a: Arena, b: Arena, id: VfsId, n: nat)
    requires Tree(a) && Tree(b) && SameShape(a, b) && id < |a| && n <= |a[id].childs|
    ensures PreorderKids(a, id, n) == PreorderKids(b, id, n)
    decreases |a| - id, 0, n
  {
    if n > 0 {
      assert Link(a, id, a[id].childs[n - 1]) && Link(b, id, b[id].childs[n - 1]);
      PreorderKidsShape(a, b, id, n - 1);
      PreorderShape(a, b, a[id].childs[n - 1]);
    }
  }

  /** `Preorder` lists exactly the entries whose path starts with the path of `id`. */
  lemma {:induction false} PreorderIsSubtree(es: Arena, id: VfsId, n: VfsId)
    requires Tree(es) && id < |es|
    ensures n in Preorder(es, id) <==> n < |es| && es[id].path <= es[n].path
    decreases |es| - id, 1, 0
  {
    PreorderKidsBelow(es, id, |es[id].childs|, n);
    if n < |es| && es[id].path <= es[n].path {
      if es[id].path == es[n].path {
        PathsUnique(es, id, n);
      } else {
        var c := ChildTowards(es, id, n);
        var k :| 0 <= k < |es[id].childs| && es[id].childs[k] == c;
      }
    }
  }

  lemma {:induction false} PreorderKidsBelow(es: Arena, id: VfsId, m: nat, n: VfsId)
    requires Tree(es) && id < |es| && m <= |es[id].childs|
    ensures n in PreorderKids(es, id, m) <==>
      exists k :: 0 <= k < m && n < |es| && es[id].childs[k] < |es| && es[es[id].childs[k]].path <= es[n].path
    ensures n in PreorderKids(es, id, m) ==> es[id].path < es[n].path
    decreases |es| - id, 0, m
  {
    if m > 0 {
      var c := es[id].childs[m - 1];
      assert Link(es, id, c);
      PreorderKidsBelow(es, id, m - 1, n);
      PreorderIsSubtree(es, c, n);
    }
  }

  // ----- agreement of the index with the arena

  ghost predicate InHash(hashes: Hashes, hash: Hash, id: VfsId) {
    hash in hashes && HasId(hashes[hash].entries, id)
  }

  ghost predicate InSize(sizes: Sizes, size: nat, m: Member) {
    size in sizes && m in sizes[size].entries
  }

  /** The entry, unless unique, is in the group of its size: as a file, as a directory, or both. */
  ghost predicate FiledBySize(sizes: Sizes, id: VfsId, e: VfsEntry, file: bool, dir: bool)
    requires CanPushSize(e, file, dir)
  {
    || e.unique
    || ((file ==> InSize(sizes, e.fileSize.value, (File, id))) && (dir ==> InSize(sizes, e.dirSize.value, (Dir, id))))
  }

  /** The entry has the size and hash that its group claims. */
  ghost predicate MemberOk(es: Arena, m: Member, size: nat, hash: Hash) {
    && m.1 < |es| && es[m.1].valid
    && match m.0
       case File => es[m.1].isFile && es[m.1].fileHash == Some(hash) && es[m.1].fileSize == Some(size)
       case Dir => es[m.1].dirHash == Some(hash) && es[m.1].dirSize == Some(size)
  }

  ghost predicate IdsDiffer(entries: seq<Member>) {
    forall i, j :: 0 <= i < j < |entries| ==> entries[i].1 != entries[j].1
  }

  ghost predicate GroupOk(es: Arena, g: HashGroup, hash: Hash) {
    && g.hash == hash && g.entries != [] && IdsDiffer(g.entries)
    && forall k :: 0 <= k < |g.entries| ==> MemberOk(es, g.entries[k], g.size, hash)
  }

  ghost predicate HashSound(es: Arena, hashes: Hashes) {
    forall h :: h in hashes ==> GroupOk(es, hashes[h], h)
  }

  ghost predicate Indexed(e: VfsEntry, id: VfsId, hashes: Hashes) {
    && (e.isFile && !e.unique && e.fileHash.Some? ==> e.valid && InHash(hashes, e.fileHash.value, id))
    && (!e.unique && e.dirHash.Some? ==> e.valid && InHash(hashes, e.dirHash.value, id))
  }

  ghost predicate HashComplete(es: Arena, hashes: Hashes) {
    forall i :: 0 <= i < |es| ==> Indexed(es[i], i, hashes)
  }

  /** Hash index agreement: each id at most once per group, each member's stored hash and size
      are the group's, and every file and directory with a hash is in the group of that hash. */
  ghost predicate HashIndex(st: St) {
    HashSound(st.es, st.hashes) && HashComplete(st.es, st.hashes)
  }

  lemma {:induction false} InfuseKeeps(es: Arena, hashes: Hashes, m: Member, size: nat, hash: Hash, sz: Hash -> nat)
    requires HashSound(es, hashes) && Sized(hashes, sz)
    requires MemberOk(es, m, size, hash) && size == sz(hash)
    ensures var r := InfuseHash(hashes, m, size, hash);
      && HashSound(es, r) && Sized(r, sz) && InHash(r, hash, m.1)
      && forall h, i :: InHash(hashes, h, i) ==> InHash(r, h, i)
  {
    var r := InfuseHash(hashes, m, size, hash);
    assert GroupOk(es, r[hash], hash) by {
      if hash in hashes { assert GroupOk(es, hashes[hash], hash); }
    }
    if hash !in hashes || !HasId(hashes[hash].entries, m.1) {
      assert r[hash].entries[|r[hash].entries| - 1] == m;
    }
    forall h, i | InHash(hashes, h, i)
      ensures InHash(r, h, i)
    {
      var k :| 0 <= k < |hashes[h].entries| && hashes[h].entries[k].1 == i;
      assert r[h].entries[k].1 == i;
    }
  }

  /** A change to an entry that keeps what groups say about it. */
  ghost predicate KeepsMember(a: VfsEntry, b: VfsEntry) {
    && (a.valid ==> b.valid) && (a.isFile ==> b.isFile)
    && a.fileHash == b.fileHash && a.fileSize == b.fileSize
    && (a.dirHash.Some? ==> a.dirHash == b.dirHash && a.dirSize == b.dirSize)
  }

  lemma {:induction false} UpdateKeepsSound(es: Arena, es': Arena, hashes: Hashes)
    requires HashSound(es, hashes)
    requires |es| <= |es'|
    requires forall i :: 0 <= i < |es| && (exists h :: InHash(hashes, h, i)) ==> KeepsMember(es[i], es'[i])
    ensures HashSound(es', hashes)
  {
    forall h | h in hashes
      ensures GroupOk(es', hashes[h], h)
    {
      assert GroupOk(es, hashes[h], h);
      forall k | 0 <= k < |hashes[h].entries|
        ensures MemberOk(es', hashes[h].entries[k], hashes[h].size, h)
      {
        assert MemberOk(es, hashes[h].entries[k], hashes[h].size, h);
        assert InHash(hashes, h, hashes[h].entries[k].1);
      }
    }
  }

  // ----- the state as the program updates it

  function Reset(e: VfsEntry, ctime: int): VfsEntry {
    e.(fileSize := None, fileHash := None, dirSize := None, dirHash := None,
       phys := Some(0), nExtends := None, ctime := Some(ctime), valid := true)
  }

  predicate Unchanged(e: VfsEntry, ctime: int, fileSize: Option<nat>, dirSize: Option<nat>) {
    && e.ctime == Some(ctime)
    && (fileSize.Some? ==> e.fileSize == fileSize)
    && (dirSize.Some? ==> e.dirSize == dirSize)
  }

  /** The parts of the state the validation pass relies on. */
  ghost predicate Coherent(st: St, sz: Hash -> nat) {
    Tree(st.es) && SizedValid(st.es, sz) && Sized(st.hashes, sz)
  }

  /** The hashes of all files stored at and below the entry come with their sizes. */
  ghost predicate Revivable(es: Arena, id: VfsId, sz: Hash -> nat) {
    id < |es| && forall i :: 0 <= i < |es| && es[id].path <= es[i].path ==> Fit(es[i], sz)
  }

  lemma {:induction false} PreorderFits(es: Arena, id: VfsId, sz: Hash -> nat)
    requires Tree(es) && Revivable(es, id, sz)
    ensures CanRevive(es, Preorder(es, id), sz)
  {
    forall k | 0 <= k < |Preorder(es, id)|
      ensures Preorder(es, id)[k] < |es| && Fit(es[Preorder(es, id)[k]], sz)
    {
      PreorderIsSubtree(es, id, Preorder(es, id)[k]);
    }
  }

  /** What `set_valid` does to an entry and all below it. */
  ghost function ValidTree(st: St, id: VfsId, sz: Hash -> nat): (r: St)
    requires Coherent(st, sz) && Revivable(st.es, id, sz)
    ensures Coherent(r, sz) && SameShape(st.es, r.es)
  {
    PreorderFits(st.es, id, sz);
    var r := ValidateAll(st, Preorder(st.es, id), sz);
    SameShapeTree(st.es, r.es);
    r
  }

  lemma {:induction false} ValidateOneCoherent(st: St, id: VfsId, sz: Hash -> nat)
    requires Coherent(st, sz) && id < |st.es| && Fit(st.es[id], sz)
    ensures Coherent(ValidateOne(st, id), sz) && SameShape(st.es, ValidateOne(st, id).es)
  {
    SameShapeTree(st.es, ValidateOne(st, id).es);
  }

  /** The same, after the entry itself and its first `n` children. */
  ghost function ValidKids(st: St, id: VfsId, n: nat, sz: Hash -> nat): (r: St)
    requires Coherent(st, sz) && Revivable(st.es, id, sz) && n <= |st.es[id].childs|
    ensures Coherent(r, sz) && SameShape(st.es, r.es)
  {
    KidsFit(st, id, n, sz);
    var r := ValidateAll(ValidateOne(st, id), PreorderKids(st.es, id, n), sz);
    SameShapeTree(st.es, r.es);
    r
  }

  lemma {:induction false} ReviveOther(st: St, id: VfsId, ids: seq<VfsId>, sz: Hash -> nat)
    requires id < |st.es| && Fit(st.es[id], sz) && CanRevive(st.es, ids, sz)
    ensures CanRevive(ValidateOne(st, id).es, ids, sz)
  {
    MarkedFits(st.es[id], sz);
  }

  lemma {:induction false} KidsFit(st: St, id: VfsId, n: nat, sz: Hash -> nat)
    requires Tree(st.es) && Revivable(st.es, id, sz) && n <= |st.es[id].childs|
    ensures CanRevive(st.es, PreorderKids(st.es, id, n), sz)
    ensures CanRevive(ValidateOne(st, id).es, PreorderKids(st.es, id, n), sz)
  {
    hide Fit;
    forall k | 0 <= k < |PreorderKids(st.es, id, n)|
      ensures PreorderKids(st.es, id, n)[k] < |st.es|
      ensures st.es[id].path <= st.es[PreorderKids(st.es, id, n)[k]].path
    {
      PreorderKidsBelow(st.es, id, n, PreorderKids(st.es, id, n)[k]);
    }
    MarkedFits(st.es[id], sz);
  }

  lemma {:induction false} ValidKidsStart(st: St, id: VfsId, sz: Hash -> nat)
    requires Coherent(st, sz) && Revivable(st.es, id, sz)
    ensures ValidKids(st, id, 0, sz) == ValidateOne(st, id)
  {
  }

  /** Reviving the elder siblings changes flags only. */
  lemma {:induction false} AfterKids(st: St, id: VfsId, n: nat, sz: Hash -> nat, i: VfsId)
    requires Coherent(st, sz) && Revivable(st.es, id, sz) && n <= |st.es[id].childs| && i < |st.es|
    ensures ValidKids(st, id, n, sz).es[i] == st.es[i] || ValidKids(st, id, n, sz).es[i] == Mark(st.es[i])
  {
    ValidateOneCoherent(st, id, sz);
    KidsFit(st, id, n, sz);
    hide Tree, Preorder, PreorderKids, Revivable, CanRevive, SizedValid;
    ValidateAllEntry(ValidateOne(st, id), PreorderKids(st.es, id, n), i, sz);
  }

  /** A child, and all below it, can be revived after its elder siblings were. */
  lemma {:induction false} KidRevivable(st: St, id: VfsId, n: nat, sz: Hash -> nat)
    requires Coherent(st, sz) && Revivable(st.es, id, sz) && n < |st.es[id].childs|
    ensures Link(st.es, id, st.es[id].childs[n])
    ensures Revivable(ValidKids(st, id, n, sz).es, st.es[id].childs[n], sz)
    ensures CanRevive(ValidateOne(st, id).es, Preorder(st.es, st.es[id].childs[n]), sz)
  {
    var c, mid := st.es[id].childs[n], ValidKids(st, id, n, sz);
    LinkOf(st.es, id, c);
    PreorderFits(st.es, c, sz);
    ReviveOther(st, id, Preorder(st.es, c), sz);
    hide Tree, Preorder, PreorderKids, ValidKids, SizedValid, Fit, CanRevive;
    AfterKids(st, id, n, sz, c);
    forall i | 0 <= i < |mid.es| && mid.es[c].path <= mid.es[i].path
      ensures Fit(mid.es[i], sz)
    {
      AfterKids(st, id, n, sz, i);
      MarkedFits(st.es[i], sz);
    }
  }

  lemma {:induction false} ValidKidsStep(st: St, id: VfsId, n: nat, sz: Hash -> nat)
    requires Coherent(st, sz) && Revivable(st.es, id, sz) && n < |st.es[id].childs|
    ensures Link(st.es, id, st.es[id].childs[n])
    ensures Revivable(ValidKids(st, id, n, sz).es, st.es[id].childs[n], sz)
    ensures ValidKids(st, id, n + 1, sz) == ValidTree(ValidKids(st, id, n, sz), st.es[id].childs[n], sz)
  {
    var c, one, mid := st.es[id].childs[n], ValidateOne(st, id), ValidKids(st, id, n, sz);
    KidRevivable(st, id, n, sz);
    ValidateOneCoherent(st, id, sz);
    KidsFit(st, id, n, sz);
    hide Tree, ValidateAll, ValidateOne, SizedValid, Sized, Preorder, CanRevive, Revivable;
    PreorderShape(st.es, mid.es, c);
    ValidateAllConcat(one, PreorderKids(st.es, id, n), Preorder(st.es, c), sz);
  }

  /** What `validate` does: revive the cached entry with all below it, or forget it. */
  ghost function Validated(st: St, id: VfsId, ctime: int, fileSize: Option<nat>, dirSize: Option<nat>,
                           sz: Hash -> nat): St
    requires Coherent(st, sz) && id < |st.es|
    requires Unchanged(st.es[id], ctime, fileSize, dirSize) ==> Revivable(st.es, id, sz)
  {
    if Unchanged(st.es[id], ctime, fileSize, dirSize) then
      ValidTree(st, id, sz)
    else st.(es := st.es[id := Reset(st.es[id], ctime)])
  }

  /** A file that was found: its entry after validation, put into the groups. */
  ghost function Found(st: St, id: VfsId, size: nat, phys: nat, nExtends: nat): St
    requires id < |st.es| && st.es[id].valid
  {
    var e := st.es[id].(isFile := true, fileSize := Some(size), phys := Some(phys), nExtends := Some(nExtends));
    St(st.es[id := e], PushSize(st.sizes, id, e, true, false),
       if e.fileHash.Some? then PushHash(st.hashes, id, e, true, false) else st.hashes)
  }

  ghost function Hashed(st: St, id: VfsId, hash: Hash, archive: bool): St
    requires id < |st.es| && st.es[id].valid && st.es[id].fileSize.Some?
  {
    var e := st.es[id].(fileHash := Some(hash), isDir := st.es[id].isDir || archive);
    st.(es := st.es[id := e], hashes := PushHash(st.hashes, id, e, true, false))
  }

  /** One member of an archive, after its entry was created. */
  ghost function Decoded(st: St, id: VfsId, size: nat, hash: Hash): St
    requires id < |st.es|
  {
    var e := st.es[id].(isDir := false, isFile := true, fileSize := Some(size), fileHash := Some(hash),
                        phys := None, valid := true);
    St(st.es[id := e], PushSize(st.sizes, id, e, true, false), PushHash(st.hashes, id, e, true, false))
  }

  class State {
    const tree: Vfs
    var sizes: Sizes
    var hashes: Hashes

    constructor ()
      ensures fresh(tree) && Tree(tree.entries) && sizes == map[] && hashes == map[]
    {
      tree := new Vfs();
      sizes, hashes := map[], map[];
    }

    function Snapshot(): St
      reads this, tree
    {
      St(tree.entries, sizes, hashes)
    }

    method PushToSizeGroup(id: VfsId, file: bool, dir: bool)
      requires id < |tree.entries| && CanPushSize(tree.entries[id], file, dir)
      modifies this`sizes
      ensures sizes == PushSize(old(sizes), id, tree.entries[id], file, dir)
      ensures FiledBySize(sizes, id, tree.entries[id], file, dir)
      ensures forall k, m :: InSize(old(sizes), k, m) ==> InSize(sizes, k, m)
    {
      if !tree.entries[id].unique {
        if file { sizes := InfuseSize(sizes, (File, id), tree.entries[id].fileSize.value); }
        if dir { sizes := InfuseSize(sizes, (Dir, id), tree.entries[id].dirSize.value); }
      }
    }

    /** Besides grouping, checks that equal hashes come with equal sizes. */
    method PushToHashGroup(id: VfsId, file: bool, dir: bool, ghost sz: Hash -> nat)
      requires id < |tree.entries| && CanPushHash(tree.entries[id], file, dir)
      requires (file ==> SizedFile(tree.entries[id], sz)) && (dir ==> SizedDir(tree.entries[id], sz))
      requires Sized(hashes, sz)
      modifies this`hashes
      ensures hashes == PushHash(old(hashes), id, tree.entries[id], file, dir)
      ensures Sized(hashes, sz)
    {
      var e := tree.entries[id];
      if !e.unique {
        if file {
          assert e.fileHash.value in hashes ==>
            hashes[e.fileHash.value].size == e.fileSize.value && hashes[e.fileHash.value].hash == e.fileHash.value;
          hashes := InfuseHash(hashes, (File, id), e.fileSize.value, e.fileHash.value);
        }
        if dir {
          assert e.dirHash.value in hashes ==>
            hashes[e.dirHash.value].size == e.dirSize.value && hashes[e.dirHash.value].hash == e.dirHash.value;
          hashes := InfuseHash(hashes, (Dir, id), e.dirSize.value, e.dirHash.value);
        }
      }
    }

    method MoreThanOneSize(size: nat) returns (r: bool)
      ensures r <==> NumSizes(sizes, size) > 1
    {
      r := size in sizes && |sizes[size].entries| > 1;
    }

    method NumHashes(hash: Hash) returns (n: nat)
      ensures n == CountHashes(hashes, hash)
    {
      n := if hash in hashes then |hashes[hash].entries| else 0;
    }

    method IsFileReadCandidate(id: VfsId, opts: Opts) returns (doHash: bool)
      requires id < |tree.entries|
      requires opts.isArchive(tree.entries[id].path) || tree.entries[id].fileSize.Some?
      ensures doHash <==> ReadCandidate(Snapshot(), id, opts)
      ensures var e := tree.entries[id]; doHash <==>
        if opts.isArchive(e.path) then e.isFile && (e.fileHash == None || !e.isDir)
        else
          && e.isFile && e.fileHash == None
          && e.fileSize.value in sizes && |sizes[e.fileSize.value].entries| > 1
          && opts.scanSizeMin <= e.fileSize.value <= opts.scanSizeMax
    {
      var e := tree.entries[id];
      doHash := e.fileHash == None && e.isFile;
      if !opts.isArchive(e.path) {
        var shared := MoreThanOneSize(e.fileSize.value);
        doHash := doHash && shared;
        doHash := doHash && opts.scanSizeMin <= e.fileSize.value && e.fileSize.value <= opts.scanSizeMax;
      }
      doHash := doHash || (opts.isArchive(e.path) && e.isFile && !e.isDir);
    }

    /** Revive a cached entry and everything below it. */
    method SetValid(id: VfsId, ghost sz: Hash -> nat)
      requires Coherent(Snapshot(), sz) && Revivable(tree.entries, id, sz)
      modifies this, tree
      ensures Snapshot() == ValidTree(old(Snapshot()), id, sz)
      decreases |tree.entries| - id
    {
      hide Tree, ValidateAll, ValidTree, ValidKids, Preorder, PreorderKids, SizedValid;
      ghost var st := Snapshot();
      ValidKidsStart(st, id, sz);
      tree.entries := tree.entries[id := Mark(tree.entries[id])];
      var e := tree.entries[id];
      if e.isFile {
        if e.fileSize.Some? { PushToSizeGroup(id, true, false); }
        if e.fileHash.Some? { PushToHashGroup(id, true, false, sz); }
      }
      var childs := e.childs;
      for k := 0 to |childs|
        invariant Snapshot() == ValidKids(st, id, k, sz)
      {
        ValidKidsStep(st, id, k, sz);
        assert childs[k] != id;
        SetValid(childs[k], sz);
      }
      ValidKidsEnd(st, id, sz);
    }

    /** Returns whether the cached entry was still valid. */
    method Validate(id: VfsId, ctime: int, fileSize: Option<nat>, dirSize: Option<nat>, ghost sz: Hash -> nat)
      returns (valid: bool)
      requires id < |tree.entries| && Coherent(Snapshot(), sz)
      requires Unchanged(tree.entries[id], ctime, fileSize, dirSize) ==> Revivable(tree.entries, id, sz)
      modifies this, tree
      ensures var e := old(tree.entries)[id]; valid <==>
        && e.ctime == Some(ctime)
        && (fileSize == None || e.fileSize == fileSize) && (dirSize == None || e.dirSize == dirSize)
      ensures var e := old(tree.entries)[id]; !valid ==>
        && tree.entries == old(tree.entries)[id := e.(fileSize := None, fileHash := None, dirSize := None,
             dirHash := None, phys := Some(0), nExtends := None, ctime := Some(ctime), valid := true)]
        && sizes == old(sizes) && hashes == old(hashes)
      ensures Snapshot() == Validated(old(Snapshot()), id, ctime, fileSize, dirSize, sz)
    {
      valid := tree.entries[id].ctime == Some(ctime);
      if fileSize.Some? { valid := valid && tree.entries[id].fileSize == fileSize; }
      if dirSize.Some? { valid := valid && tree.entries[id].dirSize == dirSize; }
      if valid {
        SetValid(id, sz);
      } else {
        tree.entries := tree.entries[id := Reset(tree.entries[id], ctime)];
      }
    }

    /** Pass 1 for one file that was found on disk. `made` is the arena right after the path
        was looked up or created. */
    method SizeFile(path: Path, size: nat, ctime: int, phys: nat, nExtends: nat, ghost sz: Hash -> nat)
      returns (id: VfsId, ghost made: Arena)
      requires Canonical(path) && Coherent(Snapshot(), sz)
      requires forall i: VfsId :: At(tree.entries, path, i) && Unchanged(tree.entries[i], ctime, Some(size), None) ==>
        Revivable(tree.entries, i, sz) && SizedFile(tree.entries[i], sz)
      modifies this, tree
      ensures Created(old(tree.entries), path, made, id)
      ensures CanSize(St(made, old(sizes), old(hashes)), id, size, ctime, sz)
      ensures SizeStep(St(made, old(sizes), old(hashes)), id, size, ctime, phys, nExtends, sz, Snapshot())
    {
      id := tree.CidAndCreate(path);
      made := tree.entries;
      CreatedSized(old(tree.entries), path, made, id, sz);
      CreatedRevivable(old(tree.entries), path, made, id, size, ctime, sz);
      var hit := Validate(id, ctime, Some(size), None, sz);
      ghost var mid := Snapshot();
      ValidatedEntry(St(made, old(sizes), old(hashes)), id, ctime, size, sz);
      tree.entries := tree.entries[id := tree.entries[id].(
        isFile := true, fileSize := Some(size), phys := Some(phys), nExtends := Some(nExtends))];
      PushToSizeGroup(id, true, false);
      if tree.entries[id].fileHash.Some? {
        PushToHashGroup(id, true, false, sz);
      }
    }

    /** A candidate was read: store its hash. */
    method CommitHash(id: VfsId, hash: Hash, opts: Opts, ghost sz: Hash -> nat)
      requires id < |tree.entries| && Sized(hashes, sz)
      requires tree.entries[id].valid && tree.entries[id].fileSize == Some(sz(hash))
      modifies this, tree
      ensures Snapshot() == Hashed(old(Snapshot()), id, hash, opts.isArchive(old(tree.entries)[id].path))
    {
      hide Sized, PushHash;
      tree.entries := tree.entries[id := tree.entries[id].(fileHash := Some(hash))];
      if opts.isArchive(tree.entries[id].path) {
        tree.entries := tree.entries[id := tree.entries[id].(isDir := true)];
      }
      PushToHashGroup(id, true, false, sz);
    }

    /** One regular file found inside an archive. A member that is a directory panics. */
    method DecodeMember(path: Path, size: nat, hash: Hash, ghost sz: Hash -> nat)
      returns (id: VfsId, ghost made: Arena)
      requires Canonical(path) && Coherent(Snapshot(), sz) && size == sz(hash)
      requires forall i: VfsId :: At(tree.entries, path, i) ==> !tree.entries[i].isDir
      modifies this, tree
      ensures Created(old(tree.entries), path, made, id)
      ensures Snapshot() == Decoded(St(made, old(sizes), old(hashes)), id, size, hash)
    {
      id := tree.CidAndCreate(path);
      made := tree.entries;
      CreatedSized(old(tree.entries), path, made, id, sz);
      CreatedTarget(old(tree.entries), path, made, id);
      assert !tree.entries[id].isDir;
      tree.entries := tree.entries[id := tree.entries[id].(
        isDir := false, isFile := true, fileSize := Some(size), fileHash := Some(hash), phys := None, valid := true)];
      PushToSizeGroup(id, true, false);
      PushToHashGroup(id, true, false, sz);
    }
  }

  /** The state in which the entry of a file found may be sized. */
  ghost predicate CanSize(st: St, id: VfsId, size: nat, ctime: int, sz: Hash -> nat) {
    && Coherent(st, sz) && id < |st.es|
    && (Unchanged(st.es[id], ctime, Some(size), None) ==> Revivable(st.es, id, sz) && SizedFile(st.es[id], sz))
  }

  /** Pass 1 for one file: validate the entry, then put it into the groups. */
  ghost predicate SizeStep(st: St, id: VfsId, size: nat, ctime: int, phys: nat, nExtends: nat, sz: Hash -> nat, st': St)
    requires CanSize(st, id, size, ctime, sz)
  {
    var mid := Validated(st, id, ctime, Some(size), None, sz);
    id < |mid.es| && mid.es[id].valid && st' == Found(mid, id, size, phys, nExtends)
  }

  /** A file found: its entry and the groups it is in then. */
  lemma {:induction false} FoundMeans(st: St, id: VfsId, size: nat, phys: nat, nExtends: nat)
    requires id < |st.es| && st.es[id].valid
    ensures var e, r := st.es[id], Found(st, id, size, phys, nExtends);
      && r.es == st.es[id := e.(isFile := true, fileSize := Some(size), phys := Some(phys), nExtends := Some(nExtends))]
      && (!e.unique ==> InSize(r.sizes, size, (File, id)))
      && (!e.unique && e.fileHash.Some? ==> InHash(r.hashes, e.fileHash.value, id))
  {
    var e := st.es[id];
    if !e.unique && e.fileHash.Some? { Infused(st.hashes, (File, id), size, e.fileHash.value); }
  }

  lemma {:induction false} Infused(hashes: Hashes, m: Member, size: nat, hash: Hash)
    ensures InHash(InfuseHash(hashes, m, size, hash), hash, m.1)
  {
    var r := InfuseHash(hashes, m, size, hash);
    if hash !in hashes || !HasId(hashes[hash].entries, m.1) { assert r[hash].entries[|r[hash].entries| - 1] == m; }
  }

  /** A hash stored: the entry, which an archive's turns into a directory, too, and its group. */
  lemma {:induction false} HashedMeans(st: St, id: VfsId, hash: Hash, archive: bool)
    requires id < |st.es| && st.es[id].valid && st.es[id].fileSize.Some?
    ensures var e, r := st.es[id], Hashed(st, id, hash, archive);
      && r.es == st.es[id := e.(fileHash := Some(hash), isDir := e.isDir || archive)] && r.sizes == st.sizes
      && (!e.unique ==> InHash(r.hashes, hash, id))
  {
    Infused(st.hashes, (File, id), st.es[id].fileSize.value, hash);
  }

  /** A member of an archive: its entry and its groups. */
  lemma {:induction false} DecodedMeans(st: St, id: VfsId, size: nat, hash: Hash)
    requires id < |st.es|
    ensures var e, r := st.es[id], Decoded(st, id, size, hash);
      && r.es == st.es[id := e.(isDir := false, isFile := true, fileSize := Some(size), fileHash := Some(hash),
                                phys := None, valid := true)]
      && (!e.unique ==> InSize(r.sizes, size, (File, id)) && InHash(r.hashes, hash, id))
  {
    Infused(st.hashes, (File, id), size, hash);
  }

  lemma {:induction false} CreatedSized(es: Arena, path: Path, es': Arena, id: VfsId, sz: Hash -> nat)
    requires Created(es, path, es', id) && SizedValid(es, sz)
    ensures SizedValid(es', sz)
  {
    forall i | 0 <= i < |es'| && es'[i].valid
      ensures SizedEntry(es'[i], sz)
    {
      assert i >= |es| ==> FreshEntry(path, es'[i]);
      assert KeptEntry(es[i], path, es'[i]);
    }
  }

  /** Creating a path leaves what can be revived below it as it was. */
  lemma {:induction false} CreatedRevivable(es: Arena, path: Path, es': Arena, id: VfsId, size: nat, ctime: int,
                                            sz: Hash -> nat)
    requires Tree(es) && Created(es, path, es', id)
    requires forall i: VfsId :: At(es, path, i) && Unchanged(es[i], ctime, Some(size), None) ==>
      Revivable(es, i, sz) && SizedFile(es[i], sz)
    ensures Unchanged(es'[id], ctime, Some(size), None) ==> Revivable(es', id, sz) && SizedFile(es'[id], sz)
  {
    CreatedTarget(es, path, es', id);
    if Unchanged(es'[id], ctime, Some(size), None) {
      assert At(es, path, id);
      forall i | 0 <= i < |es'| && es'[id].path <= es'[i].path
        ensures Fit(es'[i], sz)
      {
        if i < |es| { assert KeptEntry(es[i], path, es'[i]); } else { assert FreshEntry(path, es'[i]); }
      }
    }
  }

  /** The entry of the created path is as it was, or new. */
  lemma {:induction false} CreatedTarget(es: Arena, path: Path, es': Arena, id: VfsId)
    requires Tree(es) && Created(es, path, es', id)
    ensures if id < |es| then At(es, path, id) && es'[id] == es[id].(childs := es'[id].childs)
            else es'[id] == NewEntry(path).(childs := es'[id].childs)
  {
    if id < |es| {
      assert KeptEntry(es[id], path, es'[id]);
    } else {
      assert FreshEntry(path, es'[id]);
    }
  }

  /** After validation the entry is valid and, when it has a hash, has the size asked for. */
  lemma {:induction false} ValidatedEntry(st: St, id: VfsId, ctime: int, size: nat, sz: Hash -> nat)
    requires CanSize(st, id, size, ctime, sz)
    ensures var r := Validated(st, id, ctime, Some(size), None, sz);
      && id < |r.es| && r.es[id].valid && Sized(r.hashes, sz)
      && SizedFile(r.es[id].(fileSize := Some(size)), sz) && SizedDir(r.es[id], sz)
  {
    if Unchanged(st.es[id], ctime, Some(size), None) {
      PreorderFits(st.es, id, sz);
      PreorderIsSubtree(st.es, id, id);
      ValidateAllEntry(st, Preorder(st.es, id), id, sz);
    }
  }

  /** Validation marks the listed entries and changes nothing else in the arena. */
  lemma {:induction false} ValidateAllEntry(st: St, ids: seq<VfsId>, n: VfsId, sz: Hash -> nat)
    requires SizedValid(st.es, sz) && Sized(st.hashes, sz) && CanRevive(st.es, ids, sz) && n < |st.es|
    ensures ValidateAll(st, ids, sz).es[n] == if n in ids then Mark(st.es[n]) else st.es[n]
    decreases |ids|
  {
    if ids != [] {
      ValidateAllEntry(ValidateOne(st, ids[0]), ids[1..], n, sz);
    }
  }

  /** A hit makes all that is stored at and below the path valid, and what it was when it was stored. */
  lemma {:induction false} HitMeans(st: St, id: VfsId, ctime: int, size: nat, sz: Hash -> nat, n: VfsId)
    requires CanSize(st, id, size, ctime, sz) && n < |st.es|
    requires st.es[id].ctime == Some(ctime) && st.es[id].fileSize == Some(size)
    ensures Validated(st, id, ctime, Some(size), None, sz).es[n] ==
      if !(st.es[id].path <= st.es[n].path) then st.es[n]
      else st.es[n].(valid := true, isFile := st.es[n].isFile || st.es[n].wasFile,
                     isDir := st.es[n].isDir || st.es[n].wasDir)
  {
    PreorderFits(st.es, id, sz);
    PreorderIsSubtree(st.es, id, n);
    hide ValidateAll, Preorder, Tree, SizedValid, CanRevive;
    ValidateAllEntry(st, Preorder(st.es, id), n, sz);
  }

  lemma {:induction false} ValidKidsEnd(st: St, id: VfsId, sz: Hash -> nat)
    requires Coherent(st, sz) && Revivable(st.es, id, sz)
    ensures ValidKids(st, id, |st.es[id].childs|, sz) == ValidTree(st, id, sz)
  {
    var kids := PreorderKids(st.es, id, |st.es[id].childs|);
    PreorderFits(st.es, id, sz);
    assert ([id] + kids)[1..] == kids;
  }
}
