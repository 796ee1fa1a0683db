/** Selective hashing loses no duplicate: although only files of shared size are read, equal
    directories get equal hashes and end up in one group. */
module Selective {
  import opened Basics
  import opened Arenas
  import opened States
  import opened Index
  import opened Scans
  import opened ScanIndex
  import opened ScanTree
  import opened DirHashes
  import opened DirMeaning
  import opened DirIndex
  import opened Twins

  // ----- the hashes of scanned files are those of their contents

  /** Sizes and hashes seen by the scan are those of the contents on disk; so are the hashes of
      cached entries that pass validation. */
  ghost predicate Honest(H: Hasher, content: Path -> Bytes, s: Scan, e: Event, s': Scan) {
    match e
    case Size(path, size, _, _, _, _, id) =>
      && size == |content(path)|
      && (id < |s'.st.es| && s'.st.es[id].fileHash.Some? ==> s'.st.es[id].fileHash.value == H(content(path)))
    case Commit(hash) =>
      s.queue != [] && s.queue[0] < |s.st.es| ==> hash == H(content(s.st.es[s.queue[0]].path))
    case Filter => true
    case Skip => true
    case Decode(_, _, _, _, _) => true
    case EndPass(_) => true
  }

  ghost predicate HonestRun(cfg: Config, H: Hasher, content: Path -> Bytes, tr: seq<Scan>, evs: seq<Event>) {
    CarefulRun(cfg, tr, evs) && forall i :: 0 <= i < |evs| ==> Honest(H, content, tr[i], evs[i], tr[i + 1])
  }

  /** The stored size and hash of a scanned file are those of its content. */
  ghost predicate Truthful(H: Hasher, content: Path -> Bytes, es: Arena, id: VfsId) {
    && id < |es| && es[id].fileSize == Some(|content(es[id].path)|)
    && (es[id].fileHash.Some? ==> es[id].fileHash.value == H(content(es[id].path)))
  }

  ghost predicate DestTruthful(H: Hasher, content: Path -> Bytes, s: Scan) {
    forall k :: 0 <= k < |s.dest| ==> Truthful(H, content, s.st.es, s.dest[k])
  }

  lemma {:induction false} SizeKeepsTruth(cfg: Config, H: Hasher, content: Path -> Bytes, s: Scan, e: Event, s': Scan,
                                          k: nat)
    requires DestTruthful(H, content, s) && e.Size? && SizeEvent(cfg, s, e, s') && Honest(H, content, s, e, s')
    requires k < |s'.dest|
    ensures Truthful(H, content, s'.st.es, s'.dest[k])
  {
    var id := s'.dest[k];
    SizeEventSizes(cfg, s, e, s');
    if id != e.id {
      assert Truthful(H, content, s.st.es, s.dest[k]);
      SizeEventGrows(cfg, s, e, s', id);
    } else {
      SizeArena(cfg, s, e, s', id);
    }
  }

  lemma {:induction false} StepKeepsTruth(cfg: Config, H: Hasher, content: Path -> Bytes, s: Scan, e: Event, s': Scan)
    requires ScanInv(cfg, s) && DestTruthful(H, content, s)
    requires Step(cfg, s, e, s') && Careful(s, e) && Honest(H, content, s, e, s')
    ensures DestTruthful(H, content, s')
  {
    forall k | 0 <= k < |s'.dest|
      ensures Truthful(H, content, s'.st.es, s'.dest[k])
    {
      var id := s'.dest[k];
      match e
      case Size(_, _, _, _, _, _, _) => SizeKeepsTruth(cfg, H, content, s, e, s', k);
      case Filter => assert Truthful(H, content, s.st.es, s.dest[k]);
      case Skip => assert Truthful(H, content, s.st.es, s.dest[k]);
      case Commit(_) => assert Truthful(H, content, s.st.es, s.dest[k]);
      case Decode(_, _, _, _, _) =>
        assert Truthful(H, content, s.st.es, s.dest[k]);
        assert KeptEntry(s.st.es[id], e.path, e.made[id]);
      case EndPass(_) =>
        assert id in multiset(s'.dest);
        assert id in s.dest;
        var j :| 0 <= j < |s.dest| && s.dest[j] == id;
        assert Truthful(H, content, s.st.es, s.dest[j]);
    }
  }

  lemma {:induction false} RunTruthful(cfg: Config, H: Hasher, content: Path -> Bytes, tr: seq<Scan>, evs: seq<Event>,
                                       n: nat)
    requires HonestRun(cfg, H, content, tr, evs) && n < |tr|
    ensures DestTruthful(H, content, tr[n])
  {
    if n > 0 {
      RunTruthful(cfg, H, content, tr, evs, n - 1);
      RunKeeps(cfg, tr, evs, n - 1);
      assert Step(cfg, tr[n - 1], evs[n - 1], tr[n]) && Careful(tr[n - 1], evs[n - 1]);
      assert Honest(H, content, tr[n - 1], evs[n - 1], tr[n]);
      StepKeepsTruth(cfg, H, content, tr[n - 1], evs[n - 1], tr[n]);
    }
  }

  // ----- twins

  ghost function SameContent(es: Arena, content: Path -> Bytes): (VfsId, VfsId) -> bool {
    (x: VfsId, y: VfsId) => x < |es| && y < |es| && content(es[x].path) == content(es[y].path)
  }

  /** The walk from `a` to a leaf enters a child that `b` has, too. */
  lemma {:induction false} TwinKid(es: Arena, a: VfsId, b: VfsId, eq: (VfsId, VfsId) -> bool, x: VfsId)
    returns (j: nat, k: nat)
    requires Tree(es) && a < |es| && b < |es| && Same(es, a, es, b, eq) && Reached(es, a, x) && x != a
    ensures es[a].isDir && es[b].isDir && j < |es[a].childs| && k < |es[b].childs|
    ensures SameKid(es, a, j, es, b, k, eq) && Via(es, a, j, x)
  {
    ReachedThrough(es, a, x);
    j :| 0 <= j < |es[a].childs| && Via(es, a, j, x);
    assert Present(es, es[a].childs[j]);
    k :| 0 <= k < |es[b].childs| && SameKid(es, a, j, es, b, k, eq);
  }

  lemma {:induction false} TwinPaths(es: Arena, a: VfsId, j: nat, b: VfsId, k: nat, eq: (VfsId, VfsId) -> bool,
                                     x: VfsId, y: VfsId, q: Path)
    returns (r: Path)
    requires Tree(es) && a < |es| && b < |es| && es[b].isDir
    requires j < |es[a].childs| && k < |es[b].childs| && SameKid(es, a, j, es, b, k, eq)
    requires x < |es| && y < |es| && Reached(es, es[b].childs[k], y)
    requires es[x].path == es[es[a].childs[j]].path + q && es[y].path == es[es[b].childs[k]].path + q
    ensures es[x].path == es[a].path + r && es[y].path == es[b].path + r
    ensures Reached(es, b, y)
  {
    r := [es[es[a].childs[j]].plc] + q;
    assert Via(es, b, k, y);
    ViaReaches(es, b, k, y);
  }

  /** Every leaf below `a` has a twin at the same relative path below `b`. */
  lemma {:induction false} TwinLeaf(es: Arena, a: VfsId, b: VfsId, eq: (VfsId, VfsId) -> bool, x: VfsId)
    returns (y: VfsId, r: Path)
    requires Tree(es) && a < |es| && b < |es| && Same(es, a, es, b, eq) && Reached(es, a, x) && Leaf(es[x])
    ensures Reached(es, b, y) && Leaf(es[y]) && eq(x, y)
    ensures es[x].path == es[a].path + r && es[y].path == es[b].path + r
    decreases |es| - a
  {
    if x == a {
      ReachedThrough(es, b, b);
      y, r := b, [];
    } else {
      hide Tree, Reached;
      var j, k := TwinKid(es, a, b, eq, x);
      var q;
      y, q := TwinLeaf(es, es[a].childs[j], es[b].childs[k], eq, x);
      r := TwinPaths(es, a, j, b, k, eq, x, y, q);
    }
  }

  lemma {:induction false} SameSym(es: Arena, a: VfsId, b: VfsId, eq: (VfsId, VfsId) -> bool)
    requires Tree(es) && a < |es| && b < |es| && Same(es, a, es, b, eq)
    requires forall x, y :: eq(x, y) ==> eq(y, x)
    ensures Same(es, b, es, a, eq)
    decreases |es| - a
  {
    if es[a].isDir {
      forall j, k | 0 <= j < |es[a].childs| && 0 <= k < |es[b].childs| && SameKid(es, a, j, es, b, k, eq)
        ensures SameKid(es, b, k, es, a, j, eq)
      {
        SameSym(es, es[a].childs[j], es[b].childs[k], eq);
      }
    }
  }

  // ----- all leaves of two equal directories are hashed

  /** At the end of a scan without archives or size limits, the files below the two directories
      are all scanned files. */
  ghost predicate PlainScan(cfg: Config, s: Scan) {
    && (forall p :: !cfg.opts.isArchive(p))
    && (forall k :: 0 <= k < |s.dest| && s.dest[k] < |s.st.es| && s.st.es[s.dest[k]].fileSize.Some? ==>
          cfg.opts.scanSizeMin <= s.st.es[s.dest[k]].fileSize.value <= cfg.opts.scanSizeMax)
  }

  ghost predicate LeavesScanned(s: Scan, id: VfsId) {
    && NoArchives(s.st.es, id)
    && forall n: VfsId :: Reached(s.st.es, id, n) && Leaf(s.st.es[n]) ==> n in s.dest
  }

  /** Two scanned files of equal content share their size group. */
  lemma {:induction false} TwinsShareSize(cfg: Config, H: Hasher, content: Path -> Bytes, s: Scan, x: VfsId, y: VfsId)
    requires ScanInv(cfg, s) && IndexInv(cfg, s) && DestTruthful(H, content, s) && PlainScan(cfg, s)
    requires x in s.dest && y in s.dest && x != y && x < |s.st.es| && y < |s.st.es|
    requires content(s.st.es[x].path) == content(s.st.es[y].path)
    ensures Filterable(s.st, x) && Shared(cfg.opts, s.st, x)
  {
    var i :| 0 <= i < |s.dest| && s.dest[i] == x;
    var j :| 0 <= j < |s.dest| && s.dest[j] == y;
    assert FileInv(cfg, s, s.dest[i]) && FileInv(cfg, s, s.dest[j]);
    assert Truthful(H, content, s.st.es, s.dest[i]) && Truthful(H, content, s.st.es, s.dest[j]);
    TwoMembers(s.st, x, y);
  }

  lemma {:induction false} TwoMembers(st: St, x: VfsId, y: VfsId)
    requires SizeInv(st) && x < |st.es| && y < |st.es| && x != y
    requires st.es[x].isFile && st.es[y].isFile && !st.es[x].unique && !st.es[y].unique
    requires st.es[x].fileSize.Some? && st.es[x].fileSize == st.es[y].fileSize
    ensures NumSizes(st.sizes, st.es[x].fileSize.value) > 1
  {
    assert SizeIndexed(st.es[x], x, st.sizes) && SizeIndexed(st.es[y], y, st.sizes);
    var g := st.sizes[st.es[x].fileSize.value].entries;
    var i :| 0 <= i < |g| && g[i] == (File, x);
    var j :| 0 <= j < |g| && g[j] == (File, y);
  }

  lemma {:induction false} LeafHashed(cfg: Config, H: Hasher, content: Path -> Bytes, tr: seq<Scan>, evs: seq<Event>,
                                      n: nat, a: VfsId, b: VfsId, x: VfsId)
    requires HonestRun(cfg, H, content, tr, evs) && n < |tr| && tr[n].pass == Done && PlainScan(cfg, tr[n])
    requires ScanInv(cfg, tr[n]) && IndexInv(cfg, tr[n]) && DestTruthful(H, content, tr[n])
    requires a < |tr[n].st.es| && b < |tr[n].st.es| && a != b
    requires Same(tr[n].st.es, a, tr[n].st.es, b, SameContent(tr[n].st.es, content))
    requires LeavesScanned(tr[n], a) && LeavesScanned(tr[n], b)
    requires Reached(tr[n].st.es, a, x) && Leaf(tr[n].st.es[x]) && x !in tr[n].unread
    ensures tr[n].st.es[x].fileHash == Some(H(content(tr[n].st.es[x].path)))
    ensures tr[n].st.es[x].fileSize == Some(|content(tr[n].st.es[x].path)|)
  {
    var es := tr[n].st.es;
    var y, r := TwinLeaf(es, a, b, SameContent(es, content), x);
    if x == y {
      assert es[a].path == es[x].path[..|es[x].path| - |r|] == es[b].path;
      PathsUnique(es, a, b);
    }
    TwinsShareSize(cfg, H, content, tr[n], x, y);
    ThreePassCompleteness(cfg, tr, evs, n, x);
    var i :| 0 <= i < |tr[n].dest| && tr[n].dest[i] == x;
    assert Truthful(H, content, es, tr[n].dest[i]);
  }

  // ----- what a scan without archives leaves behind

  /** All files found on disk are within the size limits. */
  ghost predicate InLimits(cfg: Config, content: Path -> Bytes, sized: set<Path>) {
    forall p :: p in sized ==> cfg.opts.scanSizeMin <= |content(p)| <= cfg.opts.scanSizeMax
  }

  /** The walk does not go on below a scanned file. */
  lemma {:induction false} FileBlocks(s: Scan, hits: set<Path>, a: VfsId, n: VfsId, h: Path)
    requires PlainInv(s, hits) && h in s.sized && a < |s.st.es| && n < |s.st.es|
    requires s.st.es[a].path <= h < s.st.es[n].path
    ensures !Reached(s.st.es, a, n)
  {
    assert InDest(s, h);
    var k :| 0 <= k < |s.dest| && At(s.st.es, h, s.dest[k]);
    OnDiskIsPlain(s, hits, s.dest[k]);
    NotBelowHit(s, hits, h);
  }

  /** Below a directory on the disk the walk stays on the disk. */
  lemma {:induction false} ReachedOnDisk(s: Scan, hits: set<Path>, a: VfsId, n: VfsId)
    requires PlainInv(s, hits) && Reached(s.st.es, a, n) && OnDisk(s.sized, s.st.es[a].path)
    ensures OnDisk(s.sized, s.st.es[n].path)
  {
    var p, q := s.st.es[a].path, s.st.es[n].path;
    if n != a && !OnDisk(s.sized, q) {
      assert EntryInv(s, hits, n);
      NotBelowHit(s, hits, p);
      hide Reached, Tree, EntryInv, InDest, NoHitDirs;
      var h :| h in hits && h < q;
      PrefixesMeet(h, p, q);
      FileBlocks(s, hits, a, n, h);
    }
  }

  /** Every existing leaf below a directory on the disk is a scanned file. */
  lemma {:induction false} PlainLeaves(s: Scan, hits: set<Path>, id: VfsId)
    requires PlainInv(s, hits) && id < |s.st.es| && OnDisk(s.sized, s.st.es[id].path)
    ensures LeavesScanned(s, id)
  {
    forall n: VfsId | Reached(s.st.es, id, n)
      ensures !(s.st.es[n].isFile && s.st.es[n].isDir) && (Leaf(s.st.es[n]) ==> n in s.dest)
    {
      ReachedOnDisk(s, hits, id, n);
      OnDiskIsPlain(s, hits, n);
      if Leaf(s.st.es[n]) { StoredInDest(s, hits, n); }
    }
  }

  lemma {:induction false} StoredInDest(s: Scan, hits: set<Path>, n: VfsId)
    requires PlainInv(s, hits) && n < |s.st.es| && s.st.es[n].path in s.sized
    ensures n in s.dest
  {
    assert InDest(s, s.st.es[n].path);
    var k :| 0 <= k < |s.dest| && At(s.st.es, s.st.es[n].path, s.dest[k]);
    PathsUnique(s.st.es, n, s.dest[k]);
  }

  /** Every directory on the disk is reached from the root. */
  lemma {:induction false} PlainReached(s: Scan, hits: set<Path>, id: VfsId)
    requires PlainInv(s, hits) && id < |s.st.es| && AboveSized(s.sized, s.st.es[id].path)
    ensures Reached(s.st.es, ROOT, id)
  {
    assert EntryInv(s, hits, id);
    var q :| q in s.sized && s.st.es[id].path < q;
    forall m | 0 <= m < |s.st.es| && s.st.es[m].path < s.st.es[id].path
      ensures s.st.es[m].isDir
    {
      assert EntryInv(s, hits, m);
      assert s.st.es[m].path < q;
    }
  }

  /** Without a file found, nothing exists. */
  lemma {:induction false} RootOnDisk(s: Scan, hits: set<Path>)
    requires PlainInv(s, hits)
    ensures OnDisk(s.sized, []) || forall i :: 0 <= i < |s.st.es| ==> !s.st.es[i].Exists()
  {
    if s.sized == {} {
      forall i | 0 <= i < |s.st.es|
        ensures !s.st.es[i].Exists()
      {
        assert EntryInv(s, hits, i);
      }
    } else {
      var q :| q in s.sized;
      assert q == [] || [] < q;
    }
  }

  /** Of nothing the walk from the root comes to the code unwraps what is not there. */
  lemma {:induction false} PlainUnwraps(s: Scan, hits: set<Path>)
    requires PlainInv(s, hits)
    ensures Unwraps(s.st.es, ROOT)
  {
    RootOnDisk(s, hits);
    if OnDisk(s.sized, []) {
      forall n | 0 <= n < |s.st.es| && Reached(s.st.es, ROOT, n)
        ensures HashableEntry(s.st.es[n])
      {
        ReachedOnDisk(s, hits, ROOT, n);
        OnDiskIsPlain(s, hits, n);
        assert EntryInv(s, hits, n);
      }
    }
  }

  lemma {:induction false} PlainIsPlain(cfg: Config, H: Hasher, content: Path -> Bytes, s: Scan)
    requires ScanInv(cfg, s) && DestSized(s) && DestTruthful(H, content, s) && InLimits(cfg, content, s.sized)
    requires forall p :: !cfg.opts.isArchive(p)
    ensures PlainScan(cfg, s)
  {
    forall k | 0 <= k < |s.dest|
      ensures s.dest[k] < |s.st.es| && s.st.es[s.dest[k]].fileSize.Some?
      ensures cfg.opts.scanSizeMin <= s.st.es[s.dest[k]].fileSize.value <= cfg.opts.scanSizeMax
    {
      assert FileInv(cfg, s, s.dest[k]);
      assert Truthful(H, content, s.st.es, s.dest[k]);
      assert EntrySized(s, s.dest[k]);
    }
  }

  /** A scan without archives, on disk or among the unchanged files, of files within the limits, all of
      which the last pass could read. */
  ghost predicate PlainHonestRun(cfg: Config, H: Hasher, content: Path -> Bytes, tr: seq<Scan>, evs: seq<Event>, n: nat)
  {
    && HonestRun(cfg, H, content, tr, evs) && PlainRun(cfg, tr, evs) && HitsArePlain(evs)
    && n < |tr| && InLimits(cfg, content, tr[n].sized) && tr[n].unread == {}
  }

  /** What is known along such a run. */
  lemma {:induction false} PlainEnd(cfg: Config, H: Hasher, content: Path -> Bytes, tr: seq<Scan>, evs: seq<Event>,
                                    n: nat)
    requires PlainHonestRun(cfg, H, content, tr, evs, n)
    ensures ScanInv(cfg, tr[n]) && IndexInv(cfg, tr[n]) && DestTruthful(H, content, tr[n])
    ensures PlainInv(tr[n], Hits(evs[..n])) && PlainScan(cfg, tr[n])
  {
    hide ScanInv, DestTruthful, DestSized, TreeInv, NoHitDirs, PlainScan, InLimits, HitsArePlain, Careful, Honest, Step;
    RunKeeps(cfg, tr, evs, n);
    HashIndexAgreement(cfg, tr, evs, n);
    RunTruthful(cfg, H, content, tr, evs, n);
    RunKeepsTree(cfg, tr, evs, n);
    RunKeepsHitDirs(cfg, tr, evs, n);
    RunDestSized(cfg, tr, evs, n);
    PlainIsPlain(cfg, H, content, tr[n]);
  }

  /** Two different directories on the disk that head the same tree. */
  ghost predicate DiskTwins(s: Scan, content: Path -> Bytes, a: VfsId, b: VfsId)
    requires Tree(s.st.es)
  {
    && a < |s.st.es| && b < |s.st.es| && a != b
    && AboveSized(s.sized, s.st.es[a].path) && AboveSized(s.sized, s.st.es[b].path)
    && Same(s.st.es, a, s.st.es, b, SameContent(s.st.es, content))
  }

  /** Size and hash of all leaves below the directory are those of their contents. */
  ghost predicate LeavesKnown(H: Hasher, content: Path -> Bytes, es: Arena, a: VfsId) {
    forall x: VfsId :: Reached(es, a, x) && Leaf(es[x]) ==> KnownLeaf(H, content, es[x])
  }

  ghost predicate KnownLeaf(H: Hasher, content: Path -> Bytes, e: VfsEntry) {
    e.fileHash == Some(H(content(e.path))) && e.fileSize == Some(|content(e.path)|)
  }

  lemma {:induction false} AllLeavesHashed(cfg: Config, H: Hasher, content: Path -> Bytes, tr: seq<Scan>,
                                           evs: seq<Event>, n: nat, a: VfsId, b: VfsId)
    requires PlainHonestRun(cfg, H, content, tr, evs, n) && tr[n].pass == Done
    requires Tree(tr[n].st.es) && DiskTwins(tr[n], content, a, b)
    ensures NoArchives(tr[n].st.es, a) && LeavesKnown(H, content, tr[n].st.es, a)
  {
    var es := tr[n].st.es;
    PlainEnd(cfg, H, content, tr, evs, n);
    PlainLeaves(tr[n], Hits(evs[..n]), a);
    PlainLeaves(tr[n], Hits(evs[..n]), b);
    hide InLimits, PlainInv, ScanInv, DestTruthful, PlainScan, IndexInv, PlainRun, HonestRun, Same, AboveSized;
    forall x: VfsId | Reached(es, a, x) && Leaf(es[x])
      ensures KnownLeaf(H, content, es[x])
    {
      LeafHashed(cfg, H, content, tr, evs, n, a, b, x);
    }
  }

  lemma {:induction false} TwinsSym(s: Scan, content: Path -> Bytes, a: VfsId, b: VfsId)
    requires Tree(s.st.es) && DiskTwins(s, content, a, b)
    ensures DiskTwins(s, content, b, a)
  {
    SameSym(s.st.es, a, b, SameContent(s.st.es, content));
  }

  lemma {:induction false} DirsOnDisk(cfg: Config, H: Hasher, content: Path -> Bytes, tr: seq<Scan>, evs: seq<Event>,
                                      n: nat, a: VfsId, b: VfsId)
    requires PlainHonestRun(cfg, H, content, tr, evs, n)
    requires Tree(tr[n].st.es) && DiskTwins(tr[n], content, a, b)
    ensures tr[n].st.es[a].isDir && tr[n].st.es[b].isDir
  {
    PlainEnd(cfg, H, content, tr, evs, n);
    OnDiskIsPlain(tr[n], Hits(evs[..n]), a);
    OnDiskIsPlain(tr[n], Hits(evs[..n]), b);
  }

  lemma {:induction false} KnownTwinsAgree(H: Hasher, content: Path -> Bytes, es: Arena, a: VfsId, b: VfsId)
    requires NoArchives(es, a) && LeavesKnown(H, content, es, a)
    requires NoArchives(es, b) && LeavesKnown(H, content, es, b)
    ensures LeavesHashed(es, a) && LeavesAgree(es, a, es, b, SameContent(es, content))
  {
    hide Reached;
  }

  /** After a scan without archives and within the size limits, two distinct directories with the
      same tree of names and contents both have a hash, and it is the same one. */
  lemma {:induction false} SelectiveHashing(cfg: Config, H: Hasher, content: Path -> Bytes, tr: seq<Scan>,
                                            evs: seq<Event>, n: nat, a: VfsId, b: VfsId)
    requires PlainHonestRun(cfg, H, content, tr, evs, n) && tr[n].pass == Done
    requires Tree(tr[n].st.es) && DiskTwins(tr[n], content, a, b)
    ensures DirProps(H, tr[n].st.es, a).Some? && DirProps(H, tr[n].st.es, a) == DirProps(H, tr[n].st.es, b)
    ensures tr[n].st.es[a].isDir && tr[n].st.es[b].isDir
  {
    var es, eq := tr[n].st.es, SameContent(tr[n].st.es, content);
    AllLeavesHashed(cfg, H, content, tr, evs, n, a, b);
    DirsOnDisk(cfg, H, content, tr, evs, n, a, b);
    TwinsSym(tr[n], content, a, b);
    hide HonestRun, PlainRun, HitsArePlain, InLimits, Tree, AboveSized, Same, NoArchives, LeavesKnown;
    AllLeavesHashed(cfg, H, content, tr, evs, n, b, a);
    KnownTwinsAgree(H, content, es, a, b);
    SucceedsIff(H, es, a);
    SameTreesSameHash(H, es, a, es, b, eq);
  }

  /** Selective hashing loses no duplicate directory: after the scan and the walk from the root,
      both directories carry one hash and are members of its group. */
  lemma {:induction false} EqualDirsShareGroup(cfg: Config, H: Hasher, content: Path -> Bytes, tr: seq<Scan>,
                                               evs: seq<Event>, n: nat, a: VfsId, b: VfsId)
    requires PlainHonestRun(cfg, H, content, tr, evs, n) && tr[n].pass == Done
    requires Tree(tr[n].st.es) && DiskTwins(tr[n], content, a, b)
    requires DirsSized(H, tr[n].st.es, ROOT, cfg.sz)
    ensures var r := DirTree(H, tr[n].st.es, tr[n].st, ROOT);
      && r.es[a].dirHash.Some? && r.es[a].dirHash == r.es[b].dirHash
      && InHash(r.hashes, r.es[a].dirHash.value, a) && InHash(r.hashes, r.es[a].dirHash.value, b)
      && CountHashes(r.hashes, r.es[a].dirHash.value) > 1
  {
    assert n <= |evs|;
    hide Same, TreeInv, NoHitDirs, ScanInv, DestTruthful, PlainScan, DirsSized, HonestRun, PlainRun, HitsArePlain,
         InLimits;
    var st := tr[n].st;
    SelectiveHashing(cfg, H, content, tr, evs, n, a, b);
    PlainEnd(cfg, H, content, tr, evs, n);
    PlainReached(tr[n], Hits(evs[..n]), a);
    PlainReached(tr[n], Hits(evs[..n]), b);
    DirTreeKeepsIndex(H, st, ROOT, cfg.sz);
    DirTreeEntry(H, st.es, st, ROOT, a);
    DirTreeEntry(H, st.es, st, ROOT, b);
    var r := DirTree(H, st.es, st, ROOT);
    FiledDir(r, a, cfg.sz);
    FiledDir(r, b, cfg.sz);
    TwoInGroup(r, r.es[a].dirHash.value, a, b);
  }
}
