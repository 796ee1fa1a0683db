/** From the files on disk to the hash groups: directories with the same tree of names and contents
    are found (dupion/src/main.rs, dupion/src/process/mod.rs). */
module DupDirs {
  import opened Basics
  import opened Arenas
  import opened States
  import opened Scans
  import opened ScanIndex
  import opened ScanTree
  import opened DirHashes
  import opened Twins
  import opened Selective
  import opened ScanRuns
  import opened HashSizes

  /** Below `p` and `q` the same relative paths are files, with the same contents. */
  ghost predicate SameBelow(sized: set<Path>, content: Path -> Bytes, p: Path, q: Path) {
    forall r: Path :: (p + r in sized <==> q + r in sized) && (p + r in sized ==> content(p + r) == content(q + r))
  }

  lemma {:induction false} SameBelowSym(sized: set<Path>, content: Path -> Bytes, p: Path, q: Path)
    requires SameBelow(sized, content, p, q)
    ensures SameBelow(sized, content, q, p)
  {
  }

  lemma {:induction false} SameAbove(sized: set<Path>, content: Path -> Bytes, p: Path, q: Path, r: Path)
    requires SameBelow(sized, content, p, q) && AboveSized(sized, p + r)
    ensures AboveSized(sized, q + r)
  {
    var z :| z in sized && p + r < z;
    var t := z[|p + r|..];
    assert z == p + (r + t);
    assert q + r < q + (r + t);
  }

  lemma {:induction false} SameOnDisk(sized: set<Path>, content: Path -> Bytes, p: Path, q: Path, r: Path)
    requires SameBelow(sized, content, p, q) && OnDisk(sized, p + r)
    ensures OnDisk(sized, q + r)
  {
    if p + r !in sized { SameAbove(sized, content, p, q, r); }
  }

  /** What is on the disk below `p` has a counterpart below `q`. */
  lemma {:induction false} Counterpart(s: Scan, hits: set<Path>, content: Path -> Bytes, p: Path, q: Path, r: Path,
                                       c: VfsId)
    returns (d: VfsId)
    requires PlainInv(s, hits) && SameBelow(s.sized, content, p, q)
    requires At(s.st.es, p + r, c) && OnDisk(s.sized, p + r)
    ensures At(s.st.es, q + r, d) && SameFlags(s, content, c, d)
  {
    SameOnDisk(s.sized, content, p, q, r);
    var z :| z in s.sized && q + r <= z;
    assert InDest(s, z);
    var k :| 0 <= k < |s.dest| && At(s.st.es, z, s.dest[k]);
    d := PrefixStored(s.st.es, s.dest[k], |q + r|);
    BothFlags(s, hits, content, p, q, r, c, d);
  }

  ghost predicate SameFlags(s: Scan, content: Path -> Bytes, c: VfsId, d: VfsId) {
    && c < |s.st.es| && d < |s.st.es|
    && s.st.es[c].isFile == s.st.es[d].isFile && s.st.es[c].isDir == s.st.es[d].isDir
    && (s.st.es[c].isFile ==> content(s.st.es[c].path) == content(s.st.es[d].path))
  }

  lemma {:induction false} BothFlags(s: Scan, hits: set<Path>, content: Path -> Bytes, p: Path, q: Path, r: Path,
                                     c: VfsId, d: VfsId)
    requires PlainInv(s, hits) && SameBelow(s.sized, content, p, q) && OnDisk(s.sized, p + r)
    requires At(s.st.es, p + r, c) && At(s.st.es, q + r, d)
    ensures SameFlags(s, content, c, d)
  {
    SameBelowSym(s.sized, content, p, q);
    SameOnDisk(s.sized, content, p, q, r);
    OnDiskIsPlain(s, hits, c);
    OnDiskIsPlain(s, hits, d);
    if s.st.es[c].isDir { SameAbove(s.sized, content, p, q, r); }
    if s.st.es[d].isDir { SameAbove(s.sized, content, q, p, r); }
  }

  /** An entry one component below another one is its child. */
  lemma {:induction false} ChildAt(es: Arena, y: VfsId, n: Name, d: VfsId) returns (k: nat)
    requires Tree(es) && y < |es| && At(es, es[y].path + [n], d)
    ensures k < |es[y].childs| && es[y].childs[k] == d && Link(es, y, d) && es[d].plc == n
  {
    var c := ChildTowards(es, y, d);
    assert es[c].path == es[d].path;
    PathsUnique(es, c, d);
    k :| 0 <= k < |es[y].childs| && es[y].childs[k] == c;
    assert es[d].path[|es[y].path|] == n;
  }

  /** What exists in a directory on the disk is on the disk. */
  lemma {:induction false} ChildOnDisk(s: Scan, hits: set<Path>, x: VfsId, j: nat)
    requires PlainInv(s, hits) && x < |s.st.es| && OnDisk(s.sized, s.st.es[x].path) && s.st.es[x].isDir
    requires j < |s.st.es[x].childs| && Present(s.st.es, s.st.es[x].childs[j])
    ensures OnDisk(s.sized, s.st.es[s.st.es[x].childs[j]].path)
  {
    var c := s.st.es[x].childs[j];
    ReachedThrough(s.st.es, c, c);
    assert Via(s.st.es, x, j, c);
    ViaReaches(s.st.es, x, j, c);
    ReachedOnDisk(s, hits, x, c);
  }

  /** The child of one twin that belongs to a child of the other. */
  lemma {:induction false} TwinChild(s: Scan, hits: set<Path>, content: Path -> Bytes, p: Path, q: Path, r: Path,
                                     x: VfsId, y: VfsId, j: nat)
    returns (k: nat)
    requires PlainInv(s, hits) && SameBelow(s.sized, content, p, q)
    requires At(s.st.es, p + r, x) && At(s.st.es, q + r, y) && OnDisk(s.sized, p + r) && s.st.es[x].isDir
    requires j < |s.st.es[x].childs| && Present(s.st.es, s.st.es[x].childs[j])
    ensures k < |s.st.es[y].childs|
    ensures var c, d := s.st.es[x].childs[j], s.st.es[y].childs[k];
      && Link(s.st.es, x, c) && Link(s.st.es, y, d) && Present(s.st.es, d) && s.st.es[c].plc == s.st.es[d].plc
      && At(s.st.es, p + (r + [s.st.es[c].plc]), c) && At(s.st.es, q + (r + [s.st.es[c].plc]), d)
      && OnDisk(s.sized, p + (r + [s.st.es[c].plc])) && OnDisk(s.sized, q + (r + [s.st.es[c].plc]))
  {
    var c := s.st.es[x].childs[j];
    LinkOf(s.st.es, x, c);
    ChildOnDisk(s, hits, x, j);
    var n := s.st.es[c].plc;
    assert p + r + [n] == p + (r + [n]) && q + r + [n] == q + (r + [n]);
    hide Tree, TreeInv, NoHitDirs, SameBelow, OnDisk;
    var d := Counterpart(s, hits, content, p, q, r + [n], c);
    SameOnDisk(s.sized, content, p, q, r + [n]);
    k := ChildAt(s.st.es, y, n, d);
  }

  /** Directories below which the disk looks the same head the same tree. */
  lemma {:induction false} SameFromDisk(s: Scan, hits: set<Path>, content: Path -> Bytes, p: Path, q: Path, r: Path,
                                        x: VfsId, y: VfsId)
    requires PlainInv(s, hits) && SameBelow(s.sized, content, p, q) && OnDisk(s.sized, p + r)
    requires At(s.st.es, p + r, x) && At(s.st.es, q + r, y)
    ensures Same(s.st.es, x, s.st.es, y, SameContent(s.st.es, content))
    decreases |s.st.es| - x
  {
    var es, eq := s.st.es, SameContent(s.st.es, content);
    BothFlags(s, hits, content, p, q, r, x, y);
    SameBelowSym(s.sized, content, p, q);
    SameOnDisk(s.sized, content, p, q, r);
    hide Tree, TreeInv, NoHitDirs, SameBelow, OnDisk;
    if es[x].isDir {
      forall j | 0 <= j < |es[x].childs| && Present(es, es[x].childs[j])
        ensures exists k :: 0 <= k < |es[y].childs| && SameKid(es, x, j, es, y, k, eq)
      {
        var k := TwinChild(s, hits, content, p, q, r, x, y, j);
        SameFromDisk(s, hits, content, p, q, r + [es[es[x].childs[j]].plc], es[x].childs[j], es[y].childs[k]);
        assert SameKid(es, x, j, es, y, k, eq);
      }
      forall k | 0 <= k < |es[y].childs| && Present(es, es[y].childs[k])
        ensures exists j :: 0 <= j < |es[x].childs| && SameKid(es, x, j, es, y, k, eq)
      {
        var j := TwinChild(s, hits, content, q, p, r, y, x, k);
        SameFromDisk(s, hits, content, p, q, r + [es[es[y].childs[k]].plc], es[x].childs[j], es[y].childs[k]);
        assert SameKid(es, x, j, es, y, k, eq);
      }
    }
  }

  // ----- scan and directory hash together

  /** The directories `p` and `q` carry one directory hash and are members of its group. */
  ghost predicate ShareGroup(st: St, p: Path, q: Path) {
    exists a: VfsId, b: VfsId :: GroupMates(st, p, q, a, b)
  }

  ghost predicate GroupMates(st: St, p: Path, q: Path, a: VfsId, b: VfsId) {
    && At(st.es, p, a) && At(st.es, q, b) && a != b
    && st.es[a].dirHash.Some? && st.es[a].dirHash == st.es[b].dirHash
    && InHash(st.hashes, st.es[a].dirHash.value, a) && InHash(st.hashes, st.es[a].dirHash.value, b)
    && CountHashes(st.hashes, st.es[a].dirHash.value) > 1
  }

  // ----- what a scan leaves behind

  lemma {:induction false} ScanLeaves(H: Hasher, content: Path -> Bytes, s: Scan, hits: set<Path>)
    requires PlainInv(s, hits) && DestTruthful(H, content, s)
    ensures LeftBehind(H, content, s.sized, s.st.es)
  {
    forall i | 0 <= i < |s.st.es| && (OnDisk(s.sized, s.st.es[i].path) || Reached(s.st.es, ROOT, i))
      ensures LeftEntry(H, content, s.sized, s.st.es[i])
    {
      LeftByScan(H, content, s, hits, i);
    }
    forall p | p in s.sized
      ensures Stored(s.st.es, p)
    {
      assert InDest(s, p);
    }
  }

  lemma {:induction false} LeftByScan(H: Hasher, content: Path -> Bytes, s: Scan, hits: set<Path>, i: VfsId)
    requires PlainInv(s, hits) && DestTruthful(H, content, s)
    requires i < |s.st.es| && (OnDisk(s.sized, s.st.es[i].path) || Reached(s.st.es, ROOT, i))
    ensures LeftEntry(H, content, s.sized, s.st.es[i])
  {
    RootOnDisk(s, hits);
    if OnDisk(s.sized, []) {
      if !OnDisk(s.sized, s.st.es[i].path) { ReachedOnDisk(s, hits, ROOT, i); }
      OnDiskIsPlain(s, hits, i);
      hide Tree, Reached;
      if s.st.es[i].isFile {
        StoredInDest(s, hits, i);
        var k :| 0 <= k < |s.dest| && s.dest[k] == i;
        assert Truthful(H, content, s.st.es, s.dest[k]);
      }
    }
  }

  lemma {:induction false} DirAt(s: Scan, hits: set<Path>, p: Path) returns (a: VfsId)
    requires PlainInv(s, hits) && AboveSized(s.sized, p)
    ensures At(s.st.es, p, a)
  {
    var z :| z in s.sized && p < z;
    assert InDest(s, z);
    var k :| 0 <= k < |s.dest| && At(s.st.es, z, s.dest[k]);
    a := PrefixStored(s.st.es, s.dest[k], |p|);
  }

  /** Two directories below which the disk looks the same are twins in the arena. */
  lemma {:induction false} TwinsAt(s: Scan, hits: set<Path>, content: Path -> Bytes, p: Path, q: Path)
    returns (a: VfsId, b: VfsId)
    requires PlainInv(s, hits) && IsTwin(s.sized, content, p, q)
    ensures At(s.st.es, p, a) && At(s.st.es, q, b) && DiskTwins(s, content, a, b)
  {
    a := DirAt(s, hits, p);
    b := DirAt(s, hits, q);
    assert OnDisk(s.sized, p);
    hide Tree, TreeInv, NoHitDirs, Same, SameBelow, AboveSized, OnDisk;
    assert p + [] == p && q + [] == q;
    SameFromDisk(s, hits, content, p, q, [], a, b);
  }

  /** After the walk from the root, two directories below which the disk looks the same share a
      hash group. */
  lemma {:induction false} TwinsFiled(cfg: Config, H: Hasher, content: Path -> Bytes, tr: seq<Scan>, evs: seq<Event>,
                                      n: nat, p: Path, q: Path)
    requires PlainHonestRun(cfg, H, content, tr, evs, n) && tr[n].pass == Done
    requires Tree(tr[n].st.es) && DirsSized(H, tr[n].st.es, ROOT, cfg.sz)
    requires IsTwin(tr[n].sized, content, p, q)
    ensures ShareGroup(DirTree(H, tr[n].st.es, tr[n].st, ROOT), p, q)
  {
    var st := tr[n].st;
    assert n <= |evs|;
    PlainEnd(cfg, H, content, tr, evs, n);
    hide HonestRun, PlainRun, HitsArePlain, InLimits, DirsSized, PlainInv, IsTwin, GroupMates, Tree, Same, InHash,
         DirTree, Hits, ScanInv, DestTruthful, PlainScan;
    var a, b := TwinsAt(tr[n], Hits(evs[..n]), content, p, q);
    EqualDirsShareGroup(cfg, H, content, tr, evs, n, a, b);
    Walked(H, st, p, a);
    Walked(H, st, q, b);
    IsGroupMates(DirTree(H, st.es, st, ROOT), p, q, a, b);
  }

  /** The walk moves no entry. */
  lemma {:induction false} Walked(H: Hasher, st: St, p: Path, a: VfsId)
    requires Tree(st.es) && At(st.es, p, a)
    ensures At(DirTree(H, st.es, st, ROOT).es, p, a)
  {
    DirTreeEntry(H, st.es, st, ROOT, a);
  }

  lemma {:induction false} IsGroupMates(st: St, p: Path, q: Path, a: VfsId, b: VfsId)
    requires At(st.es, p, a) && At(st.es, q, b) && a != b
    requires st.es[a].dirHash.Some? && st.es[a].dirHash == st.es[b].dirHash
    requires InHash(st.hashes, st.es[a].dirHash.value, a) && InHash(st.hashes, st.es[a].dirHash.value, b)
    requires CountHashes(st.hashes, st.es[a].dirHash.value) > 1
    ensures ShareGroup(st, p, q)
  {
    assert GroupMates(st, p, q, a, b);
  }

  /** All pairs of such directories share a group. */
  ghost predicate AllTwinsShare(st: St, sized: set<Path>, content: Path -> Bytes) {
    forall p: Path, q: Path :: IsTwin(sized, content, p, q) ==> ShareGroup(st, p, q)
  }

  /** Two different directories with the same tree of names and contents. */
  ghost predicate IsTwin(sized: set<Path>, content: Path -> Bytes, p: Path, q: Path) {
    p != q && AboveSized(sized, p) && AboveSized(sized, q) && SameBelow(sized, content, p, q)
  }

  lemma {:induction false} RunIsPlain(cfg: Config, H: Hasher, content: Path -> Bytes, tr: seq<Scan>, evs: seq<Event>,
                                      m: Scan)
    requires RunSoFar(cfg, H, content, tr, evs, m) && HitsArePlain(evs) && InLimits(cfg, content, m.sized)
    requires m.unread == {}
    requires forall p :: !cfg.opts.isArchive(p)
    ensures PlainHonestRun(cfg, H, content, tr, evs, |tr| - 1) && tr[|tr| - 1] == m
  {
  }

  /** The state in which the walk from the root starts. */
  lemma {:induction false} ReadyToWalk(cfg: Config, H: Hasher, content: Path -> Bytes, tr: seq<Scan>, evs: seq<Event>,
                                       n: nat)
    requires PlainHonestRun(cfg, H, content, tr, evs, n) && NoClash(H, content, tr[n].sized, cfg.sz)
    ensures Tree(tr[n].st.es) && Sized(tr[n].st.hashes, cfg.sz) && Unwraps(tr[n].st.es, ROOT)
    ensures DirsSized(H, tr[n].st.es, ROOT, cfg.sz) && Unhashed(tr[n].st.es, tr[n].st.es, ROOT)
    ensures ROOT < |tr[n].st.es| && Walking(tr[n].st.es, tr[n].st.es)
  {
    assert n <= |evs|;
    PlainEnd(cfg, H, content, tr, evs, n);
    hide HonestRun, PlainRun, HitsArePlain, InLimits, TreeInv, NoHitDirs, ScanInv, DestTruthful, PlainScan, DirsSized,
         Unwraps, Hits;
    ScanLeaves(H, content, tr[n], Hits(evs[..n]));
    PlainUnwraps(tr[n], Hits(evs[..n]));
  }

  lemma {:induction false} AllTwins(cfg: Config, H: Hasher, content: Path -> Bytes, tr: seq<Scan>, evs: seq<Event>,
                                    n: nat)
    requires PlainHonestRun(cfg, H, content, tr, evs, n) && tr[n].pass == Done
    requires Tree(tr[n].st.es) && DirsSized(H, tr[n].st.es, ROOT, cfg.sz)
    ensures AllTwinsShare(DirTree(H, tr[n].st.es, tr[n].st, ROOT), tr[n].sized, content)
  {
    hide HonestRun, PlainRun, HitsArePlain, InLimits, DirsSized, ShareGroup, IsTwin;
    forall p: Path, q: Path | IsTwin(tr[n].sized, content, p, q)
      ensures ShareGroup(DirTree(H, tr[n].st.es, tr[n].st, ROOT), p, q)
    {
      TwinsFiled(cfg, H, content, tr, evs, n, p, q);
    }
  }

  /** Scan the files, then hash the directories from the root: without archives and within the size
      limits, when the last pass can read all files, any two different directories with the same tree of
      names and contents end in one hash group, although only files of shared size were read. */
  method ScanAndHash(s: State, files: seq<FileFound>, opts: Opts, H: Hasher, content: Path -> Bytes, ahead: nat -> bool,
                     readable: (Pass, Path) -> bool, ghost sz: Hash -> nat)
    requires Loaded(s.tree.entries) && s.sizes == map[] && s.hashes == map[]
    requires Separate(files) && CacheHonestFrom(H, content, s.tree.entries, files, 0)
    requires forall p :: !opts.isArchive(p)
    requires CachePlainFrom(content, s.tree.entries, files, 0)
    requires forall k :: 0 <= k < |files| ==> Canonical(files[k].path) && readable(PostHashing, files[k].path)
    requires InLimits(Config(opts, sz), content, Paths(files))
    requires Premises(H, content, s.tree.entries, files, sz)
    modifies s, s.tree
    ensures AllTwinsShare(s.Snapshot(), Paths(files), content)
  {
    hide Loaded, CachePlainFrom, CacheSizedFrom, Separate, CacheHonestFrom, InLimits, HashTellsSize, NoClash, HonestRun,
         PlainRun, HitsArePlain, RunSoFar, EveryFileDone, AllTwinsShare, Tree, Sized, DirsSized, Unwraps, Unhashed,
         Walking, Paths, OnlyUnreadable, InPlaceOrder;
    ghost var cfg := Config(opts, sz);
    var ids;
    ghost var tr, evs, m;
    ids, tr, evs, m := ScanFiles(s, files, opts, H, content, ahead, readable, sz);
    ghost var n := |tr| - 1;
    AllRead(cfg, H, content, tr, evs, m, files, readable);
    RunIsPlain(cfg, H, content, tr, evs, m);
    ReadyToWalk(cfg, H, content, tr, evs, n);
    AllTwins(cfg, H, content, tr, evs, n);
    var r := CalculateDirHash(s, ROOT, H, m.st.es, sz);
  }

  /** Only scanned files are ever candidates, so none is left unread. */
  lemma {:induction false} AllRead(cfg: Config, H: Hasher, content: Path -> Bytes, tr: seq<Scan>, evs: seq<Event>,
                                   m: Scan, files: seq<FileFound>, readable: (Pass, Path) -> bool)
    requires RunSoFar(cfg, H, content, tr, evs, m) && m.sized == Paths(files) && OnlyUnreadable(m, readable)
    requires forall k :: 0 <= k < |files| ==> readable(PostHashing, files[k].path)
    ensures m.unread == {}
  {
    Known(cfg, H, content, tr, evs, m);
    RunDestSized(cfg, tr, evs, |tr| - 1);
    forall id | id in m.dest
      ensures id < |m.st.es| && readable(PostHashing, m.st.es[id].path)
    {
      var k :| 0 <= k < |m.dest| && m.dest[k] == id;
      assert EntrySized(m, m.dest[k]);
    }
  }
}
