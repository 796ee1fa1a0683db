/** The three passes as loops over the files found, and why what they do is a run of the step
    machine (dupion/src/driver/platterwalker.rs). */
module ScanRuns {
  import opened Basics
  import opened Arenas
  import opened States
  import opened KeySort
  import opened Scans
  import opened ScanIndex
  import opened ScanTree
  import opened DirHashes
  import opened Selective

  /** A file met on disk; its size is that of its content. */
  datatype FileFound = FileFound(path: Path, ctime: int, phys: nat, nExtends: nat)

  function PhysOf(p: (nat, VfsId)): int { p.0 }

  function Ids(dest: seq<(nat, VfsId)>): (r: seq<VfsId>)
    ensures |r| == |dest|
  {
    if dest == [] then [] else [dest[0].1] + Ids(dest[1..])
  }

  lemma {:induction false} IdsPush(dest: seq<(nat, VfsId)>, p: (nat, VfsId))
    ensures Ids(dest + [p]) == Ids(dest) + [p.1]
  {
    if dest == [] {
      assert ([] + [p])[1..] == [];
    } else {
      assert (dest + [p])[1..] == dest[1..] + [p];
      IdsPush(dest[1..], p);
    }
  }

  lemma {:induction false} IdsInsert(p: (nat, VfsId), dest: seq<(nat, VfsId)>)
    ensures multiset(Ids(Insert(p, dest, PhysOf))) == multiset{p.1} + multiset(Ids(dest))
  {
    if dest != [] && p.0 > dest[0].0 {
      IdsInsert(p, dest[1..]);
      assert Insert(p, dest, PhysOf)[1..] == Insert(p, dest[1..], PhysOf);
    } else {
      assert ([p] + dest)[1..] == dest;
    }
  }

  lemma {:induction false} IdsSort(dest: seq<(nat, VfsId)>)
    ensures multiset(Ids(SortBy(dest, PhysOf))) == multiset(Ids(dest))
  {
    if dest != [] {
      IdsSort(dest[1..]);
      IdsInsert(dest[0], SortBy(dest[1..], PhysOf));
    }
  }

  // ----- what is assumed of the files

  /** No file lies at or below another one. */
  ghost predicate Separate(files: seq<FileFound>) {
    forall i, j :: 0 <= i < |files| && 0 <= j < |files| && i != j ==> !(files[i].path <= files[j].path)
  }

  /** The stored change time and size are still those of the file. */
  ghost predicate IsSame(content: Path -> Bytes, e: VfsEntry, f: FileFound) {
    e.ctime == Some(f.ctime) && e.fileSize == Some(|content(f.path)|)
  }

  /** The cache knows the hash of the unchanged file. */
  ghost predicate WasKnown(content: Path -> Bytes, es: Arena, f: FileFound) {
    exists i: VfsId :: KnownAt(content, es, f, i)
  }

  ghost predicate KnownAt(content: Path -> Bytes, es: Arena, f: FileFound, i: VfsId) {
    At(es, f.path, i) && IsSame(content, es[i], f) && es[i].fileHash.Some?
  }

  /** A cached hash is that of the content if change time and size are still the same. */
  ghost predicate CacheHonest(H: Hasher, content: Path -> Bytes, es: Arena, f: FileFound) {
    forall i: VfsId :: At(es, f.path, i) && IsSame(content, es[i], f) ==>
      es[i].fileHash == None || es[i].fileHash == Some(H(content(f.path)))
  }

  ghost predicate CacheHonestFrom(H: Hasher, content: Path -> Bytes, es: Arena, files: seq<FileFound>, i: nat) {
    forall k :: i <= k < |files| ==> CacheHonest(H, content, es, files[k])
  }

  /** Among the contents of the files scanned, equal hashes come with equal sizes. */
  ghost predicate HashTellsSize(H: Hasher, content: Path -> Bytes, sized: set<Path>, sz: Hash -> nat) {
    forall p :: p in sized ==> sz(H(content(p))) == |content(p)|
  }

  /** What is stored below an unchanged file is revived with it: its hashes come with their sizes. */
  ghost predicate CacheSized(content: Path -> Bytes, es: Arena, sz: Hash -> nat, f: FileFound) {
    forall i: VfsId, j: VfsId :: BelowUnchanged(content, es, f, i, j) ==> Fit(es[j], sz)
  }

  /** The entry `j` is stored below the entry `i` of the unchanged file. */
  ghost predicate BelowUnchanged(content: Path -> Bytes, es: Arena, f: FileFound, i: VfsId, j: VfsId) {
    && At(es, f.path, i) && IsSame(content, es[i], f)
    && j < |es| && f.path < es[j].path
  }

  ghost predicate CacheSizedFrom(content: Path -> Bytes, es: Arena, sz: Hash -> nat, files: seq<FileFound>, i: nat) {
    forall k :: i <= k < |files| ==> CacheSized(content, es, sz, files[k])
  }

  /** An unchanged file was stored as a file only: archives are stored as directories, too. */
  ghost predicate CachePlain(content: Path -> Bytes, es: Arena, f: FileFound) {
    forall i: VfsId :: At(es, f.path, i) && IsSame(content, es[i], f) ==> !es[i].wasDir
  }

  ghost predicate CachePlainFrom(content: Path -> Bytes, es: Arena, files: seq<FileFound>, i: nat) {
    forall k :: i <= k < |files| ==> CachePlain(content, es, files[k])
  }

  // ----- extending a run

  ghost predicate RunSoFar(cfg: Config, H: Hasher, content: Path -> Bytes, tr: seq<Scan>, evs: seq<Event>, s: Scan) {
    && HonestRun(cfg, H, content, tr, evs) && tr[|tr| - 1] == s
    && forall i :: 0 <= i < |evs| ==> !evs[i].Decode?
  }

  lemma {:induction false} Extend(cfg: Config, H: Hasher, content: Path -> Bytes, tr: seq<Scan>, evs: seq<Event>,
                                  s: Scan, e: Event, s': Scan)
    requires RunSoFar(cfg, H, content, tr, evs, s)
    requires Step(cfg, s, e, s') && Careful(s, e) && Honest(H, content, s, e, s') && !e.Decode?
    ensures RunSoFar(cfg, H, content, tr + [s'], evs + [e], s')
  {
    hide Step, Careful, Honest, Init;
    var tr', evs' := tr + [s'], evs + [e];
    forall i | 0 <= i < |evs'|
      ensures Step(cfg, tr'[i], evs'[i], tr'[i + 1]) && Careful(tr'[i], evs'[i])
      ensures Honest(H, content, tr'[i], evs'[i], tr'[i + 1])
    {
      if i < |evs| {
        assert Step(cfg, tr[i], evs[i], tr[i + 1]) && Careful(tr[i], evs[i]);
        assert Honest(H, content, tr[i], evs[i], tr[i + 1]);
      }
    }
  }

  /** What every state of such a run is known to satisfy. */
  lemma {:induction false} Known(cfg: Config, H: Hasher, content: Path -> Bytes, tr: seq<Scan>, evs: seq<Event>,
                                 s: Scan)
    requires RunSoFar(cfg, H, content, tr, evs, s)
    ensures ScanInv(cfg, s) && IndexInv(cfg, s) && DestTruthful(H, content, s)
  {
    RunKeeps(cfg, tr, evs, |tr| - 1);
    HashIndexAgreement(cfg, tr, evs, |tr| - 1);
    RunTruthful(cfg, H, content, tr, evs, |tr| - 1);
  }

  // ----- the sizing pass

  ghost function Paths(files: seq<FileFound>): set<Path> {
    set k | 0 <= k < |files| :: files[k].path
  }

  /** What the cache knows of other files stays as it is. */
  lemma {:induction false} SizeKeepsStored(cfg: Config, content: Path -> Bytes, s: Scan, e: Event, s': Scan,
                                           f: FileFound, i: VfsId)
    requires e.Size? && SizeEvent(cfg, s, e, s') && f.path != e.path
    requires At(s'.st.es, f.path, i) && IsSame(content, s'.st.es[i], f)
    ensures At(s.st.es, f.path, i) && IsSame(content, s.st.es[i], f)
    ensures s'.st.es[i].fileHash == s.st.es[i].fileHash && s'.st.es[i].wasDir == s.st.es[i].wasDir
  {
    SizeOwn(cfg, s, e, s');
    SizeOther(cfg, s, e, s', i);
    CreatedFacts(s.st.es, e.path, e.made, e.id, i);
  }

  /** Whether the cache knows the hash of another file is not touched. */
  lemma {:induction false} SizeKeepsKnown(cfg: Config, content: Path -> Bytes, s: Scan, e: Event, s': Scan,
                                          f: FileFound)
    requires e.Size? && SizeEvent(cfg, s, e, s') && f.path != e.path
    ensures WasKnown(content, s'.st.es, f) <==> WasKnown(content, s.st.es, f)
  {
    if i: VfsId :| KnownAt(content, s'.st.es, f, i) {
      SizeKeepsStored(cfg, content, s, e, s', f, i);
      assert KnownAt(content, s.st.es, f, i);
    }
    if i: VfsId :| KnownAt(content, s.st.es, f, i) {
      CreatedFacts(s.st.es, e.path, e.made, e.id, i);
      SizeOwn(cfg, s, e, s');
      SizeOther(cfg, s, e, s', i);
      assert KnownAt(content, s'.st.es, f, i);
    }
  }

  /** The file sized is cached exactly if the cache knew its hash. */
  lemma {:induction false} SizeCaches(cfg: Config, content: Path -> Bytes, s: Scan, e: Event, s': Scan, f: FileFound)
    requires SizesFile(e, content, f) && SizeEvent(cfg, s, e, s')
    ensures e.id in s'.cached <==> WasKnown(content, s.st.es, f)
  {
    SizeOwn(cfg, s, e, s');
    CreatedFacts(s.st.es, e.path, e.made, e.id, e.id);
    if e.id < |s.st.es| && IsHit(e) && e.made[e.id].fileHash.Some? { assert KnownAt(content, s.st.es, f, e.id); }
    if i: VfsId :| KnownAt(content, s.st.es, f, i) {
      CreatedFacts(s.st.es, e.path, e.made, e.id, i);
      PathsUnique(e.made, i, e.id);
    }
  }

  lemma {:induction false} SizeKeepsCache(cfg: Config, H: Hasher, content: Path -> Bytes, s: Scan, e: Event, s': Scan,
                                          f: FileFound)
    requires e.Size? && SizeEvent(cfg, s, e, s') && f.path != e.path
    ensures CacheHonest(H, content, s.st.es, f) ==> CacheHonest(H, content, s'.st.es, f)
    ensures CachePlain(content, s.st.es, f) ==> CachePlain(content, s'.st.es, f)
  {
    forall i: VfsId | At(s'.st.es, f.path, i) && IsSame(content, s'.st.es[i], f)
      ensures At(s.st.es, f.path, i) && IsSame(content, s.st.es[i], f)
      ensures s'.st.es[i].fileHash == s.st.es[i].fileHash && s'.st.es[i].wasDir == s.st.es[i].wasDir
    {
      SizeKeepsStored(cfg, content, s, e, s', f, i);
    }
  }

  lemma {:induction false} SizeKeepsSized(cfg: Config, content: Path -> Bytes, s: Scan, e: Event, s': Scan,
                                          f: FileFound)
    requires e.Size? && SizeEvent(cfg, s, e, s') && !(f.path <= e.path) && CacheSized(content, s.st.es, cfg.sz, f)
    ensures CacheSized(content, s'.st.es, cfg.sz, f)
  {
    hide SizeEvent, Fit;
    forall i: VfsId, j: VfsId | BelowUnchanged(content, s'.st.es, f, i, j)
      ensures Fit(s'.st.es[j], cfg.sz)
    {
      SizeKeepsStored(cfg, content, s, e, s', f, i);
      SizeKeepsFit(cfg, s, e, s', j);
      if j < |s.st.es| { assert BelowUnchanged(content, s.st.es, f, i, j); }
    }
  }

  lemma {:induction false} SizeKeepsFit(cfg: Config, s: Scan, e: Event, s': Scan, j: VfsId)
    requires e.Size? && SizeEvent(cfg, s, e, s') && j < |s'.st.es|
    ensures s'.st.es[j].path != e.path ==>
      if j < |s.st.es|
      then s.st.es[j].path == s'.st.es[j].path && (Fit(s.st.es[j], cfg.sz) ==> Fit(s'.st.es[j], cfg.sz))
      else Fit(s'.st.es[j], cfg.sz)
  {
    SizeOwn(cfg, s, e, s');
    if j != e.id {
      SizeOther(cfg, s, e, s', j);
      CreatedFacts(s.st.es, e.path, e.made, e.id, j);
      hide SizeEvent, Created;
      MarkedFits(e.made[j], cfg.sz);
    }
  }

  /** The file found can be sized: what the cache holds of it and below it, if it is unchanged, comes
      with its size. */
  lemma {:induction false} ReadyToSize(H: Hasher, content: Path -> Bytes, es: Arena, sz: Hash -> nat, f: FileFound,
                                       sized: set<Path>, i: VfsId)
    requires CacheHonest(H, content, es, f) && CacheSized(content, es, sz, f) && Tree(es) && NoDirs(es)
    requires HashTellsSize(H, content, sized, sz) && f.path in sized
    requires At(es, f.path, i) && IsSame(content, es[i], f)
    ensures Revivable(es, i, sz) && SizedFile(es[i], sz)
  {
    forall j | 0 <= j < |es| && es[i].path <= es[j].path
      ensures Fit(es[j], sz)
    {
      if es[j].path == es[i].path { PathsUnique(es, i, j); } else { assert BelowUnchanged(content, es, f, i, j); }
    }
  }

  /** A hash that survives validation is that of the content. */
  lemma {:induction false} SizeHonest(cfg: Config, H: Hasher, content: Path -> Bytes, s: Scan, e: Event, s': Scan,
                                      f: FileFound)
    requires Tree(s.st.es) && e.Size? && SizeEvent(cfg, s, e, s') && CacheHonest(H, content, s.st.es, f)
    requires f.path == e.path && f.ctime == e.ctime && e.size == |content(e.path)|
    ensures Honest(H, content, s, e, s')
  {
    var mid := St(e.made, s.st.sizes, s.st.hashes);
    CreatedTarget(s.st.es, e.path, e.made, e.id);
    if Unchanged(e.made[e.id], e.ctime, Some(e.size), None) {
      PreorderFits(e.made, e.id, cfg.sz);
      ValidateAllEntry(mid, Preorder(e.made, e.id), e.id, cfg.sz);
      if e.id < |s.st.es| { assert At(s.st.es, f.path, e.id); }
    }
  }

  /** Each of the first `i` files has its entry in the list. */
  ghost predicate Listed(es: Arena, files: seq<FileFound>, i: nat, dest: seq<(nat, VfsId)>)
    requires i <= |files|
  {
    |dest| == i && forall k :: 0 <= k < i ==> At(es, files[k].path, dest[k].1) && PlacedAt(es, dest[k])
  }

  /** The entry has the offset it is listed with. */
  ghost predicate PlacedAt(es: Arena, p: (nat, VfsId)) {
    p.1 < |es| && es[p.1].phys == Some(p.0)
  }

  /** What holds before the `i`-th file is sized. */
  ghost predicate PassOne(cfg: Config, H: Hasher, content: Path -> Bytes, tr: seq<Scan>, evs: seq<Event>, m: Scan,
                          files: seq<FileFound>, i: nat, dest: seq<(nat, VfsId)>, es0: Arena)
    requires i <= |files|
  {
    && CachedAre(content, es0, m, files, i, dest)
    && RunSoFar(cfg, H, content, tr, evs, m) && m.pass == Sizing && m.next == 0 && m.queue == []
    && m.decoded == {} && m.unread == {} && m.dest == Ids(dest) && m.sized == Paths(files[..i])
    && CacheHonestFrom(H, content, m.st.es, files, i) && CacheSizedFrom(content, m.st.es, cfg.sz, files, i)
    && Listed(m.st.es, files, i, dest)
  }

  /** Of the files sized, those are cached whose hash the loaded cache `es0` knew; of the others it still
      knows what it knew. */
  ghost predicate CachedAre(content: Path -> Bytes, es0: Arena, m: Scan, files: seq<FileFound>, i: nat,
                            dest: seq<(nat, VfsId)>)
    requires i <= |files|
  {
    && |dest| == i
    && (forall k :: 0 <= k < i ==> (dest[k].1 in m.cached <==> WasKnown(content, es0, files[k])))
    && forall k :: i <= k < |files| ==> (WasKnown(content, m.st.es, files[k]) <==> WasKnown(content, es0, files[k]))
  }

  ghost predicate SizesFile(e: Event, content: Path -> Bytes, f: FileFound) {
    && e.Size? && e.path == f.path && e.ctime == f.ctime && e.size == |content(e.path)|
    && e.phys == f.phys && e.nExtends == f.nExtends
  }

  lemma {:induction false} SizeNextRun(cfg: Config, H: Hasher, content: Path -> Bytes, tr: seq<Scan>, evs: seq<Event>,
                                       m: Scan, files: seq<FileFound>, i: nat, e: Event, m': Scan)
    requires i < |files| && Separate(files) && RunSoFar(cfg, H, content, tr, evs, m) && m.sized == Paths(files[..i])
    requires CacheHonest(H, content, m.st.es, files[i])
    requires SizesFile(e, content, files[i]) && SizeEvent(cfg, m, e, m')
    ensures RunSoFar(cfg, H, content, tr + [m'], evs + [e], m')
  {
    Known(cfg, H, content, tr, evs, m);
    assert Coherent(m.st, cfg.sz);
    hide ScanInv, IndexInv, DestTruthful, RunSoFar, SizeEvent, CacheHonest;
    SizeHonest(cfg, H, content, m, e, m', files[i]);
    forall p | p in m.sized
      ensures !(p <= e.path) && !(e.path <= p)
    {
      var k :| 0 <= k < |files[..i]| && files[..i][k].path == p;
      assert files[k].path == p;
    }
    Extend(cfg, H, content, tr, evs, m, e, m');
  }

  lemma {:induction false} SizeNextCache(cfg: Config, H: Hasher, content: Path -> Bytes, m: Scan,
                                         files: seq<FileFound>, i: nat, e: Event, m': Scan)
    requires i < |files| && Separate(files) && CacheHonestFrom(H, content, m.st.es, files, i)
    requires CacheSizedFrom(content, m.st.es, cfg.sz, files, i)
    requires e.Size? && e.path == files[i].path && SizeEvent(cfg, m, e, m')
    ensures CacheHonestFrom(H, content, m'.st.es, files, i + 1)
    ensures CacheSizedFrom(content, m'.st.es, cfg.sz, files, i + 1)
  {
    hide SizeEvent, CacheHonest, CacheSized;
    forall k | i + 1 <= k < |files|
      ensures CacheHonest(H, content, m'.st.es, files[k]) && CacheSized(content, m'.st.es, cfg.sz, files[k])
    {
      SizeKeepsCache(cfg, H, content, m, e, m', files[k]);
      SizeKeepsSized(cfg, content, m, e, m', files[k]);
    }
  }

  lemma {:induction false} SizeNextPlain(cfg: Config, content: Path -> Bytes, evs: seq<Event>, m: Scan,
                                         files: seq<FileFound>, i: nat, e: Event, m': Scan)
    requires HitsArePlain(evs) && i < |files| && Separate(files) && CachePlainFrom(content, m.st.es, files, i)
    requires SizesFile(e, content, files[i]) && SizeEvent(cfg, m, e, m')
    ensures HitsArePlain(evs + [e]) && CachePlainFrom(content, m'.st.es, files, i + 1)
  {
    SizeFoundPlain(content, m, files[i], e);
    hide SizeEvent, CachePlain;
    forall k | i + 1 <= k < |files|
      ensures CachePlain(content, m'.st.es, files[k])
    {
      SizeKeepsCache(cfg, _ => [], content, m, e, m', files[k]);
    }
  }

  lemma {:induction false} SizeFoundPlain(content: Path -> Bytes, m: Scan, f: FileFound, e: Event)
    requires SizesFile(e, content, f) && Created(m.st.es, e.path, e.made, e.id) && CachePlain(content, m.st.es, f)
    ensures IsHit(e) ==> !e.made[e.id].wasDir
  {
    CreatedFacts(m.st.es, e.path, e.made, e.id, e.id);
    if e.id < |m.st.es| { assert At(m.st.es, f.path, e.id); }
  }

  lemma {:induction false} QuietIsPlain(evs: seq<Event>, e: Event)
    requires !e.Size?
    ensures HitsArePlain(evs) ==> HitsArePlain(evs + [e])
  {
  }

  lemma {:induction false} SizeNextListed(cfg: Config, m: Scan, files: seq<FileFound>, i: nat, dest: seq<(nat, VfsId)>,
                                          e: Event, m': Scan)
    requires i < |files| && Separate(files) && Listed(m.st.es, files, i, dest)
    requires e.Size? && e.path == files[i].path && SizeEvent(cfg, m, e, m')
    ensures Listed(m'.st.es, files, i + 1, dest + [(e.phys, e.id)])
  {
    SizeOwn(cfg, m, e, m');
    hide SizeEvent;
    forall k | 0 <= k < i + 1
      ensures At(m'.st.es, files[k].path, (dest + [(e.phys, e.id)])[k].1)
      ensures PlacedAt(m'.st.es, (dest + [(e.phys, e.id)])[k])
    {
      if k < i {
        assert (dest + [(e.phys, e.id)])[k] == dest[k];
        StaysListed(cfg, m, e, m', files[k].path, dest[k]);
      }
    }
  }

  lemma {:induction false} StaysListed(cfg: Config, m: Scan, e: Event, m': Scan, path: Path, p: (nat, VfsId))
    requires e.Size? && SizeEvent(cfg, m, e, m') && path != e.path && At(m.st.es, path, p.1) && PlacedAt(m.st.es, p)
    ensures At(m'.st.es, path, p.1) && PlacedAt(m'.st.es, p)
  {
    CreatedFacts(m.st.es, e.path, e.made, e.id, p.1);
    SizeOther(cfg, m, e, m', p.1);
  }

  lemma {:induction false} PathsPush(files: seq<FileFound>, i: nat)
    requires i < |files|
    ensures Paths(files[..i + 1]) == Paths(files[..i]) + {files[i].path}
  {
    assert files[..i + 1] == files[..i] + [files[i]];
    assert files[..i + 1][i].path in Paths(files[..i + 1]);
    forall p | p in Paths(files[..i])
      ensures p in Paths(files[..i + 1])
    {
      var k :| 0 <= k < |files[..i]| && files[..i][k].path == p;
      assert files[..i + 1][k].path == p;
    }
  }

  lemma {:induction false} SizeNextCached(cfg: Config, content: Path -> Bytes, m: Scan, files: seq<FileFound>, i: nat,
                                          dest: seq<(nat, VfsId)>, e: Event, m': Scan, es0: Arena)
    requires i < |files| && Separate(files) && CachedAre(content, es0, m, files, i, dest)
    requires Listed(m.st.es, files, i, dest) && SizesFile(e, content, files[i]) && SizeEvent(cfg, m, e, m')
    ensures CachedAre(content, es0, m', files, i + 1, dest + [(e.phys, e.id)])
  {
    SizeCaches(cfg, content, m, e, m', files[i]);
    OthersCached(cfg, m, e, m');
    SizeOwn(cfg, m, e, m');
    hide SizeEvent, WasKnown, IsHit;
    forall k | 0 <= k < i
      ensures dest[k].1 in m'.cached <==> dest[k].1 in m.cached
    {
      StaysListed(cfg, m, e, m', files[k].path, dest[k]);
    }
    forall k | i + 1 <= k < |files|
      ensures WasKnown(content, m'.st.es, files[k]) <==> WasKnown(content, m.st.es, files[k])
    {
      SizeKeepsKnown(cfg, content, m, e, m', files[k]);
    }
  }

  lemma {:induction false} OthersCached(cfg: Config, m: Scan, e: Event, m': Scan)
    requires e.Size? && SizeEvent(cfg, m, e, m')
    ensures forall id :: id != e.id ==> (id in m'.cached <==> id in m.cached)
  {
  }

  lemma {:induction false} SizeNext(cfg: Config, H: Hasher, content: Path -> Bytes, tr: seq<Scan>, evs: seq<Event>,
                                    m: Scan, files: seq<FileFound>, i: nat, dest: seq<(nat, VfsId)>, e: Event, m': Scan,
                                    es0: Arena)
    requires i < |files| && Separate(files) && PassOne(cfg, H, content, tr, evs, m, files, i, dest, es0)
    requires SizesFile(e, content, files[i]) && SizeEvent(cfg, m, e, m')
    ensures PassOne(cfg, H, content, tr + [m'], evs + [e], m', files, i + 1, dest + [(e.phys, e.id)], es0)
  {
    assert m'.decoded == m.decoded && m'.unread == m.unread && m'.dest == m.dest + [e.id];
    assert m'.sized == m.sized + {e.path} && m'.pass == m.pass && m'.next == m.next && m'.queue == m.queue;
    SizeNextCached(cfg, content, m, files, i, dest, e, m', es0);
    hide SizeEvent, RunSoFar, CachedAre, Listed, Ids, CacheHonest, CacheSized, Paths, Separate;
    SizeNextRun(cfg, H, content, tr, evs, m, files, i, e, m');
    SizeNextCache(cfg, H, content, m, files, i, e, m');
    SizeNextListed(cfg, m, files, i, dest, e, m');
    IdsPush(dest, (e.phys, e.id));
    PathsPush(files, i);
  }

  /** Pass 1: size every file found. */
  method SizePass(s: State, files: seq<FileFound>, content: Path -> Bytes, H: Hasher, ghost cfg: Config)
    returns (dest: seq<(nat, VfsId)>, ghost tr: seq<Scan>, ghost evs: seq<Event>, ghost m: Scan)
    requires Loaded(s.tree.entries) && s.sizes == map[] && s.hashes == map[]
    requires Separate(files) && CacheHonestFrom(H, content, s.tree.entries, files, 0)
    requires CacheSizedFrom(content, s.tree.entries, cfg.sz, files, 0)
    requires HashTellsSize(H, content, Paths(files), cfg.sz)
    requires forall k :: 0 <= k < |files| ==> Canonical(files[k].path)
    modifies s, s.tree
    ensures PassOne(cfg, H, content, tr, evs, m, files, |files|, dest, old(s.tree.entries)) && m.st == s.Snapshot()
    ensures tr != [] && tr[0].st == old(s.Snapshot())
    ensures CachePlainFrom(content, old(s.tree.entries), files, 0) ==> HitsArePlain(evs)
  {
    hide CacheHonest, CacheSized, CachePlainFrom, HitsArePlain, SizeStep, Coherent, Separate, HashTellsSize, Revivable;
    dest, m := [], Scan(s.Snapshot(), Sizing, [], 0, [], {}, {}, {}, {});
    tr, evs := [m], [];
    ghost var es0 := s.tree.entries;
    PassOneStart(cfg, H, content, m, files);
    hide Loaded;
    ghost var plain := CachePlainFrom(content, m.st.es, files, 0);
    NoEventsArePlain();
    for i := 0 to |files|
      invariant PassOne(cfg, H, content, tr, evs, m, files, i, dest, es0) && m.st == s.Snapshot()
      invariant tr != [] && tr[0].st == old(s.Snapshot())
      invariant plain ==> HitsArePlain(evs) && CachePlainFrom(content, m.st.es, files, i)
    {
      var f := files[i];
      ReadySoFar(cfg, H, content, tr, evs, m, files, i, dest, es0);
      var id;
      ghost var made;
      id, made := s.SizeFile(f.path, |content(f.path)|, f.ctime, f.phys, f.nExtends, cfg.sz);
      ghost var e := Size(f.path, |content(f.path)|, f.ctime, f.phys, f.nExtends, made, id);
      ghost var m' := AfterSize(cfg, m, e, s.Snapshot());
      SizeNext(cfg, H, content, tr, evs, m, files, i, dest, e, m', es0);
      if plain { SizeNextPlain(cfg, content, evs, m, files, i, e, m'); }
      dest := dest + [(f.phys, id)];
      tr, evs, m := tr + [m'], evs + [e], m';
    }
  }

  lemma {:induction false} NoEventsArePlain()
    ensures HitsArePlain([])
  {
  }

  lemma {:induction false} PassOneStart(cfg: Config, H: Hasher, content: Path -> Bytes, m: Scan, files: seq<FileFound>)
    requires Loaded(m.st.es) && m.st.sizes == map[] && m.st.hashes == map[]
    requires m == Scan(m.st, Sizing, [], 0, [], {}, {}, {}, {}) && CacheHonestFrom(H, content, m.st.es, files, 0)
    requires CacheSizedFrom(content, m.st.es, cfg.sz, files, 0)
    ensures PassOne(cfg, H, content, [m], [], m, files, 0, [], m.st.es)
  {
  }

  /** What sizing the next file asks for. */
  lemma {:induction false} ReadySoFar(cfg: Config, H: Hasher, content: Path -> Bytes, tr: seq<Scan>, evs: seq<Event>,
                                      m: Scan, files: seq<FileFound>, i: nat, dest: seq<(nat, VfsId)>, es0: Arena)
    requires i < |files| && PassOne(cfg, H, content, tr, evs, m, files, i, dest, es0)
    requires HashTellsSize(H, content, Paths(files), cfg.sz)
    ensures Coherent(m.st, cfg.sz)
    ensures var f := files[i]; forall id: VfsId ::
      At(m.st.es, f.path, id) && IsSame(content, m.st.es[id], f) ==>
        Revivable(m.st.es, id, cfg.sz) && SizedFile(m.st.es[id], cfg.sz)
  {
    Known(cfg, H, content, tr, evs, m);
    var f := files[i];
    hide RunSoFar, HashTellsSize, ScanInv, DestTruthful, CacheHonest, CacheSized, Revivable, Tree;
    forall id: VfsId | At(m.st.es, f.path, id) && IsSame(content, m.st.es[id], f)
      ensures Revivable(m.st.es, id, cfg.sz) && SizedFile(m.st.es[id], cfg.sz)
    {
      ReadyToSize(H, content, m.st.es, cfg.sz, f, Paths(files), id);
    }
  }

  // ----- the hashing passes

  /** What holds while the entries listed in `ids` are hashed. */
  ghost predicate HashingPass(cfg: Config, H: Hasher, content: Path -> Bytes, tr: seq<Scan>, evs: seq<Event>, m: Scan,
                              pass: Pass, ids: seq<VfsId>, next: nat, queue: seq<VfsId>)
  {
    RunSoFar(cfg, H, content, tr, evs, m) && m.pass == pass && m.dest == ids && m.next == next && m.queue == queue
    && m.decoded == {}
  }

  /** Only files that the last pass can not read were left unread. */
  ghost predicate OnlyUnreadable(m: Scan, readable: (Pass, Path) -> bool) {
    forall id :: id in m.unread ==> id < |m.st.es| && !readable(PostHashing, m.st.es[id].path)
  }

  lemma {:induction false} ReadyToFilter(cfg: Config, H: Hasher, content: Path -> Bytes, tr: seq<Scan>, evs: seq<Event>,
                                         m: Scan)
    requires RunSoFar(cfg, H, content, tr, evs, m) && m.next < |m.dest|
    ensures Filterable(m.st, m.dest[m.next])
  {
    Known(cfg, H, content, tr, evs, m);
    assert FileInv(cfg, m, m.dest[m.next]);
  }

  lemma {:induction false} ReadyToCommit(cfg: Config, H: Hasher, content: Path -> Bytes, tr: seq<Scan>, evs: seq<Event>,
                                         m: Scan)
    requires RunSoFar(cfg, H, content, tr, evs, m) && m.queue != [] && HashTellsSize(H, content, m.sized, cfg.sz)
    ensures Filterable(m.st, m.queue[0]) && Sized(m.st.hashes, cfg.sz)
    ensures var e := m.st.es[m.queue[0]]; var hash := H(content(e.path));
      && e.fileSize == Some(cfg.sz(hash))
      && (e.fileHash == None || e.fileHash == Some(hash))
  {
    Known(cfg, H, content, tr, evs, m);
    RunDestSized(cfg, tr, evs, |tr| - 1);
    var id := m.queue[0];
    assert QueuedInv(cfg, m, id);
    var k :| 0 <= k < |m.dest| && m.dest[k] == id;
    assert Truthful(H, content, m.st.es, m.dest[k]) && EntrySized(m, m.dest[k]);
  }

  lemma {:induction false} FilterNext(cfg: Config, H: Hasher, content: Path -> Bytes, tr: seq<Scan>, evs: seq<Event>,
                                      m: Scan)
    requires RunSoFar(cfg, H, content, tr, evs, m) && (m.pass == Hashing || m.pass == PostHashing) && m.next < |m.dest|
    requires Filterable(m.st, m.dest[m.next])
    ensures var m' := m.(next := m.next + 1,
        queue := if ReadCandidate(m.st, m.dest[m.next], cfg.opts) then m.queue + [m.dest[m.next]] else m.queue);
      RunSoFar(cfg, H, content, tr + [m'], evs + [Filter], m')
  {
    hide RunSoFar, ReadCandidate;
    var m' := m.(next := m.next + 1,
      queue := if ReadCandidate(m.st, m.dest[m.next], cfg.opts) then m.queue + [m.dest[m.next]] else m.queue);
    Extend(cfg, H, content, tr, evs, m, Filter, m');
  }

  lemma {:induction false} CommitNext(cfg: Config, H: Hasher, content: Path -> Bytes, tr: seq<Scan>, evs: seq<Event>,
                                      m: Scan, hash: Hash)
    requires RunSoFar(cfg, H, content, tr, evs, m) && m.queue != [] && HashTellsSize(H, content, m.sized, cfg.sz)
    requires m.queue[0] < |m.st.es| && hash == H(content(m.st.es[m.queue[0]].path))
    ensures Filterable(m.st, m.queue[0])
    ensures var m' := m.(queue := m.queue[1..],
        st := Hashed(m.st, m.queue[0], hash, cfg.opts.isArchive(m.st.es[m.queue[0]].path)),
        unread := m.unread - {m.queue[0]});
      RunSoFar(cfg, H, content, tr + [m'], evs + [Commit(hash)], m')
  {
    ReadyToCommit(cfg, H, content, tr, evs, m);
    hide RunSoFar, Hashed;
    var m' := m.(queue := m.queue[1..],
      st := Hashed(m.st, m.queue[0], hash, cfg.opts.isArchive(m.st.es[m.queue[0]].path)),
      unread := m.unread - {m.queue[0]});
    Extend(cfg, H, content, tr, evs, m, Commit(hash), m');
  }

  /** The state after the oldest candidate was given up. */
  ghost function AfterSkip(cfg: Config, m: Scan): (m': Scan)
    requires m.queue != [] && m.queue[0] < |m.st.es|
    ensures SkipEvent(cfg, m, m')
  {
    m.(queue := m.queue[1..],
       unread := if m.pass == PostHashing && !WasRead(cfg, m.st, m.queue[0])
                 then m.unread + {m.queue[0]} else m.unread)
  }

  lemma {:induction false} SkipNext(cfg: Config, H: Hasher, content: Path -> Bytes, tr: seq<Scan>, evs: seq<Event>,
                                    m: Scan, readable: (Pass, Path) -> bool)
    requires RunSoFar(cfg, H, content, tr, evs, m) && m.queue != [] && m.queue[0] < |m.st.es|
    requires OnlyUnreadable(m, readable) && !readable(m.pass, m.st.es[m.queue[0]].path)
    ensures RunSoFar(cfg, H, content, tr + [AfterSkip(cfg, m)], evs + [Skip], AfterSkip(cfg, m))
    ensures OnlyUnreadable(AfterSkip(cfg, m), readable)
  {
    hide RunSoFar;
    Extend(cfg, H, content, tr, evs, m, Skip, AfterSkip(cfg, m));
  }

  /** Only attributes other than the place on disk differ. */
  ghost predicate SamePlaces(a: Arena, b: Arena) {
    SameShape(a, b) && forall i :: 0 <= i < |a| ==> a[i].phys == b[i].phys
  }

  /** One hashing pass: the reader looks ahead in the list as `ahead` says, lets the candidates
      through, and reads them in order, passing over those it can not read. */
  method HashFiles(s: State, ids: seq<VfsId>, opts: Opts, H: Hasher, content: Path -> Bytes, ahead: nat -> bool,
                   pass: Pass, readable: (Pass, Path) -> bool,
                   ghost cfg: Config, ghost tr0: seq<Scan>, ghost evs0: seq<Event>, ghost m0: Scan)
    returns (ghost tr: seq<Scan>, ghost evs: seq<Event>, ghost m: Scan)
    requires cfg.opts == opts && HashTellsSize(H, content, m0.sized, cfg.sz)
    requires HashingPass(cfg, H, content, tr0, evs0, m0, pass, ids, 0, []) && m0.st == s.Snapshot()
    requires (pass == Hashing || pass == PostHashing) && OnlyUnreadable(m0, readable)
    modifies s, s.tree
    ensures HashingPass(cfg, H, content, tr, evs, m, pass, ids, |ids|, []) && m.st == s.Snapshot()
    ensures SamePlaces(m0.st.es, m.st.es) && tr0 <= tr && m.sized == m0.sized && m.cached == m0.cached
    ensures OnlyUnreadable(m, readable)
    ensures HitsArePlain(evs0) ==> HitsArePlain(evs)
  {
    hide RunSoFar, ReadCandidate, HashTellsSize, Sized, HitsArePlain;
    tr, evs, m := tr0, evs0, m0;
    var next, queue, turn := 0, [], 0;
    while next < |ids| || queue != []
      invariant next <= |ids| && m.st == s.Snapshot()
      invariant HashingPass(cfg, H, content, tr, evs, m, pass, ids, next, queue)
      invariant SamePlaces(m0.st.es, m.st.es) && tr0 <= tr && m.sized == m0.sized && m.cached == m0.cached
      invariant OnlyUnreadable(m, readable)
      invariant HitsArePlain(evs0) ==> HitsArePlain(evs)
      decreases 2 * (|ids| - next) + |queue|
    {
      if next < |ids| && (queue == [] || ahead(turn)) {
        ReadyToFilter(cfg, H, content, tr, evs, m);
        FilterNext(cfg, H, content, tr, evs, m);
        QuietIsPlain(evs, Filter);
        var doHash := s.IsFileReadCandidate(ids[next], opts);
        if doHash { queue := queue + [ids[next]]; }
        next := next + 1;
        m := m.(next := next, queue := queue);
        tr, evs := tr + [m], evs + [Filter];
      } else {
        tr, evs, m := ReadOldest(s, queue[0], opts, H, content, pass, readable, cfg, tr, evs, m);
        queue := queue[1..];
      }
      turn := turn + 1;
    }
  }

  /** Read the oldest candidate and store its hash, or give it up. */
  method ReadOldest(s: State, id: VfsId, opts: Opts, H: Hasher, content: Path -> Bytes, pass: Pass,
                    readable: (Pass, Path) -> bool,
                    ghost cfg: Config, ghost tr0: seq<Scan>, ghost evs0: seq<Event>, ghost m0: Scan)
    returns (ghost tr: seq<Scan>, ghost evs: seq<Event>, ghost m: Scan)
    requires cfg.opts == opts && HashTellsSize(H, content, m0.sized, cfg.sz)
    requires RunSoFar(cfg, H, content, tr0, evs0, m0) && m0.pass == pass && m0.decoded == {} && m0.st == s.Snapshot()
    requires m0.queue != [] && m0.queue[0] == id && OnlyUnreadable(m0, readable)
    modifies s, s.tree
    ensures RunSoFar(cfg, H, content, tr, evs, m) && m.st == s.Snapshot()
    ensures m == m0.(st := m.st, queue := m0.queue[1..], unread := m.unread)
    ensures SamePlaces(m0.st.es, m.st.es) && tr0 <= tr && OnlyUnreadable(m, readable)
    ensures HitsArePlain(evs0) ==> HitsArePlain(evs)
  {
    hide RunSoFar, HashTellsSize, Sized, HitsArePlain, PushHash;
    ReadyToCommit(cfg, H, content, tr0, evs0, m0);
    var path := s.tree.entries[id].path;
    if !readable(pass, path) {
      SkipNext(cfg, H, content, tr0, evs0, m0, readable);
      QuietIsPlain(evs0, Skip);
      tr, evs, m := tr0 + [AfterSkip(cfg, m0)], evs0 + [Skip], AfterSkip(cfg, m0);
      return;
    }
    var hash := H(content(path));
    CommitNext(cfg, H, content, tr0, evs0, m0, hash);
    QuietIsPlain(evs0, Commit(hash));
    s.CommitHash(id, hash, opts, cfg.sz);
    m := m0.(queue := m0.queue[1..], st := s.Snapshot(), unread := m0.unread - {id});
    tr, evs := tr0 + [m], evs0 + [Commit(hash)];
  }

  // ----- the whole scan

  /** The file has an entry with the size of its content. Unless it is an archive, it has a hash exactly
      if the loaded cache `es0` knew it, or its size is shared and within the limits and the last pass did
      not fail to read it. An archive has one and is a directory, too, exactly if the last pass did not
      fail to read it. A hash is that of the content. */
  ghost predicate FileDone(cfg: Config, H: Hasher, content: Path -> Bytes, es0: Arena, m: Scan, f: FileFound, id: VfsId)
  {
    && id in m.dest && At(m.st.es, f.path, id) && Truthful(H, content, m.st.es, id) && Filterable(m.st, id)
    && (!cfg.opts.isArchive(f.path) ==>
          (m.st.es[id].fileHash.Some? <==>
           WasKnown(content, es0, f) || (Shared(cfg.opts, m.st, id) && id !in m.unread)))
    && (cfg.opts.isArchive(f.path) ==>
          (m.st.es[id].fileHash == Some(H(content(f.path))) && m.st.es[id].isDir <==> id !in m.unread))
  }

  lemma {:induction false} EndNext(cfg: Config, H: Hasher, content: Path -> Bytes, tr: seq<Scan>, evs: seq<Event>,
                                   m: Scan, e: Event, m': Scan)
    requires RunSoFar(cfg, H, content, tr, evs, m) && e.EndPass? && EndPassEvent(m, e, m')
    ensures RunSoFar(cfg, H, content, tr + [m'], evs + [e], m')
  {
    hide RunSoFar, EndPassEvent;
    Extend(cfg, H, content, tr, evs, m, e, m');
  }

  lemma {:induction false} IdsHold(dest: seq<(nat, VfsId)>, k: nat)
    requires k < |dest|
    ensures dest[k].1 in Ids(dest)
  {
    if k > 0 { IdsHold(dest[1..], k - 1); }
  }

  lemma {:induction false} OneDone(cfg: Config, H: Hasher, content: Path -> Bytes, tr: seq<Scan>, evs: seq<Event>,
                                   m: Scan, files: seq<FileFound>, sized: Scan, dest: seq<(nat, VfsId)>, k: nat,
                                   es0: Arena)
    requires RunSoFar(cfg, H, content, tr, evs, m) && m.pass == Done && m.decoded == {}
    requires multiset(m.dest) == multiset(Ids(dest)) && m.cached == sized.cached
    requires Listed(sized.st.es, files, |files|, dest) && SamePlaces(sized.st.es, m.st.es) && k < |files|
    requires CachedAre(content, es0, sized, files, |files|, dest)
    ensures k < |dest| && FileDone(cfg, H, content, es0, m, files[k], dest[k].1)
  {
    var id := dest[k].1;
    IdsHold(dest, k);
    assert id in multiset(m.dest);
    assert At(sized.st.es, files[k].path, id) && At(m.st.es, files[k].path, id);
    assert tr[|tr| - 1] == m;
    hide Listed, SamePlaces, SameShape, Filterable, Shared, WasKnown;
    RunTruthful(cfg, H, content, tr, evs, |tr| - 1);
    var j :| 0 <= j < |m.dest| && m.dest[j] == id;
    assert Truthful(H, content, m.st.es, m.dest[j]);
    ThreePassCompleteness(cfg, tr, evs, |tr| - 1, id);
  }

  ghost predicate IsDone(cfg: Config, H: Hasher, content: Path -> Bytes, es0: Arena, m: Scan, f: FileFound) {
    exists id: VfsId :: FileDone(cfg, H, content, es0, m, f, id)
  }

  ghost predicate EveryFileDone(cfg: Config, H: Hasher, content: Path -> Bytes, es0: Arena, m: Scan,
                                files: seq<FileFound>)
  {
    forall k :: 0 <= k < |files| ==> IsDone(cfg, H, content, es0, m, files[k])
  }

  lemma {:induction false} AllDone(cfg: Config, H: Hasher, content: Path -> Bytes, tr: seq<Scan>, evs: seq<Event>,
                                   m: Scan, files: seq<FileFound>, sized: Scan, dest: seq<(nat, VfsId)>, es0: Arena)
    requires RunSoFar(cfg, H, content, tr, evs, m) && m.pass == Done && m.decoded == {}
    requires multiset(m.dest) == multiset(Ids(dest)) && m.cached == sized.cached
    requires Listed(sized.st.es, files, |files|, dest) && SamePlaces(sized.st.es, m.st.es)
    requires CachedAre(content, es0, sized, files, |files|, dest)
    ensures EveryFileDone(cfg, H, content, es0, m, files)
  {
    hide RunSoFar, Listed, SamePlaces, FileDone, CachedAre;
    forall k | 0 <= k < |files|
      ensures IsDone(cfg, H, content, es0, m, files[k])
    {
      OneDone(cfg, H, content, tr, evs, m, files, sized, dest, k, es0);
    }
  }

  /** The entries are listed in the order of their places on the disk. */
  ghost predicate InPlaceOrder(es: Arena, ids: seq<VfsId>) {
    && (forall k :: 0 <= k < |ids| ==> ids[k] < |es| && es[ids[k]].phys.Some?)
    && forall j, k :: 0 <= j < k < |ids| ==> es[ids[j]].phys.value <= es[ids[k]].phys.value
  }

  lemma {:induction false} IdsAt(dest: seq<(nat, VfsId)>, k: nat)
    requires k < |dest|
    ensures Ids(dest)[k] == dest[k].1
  {
    if k > 0 { IdsAt(dest[1..], k - 1); }
  }

  lemma {:induction false} SortedByPlace(es: Arena, files: seq<FileFound>, dest: seq<(nat, VfsId)>)
    requires Listed(es, files, |files|, dest)
    ensures InPlaceOrder(es, Ids(SortBy(dest, PhysOf)))
  {
    hide SortBy;
    var sorted := SortBy(dest, PhysOf);
    SortSorts(dest, PhysOf);
    SortSame(dest, PhysOf);
    forall k | 0 <= k < |sorted|
      ensures PlacedAt(es, sorted[k])
    {
      assert sorted[k] in multiset(sorted);
      var j :| 0 <= j < |dest| && dest[j] == sorted[k];
      assert PlacedAt(es, dest[j]);
    }
    hide Listed;
    PlacedInOrder(es, sorted);
  }

  lemma {:induction false} PlacedInOrder(es: Arena, sorted: seq<(nat, VfsId)>)
    requires Sorted(sorted, PhysOf) && forall k :: 0 <= k < |sorted| ==> PlacedAt(es, sorted[k])
    ensures InPlaceOrder(es, Ids(sorted))
  {
    forall k | 0 <= k < |sorted|
      ensures Ids(sorted)[k] == sorted[k].1
    {
      IdsAt(sorted, k);
    }
    hide Ids;
    forall j, k | 0 <= j < k < |sorted|
      ensures sorted[j].0 <= sorted[k].0
    {
      assert PhysOf(sorted[j]) <= PhysOf(sorted[k]);
    }
  }

  lemma {:induction false} PlaceOrderStays(a: Arena, b: Arena, ids: seq<VfsId>)
    requires SamePlaces(a, b) && InPlaceOrder(a, ids)
    ensures InPlaceOrder(b, ids)
  {
  }

  /** Passes 2 and 3 over the sorted list. */
  method HashPasses(s: State, ids: seq<VfsId>, opts: Opts, H: Hasher, content: Path -> Bytes, ahead: nat -> bool,
                    readable: (Pass, Path) -> bool,
                    ghost cfg: Config, ghost tr0: seq<Scan>, ghost evs0: seq<Event>, ghost m0: Scan)
    returns (ghost tr: seq<Scan>, ghost evs: seq<Event>, ghost m: Scan)
    requires cfg.opts == opts && HashTellsSize(H, content, m0.sized, cfg.sz)
    requires RunSoFar(cfg, H, content, tr0, evs0, m0) && m0.pass == Sizing && m0.queue == [] && m0.decoded == {}
    requires multiset(ids) == multiset(m0.dest) && m0.st == s.Snapshot() && m0.unread == {}
    modifies s, s.tree
    ensures RunSoFar(cfg, H, content, tr, evs, m) && m.pass == Done && m.dest == ids && m.st == s.Snapshot()
    ensures m.decoded == {} && OnlyUnreadable(m, readable)
    ensures SamePlaces(m0.st.es, m.st.es) && tr0 <= tr && m.sized == m0.sized && m.cached == m0.cached
    ensures HitsArePlain(evs0) ==> HitsArePlain(evs)
  {
    hide HashTellsSize, RunSoFar, SamePlaces, HitsArePlain;
    QuietIsPlain(evs0, EndPass(ids));
    ghost var next := m0.(pass := Hashing, dest := ids, next := 0);
    EndNext(cfg, H, content, tr0, evs0, m0, EndPass(ids), next);
    tr, evs, m := HashFiles(s, ids, opts, H, content, ahead, Hashing, readable, cfg, tr0 + [next],
                            evs0 + [EndPass(ids)], next);
    ghost var hashed := m.st.es;
    QuietIsPlain(evs, EndPass([]));
    next := m.(pass := PostHashing, next := 0);
    EndNext(cfg, H, content, tr, evs, m, EndPass([]), next);
    tr, evs, m := HashFiles(s, ids, opts, H, content, ahead, PostHashing, readable, cfg, tr + [next],
                            evs + [EndPass([])], next);
    next := m.(pass := Done);
    QuietIsPlain(evs, EndPass([]));
    EndNext(cfg, H, content, tr, evs, m, EndPass([]), next);
    tr, evs, m := tr + [next], evs + [EndPass([])], next;
    PlacesTrans(m0.st.es, hashed, m.st.es);
  }

  /** Sizing, sorting by physical offset, and two hashing passes: a run of the machine, after
      which every file found is done. `readable` tells which files a pass can read. */
  method ScanFiles(s: State, files: seq<FileFound>, opts: Opts, H: Hasher, content: Path -> Bytes, ahead: nat -> bool,
                   readable: (Pass, Path) -> bool, ghost sz: Hash -> nat)
    returns (ids: seq<VfsId>, ghost tr: seq<Scan>, ghost evs: seq<Event>, ghost m: Scan)
    requires Loaded(s.tree.entries) && s.sizes == map[] && s.hashes == map[]
    requires HashTellsSize(H, content, Paths(files), sz)
    requires Separate(files) && CacheHonestFrom(H, content, s.tree.entries, files, 0)
    requires CacheSizedFrom(content, s.tree.entries, sz, files, 0)
    requires forall k :: 0 <= k < |files| ==> Canonical(files[k].path)
    modifies s, s.tree
    ensures RunSoFar(Config(opts, sz), H, content, tr, evs, m) && m.pass == Done && m.st == s.Snapshot()
    ensures m.dest == ids && InPlaceOrder(m.st.es, ids)
    ensures EveryFileDone(Config(opts, sz), H, content, old(s.tree.entries), m, files) && OnlyUnreadable(m, readable)
    ensures m.sized == Paths(files) && tr != [] && tr[0].st == old(s.Snapshot())
    ensures CachePlainFrom(content, old(s.tree.entries), files, 0) ==> HitsArePlain(evs)
  {
    hide Loaded, HashTellsSize, Separate, CacheHonestFrom, CacheSizedFrom, CachePlainFrom, HitsArePlain, RunSoFar,
         Listed, SamePlaces, EveryFileDone, InPlaceOrder, OnlyUnreadable;
    ghost var cfg := Config(opts, sz);
    var dest;
    dest, tr, evs, m := SizePass(s, files, content, H, cfg);
    ghost var sized := m;
    assert files[..|files|] == files;
    var sorted := SortBy(dest, PhysOf);
    IdsSort(dest);
    SortedByPlace(sized.st.es, files, dest);
    ids := Ids(sorted);
    tr, evs, m := HashPasses(s, ids, opts, H, content, ahead, readable, cfg, tr, evs, m);
    PlaceOrderStays(sized.st.es, m.st.es, ids);
    AllDone(cfg, H, content, tr, evs, m, files, sized, dest, old(s.tree.entries));
  }

  lemma {:induction false} PlacesTrans(a: Arena, b: Arena, c: Arena)
    requires SamePlaces(a, b) && SamePlaces(b, c)
    ensures SamePlaces(a, c)
  {
  }
}
