/** A run that leaves a stale member in a hash group (dupion/src/driver/platterwalker.rs,
    dupion/src/vfs/entry.rs). */
module StaleMember {
  import opened Basics
  import opened Arenas
  import opened States
  import opened Index
  import opened Scans
  import opened ScanIndex

  const FILE: Path := [[1]]
  const CONTENT_HASH: Hash := [7]

  /** The loaded entry of a file of one byte, with its hash. */
  function CachedFile(): VfsEntry {
    NewEntry(FILE).(ctime := Some(1), fileSize := Some(1), fileHash := Some(CONTENT_HASH), wasFile := true)
  }

  function CachedArena(): Arena {
    [NewEntry([]).(childs := [1]), CachedFile()]
  }

  /** The same after its path was looked up. */
  function LookedUp(): Arena {
    [NewEntry([]).(childs := [1], isDir := true), CachedFile()]
  }

  function Settings(): Config {
    Config(Opts(_ => false, 0, 100), _ => 1)
  }

  /** A root with one child. */
  ghost predicate TwoEntries(es: Arena) {
    && |es| == 2 && es[0].path == [] && es[0].childs == [1]
    && es[1].path == FILE && es[1].plc == FILE[0] && es[1].childs == []
  }

  lemma {:induction false} TwoEntriesTree(es: Arena)
    requires TwoEntries(es)
    ensures Tree(es)
  {
    assert es[0].childs[0] == 1;
    assert HasParent(es, 1);
    assert Link(es, 0, 1);
  }

  lemma {:induction false} ArenaIsLoaded()
    ensures Loaded(CachedArena())
  {
    hide Tree;
    TwoEntriesTree(CachedArena());
  }

  lemma {:induction false} ArenaIsLookedUp()
    ensures Tree(LookedUp()) && Created(CachedArena(), FILE, LookedUp(), 1)
    ensures Revivable(LookedUp(), 1, Settings().sz) && SizedFile(LookedUp()[1], Settings().sz)
  {
    hide Tree;
    TwoEntriesTree(LookedUp());
  }

  /** Nothing is indexed in a loaded arena, and nothing needs to be. */
  lemma {:induction false} LoadedIndex(es: Arena, sz: Hash -> nat)
    requires Loaded(es)
    ensures HashInv(St(es, map[], map[]), sz)
  {
  }

  /** Sizing an entry of a coherent state is always possible. */
  lemma {:induction false} Sizable(st: St, id: VfsId, size: nat, ctime: int, sz: Hash -> nat) returns (st': St)
    requires CanSize(st, id, size, ctime, sz)
    ensures SizeStep(st, id, size, ctime, 0, 0, sz, st')
  {
    ValidatedEntry(st, id, ctime, size, sz);
    st' := Found(Validated(st, id, ctime, Some(size), None, sz), id, size, 0, 0);
  }

  /** After a cache hit the file is valid, keeps its hash and its change time, and is grouped. */
  lemma {:induction false} HitIsGrouped(st: St, id: VfsId, size: nat, ctime: int, sz: Hash -> nat, st': St)
    requires HashInv(st, sz) && CanSize(st, id, size, ctime, sz) && SizeStep(st, id, size, ctime, 0, 0, sz, st')
    requires Unchanged(st.es[id], ctime, Some(size), None) && st.es[id].fileHash.Some? && !st.es[id].unique
    ensures HashInv(st', sz) && |st'.es| == |st.es|
    ensures st'.es[id].ctime == Some(ctime) && st'.es[id].path == st.es[id].path
    ensures InHash(st'.hashes, st.es[id].fileHash.value, id)
  {
    SizeKeepsHashes(st, id, size, ctime, 0, 0, sz, st');
    PreorderFits(st.es, id, sz);
    PreorderIsSubtree(st.es, id, id);
    ValidateAllEntry(st, Preorder(st.es, id), id, sz);
    hide Tree, ValidateAll, Preorder, PushSize, PushHash;
    assert st'.es[id].fileHash == st.es[id].fileHash && st'.es[id].isFile;
    assert Indexed(st'.es[id], id, st'.hashes);
  }

  /** Looking up a stored path changes nothing once its directories are marked. */
  lemma {:induction false} LookupChangesNothing(es: Arena, path: Path, id: VfsId)
    requires Tree(es) && At(es, path, id)
    requires forall i :: 0 <= i < |es| && es[i].path < path ==> es[i].isDir
    ensures Created(es, path, es, id)
  {
  }

  /** Two steps size one path; the first keeps hash index agreement, the second leaves the entry
      a member of the group of a hash it no longer has. */
  ghost predicate LeavesStale(cfg: Config, tr: seq<Scan>, evs: seq<Event>) {
    && Run(cfg, tr, evs) && |evs| == 2 && evs[0].Size? && evs[1].Size? && evs[0].path == evs[1].path
    && HashInv(tr[1].st, cfg.sz) && !HashInv(tr[2].st, cfg.sz)
    && InHash(tr[2].st.hashes, CONTENT_HASH, 1) && |tr[2].st.es| > 1 && tr[2].st.es[1].fileHash == None
  }

  lemma {:induction false} TwoSteps(cfg: Config, s0: Scan, first: Event, s1: Scan, second: Event, s2: Scan)
    requires Init(cfg, s0) && Step(cfg, s0, first, s1) && Step(cfg, s1, second, s2)
    ensures Run(cfg, [s0, s1, s2], [first, second])
  {
    hide Init, Step;
    var tr, evs := [s0, s1, s2], [first, second];
    forall i | 0 <= i < |evs|
      ensures Step(cfg, tr[i], evs[i], tr[i + 1])
    {
      if i == 0 { assert tr[1] == s1; } else { assert i == 1 && tr[2] == s2; }
    }
  }

  /** After the hit, the lookup of the path finds everything in place. */
  lemma {:induction false} LookedUpAgain(cfg: Config, s0: Scan, first: Event, s1: Scan)
    requires first.Size? && first.made == LookedUp() && first.id == 1 && first.path == FILE
    requires SizeEvent(cfg, s0, first, s1) && Tree(s1.st.es) && |s1.st.es| == 2 && At(s1.st.es, FILE, 1)
    ensures Created(s1.st.es, FILE, s1.st.es, 1)
  {
    SizeOther(cfg, s0, first, s1, 0);
    hide Tree, SizeEvent;
    LookupChangesNothing(s1.st.es, FILE, 1);
  }

  /** The state after the unchanged file was sized. */
  lemma {:induction false} Unaltered(cfg: Config) returns (st1: St)
    requires cfg == Settings()
    ensures CanSize(St(LookedUp(), map[], map[]), 1, 1, 1, cfg.sz)
    ensures SizeStep(St(LookedUp(), map[], map[]), 1, 1, 1, 0, 0, cfg.sz, st1)
    ensures HashInv(st1, cfg.sz) && |st1.es| == 2 && At(st1.es, FILE, 1)
    ensures st1.es[1].ctime == Some(1) && InHash(st1.hashes, CONTENT_HASH, 1)
  {
    ArenaIsLoaded();
    ArenaIsLookedUp();
    var st0, looked := St(CachedArena(), map[], map[]), St(LookedUp(), map[], map[]);
    hide Loaded, Created, Tree, SizeStep, Sized, SizedValid, HashIndex, InHash, Revivable;
    LoadedIndex(st0.es, cfg.sz);
    CreatedKeepsIndex(st0, FILE, LookedUp(), 1, cfg.sz);
    st1 := Sizable(looked, 1, 1, 1, cfg.sz);
    HitIsGrouped(looked, 1, 1, 1, cfg.sz, st1);
  }

  /** The file is sized while it is unchanged. */
  lemma {:induction false} FirstSize(cfg: Config) returns (s0: Scan, first: Event, s1: Scan)
    requires cfg == Settings()
    ensures Init(cfg, s0) && first == Size(FILE, 1, 1, 0, 0, LookedUp(), 1) && SizeEvent(cfg, s0, first, s1)
    ensures s1.pass == Sizing && HashInv(s1.st, cfg.sz) && |s1.st.es| == 2 && At(s1.st.es, FILE, 1)
    ensures s1.st.es[1].ctime == Some(1) && InHash(s1.st.hashes, CONTENT_HASH, 1)
  {
    ArenaIsLoaded();
    ArenaIsLookedUp();
    s0 := Scan(St(CachedArena(), map[], map[]), Sizing, [], 0, [], {}, {}, {}, {});
    hide Loaded, Created, Tree, SizeStep, CanSize, HashInv, InHash, SizeEvent;
    var st1 := Unaltered(cfg);
    first := Size(FILE, 1, 1, 0, 0, LookedUp(), 1);
    s1 := AfterSize(cfg, s0, first, st1);
    SizingStays(cfg, s0, first, s1);
  }

  lemma {:induction false} SizingStays(cfg: Config, s: Scan, e: Event, s': Scan)
    requires e.Size? && SizeEvent(cfg, s, e, s')
    ensures s'.pass == Sizing
  {
  }

  /** The file is sized while it is unchanged, and sized again after it changed. */
  lemma {:induction false} SizedTwice() returns (cfg: Config, tr: seq<Scan>, evs: seq<Event>)
    ensures LeavesStale(cfg, tr, evs)
  {
    cfg := Settings();
    var s0, first, s1 := FirstSize(cfg);
    hide Loaded, Created, Tree, SizeStep, Sized, SizedValid, HashIndex, SizeEvent, InHash, Revivable, Init;
    LookedUpAgain(cfg, s0, first, s1);
    var st2 := Sizable(s1.st, 1, 2, 2, cfg.sz);
    MissKeepsMember(s1.st, 1, 2, 2, cfg.sz, st2, CONTENT_HASH);
    var second := Size(FILE, 2, 2, 0, 0, s1.st.es, 1);
    var s2 := AfterSize(cfg, s1, second, st2);
    TwoSteps(cfg, s0, first, s1, second, s2);
    tr, evs := [s0, s1, s2], [first, second];
  }

  /** A miss forgets the hash of the entry but leaves the groups alone. */
  lemma {:induction false} MissKeepsMember(st: St, id: VfsId, size: nat, ctime: int, sz: Hash -> nat, st': St, h: Hash)
    requires HashInv(st, sz) && CanSize(st, id, size, ctime, sz) && SizeStep(st, id, size, ctime, 0, 0, sz, st')
    requires !Unchanged(st.es[id], ctime, Some(size), None) && InHash(st.hashes, h, id)
    ensures |st'.es| == |st.es| && st'.es[id].fileHash == None && InHash(st'.hashes, h, id)
    ensures !HashInv(st', sz)
  {
    SizeKeepsHashesIff(st, id, size, ctime, 0, 0, sz, st');
    hide HashInv;
    assert Grouped(st.hashes, id);
  }
}
