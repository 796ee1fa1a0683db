/** A run that revives a file which is no longer on the disk (dupion/src/driver/platterwalker.rs,
    dupion/src/vfs/entry.rs). */
module GhostFiles {
  import opened Basics
  import opened Arenas
  import opened States
  import opened Index
  import opened Scans
  import opened ScanIndex
  import opened ScanTree
  import opened DirIndex
  import opened StaleMember

  const INNER: Path := [[1], [2]]

  /** A directory was replaced by a file; the file it held stays stored below. */
  function Inner(): VfsEntry {
    NewEntry(INNER).(ctime := Some(5), fileSize := Some(1), fileHash := Some(CONTENT_HASH), wasFile := true)
  }

  function Replaced(rootIsDir: bool): Arena {
    [NewEntry([]).(childs := [1], isDir := rootIsDir), CachedFile().(childs := [2]), Inner()]
  }

  /** A chain of three entries. */
  ghost predicate Chain(es: Arena) {
    && |es| == 3 && es[0].path == [] && es[0].childs == [1]
    && es[1].path == FILE && es[1].plc == FILE[0] && es[1].childs == [2]
    && es[2].path == INNER && es[2].plc == INNER[1] && es[2].childs == []
  }

  lemma {:induction false} ChainTree(es: Arena)
    requires Chain(es)
    ensures Tree(es)
  {
    assert es[0].childs[0] == 1 && es[1].childs[0] == 2;
    assert HasParent(es, 1) && HasParent(es, 2);
    assert Link(es, 0, 1) && Link(es, 1, 2);
  }

  lemma {:induction false} ReplacedIsLoaded()
    ensures Loaded(Replaced(false))
  {
    hide Tree;
    ChainTree(Replaced(false));
  }

  lemma {:induction false} ReplacedIsLookedUp()
    ensures Tree(Replaced(true)) && Created(Replaced(false), FILE, Replaced(true), 1)
  {
    hide Tree;
    ChainTree(Replaced(true));
  }

  lemma {:induction false} ReplacedFits()
    ensures Revivable(Replaced(true), 1, Settings().sz) && SizedFile(Replaced(true)[1], Settings().sz)
  {
  }

  /** One step sizes a file that did not change; after it an entry below the file is a file of the
      same hash group, although nothing was found at its path. */
  ghost predicate Revives(cfg: Config, tr: seq<Scan>, evs: seq<Event>) {
    && PlainRun(cfg, tr, evs) && HitsArePlain(evs) && |evs| == 1
    && var s := tr[1];
       && |s.st.es| == 3 && !OnDisk(s.sized, s.st.es[2].path)
       && s.st.es[2].isFile && InHash(s.st.hashes, CONTENT_HASH, 2) && CountHashes(s.st.hashes, CONTENT_HASH) > 1
  }

  lemma {:induction false} OneStep(cfg: Config, s0: Scan, e: Event, s1: Scan)
    requires Init(cfg, s0) && Step(cfg, s0, e, s1) && Careful(s0, e) && e.Size?
    requires forall p :: !cfg.opts.isArchive(p)
    requires IsHit(e) ==> !e.made[e.id].wasDir
    ensures PlainRun(cfg, [s0, s1], [e]) && HitsArePlain([e])
  {
    hide Init, Step, Careful, IsHit;
  }

  /** An unchanged file revives the file stored below it. */
  lemma {:induction false} RevivesInner(cfg: Config, s0: Scan, e: Event, s1: Scan)
    requires e.Size? && SizeEvent(cfg, s0, e, s1) && e.made == Replaced(true) && IsHit(e) && e.path == FILE && e.id == 1
    requires HashInv(s1.st, cfg.sz)
    ensures |s1.st.es| == 3 && s1.st.es[2].path == INNER && s1.st.es[2].isFile && InHash(s1.st.hashes, CONTENT_HASH, 2)
  {
    SizeOther(cfg, s0, e, s1, 2);
    hide SizeEvent;
    assert FILE < INNER;
    assert Indexed(s1.st.es[2], 2, s1.st.hashes);
  }

  /** The state after the file was sized. */
  lemma {:induction false} SizedUnchanged(cfg: Config) returns (st1: St)
    requires cfg == Settings()
    ensures CanSize(St(Replaced(true), map[], map[]), 1, 1, 1, cfg.sz)
    ensures SizeStep(St(Replaced(true), map[], map[]), 1, 1, 1, 0, 0, cfg.sz, st1)
    ensures HashInv(st1, cfg.sz) && InHash(st1.hashes, CONTENT_HASH, 1)
  {
    ReplacedIsLoaded();
    ReplacedIsLookedUp();
    ReplacedFits();
    var st0, looked := St(Replaced(false), map[], map[]), St(Replaced(true), map[], map[]);
    hide Loaded, Created, Tree, SizeStep, Sized, SizedValid, HashIndex, InHash, Revivable;
    LoadedIndex(st0.es, cfg.sz);
    CreatedKeepsIndex(st0, FILE, Replaced(true), 1, cfg.sz);
    st1 := Sizable(looked, 1, 1, 1, cfg.sz);
    HitIsGrouped(looked, 1, 1, 1, cfg.sz, st1);
  }

  lemma {:induction false} NothingAtInner()
    ensures !OnDisk({FILE}, INNER)
  {
    assert !(INNER <= FILE);
  }

  /** The step that sizes the file. */
  lemma {:induction false} SizeAgain(cfg: Config) returns (s0: Scan, e: Event, s1: Scan)
    requires cfg == Settings()
    ensures Init(cfg, s0) && e == Size(FILE, 1, 1, 0, 0, Replaced(true), 1) && SizeEvent(cfg, s0, e, s1)
    ensures s0.sized == {} && s1.sized == {FILE} && HashInv(s1.st, cfg.sz) && InHash(s1.st.hashes, CONTENT_HASH, 1)
  {
    ReplacedIsLoaded();
    ReplacedIsLookedUp();
    s0 := Scan(St(Replaced(false), map[], map[]), Sizing, [], 0, [], {}, {}, {}, {});
    hide Loaded, Created, Tree, SizeStep, CanSize, HashInv, InHash;
    var st1 := SizedUnchanged(cfg);
    e := Size(FILE, 1, 1, 0, 0, Replaced(true), 1);
    s1 := AfterSize(cfg, s0, e, st1);
  }

  lemma {:induction false} ReplacedDirectory() returns (cfg: Config, tr: seq<Scan>, evs: seq<Event>)
    ensures Revives(cfg, tr, evs)
  {
    cfg := Settings();
    var s0, e, s1 := SizeAgain(cfg);
    hide Init, SizeEvent, PlainRun, HitsArePlain, OnDisk, InHash, HashInv;
    OneStep(cfg, s0, e, s1);
    RevivesInner(cfg, s0, e, s1);
    TwoInGroup(s1.st, CONTENT_HASH, 1, 2);
    tr, evs := [s0, s1], [e];
    NothingAtInner();
  }
}
