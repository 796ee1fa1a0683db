/** What the arena looks like along a scan in which no archive is read: what is on the disk, and what
    the cache revives besides (dupion/src/driver/platterwalker.rs, dupion/src/vfs/entry.rs). */
module ScanTree {
  import opened Arenas
  import opened Scans
  import opened ScanIndex

  /** A careful run in which no archive is read. */
  ghost predicate PlainRun(cfg: Config, tr: seq<Scan>, evs: seq<Event>) {
    CarefulRun(cfg, tr, evs) && (forall p :: !cfg.opts.isArchive(p)) && forall i :: 0 <= i < |evs| ==> !evs[i].Decode?
  }

  /** The scanned files that had not changed since the cache was stored. */
  ghost function Hits(evs: seq<Event>): set<Path> {
    set i | 0 <= i < |evs| && IsHit(evs[i]) :: evs[i].path
  }

  /** No unchanged file was stored as a directory, too, as archives are. */
  ghost predicate HitsArePlain(evs: seq<Event>) {
    forall i :: 0 <= i < |evs| && IsHit(evs[i]) ==> !evs[i].made[evs[i].id].wasDir
  }

  /** Some scanned path lies below `p`. */
  ghost predicate AboveSized(sized: set<Path>, p: Path) {
    exists q :: q in sized && p < q
  }

  /** The path of a file found, or of a directory above one. */
  ghost predicate OnDisk(sized: set<Path>, p: Path) {
    p in sized || AboveSized(sized, p)
  }

  ghost predicate BelowHit(hits: set<Path>, p: Path) {
    exists h :: h in hits && h < p
  }

  /** An entry is a file if it was scanned, or if it was one and lies below an unchanged file; it is a
      directory if something scanned lies below it, or if it was one and is or lies below an
      unchanged file. */
  ghost predicate EntryInv(s: Scan, hits: set<Path>, i: VfsId)
    requires i < |s.st.es|
  {
    var e := s.st.es[i];
    && (e.isFile <==> e.path in s.sized || (e.wasFile && BelowHit(hits, e.path)))
    && (e.isDir <==> AboveSized(s.sized, e.path) || (e.wasDir && (e.path in hits || BelowHit(hits, e.path))))
    && (e.path in s.sized ==> e.fileSize.Some?)
  }

  ghost predicate InDest(s: Scan, p: Path) {
    exists k :: 0 <= k < |s.dest| && At(s.st.es, p, s.dest[k])
  }

  /** No scanned path lies above another one. */
  ghost predicate SizedApart(sized: set<Path>) {
    forall p, q :: p in sized && q in sized ==> !(p < q)
  }

  ghost predicate TreeInv(s: Scan, hits: set<Path>) {
    && (forall i :: 0 <= i < |s.st.es| ==> EntryInv(s, hits, i))
    && (forall p :: p in s.sized ==> InDest(s, p))
    && SizedApart(s.sized) && hits <= s.sized
  }

  // ----- sizing

  lemma {:induction false} AboveMore(sized: set<Path>, p: Path, q: Path)
    ensures AboveSized(sized + {q}, p) <==> AboveSized(sized, p) || p < q
  {
    if p < q { assert q in sized + {q}; }
    if AboveSized(sized, p) {
      var r :| r in sized && p < r;
      assert r in sized + {q};
    }
  }

  lemma {:induction false} BelowMore(hits: set<Path>, p: Path, q: Path)
    ensures BelowHit(hits + {q}, p) <==> BelowHit(hits, p) || q < p
  {
    if q < p { assert q in hits + {q}; }
    if BelowHit(hits, p) {
      var r :| r in hits && r < p;
      assert r in hits + {q};
    }
  }

  /** What creating a path tells about an entry. */
  lemma {:induction false} CreatedFacts(es: Arena, path: Path, es': Arena, id: VfsId, i: VfsId)
    requires Created(es, path, es', id) && i < |es'|
    ensures if i < |es| then es'[i] == es[i].(isDir := es[i].isDir || es[i].path < path, childs := es'[i].childs)
            else es'[i].path <= path
                 && es'[i] == NewEntry(es'[i].path).(isDir := es'[i].path < path, childs := es'[i].childs)
  {
    if i < |es| { assert KeptEntry(es[i], path, es'[i]); } else { assert FreshEntry(path, es'[i]); }
  }

  ghost function HitsAfter(hits: set<Path>, e: Event): set<Path>
    requires e.Size?
  {
    if IsHit(e) then hits + {e.path} else hits
  }

  /** Created and revived, another entry is what the disk and the unchanged files make of it. */
  lemma {:induction false} SizeKeepsOther(cfg: Config, s: Scan, hits: set<Path>, e: Event, s': Scan, i: VfsId)
    requires TreeInv(s, hits) && e.Size? && Careful(s, e) && SizeEvent(cfg, s, e, s')
    requires i < |s'.st.es| && i != e.id
    ensures EntryInv(s', HitsAfter(hits, e), i)
  {
    SizeOther(cfg, s, e, s', i);
    if e.made[i].path == e.path { PathsUnique(e.made, i, e.id); }
    CreatedFacts(s.st.es, e.path, e.made, e.id, i);
    AboveMore(s.sized, e.made[i].path, e.path);
    BelowMore(hits, e.made[i].path, e.path);
    hide SizeEvent, Created, AboveSized, BelowHit;
    if i < |s.st.es| { assert EntryInv(s, hits, i); }
  }

  lemma {:induction false} SizeKeepsOwn(cfg: Config, s: Scan, hits: set<Path>, e: Event, s': Scan)
    requires TreeInv(s, hits) && e.Size? && Careful(s, e) && SizeEvent(cfg, s, e, s')
    ensures e.id < |s'.st.es| && EntryInv(s', HitsAfter(hits, e), e.id)
  {
    SizeOwn(cfg, s, e, s');
    CreatedFacts(s.st.es, e.path, e.made, e.id, e.id);
    AboveMore(s.sized, e.path, e.path);
    assert !AboveSized(s.sized, e.path) && !BelowHit(hits, e.path);
    hide SizeEvent, Created, AboveSized, BelowHit;
    BelowMore(hits, e.path, e.path);
    if e.id < |s.st.es| { assert EntryInv(s, hits, e.id); }
  }

  lemma {:induction false} SizedMore(cfg: Config, s: Scan, e: Event, s': Scan)
    requires e.Size? && SizeEvent(cfg, s, e, s')
    ensures s'.sized == s.sized + {e.path} && s'.dest == s.dest + [e.id]
  {
  }

  lemma {:induction false} SizeKeepsDest(cfg: Config, s: Scan, e: Event, s': Scan, p: Path)
    requires e.Size? && SizeEvent(cfg, s, e, s') && p in s'.sized && (p in s.sized ==> InDest(s, p))
    requires forall k :: 0 <= k < |s.dest| ==> s.dest[k] < |s.st.es|
    ensures InDest(s', p)
  {
    if p in s.sized {
      var k :| 0 <= k < |s.dest| && At(s.st.es, p, s.dest[k]);
      SizeArena(cfg, s, e, s', s.dest[k]);
      CreatedFacts(s.st.es, e.path, e.made, e.id, s.dest[k]);
      assert s'.dest[k] == s.dest[k];
    } else {
      SizeOwn(cfg, s, e, s');
      assert s'.dest[|s.dest|] == e.id;
    }
  }

  lemma {:induction false} SizeKeepsTree(cfg: Config, s: Scan, hits: set<Path>, e: Event, s': Scan)
    requires TreeInv(s, hits) && e.Size? && Careful(s, e) && SizeEvent(cfg, s, e, s')
    requires forall k :: 0 <= k < |s.dest| ==> s.dest[k] < |s.st.es|
    ensures TreeInv(s', HitsAfter(hits, e))
  {
    hide EntryInv, SizeEvent, InDest, IsHit;
    SizeKeepsOwn(cfg, s, hits, e, s');
    forall i | 0 <= i < |s'.st.es|
      ensures EntryInv(s', HitsAfter(hits, e), i)
    {
      if i != e.id { SizeKeepsOther(cfg, s, hits, e, s', i); }
    }
    forall p | p in s'.sized
      ensures InDest(s', p)
    {
      SizeKeepsDest(cfg, s, e, s', p);
    }
    SizedMore(cfg, s, e, s');
  }

  // ----- the other steps

  /** A step that moves nothing and changes neither flags nor sizes. */
  lemma {:induction false} QuietKeepsTree(s: Scan, hits: set<Path>, s': Scan)
    requires TreeInv(s, hits) && s'.sized == s.sized && multiset(s'.dest) == multiset(s.dest)
    requires |s'.st.es| == |s.st.es|
    requires forall i :: 0 <= i < |s.st.es| ==> s'.st.es[i] == s.st.es[i].(fileHash := s'.st.es[i].fileHash)
    ensures TreeInv(s', hits)
  {
    forall i | 0 <= i < |s'.st.es|
      ensures EntryInv(s', hits, i)
    {
      assert EntryInv(s, hits, i);
    }
    forall p | p in s'.sized
      ensures InDest(s', p)
    {
      assert InDest(s, p);
      var k :| 0 <= k < |s.dest| && At(s.st.es, p, s.dest[k]);
      assert s.dest[k] in multiset(s'.dest);
      var j :| 0 <= j < |s'.dest| && s'.dest[j] == s.dest[k];
      assert At(s'.st.es, p, s'.dest[j]);
    }
  }

  lemma {:induction false} CommitKeepsTree(cfg: Config, s: Scan, hits: set<Path>, e: Event, s': Scan)
    requires TreeInv(s, hits) && e.Commit? && CommitEvent(cfg, s, e, s') && forall p :: !cfg.opts.isArchive(p)
    ensures TreeInv(s', hits)
  {
    hide TreeInv;
    QuietKeepsTree(s, hits, s');
  }

  lemma {:induction false} FilterKeepsTree(cfg: Config, s: Scan, hits: set<Path>, s': Scan)
    requires TreeInv(s, hits) && FilterEvent(cfg, s, s')
    ensures TreeInv(s', hits)
  {
    hide TreeInv;
    QuietKeepsTree(s, hits, s');
  }

  lemma {:induction false} SkipKeepsTree(cfg: Config, s: Scan, hits: set<Path>, s': Scan)
    requires TreeInv(s, hits) && SkipEvent(cfg, s, s')
    ensures TreeInv(s', hits)
  {
    hide TreeInv;
    QuietKeepsTree(s, hits, s');
  }

  lemma {:induction false} EndPassKeepsTree(s: Scan, hits: set<Path>, e: Event, s': Scan)
    requires TreeInv(s, hits) && e.EndPass? && EndPassEvent(s, e, s')
    ensures TreeInv(s', hits)
  {
    hide TreeInv;
    QuietKeepsTree(s, hits, s');
  }

  lemma {:induction false} DestInRange(cfg: Config, s: Scan)
    requires ScanInv(cfg, s)
    ensures forall k :: 0 <= k < |s.dest| ==> s.dest[k] < |s.st.es|
  {
    forall k | 0 <= k < |s.dest|
      ensures s.dest[k] < |s.st.es|
    {
      assert FileInv(cfg, s, s.dest[k]);
    }
  }

  lemma {:induction false} StepKeepsTree(cfg: Config, s: Scan, hits: set<Path>, e: Event, s': Scan)
    requires ScanInv(cfg, s) && TreeInv(s, hits) && Step(cfg, s, e, s') && Careful(s, e) && !e.Decode?
    requires forall p :: !cfg.opts.isArchive(p)
    ensures TreeInv(s', if e.Size? then HitsAfter(hits, e) else hits)
  {
    hide TreeInv, ScanInv, Careful, SizeEvent, CommitEvent, FilterEvent, SkipEvent, EndPassEvent;
    match e
    case Size(_, _, _, _, _, _, _) =>
      DestInRange(cfg, s);
      SizeKeepsTree(cfg, s, hits, e, s');
    case Filter => FilterKeepsTree(cfg, s, hits, s');
    case Skip => SkipKeepsTree(cfg, s, hits, s');
    case Commit(_) => CommitKeepsTree(cfg, s, hits, e, s');
    case EndPass(_) => EndPassKeepsTree(s, hits, e, s');
  }

  lemma {:induction false} LoadedTree(cfg: Config, s: Scan)
    requires Init(cfg, s)
    ensures TreeInv(s, {})
  {
  }

  lemma {:induction false} HitsPush(evs: seq<Event>, n: nat)
    requires n < |evs|
    ensures Hits(evs[..n + 1]) == if evs[n].Size? then HitsAfter(Hits(evs[..n]), evs[n]) else Hits(evs[..n])
  {
    var a, b := evs[..n], evs[..n + 1];
    forall p | p in Hits(a)
      ensures p in Hits(b)
    {
      var k :| 0 <= k < |a| && IsHit(a[k]) && a[k].path == p;
      assert b[k] == a[k];
    }
    forall p | p in Hits(b)
      ensures p in Hits(a) || (IsHit(evs[n]) && p == evs[n].path)
    {
      var k :| 0 <= k < |b| && IsHit(b[k]) && b[k].path == p;
      if k < n { assert a[k] == b[k]; }
    }
    assert b[n] == evs[n];
  }

  /** Along a run in which no archive is read, what the loaded arena knew decides only about entries
      below unchanged files. */
  lemma {:induction false} RunKeepsTree(cfg: Config, tr: seq<Scan>, evs: seq<Event>, n: nat)
    requires PlainRun(cfg, tr, evs) && n < |tr|
    ensures TreeInv(tr[n], Hits(evs[..n]))
  {
    hide TreeInv, Careful, ScanInv, Step, Hits;
    if n == 0 {
      LoadedTree(cfg, tr[0]);
      assert Hits(evs[..0]) == {} by { NoHits(); }
    } else {
      RunKeepsTree(cfg, tr, evs, n - 1);
      RunKeeps(cfg, tr, evs, n - 1);
      assert Step(cfg, tr[n - 1], evs[n - 1], tr[n]) && Careful(tr[n - 1], evs[n - 1]);
      StepKeepsTree(cfg, tr[n - 1], Hits(evs[..n - 1]), evs[n - 1], tr[n]);
      HitsPush(evs, n - 1);
    }
  }

  lemma {:induction false} NoHits()
    ensures Hits([]) == {}
  {
  }

  // ----- what was stored stays known

  /** The flags of the loaded arena, none for entries made since. */
  ghost predicate StoredFlags(es0: Arena, es: Arena) {
    |es0| <= |es| && forall i :: 0 <= i < |es| ==> StoredFlag(es0, es, i)
  }

  ghost predicate StoredFlag(es0: Arena, es: Arena, i: VfsId)
    requires i < |es|
  {
    if i < |es0| then es[i].wasFile == es0[i].wasFile && es[i].wasDir == es0[i].wasDir && es[i].path == es0[i].path
    else !es[i].wasFile && !es[i].wasDir
  }

  lemma {:induction false} SizeKeepsFlag(es0: Arena, cfg: Config, s: Scan, e: Event, s': Scan, i: VfsId)
    requires StoredFlags(es0, s.st.es) && e.Size? && SizeEvent(cfg, s, e, s') && i < |s'.st.es|
    ensures StoredFlag(es0, s'.st.es, i)
  {
    CreatedFacts(s.st.es, e.path, e.made, e.id, i);
    if i == e.id { SizeOwn(cfg, s, e, s'); } else { SizeOther(cfg, s, e, s', i); }
    hide SizeEvent, Created, IsHit;
    if i < |s.st.es| { assert StoredFlag(es0, s.st.es, i); }
  }

  lemma {:induction false} StepKeepsFlags(es0: Arena, cfg: Config, s: Scan, e: Event, s': Scan)
    requires StoredFlags(es0, s.st.es) && Step(cfg, s, e, s') && !e.Decode?
    ensures StoredFlags(es0, s'.st.es)
  {
    if e.Size? { SizedGrows(cfg, s, e, s'); }
    forall i | 0 <= i < |s'.st.es|
      ensures StoredFlag(es0, s'.st.es, i)
    {
      if e.Size? {
        hide SizeEvent;
        SizeKeepsFlag(es0, cfg, s, e, s', i);
      } else {
        assert StoredFlag(es0, s.st.es, i);
      }
    }
  }

  lemma {:induction false} SizedGrows(cfg: Config, s: Scan, e: Event, s': Scan)
    requires e.Size? && SizeEvent(cfg, s, e, s')
    ensures |s.st.es| <= |s'.st.es|
  {
    SizeOwn(cfg, s, e, s');
  }

  lemma {:induction false} RunKeepsFlags(cfg: Config, tr: seq<Scan>, evs: seq<Event>, n: nat)
    requires PlainRun(cfg, tr, evs) && n < |tr|
    ensures StoredFlags(tr[0].st.es, tr[n].st.es)
  {
    if n > 0 {
      hide StoredFlags, Step;
      RunKeepsFlags(cfg, tr, evs, n - 1);
      assert Step(cfg, tr[n - 1], evs[n - 1], tr[n]);
      StepKeepsFlags(tr[0].st.es, cfg, tr[n - 1], evs[n - 1], tr[n]);
    }
  }

  /** An entry off the disk is a file exactly if it was one when the cache was stored and lies below
      an unchanged file, and likewise a directory. */
  lemma {:induction false} OffDiskIff(cfg: Config, tr: seq<Scan>, evs: seq<Event>, n: nat, i: VfsId)
    requires PlainRun(cfg, tr, evs) && n < |tr|
    requires i < |tr[n].st.es| && !OnDisk(tr[n].sized, tr[n].st.es[i].path)
    ensures var e, es0, below := tr[n].st.es[i], tr[0].st.es, BelowHit(Hits(evs[..n]), tr[n].st.es[i].path);
      && (e.isFile <==> i < |es0| && es0[i].wasFile && below)
      && (e.isDir <==> i < |es0| && es0[i].wasDir && below)
  {
    RunKeepsTree(cfg, tr, evs, n);
    RunKeepsFlags(cfg, tr, evs, n);
    assert EntryInv(tr[n], Hits(evs[..n]), i);
    assert StoredFlag(tr[0].st.es, tr[n].st.es, i);
  }

  // ----- unchanged files that are only files

  ghost predicate NoHitDirs(s: Scan, hits: set<Path>) {
    forall i :: 0 <= i < |s.st.es| && s.st.es[i].path in hits ==> !s.st.es[i].wasDir
  }

  lemma {:induction false} SizeKeepsHitDirs(cfg: Config, s: Scan, hits: set<Path>, e: Event, s': Scan)
    requires NoHitDirs(s, hits) && hits <= s.sized && e.Size? && Careful(s, e) && SizeEvent(cfg, s, e, s')
    requires IsHit(e) ==> !e.made[e.id].wasDir
    ensures NoHitDirs(s', HitsAfter(hits, e))
  {
    forall i | 0 <= i < |s'.st.es| && s'.st.es[i].path in HitsAfter(hits, e)
      ensures !s'.st.es[i].wasDir
    {
      SizeArena(cfg, s, e, s', i);
      CreatedFacts(s.st.es, e.path, e.made, e.id, i);
      if i == e.id {
        SizeOwn(cfg, s, e, s');
      } else {
        SizeOther(cfg, s, e, s', i);
        if e.made[i].path == e.path { PathsUnique(e.made, i, e.id); }
      }
    }
  }

  lemma {:induction false} StepKeepsHitDirs(cfg: Config, s: Scan, hits: set<Path>, e: Event, s': Scan)
    requires NoHitDirs(s, hits) && hits <= s.sized && Careful(s, e) && Step(cfg, s, e, s') && !e.Decode?
    requires IsHit(e) ==> !e.made[e.id].wasDir
    ensures NoHitDirs(s', if e.Size? then HitsAfter(hits, e) else hits)
  {
    if e.Size? {
      SizeKeepsHitDirs(cfg, s, hits, e, s');
    }
  }

  lemma {:induction false} HitsAreSized(s: Scan, hits: set<Path>)
    requires TreeInv(s, hits)
    ensures hits <= s.sized
  {
  }

  lemma {:induction false} RunKeepsHitDirs(cfg: Config, tr: seq<Scan>, evs: seq<Event>, n: nat)
    requires PlainRun(cfg, tr, evs) && HitsArePlain(evs) && n < |tr|
    ensures NoHitDirs(tr[n], Hits(evs[..n]))
  {
    if n == 0 {
      NoHits();
      assert evs[..0] == [];
    } else {
      hide NoHitDirs, Careful, Step, Hits, IsHit, TreeInv;
      RunKeepsHitDirs(cfg, tr, evs, n - 1);
      assert Step(cfg, tr[n - 1], evs[n - 1], tr[n]) && Careful(tr[n - 1], evs[n - 1]);
      RunKeepsTree(cfg, tr, evs, n - 1);
      HitsAreSized(tr[n - 1], Hits(evs[..n - 1]));
      StepKeepsHitDirs(cfg, tr[n - 1], Hits(evs[..n - 1]), evs[n - 1], tr[n]);
      HitsPush(evs, n - 1);
    }
  }

  /** The state of a scan without archives, on disk or among the unchanged files. */
  ghost predicate PlainInv(s: Scan, hits: set<Path>) {
    Tree(s.st.es) && TreeInv(s, hits) && NoHitDirs(s, hits)
  }

  /** What is on the disk is in the arena as it is on the disk. */
  lemma {:induction false} OnDiskIsPlain(s: Scan, hits: set<Path>, i: VfsId)
    requires PlainInv(s, hits) && i < |s.st.es| && OnDisk(s.sized, s.st.es[i].path)
    ensures s.st.es[i].isFile <==> s.st.es[i].path in s.sized
    ensures s.st.es[i].isDir <==> AboveSized(s.sized, s.st.es[i].path)
    ensures !(s.st.es[i].isFile && s.st.es[i].isDir)
  {
    assert EntryInv(s, hits, i);
    NotBelowHit(s, hits, s.st.es[i].path);
  }

  /** No unchanged file, and no scanned one, lies above anything on the disk. */
  lemma {:induction false} NotBelowHit(s: Scan, hits: set<Path>, p: Path)
    requires TreeInv(s, hits) && OnDisk(s.sized, p)
    ensures !BelowHit(hits, p) && forall h :: h in s.sized ==> !(h < p)
  {
    var q :| q in s.sized && p <= q;
    forall h | h in s.sized
      ensures !(h < p)
    {
      if h < p { Below(h, p, q); }
    }
  }

  lemma {:induction false} Below(h: Path, p: Path, q: Path)
    requires h < p && p <= q
    ensures h < q
  {
  }
}
