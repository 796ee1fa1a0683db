/** The duplicate index along a whole scan, and what the hashes of scanned files are. */
module ScanIndex {
  import opened Basics
  import opened Arenas
  import opened States
  import opened Index
  import opened Scans

  /** A run in which no scanned path lies on or below another one, archive members lie below a
      scanned path and are new or unchanged, and reading a file again gives the same hash. */
  ghost predicate Careful(s: Scan, e: Event) {
    match e
    case Size(path, _, _, _, _, _, _) => forall p :: p in s.sized ==> !(p <= path) && !(path <= p)
    case Filter => true
    case Skip => true
    case Commit(hash) =>
      s.queue != [] && s.queue[0] < |s.st.es| ==>
        s.st.es[s.queue[0]].fileHash == None || s.st.es[s.queue[0]].fileHash == Some(hash)
    case Decode(path, size, hash, made, id) =>
      && id !in s.dest && (exists p :: p in s.sized && p < path)
      && (id < |made| && made[id].valid ==>
            made[id].isFile && made[id].fileHash == Some(hash) && made[id].fileSize == Some(size))
    case EndPass(_) => true
  }

  ghost predicate CarefulRun(cfg: Config, tr: seq<Scan>, evs: seq<Event>) {
    Run(cfg, tr, evs) && forall i :: 0 <= i < |evs| ==> Careful(tr[i], evs[i])
  }

  ghost predicate BelowSized(s: Scan, p: Path) {
    exists q :: q in s.sized && q <= p
  }

  /** No directory has been hashed yet. */
  ghost predicate NoDirs(es: Arena) {
    forall i :: 0 <= i < |es| ==> es[i].dirHash == None && es[i].dirSize == None && !es[i].unique
  }

  ghost predicate OnlySizedValid(s: Scan) {
    forall i :: 0 <= i < |s.st.es| && s.st.es[i].valid ==> BelowSized(s, s.st.es[i].path)
  }

  ghost predicate IndexInv(cfg: Config, s: Scan) {
    HashInv(s.st, cfg.sz) && SizeInv(s.st) && NoDirs(s.st.es) && OnlySizedValid(s)
  }

  lemma {:induction false} SizeArena(cfg: Config, s: Scan, e: Event, s': Scan, i: VfsId)
    requires e.Size? && SizeEvent(cfg, s, e, s') && i < |s'.st.es|
    ensures |s'.st.es| == |e.made| && s'.st.es[i].path == e.made[i].path
    ensures e.made[i].dirHash == None && e.made[i].dirSize == None && !e.made[i].unique ==>
      s'.st.es[i].dirHash == None && s'.st.es[i].dirSize == None && !s'.st.es[i].unique
    ensures s'.st.es[i].valid ==> e.made[i].valid || e.path <= e.made[i].path
  {
    var mid := St(e.made, s.st.sizes, s.st.hashes);
    hide ValidateAll, PushSize, PushHash, CanRevive, Fit, Preorder;
    if Unchanged(e.made[e.id], e.ctime, Some(e.size), None) {
      PreorderFits(e.made, e.id, cfg.sz);
      ValidateAllEntry(mid, Preorder(e.made, e.id), i, cfg.sz);
      PreorderIsSubtree(e.made, e.id, i);
    }
  }

  /** The file found was unchanged since the cache was stored. */
  ghost predicate IsHit(e: Event) {
    && e.Size? && e.id < |e.made|
    && e.made[e.id].ctime == Some(e.ctime) && e.made[e.id].fileSize == Some(e.size)
  }

  /** Another entry is revived exactly if it lies below a file that did not change. */
  lemma {:induction false} SizeOther(cfg: Config, s: Scan, e: Event, s': Scan, i: VfsId)
    requires e.Size? && SizeEvent(cfg, s, e, s') && i < |s'.st.es| && i != e.id
    ensures |s'.st.es| == |e.made|
    ensures s'.st.es[i] == if IsHit(e) && e.path < e.made[i].path then Mark(e.made[i]) else e.made[i]
  {
    var mid := St(e.made, s.st.sizes, s.st.hashes);
    hide ValidateAll, PushSize, PushHash, CanRevive, Fit, Preorder;
    if IsHit(e) {
      PreorderFits(e.made, e.id, cfg.sz);
      ValidateAllEntry(mid, Preorder(e.made, e.id), i, cfg.sz);
      PreorderIsSubtree(e.made, e.id, i);
      if e.made[i].path == e.path { PathsUnique(e.made, i, e.id); }
    }
  }

  /** The entry of the file itself. */
  lemma {:induction false} SizeOwn(cfg: Config, s: Scan, e: Event, s': Scan)
    requires e.Size? && SizeEvent(cfg, s, e, s')
    ensures e.id < |s'.st.es| == |e.made|
    ensures var a, b := e.made[e.id], s'.st.es[e.id];
      && b.path == e.path && b.isFile && b.valid && b.fileSize == Some(e.size) && b.ctime == Some(e.ctime)
      && b.isDir == (a.isDir || (IsHit(e) && a.wasDir))
      && b.wasFile == a.wasFile && b.wasDir == a.wasDir && b.phys == Some(e.phys)
      && b.fileHash == if IsHit(e) then a.fileHash else None
  {
    var mid := St(e.made, s.st.sizes, s.st.hashes);
    hide ValidateAll, PushSize, PushHash, CanRevive, Fit, Preorder;
    if IsHit(e) {
      PreorderFits(e.made, e.id, cfg.sz);
      PreorderIsSubtree(e.made, e.id, e.id);
      ValidateAllEntry(mid, Preorder(e.made, e.id), e.id, cfg.sz);
    }
  }

  lemma {:induction false} CreatedEntry(es: Arena, path: Path, es': Arena, id: VfsId, i: VfsId)
    requires Created(es, path, es', id) && i < |es'|
    ensures es'[i].valid ==> i < |es| && es[i].valid && es[i].path == es'[i].path
    ensures NoDirs(es) ==> es'[i].dirHash == None && es'[i].dirSize == None && !es'[i].unique
  {
    if i < |es| { assert KeptEntry(es[i], path, es'[i]); } else { assert FreshEntry(path, es'[i]); }
  }

  lemma {:induction false} SizeKeepsIndex(cfg: Config, s: Scan, e: Event, s': Scan)
    requires IndexInv(cfg, s) && e.Size? && SizeEvent(cfg, s, e, s') && Careful(s, e)
    ensures IndexInv(cfg, s')
  {
    var mid := St(e.made, s.st.sizes, s.st.hashes);
    CreatedKeepsIndex(s.st, e.path, e.made, e.id, cfg.sz);
    CreatedEntry(s.st.es, e.path, e.made, e.id, e.id);
    assert e.id < |s.st.es| && s.st.es[e.id].valid ==> BelowSized(s, s.st.es[e.id].path);
    UngroupedWithoutHash(mid, e.id);
    SizeKeepsHashes(mid, e.id, e.size, e.ctime, e.phys, e.nExtends, cfg.sz, s'.st);
    SizeKeepsSizes(mid, e.id, e.size, e.ctime, e.phys, e.nExtends, cfg.sz, s'.st);
    forall i | 0 <= i < |s'.st.es|
      ensures s'.st.es[i].dirHash == None && s'.st.es[i].dirSize == None && !s'.st.es[i].unique
      ensures s'.st.es[i].valid ==> BelowSized(s', s'.st.es[i].path)
    {
      SizeArena(cfg, s, e, s', i);
      CreatedEntry(s.st.es, e.path, e.made, e.id, i);
      if s'.st.es[i].valid {
        if e.made[i].valid { assert BelowSized(s, s.st.es[i].path); }
        SizedStays(s, e, s', i);
      }
    }
  }

  lemma {:induction false} SizedStays(s: Scan, e: Event, s': Scan, i: VfsId)
    requires e.Size? && s'.sized == s.sized + {e.path} && i < |s'.st.es|
    requires BelowSized(s, s'.st.es[i].path) || e.path <= s'.st.es[i].path
    ensures BelowSized(s', s'.st.es[i].path)
  {
    if e.path <= s'.st.es[i].path { assert e.path in s'.sized; }
  }

  lemma {:induction false} DecodeKeepsIndex(cfg: Config, s: Scan, e: Event, s': Scan)
    requires IndexInv(cfg, s) && e.Decode? && DecodeEvent(cfg, s, e, s') && Careful(s, e)
    ensures IndexInv(cfg, s')
  {
    CreatedKeepsIndex(s.st, e.path, e.made, e.id, cfg.sz);
    CreatedEntry(s.st.es, e.path, e.made, e.id, e.id);
    DecodedKeepsIndex(St(e.made, s.st.sizes, s.st.hashes), e.id, e.size, e.hash, cfg.sz);
    forall i | 0 <= i < |s'.st.es|
      ensures s'.st.es[i].dirHash == None && s'.st.es[i].dirSize == None && !s'.st.es[i].unique
      ensures s'.st.es[i].valid ==> BelowSized(s', s'.st.es[i].path)
    {
      CreatedEntry(s.st.es, e.path, e.made, e.id, i);
      if i < |s.st.es| && s.st.es[i].valid { assert BelowSized(s, s.st.es[i].path); }
    }
  }

  lemma {:induction false} CommitKeepsIndex(cfg: Config, s: Scan, e: Event, s': Scan)
    requires ScanInv(cfg, s) && IndexInv(cfg, s) && e.Commit? && CommitEvent(cfg, s, e, s') && Careful(s, e)
    ensures IndexInv(cfg, s')
  {
    var id := s.queue[0];
    assert QueuedInv(cfg, s, id);
    var k :| 0 <= k < |s.dest| && s.dest[k] == id;
    assert FileInv(cfg, s, s.dest[k]);
    HashedKeepsIndex(s.st, id, e.hash, cfg.opts.isArchive(s.st.es[id].path), cfg.sz);
    forall i | 0 <= i < |s'.st.es| && s'.st.es[i].valid
      ensures BelowSized(s', s'.st.es[i].path)
    {
      assert BelowSized(s, s.st.es[i].path);
    }
  }

  lemma {:induction false} QuietKeepsIndex(cfg: Config, s: Scan, s': Scan)
    requires IndexInv(cfg, s) && s'.st == s.st && s'.sized == s.sized
    ensures IndexInv(cfg, s')
  {
    forall i | 0 <= i < |s'.st.es| && s'.st.es[i].valid
      ensures BelowSized(s', s'.st.es[i].path)
    {
      assert BelowSized(s, s.st.es[i].path);
    }
  }

  /** Hash index agreement holds in every state of every careful run. */
  lemma {:induction false} HashIndexAgreement(cfg: Config, tr: seq<Scan>, evs: seq<Event>, n: nat)
    requires CarefulRun(cfg, tr, evs) && n < |tr|
    ensures IndexInv(cfg, tr[n])
  {
    if n > 0 {
      HashIndexAgreement(cfg, tr, evs, n - 1);
      RunKeeps(cfg, tr, evs, n - 1);
      assert Step(cfg, tr[n - 1], evs[n - 1], tr[n]) && Careful(tr[n - 1], evs[n - 1]);
      StepKeepsIndex(cfg, tr[n - 1], evs[n - 1], tr[n]);
    }
  }

  lemma {:induction false} StepKeepsIndex(cfg: Config, s: Scan, e: Event, s': Scan)
    requires ScanInv(cfg, s) && IndexInv(cfg, s) && Step(cfg, s, e, s') && Careful(s, e)
    ensures IndexInv(cfg, s')
  {
    hide ScanInv, IndexInv, SizeEvent, CommitEvent, DecodeEvent, Careful;
    match e
    case Size(_, _, _, _, _, _, _) => SizeKeepsIndex(cfg, s, e, s');
    case Filter => QuietKeepsIndex(cfg, s, s');
    case Skip => QuietKeepsIndex(cfg, s, s');
    case Commit(_) => CommitKeepsIndex(cfg, s, e, s');
    case Decode(_, _, _, _, _) => DecodeKeepsIndex(cfg, s, e, s');
    case EndPass(_) => QuietKeepsIndex(cfg, s, s');
  }

  // ----- the scanned entries

  /** The listed entries are those of scanned paths. */
  ghost predicate DestSized(s: Scan) {
    forall k :: 0 <= k < |s.dest| ==> EntrySized(s, s.dest[k])
  }

  ghost predicate EntrySized(s: Scan, id: VfsId) {
    id < |s.st.es| && s.st.es[id].path in s.sized
  }

  lemma {:induction false} SizeKeepsDestSized(cfg: Config, s: Scan, e: Event, s': Scan)
    requires DestSized(s) && e.Size? && SizeEvent(cfg, s, e, s')
    ensures DestSized(s')
  {
    forall k | 0 <= k < |s'.dest|
      ensures EntrySized(s', s'.dest[k])
    {
      var id := s'.dest[k];
      if k < |s.dest| {
        assert EntrySized(s, id);
        assert KeptEntry(s.st.es[id], e.path, e.made[id]);
      }
      SizeArena(cfg, s, e, s', id);
    }
  }

  lemma {:induction false} DecodeKeepsDestSized(cfg: Config, s: Scan, e: Event, s': Scan)
    requires DestSized(s) && e.Decode? && DecodeEvent(cfg, s, e, s')
    ensures DestSized(s')
  {
    forall k | 0 <= k < |s'.dest|
      ensures EntrySized(s', s'.dest[k])
    {
      assert EntrySized(s, s.dest[k]);
      assert KeptEntry(s.st.es[s.dest[k]], e.path, e.made[s.dest[k]]);
    }
  }

  lemma {:induction false} OthersKeepDestSized(s: Scan, s': Scan)
    requires DestSized(s) && s'.sized == s.sized && multiset(s'.dest) == multiset(s.dest)
    requires |s'.st.es| == |s.st.es| && forall i :: 0 <= i < |s.st.es| ==> s'.st.es[i].path == s.st.es[i].path
    ensures DestSized(s')
  {
    forall k | 0 <= k < |s'.dest|
      ensures EntrySized(s', s'.dest[k])
    {
      assert s'.dest[k] in multiset(s'.dest);
      var j :| 0 <= j < |s.dest| && s.dest[j] == s'.dest[k];
      assert EntrySized(s, s.dest[j]);
    }
  }

  lemma {:induction false} RunDestSized(cfg: Config, tr: seq<Scan>, evs: seq<Event>, n: nat)
    requires Run(cfg, tr, evs) && n < |tr|
    ensures DestSized(tr[n])
  {
    if n > 0 {
      hide DestSized, SizeEvent, DecodeEvent;
      RunDestSized(cfg, tr, evs, n - 1);
      var s, e, s' := tr[n - 1], evs[n - 1], tr[n];
      assert Step(cfg, s, e, s');
      match e
      case Size(_, _, _, _, _, _, _) => SizeKeepsDestSized(cfg, s, e, s');
      case Filter => OthersKeepDestSized(s, s');
      case Skip => OthersKeepDestSized(s, s');
      case Commit(_) => OthersKeepDestSized(s, s');
      case Decode(_, _, _, _, _) => DecodeKeepsDestSized(cfg, s, e, s');
      case EndPass(_) => OthersKeepDestSized(s, s');
    }
  }
}
