/** The three passes of a scan as a step machine: sizing, hashing with archive decoding
    interleaved at will, and the final hashing pass (dupion/src/driver/platterwalker.rs). */
module Scans {
  import opened Basics
  import opened Arenas
  import opened States

  datatype Pass = Sizing | Hashing | PostHashing | Done

  /** `next` and `queue` belong to the running hash pass: entries before `next` went through the
      filter, `queue` holds the candidates not yet read. `cached` are the files whose hash came
      from the cache, `sized` the paths found on disk, `decoded` the entries that archive members
      were written to, `unread` the candidates of the last pass that could not be read. */
  datatype Scan = Scan(
    st: St, pass: Pass, dest: seq<VfsId>, next: nat, queue: seq<VfsId>,
    cached: set<VfsId>, sized: set<Path>, decoded: set<VfsId>, unread: set<VfsId>)

  datatype Event =
    | Size(path: Path, size: nat, ctime: int, phys: nat, nExtends: nat, made: Arena, id: VfsId)
    | Filter
    | Commit(hash: Hash)
    | Skip
    | Decode(path: Path, size: nat, hash: Hash, made: Arena, id: VfsId)
    | EndPass(sorted: seq<VfsId>)

  /** The options of the run, and the size that goes with each hash. */
  datatype Config = Config(opts: Opts, sz: Hash -> nat)

  /** A fresh or loaded arena: nothing is valid or known to exist yet, and the extents of no file
      are known. */
  ghost predicate Loaded(es: Arena) {
    && Tree(es)
    && forall i :: 0 <= i < |es| ==>
         && !es[i].valid && !es[i].isFile && !es[i].isDir && !es[i].unique && es[i].nExtends == None
         && es[i].dirHash == None && es[i].dirSize == None
  }

  ghost predicate Init(cfg: Config, s: Scan) {
    && Loaded(s.st.es) && s.st.sizes == map[] && s.st.hashes == map[]
    && s == Scan(s.st, Sizing, [], 0, [], {}, {}, {}, {})
  }

  ghost predicate SizeEvent(cfg: Config, s: Scan, e: Event, s': Scan)
    requires e.Size?
  {
    var mid := St(e.made, s.st.sizes, s.st.hashes);
    && s.pass == Sizing
    && Created(s.st.es, e.path, e.made, e.id)
    && CanSize(mid, e.id, e.size, e.ctime, cfg.sz)
    && SizeStep(mid, e.id, e.size, e.ctime, e.phys, e.nExtends, cfg.sz, s'.st)
    && e.id < |s'.st.es|
    && s' == s.(st := s'.st, dest := s.dest + [e.id], sized := s.sized + {e.path},
                cached := if s'.st.es[e.id].fileHash.Some? then s.cached + {e.id} else s.cached - {e.id})
  }

  /** The step of the machine that sizing a file amounts to. */
  ghost function AfterSize(cfg: Config, m: Scan, e: Event, st: St): (m': Scan)
    requires e.Size? && m.pass == Sizing && Created(m.st.es, e.path, e.made, e.id)
    requires CanSize(St(e.made, m.st.sizes, m.st.hashes), e.id, e.size, e.ctime, cfg.sz)
    requires SizeStep(St(e.made, m.st.sizes, m.st.hashes), e.id, e.size, e.ctime, e.phys, e.nExtends, cfg.sz, st)
    ensures SizeEvent(cfg, m, e, m') && m'.st == st
  {
    m.(st := st, dest := m.dest + [e.id], sized := m.sized + {e.path},
       cached := if st.es[e.id].fileHash.Some? then m.cached + {e.id} else m.cached - {e.id})
  }

  /** The reader pulls the next entry through the candidate filter. */
  ghost predicate FilterEvent(cfg: Config, s: Scan, s': Scan) {
    && (s.pass == Hashing || s.pass == PostHashing) && s.next < |s.dest|
    && Filterable(s.st, s.dest[s.next])
    && s' == s.(next := s.next + 1,
                queue := if ReadCandidate(s.st, s.dest[s.next], cfg.opts) then s.queue + [s.dest[s.next]] else s.queue)
  }

  ghost predicate Filterable(st: St, id: VfsId) {
    id < |st.es| && st.es[id].valid && st.es[id].fileSize.Some?
  }

  /** The oldest candidate was read completely. */
  ghost predicate CommitEvent(cfg: Config, s: Scan, e: Event, s': Scan)
    requires e.Commit?
  {
    && s.queue != [] && Filterable(s.st, s.queue[0])
    && s.st.es[s.queue[0]].fileSize == Some(cfg.sz(e.hash))
    && s' == s.(st := Hashed(s.st, s.queue[0], e.hash, cfg.opts.isArchive(s.st.es[s.queue[0]].path)),
                queue := s.queue[1..], unread := s.unread - {s.queue[0]})
  }

  /** The oldest candidate could not be opened or read, or it changed since it was sized. */
  ghost predicate SkipEvent(cfg: Config, s: Scan, s': Scan) {
    && s.queue != [] && s.queue[0] < |s.st.es|
    && s' == s.(queue := s.queue[1..],
                unread := if s.pass == PostHashing && !WasRead(cfg, s.st, s.queue[0])
                          then s.unread + {s.queue[0]} else s.unread)
  }

  /** The hash of the file is known, and an archive was opened: it is a directory, too. */
  ghost predicate WasRead(cfg: Config, st: St, id: VfsId)
    requires id < |st.es|
  {
    st.es[id].fileHash.Some? && (cfg.opts.isArchive(st.es[id].path) ==> st.es[id].isDir)
  }

  /** Any number of archive members may appear during the second pass, none in the third. */
  ghost predicate DecodeEvent(cfg: Config, s: Scan, e: Event, s': Scan)
    requires e.Decode?
  {
    && s.pass == Hashing
    && Created(s.st.es, e.path, e.made, e.id) && e.id < |e.made|
    && e.size == cfg.sz(e.hash)
    && s' == s.(st := Decoded(St(e.made, s.st.sizes, s.st.hashes), e.id, e.size, e.hash),
                decoded := s.decoded + {e.id})
  }

  /** A hash pass ends when every entry was filtered and every candidate read. */
  ghost predicate EndPassEvent(s: Scan, e: Event, s': Scan)
    requires e.EndPass?
  {
    match s.pass
    case Sizing =>
      multiset(e.sorted) == multiset(s.dest) && s' == s.(pass := Hashing, dest := e.sorted, next := 0)
    case Hashing =>
      s.next == |s.dest| && s.queue == [] && s' == s.(pass := PostHashing, next := 0)
    case PostHashing =>
      s.next == |s.dest| && s.queue == [] && s' == s.(pass := Done)
    case Done => false
  }

  ghost predicate Step(cfg: Config, s: Scan, e: Event, s': Scan) {
    match e
    case Size(_, _, _, _, _, _, _) => SizeEvent(cfg, s, e, s')
    case Filter => FilterEvent(cfg, s, s')
    case Commit(_) => CommitEvent(cfg, s, e, s')
    case Skip => SkipEvent(cfg, s, s')
    case Decode(_, _, _, _, _) => DecodeEvent(cfg, s, e, s')
    case EndPass(_) => EndPassEvent(s, e, s')
  }

  ghost predicate Run(cfg: Config, tr: seq<Scan>, evs: seq<Event>) {
    && |tr| == |evs| + 1 && Init(cfg, tr[0])
    && forall i :: 0 <= i < |evs| ==> Step(cfg, tr[i], evs[i], tr[i + 1])
  }

  // ----- completeness of the three passes

  ghost predicate Shared(opts: Opts, st: St, id: VfsId)
    requires Filterable(st, id)
  {
    && NumSizes(st.sizes, st.es[id].fileSize.value) > 1
    && opts.scanSizeMin <= st.es[id].fileSize.value <= opts.scanSizeMax
  }

  /** What is known of a scanned file that is not an archive. */
  ghost predicate FileInv(cfg: Config, s: Scan, id: VfsId) {
    && Filterable(s.st, id) && s.st.es[id].isFile
    && (id in s.cached || id in s.decoded ==> s.st.es[id].fileHash.Some?)
    && (id in s.unread ==> !WasRead(cfg, s.st, id))
    && (!cfg.opts.isArchive(s.st.es[id].path) && s.st.es[id].fileHash.Some? ==>
          id in s.cached || id in s.decoded || Shared(cfg.opts, s.st, id))
  }

  ghost predicate QueuedInv(cfg: Config, s: Scan, id: VfsId) {
    && id in s.dest && Filterable(s.st, id)
    && (!cfg.opts.isArchive(s.st.es[id].path) ==> id in s.decoded || Shared(cfg.opts, s.st, id))
  }

  /** In the third pass a filtered archive, or file of shared size, was read, waits to be, or could not be. */
  ghost predicate Covered(cfg: Config, s: Scan, id: VfsId) {
    && Filterable(s.st, id)
    && (cfg.opts.isArchive(s.st.es[id].path) || Shared(cfg.opts, s.st, id) ==>
          WasRead(cfg, s.st, id) || id in s.queue || id in s.unread)
  }

  ghost predicate ScanInv(cfg: Config, s: Scan) {
    && s.next <= |s.dest|
    && (s.pass == Sizing ==> s.queue == [] && s.decoded == {})
    && (s.pass == Sizing || s.pass == Hashing ==> s.unread == {})
    && (forall id :: id in s.unread ==> id in s.dest)
    && (forall k :: 0 <= k < |s.dest| ==> FileInv(cfg, s, s.dest[k]))
    && (forall k :: 0 <= k < |s.queue| ==> QueuedInv(cfg, s, s.queue[k]))
    && (s.pass == PostHashing || s.pass == Done ==>
          forall k :: 0 <= k < s.next ==> Covered(cfg, s, s.dest[k]))
    && (s.pass == Done ==> s.next == |s.dest| && s.queue == [])
  }

  /** From one state to the next, files stay files of their size and hashes are not lost. */
  ghost predicate Grows(a: St, b: St, id: VfsId) {
    && id < |a.es| && id < |b.es|
    && b.es[id].path == a.es[id].path && b.es[id].fileSize == a.es[id].fileSize
    && (a.es[id].valid ==> b.es[id].valid) && (a.es[id].isFile ==> b.es[id].isFile)
    && (a.es[id].fileHash.Some? ==> b.es[id].fileHash.Some?)
  }

  ghost predicate SizesGrow(a: Sizes, b: Sizes) {
    forall k :: k in a ==> NumSizes(a, k) <= NumSizes(b, k)
  }

  lemma {:induction false} PushGrows(sizes: Sizes, id: VfsId, e: VfsEntry)
    requires CanPushSize(e, true, false)
    ensures SizesGrow(sizes, PushSize(sizes, id, e, true, false))
  {
  }

  lemma {:induction false} OneGrows(st: St, id: VfsId)
    requires id < |st.es| && (Mark(st.es[id]).isFile && st.es[id].fileHash.Some? ==> st.es[id].fileSize.Some?)
    ensures SizesGrow(st.sizes, ValidateOne(st, id).sizes)
  {
    hide PushSize, PushHash;
    var e := Mark(st.es[id]);
    if e.isFile && e.fileSize.Some? { PushGrows(st.sizes, id, e); }
  }

  lemma {:induction false} GrowTrans(a: Sizes, b: Sizes, c: Sizes)
    requires SizesGrow(a, b) && SizesGrow(b, c)
    ensures SizesGrow(a, c)
  {
    forall k | k in a
      ensures NumSizes(a, k) <= NumSizes(c, k)
    {
    }
  }

  lemma {:induction false} ValidateGrows(st: St, ids: seq<VfsId>, sz: Hash -> nat)
    requires SizedValid(st.es, sz) && Sized(st.hashes, sz) && CanRevive(st.es, ids, sz)
    ensures SizesGrow(st.sizes, ValidateAll(st, ids, sz).sizes)
    decreases |ids|
  {
    if ids != [] {
      var one := ValidateOne(st, ids[0]);
      OneGrows(st, ids[0]);
      ValidateGrows(one, ids[1..], sz);
      hide SizesGrow;
      GrowTrans(st.sizes, one.sizes, ValidateAll(one, ids[1..], sz).sizes);
    }
  }

  /** Sizing one file changes no other file that was scanned. */
  lemma {:induction false} SizeEventGrows(cfg: Config, s: Scan, e: Event, s': Scan, id: VfsId)
    requires e.Size? && SizeEvent(cfg, s, e, s') && id < |s.st.es| && id != e.id
    ensures Grows(s.st, s'.st, id) && (s'.st.es[id].fileHash == s.st.es[id].fileHash)
  {
    var mid := St(e.made, s.st.sizes, s.st.hashes);
    assert KeptEntry(s.st.es[id], e.path, e.made[id]);
    if Unchanged(e.made[e.id], e.ctime, Some(e.size), None) {
      PreorderFits(e.made, e.id, cfg.sz);
      ValidateAllEntry(mid, Preorder(e.made, e.id), id, cfg.sz);
    }
  }

  lemma {:induction false} SizeEventSizes(cfg: Config, s: Scan, e: Event, s': Scan)
    requires e.Size? && SizeEvent(cfg, s, e, s')
    ensures SizesGrow(s.st.sizes, s'.st.sizes)
    ensures s'.st.es[e.id].valid && s'.st.es[e.id].isFile && s'.st.es[e.id].fileSize == Some(e.size)
  {
    var mid := St(e.made, s.st.sizes, s.st.hashes);
    if Unchanged(e.made[e.id], e.ctime, Some(e.size), None) {
      PreorderFits(e.made, e.id, cfg.sz);
      ValidateGrows(mid, Preorder(e.made, e.id), cfg.sz);
    }
    ValidatedEntry(mid, e.id, e.ctime, e.size, cfg.sz);
    var v := Validated(mid, e.id, e.ctime, Some(e.size), None, cfg.sz);
    PushGrows(v.sizes, e.id, s'.st.es[e.id]);
  }

  lemma {:induction false} SizeEventKeeps(cfg: Config, s: Scan, e: Event, s': Scan)
    requires ScanInv(cfg, s) && e.Size? && SizeEvent(cfg, s, e, s')
    ensures ScanInv(cfg, s')
  {
    SizeEventSizes(cfg, s, e, s');
    forall k | 0 <= k < |s'.dest|
      ensures FileInv(cfg, s', s'.dest[k])
    {
      var id := s'.dest[k];
      if id != e.id {
        assert FileInv(cfg, s, s.dest[k]);
        SizeEventGrows(cfg, s, e, s', id);
      }
    }
  }

  /** Facts of a file survive any step under which it grows. */
  lemma {:induction false} FileInvGrows(cfg: Config, s: Scan, s': Scan, id: VfsId)
    requires FileInv(cfg, s, id) && Grows(s.st, s'.st, id) && SizesGrow(s.st.sizes, s'.st.sizes)
    requires s'.cached == s.cached && (id in s'.decoded <==> id in s.decoded)
    requires id in s'.unread ==> !WasRead(cfg, s'.st, id)
    requires s'.st.es[id].fileHash.Some? && !cfg.opts.isArchive(s.st.es[id].path) ==>
      s.st.es[id].fileHash.Some? || id in s'.decoded || Shared(cfg.opts, s.st, id)
    ensures FileInv(cfg, s', id)
  {
  }

  lemma {:induction false} FilterEventKeeps(cfg: Config, s: Scan, s': Scan)
    requires ScanInv(cfg, s) && FilterEvent(cfg, s, s')
    ensures ScanInv(cfg, s')
  {
    forall k | 0 <= k < |s'.dest|
      ensures FileInv(cfg, s', s'.dest[k])
    {
      assert FileInv(cfg, s, s.dest[k]);
    }
    forall k | 0 <= k < |s'.queue|
      ensures QueuedInv(cfg, s', s'.queue[k])
    {
      if k < |s.queue| { assert QueuedInv(cfg, s, s.queue[k]); }
    }
    if s.pass == PostHashing {
      assert FileInv(cfg, s, s.dest[s.next]);
      forall k | 0 <= k < s'.next
        ensures Covered(cfg, s', s'.dest[k])
      {
        if k < s.next { assert Covered(cfg, s, s.dest[k]); }
        else if |s'.queue| > |s.queue| { assert s'.queue[|s.queue|] == s.dest[k]; }
      }
    }
  }

  lemma {:induction false} CommitEventKeeps(cfg: Config, s: Scan, e: Event, s': Scan)
    requires ScanInv(cfg, s) && e.Commit? && CommitEvent(cfg, s, e, s')
    ensures ScanInv(cfg, s')
  {
    var c := s.queue[0];
    assert QueuedInv(cfg, s, c);
    forall k | 0 <= k < |s'.dest|
      ensures FileInv(cfg, s', s'.dest[k])
    {
      assert FileInv(cfg, s, s.dest[k]);
      FileInvGrows(cfg, s, s', s.dest[k]);
    }
    forall k | 0 <= k < |s'.queue|
      ensures QueuedInv(cfg, s', s'.queue[k])
    {
      assert QueuedInv(cfg, s, s.queue[k + 1]);
    }
    if s.pass == PostHashing {
      forall k | 0 <= k < s'.next
        ensures Covered(cfg, s', s'.dest[k])
      {
        assert Covered(cfg, s, s.dest[k]);
        if s.dest[k] in s.queue && s.dest[k] != c {
          var j :| 0 <= j < |s.queue| && s.queue[j] == s.dest[k];
          assert s'.queue[j - 1] == s.dest[k];
        }
      }
    }
  }

  lemma {:induction false} SkipEventKeeps(cfg: Config, s: Scan, s': Scan)
    requires ScanInv(cfg, s) && SkipEvent(cfg, s, s')
    ensures ScanInv(cfg, s')
  {
    var c := s.queue[0];
    assert QueuedInv(cfg, s, c);
    forall k | 0 <= k < |s'.dest|
      ensures FileInv(cfg, s', s'.dest[k])
    {
      assert FileInv(cfg, s, s.dest[k]);
    }
    forall k | 0 <= k < |s'.queue|
      ensures QueuedInv(cfg, s', s'.queue[k])
    {
      assert QueuedInv(cfg, s, s.queue[k + 1]);
    }
    if s.pass == PostHashing {
      forall k | 0 <= k < s'.next
        ensures Covered(cfg, s', s'.dest[k])
      {
        assert Covered(cfg, s, s.dest[k]);
        if s.dest[k] in s.queue && s.dest[k] != c {
          var j :| 0 <= j < |s.queue| && s.queue[j] == s.dest[k];
          assert s'.queue[j - 1] == s.dest[k];
        }
      }
    }
  }

  lemma {:induction false} DecodeEventKeeps(cfg: Config, s: Scan, e: Event, s': Scan)
    requires ScanInv(cfg, s) && e.Decode? && DecodeEvent(cfg, s, e, s')
    ensures ScanInv(cfg, s')
  {
    PushGrows(s.st.sizes, e.id, s'.st.es[e.id]);
    forall k | 0 <= k < |s'.dest|
      ensures FileInv(cfg, s', s'.dest[k])
    {
      var id := s.dest[k];
      assert FileInv(cfg, s, id);
      assert KeptEntry(s.st.es[id], e.path, e.made[id]);
      if id != e.id { FileInvGrows(cfg, s, s', id); }
    }
    forall k | 0 <= k < |s'.queue|
      ensures QueuedInv(cfg, s', s'.queue[k])
    {
      var id := s.queue[k];
      assert QueuedInv(cfg, s, id);
      assert KeptEntry(s.st.es[id], e.path, e.made[id]);
    }
  }

  lemma {:induction false} EndPassKeeps(cfg: Config, s: Scan, e: Event, s': Scan)
    requires ScanInv(cfg, s) && e.EndPass? && EndPassEvent(s, e, s')
    ensures ScanInv(cfg, s')
  {
    forall k | 0 <= k < |s'.dest|
      ensures FileInv(cfg, s', s'.dest[k])
    {
      assert s'.dest[k] in multiset(s'.dest);
      assert s'.dest[k] in s.dest;
      var j :| 0 <= j < |s.dest| && s.dest[j] == s'.dest[k];
      assert FileInv(cfg, s, s.dest[j]);
    }
    if s.pass == PostHashing {
      forall k | 0 <= k < s'.next
        ensures Covered(cfg, s', s'.dest[k])
      {
        assert Covered(cfg, s, s.dest[k]);
      }
    }
  }

  lemma {:induction false} StepKeeps(cfg: Config, s: Scan, e: Event, s': Scan)
    requires ScanInv(cfg, s) && Step(cfg, s, e, s')
    ensures ScanInv(cfg, s')
  {
    hide ScanInv, SizeEvent, FilterEvent, CommitEvent, SkipEvent, DecodeEvent, EndPassEvent;
    match e
    case Size(_, _, _, _, _, _, _) => SizeEventKeeps(cfg, s, e, s');
    case Filter => FilterEventKeeps(cfg, s, s');
    case Commit(_) => CommitEventKeeps(cfg, s, e, s');
    case Skip => SkipEventKeeps(cfg, s, s');
    case Decode(_, _, _, _, _) => DecodeEventKeeps(cfg, s, e, s');
    case EndPass(_) => EndPassKeeps(cfg, s, e, s');
  }

  lemma {:induction false} RunKeeps(cfg: Config, tr: seq<Scan>, evs: seq<Event>, n: nat)
    requires Run(cfg, tr, evs) && n < |tr|
    ensures ScanInv(cfg, tr[n])
  {
    if n > 0 {
      RunKeeps(cfg, tr, evs, n - 1);
      StepKeeps(cfg, tr[n - 1], evs[n - 1], tr[n]);
    }
  }

  /** A member decoded onto the entry of a scanned file replaces its size and hash; when no other
      file has the new size, the file then has a hash although neither the cache gave it one nor
      its size is shared. */
  lemma {:induction false} DecodeOverwrites(cfg: Config, s: Scan, e: Event, s': Scan)
    requires e.Decode? && DecodeEvent(cfg, s, e, s') && e.id in s.dest && e.id < |s.st.es|
    ensures s'.st.es[e.id].fileHash == Some(e.hash) && s'.st.es[e.id].fileSize == Some(e.size)
    ensures e.id in s'.dest && s'.cached == s.cached && Filterable(s'.st, e.id)
    ensures e.size !in s.st.sizes ==> !Shared(cfg.opts, s'.st, e.id)
  {
    assert KeptEntry(s.st.es[e.id], e.path, e.made[e.id]);
  }

  /** Three-pass completeness: whatever archive decoding adds while the second pass runs, when
      the scan is done a scanned file that is not an archive has a hash if and only if the cache
      had one, an archive member was written to its very entry, or its size is within the limits and
      shared and the last pass did not fail to read it. An archive, whatever its size, has a hash and was
      opened as a directory exactly if the last pass did not fail to read it. */
  lemma {:induction false} ThreePassCompleteness(cfg: Config, tr: seq<Scan>, evs: seq<Event>, n: nat, id: VfsId)
    requires Run(cfg, tr, evs) && n < |tr| && tr[n].pass == Done
    requires id in tr[n].dest
    ensures Filterable(tr[n].st, id)
    ensures !cfg.opts.isArchive(tr[n].st.es[id].path) ==>
      (tr[n].st.es[id].fileHash.Some? <==>
       id in tr[n].cached || id in tr[n].decoded || (Shared(cfg.opts, tr[n].st, id) && id !in tr[n].unread))
    ensures cfg.opts.isArchive(tr[n].st.es[id].path) ==>
      (tr[n].st.es[id].fileHash.Some? && tr[n].st.es[id].isDir <==> id !in tr[n].unread)
  {
    RunKeeps(cfg, tr, evs, n);
    var k :| 0 <= k < |tr[n].dest| && tr[n].dest[k] == id;
    assert FileInv(cfg, tr[n], tr[n].dest[k]) && Covered(cfg, tr[n], tr[n].dest[k]);
  }
}
