/** A run in which an archive member is written to the entry of a scanned file
    (dupion/src/driver/platterwalker.rs, dupion/src/zip/mod.rs). */
module OverwrittenFile {
  import opened Basics
  import opened Arenas
  import opened States
  import opened Scans
  import opened StaleMember

  function Start(): Arena {
    [NewEntry([])]
  }

  /** After the path was created. */
  function Made(): Arena {
    [NewEntry([]).(childs := [1], isDir := true), NewEntry(FILE)]
  }

  lemma {:induction false} MadeIsCreated()
    ensures Loaded(Start())
    ensures Tree(Made()) && Created(Start(), FILE, Made(), 1)
  {
    assert TwoEntries(Made());
    hide Tree;
    TwoEntriesTree(Made());
    OneEntryTree(Start());
  }

  lemma {:induction false} OneEntryTree(es: Arena)
    requires |es| == 1 && es[0].path == [] && es[0].childs == []
    ensures Tree(es)
  {
  }

  /** The file of five bytes as it is found. */
  function FoundFile(): VfsEntry {
    NewEntry(FILE).(ctime := Some(1), fileSize := Some(5), nExtends := Some(0), valid := true, isFile := true)
  }

  function FoundState(): St {
    St(Made()[1 := FoundFile()], map[5 := SizeGroup([(File, 1)], 5)], map[])
  }

  lemma {:induction false} FileIsFound(cfg: Config)
    requires cfg == Settings()
    ensures CanSize(St(Made(), map[], map[]), 1, 5, 1, cfg.sz) && Tree(FoundState().es)
    ensures SizeStep(St(Made(), map[], map[]), 1, 5, 1, 0, 0, cfg.sz, FoundState())
  {
    MadeIsCreated();
    assert TwoEntries(FoundState().es);
    hide Tree;
    TwoEntriesTree(FoundState().es);
    assert Made()[1 := Reset(NewEntry(FILE), 1)][1 := FoundFile()] == Made()[1 := FoundFile()];
  }

  lemma {:induction false} RunPush(cfg: Config, tr: seq<Scan>, evs: seq<Event>, e: Event, s: Scan)
    requires Run(cfg, tr, evs) && Step(cfg, tr[|evs|], e, s)
    ensures Run(cfg, tr + [s], evs + [e])
  {
    hide Step, Init;
    var tr', evs' := tr + [s], evs + [e];
    forall i | 0 <= i < |evs'|
      ensures Step(cfg, tr'[i], evs'[i], tr'[i + 1])
    {
      if i < |evs| { assert Step(cfg, tr[i], evs[i], tr[i + 1]); }
    }
  }

  /** The file was found, and a member is written to its entry while the second pass runs. */
  lemma {:induction false} Overwrite(cfg: Config) returns (tr: seq<Scan>, evs: seq<Event>)
    requires cfg == Settings()
    ensures Run(cfg, tr, evs) && |evs| == 3 && WithMember(tr[3]) && tr[3].pass == Hashing && tr[3].next == 0
  {
    MadeIsCreated();
    FileIsFound(cfg);
    var s0 := Scan(St(Start(), map[], map[]), Sizing, [], 0, [], {}, {}, {}, {});
    hide Loaded, Created, Tree, SizeStep, CanSize, SizeEvent, DecodeEvent;
    var found := Size(FILE, 5, 1, 0, 0, Made(), 1);
    var s1 := AfterFound(cfg, s0, found);
    assert Run(cfg, [s0], []);
    RunPush(cfg, [s0], [], found, s1);
    var s2 := s1.(pass := Hashing, dest := [1], next := 0);
    RunPush(cfg, [s0] + [s1], [] + [found], EndPass([1]), s2);
    LookupChangesNothing(FoundState().es, FILE, 1);
    var member := Decode(FILE, 1, CONTENT_HASH, FoundState().es, 1);
    var s3 := AfterMember(cfg, s2, member);
    RunPush(cfg, [s0] + [s1] + [s2], [] + [found] + [EndPass([1])], member, s3);
    tr, evs := [s0] + [s1] + [s2] + [s3], [] + [found] + [EndPass([1])] + [member];
  }

  lemma {:induction false} AfterFound(cfg: Config, s0: Scan, e: Event) returns (s1: Scan)
    requires cfg == Settings() && e == Size(FILE, 5, 1, 0, 0, Made(), 1)
    requires s0 == Scan(St(Start(), map[], map[]), Sizing, [], 0, [], {}, {}, {}, {})
    ensures SizeEvent(cfg, s0, e, s1) && s1 == Scan(FoundState(), Sizing, [1], 0, [], {}, {FILE}, {}, {})
  {
    MadeIsCreated();
    FileIsFound(cfg);
    hide Loaded, Created, Tree, SizeStep, CanSize;
    s1 := AfterSize(cfg, s0, e, FoundState());
  }

  /** The entry has the size and hash of the member, and no other file has that size. */
  ghost predicate WithMember(s: Scan) {
    && s.dest == [1] && s.queue == [] && 1 !in s.cached && Filterable(s.st, 1)
    && s.st.es[1].fileHash.Some? && s.st.es[1].path == FILE
    && !Shared(Settings().opts, s.st, 1)
  }

  lemma {:induction false} AfterMember(cfg: Config, s2: Scan, e: Event) returns (s3: Scan)
    requires cfg == Settings() && e == Decode(FILE, 1, CONTENT_HASH, FoundState().es, 1)
    requires s2 == Scan(FoundState(), Hashing, [1], 0, [], {}, {FILE}, {}, {})
    requires Created(FoundState().es, FILE, FoundState().es, 1)
    ensures DecodeEvent(cfg, s2, e, s3) && WithMember(s3) && s3.pass == Hashing && s3.next == 0
  {
    hide Created, Shared;
    s3 := s2.(st := Decoded(FoundState(), 1, 1, CONTENT_HASH), decoded := {1});
    DecodeOverwrites(cfg, s2, e, s3);
  }

  /** One hashing pass over the file: it is not read. */
  lemma {:induction false} PassOver(cfg: Config, tr: seq<Scan>, evs: seq<Event>)
    returns (tr': seq<Scan>, evs': seq<Event>)
    requires cfg == Settings() && Run(cfg, tr, evs) && WithMember(tr[|evs|]) && tr[|evs|].next == 0
    requires tr[|evs|].pass == Hashing || tr[|evs|].pass == PostHashing
    ensures Run(cfg, tr', evs') && WithMember(tr'[|evs'|])
    ensures if tr[|evs|].pass == Hashing then tr'[|evs'|].pass == PostHashing && tr'[|evs'|].next == 0
            else tr'[|evs'|].pass == Done
  {
    var s := tr[|evs|];
    var filtered := s.(next := 1);
    hide Shared, Run;
    RunPush(cfg, tr, evs, Filter, filtered);
    var ended := if s.pass == Hashing then filtered.(pass := PostHashing, next := 0) else filtered.(pass := Done);
    RunPush(cfg, tr + [filtered], evs + [Filter], EndPass([]), ended);
    tr', evs' := tr + [filtered] + [ended], evs + [Filter] + [EndPass([])];
  }

  /** At the end of a whole scan a file that is not an archive has a hash that neither the cache gave
      it nor its size asked for. */
  lemma {:induction false} MemberOverFile() returns (cfg: Config, tr: seq<Scan>, evs: seq<Event>)
    ensures Run(cfg, tr, evs) && tr[|evs|].pass == Done && cfg == Settings() && WithMember(tr[|evs|])
  {
    cfg := Settings();
    tr, evs := Overwrite(cfg);
    tr, evs := PassOver(cfg, tr, evs);
    tr, evs := PassOver(cfg, tr, evs);
  }
}
