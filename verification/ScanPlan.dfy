/** After a scan the deduplication can be planned, and shares extents only between files whose
    contents have one hash (dupion/src/driver/platterwalker.rs, dupion/src/dedup/mod.rs). */
module ScanPlan {
  import opened Basics
  import opened Arenas
  import opened States
  import opened Scans
  import opened ScanIndex
  import opened DirHashes
  import opened Selective
  import opened DedupGroups
  import opened DedupPlan

  // ----- whose extents are known

  /** The extents of scanned files only are known, and then the change time is. */
  ghost predicate ExtentsKnown(s: Scan) {
    forall i :: 0 <= i < |s.st.es| && s.st.es[i].nExtends.Some? ==> ExtentKnown(s, i)
  }

  ghost predicate ExtentKnown(s: Scan, i: VfsId) {
    i < |s.st.es| && i in s.dest && s.st.es[i].ctime.Some?
  }

  lemma {:induction false} SizeKeepsExtents(cfg: Config, s: Scan, e: Event, s': Scan)
    requires ExtentsKnown(s) && e.Size? && SizeEvent(cfg, s, e, s')
    ensures ExtentsKnown(s')
  {
    SizeOwn(cfg, s, e, s');
    assert s'.dest[|s.dest|] == e.id;
    forall i | 0 <= i < |s'.st.es| && s'.st.es[i].nExtends.Some?
      ensures ExtentKnown(s', i)
    {
      if i != e.id {
        SizeOther(cfg, s, e, s', i);
        CreatedExtents(s.st.es, e.path, e.made, e.id, i);
        assert ExtentKnown(s, i);
        InPush(s.dest, e.id, i);
      }
    }
  }

  lemma {:induction false} InPush(dest: seq<VfsId>, id: VfsId, i: VfsId)
    requires i in dest
    ensures i in dest + [id]
  {
  }

  lemma {:induction false} CreatedExtents(es: Arena, path: Path, es': Arena, id: VfsId, i: VfsId)
    requires Created(es, path, es', id) && i < |es'| && es'[i].nExtends.Some?
    ensures i < |es| && es[i].nExtends.Some? && es'[i].ctime == es[i].ctime
  {
    assert i >= |es| ==> FreshEntry(path, es'[i]);
    assert KeptEntry(es[i], path, es'[i]);
  }

  lemma {:induction false} DecodeKeepsExtents(cfg: Config, s: Scan, e: Event, s': Scan)
    requires ExtentsKnown(s) && e.Decode? && DecodeEvent(cfg, s, e, s')
    ensures ExtentsKnown(s')
  {
    forall i | 0 <= i < |s'.st.es| && s'.st.es[i].nExtends.Some?
      ensures ExtentKnown(s', i)
    {
      CreatedExtents(s.st.es, e.path, e.made, e.id, i);
      assert ExtentKnown(s, i);
    }
  }

  lemma {:induction false} OthersKeepExtents(s: Scan, s': Scan)
    requires ExtentsKnown(s) && |s'.st.es| == |s.st.es| && multiset(s'.dest) == multiset(s.dest)
    requires forall i :: 0 <= i < |s.st.es| ==>
      s'.st.es[i].nExtends == s.st.es[i].nExtends && s'.st.es[i].ctime == s.st.es[i].ctime
    ensures ExtentsKnown(s')
  {
    forall i | 0 <= i < |s'.st.es| && s'.st.es[i].nExtends.Some?
      ensures ExtentKnown(s', i)
    {
      assert ExtentKnown(s, i);
      assert i in multiset(s'.dest);
    }
  }

  lemma {:induction false} StepKeepsExtents(cfg: Config, s: Scan, e: Event, s': Scan)
    requires ExtentsKnown(s) && Step(cfg, s, e, s')
    ensures ExtentsKnown(s')
  {
    hide ExtentsKnown, SizeEvent, DecodeEvent;
    match e
    case Size(_, _, _, _, _, _, _) => SizeKeepsExtents(cfg, s, e, s');
    case Filter => OthersKeepExtents(s, s');
    case Skip => OthersKeepExtents(s, s');
    case Commit(_) => OthersKeepExtents(s, s');
    case Decode(_, _, _, _, _) => DecodeKeepsExtents(cfg, s, e, s');
    case EndPass(_) => OthersKeepExtents(s, s');
  }

  lemma {:induction false} RunKeepsExtents(cfg: Config, tr: seq<Scan>, evs: seq<Event>, n: nat)
    requires Run(cfg, tr, evs) && n < |tr|
    ensures ExtentsKnown(tr[n])
  {
    if n > 0 {
      hide ExtentsKnown, Step, Init;
      RunKeepsExtents(cfg, tr, evs, n - 1);
      StepKeepsExtents(cfg, tr[n - 1], evs[n - 1], tr[n]);
    }
  }

  // ----- the plan

  /** What is known of an eligible file: size and hash are those of its content. */
  ghost predicate KnownFile(H: Hasher, content: Path -> Bytes, es: Arena, id: VfsId) {
    && id < |es| && es[id].ctime.Some? && es[id].fileSize == Some(|content(es[id].path)|)
    && (es[id].fileHash.Some? ==> es[id].fileHash.value == H(content(es[id].path)))
  }

  /** After a scan, and still when directory results were added. */
  ghost predicate Scanned(H: Hasher, content: Path -> Bytes, es: Arena) {
    forall i :: 0 <= i < |es| && Eligible(es[i]) ==> KnownFile(H, content, es, i)
  }

  lemma {:induction false} RunScanned(cfg: Config, H: Hasher, content: Path -> Bytes, tr: seq<Scan>, evs: seq<Event>,
                                      n: nat, es: Arena)
    requires HonestRun(cfg, H, content, tr, evs) && n < |tr| && Walking(tr[n].st.es, es)
    ensures Scanned(H, content, es)
  {
    RunKeepsExtents(cfg, tr, evs, n);
    RunTruthful(cfg, H, content, tr, evs, n);
    hide HonestRun;
    var s := tr[n];
    forall i | 0 <= i < |es| && Eligible(es[i])
      ensures KnownFile(H, content, es, i)
    {
      assert ExtentKnown(s, i);
      var k :| 0 <= k < |s.dest| && s.dest[k] == i;
      assert Truthful(H, content, s.st.es, s.dest[k]);
    }
  }

  lemma {:induction false} ScannedUsable(H: Hasher, content: Path -> Bytes, es: Arena, hashes: Hashes)
    requires Scanned(H, content, es) && HashSound(es, hashes)
    ensures AllUsable(es, hashes)
  {
    forall h | h in hashes
      ensures Usable(es, hashes[h].entries)
    {
      var entries := hashes[h].entries;
      assert GroupOk(es, hashes[h], h);
      forall k | 0 <= k < |entries|
        ensures UsableMember(es, entries[k])
      {
        assert MemberOk(es, entries[k], hashes[h].size, h);
        if entries[k].0 == File && Eligible(es[entries[k].1]) { assert KnownFile(H, content, es, entries[k].1); }
      }
    }
  }

  /** What planning asks of the arena and the hash groups holds in every state of a scan. */
  lemma {:induction false} ReadyToPlan(cfg: Config, H: Hasher, content: Path -> Bytes, tr: seq<Scan>, evs: seq<Event>,
                                       n: nat)
    requires HonestRun(cfg, H, content, tr, evs) && n < |tr|
    ensures HashSound(tr[n].st.es, tr[n].st.hashes) && AllUsable(tr[n].st.es, tr[n].st.hashes)
  {
    HashIndexAgreement(cfg, tr, evs, n);
    RunScanned(cfg, H, content, tr, evs, n, tr[n].st.es);
    ScannedUsable(H, content, tr[n].st.es, tr[n].st.hashes);
  }

  /** Source and duplicate are different files with one content hash, and the range is the whole of both. */
  ghost predicate OneContent(H: Hasher, content: Path -> Bytes, es: Arena, senpai: VfsId, dup: VfsId, start: nat,
                             end: nat) {
    && senpai < |es| && dup < |es| && senpai != dup
    && H(content(es[senpai].path)) == H(content(es[dup].path))
    && start == 0 && end == |content(es[senpai].path)| == |content(es[dup].path)|
  }

  lemma {:induction false} SelectedShare(H: Hasher, content: Path -> Bytes, es: Arena, hashes: Hashes, h: Hash,
                                         aggressive: bool, dup: VfsId)
    requires Scanned(H, content, es) && HashSound(es, hashes) && h in hashes && Usable(es, hashes[h].entries)
    requires Select(es, hashes[h], aggressive).Some? && dup in Select(es, hashes[h], aggressive).value.dups
    ensures var g := Select(es, hashes[h], aggressive).value; OneContent(H, content, es, g.senpai, dup, g.start, g.end)
  {
    var g := Select(es, hashes[h], aggressive).value;
    assert GroupOk(es, hashes[h], h);
    SelectMeaning(es, hashes[h], aggressive, dup);
    SelectedCarry(es, hashes, h, aggressive, dup);
    SelectedCarry(es, hashes, h, aggressive, g.senpai);
    assert KnownFile(H, content, es, g.senpai) && KnownFile(H, content, es, dup);
  }

  lemma {:induction false} TaskOfGroup(gs: seq<Group>, t: Task)
    requires t in Flatten(gs)
    ensures exists k :: 0 <= k < |gs| && gs[k].senpai == t.senpai && t.dup in gs[k].dups
                        && gs[k].start == t.start && gs[k].end == t.end
  {
    if t in TasksOf(gs[0]) {
      var j :| 0 <= j < |TasksOf(gs[0])| && TasksOf(gs[0])[j] == t;
      assert gs[0].dups[j] == t.dup;
    } else {
      TaskOfGroup(gs[1..], t);
      var k :| 0 <= k < |gs[1..]| && gs[1..][k].senpai == t.senpai && t.dup in gs[1..][k].dups
               && gs[1..][k].start == t.start && gs[1..][k].end == t.end;
      assert gs[k + 1] == gs[1..][k];
    }
  }

  lemma {:induction false} PlannedShare(H: Hasher, content: Path -> Bytes, es: Arena, hashes: Hashes, order: seq<Hash>,
                                        aggressive: bool, k: nat, dup: VfsId)
    requires Scanned(H, content, es) && HashSound(es, hashes) && AllUsable(es, hashes)
    requires forall i :: 0 <= i < |order| ==> order[i] in hashes
    requires k < |PlanOf(es, hashes, order, aggressive)| && dup in PlanOf(es, hashes, order, aggressive)[k].dups
    ensures var g := PlanOf(es, hashes, order, aggressive)[k]; OneContent(H, content, es, g.senpai, dup, g.start, g.end)
  {
    var init, h := order[..|order| - 1], order[|order| - 1];
    var before := PlanOf(es, hashes, init, aggressive);
    hide Scanned, HashSound, OneContent;
    if k < |before| {
      PlannedShare(H, content, es, hashes, init, aggressive, k, dup);
    } else {
      SelectedShare(H, content, es, hashes, h, aggressive, dup);
    }
  }

  /** After a scan, and still when directory results were added, every planned task shares a whole
      file with another one whose content has the same hash. */
  lemma {:induction false} PlanAfterScan(cfg: Config, H: Hasher, content: Path -> Bytes, tr: seq<Scan>, evs: seq<Event>,
                                         n: nat, es: Arena, hashes: Hashes, order: seq<Hash>, aggressive: bool)
    requires HonestRun(cfg, H, content, tr, evs) && n < |tr| && Walking(tr[n].st.es, es) && HashSound(es, hashes)
    requires forall k :: 0 <= k < |order| ==> order[k] in hashes
    ensures AllUsable(es, hashes)
    ensures forall t :: t in Flatten(PlanOf(es, hashes, order, aggressive)) ==>
      OneContent(H, content, es, t.senpai, t.dup, t.start, t.end)
  {
    hide HonestRun, Walking, HashSound, Scanned, AllUsable, Flatten, OneContent;
    RunScanned(cfg, H, content, tr, evs, n, es);
    ScannedUsable(H, content, es, hashes);
    var plan := PlanOf(es, hashes, order, aggressive);
    forall t | t in Flatten(plan)
      ensures OneContent(H, content, es, t.senpai, t.dup, t.start, t.end)
    {
      TaskOfGroup(plan, t);
      var k :| 0 <= k < |plan| && plan[k].senpai == t.senpai && t.dup in plan[k].dups
               && plan[k].start == t.start && plan[k].end == t.end;
      PlannedShare(H, content, es, hashes, order, aggressive, k, t.dup);
    }
  }
}
