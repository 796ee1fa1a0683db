/** A simulated deduplication run: plan, sort, split into batches, account
    (dupion/src/dedup/mod.rs). */
module DedupRun {
  import opened Basics
  import opened Arenas
  import opened States
  import opened KeySort
  import opened Occurrences
  import opened DedupGroups
  import opened Planner
  import opened DedupPlan

  function AvgPhys(g: Group): int { g.avgPhys }

  function DupFiles(g: Group): int { |g.dups| }

  function DupBytes(g: Group): int { |g.dups| * g.fileSize }

  method GatherCandidates(es: Arena, entries: seq<Member>) returns (cs: seq<Candidate>)
    requires Usable(es, entries)
    ensures cs == Candidates(es, entries)
  {
    cs := [];
    for i := 0 to |entries|
      invariant cs == Candidates(es, entries[..i])
    {
      assert entries[..i + 1][..i] == entries[..i];
      assert UsableMember(es, entries[i]);
      var (typ, id) := entries[i];
      if typ == File && es[id].phys.Some? && es[id].phys != Some(0) && es[id].valid && es[id].nExtends.Some? {
        cs := cs + [CandidateOf(es, id)];
      }
    }
    assert entries[..|entries|] == entries;
  }

  method AveragePhys(cs: seq<Candidate>) returns (avg: nat)
    requires cs != []
    ensures avg == SumPhys(cs) / |cs|
  {
    var sum := 0;
    for i := 0 to |cs|
      invariant sum == SumPhys(cs[..i])
    {
      assert cs[..i + 1][..i] == cs[..i];
      sum := sum + cs[i].phys;
    }
    assert cs[..|cs|] == cs;
    avg := sum / |cs|;
  }

  /** Sort by physical offset and count, in place. */
  method Rank(cs: seq<Candidate>) returns (ranked: seq<Candidate>)
    ensures ranked == WithOccurrences(SortBy(cs, (c: Candidate) => c.phys))
  {
    var sorted := SortBy(cs, (c: Candidate) => c.phys);
    SortSorts(cs, (c: Candidate) => c.phys);
    var v := new Candidate[|sorted|](i requires 0 <= i < |sorted| => sorted[i]);
    assert v[..] == sorted;
    CountPhysOccurrencesSorted(v);
    ranked := v[..];
  }

  method PickSenpai(cs: seq<Candidate>, avg: nat) returns (best: nat)
    requires cs != []
    ensures best == BestIndex(cs, avg, |cs|)
  {
    best := 0;
    for i := 1 to |cs|
      invariant best == BestIndex(cs, avg, i)
    {
      if Better(cs[i], cs[best], avg) { best := i; }
    }
  }

  method Retain(cs: seq<Candidate>, senpai: Candidate, aggressive: bool) returns (dups: seq<VfsId>)
    ensures dups == Retained(cs, senpai, aggressive)
  {
    dups := [];
    for i := 0 to |cs|
      invariant dups == Retained(cs[..i], senpai, aggressive)
    {
      assert cs[..i + 1][..i] == cs[..i];
      if cs[i].id != senpai.id && (aggressive || cs[i].phys != senpai.phys) { dups := dups + [cs[i].id]; }
    }
    assert cs[..|cs|] == cs;
  }

  lemma {:induction false} RetainedConcat(a: seq<Candidate>, b: seq<Candidate>, senpai: Candidate, aggressive: bool)
    ensures Retained(a + b, senpai, aggressive) == Retained(a, senpai, aggressive) + Retained(b, senpai, aggressive)
  {
    if b == [] {
      assert a + b == a;
    } else {
      assert (a + b)[..|a + b| - 1] == a + b[..|b| - 1];
      RetainedConcat(a, b[..|b| - 1], senpai, aggressive);
    }
  }

  lemma {:induction false} RetainedWithout(cs: seq<Candidate>, i: nat, aggressive: bool)
    requires i < |cs|
    ensures Retained(cs[..i] + cs[i + 1..], cs[i], aggressive) == Retained(cs, cs[i], aggressive)
  {
    assert cs == cs[..i] + [cs[i]] + cs[i + 1..];
    RetainedConcat(cs[..i] + [cs[i]], cs[i + 1..], cs[i], aggressive);
    RetainedConcat(cs[..i], [cs[i]], cs[i], aggressive);
    RetainedConcat(cs[..i], cs[i + 1..], cs[i], aggressive);
    assert [cs[i]][..0] == [];
  }

  method SelectGroup(es: Arena, g: HashGroup, aggressive: bool) returns (r: Option<Group>)
    requires Usable(es, g.entries)
    ensures r == Select(es, g, aggressive)
  {
    hide Candidates, Usable, BestIndex, Retained, SumPhys;
    if g.size == 0 { return None; }
    var candidates := GatherCandidates(es, g.entries);
    if |candidates| < 2 { return None; }
    var avg := AveragePhys(candidates);
    var ranked := Rank(candidates);
    var best := PickSenpai(ranked, avg);
    var senpai := ranked[best];
    RetainedWithout(ranked, best, aggressive);
    var dups := Retain(ranked[..best] + ranked[best + 1..], senpai, aggressive);
    if dups == [] { return None; }
    r := Some(Group(senpai.id, dups, 0, senpai.fileSize, avg, senpai.fileSize));
  }

  // ----- totals

  /** The number of tasks and of bytes in terms of the groups. */
  lemma {:induction false} FlattenTotals(gs: seq<Group>)
    requires forall g :: g in gs ==> g.start == 0 < g.end == g.fileSize
    ensures |Flatten(gs)| == SumOver(gs, DupFiles) && TaskBytes(Flatten(gs)) == SumOver(gs, DupBytes)
  {
    if gs != [] {
      FlattenTotals(gs[1..]);
      TaskBytesConcat(TasksOf(gs[0]), Flatten(gs[1..]));
      BytesOfGroup(gs[0], |gs[0].dups|);
      assert TasksOf(gs[0])[..|gs[0].dups|] == TasksOf(gs[0]);
    }
  }

  /** The plan in the order of submission: plannable groups with the same totals. */
  lemma {:induction false} PlanTotals(es: Arena, hashes: Hashes, order: seq<Hash>, aggressive: bool)
    requires HashSound(es, hashes) && AllUsable(es, hashes)
    requires forall k :: 0 <= k < |order| ==> order[k] in hashes
    ensures var plan := PlanOf(es, hashes, order, aggressive); var sorted := SortBy(plan, AvgPhys);
      && (forall i :: 0 <= i < |sorted| ==> Plannable(sorted[i]))
      && |Flatten(sorted)| == SumOver(plan, DupFiles)
      && TaskBytes(Flatten(sorted)) == SumOver(plan, DupBytes)
  {
    hide PlanOf, HashSound, AllUsable, Plannable, Flatten, TaskBytes, SumOver;
    var plan := PlanOf(es, hashes, order, aggressive);
    var sorted := SortBy(plan, AvgPhys);
    PlanPlannable(es, hashes, order, aggressive);
    SortSame(plan, AvgPhys);
    SumSort(plan, AvgPhys, DupBytes);
    SumSort(plan, AvgPhys, DupFiles);
    forall g | g in sorted
      ensures g in plan
    {
      assert g in multiset(sorted);
    }
    FlattenTotals(sorted);
  }

  /** Select every group, sort the plan, submit it in batches. `order` is the order in which the
      hash groups are visited, `limits` the cache limits of the rounds. */
  method Dedup(d: BtrfsDedup, es: Arena, hashes: Hashes, order: seq<Hash>, aggressive: bool, limits: nat -> nat)
    returns (ghost plan: seq<Group>, ghost submitted: seq<Group>, relevantBytes: int, relevantFiles: int)
    requires HashSound(es, hashes) && AllUsable(es, hashes)
    requires forall k :: 0 <= k < |order| ==> order[k] in hashes
    modifies d
    ensures plan == PlanOf(es, hashes, order, aggressive)
    ensures multiset(submitted) == multiset(plan)
    ensures forall i, j :: 0 <= i < j < |submitted| ==> submitted[i].avgPhys <= submitted[j].avgPhys
    ensures FlattenBatches(d.batches) == Flatten(submitted)
    ensures Obeys(d.batches, limits) && WaitsFor(d.batches, submitted)
    ensures d.processedBytes == relevantBytes == TaskBytes(Flatten(submitted))
    ensures d.processedFiles == relevantFiles == |Flatten(submitted)|
  {
    hide Flatten, TaskBytes, SumOver, Obeys, WaitsFor, PlanOf, SortBy, HashSound, AllUsable;
    d.processedFiles, d.processedBytes := 0, 0;
    var dest;
    dest, relevantBytes, relevantFiles := SelectAll(es, hashes, order, aggressive);
    plan := dest;
    var sorted := SortBy(dest, AvgPhys);
    PlanTotals(es, hashes, order, aggressive);
    SortSame(dest, AvgPhys);
    PlanAscends(dest);
    submitted := sorted;
    var groups;
    ghost var own;
    groups, own := Allocate(sorted);
    d.DedupGroups(groups, sorted, own, limits);
  }

  lemma {:induction false} PlanAscends(plan: seq<Group>)
    ensures var sorted := SortBy(plan, AvgPhys);
      forall i, j :: 0 <= i < j < |sorted| ==> sorted[i].avgPhys <= sorted[j].avgPhys
  {
    var sorted := SortBy(plan, AvgPhys);
    SortSorts(plan, AvgPhys);
    hide SortBy;
    forall i, j | 0 <= i < j < |sorted|
      ensures sorted[i].avgPhys <= sorted[j].avgPhys
    {
      assert AvgPhys(sorted[i]) <= AvgPhys(sorted[j]);
    }
  }

  method SelectAll(es: Arena, hashes: Hashes, order: seq<Hash>, aggressive: bool)
    returns (dest: seq<Group>, relevantBytes: int, relevantFiles: int)
    requires HashSound(es, hashes) && AllUsable(es, hashes)
    requires forall k :: 0 <= k < |order| ==> order[k] in hashes
    ensures dest == PlanOf(es, hashes, order, aggressive)
    ensures relevantBytes == SumOver(dest, DupBytes) && relevantFiles == SumOver(dest, DupFiles)
  {
    dest, relevantBytes, relevantFiles := [], 0, 0;
    for i := 0 to |order|
      invariant dest == PlanOf(es, hashes, order[..i], aggressive)
      invariant relevantBytes == SumOver(dest, DupBytes) && relevantFiles == SumOver(dest, DupFiles)
    {
      assert order[..i + 1][..i] == order[..i];
      var r := SelectGroup(es, hashes[order[i]], aggressive);
      if r.Some? {
        SumPush(dest, r.value, DupBytes);
        SumPush(dest, r.value, DupFiles);
        relevantBytes := relevantBytes + |r.value.dups| * r.value.fileSize;
        relevantFiles := relevantFiles + |r.value.dups|;
        dest := dest + [r.value];
      }
    }
    assert order[..|order|] == order;
  }

  method Allocate(gs: seq<Group>) returns (r: seq<DedupGroup>, ghost own: set<DedupGroup>)
    ensures fresh(own) && Shows(r, gs, own)
  {
    r, own := [], {};
    for i := 0 to |gs|
      invariant fresh(own) && Shows(r, gs[..i], own)
    {
      var g := gs[i];
      var o := new DedupGroup(g.senpai, g.dups, g.start, g.end, g.avgPhys, g.fileSize);
      r, own := r + [o], own + {o};
    }
    assert gs[..|gs|] == gs;
  }
}
