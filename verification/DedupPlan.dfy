/** Which file of a hash group becomes the source and which files are to share its extents
    (dupion/src/dedup/mod.rs). */
module DedupPlan {
  import opened Basics
  import opened Arenas
  import opened States
  import opened KeySort
  import opened Occurrences
  import opened DedupGroups
  import opened Planner

  predicate Eligible(e: VfsEntry) {
    e.phys.Some? && e.phys != Some(0) && e.valid && e.nExtends.Some?
  }

  /** A file of the group with a known place on the disk and known extents, which the scan found. */
  predicate EligibleMember(es: Arena, m: Member) {
    && m.0 == File && m.1 < |es| && es[m.1].valid
    && es[m.1].phys.Some? && es[m.1].phys.value > 0 && es[m.1].nExtends.Some?
  }

  lemma {:induction false} EligibleIs(es: Arena, m: Member)
    ensures EligibleMember(es, m) <==> m.0 == File && m.1 < |es| && Eligible(es[m.1])
  {
  }

  ghost predicate UsableMember(es: Arena, m: Member) {
    m.1 < |es| && (m.0 == File && Eligible(es[m.1]) ==> es[m.1].fileSize.Some? && es[m.1].ctime.Some?)
  }

  /** What the code unwraps of an eligible file is there. */
  ghost predicate Usable(es: Arena, entries: seq<Member>) {
    forall k :: 0 <= k < |entries| ==> UsableMember(es, entries[k])
  }

  function CandidateOf(es: Arena, id: VfsId): Candidate
    requires id < |es| && Eligible(es[id]) && es[id].fileSize.Some? && es[id].ctime.Some?
  {
    Candidate(id, es[id].phys.value, 0, es[id].fileSize.value, es[id].nExtends.value, es[id].ctime.value)
  }

  function Candidates(es: Arena, entries: seq<Member>): seq<Candidate>
    requires Usable(es, entries)
  {
    if entries == [] then [] else
      var m := entries[|entries| - 1];
      Candidates(es, entries[..|entries| - 1]) +
        if m.0 == File && Eligible(es[m.1]) then [CandidateOf(es, m.1)] else []
  }

  function SumPhys(cs: seq<Candidate>): nat {
    if cs == [] then 0 else SumPhys(cs[..|cs| - 1]) + cs[|cs| - 1].phys
  }

  function Distance(a: nat, b: nat): nat { Max(a, b) - Min(a, b) }

  /** The ranking of sources: fewest extents, most common physical offset, oldest, nearest. */
  predicate Better(a: Candidate, b: Candidate, avg: nat) {
    if a.nExtends != b.nExtends then a.nExtends < b.nExtends
    else if a.occurrences != b.occurrences then a.occurrences > b.occurrences
    else if a.ctime != b.ctime then a.ctime < b.ctime
    else Distance(avg, a.phys) < Distance(avg, b.phys)
  }

  /** The first of the best among the first `n` candidates. */
  function BestIndex(cs: seq<Candidate>, avg: nat, n: nat): (r: nat)
    requires 0 < n <= |cs|
    ensures r < n
    ensures forall k :: 0 <= k < n ==> !Better(cs[k], cs[r], avg)
    ensures forall k :: 0 <= k < r ==> Better(cs[r], cs[k], avg)
  {
    if n == 1 then 0 else
      var b := BestIndex(cs, avg, n - 1);
      if Better(cs[n - 1], cs[b], avg) then n - 1 else b
  }

  function WithOccurrences(cs: seq<Candidate>): (r: seq<Candidate>)
    ensures |r| == |cs|
  {
    seq(|cs|, i requires 0 <= i < |cs| => cs[i].(occurrences := CountPhys(cs, cs[i].phys)))
  }

  predicate Keep(c: Candidate, senpai: Candidate, aggressive: bool) {
    c.id != senpai.id && (aggressive || c.phys != senpai.phys)
  }

  function Retained(cs: seq<Candidate>, senpai: Candidate, aggressive: bool): seq<VfsId> {
    if cs == [] then [] else
      Retained(cs[..|cs| - 1], senpai, aggressive) +
        if Keep(cs[|cs| - 1], senpai, aggressive) then [cs[|cs| - 1].id] else []
  }

  /** The candidates of a group, ordered by physical offset, with their occurrences. */
  function Ranked(es: Arena, g: HashGroup): seq<Candidate>
    requires Usable(es, g.entries)
  {
    WithOccurrences(SortBy(Candidates(es, g.entries), (c: Candidate) => c.phys))
  }

  /** The deduplication planned for one hash group, if any. */
  function Select(es: Arena, g: HashGroup, aggressive: bool): Option<Group>
    requires Usable(es, g.entries)
  {
    var cs := Ranked(es, g);
    if g.size == 0 || |cs| < 2 then None else
      var avg := SumPhys(Candidates(es, g.entries)) / |cs|;
      var senpai := cs[BestIndex(cs, avg, |cs|)];
      var dups := Retained(cs, senpai, aggressive);
      if dups == [] then None
      else Some(Group(senpai.id, dups, 0, senpai.fileSize, avg, senpai.fileSize))
  }

  // ----- what is selected

  lemma {:induction false} CandidatesAre(es: Arena, entries: seq<Member>, c: Candidate)
    requires Usable(es, entries)
    ensures c in Candidates(es, entries) <==>
      (File, c.id) in entries && Eligible(es[c.id]) && c == CandidateOf(es, c.id)
  {
    if entries != [] {
      CandidatesAre(es, entries[..|entries| - 1], c);
      assert entries == entries[..|entries| - 1] + [entries[|entries| - 1]];
    }
  }

  ghost predicate IdsApart(cs: seq<Candidate>) {
    forall i, j :: 0 <= i < j < |cs| ==> cs[i].id != cs[j].id
  }

  lemma {:induction false} CandidatesApart(es: Arena, entries: seq<Member>)
    requires Usable(es, entries) && IdsDiffer(entries)
    ensures IdsApart(Candidates(es, entries))
  {
    if entries != [] {
      var init, m := entries[..|entries| - 1], entries[|entries| - 1];
      CandidatesApart(es, init);
      var before := Candidates(es, init);
      forall i | 0 <= i < |before|
        ensures before[i].id != m.1
      {
        CandidatesAre(es, init, before[i]);
        var k :| 0 <= k < |init| && init[k] == (File, before[i].id);
        assert entries[k].1 != entries[|entries| - 1].1;
      }
    }
  }

  lemma {:induction false} InsertApart(x: Candidate, s: seq<Candidate>, key: Candidate -> int)
    requires IdsApart(s) && forall y :: y in s ==> y.id != x.id
    ensures IdsApart(Insert(x, s, key))
  {
    if s != [] && key(x) > key(s[0]) {
      var t := Insert(x, s[1..], key);
      InsertApart(x, s[1..], key);
      InsertSame(x, s[1..], key);
      forall j | 0 <= j < |t|
        ensures t[j].id != s[0].id
      {
        assert t[j] in multiset(t);
        if t[j] != x {
          assert t[j] in s[1..];
        }
      }
    }
  }

  lemma {:induction false} SortApart(s: seq<Candidate>, key: Candidate -> int)
    requires IdsApart(s)
    ensures IdsApart(SortBy(s, key))
  {
    if s != [] {
      SortApart(s[1..], key);
      SortSame(s[1..], key);
      forall y | y in SortBy(s[1..], key)
        ensures y.id != s[0].id
      {
        assert y in multiset(SortBy(s[1..], key));
        assert y in s[1..];
      }
      InsertApart(s[0], SortBy(s[1..], key), key);
    }
  }

  lemma {:induction false} RetainedAre(cs: seq<Candidate>, senpai: Candidate, aggressive: bool, id: VfsId)
    ensures id in Retained(cs, senpai, aggressive) <==>
      exists k :: 0 <= k < |cs| && cs[k].id == id && Keep(cs[k], senpai, aggressive)
  {
    if cs != [] {
      RetainedAre(cs[..|cs| - 1], senpai, aggressive, id);
    }
  }

  lemma {:induction false} RetainedOnce(cs: seq<Candidate>, senpai: Candidate, aggressive: bool)
    requires IdsApart(cs)
    ensures NoDup(Retained(cs, senpai, aggressive))
  {
    if cs != [] {
      var init := cs[..|cs| - 1];
      RetainedOnce(init, senpai, aggressive);
      RetainedAre(init, senpai, aggressive, cs[|cs| - 1].id);
    }
  }

  lemma {:induction false} SortedHold(s: seq<Candidate>, key: Candidate -> int)
    ensures forall c :: c in SortBy(s, key) <==> c in s
  {
    SortSame(s, key);
    hide SortBy;
    forall c
      ensures c in SortBy(s, key) <==> c in s
    {
      assert c in multiset(SortBy(s, key)) <==> c in multiset(s);
    }
  }

  /** The candidates of a group are its eligible files, each once. */
  lemma {:induction false} RankedAre(es: Arena, g: HashGroup, id: VfsId)
    requires Usable(es, g.entries) && IdsDiffer(g.entries)
    ensures IdsApart(Ranked(es, g))
    ensures (exists k :: 0 <= k < |Ranked(es, g)| && Ranked(es, g)[k].id == id) <==>
      (File, id) in g.entries && Eligible(es[id])
    ensures forall k :: 0 <= k < |Ranked(es, g)| ==> FromEntry(es, g, Ranked(es, g)[k])
  {
    var cs, key := Candidates(es, g.entries), (c: Candidate) => c.phys;
    CandidatesApart(es, g.entries);
    SortApart(cs, key);
    SortSame(cs, key);
    var sorted := SortBy(cs, key);
    SortedHold(cs, key);
    hide Candidates, SortBy, IdsDiffer, Usable, CountPhys;
    forall k | 0 <= k < |sorted|
      ensures FromEntry(es, g, Ranked(es, g)[k])
    {
      assert sorted[k] in cs;
      CandidatesAre(es, g.entries, sorted[k]);
    }
    if (File, id) in g.entries && Eligible(es[id]) {
      var m :| 0 <= m < |g.entries| && g.entries[m] == (File, id);
      var c := CandidateOf(es, id);
      CandidatesAre(es, g.entries, c);
      var k :| 0 <= k < |sorted| && sorted[k] == c;
      assert Ranked(es, g)[k].id == id;
    }
  }

  ghost predicate FromEntry(es: Arena, g: HashGroup, c: Candidate) {
    (File, c.id) in g.entries && c.id < |es| && Eligible(es[c.id]) && es[c.id].fileSize == Some(c.fileSize)
    && es[c.id].phys == Some(c.phys)
  }

  /** The source is an eligible file of the group; its duplicates are all other eligible files,
      except those that already share its first extent unless the mode is aggressive. */
  lemma {:induction false} SelectMeaning(es: Arena, g: HashGroup, aggressive: bool, id: VfsId)
    requires Usable(es, g.entries) && IdsDiffer(g.entries) && Select(es, g, aggressive).Some?
    ensures var r := Select(es, g, aggressive).value;
      && (File, r.senpai) in g.entries && EligibleMember(es, (File, r.senpai))
      && NoDup(r.dups) && r.dups != []
      && r.start == 0 && es[r.senpai].fileSize == Some(r.end) && r.fileSize == r.end
      && (id in r.dups <==>
            (File, id) in g.entries && EligibleMember(es, (File, id)) && id != r.senpai
            && (aggressive || es[id].phys != es[r.senpai].phys))
  {
    var cs := Ranked(es, g);
    var avg := SumPhys(Candidates(es, g.entries)) / |cs|;
    var b := BestIndex(cs, avg, |cs|);
    var r := Select(es, g, aggressive).value;
    RankedAre(es, g, id);
    RetainedOnce(cs, cs[b], aggressive);
    RetainedAre(cs, cs[b], aggressive, id);
    EligibleIs(es, (File, id));
    EligibleIs(es, (File, r.senpai));
    assert FromEntry(es, g, cs[b]);
    hide Ranked, Retained, Eligible, EligibleMember, Usable, IdsApart, IdsDiffer, Select, BestIndex;
    if (File, id) in g.entries && id < |es| && Eligible(es[id]) {
      var k :| 0 <= k < |cs| && cs[k].id == id;
      assert FromEntry(es, g, cs[k]);
    }
    forall k | 0 <= k < |cs| && cs[k].id == id
      ensures FromEntry(es, g, cs[k])
    {
    }
  }

  // ----- the whole plan

  ghost predicate AllUsable(es: Arena, hashes: Hashes) {
    forall h :: h in hashes ==> Usable(es, hashes[h].entries)
  }

  /** The groups selected from the hash groups, visited in the given order. */
  function PlanOf(es: Arena, hashes: Hashes, order: seq<Hash>, aggressive: bool): seq<Group>
    requires AllUsable(es, hashes) && forall k :: 0 <= k < |order| ==> order[k] in hashes
  {
    if order == [] then [] else
      var r := Select(es, hashes[order[|order| - 1]], aggressive);
      PlanOf(es, hashes, order[..|order| - 1], aggressive) + if r.Some? then [r.value] else []
  }

  /** The plan holds what was selected from the hash groups visited, in that order, and nothing else. */
  lemma {:induction false} PlanFrom(es: Arena, hashes: Hashes, order: seq<Hash>, aggressive: bool, k: nat)
    requires AllUsable(es, hashes) && forall i :: 0 <= i < |order| ==> order[i] in hashes
    requires k < |PlanOf(es, hashes, order, aggressive)|
    ensures exists j :: k <= j < |order| && Select(es, hashes[order[j]], aggressive) ==
                                            Some(PlanOf(es, hashes, order, aggressive)[k])
  {
    hide Select, Usable;
    var init := order[..|order| - 1];
    var before := PlanOf(es, hashes, init, aggressive);
    PlanShort(es, hashes, init, aggressive);
    if k < |before| {
      PlanFrom(es, hashes, init, aggressive, k);
      var j :| k <= j < |init| && Select(es, hashes[init[j]], aggressive) == Some(before[k]);
      assert order[j] == init[j];
    } else {
      assert Select(es, hashes[order[|order| - 1]], aggressive).Some?;
    }
  }

  lemma {:induction false} PlanShort(es: Arena, hashes: Hashes, order: seq<Hash>, aggressive: bool)
    requires AllUsable(es, hashes) && forall i :: 0 <= i < |order| ==> order[i] in hashes
    ensures |PlanOf(es, hashes, order, aggressive)| <= |order|
  {
    hide Select, Usable;
    if order != [] { PlanShort(es, hashes, order[..|order| - 1], aggressive); }
  }

  ghost function FilesOf(gs: seq<Group>): seq<VfsId> {
    if gs == [] then [] else FilesOf(gs[..|gs| - 1]) + [gs[|gs| - 1].senpai] + gs[|gs| - 1].dups
  }

  lemma {:induction false} FilesOfPush(gs: seq<Group>, g: Group)
    ensures FilesOf(gs + [g]) == FilesOf(gs) + [g.senpai] + g.dups
  {
    assert (gs + [g])[..|gs|] == gs;
  }

  /** Every file of the plan carries the hash of a visited group. */
  lemma {:induction false} PlanFiles(es: Arena, hashes: Hashes, order: seq<Hash>, aggressive: bool, id: VfsId)
    requires AllUsable(es, hashes) && forall k :: 0 <= k < |order| ==> order[k] in hashes
    requires HashSound(es, hashes) && id in FilesOf(PlanOf(es, hashes, order, aggressive))
    ensures id < |es| && es[id].fileHash.Some? && es[id].fileHash.value in order
  {
    if order != [] {
      var init, h := order[..|order| - 1], order[|order| - 1];
      var before, r := PlanOf(es, hashes, init, aggressive), Select(es, hashes[h], aggressive);
      if r.Some? { FilesOfPush(before, r.value); } else { assert before + [] == before; }
      if id in FilesOf(before) {
        PlanFiles(es, hashes, init, aggressive, id);
      } else {
        SelectedCarry(es, hashes, h, aggressive, id);
      }
    }
  }

  /** The files selected from a sound group carry its hash, and have its size. */
  lemma {:induction false} SelectedCarry(es: Arena, hashes: Hashes, h: Hash, aggressive: bool, id: VfsId)
    requires HashSound(es, hashes) && h in hashes && Usable(es, hashes[h].entries)
    requires Select(es, hashes[h], aggressive).Some?
    requires id == Select(es, hashes[h], aggressive).value.senpai || id in Select(es, hashes[h], aggressive).value.dups
    ensures id < |es| && es[id].fileHash == Some(h) && es[id].fileSize == Some(hashes[h].size)
  {
    assert GroupOk(es, hashes[h], h);
    SelectMeaning(es, hashes[h], aggressive, id);
    var k :| 0 <= k < |hashes[h].entries| && hashes[h].entries[k] == (File, id);
    assert MemberOk(es, hashes[h].entries[k], hashes[h].size, h);
  }

  /** Each file is used at most once in the whole plan, as source or as duplicate. */
  lemma {:induction false} PlanUsesOnce(es: Arena, hashes: Hashes, order: seq<Hash>, aggressive: bool)
    requires AllUsable(es, hashes) && forall k :: 0 <= k < |order| ==> order[k] in hashes
    requires HashSound(es, hashes) && NoDup(order)
    ensures NoDup(FilesOf(PlanOf(es, hashes, order, aggressive)))
  {
    if order != [] {
      var init, h := order[..|order| - 1], order[|order| - 1];
      var before, r := PlanOf(es, hashes, init, aggressive), Select(es, hashes[h], aggressive);
      PlanUsesOnce(es, hashes, init, aggressive);
      if r.Some? {
        FilesOfPush(before, r.value);
        assert GroupOk(es, hashes[h], h);
        SelectMeaning(es, hashes[h], aggressive, r.value.senpai);
        forall id | id in FilesOf(before)
          ensures id != r.value.senpai && id !in r.value.dups
        {
          PlanFiles(es, hashes, init, aggressive, id);
          if id == r.value.senpai || id in r.value.dups { SelectedCarry(es, hashes, h, aggressive, id); }
        }
        NoDupJoin(FilesOf(before), r.value.senpai, r.value.dups);
      } else {
        assert before + [] == before;
      }
    }
  }

  lemma {:induction false} NoDupJoin(a: seq<VfsId>, x: VfsId, b: seq<VfsId>)
    requires NoDup(a) && NoDup(b) && x !in a && x !in b && forall y :: y in a ==> y !in b
    ensures NoDup(a + [x] + b)
  {
    var s := a + [x] + b;
    forall i, j | 0 <= i < j < |s|
      ensures s[i] != s[j]
    {
      if i < |a| { assert s[i] in a; }
      if j > |a| { assert s[j] == b[j - |a| - 1]; }
    }
  }

  /** Every planned group has a range that is not empty. */
  lemma {:induction false} PlanPlannable(es: Arena, hashes: Hashes, order: seq<Hash>, aggressive: bool)
    requires AllUsable(es, hashes) && forall k :: 0 <= k < |order| ==> order[k] in hashes
    requires HashSound(es, hashes)
    ensures forall g :: g in PlanOf(es, hashes, order, aggressive) ==>
      Plannable(g) && g.start == 0 < g.end == g.fileSize
  {
    if order != [] {
      var h := order[|order| - 1];
      PlanPlannable(es, hashes, order[..|order| - 1], aggressive);
      var r := Select(es, hashes[h], aggressive);
      if r.Some? {
        assert GroupOk(es, hashes[h], h);
        SelectMeaning(es, hashes[h], aggressive, r.value.senpai);
        SelectedCarry(es, hashes, h, aggressive, r.value.senpai);
      }
    }
  }
}
