/** Why a file becomes the source of its hash group, and when a group plans nothing
    (dupion/src/dedup/mod.rs). */
module DedupChoice {
  import opened Basics
  import opened Arenas
  import opened States
  import opened KeySort
  import opened Occurrences
  import opened DedupGroups
  import opened DedupPlan

  /** The number of eligible files among the entries whose first extent lies at `p`. */
  function Sharing(es: Arena, entries: seq<Member>, p: nat): nat {
    if entries == [] then 0 else
      var m := entries[|entries| - 1];
      Sharing(es, entries[..|entries| - 1], p) + if EligibleMember(es, m) && es[m.1].phys == Some(p) then 1 else 0
  }

  /** The number of eligible files among the entries. */
  function Files(es: Arena, entries: seq<Member>): nat {
    if entries == [] then 0 else
      Files(es, entries[..|entries| - 1]) + if EligibleMember(es, entries[|entries| - 1]) then 1 else 0
  }

  /** The sum of the offsets of their first extents. */
  function SumOfOffsets(es: Arena, entries: seq<Member>): nat {
    if entries == [] then 0 else
      var m := entries[|entries| - 1];
      SumOfOffsets(es, entries[..|entries| - 1]) + if EligibleMember(es, m) then es[m.1].phys.value else 0
  }

  /** The candidates are as many as the eligible files, at the same offsets. */
  lemma {:induction false} CandidatesSum(es: Arena, entries: seq<Member>)
    requires Usable(es, entries)
    ensures |Candidates(es, entries)| == Files(es, entries)
    ensures SumPhys(Candidates(es, entries)) == SumOfOffsets(es, entries)
  {
    if entries != [] {
      var init, m := entries[..|entries| - 1], entries[|entries| - 1];
      CandidatesSum(es, init);
      assert UsableMember(es, m);
      var before := Candidates(es, init);
      if EligibleMember(es, m) {
        assert (before + [CandidateOf(es, m.1)])[..|before|] == before;
      } else {
        assert before + [] == before;
      }
    }
  }

  /** The average offset of a planned group is that of its eligible files, rounded down. */
  lemma {:induction false} AverageIs(es: Arena, g: HashGroup, aggressive: bool)
    requires Usable(es, g.entries) && Select(es, g, aggressive).Some?
    ensures var avg, n := Select(es, g, aggressive).value.avgPhys, Files(es, g.entries);
      n >= 2 && avg * n <= SumOfOffsets(es, g.entries) < (avg + 1) * n
  {
    CandidatesSum(es, g.entries);
    RoundedDown(SumOfOffsets(es, g.entries), Files(es, g.entries));
  }

  lemma {:induction false} RoundedDown(sum: nat, n: nat)
    requires n > 0
    ensures sum / n * n <= sum < (sum / n + 1) * n
  {
  }

  lemma {:induction false} CountPush(cs: seq<Candidate>, c: Candidate, p: nat)
    ensures CountPhys(cs + [c], p) == CountPhys(cs, p) + if c.phys == p then 1 else 0
  {
    assert (cs + [c])[..|cs|] == cs;
  }

  /** One more entry: a candidate more, at its offset, if it is an eligible file. */
  lemma {:induction false} CandidatesStep(es: Arena, entries: seq<Member>, p: nat)
    requires Usable(es, entries) && entries != []
    ensures Usable(es, entries[..|entries| - 1])
    ensures CountPhys(Candidates(es, entries), p) == CountPhys(Candidates(es, entries[..|entries| - 1]), p) +
      if EligibleMember(es, entries[|entries| - 1]) && es[entries[|entries| - 1].1].phys == Some(p) then 1 else 0
  {
    hide CountPhys;
    var init, m := entries[..|entries| - 1], entries[|entries| - 1];
    assert UsableMember(es, m);
    var before := Candidates(es, init);
    if EligibleMember(es, m) {
      CountPush(before, CandidateOf(es, m.1), p);
    } else {
      assert before + [] == before;
    }
  }

  lemma {:induction false} CountIsSharing(es: Arena, entries: seq<Member>, p: nat)
    requires Usable(es, entries)
    ensures CountPhys(Candidates(es, entries), p) == Sharing(es, entries, p)
  {
    if entries != [] {
      hide Candidates, CountPhys;
      CandidatesStep(es, entries, p);
      CountIsSharing(es, entries[..|entries| - 1], p);
    }
  }

  lemma {:induction false} CountFirst(x: Candidate, s: seq<Candidate>, p: nat)
    ensures CountPhys([x] + s, p) == CountPhys(s, p) + if x.phys == p then 1 else 0
  {
    if s == [] {
      assert ([x] + s)[..0] == [];
    } else {
      CountFirst(x, s[..|s| - 1], p);
      assert ([x] + s)[..|s|] == [x] + s[..|s| - 1];
    }
  }

  lemma {:induction false} CountInsert(x: Candidate, s: seq<Candidate>, key: Candidate -> int, p: nat)
    ensures CountPhys(Insert(x, s, key), p) == CountPhys(s, p) + if x.phys == p then 1 else 0
  {
    if s != [] && key(x) > key(s[0]) {
      CountInsert(x, s[1..], key, p);
      CountFirst(s[0], Insert(x, s[1..], key), p);
      CountFirst(s[0], s[1..], p);
      assert s == [s[0]] + s[1..];
    } else {
      CountFirst(x, s, p);
    }
  }

  /** Sorting changes no count. */
  lemma {:induction false} CountSort(s: seq<Candidate>, key: Candidate -> int, p: nat)
    ensures CountPhys(SortBy(s, key), p) == CountPhys(s, p)
  {
    if s != [] {
      CountSort(s[1..], key, p);
      CountInsert(s[0], SortBy(s[1..], key), key, p);
      CountFirst(s[0], s[1..], p);
      assert s == [s[0]] + s[1..];
    }
  }

  /** The candidate describes its entry, and knows how many files share its first extent. */
  ghost predicate Describes(es: Arena, g: HashGroup, c: Candidate) {
    && (File, c.id) in g.entries && EligibleMember(es, (File, c.id))
    && es[c.id].phys == Some(c.phys) && es[c.id].nExtends == Some(c.nExtends) && es[c.id].ctime == Some(c.ctime)
    && c.occurrences == Sharing(es, g.entries, c.phys)
  }

  lemma {:induction false} RankedDescribe(es: Arena, g: HashGroup, k: nat)
    requires Usable(es, g.entries) && k < |Ranked(es, g)|
    ensures Describes(es, g, Ranked(es, g)[k])
  {
    var cs, key := Candidates(es, g.entries), (c: Candidate) => c.phys;
    var sorted := SortBy(cs, key);
    SortedHold(cs, key);
    hide SortBy, Candidates, CountPhys, Sharing;
    CandidatesAre(es, g.entries, sorted[k]);
    EligibleIs(es, (File, sorted[k].id));
    CountSort(cs, key, sorted[k].phys);
    CountIsSharing(es, g.entries, sorted[k].phys);
  }

  lemma {:induction false} RankedAscend(es: Arena, g: HashGroup)
    requires Usable(es, g.entries)
    ensures forall i, j :: 0 <= i < j < |Ranked(es, g)| ==> Ranked(es, g)[i].phys <= Ranked(es, g)[j].phys
  {
    SortSorts(Candidates(es, g.entries), (c: Candidate) => c.phys);
  }

  /** `a` is at least as good a source as `b`: fewer extents, then more files that share its
      first extent, then older, then nearer to the average offset, then in front. */
  ghost predicate AtLeastAsGood(es: Arena, g: HashGroup, avg: nat, a: VfsId, b: VfsId)
    requires EligibleMember(es, (File, a)) && EligibleMember(es, (File, b))
    requires es[a].ctime.Some? && es[b].ctime.Some?
  {
    var x, y := es[a], es[b];
    var p, q := Sharing(es, g.entries, x.phys.value), Sharing(es, g.entries, y.phys.value);
    && x.nExtends.value <= y.nExtends.value
    && (x.nExtends == y.nExtends ==> p >= q)
    && (x.nExtends == y.nExtends && p == q ==> x.ctime.value <= y.ctime.value)
    && (x.nExtends == y.nExtends && p == q && x.ctime == y.ctime ==>
          var d := if avg <= x.phys.value then x.phys.value - avg else avg - x.phys.value;
          var e := if avg <= y.phys.value then y.phys.value - avg else avg - y.phys.value;
          d < e || (d == e && x.phys.value <= y.phys.value))
  }

  lemma {:induction false} BetterIs(es: Arena, g: HashGroup, avg: nat, a: Candidate, b: Candidate)
    requires Describes(es, g, a) && Describes(es, g, b) && !Better(b, a, avg)
    requires b.phys < a.phys ==> Better(a, b, avg)
    ensures EligibleMember(es, (File, a.id)) && EligibleMember(es, (File, b.id))
    ensures es[a.id].ctime.Some? && es[b.id].ctime.Some? && AtLeastAsGood(es, g, avg, a.id, b.id)
  {
    hide Sharing;
  }

  /** No eligible file of the group would have been a better source than the one selected. */
  lemma {:induction false} SourceIsBest(es: Arena, g: HashGroup, aggressive: bool, id: VfsId)
    requires Usable(es, g.entries) && IdsDiffer(g.entries) && Select(es, g, aggressive).Some?
    requires (File, id) in g.entries && EligibleMember(es, (File, id))
    ensures var r := Select(es, g, aggressive).value;
      && EligibleMember(es, (File, r.senpai)) && es[r.senpai].ctime.Some? && es[id].ctime.Some?
      && AtLeastAsGood(es, g, r.avgPhys, r.senpai, id)
  {
    var cs := Ranked(es, g);
    var avg := SumPhys(Candidates(es, g.entries)) / |cs|;
    var b := BestIndex(cs, avg, |cs|);
    hide Ranked, Sharing, Usable;
    RankedAre(es, g, id);
    var k :| 0 <= k < |cs| && cs[k].id == id;
    RankedDescribe(es, g, k);
    RankedDescribe(es, g, b);
    RankedAscend(es, g);
    assert !Better(cs[k], cs[b], avg);
    assert k < b ==> Better(cs[b], cs[k], avg);
    hide Describes, Better, AtLeastAsGood;
    BetterIs(es, g, avg, cs[b], cs[k]);
  }

  /** Two eligible files of the group that deduplication could bring together. */
  ghost predicate Mergeable(es: Arena, g: HashGroup, aggressive: bool, a: VfsId, b: VfsId) {
    && a != b && (File, a) in g.entries && (File, b) in g.entries
    && EligibleMember(es, (File, a)) && EligibleMember(es, (File, b)) && (aggressive || es[a].phys != es[b].phys)
  }

  /** The candidate of an eligible file. */
  lemma {:induction false} RankOf(es: Arena, g: HashGroup, id: VfsId) returns (k: nat)
    requires Usable(es, g.entries) && IdsDiffer(g.entries)
    requires (File, id) in g.entries && EligibleMember(es, (File, id))
    ensures k < |Ranked(es, g)| && Ranked(es, g)[k].id == id && es[id].phys == Some(Ranked(es, g)[k].phys)
    ensures IdsApart(Ranked(es, g))
  {
    hide Ranked;
    RankedAre(es, g, id);
    k :| 0 <= k < |Ranked(es, g)| && Ranked(es, g)[k].id == id;
    assert FromEntry(es, g, Ranked(es, g)[k]);
  }

  lemma {:induction false} SomethingRetained(es: Arena, g: HashGroup, aggressive: bool)
    requires Usable(es, g.entries) && g.size > 0 && |Ranked(es, g)| >= 2
    requires forall b :: 0 <= b < |Ranked(es, g)| ==> Retained(Ranked(es, g), Ranked(es, g)[b], aggressive) != []
    ensures Select(es, g, aggressive).Some?
  {
  }

  lemma {:induction false} MergeableSelects(es: Arena, g: HashGroup, aggressive: bool, a: VfsId, b: VfsId)
    requires Usable(es, g.entries) && IdsDiffer(g.entries) && g.size > 0 && Mergeable(es, g, aggressive, a, b)
    ensures Select(es, g, aggressive).Some?
  {
    hide Ranked, Usable, IdsApart, IdsDiffer, Select, Retained;
    var cs := Ranked(es, g);
    var j := RankOf(es, g, a);
    var k := RankOf(es, g, b);
    forall s | 0 <= s < |cs|
      ensures Retained(cs, cs[s], aggressive) != []
    {
      OneRetained(cs, s, aggressive, j, k);
    }
    SomethingRetained(es, g, aggressive);
  }

  lemma {:induction false} OneRetained(cs: seq<Candidate>, s: nat, aggressive: bool, j: nat, k: nat)
    requires j < |cs| && k < |cs| && s < |cs| && IdsApart(cs) && cs[j].id != cs[k].id
    requires aggressive || cs[j].phys != cs[k].phys
    ensures Retained(cs, cs[s], aggressive) != []
  {
    var senpai := cs[s];
    if cs[j].id == senpai.id { assert j == s; }
    if cs[k].id == senpai.id { assert k == s; }
    var x := if Keep(cs[j], senpai, aggressive) then j else k;
    assert Keep(cs[x], senpai, aggressive);
    RetainedAre(cs, senpai, aggressive, cs[x].id);
  }

  /** A group plans something if and only if it is not of size 0 and has two files to bring
      together. */
  lemma {:induction false} SelectsIff(es: Arena, g: HashGroup, aggressive: bool)
    requires Usable(es, g.entries) && IdsDiffer(g.entries)
    ensures Select(es, g, aggressive).Some? <==>
      g.size > 0 && exists a: VfsId, b: VfsId :: Mergeable(es, g, aggressive, a, b)
  {
    if Select(es, g, aggressive).Some? {
      var r := Select(es, g, aggressive).value;
      SelectMeaning(es, g, aggressive, r.senpai);
      SelectMeaning(es, g, aggressive, r.dups[0]);
      assert Mergeable(es, g, aggressive, r.senpai, r.dups[0]);
    } else if g.size > 0 {
      forall a: VfsId, b: VfsId
        ensures !Mergeable(es, g, aggressive, a, b)
      {
        if Mergeable(es, g, aggressive, a, b) { MergeableSelects(es, g, aggressive, a, b); }
      }
    }
  }

  /** The duplicates of a group are listed by ascending offset. */
  lemma {:induction false} DupsAscend(es: Arena, g: HashGroup, aggressive: bool)
    requires Usable(es, g.entries) && IdsDiffer(g.entries) && Select(es, g, aggressive).Some?
    ensures PlacedIds(es, Select(es, g, aggressive).value.dups)
  {
    var cs := Ranked(es, g);
    var avg := SumPhys(Candidates(es, g.entries)) / |cs|;
    var senpai := cs[BestIndex(cs, avg, |cs|)];
    RankedAscend(es, g);
    RankedAre(es, g, 0);
    hide Ranked, FromEntry, BestIndex, Usable, IdsDiffer;
    RetainedAscend(es, g, cs, senpai, aggressive);
  }

  ghost predicate PlacedCandidates(es: Arena, g: HashGroup, cs: seq<Candidate>) {
    && (forall i, j :: 0 <= i < j < |cs| ==> cs[i].phys <= cs[j].phys)
    && forall k :: 0 <= k < |cs| ==> FromEntry(es, g, cs[k])
  }

  lemma {:induction false} RetainedAscend(es: Arena, g: HashGroup, cs: seq<Candidate>, senpai: Candidate,
                                          aggressive: bool)
    requires PlacedCandidates(es, g, cs)
    ensures PlacedIds(es, Retained(cs, senpai, aggressive))
    ensures forall id :: id in Retained(cs, senpai, aggressive) ==> es[id].phys.value <= cs[|cs| - 1].phys
  {
    if cs != [] {
      var init, last := cs[..|cs| - 1], cs[|cs| - 1];
      RetainedAscend(es, g, init, senpai, aggressive);
      assert FromEntry(es, g, last);
      var before := Retained(init, senpai, aggressive);
      forall id | id in before
        ensures es[id].phys.value <= last.phys
      {
        assert init[|init| - 1] == cs[|cs| - 2];
      }
      assert before + [] == before;
    }
  }

  ghost predicate PlacedIds(es: Arena, ids: seq<VfsId>) {
    && (forall i :: 0 <= i < |ids| ==> ids[i] < |es| && es[ids[i]].phys.Some?)
    && forall i, j :: 0 <= i < j < |ids| ==> es[ids[i]].phys.value <= es[ids[j]].phys.value
  }

  /** Every hash group that has two files to bring together is in the plan, and all its eligible files
      are used, but those that share the first extent of the source already. */
  lemma {:induction false} PlanCovers(es: Arena, hashes: Hashes, order: seq<Hash>, aggressive: bool, h: Hash,
                                      a: VfsId, b: VfsId, id: VfsId)
    requires AllUsable(es, hashes) && forall k :: 0 <= k < |order| ==> order[k] in hashes
    requires HashSound(es, hashes) && h in order && hashes[h].size > 0
    requires Mergeable(es, hashes[h], aggressive, a, b)
    requires (File, id) in hashes[h].entries && EligibleMember(es, (File, id))
    ensures PlanUses(es, hashes[h], aggressive, PlanOf(es, hashes, order, aggressive), id)
  {
    var init, last := order[..|order| - 1], order[|order| - 1];
    var before, plan := PlanOf(es, hashes, init, aggressive), PlanOf(es, hashes, order, aggressive);
    hide HashSound, Mergeable, EligibleMember, Select, UsedBy;
    if last == h {
      SelectedUses(es, hashes, h, aggressive, a, b, id);
      assert plan[|before|] == Select(es, hashes[h], aggressive).value;
    } else {
      PlanCovers(es, hashes, init, aggressive, h, a, b, id);
      var k :| 0 <= k < |before| && UsedBy(es, hashes[h], aggressive, before[k], id);
      hide PlanUses;
      assert before <= plan;
      StillUsed(es, hashes[h], aggressive, before, plan, k, id);
    }
  }

  lemma {:induction false} StillUsed(es: Arena, g: HashGroup, aggressive: bool, before: seq<Group>, plan: seq<Group>,
                                     k: nat, id: VfsId)
    requires before <= plan && k < |before| && UsedBy(es, g, aggressive, before[k], id)
    ensures PlanUses(es, g, aggressive, plan, id)
  {
    assert plan[k] == before[k];
  }

  lemma {:induction false} SelectedUses(es: Arena, hashes: Hashes, h: Hash, aggressive: bool, a: VfsId, b: VfsId,
                                        id: VfsId)
    requires HashSound(es, hashes) && h in hashes && Usable(es, hashes[h].entries) && hashes[h].size > 0
    requires Mergeable(es, hashes[h], aggressive, a, b)
    requires (File, id) in hashes[h].entries && EligibleMember(es, (File, id))
    ensures Select(es, hashes[h], aggressive).Some?
    ensures UsedBy(es, hashes[h], aggressive, Select(es, hashes[h], aggressive).value, id)
  {
    assert GroupOk(es, hashes[h], h);
    SelectsIff(es, hashes[h], aggressive);
    hide Select, Usable, HashSound, Mergeable;
    SelectMeaning(es, hashes[h], aggressive, id);
  }

  ghost predicate PlanUses(es: Arena, g: HashGroup, aggressive: bool, plan: seq<Group>, id: VfsId) {
    exists k :: 0 <= k < |plan| && UsedBy(es, g, aggressive, plan[k], id)
  }

  /** The file is the source of `r`, one of its duplicates, or shares the source's first extent. */
  ghost predicate UsedBy(es: Arena, g: HashGroup, aggressive: bool, r: Group, id: VfsId) {
    && (File, r.senpai) in g.entries && r.senpai < |es| && id < |es|
    && (id == r.senpai || id in r.dups || (!aggressive && es[id].phys == es[r.senpai].phys))
  }
}
