/** The batch planner of the btrfs deduper: groups are merged and split so that one batch
    opens at most 127 files and touches at most `cacheMax` bytes (dupion/src/dedup/btrfs.rs). */
module Planner {
  import opened Basics
  import opened DedupGroups

  const MAX_DUPS_PER_GROUP: nat := 127

  /** One call of `dedup_group_batch`: the groups, the cache limit in force, and the groups
      still waiting in the queue at that moment. */
  datatype Batch = Batch(groups: seq<Group>, cacheMax: nat, waiting: seq<Group>)

  ghost predicate Fits(sum: nat, usage: nat, cacheMax: nat) {
    sum <= MAX_DUPS_PER_GROUP && usage <= cacheMax
  }

  /** Within both limits, or a single pair of files that exceeds the cache on its own. */
  ghost predicate WithinLimits(b: Batch) {
    && b.groups != []
    && (forall i :: 0 <= i < |b.groups| ==> b.groups[i].dups != [])
    && (|| (TotalSum(b.groups) <= 127 && TotalUsage(b.groups) <= b.cacheMax)
        || (|b.groups| == 1 && b.groups[0].Sum() == 2 && b.groups[0].Usage() > b.cacheMax))
  }

  /** The next waiting group is not empty and would break a limit. */
  ghost predicate Greedy(b: Batch) {
    b.waiting != [] ==>
      && b.waiting[0].dups != []
      && (|| TotalSum(b.groups) + b.waiting[0].Sum() > 127
          || TotalUsage(b.groups) + b.waiting[0].Usage() > b.cacheMax)
  }

  ghost function FlattenBatches(bs: seq<Batch>): seq<Task> {
    if bs == [] then [] else FlattenBatches(bs[..|bs| - 1]) + Flatten(bs[|bs| - 1].groups)
  }

  /** A range that is not empty, or few enough files never to be split. Otherwise the code
      divides by a zero length (line 75). */
  ghost predicate Plannable(g: Group) {
    g.start <= g.end && (g.start < g.end || |g.dups| < MAX_DUPS_PER_GROUP)
  }

  ghost function TaskBytes(ts: seq<Task>): int {
    if ts == [] then 0 else TaskBytes(ts[..|ts| - 1]) + (ts[|ts| - 1].end - ts[|ts| - 1].start)
  }

  lemma {:induction false} TaskBytesConcat(a: seq<Task>, b: seq<Task>)
    ensures TaskBytes(a + b) == TaskBytes(a) + TaskBytes(b)
  {
    if b == [] {
      assert a + b == a;
    } else {
      assert (a + b)[..|a + b| - 1] == a + b[..|b| - 1];
      TaskBytesConcat(a, b[..|b| - 1]);
    }
  }

  lemma {:induction false} TaskBytesOne(t: Task)
    ensures TaskBytes([t]) == t.end - t.start && TaskBytes([]) == 0
  {
    assert [t][..0] == [];
  }

  /** The bytes of the source ranges. */
  ghost function SourceBytes(gs: seq<Group>): int {
    if gs == [] then 0 else SourceBytes(gs[..|gs| - 1]) + (gs[|gs| - 1].end - gs[|gs| - 1].start)
  }

  /** What the limits are about: a batch opens the source of each group and one file for each task, and
      touches the range of each. */
  lemma {:induction false} TotalsMean(gs: seq<Group>)
    requires forall i :: 0 <= i < |gs| ==> gs[i].start <= gs[i].end
    ensures TotalSum(gs) == |gs| + |Flatten(gs)|
    ensures TotalUsage(gs) == SourceBytes(gs) + TaskBytes(Flatten(gs))
  {
    if gs != [] {
      var init, g := gs[..|gs| - 1], gs[|gs| - 1];
      TotalsMean(init);
      assert gs == init + [g];
      FlattenConcat(init, [g]);
      FlattenSingle(g);
      hide TaskBytes, Flatten, SourceBytes, TotalSum, TotalUsage, TasksOf, Group.Sum, Group.Usage;
      TaskBytesConcat(Flatten(init), TasksOf(g));
      OneMeans(g);
      TotalsOfPush(init, g);
      SourcePush(init, g);
    }
  }

  lemma {:induction false} OneMeans(g: Group)
    requires g.start <= g.end
    ensures g.Sum() == 1 + |TasksOf(g)| && g.Usage() == g.end - g.start + TaskBytes(TasksOf(g))
  {
    BytesOfGroup(g, |g.dups|);
    assert TasksOf(g)[..|g.dups|] == TasksOf(g);
    MulCommutes(g.end - g.start, |g.dups|);
  }

  lemma {:induction false} SourcePush(gs: seq<Group>, g: Group)
    ensures SourceBytes(gs + [g]) == SourceBytes(gs) + (g.end - g.start)
  {
    assert (gs + [g])[..|gs|] == gs;
  }

  lemma {:induction false} MulCommutes(a: int, b: int)
    ensures a * (b + 1) == a + b * a
  {
  }

  lemma {:induction false} BytesOfGroup(g: Group, n: nat)
    requires n <= |g.dups|
    ensures TaskBytes(TasksOf(g)[..n]) == n * (g.end - g.start)
  {
    if n > 0 {
      assert TasksOf(g)[..n][..n - 1] == TasksOf(g)[..n - 1];
      BytesOfGroup(g, n - 1);
    }
  }

  /** How many files of a group may stay when it is too big (line 75). */
  function MaxGroupFiles(cacheMax: nat, rangeLen: nat): nat
    requires rangeLen > 0
  {
    Max(Min(cacheMax / rangeLen, MAX_DUPS_PER_GROUP), 2)
  }

  lemma {:induction false} MulMono(a: nat, b: nat, c: nat)
    requires b <= c
    ensures a * b <= a * c
  {
  }

  lemma {:induction false} QuotientBounds(c: nat, r: nat)
    requires r > 0
    ensures r * (c / r) <= c < r * (c / r + 1)
  {
  }

  /** The second assertion of the code (line 82): what is too big and cannot be split is
      one pair of files. */
  lemma {:induction false} UnsplittableIsAPair(g: Group, cacheMax: nat)
    requires g.dups != [] && g.start < g.end
    requires !Fits(g.Sum(), g.Usage(), cacheMax)
    requires g.Sum() <= MaxGroupFiles(cacheMax, g.RangeLen())
    ensures MaxGroupFiles(cacheMax, g.RangeLen()) == 2 && g.Sum() == 2
    ensures g.Usage() > cacheMax
  {
    var r, q := g.RangeLen(), cacheMax / g.RangeLen();
    QuotientBounds(cacheMax, r);
    if g.Sum() <= q {
      MulMono(r, g.Sum(), q);
    }
  }

  /** With one file more a group cut down to `MaxGroupFiles` would break a limit. */
  lemma {:induction false} OneMoreIsTooMany(cacheMax: nat, r: nat)
    requires r > 0
    ensures var m := MaxGroupFiles(cacheMax, r);
      m + 1 > 127 || r * m + r > cacheMax
  {
    var m, q := MaxGroupFiles(cacheMax, r), cacheMax / r;
    QuotientBounds(cacheMax, r);
    if q < MAX_DUPS_PER_GROUP {
      MulMono(r, q, m);
    }
  }

  /** A group cut down to `MaxGroupFiles` can take back none of its tail. */
  lemma {:induction false} TailDoesNotFitBack(cacheMax: nat, r: nat, tail: nat)
    requires r > 0 && tail >= 2
    ensures var m := MaxGroupFiles(cacheMax, r);
      !Fits(m + tail, r * m + r * tail, cacheMax)
  {
    var m, q := MaxGroupFiles(cacheMax, r), cacheMax / r;
    QuotientBounds(cacheMax, r);
    if q < MAX_DUPS_PER_GROUP {
      MulMono(r, q + 1, m + tail);
    }
  }

  /** The division at line 75 is by zero: a lone group of this range is too big, and no other group
      can be taken with it. */
  ghost predicate DividesByZero(g: Group, cacheMax: nat) {
    && g.RangeLen() == 0 && !Fits(g.Sum(), g.Usage(), cacheMax)
    && forall next: Group :: !Fits(g.Sum() + next.Sum(), g.Usage() + next.Usage(), cacheMax)
  }

  /** Exactly the groups that are not plannable make the loop divide by zero, under every limit. */
  lemma {:induction false} PlannableIff(g: Group, cacheMax: nat)
    requires g.start <= g.end
    ensures Plannable(g) <==> !DividesByZero(g, cacheMax)
  {
    if !Plannable(g) {
      assert g.RangeLen() == 0 && g.Usage() == 0 && g.Sum() > MAX_DUPS_PER_GROUP;
    }
    if Plannable(g) && g.RangeLen() == 0 {
      assert g.Usage() == 0 && g.Sum() <= MAX_DUPS_PER_GROUP;
    }
  }

  lemma {:induction false} TotalsOfSingle(g: Group)
    ensures TotalSum([g]) == g.Sum() && TotalUsage([g]) == g.Usage()
  {
    assert [g][..0] == [];
  }

  lemma {:induction false} TotalsOfPush(gs: seq<Group>, g: Group)
    ensures TotalSum(gs + [g]) == TotalSum(gs) + g.Sum()
    ensures TotalUsage(gs + [g]) == TotalUsage(gs) + g.Usage()
  {
    assert (gs + [g])[..|gs|] == gs;
  }

  /** The state of the checklist loop, on values: what it has to do with the input is that no
      task is lost, and only one cut group, which fits nothing more, ends the round. */
  ghost predicate Checking(tasks: seq<Task>, submit: seq<Group>, groups: seq<Group>, cacheMax: nat, split: bool) {
    && (forall i :: 0 <= i < |groups| ==> Plannable(groups[i]))
    && (forall i :: 0 <= i < |submit| ==> Plannable(submit[i]) && submit[i].dups != [])
    && Flatten(submit) + Flatten(groups) == tasks
    && (|submit| > 1 ==> Fits(TotalSum(submit), TotalUsage(submit), cacheMax))
    && (split ==> CutHead(submit, groups, cacheMax))
  }

  /** The buffer holds one group, cut to the allowed size, and its tail waits. */
  ghost predicate CutHead(submit: seq<Group>, groups: seq<Group>, cacheMax: nat) {
    && |submit| == 1 && groups != [] && groups[0].dups != []
    && submit[0].start < submit[0].end
    && submit[0].Sum() == MaxGroupFiles(cacheMax, submit[0].RangeLen())
    && !Fits(TotalSum(submit) + groups[0].Sum(), TotalUsage(submit) + groups[0].Usage(), cacheMax)
  }

  lemma {:induction false} DropEmptyStep(tasks: seq<Task>, submit: seq<Group>, groups: seq<Group>, cacheMax: nat,
                                         split: bool)
    requires Checking(tasks, submit, groups, cacheMax, split)
    requires groups != [] && groups[0].dups == []
    ensures Checking(tasks, submit, groups[1..], cacheMax, split)
  {
    assert Flatten(groups) == Flatten(groups[1..]);
  }

  lemma {:induction false} TakeStep(tasks: seq<Task>, submit: seq<Group>, groups: seq<Group>, cacheMax: nat,
                                    split: bool)
    requires Checking(tasks, submit, groups, cacheMax, split)
    requires groups != [] && groups[0].dups != []
    requires submit == [] || Fits(TotalSum(submit) + groups[0].Sum(), TotalUsage(submit) + groups[0].Usage(), cacheMax)
    ensures !split && Checking(tasks, submit + [groups[0]], groups[1..], cacheMax, split)
  {
    hide Flatten, TotalSum, TotalUsage, Plannable;
    FlattenTake(submit, groups);
    TotalsOfPush(submit, groups[0]);
  }

  /** Moving the head of a queue to the end of the buffer moves no task. */
  lemma {:induction false} FlattenTake(submit: seq<Group>, groups: seq<Group>)
    requires groups != []
    ensures Flatten(submit + [groups[0]]) + Flatten(groups[1..]) == Flatten(submit) + Flatten(groups)
  {
    FlattenConcat(submit, [groups[0]]);
    FlattenSingle(groups[0]);
  }

  lemma {:induction false} SplitStep(tasks: seq<Task>, head: Group, groups: seq<Group>, cacheMax: nat, first: Group,
                                     tail: Group)
    requires Checking(tasks, [head], groups, cacheMax, false)
    requires head.start < head.end && MaxGroupFiles(cacheMax, head.RangeLen()) < head.Sum()
    requires var at := MaxGroupFiles(cacheMax, head.RangeLen()) - 1;
      first == head.(dups := head.dups[..at]) && tail == head.(dups := head.dups[at..])
    ensures Checking(tasks, [first], [tail] + groups, cacheMax, true)
  {
    var at := MaxGroupFiles(cacheMax, head.RangeLen()) - 1;
    SplitKeepsTasks(head, at);
    FlattenSingle(head);
    FlattenSingle(first);
    TotalsOfSingle(first);
    TailDoesNotFitBack(cacheMax, head.RangeLen(), tail.Sum());
    assert ([tail] + groups)[1..] == groups;
    assert Flatten([first]) + Flatten([tail] + groups) == Flatten([head]) + Flatten(groups);
  }

  /** The first assertion of the code (line 72): only a lone group can be too big. */
  lemma {:induction false} TooBigIsAlone(tasks: seq<Task>, submit: seq<Group>, groups: seq<Group>, cacheMax: nat,
                                         split: bool)
    requires Checking(tasks, submit, groups, cacheMax, split)
    requires submit != [] && !Fits(TotalSum(submit), TotalUsage(submit), cacheMax)
    ensures |submit| == 1
    ensures TotalSum(submit) == submit[0].Sum() && TotalUsage(submit) == submit[0].Usage()
    ensures submit[0].start < submit[0].end
    ensures split ==> submit[0].Sum() == MaxGroupFiles(cacheMax, submit[0].RangeLen())
  {
    hide Flatten, TasksOf, TotalSum, TotalUsage;
    TotalsOfSingle(submit[0]);
    assert [submit[0]] == submit;
  }

  /** The two lists have no object in common. */
  ghost predicate Apart(a: seq<DedupGroup>, b: seq<DedupGroup>) {
    forall i, j :: 0 <= i < |a| && 0 <= j < |b| ==> a[i] != b[j]
  }

  /** A run of the duplicates of the `j`-th of the groups. */
  ghost predicate PieceAt(g: Group, all: seq<Group>, j: nat, lo: nat, hi: nat) {
    j < |all| && lo <= hi <= |all[j].dups| && g == all[j].(dups := all[j].dups[lo..hi])
  }

  /** All the duplicates of one of the groups from some place on. */
  ghost predicate IsRest(g: Group, all: seq<Group>) {
    exists j: nat, lo: nat :: j < |all| && PieceAt(g, all, j, lo, |all[j].dups|)
  }

  ghost predicate Rests(gs: seq<Group>, all: seq<Group>) {
    forall i :: 0 <= i < |gs| ==> IsRest(gs[i], all)
  }

  /** `g` and `h` together are the duplicates of one of the groups from some place on. */
  ghost predicate Parted(g: Group, h: Group, all: seq<Group>) {
    exists j: nat, lo: nat, mid: nat ::
      j < |all| && PieceAt(g, all, j, lo, mid) && PieceAt(h, all, j, mid, |all[j].dups|)
  }

  /** A group is cut only when it is alone, and then one more of its files would break a limit. */
  ghost predicate CutsLate(b: Batch, all: seq<Group>) {
    || Rests(b.groups, all)
    || (&& |b.groups| == 1 && b.waiting != [] && Parted(b.groups[0], b.waiting[0], all)
        && var g := b.groups[0];
           g.Sum() + 1 > 127 || g.Usage() + (g.end - g.start) > b.cacheMax)
  }

  lemma {:induction false} WholeRests(gs: seq<Group>)
    ensures Rests(gs, gs) && Rests([], gs)
  {
    forall i | 0 <= i < |gs|
      ensures IsRest(gs[i], gs)
    {
      assert PieceAt(gs[i], gs, i, 0, |gs[i].dups|);
    }
  }

  lemma {:induction false} TakeRest(submit: seq<Group>, groups: seq<Group>, all: seq<Group>)
    requires Rests(groups, all) && groups != []
    ensures Rests(submit, all) ==> Rests(submit + [groups[0]], all)
    ensures Rests(groups[1..], all)
  {
    hide IsRest;
  }

  lemma {:induction false} SplitRest(head: Group, groups: seq<Group>, all: seq<Group>, at: nat)
    requires Rests([head], all) && Rests(groups, all) && at <= |head.dups|
    ensures Parted(head.(dups := head.dups[..at]), head.(dups := head.dups[at..]), all)
    ensures Rests([head.(dups := head.dups[at..])] + groups, all)
  {
    assert IsRest([head][0], all);
    var j: nat, lo: nat :| j < |all| && PieceAt(head, all, j, lo, |all[j].dups|);
    var hi := |all[j].dups|;
    var first, tail := head.(dups := head.dups[..at]), head.(dups := head.dups[at..]);
    SliceParts(all[j].dups, lo, hi, at);
    assert PieceAt(first, all, j, lo, lo + at) && PieceAt(tail, all, j, lo + at, hi);
    hide PieceAt;
  }

  lemma {:induction false} SliceParts<T>(s: seq<T>, lo: nat, hi: nat, at: nat)
    requires lo + at <= hi <= |s|
    ensures s[lo..hi][..at] == s[lo..lo + at] && s[lo..hi][at..] == s[lo + at..hi]
  {
  }

  /** What the checklist promises of a batch it leaves. */
  ghost predicate Submittable(b: Batch) {
    WithinLimits(b) && Greedy(b)
  }

  lemma {:induction false} FitsIsSubmittable(tasks: seq<Task>, submit: seq<Group>, groups: seq<Group>, cacheMax: nat,
                                             split: bool)
    requires Checking(tasks, submit, groups, cacheMax, split)
    requires Fits(TotalSum(submit), TotalUsage(submit), cacheMax)
    requires Greedy(Batch(submit, cacheMax, groups))
    ensures submit != [] ==> Submittable(Batch(submit, cacheMax, groups))
  {
  }

  lemma {:induction false} PairIsSubmittable(tasks: seq<Task>, submit: seq<Group>, groups: seq<Group>, cacheMax: nat,
                                             split: bool)
    requires Checking(tasks, submit, groups, cacheMax, split)
    requires |submit| == 1 && submit[0].start < submit[0].end
    requires !Fits(submit[0].Sum(), submit[0].Usage(), cacheMax)
    requires submit[0].Sum() <= MaxGroupFiles(cacheMax, submit[0].RangeLen())
    requires Greedy(Batch(submit, cacheMax, groups))
    ensures Submittable(Batch(submit, cacheMax, groups))
    ensures MaxGroupFiles(cacheMax, submit[0].RangeLen()) == 2 && submit[0].Sum() == 2
  {
    UnsplittableIsAPair(submit[0], cacheMax);
  }

  class BtrfsDedup {
    ghost var batches: seq<Batch>
    var processedBytes: int
    var processedFiles: nat

    constructor ()
      ensures batches == [] && processedBytes == 0 && processedFiles == 0
    {
      batches, processedBytes, processedFiles := [], 0, 0;
    }

    /** The inner "checklist" loop: fill an empty submit buffer from the queue. */
    method Checklist(input: seq<DedupGroup>, ghost views: seq<Group>, ghost own: set<DedupGroup>, cacheMax: nat,
                     ghost all: seq<Group>)
      returns (groups: seq<DedupGroup>, submit: seq<DedupGroup>,
               ghost waiting: seq<Group>, ghost buffered: seq<Group>, ghost own': set<DedupGroup>)
      requires Shows(input, views, own)
      requires Rests(views, all) && forall i :: 0 <= i < |views| ==> Plannable(views[i])
      modifies own
      ensures fresh(own' - own) && Shows(groups, waiting, own') && Shows(submit, buffered, own')
      ensures CutsLate(Batch(buffered, cacheMax, waiting), all) && Rests(waiting, all)
      ensures Checking(Flatten(views), buffered, waiting, cacheMax, false)
      ensures submit == [] ==> groups == []
      ensures submit != [] ==> Submittable(Batch(buffered, cacheMax, waiting))
    {
      hide Flatten, TasksOf, TotalSum, TotalUsage, Rests;
      NothingYet(views, cacheMax);
      WholeRests(all);
      groups, submit, waiting, buffered, own' := input, [], views, [], own;
      ghost var tasks, split := Flatten(views), false;
      while groups != [] || submit != []
        invariant fresh(own' - own)
        invariant Shows(submit, buffered, own') && Shows(groups, waiting, own') && Apart(submit, groups)
        invariant Checking(tasks, buffered, waiting, cacheMax, split)
        invariant CutsLate(Batch(buffered, cacheMax, waiting), all) && Rests(waiting, all)
        invariant !split ==> Rests(buffered, all)
        decreases !split, |groups|
      {
        var submitSum, submitUsage := Totals(submit, buffered, own');
        if groups != [] {
          var g := groups[0];
          if g.dups == [] {
            DropEmptyStep(tasks, buffered, waiting, cacheMax, split);
            TakeRest(buffered, waiting, all);
            groups, waiting := groups[1..], waiting[1..];
            continue;
          }
          if submit == [] || (submitSum + g.View().Sum() <= MAX_DUPS_PER_GROUP
                              && submitUsage + g.View().Usage() <= cacheMax) {
            TakeStep(tasks, buffered, waiting, cacheMax, split);
            TakeRest(buffered, waiting, all);
            groups, submit := groups[1..], submit + [g];
            waiting, buffered := waiting[1..], buffered + [waiting[0]];
            continue;
          }
        }
        if submitSum <= MAX_DUPS_PER_GROUP && submitUsage <= cacheMax {
          FitsIsSubmittable(tasks, buffered, waiting, cacheMax, split);
          break;
        }
        TooBigIsAlone(tasks, buffered, waiting, cacheMax, split);
        assert |submit| == 1;
        var head := submit[0];
        var maxGroupFiles := MaxGroupFiles(cacheMax, head.View().RangeLen());
        if maxGroupFiles < submitSum {
          groups, buffered, waiting, own' := SplitHead(tasks, head, groups, buffered, waiting, own', cacheMax, all);
          split := true;
          continue;
        }
        PairIsSubmittable(tasks, buffered, waiting, cacheMax, split);
        assert maxGroupFiles == 2 && head.View().Sum() == 2;
        break;
      }
    }

    /** Too many files in a lone group: cut its end off and put it back in the queue. */
    method SplitHead(ghost tasks: seq<Task>, head: DedupGroup, groups: seq<DedupGroup>, ghost buffered: seq<Group>,
                     ghost waiting: seq<Group>, ghost own: set<DedupGroup>, cacheMax: nat, ghost all: seq<Group>)
      returns (queue: seq<DedupGroup>, ghost buffered': seq<Group>, ghost waiting': seq<Group>,
               ghost own': set<DedupGroup>)
      requires head in own && buffered == [head.View()] && Shows(groups, waiting, own) && Apart([head], groups)
      requires Checking(tasks, buffered, waiting, cacheMax, false)
      requires head.start < head.end && MaxGroupFiles(cacheMax, head.View().RangeLen()) < head.View().Sum()
      requires Rests(buffered, all) && Rests(waiting, all)
      modifies head
      ensures CutsLate(Batch(buffered', cacheMax, waiting'), all) && Rests(waiting', all)
      ensures own <= own' && fresh(own' - own)
      ensures Shows([head], buffered', own') && Shows(queue, waiting', own') && Apart([head], queue)
      ensures Checking(tasks, buffered', waiting', cacheMax, true)
    {
      ghost var before := head.View();
      assert [head][0] == head;
      var end := head.SplitOffEndAtCandidateN(MaxGroupFiles(cacheMax, head.View().RangeLen()) - 1);
      SplitStep(tasks, before, waiting, cacheMax, head.View(), end.View());
      SplitRest(before, waiting, all, MaxGroupFiles(cacheMax, before.RangeLen()) - 1);
      OneMoreIsTooMany(cacheMax, before.RangeLen());
      hide Rests, Parted;
      queue, buffered', waiting' := [end] + groups, [head.View()], [end.View()] + waiting;
      own' := own + {end};
    }

    /** The file count and byte usage of the submit buffer. */
    method Totals(submit: seq<DedupGroup>, ghost views: seq<Group>, ghost own: set<DedupGroup>)
      returns (sum: nat, usage: nat)
      requires Shows(submit, views, own)
      ensures sum == TotalSum(views) && usage == TotalUsage(views)
    {
      sum, usage := 0, 0;
      for i := 0 to |submit|
        invariant sum == TotalSum(views[..i]) && usage == TotalUsage(views[..i])
      {
        TotalsOfPush(views[..i], views[i]);
        assert views[..i + 1] == views[..i] + [views[i]];
        sum, usage := sum + submit[i].View().Sum(), usage + submit[i].View().Usage();
      }
      assert views[..|submit|] == views;
    }

    /** The outer loop: one batch per round, a new cache limit for every round. */
    method DedupGroups(input: seq<DedupGroup>, ghost views: seq<Group>, ghost own: set<DedupGroup>, limits: nat -> nat)
      requires Shows(input, views, own)
      requires forall i :: 0 <= i < |views| ==> Plannable(views[i])
      modifies this, own
      ensures FlattenBatches(batches) == Flatten(views)
      ensures Obeys(batches, limits) && WaitsFor(batches, views)
      ensures processedFiles == old(processedFiles) + |Flatten(views)|
      ensures processedBytes == old(processedBytes) + TaskBytes(Flatten(views))
    {
      hide Flatten, TasksOf, FlattenBatches, TaskBytes, Submittable, CutHead, Obeys, WaitsFor, Rests, CutsLate;
      NothingSubmitted(views, limits);
      WholeRests(views);
      var groups, round := input, 0;
      ghost var tasks, waiting, own' := Flatten(views), views, own;
      batches := [];
      while groups != []
        invariant fresh(own' - own) && Shows(groups, waiting, own')
        invariant forall i :: 0 <= i < |waiting| ==> Plannable(waiting[i])
        invariant FlattenBatches(batches) + Flatten(waiting) == tasks
        invariant groups != [] ==> |batches| == round
        invariant Obeys(batches, limits) && WaitsFor(batches, views) && Rests(waiting, views)
        invariant processedFiles == old(processedFiles) + |FlattenBatches(batches)|
        invariant processedBytes == old(processedBytes) + TaskBytes(FlattenBatches(batches))
        decreases |Flatten(waiting)|, |groups|
      {
        var submit;
        ghost var buffered;
        groups, submit, waiting, buffered, own' := Checklist(groups, waiting, own', limits(round), views);
        if submit != [] {
          Submit(submit, buffered, waiting, own', limits, views);
        } else {
          NothingSubmitted(waiting, limits);
        }
        round := round + 1;
      }
      NothingSubmitted(waiting, limits);
    }

    /** Hand the buffer over and record what was handed over. */
    method Submit(submit: seq<DedupGroup>, ghost buffered: seq<Group>, ghost waiting: seq<Group>,
                  ghost own: set<DedupGroup>, ghost limits: nat -> nat, ghost views: seq<Group>)
      requires Shows(submit, buffered, own)
      requires forall i :: 0 <= i < |buffered| ==> buffered[i].start <= buffered[i].end
      requires Submittable(Batch(buffered, limits(|batches|), waiting)) && Obeys(batches, limits)
      requires FlattenBatches(batches) + (Flatten(buffered) + Flatten(waiting)) == Flatten(views)
      requires WaitsFor(batches, views) && Rests(waiting, views)
      requires CutsLate(Batch(buffered, limits(|batches|), waiting), views)
      modifies this
      ensures |batches| == old(|batches|) + 1 && Obeys(batches, limits) && WaitsFor(batches, views)
      ensures FlattenBatches(batches) == old(FlattenBatches(batches)) + Flatten(buffered)
      ensures processedFiles == old(processedFiles) + |Flatten(buffered)| && Flatten(buffered) != []
      ensures processedBytes == old(processedBytes) + TaskBytes(Flatten(buffered))
      ensures TaskBytes(FlattenBatches(batches)) ==
        old(TaskBytes(FlattenBatches(batches))) + TaskBytes(Flatten(buffered))
    {
      hide Submittable, Flatten, FlattenBatches, TaskBytes, Rests, CutsLate, WaitsFor;
      WaitsForStep(batches, Batch(buffered, limits(|batches|), waiting), views);
      ObeysStep(batches, Batch(buffered, limits(|batches|), waiting), limits);
      SubmitStep(batches, Batch(buffered, limits(|batches|), waiting));
      DedupGroupBatch(submit, true, buffered, own);
      batches := batches + [Batch(buffered, limits(|batches|), waiting)];
    }

    /** The simulated submission of one batch: only counts. The planner always submits
        groups with their last part. */
    method DedupGroupBatch(current: seq<DedupGroup>, lastPart: bool, ghost views: seq<Group>,
                           ghost own: set<DedupGroup>)
      requires Shows(current, views, own)
      requires forall i :: 0 <= i < |views| ==> views[i].start <= views[i].end
      modifies this`processedBytes, this`processedFiles
      ensures processedFiles == old(processedFiles) + if lastPart then |Flatten(views)| else 0
      ensures processedBytes == old(processedBytes) + TaskBytes(Flatten(views))
    {
      for i := 0 to |current|
        invariant processedFiles == old(processedFiles) + if lastPart then |Flatten(views[..i])| else 0
        invariant processedBytes == old(processedBytes) + TaskBytes(Flatten(views[..i]))
      {
        CountStep(views, i);
        var group := current[i];
        if group.dups == [] { continue; }
        processedBytes := processedBytes + |group.dups| * (group.end - group.start);
        if lastPart {
          processedFiles := processedFiles + |group.dups|;
        }
      }
      assert views[..|current|] == views;
    }
  }

  /** The k-th batch is within the k-th cache limit and takes all it can. */
  ghost predicate Obeys(batches: seq<Batch>, limits: nat -> nat) {
    forall k :: 0 <= k < |batches| ==> batches[k].cacheMax == limits(k) && Submittable(batches[k])
  }

  /** What waits behind a batch is what is left of the input then, in rests of the input's groups; a batch
      is made of such rests, too, or of one group that had to be cut, with the other part waiting first. */
  ghost predicate WaitsFor(batches: seq<Batch>, views: seq<Group>) {
    forall k :: 0 <= k < |batches| ==>
      && CutsLate(batches[k], views) && Rests(batches[k].waiting, views)
      && FlattenBatches(batches[..k + 1]) + Flatten(batches[k].waiting) == Flatten(views)
  }

  lemma {:induction false} WaitsForStep(done: seq<Batch>, b: Batch, views: seq<Group>)
    requires WaitsFor(done, views) && CutsLate(b, views) && Rests(b.waiting, views)
    requires FlattenBatches(done) + (Flatten(b.groups) + Flatten(b.waiting)) == Flatten(views)
    ensures WaitsFor(done + [b], views)
  {
    var all := done + [b];
    BatchesPush(done, b);
    hide Rests, CutsLate, Flatten, FlattenBatches;
    assert FlattenBatches(done) + Flatten(b.groups) + Flatten(b.waiting) == Flatten(views);
    forall k | 0 <= k < |all|
      ensures CutsLate(all[k], views) && Rests(all[k].waiting, views)
      ensures FlattenBatches(all[..k + 1]) + Flatten(all[k].waiting) == Flatten(views)
    {
      assert all[..k + 1] == if k < |done| then done[..k + 1] else all;
    }
  }

  lemma {:induction false} BatchesPush(done: seq<Batch>, b: Batch)
    ensures FlattenBatches(done + [b]) == FlattenBatches(done) + Flatten(b.groups)
  {
    assert (done + [b])[..|done|] == done;
  }

  lemma {:induction false} NothingYet(groups: seq<Group>, cacheMax: nat)
    requires forall i :: 0 <= i < |groups| ==> Plannable(groups[i])
    ensures Checking(Flatten(groups), [], groups, cacheMax, false)
  {
  }

  lemma {:induction false} NothingSubmitted(groups: seq<Group>, limits: nat -> nat)
    ensures Obeys([], limits) && WaitsFor([], groups) && FlattenBatches([]) == [] && TaskBytes([]) == 0
    ensures Flatten([]) == []
    ensures [] + Flatten(groups) == Flatten(groups)
  {
  }

  lemma {:induction false} ObeysStep(done: seq<Batch>, b: Batch, limits: nat -> nat)
    requires Submittable(b) && b.cacheMax == limits(|done|) && Obeys(done, limits)
    ensures Obeys(done + [b], limits)
  {
    hide Submittable;
  }

  lemma {:induction false} SubmitStep(done: seq<Batch>, b: Batch)
    requires Submittable(b)
    ensures FlattenBatches(done + [b]) == FlattenBatches(done) + Flatten(b.groups)
    ensures TaskBytes(FlattenBatches(done + [b])) == TaskBytes(FlattenBatches(done)) + TaskBytes(Flatten(b.groups))
    ensures Flatten(b.groups) != []
  {
    assert (done + [b])[..|done|] == done;
    TaskBytesConcat(FlattenBatches(done), Flatten(b.groups));
    assert TasksOf(b.groups[0]) != [];
  }

  lemma {:induction false} CountStep(views: seq<Group>, i: nat)
    requires i < |views| && views[i].start <= views[i].end
    ensures |Flatten(views[..i + 1])| == |Flatten(views[..i])| + |views[i].dups|
    ensures TaskBytes(Flatten(views[..i + 1]))
         == TaskBytes(Flatten(views[..i])) + |views[i].dups| * (views[i].end - views[i].start)
  {
    assert views[..i + 1] == views[..i] + [views[i]];
    FlattenConcat(views[..i], [views[i]]);
    FlattenSingle(views[i]);
    TaskBytesConcat(Flatten(views[..i]), TasksOf(views[i]));
    BytesOfGroup(views[i], |views[i].dups|);
    assert TasksOf(views[i])[..|views[i].dups|] == TasksOf(views[i]);
  }
}
