/** One planned deduplication: a source file ("senpai"), the files that are to share its
    extents, and the byte range concerned (dupion/src/dedup/mod.rs). */
module DedupGroups {
  import opened Basics

  type FileId = nat

  /** The value of a group at one moment. */
  datatype Group = Group(
    senpai: FileId, dups: seq<FileId>, start: nat, end: nat, avgPhys: nat, fileSize: nat)
  {
    function Sum(): nat { |dups| + 1 }

    function RangeLen(): nat { end - Min(start, end) }

    function Usage(): nat { RangeLen() * Sum() }
  }

  /** A single unit of work: share one range of `senpai` with one other file. */
  datatype Task = Task(senpai: FileId, dup: FileId, start: nat, end: nat, fileSize: nat)

  ghost function TasksOf(g: Group): (r: seq<Task>)
    ensures |r| == |g.dups|
  {
    seq(|g.dups|, i requires 0 <= i < |g.dups| => Task(g.senpai, g.dups[i], g.start, g.end, g.fileSize))
  }

  /** All the work of a list of groups, in order. */
  ghost function Flatten(gs: seq<Group>): seq<Task> {
    if gs == [] then [] else TasksOf(gs[0]) + Flatten(gs[1..])
  }

  function TotalSum(gs: seq<Group>): nat {
    if gs == [] then 0 else TotalSum(gs[..|gs| - 1]) + gs[|gs| - 1].Sum()
  }

  function TotalUsage(gs: seq<Group>): nat {
    if gs == [] then 0 else TotalUsage(gs[..|gs| - 1]) + gs[|gs| - 1].Usage()
  }

  lemma {:induction false} FlattenConcat(a: seq<Group>, b: seq<Group>)
    ensures Flatten(a + b) == Flatten(a) + Flatten(b)
  {
    if a == [] {
      assert a + b == b;
    } else {
      assert (a + b)[1..] == a[1..] + b;
      FlattenConcat(a[1..], b);
    }
  }

  lemma {:induction false} FlattenSingle(g: Group)
    ensures Flatten([g]) == TasksOf(g)
    ensures forall i :: 0 <= i < |g.dups| ==> TasksOf(g)[i] == Task(g.senpai, g.dups[i], g.start, g.end, g.fileSize)
  {
    assert Flatten([g][1..]) == [];
  }

  /** Cutting the list of duplicates in two keeps every task, in order. */
  lemma {:induction false} SplitKeepsTasks(g: Group, at: nat)
    requires at <= |g.dups|
    ensures TasksOf(g) == TasksOf(g.(dups := g.dups[..at])) + TasksOf(g.(dups := g.dups[at..]))
  {
  }

  class DedupGroup {
    const senpai: FileId
    var dups: seq<FileId>
    var start: nat
    var end: nat
    const avgPhys: nat
    const actualFileSize: nat

    constructor (senpai: FileId, dups: seq<FileId>, start: nat, end: nat, avgPhys: nat, size: nat)
      ensures View() == Group(senpai, dups, start, end, avgPhys, size)
    {
      this.senpai, this.dups, this.start, this.end := senpai, dups, start, end;
      this.avgPhys, this.actualFileSize := avgPhys, size;
    }

    function View(): Group
      reads this
    {
      Group(senpai, dups, start, end, avgPhys, actualFileSize)
    }

    /** Return the last part and keep the first part in `this`. `at` beyond the end panics. */
    method SplitOffEndAtCandidateN(at: nat) returns (tail: DedupGroup)
      requires at <= |dups|
      modifies this
      ensures fresh(tail)
      ensures View() == old(View()).(dups := old(dups)[..at])
      ensures tail.View() == old(View()).(dups := old(dups)[at..])
      ensures TasksOf(View()) + TasksOf(tail.View()) == old(TasksOf(View()))
    {
      SplitKeepsTasks(View(), at);
      tail := new DedupGroup(senpai, dups[at..], start, end, avgPhys, actualFileSize);
      dups := dups[..at];
    }
  }

  /** The objects `gs`, all different and all in `own`, have the values `vs`. */
  ghost predicate Shows(gs: seq<DedupGroup>, vs: seq<Group>, own: set<DedupGroup>)
    reads own
  {
    && |gs| == |vs|
    && NoDup(gs)
    && forall i :: 0 <= i < |gs| ==> gs[i] in own && gs[i].View() == vs[i]
  }
}
