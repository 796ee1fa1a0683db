/** How the entries of a walk are put into batches, ordered by the offsets of their contents
    (platter-walk/src/lib.rs). */
module WalkBatches {
  import opened Basics
  import opened KeySort
  import opened WalkTree

  function ReverseInode(n: Node): int { -(n.ino as int) }

  function OffsetOf(p: (nat, Node)): int { p.0 }

  function EntryInode(p: (nat, Node)): int { p.1.ino }

  ghost function Emits(ns: seq<Node>): multiset<Event> {
    if ns == [] then multiset{} else Emits(ns[..|ns| - 1]) + multiset{Emitted(ns[|ns| - 1])}
  }

  /** The events of handing out a batch. */
  ghost function EmitEvents(b: seq<(nat, Node)>): (r: seq<Event>)
    ensures |r| == |b|
  {
    if b == [] then [] else [Emitted(b[0].1)] + EmitEvents(b[1..])
  }

  /** The entries with the offsets of their contents, last one first. */
  ghost function Reversed(ns: seq<Node>): (r: seq<(nat, Node)>)
    ensures |r| == |ns|
  {
    if ns == [] then [] else [(ns[|ns| - 1].offset, ns[|ns| - 1])] + Reversed(ns[..|ns| - 1])
  }

  lemma {:induction false} ReversedAt(ns: seq<Node>, k: nat)
    requires k < |ns|
    ensures Reversed(ns)[k] == (ns[|ns| - 1 - k].offset, ns[|ns| - 1 - k])
  {
    if k > 0 { ReversedAt(ns[..|ns| - 1], k - 1); }
  }

  lemma {:induction false} EmitReversed(ns: seq<Node>)
    ensures multiset(EmitEvents(Reversed(ns))) == Emits(ns)
  {
    if ns != [] {
      EmitReversed(ns[..|ns| - 1]);
      var x := (ns[|ns| - 1].offset, ns[|ns| - 1]);
      assert ([x] + Reversed(ns[..|ns| - 1]))[1..] == Reversed(ns[..|ns| - 1]);
    }
  }

  lemma {:induction false} EmitInsert(x: (nat, Node), s: seq<(nat, Node)>)
    ensures multiset(EmitEvents(Insert(x, s, OffsetOf))) == multiset{Emitted(x.1)} + multiset(EmitEvents(s))
  {
    if s != [] && x.0 > s[0].0 {
      EmitInsert(x, s[1..]);
      assert Insert(x, s, OffsetOf)[1..] == Insert(x, s[1..], OffsetOf);
    } else {
      assert ([x] + s)[1..] == s;
    }
  }

  lemma {:induction false} EmitSort(s: seq<(nat, Node)>)
    ensures multiset(EmitEvents(SortBy(s, OffsetOf))) == multiset(EmitEvents(s))
  {
    if s != [] {
      EmitSort(s[1..]);
      EmitInsert(s[0], SortBy(s[1..], OffsetOf));
    }
  }

  lemma {:induction false} ReversedAscends(ns: seq<Node>)
    requires Sorted(ns, ReverseInode)
    ensures Sorted(Reversed(ns), EntryInode)
  {
    var r := Reversed(ns);
    forall i, j | 0 <= i < j < |r|
      ensures EntryInode(r[i]) <= EntryInode(r[j])
    {
      ReversedAt(ns, i);
      ReversedAt(ns, j);
      assert ReverseInode(ns[|ns| - 1 - j]) <= ReverseInode(ns[|ns| - 1 - i]);
    }
  }

  lemma {:induction false} EmitsPush(ns: seq<Node>, n: Node)
    ensures Emits(ns + [n]) == Emits(ns) + multiset{Emitted(n)}
  {
    assert (ns + [n])[..|ns|] == ns;
  }

  lemma {:induction false} EmitsCount(ns: seq<Node>, e: Event)
    ensures Emits(ns)[e] == if e.Emitted? then multiset(ns)[e.node] else 0
  {
    if ns != [] {
      EmitsCount(ns[..|ns| - 1], e);
      assert ns == ns[..|ns| - 1] + [ns[|ns| - 1]];
    }
  }

  lemma {:induction false} EmitsSame(a: seq<Node>, b: seq<Node>)
    requires multiset(a) == multiset(b)
    ensures Emits(a) == Emits(b)
  {
    forall e
      ensures Emits(a)[e] == Emits(b)[e]
    {
      EmitsCount(a, e);
      EmitsCount(b, e);
    }
  }

  // ----- one batch

  /** A batch pairs each entry with the offset of its contents and is ordered by it; a full one,
      within equal offsets, by inode. */
  ghost predicate GoodBatch(b: seq<(nat, Node)>, full: nat) {
    && b != [] && |b| <= full && OwnContents(b)
    && forall i, j :: 0 <= i < j < |b| ==>
         b[i].0 < b[j].0 || (b[i].0 == b[j].0 && (|b| == full ==> b[i].1.ino <= b[j].1.ino))
  }

  ghost predicate OwnContents(b: seq<(nat, Node)>) {
    forall k :: 0 <= k < |b| ==> b[k].0 == b[k].1.offset
  }

  /** The order in which gathered entries are taken out again: a full batch by descending inode. */
  ghost function Arranged(chunk: seq<Node>, full: nat): seq<Node> {
    if |chunk| >= full then SortBy(chunk, ReverseInode) else chunk
  }

  /** The batch made of these entries. */
  ghost function InBatch(chunk: seq<Node>, full: nat): seq<(nat, Node)> {
    SortBy(Reversed(Arranged(chunk, full)), OffsetOf)
  }

  lemma {:induction false} InBatchSame(chunk: seq<Node>, full: nat)
    ensures multiset(EmitEvents(InBatch(chunk, full))) == Emits(chunk) && |InBatch(chunk, full)| == |chunk|
  {
    var arranged := Arranged(chunk, full);
    SortSame(chunk, ReverseInode);
    EmitsSame(arranged, chunk);
    EmitReversed(arranged);
    EmitSort(Reversed(arranged));
  }

  lemma {:induction false} SortOwn(s: seq<(nat, Node)>)
    requires OwnContents(s)
    ensures OwnContents(SortBy(s, OffsetOf))
  {
    var r := SortBy(s, OffsetOf);
    SortSame(s, OffsetOf);
    forall k | 0 <= k < |r|
      ensures r[k].0 == r[k].1.offset
    {
      assert r[k] in multiset(r);
      assert r[k] in s;
    }
  }

  /** Whatever is gathered, its batch is good. */
  lemma {:induction false} InBatchIsGood(chunk: seq<Node>, full: nat)
    requires chunk != [] && |chunk| <= full
    ensures GoodBatch(InBatch(chunk, full), full)
  {
    var arranged := Arranged(chunk, full);
    var r := Reversed(arranged);
    forall k | 0 <= k < |r|
      ensures r[k].0 == r[k].1.offset
    {
      ReversedAt(arranged, k);
    }
    SortOwn(r);
    SortSorts(r, OffsetOf);
    if |chunk| == full {
      SortSorts(chunk, ReverseInode);
      ReversedAscends(arranged);
      SortLex(r, OffsetOf, EntryInode);
    }
    var b := InBatch(chunk, full);
    hide SortBy, Reversed, Arranged;
    forall i, j | 0 <= i < j < |b|
      ensures b[i].0 < b[j].0 || (b[i].0 == b[j].0 && (|b| == full ==> b[i].1.ino <= b[j].1.ino))
    {
      assert OffsetOf(b[i]) <= OffsetOf(b[j]);
    }
  }

  // ----- all batches

  /** The entries in the order in which they are found, cut into full batches and a rest. */
  ghost function Batches(ns: seq<Node>, full: nat): seq<seq<(nat, Node)>>
    requires full > 0
  {
    if ns == [] then [] else
      var n := Min(full, |ns|);
      [InBatch(ns[..n], full)] + Batches(ns[n..], full)
  }

  /** All batches but the last are full. */
  ghost predicate FullButLast(bs: seq<seq<(nat, Node)>>, full: nat) {
    forall k :: 0 <= k < |bs| - 1 ==> |bs[k]| == full
  }

  ghost predicate GoodBatches(bs: seq<seq<(nat, Node)>>, full: nat) {
    forall k :: 0 <= k < |bs| ==> GoodBatch(bs[k], full)
  }

  lemma {:induction false} BatchesAreGood(ns: seq<Node>, full: nat)
    requires full > 0
    ensures GoodBatches(Batches(ns, full), full) && FullButLast(Batches(ns, full), full)
    decreases |ns|
  {
    hide GoodBatch, InBatch;
    if ns != [] {
      var n := Min(full, |ns|);
      InBatchIsGood(ns[..n], full);
      InBatchSame(ns[..n], full);
      BatchesAreGood(ns[n..], full);
    }
  }

  /** Where the `k`-th batch starts. */
  ghost function FirstOf(k: nat, full: nat): nat {
    if k == 0 then 0 else FirstOf(k - 1, full) + full
  }

  lemma {:induction false} FirstIs(k: nat, full: nat)
    ensures FirstOf(k, full) == k * full
  {
    if k > 0 { FirstIs(k - 1, full); }
  }

  lemma {:induction false} FirstBatch(ns: seq<Node>, full: nat)
    requires full > 0
    ensures Batches(ns, full) != [] <==> ns != []
    ensures ns != [] ==> Batches(ns, full)[0] == InBatch(ns[..Min(full, |ns|)], full)
  {
    hide InBatch;
  }

  /** The `k`-th batch is made of the entries from there on, as many as fill it or as are left. */
  lemma {:induction false} BatchAt(ns: seq<Node>, full: nat, k: nat)
    requires full > 0
    ensures k < |Batches(ns, full)| <==> FirstOf(k, full) < |ns|
    ensures FirstOf(k, full) < |ns| ==>
      Batches(ns, full)[k] == InBatch(ns[FirstOf(k, full)..Min(FirstOf(k, full) + full, |ns|)], full)
    decreases k
  {
    hide InBatch, Batches;
    FirstBatch(ns, full);
    if k == 0 {
      assert ns[0..Min(full, |ns|)] == ns[..Min(full, |ns|)];
    } else if ns != [] {
      BatchAt(ns[Min(full, |ns|)..], full, k - 1);
      LaterBatch(ns, full, FirstOf(k, full), k);
    }
  }

  /** Behind the first batch, all the others follow. */
  lemma {:induction false} LaterBatch(ns: seq<Node>, full: nat, at: nat, k: nat)
    requires full > 0 && ns != [] && k > 0 && at >= full
    ensures var rest := ns[Min(full, |ns|)..];
      && |Batches(ns, full)| == 1 + |Batches(rest, full)|
      && (k < |Batches(ns, full)| ==> Batches(ns, full)[k] == Batches(rest, full)[k - 1])
      && (at < |ns| <==> at - full < |rest|)
      && (at < |ns| ==> rest[at - full..Min(at, |rest|)] == ns[at..Min(at + full, |ns|)])
  {
    hide InBatch;
    if at < |ns| {
      assert Min(full, |ns|) == full && |ns| > full;
      LaterPart(ns, full, at, Min(at + full, |ns|));
      assert Min(at, |ns| - full) == Min(at + full, |ns|) - full;
    }
    if k < |Batches(ns, full)| {
      assert Batches(ns, full)[k] == Batches(ns[Min(full, |ns|)..], full)[k - 1];
    }
  }

  lemma {:induction false} LaterPart<T>(s: seq<T>, n: nat, from: nat, to: nat)
    requires n <= from <= to <= |s|
    ensures s[n..][from - n..to - n] == s[from..to]
  {
  }

  /** In a batch that is not full, of entries at one offset the one found later stands first: by any
      number that grows in the order in which they were found. */
  lemma {:induction false} LaterFirst(chunk: seq<Node>, full: nat, number: Node -> int)
    requires |chunk| < full && forall i, j :: 0 <= i < j < |chunk| ==> number(chunk[i]) <= number(chunk[j])
    ensures LexSorted(InBatch(chunk, full), OffsetOf, (p: (nat, Node)) => -number(p.1))
  {
    var r, tie := Reversed(chunk), (p: (nat, Node)) => -number(p.1);
    forall i, j | 0 <= i < j < |r|
      ensures tie(r[i]) <= tie(r[j])
    {
      ReversedAt(chunk, i);
      ReversedAt(chunk, j);
    }
    SortLex(r, OffsetOf, tie);
  }
}
