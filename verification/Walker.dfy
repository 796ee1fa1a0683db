/** The directory walker: directories in the order of their physical offsets, entries in batches
    sorted by the offsets of their contents (platter-walk/src/lib.rs). */
module Walker {
  import opened Basics
  import opened KeySort
  import opened WalkTree
  import opened WalkOrder
  import opened WalkBatches

  datatype Phase = DirWalk | InodePass | ContentPass

  /** What one call of `next` returns. */
  datatype Outcome = Finished | Failed | Batch(entries: seq<(nat, Node)>)

  /** Nothing done or still to do was lost between (`es`, `w`) and (`events`, `pending`), and
      no entry was handed out. */
  ghost predicate Balanced(events: seq<Event>, pending: multiset<Event>, es: seq<Event>, w: multiset<Event>) {
    && es <= events && NoEmits(events[|es|..])
    && multiset(events) + pending == multiset(es) + w
  }

  lemma {:induction false} BalancedTrans(e2: seq<Event>, p2: multiset<Event>, e1: seq<Event>, p1: multiset<Event>,
                                         e0: seq<Event>, p0: multiset<Event>)
    requires Balanced(e2, p2, e1, p1) && Balanced(e1, p1, e0, p0)
    ensures Balanced(e2, p2, e0, p0) && |e0| <= |e1| <= |e2|
  {
    assert e2[|e0|..] == e1[|e0|..] + e2[|e1|..];
  }

  ghost predicate NoEmits(es: seq<Event>) {
    forall e :: e in es ==> !e.Emitted?
  }

  /** The directories opened so far, in order. */
  ghost function OpensIn(events: seq<Event>): seq<Node> {
    if events == [] then [] else
      var last := events[|events| - 1];
      var before := OpensIn(events[..|events| - 1]);
      if last.Opened? then before + [last.node] else before
  }

  lemma {:induction false} OpensPush(events: seq<Event>, e: Event)
    ensures OpensIn(events + [e]) == if e.Opened? then OpensIn(events) + [e.node] else OpensIn(events)
  {
    assert (events + [e])[..|events|] == events;
  }

  lemma {:induction false} OpensEmits(events: seq<Event>, b: seq<(nat, Node)>)
    ensures OpensIn(events + EmitEvents(b)) == OpensIn(events)
    decreases |b|
  {
    if b == [] {
      assert events + EmitEvents(b) == events;
    } else {
      assert EmitEvents(b) == [Emitted(b[0].1)] + EmitEvents(b[1..]);
      hide EmitEvents, OpensIn;
      OpensPush(events, Emitted(b[0].1));
      OpensEmits(events + [Emitted(b[0].1)], b[1..]);
      assert events + EmitEvents(b) == events + [Emitted(b[0].1)] + EmitEvents(b[1..]);
    }
  }

  /** The work an entry causes besides being handed out. */
  ghost function Below(f: Filter, n: Node): multiset<Event> {
    if n.isDir then Work(f, n) else multiset{}
  }

  class ToScan {
    var phySorted: map<nat, Node>
    var unordered: seq<Node>
    var cursor: nat
    var currentDir: Option<seq<Item>>
    var inodeOrdered: seq<Node>
    var phase: Phase
    const batchSize: nat
    const prefilter: Filter
    ghost var events: seq<Event>
    ghost var gathered: seq<Node>

    constructor (batchSize: nat, prefilter: Filter)
      ensures this.batchSize == batchSize && this.prefilter == prefilter
      ensures Valid() && Pending() == multiset{} && events == []
      ensures Waiting() == Start([]) && currentDir == None && gathered == []
    {
      hide QueuedWork, Emits;
      NothingWaits(prefilter);
      phySorted, unordered, cursor, currentDir, inodeOrdered := map[], [], 0, None, [];
      phase, this.batchSize, this.prefilter := DirWalk, batchSize, prefilter;
      events, gathered := [], [];
    }

    ghost function Waiting(): Queues
      reads this
    {
      Queues(phySorted, unordered, cursor)
    }

    /** All directories in the order in which the walk opens them, and the entries that it still has
        to hand out in the order in which it finds them. */
    ghost function Plan(): (seq<Node>, seq<Node>)
      reads this
    {
      PlanOf(prefilter, OpensIn(events), gathered, Waiting(), currentDir)
    }

    /** The work that directories still waiting or being read will cause. */
    ghost function DirWork(): multiset<Event>
      reads this
    {
      QueuedWork(prefilter, Waiting())
        + if currentDir.Some? then ItemsWork(prefilter, currentDir.value) else multiset{}
    }

    /** All work left, including entries gathered but not handed out yet. */
    ghost function Pending(): multiset<Event>
      reads this
    {
      DirWork() + Emits(inodeOrdered)
    }

    ghost function FullBatch(): nat { Max(1, batchSize) }

    /** Between two calls of `next`. */
    ghost predicate Valid()
      reads this
    {
      phase == DirWalk && Gathered()
    }

    predicate IsEmpty()
      reads this
    {
      phySorted == map[] && unordered == [] && currentDir == None
    }

    /** Nothing is left to read or to hand out. */
    ghost predicate Exhausted()
      reads this
    {
      IsEmpty() && inodeOrdered == []
    }

    method AddRoot(n: Node)
      requires Valid()
      modifies this
      ensures Valid() && events == old(events) && Pending() == old(Pending()) + Work(prefilter, n)
      ensures Waiting() == Queue(old(Waiting()), n, None)
      ensures inodeOrdered == old(inodeOrdered) && gathered == old(gathered) && currentDir == old(currentDir)
    {
      hide Work, QueuedWork, ItemsWork;
      Add(n, None);
    }

    /** Queue a directory; a directory displaced from its offset goes to the other queue. */
    method Add(n: Node, pos: Option<nat>)
      modifies this`phySorted, this`unordered
      ensures Waiting() == Queue(old(Waiting()), n, pos)
      ensures DirWork() == old(DirWork()) + Work(prefilter, n)
      ensures pos == None ==> unordered == old(unordered) + [n] && phySorted == old(phySorted)
      ensures pos.Some? ==> phySorted == old(phySorted)[pos.value := n]
      ensures pos.Some? ==>
        unordered == old(unordered) + (if pos.value in old(phySorted) then [old(phySorted)[pos.value]] else [])
    {
      hide Work, QueuedWork, ItemsWork;
      QueueWork(prefilter, Waiting(), n, pos);
      match pos
      case Some(idx) =>
        if idx in phySorted { unordered := unordered + [phySorted[idx]]; }
        phySorted := phySorted[idx := n];
      case None =>
        unordered := unordered + [n];
    }

    /** The next directory: displaced ones first, then the one at the least offset not behind
        the cursor. */
    method GetNext() returns (r: Option<Node>)
      requires currentDir == None
      modifies this`phySorted, this`unordered, this`cursor
      ensures match Take(old(Waiting()))
        case None => r == None && Waiting() == old(Waiting())
        case Some((m, rest)) => r == Some(m.dir) && Waiting() == rest
      ensures old(unordered) != [] ==>
        r == Some(old(unordered)[0]) && unordered == old(unordered)[1..] && phySorted == old(phySorted)
        && cursor == old(cursor)
      ensures old(unordered) == [] && r.Some? ==>
        unordered == [] && cursor in old(phySorted) && r == Some(old(phySorted)[cursor])
        && old(cursor) <= cursor && (forall j :: j in old(phySorted) && old(cursor) <= j ==> cursor <= j)
        && phySorted == old(phySorted) - {cursor}
      ensures r == None ==> unordered == [] && forall k :: k in phySorted ==> k < cursor
      ensures r.Some? ==> old(DirWork()) == DirWork() + Work(prefilter, r.value)
    {
      hide Work, QueuedWork;
      TakeWork(prefilter, Waiting());
      if unordered != [] {
        r := Some(unordered[0]);
        unordered := unordered[1..];
        return;
      }
      if exists k :: k in phySorted && cursor <= k {
        ghost var least := NextOffset(phySorted, cursor);
        assert least in phySorted && TakenNext(phySorted, cursor, least);
        var k :| k in phySorted && TakenNext(phySorted, cursor, k);
        TakenOnce(phySorted, cursor, k, least);
        cursor := k;
        r := Some(phySorted[k]);
        phySorted := phySorted - {k};
        return;
      }
      r := None;
    }

    ghost predicate Accounted(es: seq<Event>, w: multiset<Event>)
      reads this
    {
      Balanced(events, Pending(), es, w)
    }

    /** Open the next directory, or turn the cursor back if all that wait are behind it. */
    method OpenNext() returns (failed: bool)
      requires phase == DirWalk && currentDir == None && !IsEmpty()
      modifies this`phySorted, this`unordered, this`cursor, this`currentDir, this`events
      ensures Accounted(old(events), old(Pending())) && Plan() == old(Plan())
      ensures failed ==> |events| > |old(events)| && currentDir == None
      ensures !failed && currentDir == None ==> DirWork() == old(DirWork()) && cursor < old(cursor)
      ensures !failed && currentDir.Some? ==> |DirWork()| < |old(DirWork())|
    {
      hide Work, MapWork, NodesWork, ItemsWork, Emits, OpensIn, PlanOf, Balanced, Take;
      ghost var es, w, q := events, Pending(), Waiting();
      TakesFirst(q);
      var next := GetNext();
      if next == None {
        StillBalanced(events, w);
        PlanTurn(prefilter, OpensIn(events), gathered, q);
        cursor := 0;
        return false;
      }
      ghost var (m, rest) := Take(q).value;
      PlanTake(prefilter, OpensIn(events), gathered, q, m, rest);
      NothingLogged(events);
      failed := OpenDir(next.value, es, w);
    }

    /** Read the directory `n`, which no queue holds any more. */
    method OpenDir(n: Node, ghost es: seq<Event>, ghost w: multiset<Event>) returns (failed: bool)
      requires currentDir == None && es <= events && NoEmits(events[|es|..])
      requires multiset(events) + (Pending() + Work(prefilter, n)) == multiset(es) + w
      modifies this`currentDir, this`events
      ensures Accounted(es, w) && |events| > |old(events)| && OpensIn(events) == OpensIn(old(events)) + [n]
      ensures currentDir == if n.openable then Some(n.listing) else None
      ensures if failed then currentDir == None && DirWork() == old(DirWork())
              else currentDir.Some? && |DirWork()| < |old(DirWork()) + Work(prefilter, n)|
    {
      hide Work, MapWork, NodesWork, QueuedWork, ItemsWork, Emits, OpensIn;
      WorkOf(prefilter, n);
      OpensPush(events, Opened(n));
      ghost var queued, kept := DirWork(), Emits(inodeOrdered);
      LogStep(events, Opened(n), es);
      if !n.openable {
        OpensPush(events + [Opened(n)], Failure);
        LogStep(events + [Opened(n)], Failure, es);
        OpenFails(multiset(events), queued + kept, Opened(n));
        events := events + [Opened(n)] + [Failure];
        return true;
      }
      Opens(multiset(events), queued, ItemsWork(prefilter, n.listing), kept, Opened(n));
      currentDir := Some(n.listing);
      events := events + [Opened(n)];
      failed := false;
    }

    /** Advance the listing of the current directory by one item. */
    method ReadItem() returns (failed: bool)
      requires Valid() && currentDir.Some?
      modifies this`phySorted, this`unordered, this`currentDir, this`inodeOrdered, this`gathered, this`phase,
               this`events
      ensures Accounted(old(events), old(Pending())) && Gathered() && Plan() == old(Plan())
      ensures failed ==> |events| > |old(events)| && phase == DirWalk
      ensures !failed ==> |DirWork()| < |old(DirWork())| || (DirWork() == old(DirWork()) && currentDir == None)
    {
      hide Work, QueuedWork, ItemsWork, Emits, PlanOf, OpensIn, Sorted;
      StillBalanced(events, Pending());
      var items := currentDir.value;
      if items == [] {
        ItemsWorkOf(prefilter, items);
        PlanClose(prefilter, OpensIn(events), gathered, Waiting());
        currentDir := None;
        return false;
      }
      failed := ReadNext(items);
    }

    /** The next item of the listing, `items`, of the current directory. */
    method ReadNext(items: seq<Item>) returns (failed: bool)
      requires Valid() && currentDir == Some(items) && items != []
      modifies this`phySorted, this`unordered, this`currentDir, this`inodeOrdered, this`gathered, this`phase,
               this`events
      ensures Accounted(old(events), old(Pending())) && Gathered() && Plan() == old(Plan())
      ensures failed ==> |events| > |old(events)| && phase == DirWalk
      ensures !failed ==> |DirWork()| < |old(DirWork())|
    {
      hide Work, QueuedWork, ItemsWork, ItemWork, Emits, NoEmits, Passing, PlanOf, OpensIn, Sorted, Balanced, Below;
      NothingLogged(events);
      ghost var es, w := events, Pending();
      ItemsWorkOf(prefilter, items);
      ReadsOne(multiset(events), QueuedWork(prefilter, Waiting()), ItemWork(prefilter, items[0]),
               ItemsWork(prefilter, items[1..]), Emits(inodeOrdered));
      currentDir := Some(items[1..]);
      match items[0] {
        case IoError =>
          ItemWorkOf(prefilter, items[0]);
          Logged(events, DirWork(), Emits(inodeOrdered), es, w);
          OpensPush(events, Failure);
          events := events + [Failure];
          failed := true;
        case Found(c) =>
          Entry(c, es, w);
          failed := false;
      }
      PlanReads(prefilter, OpensIn(events), old(gathered), gathered, old(Waiting()), Waiting(), items);
    }

    /** A batch is complete exactly when the phase changed, and then ordered for the inode pass. */
    ghost predicate Gathered()
      reads this
    {
      match phase
      case DirWalk => |inodeOrdered| < FullBatch() && inodeOrdered == gathered
      case InodePass => |gathered| == FullBatch() && inodeOrdered == SortBy(gathered, ReverseInode)
      case ContentPass => false
    }

    /** An entry of the current directory: queue it if it is a directory, keep it if it passes
        the filter. */
    method Entry(c: Node, ghost es: seq<Event>, ghost w: multiset<Event>)
      requires Valid() && es <= events && NoEmits(events[|es|..])
      requires multiset(events) + (Pending() + ItemWork(prefilter, Found(c))) == multiset(es) + w
      modifies this`phySorted, this`unordered, this`inodeOrdered, this`gathered, this`phase, this`events
      ensures Accounted(es, w) && Gathered() && OpensIn(events) == OpensIn(old(events))
      ensures Waiting() == QueueItem(old(Waiting()), Found(c))
      ensures gathered == if prefilter(c) then old(gathered) + [c] else old(gathered)
      ensures |DirWork()| < |old(DirWork()) + ItemWork(prefilter, Found(c))|
    {
      hide Below, Work, QueuedWork, ItemsWork, ItemWork, Emits, NoEmits, Balanced, OpensIn, QueueItem, SortBy;
      hide MapWork, NodesWork;
      ItemWorkOf(prefilter, Found(c));
      BelowFirst(multiset(events), DirWork(), Below(prefilter, c), Emits(inodeOrdered), Fate(c));
      AddDir(c);
      Sift(c, es, w);
    }

    /** What becomes of an entry besides what lies below it. */
    ghost function Fate(c: Node): multiset<Event> {
      multiset{if prefilter(c) then Emitted(c) else Skipped(c)}
    }

    /** Keep an entry if it passes the filter. */
    method Sift(c: Node, ghost es: seq<Event>, ghost w: multiset<Event>)
      requires Valid() && es <= events && NoEmits(events[|es|..])
      requires multiset(events) + (Pending() + Fate(c)) == multiset(es) + w
      modifies this`inodeOrdered, this`gathered, this`phase, this`events
      ensures Accounted(es, w) && Gathered() && OpensIn(events) == OpensIn(old(events))
      ensures gathered == if prefilter(c) then old(gathered) + [c] else old(gathered)
    {
      hide QueuedWork, ItemsWork, Emits, NoEmits, OpensIn, SortBy, Balanced;
      Sifted(events, DirWork(), Emits(inodeOrdered), if prefilter(c) then Emitted(c) else Skipped(c), es, w);
      if !prefilter(c) {
        OpensPush(events, Skipped(c));
        events := events + [Skipped(c)];
        return;
      }
      Keep(c);
    }

    /** Queue an entry that is a directory at the offset of its own data, if that is known. */
    method AddDir(c: Node)
      modifies this`phySorted, this`unordered
      ensures DirWork() == old(DirWork()) + Below(prefilter, c)
      ensures Waiting() == QueueItem(old(Waiting()), Found(c))
    {
      hide Work, QueuedWork, ItemsWork;
      if c.isDir {
        Add(c, c.dirOffset);
      } else {
        NothingBelow(DirWork());
      }
    }

    /** Gather an entry; a full batch is ordered by descending inode and closes the walk phase. */
    method Keep(c: Node)
      requires Valid()
      modifies this`inodeOrdered, this`gathered, this`phase
      ensures Gathered() && gathered == old(gathered) + [c]
      ensures Emits(inodeOrdered) == old(Emits(inodeOrdered)) + multiset{Emitted(c)}
    {
      hide Emits, Insert, QueuedWork, ItemsWork;
      EmitsPush(inodeOrdered, c);
      inodeOrdered := inodeOrdered + [c];
      gathered := gathered + [c];
      if |inodeOrdered| >= batchSize {
        phase := InodePass;
        SortSame(inodeOrdered, ReverseInode);
        EmitsSame(SortBy(inodeOrdered, ReverseInode), inodeOrdered);
        inodeOrdered := SortBy(inodeOrdered, ReverseInode);
      }
    }

    /** The walk phase: until a batch is full, everything is read, or an error comes up. */
    method WalkDirs() returns (failed: bool)
      requires Valid()
      modifies this
      ensures Accounted(old(events), old(Pending())) && Gathered() && Plan() == old(Plan())
      ensures if failed then |events| > |old(events)| && phase == DirWalk else phase == InodePass || IsEmpty()
      ensures old(IsEmpty()) ==> !failed && inodeOrdered == old(inodeOrdered)
    {
      hide DirWork, Balanced, Emits, PlanOf, OpensIn;
      ghost var es, w := events, Pending();
      StillBalanced(events, Pending());
      while phase == DirWalk && !IsEmpty()
        invariant Accounted(es, w) && Gathered() && Plan() == old(Plan())
        invariant old(IsEmpty()) ==> IsEmpty() && phase == DirWalk && inodeOrdered == old(inodeOrdered)
        decreases |DirWork()|, if currentDir.Some? then 1 else 0, cursor
      {
        ghost var e, p := events, Pending();
        if currentDir == None {
          failed := OpenNext();
          BalancedTrans(events, Pending(), e, p, es, w);
          if failed { return true; }
          if currentDir == None { continue; }
          e, p := events, Pending();
        }
        failed := ReadItem();
        BalancedTrans(events, Pending(), e, p, es, w);
        if failed { return true; }
      }
      failed := false;
    }

    /** Take the gathered entries, last one first, and sort them by the offsets of their contents. */
    method OrderByContent() returns (leaves: seq<(nat, Node)>)
      requires inodeOrdered != []
      modifies this`inodeOrdered, this`phase
      ensures phase == ContentPass && inodeOrdered == []
      ensures leaves == SortBy(Reversed(old(inodeOrdered)), OffsetOf)
      ensures OwnContents(leaves) && Sorted(leaves, OffsetOf)
      ensures multiset(EmitEvents(leaves)) == old(Emits(inodeOrdered))
    {
      leaves := [];
      var drained := inodeOrdered;
      for i := |drained| downto 0
        invariant inodeOrdered == drained && leaves == Reversed(drained)[..|drained| - i] && OwnContents(leaves)
      {
        ReversedAt(drained, |drained| - 1 - i);
        leaves := leaves + [(drained[i].offset, drained[i])];
      }
      assert leaves == Reversed(drained);
      EmitReversed(inodeOrdered);
      EmitSort(leaves);
      SortSorts(leaves, OffsetOf);
      SortOwn(leaves);
      leaves := SortBy(leaves, OffsetOf);
      inodeOrdered, phase := [], ContentPass;
    }

    /** The inode and content passes: hand out what was gathered. */
    method ContentBatch(ghost es: seq<Event>, ghost w: multiset<Event>) returns (leaves: seq<(nat, Node)>)
      requires Accounted(es, w) && Gathered()
      requires phase == InodePass || (IsEmpty() && inodeOrdered != [])
      modifies this`inodeOrdered, this`gathered, this`phase, this`events
      ensures Valid() && gathered == [] && OpensIn(events) == OpensIn(old(events))
      ensures Handed(es, events, leaves) && es <= events
      ensures multiset(events) + Pending() == multiset(es) + w
      ensures leaves == InBatch(old(gathered), FullBatch()) && GoodBatch(leaves, FullBatch())
    {
      hide QueuedWork, ItemsWork, Balanced, Emits, EmitEvents, NoEmits, Sorted, OpensIn, GoodBatch;
      assert |inodeOrdered| > 0;
      ghost var mid, kept := events, Emits(inodeOrdered);
      InBatchIsGood(gathered, FullBatch());
      leaves := OrderByContent();
      phase := DirWalk;
      HandOut(es, w, mid, DirWork(), kept, leaves);
      OpensEmits(events, leaves);
      gathered, events := [], events + EmitEvents(leaves);
    }

    /** The iterator: walk until there is something to report, and hand out a batch. */
    method Next() returns (r: Outcome)
      requires Valid()
      modifies this
      ensures Valid() && old(events) <= events
      ensures multiset(events) + Pending() == multiset(old(events)) + old(Pending())
      ensures Plan().0 == old(Plan()).0
      ensures match r
        case Finished => Pending() == multiset{} && NoEmits(events[|old(events)|..])
        case Failed => |events| > |old(events)| && NoEmits(events[|old(events)|..])
        case Batch(b) => Handed(old(events), events, b) && GoodBatch(b, FullBatch())
      ensures var left := old(Plan()).1; match r
        case Finished => left == [] && Plan() == (OpensIn(events), [])
        case Failed => Plan().1 == left
        case Batch(b) => left != [] && b == InBatch(left[..Min(FullBatch(), |left|)], FullBatch())
                         && Plan().1 == left[Min(FullBatch(), |left|)..]
      ensures r.Batch? && |r.entries| < FullBatch() ==> Exhausted()
      ensures old(Exhausted()) ==> r == Finished
    {
      hide Handed, GoodBatch, QueuedWork, ItemsWork, Balanced, Emits, EmitEvents, NoEmits, Sorted, PlanOf, OpensIn,
           InBatch;
      ghost var es, w := events, Pending();
      var failed := WalkDirs();
      BalancedSums(events, Pending(), es, w);
      if failed { return Failed; }
      ghost var chunk := gathered;
      PlanGathered(prefilter, OpensIn(events), chunk, Waiting(), currentDir);
      if IsEmpty() { PlanDone(prefilter, OpensIn(events), chunk, Waiting()); }
      if phase == InodePass || (IsEmpty() && |inodeOrdered| > 0) {
        InBatchSame(chunk, FullBatch());
        var leaves := ContentBatch(es, w);
        return Batch(leaves);
      }
      EmptyIsDone();
      r := Finished;
    }

    lemma {:induction false} EmptyIsDone()
      ensures IsEmpty() && inodeOrdered == [] ==> Pending() == multiset{}
    {
    }
  }

  /** The batch is what was emitted, at the end of this call. */
  ghost predicate Handed(es: seq<Event>, events: seq<Event>, b: seq<(nat, Node)>) {
    && |es| + |b| <= |events| && es <= events
    && NoEmits(events[|es|..|events| - |b|]) && events[|events| - |b|..] == EmitEvents(b)
  }

  lemma {:induction false} BalancedSums(events: seq<Event>, pending: multiset<Event>, es: seq<Event>,
                                        w: multiset<Event>)
    requires Balanced(events, pending, es, w)
    ensures es <= events && NoEmits(events[|es|..]) && multiset(events) + pending == multiset(es) + w
  {
  }

  lemma {:induction false} HandOut(es: seq<Event>, w: multiset<Event>, mid: seq<Event>, queued: multiset<Event>,
                                   gathered: multiset<Event>, b: seq<(nat, Node)>)
    requires Balanced(mid, queued + gathered, es, w) && multiset(EmitEvents(b)) == gathered
    ensures Handed(es, mid + EmitEvents(b), b)
    ensures multiset(mid + EmitEvents(b)) + (queued + Emits([])) == multiset(es) + w
  {
    var events := mid + EmitEvents(b);
    assert events[|es|..|events| - |b|] == mid[|es|..];
    assert multiset(events) == multiset(mid) + gathered;
  }

  lemma {:induction false} OpenFails(es: multiset<Event>, pending: multiset<Event>, e: Event)
    ensures es + multiset{e} + multiset{Failure} + pending == es + (pending + (multiset{e} + multiset{Failure}))
  {
  }

  lemma {:induction false} Opens(es: multiset<Event>, queued: multiset<Event>, items: multiset<Event>,
                                 gathered: multiset<Event>, e: Event)
    ensures es + multiset{e} + (queued + items + gathered) == es + (queued + gathered + (multiset{e} + items))
    ensures |queued + items| < |queued + (multiset{e} + items)|
  {
  }

  lemma {:induction false} ItemsWorkOf(f: Filter, items: seq<Item>)
    ensures ItemsWork(f, items) == if items == [] then multiset{} else ItemWork(f, items[0]) + ItemsWork(f, items[1..])
  {
  }

  lemma {:induction false} ItemWorkOf(f: Filter, i: Item)
    ensures i.IoError? ==> ItemWork(f, i) == multiset{Failure}
    ensures i.Found? ==>
      ItemWork(f, i) == Below(f, i.node) + multiset{if f(i.node) then Emitted(i.node) else Skipped(i.node)}
  {
  }

  lemma {:induction false} ReadsOne(es: multiset<Event>, queued: multiset<Event>, item: multiset<Event>,
                                    rest: multiset<Event>, gathered: multiset<Event>)
    ensures es + (queued + rest + gathered + item) == es + (queued + (item + rest) + gathered)
    ensures queued + rest + item == queued + (item + rest)
  {
  }

  lemma {:induction false} Logged(events: seq<Event>, queued: multiset<Event>, gathered: multiset<Event>,
                                  es: seq<Event>, w: multiset<Event>)
    requires es <= events && NoEmits(events[|es|..])
    requires multiset(events) + (queued + gathered + multiset{Failure}) == multiset(es) + w
    ensures Balanced(events + [Failure], queued + gathered, es, w)
    ensures |queued| < |queued + multiset{Failure}|
  {
    hide NoEmits;
    LogStep(events, Failure, es);
    assert multiset(events) + multiset{Failure} + (queued + gathered) ==
      multiset(events) + (queued + gathered + multiset{Failure});
  }

  lemma {:induction false} BelowFirst(es: multiset<Event>, queued: multiset<Event>, below: multiset<Event>,
                                      kept: multiset<Event>, own: multiset<Event>)
    ensures es + (queued + kept + (below + own)) == es + (queued + below + kept + own)
    ensures own != multiset{} ==> |queued + below| < |queued + (below + own)|
  {
    assert |queued + (below + own)| == |queued + below| + |own|;
  }

  /** An entry was skipped, or gathered to be handed out later. */
  lemma {:induction false} Sifted(events: seq<Event>, queued: multiset<Event>, kept: multiset<Event>, e: Event,
                                  es: seq<Event>, w: multiset<Event>)
    requires es <= events && NoEmits(events[|es|..])
    requires multiset(events) + (queued + kept + multiset{e}) == multiset(es) + w
    ensures !e.Emitted? ==> Balanced(events + [e], queued + kept, es, w)
    ensures Balanced(events, queued + (kept + multiset{e}), es, w)
  {
    hide NoEmits;
    if !e.Emitted? { LogStep(events, e, es); }
    assert multiset(events) + multiset{e} + (queued + kept) == multiset(events) + (queued + kept + multiset{e});
    assert multiset(events) + (queued + (kept + multiset{e})) == multiset(events) + (queued + kept + multiset{e});
  }

  lemma {:induction false} NothingBelow(queued: multiset<Event>)
    ensures queued + multiset{} == queued
  {
  }

  lemma {:induction false} LogStep(events: seq<Event>, e: Event, es: seq<Event>)
    requires es <= events && NoEmits(events[|es|..]) && !e.Emitted?
    ensures es <= events + [e] && NoEmits((events + [e])[|es|..])
    ensures multiset(events + [e]) == multiset(events) + multiset{e}
  {
    assert (events + [e])[|es|..] == events[|es|..] + [e];
  }

  lemma {:induction false} StillBalanced(events: seq<Event>, w: multiset<Event>)
    ensures Balanced(events, w, events, w)
  {
  }

  lemma {:induction false} TakenOnce(m: map<nat, Node>, c: nat, j: nat, k: nat)
    requires TakenNext(m, c, j) && TakenNext(m, c, k)
    ensures j == k
  {
  }

  /** Something that waits is taken, unless it is behind the cursor. */
  lemma {:induction false} TakesFirst(q: Queues)
    ensures Take(q) == None ==> q.unordered == []
  {
  }

  lemma {:induction false} PlanReads(f: Filter, done: seq<Node>, gathered: seq<Node>, more: seq<Node>, q: Queues,
                                     next: Queues, items: seq<Item>)
    requires items != [] && next == QueueItem(q, items[0])
    requires more == if items[0].Found? && f(items[0].node) then gathered + [items[0].node] else gathered
    ensures PlanOf(f, done, more, next, Some(items[1..])) == PlanOf(f, done, gathered, q, Some(items))
  {
    PlanItem(f, done, gathered, q, items);
    assert items[..1][1..] == [];
    assert more == gathered + Passing(f, items[..1]);
  }

  lemma {:induction false} NothingLogged(events: seq<Event>)
    ensures events <= events && NoEmits(events[|events|..])
  {
  }

  lemma {:induction false} WorkOf(f: Filter, n: Node)
    ensures Work(f, n) == multiset{Opened(n)} + if n.openable then ItemsWork(f, n.listing) else multiset{Failure}
  {
  }

  // ----- a whole walk

  /** The entries handed out in all batches, as events. */
  ghost function HandedOut(bs: seq<seq<(nat, Node)>>): multiset<Event> {
    if bs == [] then multiset{} else HandedOut(bs[..|bs| - 1]) + multiset(EmitEvents(bs[|bs| - 1]))
  }

  /** Exactly the emitted entries were handed out. */
  ghost predicate AllHanded(events: seq<Event>, bs: seq<seq<(nat, Node)>>) {
    forall e: Event :: e.Emitted? ==> multiset(events)[e] == HandedOut(bs)[e]
  }

  lemma {:induction false} NoEmitsCount(es: seq<Event>, e: Event)
    requires NoEmits(es) && e.Emitted?
    ensures multiset(es)[e] == 0
  {
    assert e in multiset(es) <==> e in es;
  }

  lemma {:induction false} EmitEventsOnly(b: seq<(nat, Node)>, e: Event)
    ensures !e.Emitted? ==> multiset(EmitEvents(b))[e] == 0
  {
    if b != [] { EmitEventsOnly(b[1..], e); }
  }

  lemma {:induction false} HandedStep(es: seq<Event>, events: seq<Event>, bs: seq<seq<(nat, Node)>>,
                                      b: seq<(nat, Node)>)
    requires AllHanded(es, bs) && Handed(es, events, b)
    ensures AllHanded(events, bs + [b])
  {
    var n := |events| - |b|;
    assert (bs + [b])[..|bs|] == bs;
    assert events == es + events[|es|..n] + events[n..];
    forall e: Event | e.Emitted?
      ensures multiset(events)[e] == HandedOut(bs + [b])[e]
    {
      NoEmitsCount(events[|es|..n], e);
    }
  }

  lemma {:induction false} QuietStep(es: seq<Event>, events: seq<Event>, bs: seq<seq<(nat, Node)>>)
    requires AllHanded(es, bs) && es <= events && NoEmits(events[|es|..])
    ensures AllHanded(events, bs)
  {
    assert events == es + events[|es|..];
    forall e: Event | e.Emitted?
      ensures multiset(events)[e] == HandedOut(bs)[e]
    {
      NoEmitsCount(events[|es|..], e);
    }
  }

  /** Collect all batches of a scan, going on after errors. */
  method Drain(scan: ToScan) returns (batches: seq<seq<(nat, Node)>>)
    requires scan.Valid() && scan.events == []
    modifies scan
    ensures multiset(scan.events) == old(scan.Pending())
    ensures AllHanded(scan.events, batches)
    ensures OpensIn(scan.events) == old(scan.Plan()).0
    ensures batches == Batches(old(scan.Plan()).1, Max(1, scan.batchSize))
  {
    hide AllHanded, Handed, NoEmits, EmitEvents, GoodBatch, InBatch, Batches, PlanOf, OpensIn;
    hide ToScan.Exhausted, ToScan.Pending, ToScan.Valid;
    ghost var w, full, plan := scan.Pending(), scan.FullBatch(), scan.Plan();
    batches := [];
    NothingHanded();
    assert multiset(scan.events) + scan.Pending() == w;
    while true
      invariant scan.Valid() && multiset(scan.events) + scan.Pending() == w
      invariant AllHanded(scan.events, batches)
      invariant scan.Plan().0 == plan.0 && batches + Batches(scan.Plan().1, full) == Batches(plan.1, full)
      decreases |scan.Pending()|
    {
      ghost var es, left := scan.events, scan.Plan().1;
      var r := scan.Next();
      match r
      case Finished =>
        QuietStep(es, scan.events, batches);
        NoBatches(batches, full);
        break;
      case Failed =>
        QuietStep(es, scan.events, batches);
        LessPending(es, scan.events, scan.Pending(), w);
      case Batch(b) =>
        NotEmptyBatch(b, full);
        NextBatch(batches, left, full);
        HandedStep(es, scan.events, batches, b);
        HandedGrows(es, scan.events, b);
        LessPending(es, scan.events, scan.Pending(), w);
        batches := batches + [b];
    }
  }

  lemma {:induction false} NoBatches(done: seq<seq<(nat, Node)>>, full: nat)
    requires full > 0
    ensures done + Batches([], full) == done
  {
  }

  lemma {:induction false} NextBatch(done: seq<seq<(nat, Node)>>, left: seq<Node>, full: nat)
    requires left != [] && full > 0
    ensures var n := Min(full, |left|);
      done + [InBatch(left[..n], full)] + Batches(left[n..], full) == done + Batches(left, full)
  {
    hide InBatch;
  }

  lemma {:induction false} NotEmptyBatch(b: seq<(nat, Node)>, full: nat)
    requires GoodBatch(b, full)
    ensures b != []
  {
  }

  lemma {:induction false} NothingHanded()
    ensures AllHanded([], [])
  {
  }

  lemma {:induction false} HandedGrows(es: seq<Event>, events: seq<Event>, b: seq<(nat, Node)>)
    requires Handed(es, events, b) && b != []
    ensures |events| > |es|
  {
  }

  lemma {:induction false} LessPending(es: seq<Event>, events: seq<Event>, pending: multiset<Event>, w: multiset<Event>)
    requires |events| > |es| && multiset(events) + pending == w
    ensures |pending| < |w| - |es|
  {
    assert |multiset(events)| == |events|;
    assert |multiset(events) + pending| == |events| + |pending|;
  }

  /** The directories below the roots in the order in which they are opened. */
  ghost function InOrder(roots: seq<Node>): seq<Node> {
    Dirs(Moves(Start(roots)))
  }

  /** Walk the trees below the roots: every directory is opened once, every entry that passes the
      filter is handed out once, in batches, and every error is reported. The directories are opened
      in the order of the sweeps, and the entries they list are batched in that order. */
  method Walk(roots: seq<Node>, batchSize: nat, prefilter: Filter)
    returns (batches: seq<seq<(nat, Node)>>, ghost events: seq<Event>)
    ensures multiset(events) == NodesWork(prefilter, roots)
    ensures AllHanded(events, batches)
    ensures OpensIn(events) == InOrder(roots) && roots <= InOrder(roots)
    ensures batches == Batches(Entries(prefilter, InOrder(roots)), Max(1, batchSize))
    ensures GoodBatches(batches, Max(1, batchSize)) && FullButLast(batches, Max(1, batchSize))
    ensures DisjointRoots(roots) ==> forall e: Event :: !e.Failure? ==> multiset(events)[e] <= 1
  {
    hide NodesWork, DisjointRoots, AllHanded, GoodBatches, FullButLast, ToScan.Pending, ToScan.Valid, ToScan.Exhausted;
    hide Batches, Entries, Moves, Dirs;
    NoRoots(prefilter);
    var scan := new ToScan(batchSize, prefilter);
    for i := 0 to |roots|
      invariant fresh(scan) && scan.Valid() && scan.events == []
      invariant scan.Pending() == NodesWork(prefilter, roots[..i])
      invariant scan.Waiting() == Start(roots[..i]) && scan.currentDir == None && scan.gathered == []
    {
      assert roots[..i + 1] == roots[..i] + [roots[i]];
      NodesWorkPush(prefilter, roots[..i], roots[i]);
      scan.AddRoot(roots[i]);
    }
    assert roots[..|roots|] == roots;
    PlanStart(prefilter, Start(roots));
    batches := Drain(scan);
    events := scan.events;
    BatchesAreGood(Entries(prefilter, InOrder(roots)), Max(1, batchSize));
    if DisjointRoots(roots) { AllOnce(prefilter, roots); }
    RootsFirst(Start(roots), |roots|);
  }

  /** The order of directories in a whole walk: those that wait without an offset first, in the order in
      which they came to wait, then the least offset not behind the cursor. Between two turns of the
      cursor the offsets they are taken from never decrease, they are the offsets of their own data, and a
      turn is followed by a directory taken from an offset. */
  lemma {:induction false} WalkSweeps(roots: seq<Node>)
    ensures var ms := Moves(Start(roots)); Ascending(ms) && AtOwn(ms) && TurnsLead(ms) && InOrder(roots) == Dirs(ms)
    ensures AllServed(Met(map[], roots, [], 0), Moves(Start(roots)))
  {
    MovesServe(Start(roots), Met(map[], roots, [], 0));
    MovesAscend(Start(roots));
    MovesAtOwn(Start(roots));
  }

  lemma {:induction false} NothingWaits(f: Filter)
    ensures QueuedWork(f, Start([])) == multiset{} && Emits([]) == multiset{}
  {
  }

  lemma {:induction false} PlanStart(f: Filter, q: Queues)
    ensures PlanOf(f, OpensIn([]), [], q, None) == (Dirs(Moves(q)), Entries(f, Dirs(Moves(q))))
  {
    hide Moves, Dirs, Entries;
    var rest := Entries(f, Dirs(Moves(q)));
    assert OpensIn([]) == [] && [] + Dirs(Moves(q)) == Dirs(Moves(q));
    assert [] + [] + rest == rest;
  }

  lemma {:induction false} NoRoots(f: Filter)
    ensures NodesWork(f, []) == multiset{}
  {
  }

  lemma {:induction false} AllOnce(f: Filter, roots: seq<Node>)
    requires DisjointRoots(roots)
    ensures forall e: Event :: !e.Failure? ==> NodesWork(f, roots)[e] <= 1
  {
    forall e: Event | !e.Failure?
      ensures NodesWork(f, roots)[e] <= 1
    {
      EachOnce(f, roots, e);
    }
  }
}
