/** In which order a walk opens directories (platter-walk/src/lib.rs). */
module WalkOrder {
  import opened Basics
  import opened WalkTree

  /** The directories waiting at physical offsets, those waiting without one, and the offset of the
      last one taken. */
  datatype Queues = Queues(phySorted: map<nat, Node>, unordered: seq<Node>, cursor: nat)

  /** A directory is taken from the queue without offsets or from an offset; or the cursor turns back. */
  datatype Move = FromUnordered(dir: Node) | AtOffset(offset: nat, dir: Node) | TurnBack

  /** A directory displaced from its offset goes to the other queue. */
  function Queue(q: Queues, n: Node, pos: Option<nat>): Queues {
    match pos
    case None => q.(unordered := q.unordered + [n])
    case Some(k) =>
      q.(phySorted := q.phySorted[k := n],
         unordered := if k in q.phySorted then q.unordered + [q.phySorted[k]] else q.unordered)
  }

  function QueueItem(q: Queues, i: Item): Queues {
    if i.Found? && i.node.isDir then Queue(q, i.node, i.node.dirOffset) else q
  }

  function QueueItems(q: Queues, items: seq<Item>): Queues
    decreases |items|
  {
    if items == [] then q else QueueItems(QueueItem(q, items[0]), items[1..])
  }

  /** What reading a directory adds: nothing if it can not be opened. */
  function Enter(q: Queues, n: Node): Queues {
    if n.openable then QueueItems(q, n.listing) else q
  }

  predicate InFront(m: map<nat, Node>, c: nat) {
    exists k :: k in m && c <= k
  }

  /** The offset is the least one in the queue that is not behind the cursor. */
  predicate TakenNext(m: map<nat, Node>, c: nat, k: nat) {
    k in m && c <= k && forall j :: j in m && c <= j ==> k <= j
  }

  ghost function NextOffset(m: map<nat, Node>, c: nat): (k: nat)
    requires InFront(m, c)
    ensures TakenNext(m, c, k)
  {
    var s := set k | k in m && c <= k;
    assert s != {} by { var x :| x in m && c <= x; assert x in s; }
    LeastExists(s);
    var k :| k in s && forall j :: j in s ==> k <= j;
    assert forall j :: j in m && c <= j ==> j in s;
    k
  }

  /** The next directory to read, and what then still waits; none if all that wait are behind the
      cursor. */
  ghost function Take(q: Queues): (r: Option<(Move, Queues)>)
    ensures r.Some? ==> !r.value.0.TurnBack?
  {
    if q.unordered != [] then
      Some((FromUnordered(q.unordered[0]), q.(unordered := q.unordered[1..])))
    else if InFront(q.phySorted, q.cursor) then
      var k := NextOffset(q.phySorted, q.cursor);
      Some((AtOffset(k, q.phySorted[k]), q.(phySorted := q.phySorted - {k}, cursor := k)))
    else None
  }

  // ----- the work that waits

  ghost function QueuedWork(f: Filter, q: Queues): multiset<Event> {
    MapWork(f, q.phySorted) + NodesWork(f, q.unordered)
  }

  lemma {:induction false} QueueWork(f: Filter, q: Queues, n: Node, pos: Option<nat>)
    ensures QueuedWork(f, Queue(q, n, pos)) == QueuedWork(f, q) + Work(f, n)
  {
    hide Work, MapWork, NodesWork;
    match pos
    case None => NodesWorkPush(f, q.unordered, n);
    case Some(k) =>
      MapWorkPut(f, q.phySorted, k, n);
      if k in q.phySorted {
        NodesWorkPush(f, q.unordered, q.phySorted[k]);
        Displaced(MapWork(f, q.phySorted[k := n]), Work(f, q.phySorted[k]), MapWork(f, q.phySorted), Work(f, n),
                  NodesWork(f, q.unordered));
      }
  }

  lemma {:induction false} Displaced(m': multiset<Event>, old_: multiset<Event>, m: multiset<Event>,
                                     new_: multiset<Event>, n: multiset<Event>)
    requires m' + old_ == m + new_
    ensures m' + (n + old_) == m + n + new_
  {
    assert m' + (n + old_) == (m' + old_) + n;
    assert (m + new_) + n == m + n + new_;
  }

  /** Taking a directory takes exactly its work. */
  lemma {:induction false} TakeWork(f: Filter, q: Queues)
    ensures Take(q).Some? ==> QueuedWork(f, q) == QueuedWork(f, Take(q).value.1) + Work(f, Take(q).value.0.dir)
  {
    hide Work, MapWork;
    if q.unordered == [] && InFront(q.phySorted, q.cursor) {
      MapWorkTake(f, q.phySorted, NextOffset(q.phySorted, q.cursor));
    }
  }

  function Everything(n: Node): bool { true }

  ghost function Left(q: Queues): nat {
    |QueuedWork(Everything, q)|
  }

  lemma {:induction false} ItemsLeft(q: Queues, items: seq<Item>)
    ensures Left(QueueItems(q, items)) <= Left(q) + |ItemsWork(Everything, items)|
    decreases |items|
  {
    if items != [] {
      ItemsLeft(QueueItem(q, items[0]), items[1..]);
      if items[0].Found? && items[0].node.isDir {
        QueueWork(Everything, q, items[0].node, items[0].node.dirOffset);
      }
    }
  }

  /** Every directory taken leaves less to do. */
  lemma {:induction false} EnterLeft(q: Queues)
    ensures Take(q).Some? ==> Left(Enter(Take(q).value.1, Take(q).value.0.dir)) < Left(q)
  {
    if Take(q).Some? {
      var (m, rest) := Take(q).value;
      hide MapWork, NodesWork, ItemsWork, Take, QueueItems;
      TakeWork(Everything, q);
      ItemsLeft(rest, m.dir.listing);
    }
  }

  // ----- the order

  /** All that a walk from these queues does. */
  ghost function Moves(q: Queues): seq<Move>
    decreases Left(q), q.cursor
  {
    EnterLeft(q);
    var t := Take(q);
    if t.Some? then [t.value.0] + Moves(Enter(t.value.1, t.value.0.dir))
    else if q.phySorted == map[] then []
    else assert q.cursor > 0 by { SomeInFront(q.phySorted); } [TurnBack] + Moves(q.(cursor := 0))
  }

  lemma {:induction false} SomeInFront(m: map<nat, Node>)
    requires m != map[]
    ensures InFront(m, 0)
  {
    assert LeastKey(m) in m;
  }

  /** The directories opened, in order. */
  ghost function Dirs(ms: seq<Move>): seq<Node> {
    if ms == [] then [] else (if ms[0].TurnBack? then [] else [ms[0].dir]) + Dirs(ms[1..])
  }

  /** A walk starts with the roots. */
  function Start(roots: seq<Node>): Queues {
    Queues(map[], roots, 0)
  }

  ghost predicate NoTurn(ms: seq<Move>, i: nat, j: nat)
    requires j <= |ms|
  {
    forall k :: i <= k < j ==> !ms[k].TurnBack?
  }

  /** Between two turns of the cursor, offsets never decrease. */
  ghost predicate Ascending(ms: seq<Move>) {
    forall i, j :: 0 <= i < j < |ms| && ms[i].AtOffset? && ms[j].AtOffset? && NoTurn(ms, i, j) ==>
      ms[i].offset <= ms[j].offset
  }

  ghost predicate NotBehind(ms: seq<Move>, c: nat) {
    forall j :: 0 <= j < |ms| && ms[j].AtOffset? && NoTurn(ms, 0, j) ==> c <= ms[j].offset
  }

  /** A turn of the cursor is followed by a directory taken at an offset. */
  ghost predicate TurnsLead(ms: seq<Move>) {
    forall i :: 0 <= i < |ms| && ms[i].TurnBack? ==> i + 1 < |ms| && ms[i + 1].AtOffset?
  }

  /** A directory is taken only at the offset of its own data. */
  ghost predicate AtOwn(ms: seq<Move>) {
    forall i :: 0 <= i < |ms| && ms[i].AtOffset? ==> ms[i].dir.dirOffset == Some(ms[i].offset)
  }

  ghost predicate OwnOffsets(m: map<nat, Node>) {
    forall k :: k in m ==> m[k].dirOffset == Some(k)
  }

  lemma {:induction false} QueueOwn(q: Queues, items: seq<Item>)
    requires OwnOffsets(q.phySorted)
    ensures OwnOffsets(QueueItems(q, items).phySorted) && QueueItems(q, items).cursor == q.cursor
    decreases |items|
  {
    if items != [] { QueueOwn(QueueItem(q, items[0]), items[1..]); }
  }

  /** One move in front of others. */
  lemma {:induction false} AscendMore(m: Move, ms: seq<Move>, c: nat)
    requires Ascending(ms) && NotBehind(ms, if m.AtOffset? then m.offset else if m.TurnBack? then 0 else c)
    requires m.AtOffset? ==> c <= m.offset
    ensures Ascending([m] + ms) && NotBehind([m] + ms, c)
  {
    var all := [m] + ms;
    forall j | 0 < j < |all| && all[j].AtOffset?
      ensures NoTurn(all, 0, j) ==> c <= all[j].offset && (m.AtOffset? ==> m.offset <= all[j].offset)
    {
      assert all[j] == ms[j - 1];
      if NoTurn(all, 0, j) {
        assert !all[0].TurnBack?;
        ShiftTurn(m, ms, 0, j - 1);
      }
    }
    forall i, j | 0 < i < j < |all| && all[i].AtOffset? && all[j].AtOffset? && NoTurn(all, i, j)
      ensures all[i].offset <= all[j].offset
    {
      ShiftTurn(m, ms, i - 1, j - 1);
      assert all[i] == ms[i - 1] && all[j] == ms[j - 1];
    }
  }

  lemma {:induction false} ShiftTurn(m: Move, ms: seq<Move>, i: nat, j: nat)
    requires j <= |ms| && NoTurn([m] + ms, i + 1, j + 1)
    ensures NoTurn(ms, i, j)
  {
    forall k | i <= k < j
      ensures !ms[k].TurnBack?
    {
      assert ([m] + ms)[k + 1] == ms[k];
    }
  }

  /** The first move and what remains after it. */
  lemma {:induction false} FirstMove(q: Queues) returns (m: Move, next: Queues)
    requires OwnOffsets(q.phySorted) && (q.unordered != [] || q.phySorted != map[])
    ensures Moves(q) == [m] + Moves(next) && OwnOffsets(next.phySorted)
    ensures Left(next) < Left(q) || (Left(next) == Left(q) && next.cursor < q.cursor)
    ensures match m
      case FromUnordered(_) => next.cursor == q.cursor
      case AtOffset(k, d) => q.cursor <= k == next.cursor && d.dirOffset == Some(k)
      case TurnBack => next.cursor == 0 && next.unordered == [] && InFront(next.phySorted, 0)
  {
    hide MapWork, NodesWork;
    var t := Take(q);
    if t.Some? {
      EnterLeft(q);
      QueueOwn(t.value.1, t.value.0.dir.listing);
      m, next := t.value.0, Enter(t.value.1, t.value.0.dir);
    } else {
      SomeInFront(q.phySorted);
      m, next := TurnBack, q.(cursor := 0);
    }
  }

  lemma {:induction false} NoMoves(q: Queues)
    requires q.unordered == [] && q.phySorted == map[]
    ensures Moves(q) == []
  {
  }

  /** Directories are taken from offsets in ascending order, from the cursor on and between two turns
      of it, whatever is read on the way. */
  lemma {:induction false} MovesAscend(q: Queues)
    requires OwnOffsets(q.phySorted)
    ensures Ascending(Moves(q)) && NotBehind(Moves(q), q.cursor)
    decreases Left(q), q.cursor
  {
    hide Moves, Left, OwnOffsets, Ascending, NotBehind;
    if q.unordered == [] && q.phySorted == map[] {
      NoMoves(q);
      NothingAscends(q.cursor);
    } else {
      var m, next := FirstMove(q);
      MovesAscend(next);
      AscendMore(m, Moves(next), q.cursor);
    }
  }

  lemma {:induction false} NothingAscends(c: nat)
    ensures Ascending([]) && NotBehind([], c)
  {
  }

  /** Each of them is taken at the offset of its own data; and once the cursor turned back, the next
      one is taken from an offset. */
  lemma {:induction false} MovesAtOwn(q: Queues)
    requires OwnOffsets(q.phySorted)
    ensures AtOwn(Moves(q)) && TurnsLead(Moves(q))
    ensures q.unordered == [] && InFront(q.phySorted, q.cursor) ==> Moves(q) != [] && Moves(q)[0].AtOffset?
    decreases Left(q), q.cursor
  {
    hide Moves, Left, OwnOffsets;
    if q.unordered == [] && q.phySorted == map[] {
      NoMoves(q);
    } else {
      var m, next := FirstMove(q);
      MovesAtOwn(next);
      if q.unordered == [] && InFront(q.phySorted, q.cursor) { TakenInFront(q); }
    }
  }

  lemma {:induction false} TakenInFront(q: Queues)
    requires q.unordered == [] && InFront(q.phySorted, q.cursor)
    ensures Moves(q) != [] && Moves(q)[0].AtOffset?
  {
    hide Left, QueueItems;
  }

  // ----- the order told by what came and went

  /** What a walk has met so far: the directories at offsets, all that came to wait without one, in the
      order in which they came, and those of them that were read. */
  datatype Met = Met(at: map<nat, Node>, came: seq<Node>, read: seq<Node>, cursor: nat)

  /** A directory without an offset comes to wait, and so does one that another takes the offset of. */
  function Meet(h: Met, c: Node): Met {
    if c.dirOffset == None then h.(came := h.came + [c])
    else if c.dirOffset.value in h.at
    then h.(at := h.at[c.dirOffset.value := c], came := h.came + [h.at[c.dirOffset.value]])
    else h.(at := h.at[c.dirOffset.value := c])
  }

  function MeetAll(h: Met, items: seq<Item>): Met
    decreases |items|
  {
    if items == [] then h
    else if items[0].Found? && items[0].node.isDir then MeetAll(Meet(h, items[0].node), items[1..])
    else MeetAll(h, items[1..])
  }

  function Listing(n: Node): seq<Item> {
    if n.openable then n.listing else []
  }

  function After(h: Met, m: Move): Met {
    match m
    case FromUnordered(d) => MeetAll(h.(read := h.read + [d]), Listing(d))
    case AtOffset(k, d) => MeetAll(h.(at := h.at - {k}, cursor := k), Listing(d))
    case TurnBack => h.(cursor := 0)
  }

  /** The move is the one the walk makes: first come, first served, before any offset is looked at;
      then the least offset not behind the cursor; and back only when all that waits is behind it. */
  ghost predicate Served(h: Met, m: Move) {
    match m
    case FromUnordered(d) => h.read + [d] <= h.came
    case AtOffset(k, d) =>
      && h.read == h.came && k in h.at && h.at[k] == d
      && h.cursor <= k && forall j :: j in h.at && h.cursor <= j ==> k <= j
    case TurnBack => h.read == h.came && h.at != map[] && forall j :: j in h.at ==> j < h.cursor
  }

  ghost predicate AllServed(h: Met, ms: seq<Move>)
    decreases |ms|
  {
    if ms == [] then h.at == map[] && h.read == h.came
    else Served(h, ms[0]) && AllServed(After(h, ms[0]), ms[1..])
  }

  /** The queues hold what was met and not yet read. */
  ghost predicate Holds(q: Queues, h: Met) {
    q.phySorted == h.at && h.read + q.unordered == h.came && q.cursor == h.cursor
  }

  lemma {:induction false} MeetHolds(q: Queues, h: Met, items: seq<Item>)
    requires Holds(q, h)
    ensures Holds(QueueItems(q, items), MeetAll(h, items))
    ensures h.came <= MeetAll(h, items).came && MeetAll(h, items).read == h.read
    decreases |items|
  {
    if items != [] {
      var i := items[0];
      if i.Found? && i.node.isDir {
        var q', h' := QueueItem(q, i), Meet(h, i.node);
        assert h.read + (q.unordered + q'.unordered[|q.unordered|..]) == h'.came;
        assert q'.unordered == q.unordered + q'.unordered[|q.unordered|..];
        MeetHolds(q', h', items[1..]);
      } else {
        MeetHolds(q, h, items[1..]);
      }
    }
  }

  lemma {:induction false} TakeServes(q: Queues, h: Met)
    requires Holds(q, h) && Take(q).Some?
    ensures Served(h, Take(q).value.0)
    ensures Holds(Enter(Take(q).value.1, Take(q).value.0.dir), After(h, Take(q).value.0))
  {
    var (m, rest) := Take(q).value;
    match m
    case FromUnordered(d) =>
      assert q.unordered == [d] + rest.unordered;
      assert h.read + [d] + rest.unordered == h.came;
      MeetHolds(rest, h.(read := h.read + [d]), Listing(d));
    case AtOffset(k, d) =>
      assert h.read + [] == h.read;
      MeetHolds(rest, h.(at := h.at - {k}, cursor := k), Listing(d));
  }

  /** A walk makes exactly these moves, whatever is found on the way. */
  lemma {:induction false} MovesServe(q: Queues, h: Met)
    requires Holds(q, h)
    ensures AllServed(h, Moves(q))
    decreases Left(q), q.cursor
  {
    EnterLeft(q);
    assert h.read + [] == h.read;
    var t := Take(q);
    if t.Some? {
      TakeServes(q, h);
      hide Take, Enter, Left, Holds, Served, After;
      var next := Enter(t.value.1, t.value.0.dir);
      MovesServe(next, After(h, t.value.0));
      assert ([t.value.0] + Moves(next))[1..] == Moves(next);
    } else if q.phySorted != map[] {
      SomeInFront(q.phySorted);
      var next := q.(cursor := 0);
      MovesServe(next, After(h, TurnBack));
      assert ([TurnBack] + Moves(next))[1..] == Moves(next);
    }
  }

  /** These rules leave no choice. */
  lemma {:induction false} ServedOnce(h: Met, a: seq<Move>, b: seq<Move>)
    requires AllServed(h, a) && AllServed(h, b)
    ensures a == b
    decreases |a|
  {
    if a != [] && b != [] {
      SameServed(h, a[0], b[0]);
      ServedOnce(After(h, a[0]), a[1..], b[1..]);
      assert a == [a[0]] + a[1..] && b == [b[0]] + b[1..];
    }
  }

  lemma {:induction false} SameServed(h: Met, a: Move, b: Move)
    requires Served(h, a) && Served(h, b)
    ensures a == b
  {
    if a.FromUnordered? && b.FromUnordered? {
      assert a.dir == h.came[|h.read|] == b.dir;
    }
  }

  /** The roots are opened first, in the order in which they were given. */
  lemma {:induction false} RootsFirst(q: Queues, n: nat)
    requires n <= |q.unordered|
    ensures q.unordered[..n] <= Dirs(Moves(q))
    decreases n
  {
    if n > 0 {
      hide Moves, Dirs, QueueItems, Take, Left;
      var rest := q.(unordered := q.unordered[1..]);
      var next := Enter(rest, q.unordered[0]);
      QueueGrows(rest, Listing(q.unordered[0]));
      RootsFirst(next, n - 1);
      FrontMoves(q);
      assert next.unordered[..n - 1] == q.unordered[1..][..n - 1];
      assert q.unordered[..n] == [q.unordered[0]] + q.unordered[1..][..n - 1];
    }
  }

  lemma {:induction false} FrontMoves(q: Queues)
    requires q.unordered != []
    ensures Dirs(Moves(q))
      == [q.unordered[0]] + Dirs(Moves(Enter(q.(unordered := q.unordered[1..]), q.unordered[0])))
  {
    hide Enter;
    EnterLeft(q);
    DirsFirst(FromUnordered(q.unordered[0]), Moves(Enter(q.(unordered := q.unordered[1..]), q.unordered[0])));
  }

  lemma {:induction false} QueueGrows(q: Queues, items: seq<Item>)
    ensures q.unordered <= QueueItems(q, items).unordered
    decreases |items|
  {
    if items != [] { QueueGrows(QueueItem(q, items[0]), items[1..]); }
  }

  // ----- the entries

  /** What a directory lists and the filter lets through. */
  ghost function Passing(f: Filter, items: seq<Item>): seq<Node> {
    if items == [] then [] else
      (if items[0].Found? && f(items[0].node) then [items[0].node] else []) + Passing(f, items[1..])
  }

  /** The entries found in these directories, in order. */
  ghost function Entries(f: Filter, dirs: seq<Node>): seq<Node> {
    if dirs == [] then [] else
      (if dirs[0].openable then Passing(f, dirs[0].listing) else []) + Entries(f, dirs[1..])
  }

  /** Entries are found in the order of the listings. */
  lemma {:induction false} PassingInOrder(f: Filter, a: seq<Item>, b: seq<Item>)
    ensures Passing(f, a + b) == Passing(f, a) + Passing(f, b)
    ensures forall c :: Passing(f, [Found(c)]) == if f(c) then [c] else []
    ensures Passing(f, [IoError]) == Passing(f, []) == []
  {
    assert forall i: Item :: [i][1..] == [];
    if a == [] {
      assert a + b == b;
    } else {
      assert (a + b)[1..] == a[1..] + b;
      PassingInOrder(f, a[1..], b);
    }
  }

  lemma {:induction false} EntriesInOrder(f: Filter, a: seq<Node>, b: seq<Node>)
    ensures Entries(f, a + b) == Entries(f, a) + Entries(f, b)
    ensures forall d :: Entries(f, [d]) == if d.openable then Passing(f, d.listing) else []
  {
    assert forall d: Node :: [d][1..] == [];
    if a == [] {
      assert a + b == b;
    } else {
      assert (a + b)[1..] == a[1..] + b;
      EntriesInOrder(f, a[1..], b);
    }
  }

  // ----- what is done and what is to come

  ghost function Waits(q: Queues, dir: Option<seq<Item>>): Queues {
    if dir.Some? then QueueItems(q, dir.value) else q
  }

  /** The directories of the whole walk, in the order in which they are opened: those opened already
      and those to come. And the entries still to be handed out, in the order in which they are found:
      those gathered, those of the directory being read, and those to come. */
  ghost function PlanOf(f: Filter, done: seq<Node>, gathered: seq<Node>, q: Queues, dir: Option<seq<Item>>):
    (seq<Node>, seq<Node>)
  {
    var rest := Dirs(Moves(Waits(q, dir)));
    (done + rest, gathered + (if dir.Some? then Passing(f, dir.value) else []) + Entries(f, rest))
  }

  lemma {:induction false} PlanTurn(f: Filter, done: seq<Node>, gathered: seq<Node>, q: Queues)
    requires Take(q) == None && q.phySorted != map[]
    ensures q.cursor > 0 && PlanOf(f, done, gathered, q.(cursor := 0), None) == PlanOf(f, done, gathered, q, None)
  {
    SomeInFront(q.phySorted);
    hide Left, Take, Entries;
    DirsFirst(TurnBack, Moves(q.(cursor := 0)));
    assert Moves(q) == [TurnBack] + Moves(q.(cursor := 0));
  }

  lemma {:induction false} DirsFirst(m: Move, ms: seq<Move>)
    ensures Dirs([m] + ms) == if m.TurnBack? then Dirs(ms) else [m.dir] + Dirs(ms)
  {
    assert ([m] + ms)[1..] == ms;
  }

  lemma {:induction false} EntriesFirst(f: Filter, d: Node, ds: seq<Node>)
    ensures Entries(f, [d] + ds) == if d.openable then Passing(f, d.listing) + Entries(f, ds) else Entries(f, ds)
  {
    assert ([d] + ds)[1..] == ds;
  }

  lemma {:induction false} PlanTake(f: Filter, done: seq<Node>, gathered: seq<Node>, q: Queues, m: Move, rest: Queues)
    requires Take(q) == Some((m, rest))
    ensures PlanOf(f, done + [m.dir], gathered, rest, if m.dir.openable then Some(m.dir.listing) else None) ==
            PlanOf(f, done, gathered, q, None)
  {
    var next := Moves(Enter(rest, m.dir));
    assert Moves(q) == [m] + next;
    hide Take, Left, QueueItems, Passing, Moves, Dirs, Entries;
    DirsFirst(m, next);
    EntriesFirst(f, m.dir, Dirs(next));
    assert done + [m.dir] + Dirs(next) == done + ([m.dir] + Dirs(next));
    Associate(gathered, Passing(f, m.dir.listing), Entries(f, Dirs(next)));
  }

  lemma {:induction false} PlanClose(f: Filter, done: seq<Node>, gathered: seq<Node>, q: Queues)
    ensures PlanOf(f, done, gathered, q, Some([])) == PlanOf(f, done, gathered, q, None)
  {
    hide Moves;
  }

  lemma {:induction false} PlanItem(f: Filter, done: seq<Node>, gathered: seq<Node>, q: Queues, items: seq<Item>)
    requires items != []
    ensures PlanOf(f, done, gathered + Passing(f, items[..1]), QueueItem(q, items[0]), Some(items[1..])) ==
            PlanOf(f, done, gathered, q, Some(items))
  {
    hide Moves, QueueItem, Entries, Passing;
    PassingFirst(f, items);
    Associate(gathered, Passing(f, items[..1]), Passing(f, items[1..]));
  }

  lemma {:induction false} PassingFirst(f: Filter, items: seq<Item>)
    requires items != []
    ensures Passing(f, items) == Passing(f, items[..1]) + Passing(f, items[1..])
  {
    assert items[..1][1..] == [];
  }

  lemma {:induction false} Associate<T>(a: seq<T>, b: seq<T>, c: seq<T>)
    ensures a + [] + (b + c) == a + b + c == a + (b + c) && a + [] + c == a + c
  {
  }

  /** What was gathered comes first. */
  lemma {:induction false} PlanGathered(f: Filter, done: seq<Node>, gathered: seq<Node>, q: Queues,
                                        dir: Option<seq<Item>>)
    ensures PlanOf(f, done, gathered, q, dir).0 == PlanOf(f, done, [], q, dir).0
    ensures PlanOf(f, done, gathered, q, dir).1 == gathered + PlanOf(f, done, [], q, dir).1
  {
    hide Moves, Entries, Passing;
  }

  lemma {:induction false} PlanDone(f: Filter, done: seq<Node>, gathered: seq<Node>, q: Queues)
    requires q.unordered == [] && q.phySorted == map[]
    ensures PlanOf(f, done, gathered, q, None) == (done, gathered)
  {
    NoMoves(q);
    hide Moves;
    assert Dirs([]) == [] && Entries(f, []) == [];
    assert done + [] == done && gathered + [] + [] == gathered;
  }
}
