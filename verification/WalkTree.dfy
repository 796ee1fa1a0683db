/** The file tree a directory walk meets, and the work it amounts to (platter-walk/src/lib.rs). */
module WalkTree {
  import opened Basics

  /** What reading a directory yields: an entry, or an error instead of one. */
  datatype Item = IoError | Found(node: Node)

  /** An entry of the file system. `dirOffset` is the first physical offset of a directory's own
      data, `offset` that of an entry's contents; `openable` tells if a directory can be read. */
  datatype Node = Node(
    path: seq<nat>, isDir: bool, ino: nat, dirOffset: Option<nat>, offset: nat,
    openable: bool, listing: seq<Item>)

  /** An event of a walk: a directory was opened, an error was reported, an entry was emitted
      or was left out by the filter. */
  datatype Event = Opened(node: Node) | Failure | Emitted(node: Node) | Skipped(node: Node)

  type Filter = Node -> bool

  /** All events that reading the directory `n` and everything below it must cause. */
  ghost function Work(f: Filter, n: Node): multiset<Event>
    decreases n
  {
    multiset{Opened(n)} + if n.openable then ItemsWork(f, n.listing) else multiset{Failure}
  }

  ghost function ItemsWork(f: Filter, items: seq<Item>): multiset<Event>
    decreases items
  {
    if items == [] then multiset{} else ItemWork(f, items[0]) + ItemsWork(f, items[1..])
  }

  ghost function ItemWork(f: Filter, i: Item): multiset<Event>
    decreases i
  {
    match i
    case IoError => multiset{Failure}
    case Found(c) =>
      (if c.isDir then Work(f, c) else multiset{}) + multiset{if f(c) then Emitted(c) else Skipped(c)}
  }

  ghost function NodesWork(f: Filter, ns: seq<Node>): multiset<Event> {
    if ns == [] then multiset{} else Work(f, ns[0]) + NodesWork(f, ns[1..])
  }

  /** The directories waiting at physical offsets. */
  ghost function MapWork(f: Filter, m: map<nat, Node>): multiset<Event>
    decreases |m|
  {
    if m == map[] then multiset{} else
      var k := LeastKey(m);
      Work(f, m[k]) + MapWork(f, m - {k})
  }

  ghost function LeastKey(m: map<nat, Node>): (k: nat)
    requires m != map[]
    ensures k in m && forall j :: j in m ==> k <= j
  {
    LeastExists(m.Keys);
    var k :| k in m && forall j :: j in m ==> k <= j;
    k
  }

  lemma {:induction false} LeastExists(s: set<nat>)
    requires s != {}
    ensures exists k :: k in s && forall j :: j in s ==> k <= j
    decreases |s|
  {
    var x :| x in s;
    if s != {x} {
      var t := s - {x};
      assert t != {} by { assert s == t + {x}; }
      LeastExists(t);
      var y :| y in t && forall j :: j in t ==> y <= j;
      var k := Min(x, y);
      assert k in s && forall j :: j in s ==> k <= j;
    }
  }

  lemma {:induction false} MapWorkTake(f: Filter, m: map<nat, Node>, k: nat)
    requires k in m
    ensures MapWork(f, m) == Work(f, m[k]) + MapWork(f, m - {k})
    decreases |m|
  {
    var l := LeastKey(m);
    if l != k {
      hide Work;
      MapWorkTake(f, m - {l}, k);
      assert m - {l} - {k} == m - {k} - {l};
      MapWorkLeast(f, m, k, l);
      assert (m - {l})[k] == m[k];
      Reorder(Work(f, m[l]), Work(f, m[k]), MapWork(f, m - {l} - {k}));
    }
  }

  lemma {:induction false} Reorder(a: multiset<Event>, b: multiset<Event>, c: multiset<Event>)
    ensures a + (b + c) == b + (a + c)
  {
  }

  lemma {:induction false} MapWorkLeast(f: Filter, m: map<nat, Node>, k: nat, l: nat)
    requires k in m && l != k && l == LeastKey(m)
    ensures MapWork(f, m - {k}) == Work(f, m[l]) + MapWork(f, m - {k} - {l})
  {
    assert l in m - {k};
    assert LeastKey(m - {k}) == l;
  }

  /** Putting a directory at a free offset, or at one where it displaces another. */
  lemma {:induction false} MapWorkPut(f: Filter, m: map<nat, Node>, k: nat, n: Node)
    ensures k !in m ==> MapWork(f, m[k := n]) == MapWork(f, m) + Work(f, n)
    ensures k in m ==> MapWork(f, m[k := n]) + Work(f, m[k]) == MapWork(f, m) + Work(f, n)
  {
    hide Work, MapWork;
    MapWorkTake(f, m[k := n], k);
    SameRest(m, k, n);
    if k in m { MapWorkTake(f, m, k); }
  }

  lemma {:induction false} SameRest<T>(m: map<nat, T>, k: nat, n: T)
    ensures m[k := n] - {k} == m - {k}
    ensures k !in m ==> m - {k} == m
  {
  }

  lemma {:induction false} NodesWorkPush(f: Filter, ns: seq<Node>, n: Node)
    ensures NodesWork(f, ns + [n]) == NodesWork(f, ns) + Work(f, n)
  {
    if ns == [] {
      assert ([] + [n])[1..] == [];
    } else {
      assert (ns + [n])[1..] == ns[1..] + [n];
      NodesWorkPush(f, ns[1..], n);
    }
  }

  // ----- every directory once

  /** Entries lie directly below their directory, under different names. */
  ghost predicate Placed(n: Node)
    decreases n
  {
    && (forall i :: 0 <= i < |n.listing| && n.listing[i].Found? ==>
          |n.listing[i].node.path| == |n.path| + 1 && n.path <= n.listing[i].node.path && Placed(n.listing[i].node))
    && (forall i, j :: 0 <= i < j < |n.listing| && n.listing[i].Found? && n.listing[j].Found? ==>
          n.listing[i].node.path != n.listing[j].node.path)
  }

  ghost predicate Listed(items: seq<Item>, p: seq<nat>) {
    && (forall i :: 0 <= i < |items| && items[i].Found? ==>
          |items[i].node.path| == |p| + 1 && p <= items[i].node.path && Placed(items[i].node))
    && (forall i, j :: 0 <= i < j < |items| && items[i].Found? && items[j].Found? ==>
          items[i].node.path != items[j].node.path)
  }

  ghost predicate About(e: Event, p: seq<nat>) {
    !e.Failure? && p <= e.node.path
  }

  lemma {:induction false} NotAboutBoth(p: seq<nat>, q: seq<nat>, e: Event)
    requires !(p <= q) && !(q <= p)
    ensures !(About(e, p) && About(e, q))
  {
    if !e.Failure? && p <= e.node.path && q <= e.node.path { PrefixesMeet(p, q, e.node.path); }
  }

  /** The work of a directory concerns only what lies at or below it, each entry below once. */
  lemma {:induction false} WorkOnce(f: Filter, n: Node, e: Event)
    requires Placed(n) && !e.Failure?
    ensures e in Work(f, n) ==> About(e, n.path) && (e.Opened? || n.path != e.node.path)
    ensures Work(f, n)[e] <= 1
    decreases n
  {
    if n.openable {
      assert Listed(n.listing, n.path);
      ItemsWorkOnce(f, n.listing, n.path, e);
    }
  }

  lemma {:induction false} ItemsWorkOnce(f: Filter, items: seq<Item>, p: seq<nat>, e: Event)
    requires Listed(items, p) && !e.Failure?
    ensures e in ItemsWork(f, items) ==>
      exists i :: 0 <= i < |items| && items[i].Found? && About(e, items[i].node.path)
    ensures ItemsWork(f, items)[e] <= 1
    decreases items
  {
    if items != [] {
      var rest := items[1..];
      assert Listed(rest, p);
      ItemsWorkOnce(f, rest, p, e);
      if items[0].Found? { ItemWorkOnce(f, items[0], e); }
      if e in ItemsWork(f, rest) {
        var i :| 0 <= i < |rest| && rest[i].Found? && About(e, rest[i].node.path);
        assert rest[i] == items[i + 1];
        if items[0].Found? { NotAboutBoth(items[0].node.path, items[i + 1].node.path, e); }
      }
    }
  }

  lemma {:induction false} ItemWorkOnce(f: Filter, i: Item, e: Event)
    requires i.Found? && Placed(i.node) && !e.Failure?
    ensures e in ItemWork(f, i) ==> About(e, i.node.path)
    ensures ItemWork(f, i)[e] <= 1
    decreases i
  {
    if i.node.isDir { WorkOnce(f, i.node, e); }
  }

  ghost predicate DisjointRoots(ns: seq<Node>) {
    && (forall i :: 0 <= i < |ns| ==> Placed(ns[i]))
    && forall i, j :: 0 <= i < j < |ns| ==> !(ns[i].path <= ns[j].path) && !(ns[j].path <= ns[i].path)
  }

  /** Below disjoint roots every directory is opened once and every entry is handled once. */
  lemma {:induction false} EachOnce(f: Filter, ns: seq<Node>, e: Event)
    requires DisjointRoots(ns) && !e.Failure?
    ensures NodesWork(f, ns)[e] <= 1
    ensures e in NodesWork(f, ns) ==> exists i :: 0 <= i < |ns| && About(e, ns[i].path)
  {
    if ns != [] {
      var rest := ns[1..];
      assert DisjointRoots(rest);
      EachOnce(f, rest, e);
      WorkOnce(f, ns[0], e);
      if e in NodesWork(f, rest) {
        var i :| 0 <= i < |rest| && About(e, rest[i].path);
        assert rest[i] == ns[i + 1];
        NotAboutBoth(ns[0].path, ns[i + 1].path, e);
      }
    }
  }

  // ----- which events those are

  /** The directory `d` is `n` or is found below it through directories that can be read. */
  ghost predicate Under(n: Node, d: Node)
    decreases n
  {
    d == n || (n.openable && exists i :: 0 <= i < |n.listing| && UnderItem(n.listing[i], d))
  }

  ghost predicate UnderItem(i: Item, d: Node)
    decreases i
  {
    i.Found? && i.node.isDir && Under(i.node, d)
  }

  /** `x` is listed by a readable directory found below `n`. */
  ghost predicate ListedUnder(n: Node, x: Node)
    decreases n
  {
    n.openable && exists i :: 0 <= i < |n.listing| && ListedIn(n.listing[i], x)
  }

  ghost predicate ListedIn(i: Item, x: Node)
    decreases i
  {
    i.Found? && (i.node == x || (i.node.isDir && ListedUnder(i.node, x)))
  }

  /** What is opened, emitted and skipped below a directory. */
  lemma {:induction false} WorkMeaning(f: Filter, n: Node, x: Node)
    ensures Opened(x) in Work(f, n) <==> Under(n, x)
    ensures Emitted(x) in Work(f, n) <==> f(x) && ListedUnder(n, x)
    ensures Skipped(x) in Work(f, n) <==> !f(x) && ListedUnder(n, x)
    decreases n
  {
    hide ItemsWork, UnderItem, ListedIn;
    if n.openable { ItemsWorkMeaning(f, n.listing, x); }
  }

  lemma {:induction false} ItemsWorkMeaning(f: Filter, items: seq<Item>, x: Node)
    ensures Opened(x) in ItemsWork(f, items) <==> exists i :: 0 <= i < |items| && UnderItem(items[i], x)
    ensures Emitted(x) in ItemsWork(f, items) <==> f(x) && exists i :: 0 <= i < |items| && ListedIn(items[i], x)
    ensures Skipped(x) in ItemsWork(f, items) <==> !f(x) && exists i :: 0 <= i < |items| && ListedIn(items[i], x)
    decreases items
  {
    if items != [] {
      ItemWorkMeaning(f, items[0], x);
      ItemsWorkMeaning(f, items[1..], x);
      FirstOrRest(items, i => UnderItem(i, x));
      FirstOrRest(items, i => ListedIn(i, x));
    }
  }

  lemma {:induction false} FirstOrRest(items: seq<Item>, p: Item -> bool)
    requires items != []
    ensures (exists i :: 0 <= i < |items| && p(items[i])) <==>
            (p(items[0]) || exists i :: 0 <= i < |items[1..]| && p(items[1..][i]))
  {
    forall i | 0 <= i < |items| && p(items[i]) && i > 0
      ensures p(items[1..][i - 1])
    {
    }
  }

  lemma {:induction false} ItemWorkMeaning(f: Filter, i: Item, x: Node)
    ensures Opened(x) in ItemWork(f, i) <==> UnderItem(i, x)
    ensures Emitted(x) in ItemWork(f, i) <==> f(x) && ListedIn(i, x)
    ensures Skipped(x) in ItemWork(f, i) <==> !f(x) && ListedIn(i, x)
    decreases i
  {
    if i.Found? && i.node.isDir { WorkMeaning(f, i.node, x); }
  }
}
