/** Reading many files through one prefetch window (reapfrog/src/lib.rs). */
module Readahead {
  import opened Basics

  const DROPBEHIND_BLOCK: nat := 512 * 1024
  const PREFETCH_BLOCK: nat := 65536
  const MAX_OPEN: nat := 512
  const DEFAULT_BUDGET: nat := 8 * 1024 * 1024

  /** A file of the source: whether it can be opened, and its length then. */
  datatype Item = Item(ok: bool, length: nat)

  /** An entry of the window: an open file or the error of opening it. */
  datatype Slot =
    | Opened(item: nat, readPos: nat, prefetchPos: nat, toDrop: nat, length: nat)
    | Failed(item: nat)

  /** A request to the system to load bytes `from` to `to` of a file. */
  datatype Hint = Hint(item: nat, from: nat, to: nat)

  datatype Outcome = Finished | OpenError(item: nat) | Reader(item: nat)

  // ----- the window

  /** How far the prefetch position is ahead of the read position. */
  function Ahead(s: Slot): nat {
    if s.Opened? && s.readPos < s.prefetchPos then s.prefetchPos - s.readPos else 0
  }

  function Window(ss: seq<Slot>): nat {
    if ss == [] then 0 else Window(ss[..|ss| - 1]) + Ahead(ss[|ss| - 1])
  }

  lemma {:induction false} WindowUpdate(ss: seq<Slot>, i: nat, s: Slot)
    requires i < |ss|
    ensures Window(ss[i := s]) + Ahead(ss[i]) == Window(ss) + Ahead(s)
  {
    if i == |ss| - 1 {
      assert ss[i := s][..i] == ss[..i];
    } else {
      assert ss[i := s][..|ss| - 1] == ss[..|ss| - 1][i := s];
      WindowUpdate(ss[..|ss| - 1], i, s);
    }
  }

  lemma {:induction false} WindowPush(ss: seq<Slot>, s: Slot)
    ensures Window(ss + [s]) == Window(ss) + Ahead(s)
    ensures Ahead(s) == if s.Opened? && s.prefetchPos > s.readPos then s.prefetchPos - s.readPos else 0
    ensures Window([]) == 0
  {
    assert (ss + [s])[..|ss|] == ss;
  }

  /** Nothing of this file remains to be asked for. */
  ghost predicate NothingLeft(s: Slot) {
    s.Opened? ==> s.length <= Max(s.readPos, s.prefetchPos)
  }

  /** Nothing remains to be asked for of the first `n` entries. */
  ghost predicate AllAsked(ss: seq<Slot>, n: nat) {
    forall k :: 0 <= k < |ss| && k < n ==> NothingLeft(ss[k])
  }

  lemma {:induction false} AskedMore(ss: seq<Slot>, ss': seq<Slot>, n: nat)
    requires n < |ss| == |ss'| && AllAsked(ss, n) && NothingLeft(ss'[n])
    requires forall k :: 0 <= k < n ==> ss'[k] == ss[k]
    ensures AllAsked(ss', n + 1)
  {
  }

  lemma {:induction false} NothingAsked(ss: seq<Slot>)
    ensures AllAsked(ss, 0)
  {
  }

  lemma {:induction false} NothingToAsk(ss: seq<Slot>, n: nat)
    requires n < |ss| && AllAsked(ss, n) && (ss[n].Opened? ==> ss[n].length <= Max(ss[n].readPos, ss[n].prefetchPos))
    ensures AllAsked(ss, n + 1)
  {
  }

  lemma {:induction false} AskedBehind(ss: seq<Slot>, ss': seq<Slot>)
    requires |ss| <= |ss'| && ss'[..|ss|] == ss && AllAsked(ss, |ss|)
    ensures AllAsked(ss', |ss|)
    ensures !AnyOpened(ss', |ss|) ==> AllAsked(ss', 513)
  {
    forall k | 0 <= k < |ss|
      ensures ss'[k] == ss[k]
    {
      assert ss'[k] == ss'[..|ss|][k];
    }
  }

  function RoundDown(x: nat): nat { x / PREFETCH_BLOCK * PREFETCH_BLOCK }

  function RoundUp(x: nat): nat { (x + PREFETCH_BLOCK - 1) / PREFETCH_BLOCK * PREFETCH_BLOCK }

  /** Where the prefetch of a file may go next. */
  function NewPos(s: Slot, budget: nat): nat
    requires s.Opened?
  {
    var oldPos := Max(s.readPos, s.prefetchPos);
    Min(s.length, RoundUp(oldPos + Min(s.length - oldPos, RoundDown(budget))))
  }

  lemma {:induction false} NewPosBounds(s: Slot, budget: nat)
    requires s.Opened? && Max(s.readPos, s.prefetchPos) < s.length && budget >= PREFETCH_BLOCK
    ensures var p, old_ := NewPos(s, budget), Max(s.readPos, s.prefetchPos);
      && old_ < p <= s.length && p - old_ <= budget + 65535
      && (p == s.length || p % 65536 == 0)
      && Ahead(s.(prefetchPos := p)) == Ahead(s) + (p - old_)
      && (p == s.length || p - old_ > budget - 65536)
      && var goal := old_ + budget - budget % 65536;
         if goal >= s.length then p == s.length else goal <= p < goal + 65536
  {
  }

  /** One of the entries from `n` on is an open file. */
  ghost predicate AnyOpened(ss: seq<Slot>, n: nat) {
    exists k :: n <= k < |ss| && ss[k].Opened?
  }

  lemma {:induction false} OpenedPush(ss: seq<Slot>, s: Slot, n: nat)
    requires n <= |ss|
    ensures AnyOpened(ss + [s], n) <==> AnyOpened(ss, n) || s.Opened?
  {
    if s.Opened? { assert (ss + [s])[|ss|].Opened?; }
    if AnyOpened(ss, n) {
      var k :| n <= k < |ss| && ss[k].Opened?;
      assert (ss + [s])[k].Opened?;
    }
  }

  // ----- files and hints

  /** The window shows the source items from `base` on. */
  ghost predicate Shows(source: seq<Item>, base: nat, ss: seq<Slot>) {
    base + |ss| <= |source| && forall k :: 0 <= k < |ss| ==> SlotOk(source, base + k, ss[k])
  }

  ghost predicate SlotOk(source: seq<Item>, i: nat, s: Slot) {
    && i < |source| && s.item == i && (s.Opened? <==> source[i].ok)
    && (s.Opened? ==> s.length == source[i].length && s.prefetchPos <= s.length && s.toDrop <= s.readPos)
  }

  /** Hints of one file follow each other without overlap, and end aligned or at its end. */
  ghost predicate HintsOk(source: seq<Item>, hs: seq<Hint>) {
    && (forall k :: 0 <= k < |hs| ==> HintOk(source, hs[k]))
    && (forall j, k :: 0 <= j < k < |hs| && hs[j].item == hs[k].item ==> hs[j].to <= hs[k].from)
  }

  ghost predicate HintOk(source: seq<Item>, h: Hint) {
    && h.item < |source| && h.from < h.to <= source[h.item].length
    && (h.to % 65536 == 0 || h.to == source[h.item].length)
  }

  /** The requests for an open file end exactly at its prefetch position, and cover all that counts as
      ahead of the reader; no file was asked for that is not open yet. */
  ghost predicate HintsBehind(base: nat, ss: seq<Slot>, hs: seq<Hint>) {
    && (forall k :: 0 <= k < |hs| ==> HintBehind(base, ss, hs[k]))
    && (forall k :: 0 <= k < |ss| ==> SlotAsked(hs, ss[k]))
  }

  /** Where the last request for a file ends, 0 if there was none. */
  ghost function LastAsked(hs: seq<Hint>, item: nat): nat {
    if hs == [] then 0 else
      var last := hs[|hs| - 1];
      if last.item == item then last.to else LastAsked(hs[..|hs| - 1], item)
  }

  /** The byte at `x` of the file was asked for. */
  ghost predicate Asked(hs: seq<Hint>, item: nat, x: nat) {
    exists k :: 0 <= k < |hs| && hs[k].item == item && hs[k].from <= x < hs[k].to
  }

  ghost predicate SlotAsked(hs: seq<Hint>, s: Slot) {
    s.Opened? ==>
      && LastAsked(hs, s.item) == s.prefetchPos
      && forall x :: s.readPos <= x < s.prefetchPos ==> Asked(hs, s.item, x)
  }

  lemma {:induction false} AskedPush(hs: seq<Hint>, h: Hint, item: nat)
    ensures LastAsked(hs + [h], item) == if h.item == item then h.to else LastAsked(hs, item)
    ensures forall x: nat ::
      Asked(hs + [h], item, x) <==> Asked(hs, item, x) || (h.item == item && h.from <= x < h.to)
  {
    assert (hs + [h])[..|hs|] == hs;
    forall x: nat
      ensures Asked(hs + [h], item, x) <==> Asked(hs, item, x) || (h.item == item && h.from <= x < h.to)
    {
      if Asked(hs, item, x) {
        var k :| 0 <= k < |hs| && hs[k].item == item && hs[k].from <= x < hs[k].to;
        assert (hs + [h])[k] == hs[k];
      }
      assert (hs + [h])[|hs|] == h;
    }
  }

  lemma {:induction false} NeverAsked(hs: seq<Hint>, item: nat)
    requires forall k :: 0 <= k < |hs| ==> hs[k].item != item
    ensures LastAsked(hs, item) == 0
  {
    if hs != [] { NeverAsked(hs[..|hs| - 1], item); }
  }

  /** One more request, of an open file from where it was asked for or read to. */
  lemma {:induction false} SlotsAskedStep(source: seq<Item>, base: nat, ss: seq<Slot>, hs: seq<Hint>, i: nat, p: nat,
                                          k: nat)
    requires Shows(source, base, ss) && HintsBehind(base, ss, hs) && i < |ss| && ss[i].Opened? && k < |ss|
    requires Max(ss[i].readPos, ss[i].prefetchPos) < p
    ensures var h := Hint(base + i, Max(ss[i].readPos, ss[i].prefetchPos), p);
      SlotAsked(hs + [h], ss[i := ss[i].(prefetchPos := p)][k])
  {
    var h := Hint(base + i, Max(ss[i].readPos, ss[i].prefetchPos), p);
    assert SlotOk(source, base + i, ss[i]) && SlotOk(source, base + k, ss[k]) && SlotAsked(hs, ss[k]);
    AskedPush(hs, h, base + k);
  }

  ghost predicate HintBehind(base: nat, ss: seq<Slot>, h: Hint) {
    && h.item < base + |ss|
    && (base <= h.item ==> ss[h.item - base].Opened? && h.to <= ss[h.item - base].prefetchPos)
  }

  lemma {:induction false} HintStep(source: seq<Item>, base: nat, ss: seq<Slot>, hs: seq<Hint>, i: nat, p: nat)
    requires Shows(source, base, ss) && HintsOk(source, hs) && HintsBehind(base, ss, hs)
    requires i < |ss| && ss[i].Opened?
    requires Max(ss[i].readPos, ss[i].prefetchPos) < p <= ss[i].length
    requires p == ss[i].length || p % PREFETCH_BLOCK == 0
    ensures var h := Hint(base + i, Max(ss[i].readPos, ss[i].prefetchPos), p);
      var ss' := ss[i := ss[i].(prefetchPos := p)];
      Shows(source, base, ss') && HintsOk(source, hs + [h]) && HintsBehind(base, ss', hs + [h])
  {
    var h := Hint(base + i, Max(ss[i].readPos, ss[i].prefetchPos), p);
    var ss' := ss[i := ss[i].(prefetchPos := p)];
    assert SlotOk(source, base + i, ss[i]);
    forall k | 0 <= k < |ss'|
      ensures SlotOk(source, base + k, ss'[k])
    {
      assert SlotOk(source, base + k, ss[k]);
    }
    forall k | 0 <= k < |hs + [h]|
      ensures HintOk(source, (hs + [h])[k]) && HintBehind(base, ss', (hs + [h])[k])
    {
      if k < |hs| { assert HintOk(source, hs[k]) && HintBehind(base, ss, hs[k]); }
    }
    forall j | 0 <= j < |hs| && hs[j].item == h.item
      ensures hs[j].to <= h.from
    {
      assert HintBehind(base, ss, hs[j]);
    }
    forall k | 0 <= k < |ss'|
      ensures SlotAsked(hs + [h], ss'[k])
    {
      SlotsAskedStep(source, base, ss, hs, i, p, k);
    }
  }

  // ----- the requests of one call

  ghost function PosBefore(a: seq<Slot>, k: nat): nat {
    if k < |a| && a[k].Opened? then a[k].prefetchPos else 0
  }

  /** The requests that take the first `n` entries of the window from `a` to `b`: one for each file whose
      prefetch position moved, from there or from where it is read, whichever is further. */
  ghost function Requests(base: nat, a: seq<Slot>, b: seq<Slot>, n: nat): seq<Hint>
    requires n <= |b|
  {
    if n == 0 then [] else
      var s, before := b[n - 1], PosBefore(a, n - 1);
      var earlier := Requests(base, a, b, n - 1);
      if s.Opened? && s.prefetchPos != before
      then earlier + [Hint(base + n - 1, Max(s.readPos, before), s.prefetchPos)] else earlier
  }

  lemma {:induction false} RequestsAgree(base: nat, a: seq<Slot>, b: seq<Slot>, c: seq<Slot>, n: nat)
    requires n <= |b| && n <= |c| && forall k :: 0 <= k < n ==> b[k] == c[k]
    ensures Requests(base, a, b, n) == Requests(base, a, c, n)
  {
    if n > 0 { RequestsAgree(base, a, b, c, n - 1); }
  }

  /** From the `n`-th entry on, nothing was asked for yet. */
  ghost predicate QuietFrom(a: seq<Slot>, b: seq<Slot>, n: nat) {
    forall k :: n <= k < |b| && b[k].Opened? ==> b[k].prefetchPos == PosBefore(a, k)
  }

  lemma {:induction false} RequestsQuiet(base: nat, a: seq<Slot>, b: seq<Slot>, n: nat, m: nat)
    requires n <= m <= |b| && QuietFrom(a, b, n)
    ensures Requests(base, a, b, m) == Requests(base, a, b, n)
    decreases m - n
  {
    if n < m { RequestsQuiet(base, a, b, n, m - 1); }
  }

  lemma {:induction false} RequestsStep(base: nat, a: seq<Slot>, b: seq<Slot>, i: nat, s: Slot)
    requires i < |b| && QuietFrom(a, b, i) && b[i].Opened? && s.Opened?
    requires s == b[i].(prefetchPos := s.prefetchPos) && b[i].prefetchPos < s.prefetchPos
    ensures QuietFrom(a, b[i := s], i + 1)
    ensures Requests(base, a, b[i := s], i + 1) ==
      Requests(base, a, b, i) + [Hint(base + i, Max(b[i].readPos, b[i].prefetchPos), s.prefetchPos)]
  {
    RequestsAgree(base, a, b, b[i := s], i);
  }

  lemma {:induction false} SameBefore(base: nat, a: seq<Slot>, a': seq<Slot>, b: seq<Slot>, n: nat)
    requires n <= |b| && forall k: nat :: PosBefore(a, k) == PosBefore(a', k)
    ensures Requests(base, a, b, n) == Requests(base, a', b, n)
  {
    if n > 0 { SameBefore(base, a, a', b, n - 1); }
  }

  lemma {:induction false} RequestsStart(base: nat, a: seq<Slot>)
    ensures QuietFrom(a, a, 0) && Requests(base, a, a, 0) == [] && Requests(base, a, a, |a|) == []
  {
    RequestsQuiet(base, a, a, 0, |a|);
  }

  lemma {:induction false} RequestsSkip(base: nat, a: seq<Slot>, b: seq<Slot>, i: nat)
    requires i < |b| && QuietFrom(a, b, i)
    ensures QuietFrom(a, b, i + 1) && Requests(base, a, b, i + 1) == Requests(base, a, b, i)
  {
    RequestsQuiet(base, a, b, i, i + 1);
  }

  /** More files at the end of the window. */
  lemma {:induction false} RequestsOpen(base: nat, a: seq<Slot>, b: seq<Slot>, c: seq<Slot>)
    requires |a| <= |b| <= |c| && c[..|b|] == b && Fresh(c, |b|) && QuietFrom(a, b, |b|)
    ensures Requests(base, a, c, |b|) == Requests(base, a, b, |b|) && QuietFrom(a, c, |b|)
  {
    forall k | 0 <= k < |b|
      ensures b[k] == c[k]
    {
      assert c[..|b|][k] == c[k];
    }
    RequestsAgree(base, a, b, c, |b|);
  }

  /** The entries from `n` on were just opened. */
  ghost predicate Fresh(ss: seq<Slot>, n: nat) {
    forall k :: n <= k < |ss| && ss[k].Opened? ==> ss[k].prefetchPos == 0 && ss[k].readPos == 0
  }

  // ----- delivery in order

  ghost predicate AllOpen(source: seq<Item>) {
    forall i :: 0 <= i < |source| ==> source[i].ok
  }

  /** What came of one turn to the next item. It was handed out, as a reader or as its error, and an
      error may take the item behind it along; or the end was reported although the item was there. */
  datatype Turned = Delivered(item: nat, skips: bool) | GaveUp(item: nat)

  /** The item `next` turns to after `turns`. */
  ghost function NextItem(turns: seq<Turned>): nat {
    if turns == [] then 0
    else
      var last := turns[|turns| - 1];
      if last.Delivered? && last.skips then last.item + 2 else last.item + 1
  }

  /** Only an error that is not the last item takes another one along, and a turn gives up only
      where files can not be opened. */
  ghost predicate Possible(source: seq<Item>, n: Turned) {
    && n.item < |source|
    && match n
       case Delivered(d, skips) => skips ==> !source[d].ok && d + 1 < |source|
       case GaveUp(d) => AllFail(source, d)
  }

  /** `turns` were taken by a run of `next`. */
  ghost predicate Chain(source: seq<Item>, turns: seq<Turned>) {
    forall k :: 0 <= k < |turns| ==> Possible(source, turns[k]) && turns[k].item == NextItem(turns[..k])
  }

  /** None of the files that one call opens from item `d` on can be opened. */
  ghost predicate AllFail(source: seq<Item>, d: nat) {
    forall i :: d <= i < |source| && i < d + 128 ==> !source[i].ok
  }

  /** No turn gave up and no error took another item along. */
  ghost predicate NothingLost(turns: seq<Turned>) {
    forall k :: 0 <= k < |turns| ==> turns[k].Delivered? && !turns[k].skips
  }

  /** No turn gave up, and every error but that of the last item took the next one along. */
  ghost predicate Eager(source: seq<Item>, turns: seq<Turned>) {
    forall k :: 0 <= k < |turns| ==> EagerTurn(source, turns[k])
  }

  ghost predicate EagerTurn(source: seq<Item>, n: Turned) {
    n.Delivered? && n.item < |source| && (n.skips <==> !source[n.item].ok && n.item + 1 < |source|)
  }

  ghost predicate Complete(source: seq<Item>, turns: seq<Turned>) {
    |turns| == |source| && forall k :: 0 <= k < |turns| ==> turns[k] == Delivered(k, false)
  }

  lemma {:induction false} ChainInOrder(source: seq<Item>, turns: seq<Turned>, n: nat)
    requires Chain(source, turns) && n <= |turns| && NothingLost(turns)
    ensures forall k :: 0 <= k < n ==> turns[k] == Delivered(k, false)
  {
    if n > 0 {
      ChainInOrder(source, turns, n - 1);
      assert turns[n - 1].item == NextItem(turns[..n - 1]);
    }
  }

  /** A run to the end of the source delivers every item once and in order if and only if nothing
      was lost on the way. */
  lemma {:induction false} CompleteIff(source: seq<Item>, turns: seq<Turned>)
    requires Chain(source, turns) && NextItem(turns) >= |source|
    ensures Complete(source, turns) <==> NothingLost(turns)
  {
    if NothingLost(turns) {
      ChainInOrder(source, turns, |turns|);
      if turns != [] { assert turns[|turns| - 1] == Delivered(|turns| - 1, false); }
    }
  }

  /** With a budget of at least one block, that is the case if and only if every file but possibly
      the last can be opened. */
  lemma {:induction false} DeliversAllIff(source: seq<Item>, turns: seq<Turned>)
    requires Chain(source, turns) && NextItem(turns) >= |source| && Eager(source, turns)
    ensures Complete(source, turns) <==> forall i :: 0 <= i < |source| - 1 ==> source[i].ok
  {
    CompleteIff(source, turns);
    if forall i :: 0 <= i < |source| - 1 ==> source[i].ok {
      forall k | 0 <= k < |turns|
        ensures turns[k].Delivered? && !turns[k].skips
      {
        assert EagerTurn(source, turns[k]);
      }
    }
    if Complete(source, turns) {
      forall i | 0 <= i < |source| - 1
        ensures source[i].ok
      {
        assert EagerTurn(source, turns[i]) && turns[i] == Delivered(i, false);
      }
    }
  }

  class MultiFileReadahead {
    const source: seq<Item>
    var taken: nat
    var open: seq<Slot>
    var dropbehind: bool
    var budget: nat
    ghost var base: nat
    ghost var hints: seq<Hint>
    ghost var turns: seq<Turned>

    constructor (source: seq<Item>)
      ensures this.source == source && Valid() && turns == [] && InSync()
      ensures budget == 8388608 && !dropbehind
    {
      this.source, taken, open, dropbehind, budget := source, 0, [], false, DEFAULT_BUDGET;
      base, hints, turns := 0, [], [];
    }

    /** The deque is a contiguous window of the source, of bounded length. */
    ghost predicate Valid()
      reads this
    {
      && Shows(source, base, open) && taken == base + |open|
      && |open| <= 641
      && HintsOk(source, hints) && HintsBehind(base, open, hints)
    }

    /** Where the window starts once the front is discarded. */
    ghost function Cursor(): nat
      reads this
    {
      base + if open == [] then 0 else 1
    }

    ghost predicate InSync()
      reads this
    {
      && Chain(source, turns)
      && Cursor() == NextItem(turns)
    }

    method Dropbehind(v: bool)
      modifies this`dropbehind
      ensures dropbehind == v && Valid() == old(Valid()) && InSync() == old(InSync())
    {
      dropbehind := v;
    }

    method Budget(v: nat)
      modifies this`budget
      ensures budget == v && Valid() == old(Valid()) && InSync() == old(InSync())
    {
      budget := v;
    }

    /** Open up to 128 more files; false if none of them could be opened. */
    method AddFile() returns (read: bool)
      requires Valid() && |open| <= MAX_OPEN + 1
      modifies this`taken, this`open
      ensures Valid() && Window(open) == Window(old(open)) && taken <= |source|
      ensures |open| >= |old(open)| && open[..|old(open)|] == old(open)
      ensures |open| == |old(open)| + 128 || taken == |source|
      ensures |open| <= |old(open)| + 128 && (read ==> |open| > |old(open)|)
      ensures read <==> AnyOpened(open, |old(open)|)
      ensures Fresh(open, |old(open)|)
    {
      hide HintsOk, HintsBehind, Window;
      read := false;
      for n := 0 to MAX_OPEN / 4
        invariant Shows(source, base, open) && taken == base + |open|
        invariant |open| == |old(open)| + n && open[..|old(open)|] == old(open)
        invariant Window(open) == Window(old(open))
        invariant HintsBehind(base, open, hints)
        invariant read <==> AnyOpened(open, |old(open)|)
        invariant Fresh(open, |old(open)|)
      {
        if taken == |source| { break; }
        var f := source[taken];
        var slot := if f.ok then Opened(taken, 0, 0, 0, f.length) else Failed(taken);
        OpenStep(source, base, open, hints, slot);
        WindowPush(open, slot);
        OpenedPush(open, slot, |old(open)|);
        open, taken := open + [slot], taken + 1;
        if f.ok { read := true; }
      }
    }

    /** How much is prefetched but not read yet. */
    method Consumed() returns (sum: nat)
      ensures sum == Window(open)
    {
      sum := 0;
      for k := 0 to |open|
        invariant sum == Window(open[..k])
      {
        assert open[..k + 1][..k] == open[..k];
        sum := sum + Ahead(open[k]);
      }
      assert open[..|open|] == open;
    }

    /** Prefetch on behalf of the files in the window, opening more as long as budget is left:
        nothing happens while more than half of the budget is in use, otherwise the budget is
        used up to less than one block, or nothing remains to be asked for. */
    method Advance()
      requires Valid()
      modifies this`taken, this`open, this`hints
      ensures Valid() && Window(open) <= Max(old(Window(open)), budget + 65535)
      ensures Extends(old(open), open)
      ensures hints == old(hints) + Requests(base, old(open), open, |open|)
      ensures budget >= 65536 && NothingOpen(old(open)) ==> |open| >= 2 || taken == |source|
      ensures budget < 65536 ==> open == old(open)
      ensures budget < 2 * old(Window(open)) ==> open == old(open) && hints == old(hints)
      ensures budget >= 2 * old(Window(open)) ==>
        Window(open) + 65536 > budget || AllAsked(open, 513)
    {
      IdleWindow(open);
      hide Shows, HintsOk, HintsBehind, Window, Further, AllAsked, NothingLeft, Requests, QuietFrom, Fresh, NewPos;
      RequestsStart(base, open);
      ExtendsSelf(open);
      NothingAsked(open);
      var consumed := Consumed();
      var left: nat := if consumed <= budget then budget - consumed else 0;
      ghost var idle := budget >= PREFETCH_BLOCK && NothingOpen(open);
      if left < consumed { return; }
      var i := 0;
      while true
        invariant 0 <= i <= MAX_OPEN + 1
        invariant Valid() && AskedUpTo(i, old(open), old(hints))
        invariant left + Window(open) == budget || (left == 0 && budget <= Window(open) <= budget + PREFETCH_BLOCK - 1)
        invariant left < PREFETCH_BLOCK || AllAsked(open, i)
        invariant if i == 0 then open == old(open) else budget >= PREFETCH_BLOCK
        invariant idle ==> (left == budget && i <= |old(open)| && open == old(open)) || |open| >= 2 || taken == |source|
        decreases MAX_OPEN + 2 - i
      {
        if left < PREFETCH_BLOCK { break; }
        if i == |open| {
          ghost var before := open;
          var added := AddFile();
          ExtendsMore(old(open), before, open);
          AskedBehind(before, open);
          RequestsOpen(base, old(open), before, open);
          if !added { break; }
        }
        if i > MAX_OPEN { break; }
        left := AskNext(i, left, old(open), old(hints));
        i := i + 1;
      }
      RequestsQuiet(base, old(open), open, i, |open|);
    }

    /** What `hints` and the window are, before the `i`-th entry is looked at, since they were `was`. */
    ghost predicate AskedUpTo(i: nat, was: seq<Slot>, asked: seq<Hint>)
      reads this
    {
      && i <= |open| && Extends(was, open) && QuietFrom(was, open, i)
      && hints == asked + Requests(base, was, open, i)
    }

    /** Ask for more of the `i`-th file, if it is open and not asked for to its end. */
    method AskNext(i: nat, left: nat, ghost was: seq<Slot>, ghost asked: seq<Hint>) returns (left': nat)
      requires Valid() && i < |open| && left >= PREFETCH_BLOCK && AllAsked(open, i) && AskedUpTo(i, was, asked)
      modifies this`open, this`hints
      ensures Valid() && |open| == |old(open)| && AskedUpTo(i + 1, was, asked)
      ensures old(open)[i].Failed? ==> open == old(open) && left' == left
      ensures left' < 65536 || AllAsked(open, i + 1)
      ensures if Window(open) - old(Window(open)) <= left then left' + Window(open) == left + old(Window(open))
              else left' == 0 && 0 <= Window(open) - left - old(Window(open)) <= 65535
    {
      hide Shows, HintsOk, HintsBehind, Window, Further, AllAsked, NothingLeft, Requests, QuietFrom, NewPos;
      if open[i].Opened? && Max(open[i].readPos, open[i].prefetchPos) < open[i].length {
        ghost var before := open;
        left' := Prefetch(i, left);
        RequestsStep(base, was, before, i, open[i]);
        ExtendsTrans(was, before, open);
        if left' >= PREFETCH_BLOCK { AskedMore(before, open, i); }
      } else {
        left' := left;
        NothingToAsk(open, i);
        RequestsSkip(base, was, open, i);
      }
    }

    /** A read of `bytes` bytes from the current file, or a failed one. */
    method Read(bytes: Option<nat>)
      requires Valid() && InSync() && open != [] && open[0].Opened?
      modifies this`taken, this`open, this`hints
      ensures Valid() && InSync() && open != [] && open[0].Opened? && open[0].item == old(open)[0].item
      ensures open[0].readPos == old(open)[0].readPos + if bytes.Some? then bytes.value else 0
      ensures open[0].toDrop ==
        if bytes == None || !dropbehind then old(open)[0].toDrop
        else if old(open)[0].toDrop + bytes.value >= 524288 then 0 else old(open)[0].toDrop + bytes.value
      ensures Window(open) <= Max(old(Window(open)), budget + 65535)
      ensures hints == old(hints) + Requests(base, old(open), open, |open|)
      ensures budget >= 2 * Window(old(open)[0 := open[0].(prefetchPos := old(open)[0].prefetchPos)]) ==>
        Window(open) + 65536 > budget || AllAsked(open, 513)
    {
      hide Shows, HintsOk, HintsBehind, Window, Chain, NextItem, Ahead, Requests, AllAsked;
      FrontItem(source, base, open);
      var fetch := open[0];
      if bytes.Some? {
        fetch := fetch.(readPos := fetch.readPos + bytes.value);
        if dropbehind {
          fetch := fetch.(toDrop := fetch.toDrop + bytes.value);
          if fetch.toDrop >= DROPBEHIND_BLOCK {
            var dropOffset := fetch.readPos - fetch.toDrop;
            assert dropOffset >= 0;
            fetch := fetch.(toDrop := 0);
          }
        }
      }
      WindowUpdate(open, 0, fetch);
      LessAhead(open[0], fetch);
      ReadStep(source, base, open, hints, fetch);
      open := open[0 := fetch];
      ghost var before := open;
      Advance();
      assert Further(before[0], open[0]);
      assert before == old(open)[0 := open[0].(prefetchPos := old(open)[0].prefetchPos)];
      SameBefore(base, old(open), before, open, |open|);
    }

    /** Discard the current file and turn to the next one. With a budget below one block nothing is
        opened ahead: then the end is reported too early if the window is used up and none of the
        files that this call tries can be opened, and an error that empties the window takes no
        other item along. */
    method Next() returns (r: Outcome)
      requires Valid() && InSync()
      modifies this`taken, this`open, this`hints, this`base, this`turns
      ensures Valid() && InSync()
      ensures var d, short := NextItem(old(turns)), budget < 65536;
        if d >= |source| then r == Finished && turns == old(turns)
        else if short && |old(open)| <= 1 && AllFail(source, d) then r == Finished && turns == old(turns) + [GaveUp(d)]
        else r == (if source[d].ok then Reader(d) else OpenError(d))
             && turns == old(turns) + [Delivered(d, !source[d].ok && d + 1 < |source| && !(short && |old(open)| == 2))]
      ensures r.Reader? ==> open != [] && open[0].Opened? && open[0].item == r.item
      ensures Window(open) <= Max(old(Window(open)), budget + 65535)
    {
      hide Shows, HintsOk, HintsBehind, Window, Chain, NextItem, AllFail, AnyOpened;
      ghost var d := NextItem(turns);
      if open != [] {
        PopFront();
      }
      var some := FillWindow();
      if !some {
        if open != [] { TakeTurn(GaveUp(d)); }
        return Finished;
      }
      FrontItem(source, base, open);
      var front := open[0];
      TakeTurn(Delivered(d, front.Failed? && |open| > 1));
      if front.Failed? {
        PopFront();
        return OpenError(front.item);
      }
      r := Reader(front.item);
    }

    /** Prefetch, and open files if the window is empty. False if there is nothing to turn to, or
        nothing that could be opened. */
    method FillWindow() returns (some: bool)
      requires Valid()
      modifies this`taken, this`open, this`hints
      ensures Valid() && Window(open) <= Max(old(Window(open)), budget + 65535)
      ensures some <==> (base < |source| && !(old(open) == [] && budget < 65536 && AllFail(source, base)))
      ensures base <= |source| && (open == [] <==> base == |source|)
      ensures some && open[0].Failed? ==>
        (|open| > 1 <==> (base + 1 < |source| && !(budget < 65536 && |old(open)| == 1)))
      ensures old(open) != [] ==> Further(old(open)[0], open[0])
    {
      hide HintsOk, HintsBehind, Window, AllFail, AnyOpened;
      Advance();
      some := true;
      if open == [] {
        some := AddFile();
        FailedStretch(source, base, open);
      }
    }

    /** Record what came of this turn. */
    ghost method TakeTurn(n: Turned)
      requires Chain(source, turns) && n.item == NextItem(turns) && Possible(source, n)
      modifies this`turns
      ensures turns == old(turns) + [n] && Chain(source, turns)
      ensures NextItem(turns) == if n.Delivered? && n.skips then n.item + 2 else n.item + 1
    {
      ChainStep(source, turns, n);
      turns := turns + [n];
    }

    method PopFront()
      requires Valid() && open != []
      modifies this`open, this`base
      ensures Valid() && base == old(base) + 1 && open == old(open)[1..] && base + |open| <= |source|
      ensures Window(open) <= old(Window(open))
    {
      hide Shows, HintsOk, HintsBehind, Window;
      PopStep(source, base, open, hints);
      open, base := open[1..], base + 1;
    }

    /** One request for the `i`-th open file. */
    method Prefetch(i: nat, left: nat) returns (left': nat)
      requires Valid() && i < |open| && open[i].Opened?
      requires Max(open[i].readPos, open[i].prefetchPos) < open[i].length && left >= PREFETCH_BLOCK
      modifies this`open, this`hints
      ensures Valid() && open == old(open)[i := old(open)[i].(prefetchPos := NewPos(old(open)[i], left))]
      ensures Extends(old(open), open) && Max(old(open)[i].readPos, old(open)[i].prefetchPos) < open[i].prefetchPos
      ensures hints ==
        old(hints) + [Hint(base + i, Max(old(open)[i].readPos, old(open)[i].prefetchPos), open[i].prefetchPos)]
      ensures left' < 65536 || NothingLeft(open[i])
      ensures if Window(open) - old(Window(open)) <= left then left' + Window(open) == left + old(Window(open))
              else left' == 0 && 0 <= Window(open) - left - old(Window(open)) <= 65535
    {
      hide Shows, HintsOk, HintsBehind, Window;
      var p := open[i];
      var oldPos := Max(p.readPos, p.prefetchPos);
      var internalBudget := RoundDown(left);
      var prefetchLength := Min(p.length - oldPos, internalBudget);
      var newPos := RoundUp(oldPos + prefetchLength);
      newPos := Min(p.length, newPos);
      NewPosBounds(p, left);
      prefetchLength := newPos - oldPos;
      HintStep(source, base, open, hints, i, newPos);
      WindowUpdate(open, i, p.(prefetchPos := newPos));
      hints := hints + [Hint(base + i, oldPos, newPos)];
      left' := if prefetchLength <= left then left - prefetchLength else 0;
      open := open[i := p.(prefetchPos := newPos)];
    }
  }

  // ----- whole sessions

  /** What a user of the window may do; a read needs a file delivered before. */
  datatype Op = ReadBytes(bytes: Option<nat>) | SetBudget(v: nat) | SetDropbehind(drop: bool) | Turn

  /** No budget below one block, or no file that fails to open. */
  ghost predicate Sensible(source: seq<Item>, ops: seq<Op>) {
    AllOpen(source) || forall k :: 0 <= k < |ops| && ops[k].SetBudget? ==> ops[k].v >= 65536
  }

  /** Any interleaving of reads, changes of the settings and turns to the next file delivers along
      the chain of items. The end is reported only where the chain ends or a turn gave up, and no
      turn gives up unless the budget was set below one block and a file fails to open. */
  method Session(source: seq<Item>, ops: seq<Op>) returns (items: seq<nat>, finished: bool, ghost turns: seq<Turned>)
    ensures Chain(source, turns) && items == Items(turns)
    ensures finished ==> NextItem(turns) >= |source| || GaveUpOnce(turns)
    ensures Sensible(source, ops) ==> Eager(source, turns) && !GaveUpOnce(turns)
    ensures AllOpen(source) ==> forall k :: 0 <= k < |items| ==> items[k] == k
    ensures AllOpen(source) && finished ==> Complete(source, turns) && |items| == |source|
  {
    hide Chain, NextItem, NothingLost, GaveUpOnce, AllFail, AllOpen, Eager, EagerTurn, Items;
    var window := new MultiFileReadahead(source);
    var reading := false;
    turns, items, finished := [], [], false;
    NoTurns(source);
    for i := 0 to |ops|
      invariant fresh(window) && window.source == source && window.Valid() && window.InSync()
      invariant window.turns == turns && items == Items(turns)
      invariant Sensible(source, ops) ==> Eager(source, turns)
      invariant Sensible(source, ops) ==> window.budget >= PREFETCH_BLOCK || AllOpen(source)
      invariant reading ==> window.open != [] && window.open[0].Opened?
      invariant finished ==> NextItem(turns) >= |source| || GaveUpOnce(turns)
    {
      match ops[i]
      case ReadBytes(bytes) =>
        if reading { window.Read(bytes); }
      case SetBudget(v) =>
        window.Budget(v);
      case SetDropbehind(drop) =>
        window.Dropbehind(drop);
      case Turn =>
        ghost var d := NextItem(turns);
        var r := window.Next();
        if |window.turns| > |turns| {
          TurnsPush(source, turns, window.turns[|turns|]);
          IsEagerTurn(source, d, window.turns[|turns|]);
        }
        reading := r.Reader?;
        if r.Finished? {
          finished := true;
        } else {
          items := items + [r.item];
        }
        turns := window.turns;
    }
    EagerFacts(source, turns);
    if AllOpen(source) {
      assert Sensible(source, ops);
      InOrder(source, turns);
      if finished { CompleteIff(source, turns); }
    }
  }

  /** The items handed out. */
  function Items(turns: seq<Turned>): seq<nat> {
    if turns == [] then [] else
      var last := turns[|turns| - 1];
      Items(turns[..|turns| - 1]) + if last.Delivered? then [last.item] else []
  }

  ghost predicate GaveUpOnce(turns: seq<Turned>) {
    exists k :: 0 <= k < |turns| && turns[k].GaveUp?
  }

  lemma {:induction false} NoTurns(source: seq<Item>)
    ensures Eager(source, []) && Items([]) == []
  {
  }

  lemma {:induction false} TurnsPush(source: seq<Item>, turns: seq<Turned>, n: Turned)
    ensures Eager(source, turns + [n]) <==> Eager(source, turns) && EagerTurn(source, n)
    ensures GaveUpOnce(turns + [n]) <==> GaveUpOnce(turns) || n.GaveUp?
    ensures Items(turns + [n]) == Items(turns) + if n.Delivered? then [n.item] else []
  {
    hide EagerTurn;
    assert (turns + [n])[..|turns|] == turns;
    assert (turns + [n])[|turns|] == n;
    forall k | 0 <= k < |turns|
      ensures (turns + [n])[k] == turns[k]
    {
    }
  }

  /** A turn whose error takes the next item along, if there is one, is eager. */
  lemma {:induction false} IsEagerTurn(source: seq<Item>, d: nat, n: Turned)
    ensures d < |source| && n == Delivered(d, !source[d].ok && d + 1 < |source|) ==> EagerTurn(source, n)
    ensures d < |source| && AllOpen(source) ==> source[d].ok && !AllFail(source, d)
  {
  }

  lemma {:induction false} EagerFacts(source: seq<Item>, turns: seq<Turned>)
    ensures Eager(source, turns) ==> !GaveUpOnce(turns)
    ensures Eager(source, turns) && AllOpen(source) ==> NothingLost(turns)
  {
    forall k | 0 <= k < |turns| && Eager(source, turns)
      ensures turns[k].Delivered? && (AllOpen(source) ==> !turns[k].skips)
    {
      assert EagerTurn(source, turns[k]);
    }
  }

  lemma {:induction false} InOrder(source: seq<Item>, turns: seq<Turned>)
    requires Chain(source, turns) && NothingLost(turns)
    ensures |Items(turns)| == |turns| && forall k :: 0 <= k < |turns| ==> Items(turns)[k] == k
  {
    hide Chain;
    ChainInOrder(source, turns, |turns|);
    ItemsOf(turns);
  }

  lemma {:induction false} ItemsOf(turns: seq<Turned>)
    requires NothingLost(turns)
    ensures |Items(turns)| == |turns| && forall k :: 0 <= k < |turns| ==> Items(turns)[k] == turns[k].item
  {
    if turns != [] { ItemsOf(turns[..|turns| - 1]); }
  }

  /** With a budget of 0 and 128 files that cannot be opened in front of one that can, the first
      call reports the end: the last file is never reached by a caller that stops there. */
  method EarlyEnd() returns (r: Outcome, ghost turns: seq<Turned>)
    ensures r == Finished && turns == [GaveUp(0)]
  {
    var source := seq(128, _ => Item(false, 0)) + [Item(true, 5)];
    var window := new MultiFileReadahead(source);
    window.Budget(0);
    assert AllFail(source, 0) && |window.open| <= 1 && NextItem([]) == 0;
    r := window.Next();
    turns := window.turns;
  }

  /** Files of which the first cannot be opened: the two first calls report that error and deliver the
      third file, and no later turn comes back to the second one. */
  method ErrorSkipsNext(source: seq<Item>) returns (first: Outcome, second: Outcome, ghost turns: seq<Turned>)
    requires |source| >= 3 && !source[0].ok
    ensures first == OpenError(0) && second == if source[2].ok then Reader(2) else OpenError(2)
    ensures |turns| == 2 && turns[0] == Delivered(0, true) && turns[1].item == 2
    ensures forall later :: turns <= later && Chain(source, later) ==> NeverDelivered(later, 1)
  {
    var window := new MultiFileReadahead(source);
    assert NextItem([]) == 0;
    first := window.Next();
    assert window.turns == [Delivered(0, true)] && NextItem(window.turns) == 2;
    second := window.Next();
    turns := window.turns;
    hide Chain, NextItem, NeverDelivered, AllFail, HintsBehind, HintsOk, Shows;
    forall later: seq<Turned> | turns <= later && Chain(source, later)
      ensures NeverDelivered(later, 1)
    {
      PassedOver(source, turns, later);
    }
  }

  lemma {:induction false} PassedOver(source: seq<Item>, turns: seq<Turned>, later: seq<Turned>)
    requires |turns| == 2 && turns[0].item == 0 && turns[1].item == 2
    requires turns <= later && Chain(source, later)
    ensures NeverDelivered(later, 1)
  {
    hide Chain;
    forall k | 0 <= k < |later|
      ensures later[k].item != 1
    {
      if k > 1 { LaterTurn(source, later, 1, k); }
    }
  }

  ghost predicate NeverDelivered(turns: seq<Turned>, item: nat) {
    forall k :: 0 <= k < |turns| ==> turns[k].item != item
  }

  /** Items come in order. */
  lemma {:induction false} LaterTurn(source: seq<Item>, turns: seq<Turned>, j: nat, k: nat)
    requires Chain(source, turns) && j < k < |turns|
    ensures turns[j].item < turns[k].item
    decreases k
  {
    assert turns[k].item == NextItem(turns[..k]);
    NextIsLater(turns[..k]);
    hide Chain, NextItem;
    if j + 1 < k { LaterTurn(source, turns, j, k - 1); }
  }

  lemma {:induction false} NextIsLater(turns: seq<Turned>)
    requires turns != []
    ensures turns[|turns| - 1].item < NextItem(turns)
  {
  }

  lemma {:induction false} ReadStep(source: seq<Item>, base: nat, ss: seq<Slot>, hs: seq<Hint>, s: Slot)
    requires Shows(source, base, ss) && HintsBehind(base, ss, hs) && ss != [] && ss[0].Opened?
    requires s.Opened? && s == ss[0].(readPos := s.readPos, toDrop := s.toDrop)
    requires s.toDrop <= s.readPos && ss[0].readPos <= s.readPos
    ensures Shows(source, base, ss[0 := s]) && HintsBehind(base, ss[0 := s], hs)
  {
    var ss' := ss[0 := s];
    forall k | 0 <= k < |ss'|
      ensures SlotOk(source, base + k, ss'[k])
    {
      assert SlotOk(source, base + k, ss[k]);
    }
    forall k | 0 <= k < |hs|
      ensures HintBehind(base, ss[0 := s], hs[k])
    {
      assert HintBehind(base, ss, hs[k]);
    }
    forall k | 0 <= k < |ss'|
      ensures SlotAsked(hs, ss'[k])
    {
      assert SlotAsked(hs, ss[k]);
    }
  }

  lemma {:induction false} LessAhead(a: Slot, b: Slot)
    requires a.Opened? && b.Opened? && a.prefetchPos == b.prefetchPos && a.readPos <= b.readPos
    ensures Ahead(b) <= Ahead(a)
  {
  }

  lemma {:induction false} PopStep(source: seq<Item>, base: nat, ss: seq<Slot>, hs: seq<Hint>)
    requires Shows(source, base, ss) && HintsBehind(base, ss, hs) && ss != []
    ensures Shows(source, base + 1, ss[1..]) && HintsBehind(base + 1, ss[1..], hs) && base + |ss| <= |source|
    ensures Window(ss[1..]) <= Window(ss)
  {
    forall k | 0 <= k < |ss[1..]|
      ensures SlotOk(source, base + 1 + k, ss[1..][k])
    {
      assert SlotOk(source, base + (k + 1), ss[k + 1]);
    }
    forall k | 0 <= k < |hs|
      ensures HintBehind(base + 1, ss[1..], hs[k])
    {
      assert HintBehind(base, ss, hs[k]);
    }
    forall k | 0 <= k < |ss[1..]|
      ensures SlotAsked(hs, ss[1..][k])
    {
      assert SlotAsked(hs, ss[k + 1]);
    }
    WindowPop(ss);
  }

  lemma {:induction false} WindowPop(ss: seq<Slot>)
    requires ss != []
    ensures Window(ss) == Ahead(ss[0]) + Window(ss[1..])
    decreases |ss|
  {
    if |ss| > 1 {
      WindowPop(ss[..|ss| - 1]);
      assert ss[..|ss| - 1][1..] == ss[1..][..|ss| - 2];
    } else {
      assert ss[..0] == [] && ss[1..] == [];
    }
  }

  lemma {:induction false} FrontItem(source: seq<Item>, base: nat, ss: seq<Slot>)
    requires Shows(source, base, ss) && ss != []
    ensures base < |source| && ss[0].item == base && (ss[0].Opened? <==> source[base].ok)
    ensures ss[0].Opened? ==> ss[0].toDrop <= ss[0].readPos
  {
    assert SlotOk(source, base + 0, ss[0]);
  }

  lemma {:induction false} ChainStep(source: seq<Item>, turns: seq<Turned>, n: Turned)
    requires Chain(source, turns) && n.item == NextItem(turns) && Possible(source, n)
    ensures Chain(source, turns + [n])
    ensures NextItem(turns + [n]) == if n.Delivered? && n.skips then n.item + 2 else n.item + 1
  {
    hide Possible;
    forall k | 0 <= k < |turns + [n]|
      ensures Possible(source, (turns + [n])[k]) && (turns + [n])[k].item == NextItem((turns + [n])[..k])
    {
      assert (turns + [n])[..k] == if k < |turns| then turns[..k] else turns;
    }
  }

  /** A window filled by one call holds an open file unless all the call tried fail. */
  lemma {:induction false} FailedStretch(source: seq<Item>, base: nat, ss: seq<Slot>)
    requires Shows(source, base, ss) && base <= |source|
    requires |ss| <= MAX_OPEN / 4 && (|ss| == MAX_OPEN / 4 || base + |ss| == |source|)
    ensures AnyOpened(ss, 0) <==> !AllFail(source, base)
    ensures base < |source| <==> ss != []
  {
    forall k | 0 <= k < |ss|
      ensures ss[k].Opened? <==> source[base + k].ok
    {
      assert SlotOk(source, base + k, ss[k]);
    }
    if !AllFail(source, base) {
      var i :| base <= i < |source| && i < base + MAX_OPEN / 4 && source[i].ok;
      assert ss[i - base].Opened?;
    }
  }

  /** At most one entry, and not an open file. */
  ghost predicate NothingOpen(ss: seq<Slot>) {
    ss == [] || (|ss| == 1 && ss[0].Failed?)
  }

  lemma {:induction false} IdleWindow(ss: seq<Slot>)
    ensures NothingOpen(ss) ==> Window(ss) == 0
  {
    if NothingOpen(ss) && ss != [] { assert ss[..0] == []; }
  }

  /** The same entries, possibly prefetched further, and new ones behind them. */
  ghost predicate Extends(a: seq<Slot>, b: seq<Slot>) {
    |a| <= |b| && forall k :: 0 <= k < |a| ==> Further(a[k], b[k])
  }

  ghost predicate Further(a: Slot, b: Slot) {
    a == b || (a.Opened? && b.Opened? && a.prefetchPos <= b.prefetchPos && b == a.(prefetchPos := b.prefetchPos))
  }

  lemma {:induction false} ExtendsSelf(a: seq<Slot>)
    ensures Extends(a, a)
  {
  }

  lemma {:induction false} ExtendsTrans(a: seq<Slot>, b: seq<Slot>, c: seq<Slot>)
    requires Extends(a, b) && Extends(b, c)
    ensures Extends(a, c)
  {
    forall k | 0 <= k < |a|
      ensures Further(a[k], c[k])
    {
      assert Further(a[k], b[k]) && Further(b[k], c[k]);
    }
  }

  lemma {:induction false} ExtendsMore(a: seq<Slot>, b: seq<Slot>, c: seq<Slot>)
    requires Extends(a, b) && |b| <= |c| && c[..|b|] == b
    ensures Extends(a, c)
  {
    forall k | 0 <= k < |a|
      ensures Further(a[k], c[k])
    {
      assert c[k] == c[..|b|][k] == b[k];
    }
  }

  lemma {:induction false} OpenStep(source: seq<Item>, base: nat, ss: seq<Slot>, hs: seq<Hint>, s: Slot)
    requires Shows(source, base, ss) && HintsBehind(base, ss, hs)
    requires SlotOk(source, base + |ss|, s) && (s.Opened? ==> s.prefetchPos == 0)
    ensures Shows(source, base, ss + [s]) && HintsBehind(base, ss + [s], hs)
  {
    forall k | 0 <= k < |hs|
      ensures hs[k].item != s.item
    {
      assert HintBehind(base, ss, hs[k]);
    }
    NeverAsked(hs, s.item);
    forall k | 0 <= k < |ss + [s]|
      ensures SlotAsked(hs, (ss + [s])[k])
    {
      if k < |ss| { assert SlotAsked(hs, ss[k]); }
    }
    forall k | 0 <= k < |hs|
      ensures HintBehind(base, ss + [s], hs[k])
    {
      assert HintBehind(base, ss, hs[k]);
    }
  }
}
