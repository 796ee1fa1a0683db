/** The page framing of LZO compressed btrfs extents (rust-btrfs/src/diskformat/compression.rs). */
module Lzo {
  import opened Basics

  const PAGE: nat := 0x1000

  datatype Result<T> = Ok(value: T) | Corrupt(code: nat) | InflateFailed

  /** A compressed segment: where its bytes start and how many they are. */
  datatype Slice = Slice(start: nat, len: nat)

  /** The segments found, and the corruption that ended the search, if any. */
  datatype Parsed = Parsed(segments: seq<Slice>, corruption: Option<nat>)

  function ReadU32(raw: Bytes, pos: nat): nat
    requires pos + 4 <= |raw|
  {
    raw[pos] as int + 0x100 * raw[pos + 1] as int + 0x1_0000 * raw[pos + 2] as int + 0x100_0000 * raw[pos + 3] as int
  }

  function WriteU32(n: nat): (r: Bytes)
    requires n < 0x1_0000_0000
    ensures |r| == 4
  {
    [(n % 0x100) as byte, (n / 0x100 % 0x100) as byte, (n / 0x1_0000 % 0x100) as byte, (n / 0x100_0000) as byte]
  }

  lemma {:induction false} Digits(n: nat)
    ensures n == n % 0x100 + 0x100 * (n / 0x100 % 0x100) + 0x1_0000 * (n / 0x1_0000 % 0x100)
                 + 0x100_0000 * (n / 0x100_0000)
  {
    assert n / 0x1_0000 == n / 0x100 / 0x100;
    assert n / 0x100_0000 == n / 0x1_0000 / 0x100;
  }

  lemma {:induction false} ReadBack(raw: Bytes, pos: nat, n: nat)
    requires n < 0x1_0000_0000 && pos + 4 <= |raw| && raw[pos..pos + 4] == WriteU32(n)
    ensures ReadU32(raw, pos) == n
  {
    var w := WriteU32(n);
    assert raw[pos] == w[0] && raw[pos + 1] == w[1] && raw[pos + 2] == w[2] && raw[pos + 3] == w[3];
    Digits(n);
  }

  /** Bytes to skip so that a length word does not cross a page boundary. */
  function Padding(pos: nat): nat {
    if PAGE - pos % PAGE < 4 then PAGE - pos % PAGE else 0
  }

  /** The segments from `pos` on. */
  function Parse(raw: Bytes, total: nat, pos: nat): Parsed
    requires total <= |raw|
    decreases total - pos
  {
    if pos >= total then Parsed([], None)
    else if pos + Padding(pos) > total then Parsed([], Some(2))
    else
      var p := pos + Padding(pos);
      if p == total then Parsed([], None)
      else if p + 4 > total then Parsed([], Some(3))
      else
        var len := ReadU32(raw, p);
        if p + 4 + len > total then Parsed([], Some(4))
        else
          var rest := Parse(raw, total, p + 4 + len);
          Parsed([Slice(p + 4, len)] + rest.segments, rest.corruption)
  }

  /** Every segment lies within the declared size, behind its length word, which lies in one
      page; the segments follow each other without overlap. */
  ghost predicate Framed(segments: seq<Slice>, pos: nat, total: nat) {
    forall k :: 0 <= k < |segments| ==> FramedAt(segments, pos, total, k)
  }

  ghost predicate FramedAt(segments: seq<Slice>, pos: nat, total: nat, k: nat)
    requires k < |segments|
  {
    && segments[k].start + segments[k].len <= total
    && (if k == 0 then pos else segments[k - 1].start + segments[k - 1].len) + 4 <= segments[k].start
    && (segments[k].start - 4) / PAGE == (segments[k].start - 1) / PAGE
  }

  lemma {:induction false} PaddingInOnePage(pos: nat)
    ensures (pos + Padding(pos)) / PAGE == (pos + Padding(pos) + 3) / PAGE
  {
  }

  /** Padding is made exactly where the word would cross a page of 4096 bytes, up to its end. */
  lemma {:induction false} PaddingIs(pos: nat)
    ensures Padding(pos) == if pos / 4096 == (pos + 3) / 4096 then 0 else (pos / 4096 + 1) * 4096 - pos
  {
  }

  /** One step of the parse, on bytes and numbers: where the length word stands, that it is little-endian,
      and which corruption is found. */
  lemma {:induction false} ParseAt(raw: Bytes, total: nat, pos: nat)
    requires total <= |raw|
    ensures var p := if pos / 4096 == (pos + 3) / 4096 then pos else (pos / 4096 + 1) * 4096;
      Parse(raw, total, pos) ==
        if pos >= total || p == total then Parsed([], None)
        else if p > total then Parsed([], Some(2))
        else if total - p < 4 then Parsed([], Some(3))
        else
          var len := raw[p] as int + 256 * raw[p + 1] as int + 65536 * raw[p + 2] as int + 16777216 * raw[p + 3] as int;
          if p + 4 + len > total then Parsed([], Some(4))
          else
            var rest := Parse(raw, total, p + 4 + len);
            Parsed([Slice(p + 4, len)] + rest.segments, rest.corruption)
  {
    PaddingIs(pos);
    hide Padding;
  }

  lemma {:induction false} ParseFramed(raw: Bytes, total: nat, pos: nat)
    requires total <= |raw|
    ensures Framed(Parse(raw, total, pos).segments, pos, total)
    decreases total - pos
  {
    hide Parse, ReadU32, Padding, Framed;
    if SegmentAt(raw, total, pos) {
      ParseStep(raw, total, pos);
      var p := pos + Padding(pos) + 4;
      var len := ReadU32(raw, p - 4);
      ParseFramed(raw, total, p + len);
      FramedMore(Slice(p, len), Parse(raw, total, p + len).segments, pos, total);
    } else {
      ParseStops(raw, total, pos);
    }
  }

  /** A complete segment begins at `pos`. */
  predicate SegmentAt(raw: Bytes, total: nat, pos: nat)
    requires total <= |raw|
  {
    && pos < total && pos + Padding(pos) + 4 <= total
    && pos + Padding(pos) + 4 + ReadU32(raw, pos + Padding(pos)) <= total
  }

  lemma {:induction false} ParseStep(raw: Bytes, total: nat, pos: nat)
    requires total <= |raw| && SegmentAt(raw, total, pos)
    ensures var p := pos + Padding(pos) + 4;
      var len := ReadU32(raw, p - 4);
      var rest := Parse(raw, total, p + len);
      Parse(raw, total, pos) == Parsed([Slice(p, len)] + rest.segments, rest.corruption)
  {
  }

  lemma {:induction false} ParseStops(raw: Bytes, total: nat, pos: nat)
    requires total <= |raw| && !SegmentAt(raw, total, pos)
    ensures Parse(raw, total, pos).segments == [] && Framed([], pos, total)
  {
    hide ReadU32;
  }

  lemma {:induction false} FramedMore(s: Slice, rest: seq<Slice>, pos: nat, total: nat)
    requires s.start == pos + Padding(pos) + 4 && s.start + s.len <= total
    requires Framed(rest, s.start + s.len, total)
    ensures Framed([s] + rest, pos, total)
  {
    PaddingInOnePage(pos);
    var segments := [s] + rest;
    forall k | 0 <= k < |segments|
      ensures FramedAt(segments, pos, total, k)
    {
      if k > 0 { assert FramedAt(rest, s.start + s.len, total, k - 1); }
    }
  }

  // ----- decompression

  /** The concatenated contents of the segments, if all of them decompress. */
  function Inflate(raw: Bytes, segments: seq<Slice>, inflate: Bytes -> Option<Bytes>): Option<Bytes>
    requires forall k :: 0 <= k < |segments| ==> segments[k].start + segments[k].len <= |raw|
  {
    if segments == [] then Some([])
    else
      var last := segments[|segments| - 1];
      var before := Inflate(raw, segments[..|segments| - 1], inflate);
      var page := inflate(raw[last.start..last.start + last.len]);
      if before.Some? && page.Some? then Some(before.value + page.value) else None
  }

  lemma {:induction false} InflatePrefix(raw: Bytes, segments: seq<Slice>, n: nat, inflate: Bytes -> Option<Bytes>)
    requires forall k :: 0 <= k < |segments| ==> segments[k].start + segments[k].len <= |raw|
    requires n <= |segments| && Inflate(raw, segments[..n], inflate) == None
    ensures Inflate(raw, segments, inflate) == None
    decreases |segments|
  {
    if n < |segments| {
      assert segments[..|segments| - 1][..n] == segments[..n];
      InflatePrefix(raw, segments[..|segments| - 1], n, inflate);
    } else {
      assert segments[..n] == segments;
    }
  }

  lemma {:induction false} ParsedInRange(raw: Bytes, total: nat)
    requires total <= |raw|
    ensures forall k :: 0 <= k < |Parse(raw, total, 4).segments| ==>
      Parse(raw, total, 4).segments[k].start + Parse(raw, total, 4).segments[k].len <= |raw|
  {
    ParseFramed(raw, total, 4);
    var segments := Parse(raw, total, 4).segments;
    forall k | 0 <= k < |segments|
      ensures segments[k].start + segments[k].len <= |raw|
    {
      assert FramedAt(segments, 4, total, k);
    }
  }

  /** Decompression in terms of the segments. */
  function Expected(raw: Bytes, inflate: Bytes -> Option<Bytes>): Result<Bytes> {
    if |raw| < 4 then Corrupt(0)
    else if |raw| < ReadU32(raw, 0) then Corrupt(1)
    else
      var total := ReadU32(raw, 0);
      var parsed := Parse(raw, total, 4);
      ParsedInRange(raw, total);
      var out := Inflate(raw, parsed.segments, inflate);
      if out == None then InflateFailed
      else if parsed.corruption.Some? then Corrupt(parsed.corruption.value)
      else Ok(out.value)
  }

  lemma {:induction false} ParseCodes(raw: Bytes, total: nat, pos: nat)
    requires total <= |raw|
    ensures Parse(raw, total, pos).corruption in {None, Some(2), Some(3), Some(4)}
    decreases total - pos
  {
    if SegmentAt(raw, total, pos) {
      ParseStep(raw, total, pos);
      ParseCodes(raw, total, pos + Padding(pos) + 4 + ReadU32(raw, pos + Padding(pos)));
    }
  }

  /** The first two codes are about the header, a little-endian word with the total size. */
  lemma {:induction false} HeaderCodes(raw: Bytes, inflate: Bytes -> Option<Bytes>)
    ensures Expected(raw, inflate) == Corrupt(0) <==> |raw| < 4
    ensures |raw| >= 4 ==>
      (Expected(raw, inflate) == Corrupt(1) <==>
       |raw| < raw[0] as int + 256 * raw[1] as int + 65536 * raw[2] as int + 16777216 * raw[3] as int)
  {
    if |raw| >= 4 && |raw| >= ReadU32(raw, 0) { ParseCodes(raw, ReadU32(raw, 0), 4); }
    hide Parse, Inflate;
  }

  ghost predicate Inflates(raw: Bytes, s: Slice, inflate: Bytes -> Option<Bytes>) {
    s.start + s.len <= |raw| && inflate(raw[s.start..s.start + s.len]).Some?
  }

  ghost predicate AllInflate(raw: Bytes, segments: seq<Slice>, inflate: Bytes -> Option<Bytes>) {
    forall k :: 0 <= k < |segments| ==> Inflates(raw, segments[k], inflate)
  }

  lemma {:induction false} InflatesIff(raw: Bytes, segments: seq<Slice>, inflate: Bytes -> Option<Bytes>)
    requires forall k :: 0 <= k < |segments| ==> segments[k].start + segments[k].len <= |raw|
    ensures Inflate(raw, segments, inflate).Some? <==> AllInflate(raw, segments, inflate)
    decreases |segments|
  {
    if segments != [] {
      var init, last := segments[..|segments| - 1], segments[|segments| - 1];
      InflatesIff(raw, init, inflate);
      assert forall k :: 0 <= k < |init| ==> segments[k] == init[k];
      assert Inflates(raw, last, inflate) <==> inflate(raw[last.start..last.start + last.len]).Some?;
    }
  }

  /** Behind a sound header: a segment that does not decompress is an error of its own, which comes first
      because it stands in front; then the corruption the segments end with; contents only without both. */
  lemma {:induction false} ResultMeans(raw: Bytes, inflate: Bytes -> Option<Bytes>)
    requires |raw| >= 4 && |raw| >= ReadU32(raw, 0)
    ensures var parsed, r := Parse(raw, ReadU32(raw, 0), 4), Expected(raw, inflate);
      && (r == InflateFailed <==> !AllInflate(raw, parsed.segments, inflate))
      && (r != InflateFailed && parsed.corruption.Some? ==> r == Corrupt(parsed.corruption.value))
      && (r != InflateFailed && parsed.corruption == None ==> r.Ok?)
  {
    hide Parse, Inflate, AllInflate, ReadU32;
    ParsedInRange(raw, ReadU32(raw, 0));
    InflatesIff(raw, Parse(raw, ReadU32(raw, 0), 4).segments, inflate);
  }

  /** What one turn of the loop finds. */
  datatype Turn = End | Broken(code: nat) | Segment(slice: Slice)

  /** Skip to the next page if the length word would not fit, then read it. */
  method NextSegment(raw: Bytes, total: nat, position: nat) returns (t: Turn)
    requires total <= |raw| && position < total
    ensures match t
      case End => Parse(raw, total, position) == Parsed([], None)
      case Broken(code) => Parse(raw, total, position) == Parsed([], Some(code))
      case Segment(s) =>
        && position < s.start && s.start + s.len <= total
        && var rest := Parse(raw, total, s.start + s.len);
           Parse(raw, total, position) == Parsed([s] + rest.segments, rest.corruption)
  {
    var p := position;
    var bytesLeft := PAGE - p % PAGE;
    if bytesLeft < 4 {
      if p + bytesLeft > total { return Broken(2); }
      p := p + bytesLeft;
    }
    if p == total { return End; }
    if p + 4 > total { return Broken(3); }
    var len := ReadU32(raw, p);
    p := p + 4;
    if p + len > total { return Broken(4); }
    t := Segment(Slice(p, len));
  }

  lemma {:induction false} InflatePush(raw: Bytes, before: seq<Slice>, s: Slice, inflate: Bytes -> Option<Bytes>)
    requires forall k :: 0 <= k < |before| ==> before[k].start + before[k].len <= |raw|
    requires s.start + s.len <= |raw|
    ensures var page := inflate(raw[s.start..s.start + s.len]);
      var old_ := Inflate(raw, before, inflate);
      Inflate(raw, before + [s], inflate) ==
        (if old_.Some? && page.Some? then Some(old_.value + page.value) else None)
  {
    assert (before + [s])[..|before|] == before;
  }

  lemma {:induction false} PrefixPush<T>(all: seq<T>, n: nat)
    requires n < |all|
    ensures all[..n + 1] == all[..n] + [all[n]]
    ensures all[n..][0] == all[n] && all[n..][1..] == all[n + 1..]
  {
  }

  method DecompressPages(raw: Bytes, inflate: Bytes -> Option<Bytes>) returns (r: Result<Bytes>)
    ensures r == Expected(raw, inflate)
  {
    hide Parse, Inflate;
    var buffer: Bytes := [];
    if |raw| < 4 { return Corrupt(0); }
    var total := ReadU32(raw, 0);
    if |raw| < total { return Corrupt(1); }
    var position := 4;
    ghost var all, n := Parse(raw, total, 4), 0;
    ParsedInRange(raw, total);
    Nothing(raw, total, inflate);
    while position < total
      invariant position >= 4 && n <= |all.segments|
      invariant Parse(raw, total, position) == Parsed(all.segments[n..], all.corruption)
      invariant Inflate(raw, all.segments[..n], inflate) == Some(buffer)
      decreases total - position
    {
      var turn := NextSegment(raw, total, position);
      if turn.Segment? {
        var s := turn.slice;
        PrefixPush(all.segments, n);
        InflatePush(raw, all.segments[..n], s, inflate);
        var page := inflate(raw[s.start..s.start + s.len]);
        if page == None {
          InflatePrefix(raw, all.segments, n + 1, inflate);
          return InflateFailed;
        }
        buffer, position, n := buffer + page.value, s.start + s.len, n + 1;
      } else {
        assert all.segments[..n] == all.segments;
        return if turn.Broken? then Corrupt(turn.code) else Ok(buffer);
      }
    }
    AtEnd(raw, total, position);
    assert all.segments[..n] == all.segments;
    r := Ok(buffer);
  }

  lemma {:induction false} Nothing(raw: Bytes, total: nat, inflate: Bytes -> Option<Bytes>)
    requires total <= |raw|
    ensures Inflate(raw, Parse(raw, total, 4).segments[..0], inflate) == Some([])
    ensures Parse(raw, total, 4).segments[0..] == Parse(raw, total, 4).segments
  {
  }

  lemma {:induction false} AtEnd(raw: Bytes, total: nat, position: nat)
    requires total <= |raw| && position >= total
    ensures Parse(raw, total, position) == Parsed([], None)
  {
  }

  // ----- the format

  /** Zero bytes up to the next page if the length word would cross its boundary. */
  function Pad(pos: nat): Bytes {
    seq(Padding(pos), _ => 0 as byte)
  }

  function SizeAt(segs: seq<Bytes>, pos: nat): nat {
    if segs == [] then 0 else Padding(pos) + 4 + |segs[0]| + SizeAt(segs[1..], pos + Padding(pos) + 4 + |segs[0]|)
  }

  /** The segments laid out from `pos` on, each after its length. */
  ghost function Layout(segs: seq<Bytes>, pos: nat): (r: Bytes)
    requires forall k :: 0 <= k < |segs| ==> |segs[k]| < 0x1_0000_0000
    ensures |r| == SizeAt(segs, pos)
  {
    if segs == [] then [] else
      Pad(pos) + WriteU32(|segs[0]|) + segs[0] + Layout(segs[1..], pos + Padding(pos) + 4 + |segs[0]|)
  }

  /** The whole extent: its total size first. */
  ghost function Encode(segs: seq<Bytes>): Bytes
    requires forall k :: 0 <= k < |segs| ==> |segs[k]| < 0x1_0000_0000
    requires 4 + SizeAt(segs, 4) < 0x1_0000_0000
  {
    WriteU32(4 + SizeAt(segs, 4)) + Layout(segs, 4)
  }

  /** The slices of `raw` are exactly the segments. */
  ghost predicate Holds(raw: Bytes, slices: seq<Slice>, segs: seq<Bytes>) {
    |slices| == |segs| && forall k :: 0 <= k < |slices| ==>
      slices[k].start + slices[k].len <= |raw| && raw[slices[k].start..slices[k].start + slices[k].len] == segs[k]
  }

  lemma {:induction false} SubSlice<T>(s: seq<T>, lo: nat, hi: nat, i: nat, j: nat)
    requires lo <= hi <= |s| && i <= j <= hi - lo
    ensures s[lo..hi][i..j] == s[lo + i..lo + j]
  {
    var a, b := s[lo..hi][i..j], s[lo + i..lo + j];
    forall k | 0 <= k < |a|
      ensures a[k] == b[k]
    {
      assert a[k] == s[lo..hi][i + k] == s[lo + (i + k)];
    }
  }

  lemma {:induction false} FourParts<T>(s: seq<T>, lo: nat, a: seq<T>, b: seq<T>, c: seq<T>, d: seq<T>)
    requires var n := |a| + |b| + |c| + |d|; lo + n <= |s| && s[lo..lo + n] == a + b + c + d
    ensures var x := lo + |a|; var y := x + |b|; var z := y + |c|;
      s[x..y] == b && s[y..z] == c && s[z..z + |d|] == d
  {
    var n := |a| + |b| + |c| + |d|;
    var w := s[lo..lo + n];
    var x, y, z := |a|, |a| + |b|, |a| + |b| + |c|;
    PartsOf(w, a, b, c, d);
    SubSlice(s, lo, lo + n, x, y);
    SubSlice(s, lo, lo + n, y, z);
    SubSlice(s, lo, lo + n, z, n);
  }

  lemma {:induction false} PartsOf<T>(w: seq<T>, a: seq<T>, b: seq<T>, c: seq<T>, d: seq<T>)
    requires w == a + b + c + d
    ensures var x := |a|; var y := x + |b|; var z := y + |c|;
      && |w| == z + |d|
      && w[x..y] == b && w[y..z] == c && w[z..z + |d|] == d
  {
    assert a + b + c + d == a + b + (c + d) by { Regroup(a + b, c, d); }
    Middle(a, b, c + d);
    Middle(a + b, c, d);
    Last(a + b + c, d);
  }

  lemma {:induction false} Regroup<T>(a: seq<T>, b: seq<T>, c: seq<T>)
    ensures a + b + c == a + (b + c)
  {
  }

  lemma {:induction false} Middle<T>(a: seq<T>, b: seq<T>, c: seq<T>)
    ensures (a + b + c)[|a|..|a| + |b|] == b
  {
  }

  lemma {:induction false} Last<T>(a: seq<T>, b: seq<T>)
    ensures (a + b)[|a|..|a| + |b|] == b
  {
  }

  lemma {:induction false} FirstSegment(raw: Bytes, segs: seq<Bytes>, pos: nat)
    requires forall k :: 0 <= k < |segs| ==> |segs[k]| < 0x1_0000_0000
    requires segs != [] && pos + SizeAt(segs, pos) <= |raw| && raw[pos..pos + SizeAt(segs, pos)] == Layout(segs, pos)
    ensures var p := pos + Padding(pos);
      && p + 4 + |segs[0]| <= |raw| && ReadU32(raw, p) == |segs[0]|
      && raw[p + 4..p + 4 + |segs[0]|] == segs[0]
      && raw[p + 4 + |segs[0]|..pos + SizeAt(segs, pos)] == Layout(segs[1..], p + 4 + |segs[0]|)
  {
    var n := |segs[0]|;
    LayoutStep(segs, pos);
    SizeAtStep(segs, pos);
    hide Layout, SizeAt, Padding, WriteU32, ReadU32;
    var rest := Layout(segs[1..], pos + Padding(pos) + 4 + n);
    FourParts(raw, pos, Pad(pos), WriteU32(n), segs[0], rest);
    ReadBack(raw, pos + Padding(pos), n);
  }

  lemma {:induction false} LayoutStep(segs: seq<Bytes>, pos: nat)
    requires forall k :: 0 <= k < |segs| ==> |segs[k]| < 0x1_0000_0000
    requires segs != []
    ensures Layout(segs, pos) ==
      Pad(pos) + WriteU32(|segs[0]|) + segs[0] + Layout(segs[1..], pos + Padding(pos) + 4 + |segs[0]|)
  {
  }

  /** Parsing recovers segments that are laid out from `pos` to `total`. */
  lemma {:induction false} ParseLayout(raw: Bytes, segs: seq<Bytes>, pos: nat, total: nat)
    requires forall k :: 0 <= k < |segs| ==> |segs[k]| < 0x1_0000_0000
    requires total == pos + SizeAt(segs, pos) <= |raw| && raw[pos..total] == Layout(segs, pos)
    ensures Parse(raw, total, pos).corruption == None && Holds(raw, Parse(raw, total, pos).segments, segs)
    decreases |segs|
  {
    hide Layout, ReadU32, Padding, Parse, SizeAt, Holds, WriteU32;
    SizeAtStep(segs, pos);
    if segs == [] {
      AtEnd(raw, total, pos);
      HoldsNone(raw);
    } else {
      var p, n := pos + Padding(pos) + 4, |segs[0]|;
      FirstSegment(raw, segs, pos);
      ParseStep(raw, total, pos);
      ParseLayout(raw, segs[1..], p + n, total);
      HoldsMore(raw, Slice(p, n), Parse(raw, total, p + n).segments, segs);
    }
  }

  lemma {:induction false} SizeAtStep(segs: seq<Bytes>, pos: nat)
    ensures SizeAt(segs, pos) ==
      if segs == [] then 0 else Padding(pos) + 4 + |segs[0]| + SizeAt(segs[1..], pos + Padding(pos) + 4 + |segs[0]|)
  {
  }

  lemma {:induction false} HoldsNone(raw: Bytes)
    ensures Holds(raw, [], [])
  {
  }

  lemma {:induction false} HoldsMore(raw: Bytes, s: Slice, rest: seq<Slice>, segs: seq<Bytes>)
    requires segs != [] && Holds(raw, rest, segs[1..])
    requires s.start + s.len <= |raw| && raw[s.start..s.start + s.len] == segs[0]
    ensures Holds(raw, [s] + rest, segs)
  {
    forall k | 0 < k < |segs|
      ensures segs[k] == segs[1..][k - 1]
    {
    }
  }

  /** Reading back an encoded extent, with anything behind it, finds exactly its segments. */
  lemma {:induction false} RoundTrip(segs: seq<Bytes>, behind: Bytes)
    requires forall k :: 0 <= k < |segs| ==> |segs[k]| < 0x1_0000_0000
    requires 4 + SizeAt(segs, 4) < 0x1_0000_0000
    ensures var raw := Encode(segs) + behind;
      && ReadU32(raw, 0) == |Encode(segs)| <= |raw|
      && Parse(raw, |Encode(segs)|, 4).corruption == None
      && Holds(raw, Parse(raw, |Encode(segs)|, 4).segments, segs)
  {
    var raw, total := Encode(segs) + behind, 4 + SizeAt(segs, 4);
    assert raw[0..4] == WriteU32(total);
    ReadBack(raw, 0, total);
    assert raw[4..total] == Layout(segs, 4);
    ParseLayout(raw, segs, 4, total);
  }

  /** The concatenated contents of compressed segments, if all of them decompress. */
  function InflateAll(segs: seq<Bytes>, inflate: Bytes -> Option<Bytes>): Option<Bytes> {
    if segs == [] then Some([])
    else
      var before, page := InflateAll(segs[..|segs| - 1], inflate), inflate(segs[|segs| - 1]);
      if before.Some? && page.Some? then Some(before.value + page.value) else None
  }

  /** The contents stand in the order of the segments. */
  lemma {:induction false} InflateFront(segs: seq<Bytes>, inflate: Bytes -> Option<Bytes>)
    ensures InflateAll([], inflate) == Some([])
    ensures segs != [] ==>
      var first, rest := inflate(segs[0]), InflateAll(segs[1..], inflate);
      InflateAll(segs, inflate) == if first.Some? && rest.Some? then Some(first.value + rest.value) else None
  {
    if |segs| > 1 {
      var init := segs[..|segs| - 1];
      InflateFront(init, inflate);
      assert init[1..] == segs[1..][..|segs| - 2];
      var first, mid, last := inflate(segs[0]), InflateAll(init[1..], inflate), inflate(segs[|segs| - 1]);
      if first.Some? && mid.Some? && last.Some? {
        assert first.value + mid.value + last.value == first.value + (mid.value + last.value);
      }
    } else if |segs| == 1 {
      assert segs[..0] == [] && segs[1..] == [];
      var page := inflate(segs[0]);
      if page.Some? { assert [] + page.value == page.value + []; }
    }
  }

  lemma {:induction false} InflateHolds(raw: Bytes, slices: seq<Slice>, segs: seq<Bytes>,
                                        inflate: Bytes -> Option<Bytes>)
    requires Holds(raw, slices, segs)
    ensures Inflate(raw, slices, inflate) == InflateAll(segs, inflate)
    decreases |slices|
  {
    if slices != [] {
      InflateHolds(raw, slices[..|slices| - 1], segs[..|segs| - 1], inflate);
    }
  }

  /** Decompressing an encoded extent, with anything behind it, gives the contents of its segments
      in order, or fails if one of them does. */
  lemma {:induction false} DecompressEncoded(segs: seq<Bytes>, behind: Bytes, inflate: Bytes -> Option<Bytes>)
    requires forall k :: 0 <= k < |segs| ==> |segs[k]| < 0x1_0000_0000
    requires 4 + SizeAt(segs, 4) < 0x1_0000_0000
    ensures Expected(Encode(segs) + behind, inflate) ==
      match InflateAll(segs, inflate) case None => InflateFailed case Some(out) => Ok(out)
  {
    var raw, total := Encode(segs) + behind, |Encode(segs)|;
    RoundTrip(segs, behind);
    hide Parse, Inflate, InflateAll, Holds, ReadU32, SizeAt;
    ParsedInRange(raw, total);
    InflateHolds(raw, Parse(raw, total, 4).segments, segs, inflate);
  }
}
