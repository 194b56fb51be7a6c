/**
 Segments, and what their slice lists mean. A chunk list fixes a byte stream; a segment covers the
 stream from `byteStart` to `byteEnd`, and its slices are the non-empty intersections of the chunks
 with that range, in order.
 */
module Manifest {
  import opened Bytes
  import opened Numbers

  datatype Slice = Slice(
    chunkIndex: nat,
    sourceStart: nat,
    sourceEnd: nat,
    segmentStart: nat,
    segmentEnd: nat)

  datatype Segment = Segment(
    sequence: nat,
    payload: Bytes,
    byteStart: nat,
    byteEnd: nat,
    slices: seq<Slice>)

  function Length(chunks: seq<Bytes>): nat {
    |Concat(chunks)|
  }

  /** The stream offset where chunk k starts. */
  function Offset(chunks: seq<Bytes>, k: nat): nat
    requires k <= |chunks|
  {
    Length(chunks[..k])
  }

  function SlicesIn(chunks: seq<Bytes>, a: nat, b: nat): seq<Slice> {
    if chunks == [] then []
    else
      var n := |chunks| - 1;
      var lo := Max(a, Length(chunks[..n]));
      var hi := Min(b, Length(chunks));
      SlicesIn(chunks[..n], a, b) + if lo < hi then [Slice(n, lo, hi, lo - a, hi - a)] else []
  }

  function SegmentAt(chunks: seq<Bytes>, sequence: nat, a: nat, b: nat): Segment
    requires a <= b <= Length(chunks)
  {
    Segment(sequence, Concat(chunks)[a..b], a, b, SlicesIn(chunks, a, b))
  }

  /** The segments, in sequence, cover exactly the first `upto` bytes of the stream. */
  ghost predicate Covers(segments: seq<Segment>, chunks: seq<Bytes>, upto: nat) {
    if segments == [] then upto == 0
    else
      var n := |segments| - 1;
      var last := segments[n];
      && last.byteStart < last.byteEnd == upto <= Length(chunks)
      && last == SegmentAt(chunks, n, last.byteStart, last.byteEnd)
      && Covers(segments[..n], chunks, last.byteStart)
  }

  function Payloads(segments: seq<Segment>): seq<Bytes> {
    seq(|segments|, i requires 0 <= i < |segments| => segments[i].payload)
  }

  // ---------- the stream ----------

  lemma LengthSnoc(chunks: seq<Bytes>, v: Bytes)
    ensures Concat(chunks + [v]) == Concat(chunks) + v
    ensures Length(chunks + [v]) == Length(chunks) + |v|
    ensures (chunks + [v])[..|chunks|] == chunks
  {
    ConcatSnoc(chunks, v);
  }

  lemma {:induction false} OffsetSplits(chunks: seq<Bytes>, k: nat)
    requires k < |chunks|
    ensures Offset(chunks, k) + |chunks[k]| == Offset(chunks, k + 1) <= Length(chunks)
    ensures Concat(chunks)[Offset(chunks, k)..Offset(chunks, k + 1)] == chunks[k]
  {
    var n := |chunks| - 1;
    if k == n {
      assert chunks[..n + 1] == chunks;
    } else {
      OffsetSplits(chunks[..n], k);
      assert chunks[..n][..k] == chunks[..k] && chunks[..n][..k + 1] == chunks[..k + 1];
      var lo, hi := Offset(chunks, k), Offset(chunks, k + 1);
      assert Concat(chunks)[lo..hi] == Concat(chunks[..n])[lo..hi];
    }
  }

  lemma {:induction false} OffsetMonotone(chunks: seq<Bytes>, j: nat, k: nat)
    requires j <= k <= |chunks|
    ensures Offset(chunks, j) <= Offset(chunks, k) <= Length(chunks)
    decreases k - j
  {
    if j < k {
      OffsetSplits(chunks, j);
      OffsetMonotone(chunks, j + 1, k);
    } else if k < |chunks| {
      OffsetSplits(chunks, k);
    } else {
      assert chunks[..k] == chunks;
    }
  }

  // ---------- segments keep their meaning as the stream grows ----------

  lemma SlicesInGrow(chunks: seq<Bytes>, v: Bytes, w: Bytes, a: nat, b: nat)
    requires b <= Length(chunks + [v])
    ensures SlicesIn(chunks + [v + w], a, b) == SlicesIn(chunks + [v], a, b)
  {
    LengthSnoc(chunks, v);
    LengthSnoc(chunks, v + w);
  }

  lemma {:induction false} CoversGrow(segments: seq<Segment>, chunks: seq<Bytes>, v: Bytes, w: Bytes, upto: nat)
    requires Covers(segments, chunks + [v], upto)
    ensures Covers(segments, chunks + [v + w], upto)
  {
    if segments != [] {
      var last := segments[|segments| - 1];
      CoversGrow(segments[..|segments| - 1], chunks, v, w, last.byteStart);
      SlicesInGrow(chunks, v, w, last.byteStart, last.byteEnd);
      LengthSnoc(chunks, v);
      LengthSnoc(chunks, v + w);
      assert Concat(chunks + [v + w]) == Concat(chunks + [v]) + w;
    }
  }

  lemma SlicesInEmptyChunk(chunks: seq<Bytes>, a: nat, b: nat)
    ensures SlicesIn(chunks + [[]], a, b) == SlicesIn(chunks, a, b)
    ensures Concat(chunks + [[]]) == Concat(chunks)
  {
    LengthSnoc(chunks, []);
  }

  lemma {:induction false} CoversEmptyChunk(segments: seq<Segment>, chunks: seq<Bytes>, upto: nat)
    requires Covers(segments, chunks, upto)
    ensures Covers(segments, chunks + [[]], upto)
  {
    if segments != [] {
      var last := segments[|segments| - 1];
      CoversEmptyChunk(segments[..|segments| - 1], chunks, last.byteStart);
      SlicesInEmptyChunk(chunks, last.byteStart, last.byteEnd);
    }
  }

  /** Beyond the end of the chunks there is nothing to slice. */
  lemma {:induction false} SlicesInBeyond(chunks: seq<Bytes>, a: nat, b: nat)
    requires a >= Length(chunks)
    ensures SlicesIn(chunks, a, b) == []
  {
    if chunks != [] {
      var n := |chunks| - 1;
      SlicesInBeyond(chunks[..n], a, b);
    }
  }

  lemma {:induction false} SlicesInClip(chunks: seq<Bytes>, a: nat, b: nat, c: nat)
    requires b >= Length(chunks) && c >= Length(chunks)
    ensures SlicesIn(chunks, a, b) == SlicesIn(chunks, a, c)
  {
    if chunks != [] {
      SlicesInClip(chunks[..|chunks| - 1], a, b, c);
    }
  }

  lemma {:induction false} CoversIndex(segments: seq<Segment>, chunks: seq<Bytes>, upto: nat, i: nat)
    requires Covers(segments, chunks, upto) && i < |segments|
    ensures var s := segments[i];
            && s.byteStart < s.byteEnd <= upto <= Length(chunks)
            && s == SegmentAt(chunks, i, s.byteStart, s.byteEnd)
            && s.byteStart == (if i == 0 then 0 else segments[i - 1].byteEnd)
    ensures segments[|segments| - 1].byteEnd == upto
  {
    var n := |segments| - 1;
    if i < n {
      CoversIndex(segments[..n], chunks, segments[n].byteStart, i);
    } else if n > 0 {
      CoversIndex(segments[..n], chunks, segments[n].byteStart, n - 1);
    }
  }

  /** The payloads, in sequence, are the covered prefix of the stream. */
  lemma {:induction false} PayloadsAreStream(segments: seq<Segment>, chunks: seq<Bytes>, upto: nat)
    requires Covers(segments, chunks, upto)
    ensures upto <= Length(chunks)
    ensures Concat(Payloads(segments)) == Concat(chunks)[..upto]
  {
    if segments != [] {
      var n := |segments| - 1;
      var last := segments[n];
      PayloadsAreStream(segments[..n], chunks, last.byteStart);
      assert Payloads(segments) == Payloads(segments[..n]) + [last.payload];
      ConcatSnoc(Payloads(segments[..n]), last.payload);
    }
  }

  // ---------- round trip: rebuilding a chunk from the manifest ----------

  /** The bytes a slice list assigns to chunk k, cut out of a segment's payload. */
  ghost function CutSlices(payload: Bytes, slices: seq<Slice>, k: nat): Bytes {
    if slices == [] then []
    else
      var s := slices[|slices| - 1];
      CutSlices(payload, slices[..|slices| - 1], k) +
      if s.chunkIndex == k && s.segmentStart <= s.segmentEnd <= |payload|
      then payload[s.segmentStart..s.segmentEnd] else []
  }

  ghost function Rebuild(segments: seq<Segment>, k: nat): Bytes {
    if segments == [] then []
    else
      var s := segments[|segments| - 1];
      Rebuild(segments[..|segments| - 1], k) + CutSlices(s.payload, s.slices, k)
  }

  /** The bytes of [lo, hi) that fall inside [a, b). */
  function Window(stream: Bytes, lo: nat, hi: nat, a: nat, b: nat): Bytes
    requires hi <= |stream|
  {
    var from, to := Max(a, lo), Min(b, hi);
    if from < to then stream[from..to] else []
  }

  /** The intersection of chunk k with [a, b). */
  ghost function Part(chunks: seq<Bytes>, k: nat, a: nat, b: nat): Bytes
    requires k < |chunks|
  {
    OffsetSplits(chunks, k);
    Window(Concat(chunks), Offset(chunks, k), Offset(chunks, k + 1), a, b)
  }

  lemma WindowSplits(stream: Bytes, lo: nat, hi: nat, a: nat, m: nat, b: nat)
    requires lo <= hi <= |stream| && a <= m <= b
    ensures Window(stream, lo, hi, a, m) + Window(stream, lo, hi, m, b) == Window(stream, lo, hi, a, b)
  {
  }

  lemma CutSnoc(payload: Bytes, slices: seq<Slice>, s: Slice, k: nat)
    requires s.segmentStart <= s.segmentEnd <= |payload|
    ensures CutSlices(payload, slices + [s], k) ==
              CutSlices(payload, slices, k) +
              if s.chunkIndex == k then payload[s.segmentStart..s.segmentEnd] else []
  {
    assert (slices + [s])[..|slices|] == slices;
  }

  /** What the last chunk adds to the bytes cut out for chunk k. */
  lemma CutLastChunk(stream: Bytes, chunks: seq<Bytes>, k: nat, a: nat, b: nat)
    requires chunks != [] && a <= b <= |stream| && Length(chunks) <= |stream|
    ensures var n := |chunks| - 1;
            CutSlices(stream[a..b], SlicesIn(chunks, a, b), k) ==
              CutSlices(stream[a..b], SlicesIn(chunks[..n], a, b), k) +
              if k == n then Window(stream, Length(chunks[..n]), Length(chunks), a, b) else []
  {
    hide SlicesIn, CutSlices, Concat, Length;
    var n := |chunks| - 1;
    var init := SlicesIn(chunks[..n], a, b);
    SlicesInLast(chunks, a, b);
    var lo, hi := Max(a, Length(chunks[..n])), Min(b, Length(chunks));
    if lo < hi {
      CutSnoc(stream[a..b], init, Slice(n, lo, hi, lo - a, hi - a), k);
      CutTwice(stream, a, b, lo, hi);
    }
  }

  lemma CutTwice(stream: Bytes, a: nat, b: nat, lo: nat, hi: nat)
    requires a <= lo <= hi <= b <= |stream|
    ensures stream[a..b][lo - a..hi - a] == stream[lo..hi]
  {
    var cut := stream[a..b][lo - a..hi - a];
    forall i | 0 <= i < hi - lo ensures cut[i] == stream[lo..hi][i] {
      assert cut[i] == stream[a..b][lo - a + i] == stream[lo + i];
    }
  }

  lemma SlicesInLast(chunks: seq<Bytes>, a: nat, b: nat)
    requires chunks != []
    ensures var n := |chunks| - 1;
            var lo, hi := Max(a, Length(chunks[..n])), Min(b, Length(chunks));
            SlicesIn(chunks, a, b) ==
              if lo < hi then SlicesIn(chunks[..n], a, b) + [Slice(n, lo, hi, lo - a, hi - a)]
              else SlicesIn(chunks[..n], a, b)
  {
    hide Length;
  }

  lemma {:induction false} CutIsPart(stream: Bytes, chunks: seq<Bytes>, k: nat, a: nat, b: nat)
    requires a <= b <= |stream|
    requires Length(chunks) <= |stream|
    ensures k >= |chunks| ==> CutSlices(stream[a..b], SlicesIn(chunks, a, b), k) == []
    ensures k < |chunks| ==> Offset(chunks, k + 1) <= |stream|
    ensures k < |chunks| ==> CutSlices(stream[a..b], SlicesIn(chunks, a, b), k) ==
                             Window(stream, Offset(chunks, k), Offset(chunks, k + 1), a, b)
  {
    if chunks != [] {
      var n := |chunks| - 1;
      var init := chunks[..n];
      assert Length(init) <= Length(chunks);
      CutIsPart(stream, init, k, a, b);
      CutLastChunk(stream, chunks, k, a, b);
      hide CutSlices, SlicesIn, Window;
      if k < n {
        assert init[..k] == chunks[..k] && init[..k + 1] == chunks[..k + 1];
      } else {
        assert chunks[..n + 1] == chunks;
      }
    }
  }

  lemma {:induction false} RebuildPrefix(segments: seq<Segment>, chunks: seq<Bytes>, upto: nat, k: nat)
    requires Covers(segments, chunks, upto)
    ensures k < |chunks| ==> Rebuild(segments, k) == Part(chunks, k, 0, upto)
    ensures k >= |chunks| ==> Rebuild(segments, k) == []
  {
    if k < |chunks| { OffsetSplits(chunks, k); }
    if segments != [] {
      var n := |segments| - 1;
      var last := segments[n];
      RebuildPrefix(segments[..n], chunks, last.byteStart, k);
      CutIsPart(Concat(chunks), chunks, k, last.byteStart, last.byteEnd);
      if k < |chunks| {
        WindowSplits(Concat(chunks), Offset(chunks, k), Offset(chunks, k + 1), 0, last.byteStart, last.byteEnd);
      }
    }
  }

  /** Manifest round trip: segments covering the whole stream give back every chunk byte for byte. */
  lemma RebuildChunk(segments: seq<Segment>, chunks: seq<Bytes>, k: nat)
    requires Covers(segments, chunks, Length(chunks)) && k < |chunks|
    ensures Rebuild(segments, k) == chunks[k]
  {
    RebuildPrefix(segments, chunks, Length(chunks), k);
    OffsetSplits(chunks, k);
  }

  // ---------- slices tile their segment ----------

  ghost predicate TilesFrom(slices: seq<Slice>, byteStart: nat, end: nat) {
    if slices == [] then end == 0
    else
      var n := |slices| - 1;
      var s := slices[n];
      && s.segmentStart < s.segmentEnd == end
      && s.sourceStart == byteStart + s.segmentStart
      && s.sourceEnd == byteStart + s.segmentEnd
      && (n > 0 ==> slices[n - 1].chunkIndex < s.chunkIndex)
      && TilesFrom(slices[..n], byteStart, s.segmentStart)
  }

  lemma {:induction false} SlicesTile(chunks: seq<Bytes>, a: nat, b: nat)
    requires a <= b
    ensures TilesFrom(SlicesIn(chunks, a, b), a, Max(0, Min(b, Length(chunks)) - a))
    ensures forall s :: s in SlicesIn(chunks, a, b) ==> s.chunkIndex < |chunks|
  {
    if chunks != [] {
      var n := |chunks| - 1;
      SlicesTile(chunks[..n], a, b);
      var init := SlicesIn(chunks[..n], a, b);
      var all := SlicesIn(chunks, a, b);
      if init != all {
        assert all[..|all| - 1] == init;
        assert |init| > 0 ==> init[|init| - 1] in init;
      }
    }
  }

  /** In a covering manifest every segment's slices tile it, in chunk order, and each slice's
      source offset is the segment's start plus its offset inside the segment. */
  lemma ManifestTiles(segments: seq<Segment>, chunks: seq<Bytes>, upto: nat, i: nat)
    requires Covers(segments, chunks, upto) && i < |segments|
    ensures TilesFrom(segments[i].slices, segments[i].byteStart, |segments[i].payload|)
    ensures segments[i].sequence == i
    ensures |segments[i].payload| == segments[i].byteEnd - segments[i].byteStart > 0
  {
    CoversIndex(segments, chunks, upto, i);
    SlicesTile(chunks, segments[i].byteStart, segments[i].byteEnd);
  }

  // ---------- chunking independence ----------

  /** Every segment but the last is exactly `target` bytes, the last at most that. */
  ghost predicate Filled(segments: seq<Segment>, target: nat) {
    forall i :: 0 <= i < |segments| ==>
                  if i < |segments| - 1 then |segments[i].payload| == target
                  else 0 < |segments[i].payload| <= target
  }

  lemma {:induction false} FilledStarts(segments: seq<Segment>, chunks: seq<Bytes>, upto: nat, target: nat, i: nat)
    requires Covers(segments, chunks, upto) && Filled(segments, target) && i < |segments|
    ensures segments[i].byteStart == i * target
    ensures segments[i].byteEnd == Min((i + 1) * target, upto)
  {
    hide Covers;
    CoversIndex(segments, chunks, upto, i);
    Multiples(i, target);
    if i > 0 {
      FilledStarts(segments, chunks, upto, target, i - 1);
      CoversIndex(segments, chunks, upto, i - 1);
      Multiples(i - 1, target);
    }
  }

  lemma Multiples(i: int, target: int)
    ensures (i + 1) * target == i * target + target && 0 * target == 0
  {
  }

  lemma FilledCount(
    s: seq<Segment>, c: seq<Bytes>, s': seq<Segment>, c': seq<Bytes>, upto: nat, target: nat)
    requires target > 0
    requires Covers(s, c, upto) && Filled(s, target)
    requires Covers(s', c', upto) && Filled(s', target)
    ensures |s| <= |s'|
  {
    if |s| > |s'| {
      FilledStarts(s, c, upto, target, |s| - 1);
      CoversIndex(s, c, upto, |s| - 1);
      assert (|s| - 1) * target < upto;
      if |s'| > 0 {
        FilledStarts(s', c', upto, target, |s'| - 1);
        CoversIndex(s', c', upto, |s'| - 1);
      }
      assert upto <= |s'| * target;
      MulAtMost(|s'|, |s| - 1, target);
    }
  }

  /** Chunking independence: however one stream was split into chunks, the segments agree in
      everything but their slices, and start on every multiple of `frame` that divides the target. */
  lemma ChunkingIndependence(
    s: seq<Segment>, c: seq<Bytes>, s': seq<Segment>, c': seq<Bytes>, target: nat, frame: nat, i: nat)
    requires target > 0 && frame > 0 && target % frame == 0
    requires Concat(c) == Concat(c')
    requires Covers(s, c, Length(c)) && Covers(s', c', Length(c'))
    requires Filled(s, target) && Filled(s', target)
    ensures |s| == |s'|
    ensures i < |s| ==> s[i].(slices := []) == s'[i].(slices := [])
    ensures i < |s| ==> s[i].byteStart % frame == 0
  {
    FilledCount(s, c, s', c', Length(c), target);
    FilledCount(s', c', s, c, Length(c), target);
    if i < |s| {
      FilledStarts(s, c, Length(c), target, i);
      FilledStarts(s', c', Length(c'), target, i);
      CoversIndex(s, c, Length(c), i);
      CoversIndex(s', c', Length(c'), i);
      MultipleOfMultiple(i, target, frame);
    }
  }

  // ---------- receipts ----------

  /** Bytes of chunk k recorded by a slice list, as the receipt counters add them up. */
  function SliceBytes(slices: seq<Slice>, k: nat): int {
    if slices == [] then 0
    else
      var s := slices[|slices| - 1];
      SliceBytes(slices[..|slices| - 1], k) + if s.chunkIndex == k then s.sourceEnd - s.sourceStart else 0
  }

  function StoredBytes(segments: seq<Segment>, k: nat): int {
    if segments == [] then 0
    else StoredBytes(segments[..|segments| - 1], k) + SliceBytes(segments[|segments| - 1].slices, k)
  }

  lemma {:induction false} SliceBytesIsCut(payload: Bytes, slices: seq<Slice>, byteStart: nat, end: nat, k: nat)
    requires TilesFrom(slices, byteStart, end) && end <= |payload|
    ensures SliceBytes(slices, k) == |CutSlices(payload, slices, k)|
  {
    if slices != [] {
      SliceBytesIsCut(payload, slices[..|slices| - 1], byteStart, slices[|slices| - 1].segmentStart, k);
    }
  }

  lemma {:induction false} StoredBytesIsRebuild(segments: seq<Segment>, chunks: seq<Bytes>, upto: nat, k: nat)
    requires Covers(segments, chunks, upto)
    ensures StoredBytes(segments, k) == |Rebuild(segments, k)|
  {
    if segments != [] {
      var n := |segments| - 1;
      StoredBytesIsRebuild(segments[..n], chunks, segments[n].byteStart, k);
      ManifestTiles(segments, chunks, upto, n);
      SliceBytesIsCut(segments[n].payload, segments[n].slices, segments[n].byteStart, |segments[n].payload|, k);
    }
  }

  /** A chunk counts as stored exactly when it lies wholly inside the covered bytes. */
  lemma StoredExactly(segments: seq<Segment>, chunks: seq<Bytes>, upto: nat, k: nat)
    requires Covers(segments, chunks, upto) && k < |chunks| && chunks[k] != []
    ensures upto <= Length(chunks)
    ensures 0 <= StoredBytes(segments, k) <= |chunks[k]|
    ensures StoredBytes(segments, k) >= |chunks[k]| <==> Offset(chunks, k + 1) <= upto
    ensures StoredBytes(segments, k) > 0 <==> Offset(chunks, k) < upto
  {
    PayloadsAreStream(segments, chunks, upto);
    StoredBytesIsRebuild(segments, chunks, upto, k);
    RebuildPrefix(segments, chunks, upto, k);
    OffsetSplits(chunks, k);
  }
}
