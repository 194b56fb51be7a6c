/** Receipt counters of one session, and what they say about which chunks are stored. */
module Receipts {
  import opened Bytes
  import opened Manifest

  function Count(m: map<nat, int>, k: nat): int {
    if k in m then m[k] else 0
  }

  /** The counters describe these segments of these chunks. */
  ghost predicate Booked(sizes: map<nat, nat>, stored: map<nat, int>, segments: seq<Segment>, chunks: seq<Bytes>) {
    && (forall k: nat :: k in sizes <==> k < |chunks|)
    && (forall k: nat :: k < |chunks| ==> sizes[k] == |chunks[k]|)
    && (forall k: nat :: Count(stored, k) == StoredBytes(segments, k))
  }

  ghost predicate AllNonEmpty(chunks: seq<Bytes>) {
    forall k :: 0 <= k < |chunks| ==> chunks[k] != []
  }

  /** The chunks reported as stored. */
  function ChunksStored(sizes: map<nat, nat>, stored: map<nat, int>): nat {
    |set k | k in sizes && Count(stored, k) >= sizes[k]|
  }

  lemma {:induction false} SizeOfPrefix(s: set<nat>, p: nat)
    requires forall k: nat :: k in s <==> k < p
    ensures |s| == p
  {
    if p == 0 {
      assert s == {};
    } else {
      SizeOfPrefix(s - {p - 1}, p - 1);
    }
  }

  /** How many chunks, from the first on, lie wholly inside the first `upto` bytes. */
  ghost function WholeChunks(chunks: seq<Bytes>, upto: nat, from: nat): (p: nat)
    requires from <= |chunks| && Offset(chunks, from) <= upto
    ensures from <= p <= |chunks| && Offset(chunks, p) <= upto
    ensures p < |chunks| ==> upto < Offset(chunks, p + 1)
    decreases |chunks| - from
  {
    if from < |chunks| && Offset(chunks, from + 1) <= upto then WholeChunks(chunks, upto, from + 1) else from
  }

  /** Receipt exactness: `chunks_stored` counts a prefix of the received chunks, and that prefix is
      every chunk lying wholly inside the stored bytes. */
  lemma ReceiptIsPrefix(
    sizes: map<nat, nat>, stored: map<nat, int>, segments: seq<Segment>, chunks: seq<Bytes>, upto: nat)
    requires Booked(sizes, stored, segments, chunks)
    requires Covers(segments, chunks, upto) && AllNonEmpty(chunks)
    ensures var p := ChunksStored(sizes, stored);
            && p <= |chunks|
            && Offset(chunks, p) <= upto
            && (p < |chunks| ==> upto < Offset(chunks, p + 1))
            && forall k: nat :: k < |chunks| ==> (Count(stored, k) >= |chunks[k]| <==> k < p)
  {
    hide Covers, StoredBytes, Offset;
    OffsetNone(chunks);
    var p := WholeChunks(chunks, upto, 0);
    forall k: nat | k < |chunks|
      ensures Count(stored, k) >= |chunks[k]| <==> k < p
    {
      StoredIffBelow(segments, chunks, upto, k, p);
    }
    var whole := set k | k in sizes && Count(stored, k) >= sizes[k];
    SizeOfPrefix(whole, p);
  }

  lemma OffsetNone(chunks: seq<Bytes>)
    ensures Offset(chunks, 0) == 0
  {
  }

  lemma StoredIffBelow(segments: seq<Segment>, chunks: seq<Bytes>, upto: nat, k: nat, p: nat)
    requires Covers(segments, chunks, upto) && AllNonEmpty(chunks) && k < |chunks|
    requires p <= |chunks| && Offset(chunks, p) <= upto && (p < |chunks| ==> upto < Offset(chunks, p + 1))
    ensures StoredBytes(segments, k) >= |chunks[k]| <==> k < p
  {
    hide Covers, StoredBytes, Offset;
    StoredExactly(segments, chunks, upto, k);
    if k < p {
      OffsetMonotone(chunks, k + 1, p);
    } else {
      OffsetMonotone(chunks, p + 1, k + 1);
    }
  }

  // ---------- the counters add up ----------

  /** The first n counters together. */
  function SumCounts(stored: map<nat, int>, n: nat): int {
    if n == 0 then 0 else SumCounts(stored, n - 1) + Count(stored, n - 1)
  }

  function SumSlices(slices: seq<Slice>, n: nat): int {
    if n == 0 then 0 else SumSlices(slices, n - 1) + SliceBytes(slices, n - 1)
  }

  function SumStored(segments: seq<Segment>, n: nat): int {
    if n == 0 then 0 else SumStored(segments, n - 1) + StoredBytes(segments, n - 1)
  }

  lemma {:induction false} SumSlicesSnoc(slices: seq<Slice>, s: Slice, n: nat)
    ensures SumSlices(slices + [s], n) ==
              SumSlices(slices, n) + if s.chunkIndex < n then s.sourceEnd - s.sourceStart else 0
  {
    if n > 0 {
      SumSlicesSnoc(slices, s, n - 1);
      assert (slices + [s])[..|slices|] == slices;
    }
  }

  lemma {:induction false} SumSlicesNone(n: nat)
    ensures SumSlices([], n) == 0 && SumStored([], n) == 0
  {
    if n > 0 { SumSlicesNone(n - 1); }
  }

  /** Slices that tile a segment add up to it. */
  lemma {:induction false} TilesAddUp(slices: seq<Slice>, byteStart: nat, end: nat, n: nat)
    requires TilesFrom(slices, byteStart, end)
    requires forall i :: 0 <= i < |slices| ==> slices[i].chunkIndex < n
    ensures SumSlices(slices, n) == end
  {
    if slices == [] {
      SumSlicesNone(n);
    } else {
      var init, last := slices[..|slices| - 1], slices[|slices| - 1];
      TilesAddUp(init, byteStart, last.segmentStart, n);
      SumSlicesSnoc(init, last, n);
      assert init + [last] == slices;
    }
  }

  lemma {:induction false} SumStoredLast(segments: seq<Segment>, n: nat)
    requires segments != []
    ensures SumStored(segments, n) ==
              SumStored(segments[..|segments| - 1], n) + SumSlices(segments[|segments| - 1].slices, n)
  {
    if n > 0 { SumStoredLast(segments, n - 1); }
  }

  lemma LastTiles(segments: seq<Segment>, chunks: seq<Bytes>, upto: nat)
    requires Covers(segments, chunks, upto) && segments != []
    ensures var s := segments[|segments| - 1];
            && TilesFrom(s.slices, s.byteStart, |s.payload|) && |s.payload| == upto - s.byteStart
            && forall i :: 0 <= i < |s.slices| ==> s.slices[i].chunkIndex < |chunks|
  {
    var s := segments[|segments| - 1];
    CoversIndex(segments, chunks, upto, |segments| - 1);
    ManifestTiles(segments, chunks, upto, |segments| - 1);
    SlicesTile(chunks, s.byteStart, s.byteEnd);
    assert forall i :: 0 <= i < |s.slices| ==> s.slices[i] in s.slices;
  }

  lemma {:induction false} StoredAddsUp(segments: seq<Segment>, chunks: seq<Bytes>, upto: nat)
    requires Covers(segments, chunks, upto)
    ensures SumStored(segments, |chunks|) == upto
  {
    if segments == [] {
      SumSlicesNone(|chunks|);
    } else {
      var n := |segments| - 1;
      StoredAddsUp(segments[..n], chunks, segments[n].byteStart);
      SumStoredLast(segments, |chunks|);
      LastTiles(segments, chunks, upto);
      TilesAddUp(segments[n].slices, segments[n].byteStart, |segments[n].payload|, |chunks|);
    }
  }

  lemma {:induction false} CountsAreStored(stored: map<nat, int>, segments: seq<Segment>, n: nat)
    requires forall k: nat :: Count(stored, k) == StoredBytes(segments, k)
    ensures SumCounts(stored, n) == SumStored(segments, n)
  {
    if n > 0 { CountsAreStored(stored, segments, n - 1); }
  }

  /** The per-chunk counters together are the stored bytes, and no chunk not received is counted. */
  lemma CountersAddUp(
    sizes: map<nat, nat>, stored: map<nat, int>, segments: seq<Segment>, chunks: seq<Bytes>, upto: nat)
    requires Booked(sizes, stored, segments, chunks) && Covers(segments, chunks, upto)
    ensures SumCounts(stored, |chunks|) == upto
    ensures forall k: nat :: k >= |chunks| ==> Count(stored, k) == 0
  {
    hide Covers, StoredBytes;
    CountsAreStored(stored, segments, |chunks|);
    StoredAddsUp(segments, chunks, upto);
    forall k: nat | k >= |chunks| ensures StoredBytes(segments, k) == 0 {
      NoneStoredBeyond(segments, chunks, upto, k);
    }
  }

  lemma NoneStoredBeyond(segments: seq<Segment>, chunks: seq<Bytes>, upto: nat, k: nat)
    requires Covers(segments, chunks, upto) && k >= |chunks|
    ensures StoredBytes(segments, k) == 0
  {
    StoredBytesIsRebuild(segments, chunks, upto, k);
    RebuildPrefix(segments, chunks, upto, k);
  }

  // ---------- the finished manifest ----------

  function SliceChunks(slices: seq<Slice>): set<nat> {
    set s | s in slices :: s.chunkIndex
  }

  /** The distinct chunk indices a manifest mentions. */
  function ManifestChunks(segments: seq<Segment>): set<nat> {
    if segments == [] then {}
    else ManifestChunks(segments[..|segments| - 1]) + SliceChunks(segments[|segments| - 1].slices)
  }

  lemma {:induction false} SlicesMention(slices: seq<Slice>, byteStart: nat, end: nat, k: nat)
    requires TilesFrom(slices, byteStart, end)
    ensures SliceBytes(slices, k) >= 0
    ensures k in SliceChunks(slices) <==> SliceBytes(slices, k) > 0
  {
    if slices != [] {
      var n := |slices| - 1;
      SlicesMention(slices[..n], byteStart, slices[n].segmentStart, k);
      assert slices == slices[..n] + [slices[n]];
      assert SliceChunks(slices) == SliceChunks(slices[..n]) + {slices[n].chunkIndex};
    }
  }

  lemma {:induction false} ManifestMentions(segments: seq<Segment>, chunks: seq<Bytes>, upto: nat, k: nat)
    requires Covers(segments, chunks, upto)
    ensures StoredBytes(segments, k) >= 0
    ensures k in ManifestChunks(segments) <==> StoredBytes(segments, k) > 0
  {
    if segments != [] {
      var n := |segments| - 1;
      ManifestMentions(segments[..n], chunks, segments[n].byteStart, k);
      ManifestTiles(segments, chunks, upto, n);
      SlicesMention(segments[n].slices, segments[n].byteStart, |segments[n].payload|, k);
    }
  }

  /** The receipt derived from a finished manifest reports every chunk that was received. */
  lemma ManifestReceiptIsComplete(segments: seq<Segment>, chunks: seq<Bytes>)
    requires Covers(segments, chunks, Length(chunks)) && AllNonEmpty(chunks)
    ensures |ManifestChunks(segments)| == |chunks|
    ensures forall k: nat :: k in ManifestChunks(segments) <==> k < |chunks|
  {
    hide Covers, ManifestChunks, AllNonEmpty, Length, Concat;
    forall k: nat
      ensures k in ManifestChunks(segments) <==> k < |chunks|
    {
      MentionedIffReceived(segments, chunks, k);
    }
    SizeOfPrefix(ManifestChunks(segments), |chunks|);
  }

  lemma MentionedIffReceived(segments: seq<Segment>, chunks: seq<Bytes>, k: nat)
    requires Covers(segments, chunks, Length(chunks)) && AllNonEmpty(chunks)
    ensures k in ManifestChunks(segments) <==> k < |chunks|
  {
    hide Covers, ManifestChunks, Rebuild, StoredBytes;
    ManifestMentions(segments, chunks, Length(chunks), k);
    if k < |chunks| {
      StoredExactly(segments, chunks, Length(chunks), k);
      OffsetMonotone(chunks, k, |chunks|);
      OffsetSplits(chunks, k);
    } else {
      NoneStoredBeyond(segments, chunks, Length(chunks), k);
    }
  }
}
