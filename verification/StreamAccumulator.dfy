/** The accumulator that re-chunks a stream into fixed-size segments, against `Manifest`. */
module StreamAccumulator {
  import opened Bytes
  import opened Numbers
  import opened Manifest

  // ---------- the segment size ----------

  datatype Encoding = PcmS16le | PcmS16be | PcmF32le | Mulaw | Alaw | Other(name: string)

  datatype ConfigError = NotPositive | UnsupportedEncoding(name: string)

  function BytesPerSample(e: Encoding): Option<nat> {
    match e
    case PcmS16le => Some(2)
    case PcmS16be => Some(2)
    case PcmF32le => Some(4)
    case Mulaw => Some(1)
    case Alaw => Some(1)
    case Other(_) => None
  }

  function SegmentTargetBytes(e: Encoding, sampleRate: int, channels: int, seconds: real): Result<int, ConfigError> {
    if sampleRate <= 0 || channels <= 0 then Err(NotPositive)
    else
      match BytesPerSample(e)
      case None => Err(UnsupportedEncoding(if e.Other? then e.name else ""))
      case Some(width) =>
        Ok(TargetFor(sampleRate, channels, width, seconds))
  }

  function TargetFor(sampleRate: int, channels: int, width: int, seconds: real): int
    requires channels > 0 && width > 0
  {
    assert channels * width > 0;
    AlignedTarget((sampleRate * channels * width) as real * seconds, channels * width)
  }

  /** The requested size rounded, cut down to whole frames, and at least one frame. */
  function AlignedTarget(asked: real, frame: int): int
    requires frame > 0
  {
    var target := RoundHalfEven(asked);
    Max(frame, target - target % frame)
  }

  /** The target is a whole positive number of sample frames: less than one frame below the size
      asked for, and above it by more than rounding only when one frame is the floor. */
  lemma AlignedTargetFits(asked: real, frame: int)
    requires frame > 0
    ensures var target := AlignedTarget(asked, frame);
            && target >= frame && target % frame == 0
            && asked - (target as real) < frame as real
            && (target > frame ==> target as real <= asked + 0.5)
  {
    Aligned(RoundHalfEven(asked), frame);
    DivUnique(frame, frame, 1, 0);
  }

  lemma SegmentTargetIsAligned(e: Encoding, sampleRate: int, channels: int, seconds: real)
    ensures var r := SegmentTargetBytes(e, sampleRate, channels, seconds);
            && (r.Ok? <==> sampleRate > 0 && channels > 0 && !e.Other?)
            && (r.Ok? ==> var frame := channels * BytesPerSample(e).value;
                          frame > 0 && r.value >= frame && r.value % frame == 0)
  {
    hide TargetFor;
    if sampleRate > 0 && channels > 0 && !e.Other? {
      TargetForFits(sampleRate, channels, BytesPerSample(e).value, seconds);
    }
  }

  lemma TargetForFits(sampleRate: int, channels: int, width: int, seconds: real)
    requires channels > 0 && width > 0
    ensures var frame, target := channels * width, TargetFor(sampleRate, channels, width, seconds);
            frame > 0 && target >= frame && target % frame == 0
  {
    hide AlignedTarget;
    MulAtMost(1, channels, width);
    AlignedTargetFits((sampleRate * channels * width) as real * seconds, channels * width);
  }

  /** The bytes that so many seconds of audio take. */
  function BytesOf(seconds: nat, rate: nat, channels: nat, width: nat): nat {
    seconds * rate * channels * width
  }

  /** Asked for whole seconds, a segment holds exactly that: two bytes a sample for 16-bit PCM, four for
      32-bit float, one for the companded encodings. */
  lemma WholeSeconds(e: Encoding, rate: nat, channels: nat, seconds: nat)
    requires rate > 0 && channels > 0 && seconds > 0 && !e.Other?
    ensures SegmentTargetBytes(e, rate, channels, seconds as real) ==
              Ok(BytesOf(seconds, rate, channels, if e.PcmF32le? then 4 else if e.Mulaw? || e.Alaw? then 1 else 2))
  {
    hide TargetFor, BytesOf;
    AlignedSeconds(rate, channels, BytesPerSample(e).value, seconds);
  }

  lemma AlignedSeconds(rate: nat, channels: nat, width: nat, seconds: nat)
    requires rate > 0 && channels > 0 && width > 0 && seconds > 0
    ensures TargetFor(rate, channels, width, seconds as real) == BytesOf(seconds, rate, channels, width)
  {
    hide AlignedTarget;
    MulAtMost(1, channels, width);
    MulAtMost(1, seconds, rate);
    AlignedExactly(seconds * rate, channels * width);
    Regroup(rate, channels, width, seconds);
  }

  lemma Regroup(rate: int, channels: int, width: int, seconds: int)
    ensures (rate * channels * width) as real * seconds as real == ((seconds * rate) * (channels * width)) as real
    ensures (seconds * rate) * (channels * width) == seconds * rate * channels * width
  {
    assert (rate * channels * width) * seconds == (seconds * rate) * (channels * width);
  }

  lemma AlignedExactly(samples: nat, frame: nat)
    requires samples > 0 && frame > 0
    ensures AlignedTarget((samples * frame) as real, frame) == samples * frame
  {
    DivUnique(samples * frame, frame, samples, 0);
    MulAtMost(1, samples, frame);
    RoundWhole(samples * frame);
  }

  lemma RoundWhole(n: int)
    ensures RoundHalfEven(n as real) == n
  {
  }

  lemma Aligned(target: int, d: int)
    requires d > 0
    ensures (target - target % d) % d == 0 && target - d < target - target % d <= target
  {
    assert target - target % d == (target / d) * d;
    DivUnique(target - target % d, d, target / d, 0);
  }

  // ---------- the accumulator ----------

  datatype SessionError = ChunkOutOfOrder(expected: nat, received: int)

  /** The open segment: what the accumulator holds between two statements. */
  ghost predicate Tracks(
    buffer: Bytes, slices: seq<Slice>, segmentStart: nat, nextSequence: nat,
    segments: seq<Segment>, chunks: seq<Bytes>)
  {
    && segmentStart + |buffer| == Length(chunks)
    && buffer == Concat(chunks)[segmentStart..]
    && slices == SlicesIn(chunks, segmentStart, Length(chunks))
    && nextSequence == |segments|
    && Covers(segments, chunks, segmentStart)
  }

  /** Adding the next piece of a chunk adds one slice, provided the chunk has none in this segment. */
  lemma TracksExtend(
    buffer: Bytes, slices: seq<Slice>, segmentStart: nat, nextSequence: nat,
    segments: seq<Segment>, chunks: seq<Bytes>, v: Bytes, w: Bytes)
    requires Tracks(buffer, slices, segmentStart, nextSequence, segments, chunks + [v])
    requires w != [] && (v != [] ==> buffer == [])
    ensures var start := Length(chunks) + |v|;
            Tracks(buffer + w,
                   slices + [Slice(|chunks|, start, start + |w|, |buffer|, |buffer| + |w|)],
                   segmentStart, nextSequence, segments, chunks + [v + w])
  {
    hide SlicesIn, Concat, Covers;
    LengthSnoc(chunks, v);
    LengthSnoc(chunks, v + w);
    CoversGrow(segments, chunks, v, w, segmentStart);
    assert Concat(chunks + [v + w]) == Concat(chunks + [v]) + w;
    SlicesExtend(chunks, v, w, segmentStart);
  }

  lemma SlicesExtend(chunks: seq<Bytes>, v: Bytes, w: Bytes, a: nat)
    requires a <= Length(chunks) + |v| && w != []
    requires v != [] ==> a == Length(chunks) + |v|
    ensures var start := Length(chunks) + |v|;
            SlicesIn(chunks + [v + w], a, start + |w|) ==
              SlicesIn(chunks + [v], a, start) +
              [Slice(|chunks|, start, start + |w|, start - a, start - a + |w|)]
  {
    hide SlicesIn, Concat, Length;
    LengthSnoc(chunks, v);
    LengthSnoc(chunks, v + w);
    var start := Length(chunks) + |v|;
    SlicesInLast(chunks + [v], a, start);
    SlicesInLast(chunks + [v + w], a, start + |w|);
    if v == [] {
      SlicesInClip(chunks, a, start, start + |w|);
    } else {
      SlicesInBeyond(chunks, a, start);
      SlicesInBeyond(chunks, a, start + |w|);
    }
  }

  lemma TracksTake(
    buffer: Bytes, slices: seq<Slice>, segmentStart: nat, nextSequence: nat,
    segments: seq<Segment>, chunks: seq<Bytes>)
    requires Tracks(buffer, slices, segmentStart, nextSequence, segments, chunks)
    requires buffer != []
    ensures var end := segmentStart + |buffer|;
            Tracks([], [], end, nextSequence + 1,
                   segments + [Segment(nextSequence, buffer, segmentStart, end, slices)], chunks)
  {
    var end := segmentStart + |buffer|;
    var s := Segment(nextSequence, buffer, segmentStart, end, slices);
    assert (segments + [s])[..|segments|] == segments;
    assert Concat(chunks)[segmentStart..end] == buffer;
    SlicesInBeyond(chunks, end, Length(chunks));
  }

  lemma TracksOpenChunk(
    buffer: Bytes, slices: seq<Slice>, segmentStart: nat, nextSequence: nat,
    segments: seq<Segment>, chunks: seq<Bytes>)
    requires Tracks(buffer, slices, segmentStart, nextSequence, segments, chunks)
    ensures Tracks(buffer, slices, segmentStart, nextSequence, segments, chunks + [[]])
  {
    SlicesInEmptyChunk(chunks, segmentStart, Length(chunks));
    CoversEmptyChunk(segments, chunks, segmentStart);
  }

  class StreamAccumulator {
    const targetBytes: nat
    var buffer: Bytes
    var slices: seq<Slice>
    var sourceCursor: nat
    var segmentStart: nat
    var nextChunkIndex: nat
    var nextSequence: nat
    ghost var chunks: seq<Bytes>
    ghost var segments: seq<Segment>

    ghost predicate Open(appended: seq<Bytes>)
      reads this
    {
      Tracks(buffer, slices, segmentStart, nextSequence, segments, appended)
    }

    ghost predicate Valid()
      reads this
    {
      && targetBytes > 0
      && Open(chunks)
      && |buffer| < targetBytes
      && sourceCursor == Length(chunks)
      && nextChunkIndex == |chunks|
    }

    constructor (targetBytes: nat)
      requires targetBytes > 0
      ensures Valid() && chunks == [] && segments == [] && this.targetBytes == targetBytes
    {
      this.targetBytes := targetBytes;
      buffer, slices := [], [];
      sourceCursor, segmentStart, nextChunkIndex, nextSequence := 0, 0, 0, 0;
      chunks, segments := [], [];
    }

    method Append(payload: Bytes, chunkIndex: Option<int>) returns (out: Result<seq<Segment>, SessionError>)
      requires Valid()
      modifies this
      ensures Valid()
      ensures out.Ok? <==> payload == [] || chunkIndex == None || chunkIndex == Some(old(nextChunkIndex) as int)
      ensures out.Err? ==> chunkIndex.Some? && out.error == ChunkOutOfOrder(old(nextChunkIndex), chunkIndex.value)
      ensures out.Err? || payload == [] ==> unchanged(this)
      ensures out.Ok? && payload == [] ==> out.value == []
      ensures out.Ok? && payload != [] ==> chunks == old(chunks) + [payload]
      ensures out.Ok? ==> segments == old(segments) + out.value
      ensures out.Ok? ==> forall s :: s in out.value ==> |s.payload| == targetBytes
    {
      hide Tracks, Concat, Length;
      if payload == [] {
        return Ok([]);
      }
      var index := if chunkIndex == None then nextChunkIndex as int else chunkIndex.value;
      if index != nextChunkIndex {
        return Err(ChunkOutOfOrder(nextChunkIndex, index));
      }
      var chunkSourceStart := sourceCursor;
      var chunkOffset := 0;
      var pending := [];
      TracksOpenChunk(buffer, slices, segmentStart, nextSequence, segments, chunks);
      assert payload[..0] == [];
      while chunkOffset < |payload|
        invariant 0 <= chunkOffset <= |payload|
        invariant Open(chunks + [payload[..chunkOffset]])
        invariant |buffer| < targetBytes && (0 < chunkOffset < |payload| ==> buffer == [])
        invariant chunks == old(chunks) && sourceCursor == old(sourceCursor) && nextChunkIndex == old(nextChunkIndex)
        invariant segments == old(segments) + pending
        invariant forall s :: s in pending ==> |s.payload| == targetBytes
      {
        var room := targetBytes - |buffer|;
        var take := Min(room, |payload| - chunkOffset);
        var piece := payload[chunkOffset..chunkOffset + take];
        ExtendBuffer(index, chunkSourceStart + chunkOffset, piece, payload[..chunkOffset]);
        assert payload[..chunkOffset] + piece == payload[..chunkOffset + take];
        chunkOffset := chunkOffset + take;
        if |buffer| == targetBytes {
          var segment := TakeSegment(chunks + [payload[..chunkOffset]]);
          pending := pending + [segment];
        }
      }
      assert payload[..|payload|] == payload;
      sourceCursor := sourceCursor + |payload|;
      nextChunkIndex := nextChunkIndex + 1;
      LengthSnoc(chunks, payload);
      chunks := chunks + [payload];
      return Ok(pending);
    }

    /** The buffer and slice update of one turn of the append loop. */
    method ExtendBuffer(index: nat, start: nat, piece: Bytes, ghost done: Bytes)
      requires Open(chunks + [done]) && index == |chunks| && start == Length(chunks) + |done|
      requires piece != [] && (done != [] ==> buffer == [])
      modifies this`buffer, this`slices
      ensures Open(chunks + [done + piece])
      ensures |buffer| == old(|buffer|) + |piece|
    {
      TracksExtend(buffer, slices, segmentStart, nextSequence, segments, chunks, done, piece);
      LengthSnoc(chunks, done);
      hide Tracks;
      var segmentOffset := |buffer|;
      buffer := buffer + piece;
      slices := slices + [Slice(index, start, start + |piece|, segmentOffset, segmentOffset + |piece|)];
    }

    method Flush() returns (out: Option<Segment>)
      requires Valid()
      modifies this
      ensures Valid() && chunks == old(chunks)
      ensures out.None? <==> old(buffer) == []
      ensures out.None? ==> unchanged(this)
      ensures out.Some? ==> segments == old(segments) + [out.value] && out.value.payload == old(buffer)
      ensures buffer == [] && Covers(segments, chunks, Length(chunks)) && segmentStart == Length(chunks)
    {
      if buffer == [] {
        return None;
      }
      var segment := TakeSegment(chunks);
      return Some(segment);
    }

    method TakeSegment(ghost appended: seq<Bytes>) returns (segment: Segment)
      requires Open(appended) && buffer != []
      modifies this`buffer, this`slices, this`segmentStart, this`nextSequence, this`segments
      ensures Open(appended) && buffer == []
      ensures segments == old(segments) + [segment] && segment.payload == old(buffer)
    {
      TracksTake(buffer, slices, segmentStart, nextSequence, segments, appended);
      hide Tracks;
      segment := Segment(nextSequence, buffer, segmentStart, segmentStart + |buffer|, slices);
      buffer, slices := [], [];
      segmentStart := segment.byteEnd;
      nextSequence := nextSequence + 1;
      segments := segments + [segment];
    }

    /** Forget the unsaved audio. What was already cut into segments is not affected, and after a
        flush there is nothing to forget. */
    method Wipe()
      modifies this`buffer, this`slices
      ensures buffer == [] && slices == []
      ensures old(Valid() && buffer == []) ==> Valid()
    {
      if Valid() && buffer == [] {
        SlicesInBeyond(chunks, segmentStart, Length(chunks));
      }
      buffer, slices := [], [];
    }
  }

  /** A whole stream: every chunk appended in turn, one flush at the end. With `RebuildChunk` and
      `ChunkingIndependence` the result gives every chunk back, and does not depend on the chunking. */
  method StoreStream(chunks: seq<Bytes>, targetBytes: nat) returns (segments: seq<Segment>)
    requires targetBytes > 0 && forall k :: 0 <= k < |chunks| ==> chunks[k] != []
    ensures Covers(segments, chunks, Length(chunks)) && Filled(segments, targetBytes)
  {
    hide Covers, Tracks, Length;
    var stream := new StreamAccumulator(targetBytes);
    segments := [];
    var k := 0;
    while k < |chunks|
      invariant 0 <= k <= |chunks| && fresh(stream) && stream.targetBytes == targetBytes
      invariant stream.Valid() && stream.chunks == chunks[..k] && stream.nextChunkIndex == k
      invariant segments == stream.segments
      invariant forall i :: 0 <= i < |segments| ==> |segments[i].payload| == targetBytes
    {
      var stored := stream.Append(chunks[k], Some(k));
      segments := segments + stored.value;
      assert chunks[..k + 1] == chunks[..k] + [chunks[k]];
      k := k + 1;
    }
    assert chunks[..k] == chunks;
    var last := stream.Flush();
    if last.Some? {
      segments := segments + [last.value];
    }
  }
}
