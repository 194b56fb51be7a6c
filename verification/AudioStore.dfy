/** The stored audio of one WebSocket session: its accumulator, and what reached the two stores. */
module AudioStore {
  import opened Bytes
  import opened Manifest
  import opened StreamAccumulator

  /** Why a call on a stored session raises: it is finalized, the chunk is out of turn, a write failed,
      the row is gone, or the finished manifest could not be read back. */
  datatype StoreError = Finalized | OutOfOrder(expected: nat, received: int) | Unavailable | Gone | Unreadable

  /** What a finalized session's manifest reports. */
  datatype StoredManifest = StoredManifest(segments: seq<Segment>, segmentCount: nat, audioBytes: nat)

  function TotalBytes(segments: seq<Segment>): nat {
    if segments == [] then 0
    else TotalBytes(segments[..|segments| - 1]) + |segments[|segments| - 1].payload|
  }

  lemma TotalSnoc(segments: seq<Segment>, s: Segment)
    ensures TotalBytes(segments + [s]) == TotalBytes(segments) + |s.payload|
  {
    assert (segments + [s])[..|segments|] == segments;
  }

  lemma {:induction false} TotalAppend(a: seq<Segment>, b: seq<Segment>)
    ensures TotalBytes(a + b) == TotalBytes(a) + TotalBytes(b)
  {
    if b == [] {
      assert a + b == a;
    } else {
      var n := |b| - 1;
      assert (a + b)[..|a + b| - 1] == a + b[..n];
      TotalAppend(a, b[..n]);
    }
  }

  lemma {:induction false} TotalIsCovered(segments: seq<Segment>, chunks: seq<Bytes>, upto: nat)
    requires Covers(segments, chunks, upto)
    ensures TotalBytes(segments) == upto
  {
    if segments != [] {
      TotalIsCovered(segments[..|segments| - 1], chunks, segments[|segments| - 1].byteStart);
    }
  }

  /** Commits stop at the first failing write. */
  ghost predicate StopsIn(before: seq<Segment>, after: seq<Segment>, pending: seq<Segment>, writes: Segment -> bool) {
    exists i ::
      && 0 <= i < |pending| && !writes(pending[i])
      && (forall j :: 0 <= j < i ==> writes(pending[j]))
      && after == before + pending[..i]
  }

  ghost predicate AllWritten(segments: seq<Segment>, writes: Segment -> bool) {
    forall i :: 0 <= i < |segments| ==> writes(segments[i])
  }

  /** A session that retains its result only: there is nothing but the row. */
  class ResultRow {
    var closed: bool

    constructor ()
      ensures !closed
    {
      closed := false;
    }

    method Complete(rowUpdated: bool, manifestRead: bool) returns (out: Result<StoredManifest, StoreError>)
      modifies this
      ensures old(closed) <==> out == Err(Finalized)
      ensures out.Ok? <==> !old(closed) && rowUpdated && manifestRead
      ensures out.Ok? ==> out.value == StoredManifest([], 0, 0)
      ensures closed == (old(closed) || rowUpdated)
      ensures out.Err? && !old(closed) ==> out.error == if rowUpdated then Unreadable else Gone
    {
      if closed {
        return Err(Finalized);
      }
      if !rowUpdated {
        return Err(Gone);
      }
      closed := true;
      return if manifestRead then Ok(StoredManifest([], 0, 0)) else Err(Unreadable);
    }
  }

  class AudioStore {
    const stream: StreamAccumulator
    var committed: seq<Segment>
    var segmentCount: nat
    var audioBytes: nat
    var closed: bool
    ghost var dropped: nat       // bytes of segments whose persist step failed

    ghost predicate Valid()
      reads this, stream
    {
      && stream.Valid()
      && segmentCount == |committed|
      && audioBytes == TotalBytes(committed)
      && audioBytes + dropped == stream.segmentStart
      && (dropped == 0 ==> committed == stream.segments)
    }

    constructor (stream: StreamAccumulator)
      requires stream.Valid() && stream.segments == []
      ensures Valid() && this.stream == stream && committed == [] && dropped == 0 && !closed
    {
      this.stream := stream;
      committed, segmentCount, audioBytes, closed, dropped := [], 0, 0, false, 0;
      new;
      assert Covers([], stream.chunks, stream.segmentStart);
    }

    /** The object PUT and the metadata row of one segment, as one success or failure. */
    method Commit(s: Segment)
      modifies this`committed, this`segmentCount, this`audioBytes
      ensures committed == old(committed) + [s]
      ensures segmentCount == old(segmentCount) + 1 && audioBytes == old(audioBytes) + |s.payload|
    {
      committed := committed + [s];
      segmentCount := segmentCount + 1;
      audioBytes := audioBytes + |s.payload|;
    }

    method StoreChunk(payload: Bytes, chunkIndex: Option<int>, writes: Segment -> bool)
      returns (out: Result<seq<Segment>, StoreError>)
      requires Valid()
      modifies this, stream
      ensures Valid() && closed == old(closed)
      ensures old(closed) <==> out == Err(Finalized)
      ensures !old(closed) && payload != [] && chunkIndex.Some? && chunkIndex.value != old(stream.nextChunkIndex) ==>
                out == Err(OutOfOrder(old(stream.nextChunkIndex), chunkIndex.value))
      ensures out.Err? && out.error.OutOfOrder? ==> chunkIndex.Some? && chunkIndex.value != old(stream.nextChunkIndex)
      ensures out.Ok? ==>
                && stream.chunks == old(stream.chunks) + (if payload == [] then [] else [payload])
                && committed == old(committed) + out.value && AllWritten(out.value, writes)
                && dropped == old(dropped)
      ensures old(stream.segments) <= stream.segments
      ensures dropped >= old(dropped) && (dropped > old(dropped) <==> out == Err(Unavailable))
      ensures out == Err(Unavailable) ==> stream.chunks == old(stream.chunks) + [payload]
      ensures out == Err(Unavailable) ==>
                StopsIn(old(committed), committed, stream.segments[old(|stream.segments|)..], writes)
      ensures out.Err? ==> out.error.Finalized? || out.error.OutOfOrder? || out.error.Unavailable?
      ensures out.Err? && !out.error.Unavailable? ==> unchanged(this) && unchanged(stream)
    {
      hide TotalBytes, Covers;
      if closed {
        return Err(Finalized);
      }
      ghost var known := stream.segments;
      StreamTotal();
      var pending := stream.Append(payload, chunkIndex);
      if pending.Err? {
        return Err(OutOfOrder(pending.error.expected, pending.error.received));
      }
      StreamTotal();
      TotalAppend(known, pending.value);
      var stored := Persist(pending.value, writes);
      if !stored {
        return Err(Unavailable);
      }
      return Ok(pending.value);
    }

    /** Commit a chunk's segments one by one; the first failure leaves the rest unwritten. */
    method Persist(pending: seq<Segment>, writes: Segment -> bool) returns (stored: bool)
      requires stream.Valid() && segmentCount == |committed| && audioBytes == TotalBytes(committed)
      requires audioBytes + dropped + TotalBytes(pending) == stream.segmentStart
      requires forall s :: s in pending ==> s.payload != []
      requires dropped == 0 ==> committed + pending == stream.segments
      modifies this`committed, this`segmentCount, this`audioBytes, this`dropped
      ensures Valid()
      ensures stored ==> committed == old(committed) + pending && dropped == old(dropped)
      ensures !stored ==> dropped > old(dropped)
      ensures stored <==> AllWritten(pending, writes)
      ensures !stored ==> StopsIn(old(committed), committed, pending, writes)
    {
      hide TotalBytes;
      var i := 0;
      TotalNone();
      assert pending[..0] == [];
      while i < |pending|
        invariant 0 <= i <= |pending|
        invariant committed == old(committed) + pending[..i]
        invariant segmentCount == |committed| && audioBytes == TotalBytes(committed)
        invariant audioBytes == old(audioBytes) + TotalBytes(pending[..i])
        invariant dropped == old(dropped)
        invariant forall j :: 0 <= j < i ==> writes(pending[j])
      {
        assert pending[..i + 1] == pending[..i] + [pending[i]];
        TotalSnoc(pending[..i], pending[i]);
        TotalSnoc(committed, pending[i]);
        if !writes(pending[i]) {
          DropRest(pending, i);
          dropped := stream.segmentStart - audioBytes;
          return false;
        }
        Commit(pending[i]);
        i := i + 1;
      }
      assert pending[..i] == pending;
      return true;
    }

    lemma StreamTotal()
      requires stream.Valid()
      ensures TotalBytes(stream.segments) == stream.segmentStart
    {
      TotalIsCovered(stream.segments, stream.chunks, stream.segmentStart);
    }

    /** Flush, persist the trailing segment, finalize the row, and read the manifest back. */
    method Complete(writes: Segment -> bool, rowUpdated: bool, manifestRead: bool)
      returns (out: Result<StoredManifest, StoreError>)
      requires Valid()
      modifies this, stream
      ensures Valid() && stream.chunks == old(stream.chunks)
      ensures old(closed) <==> out == Err(Finalized)
      ensures out.Err? ==> !out.error.OutOfOrder?
      ensures dropped >= old(dropped) && (dropped > old(dropped) <==> out == Err(Unavailable))
      ensures out == Err(Unavailable) ==>
                stream.segments != [] && !writes(stream.segments[|stream.segments| - 1])
      ensures out == Err(Finalized) ==> unchanged(this) && unchanged(stream)
      ensures out == Err(Gone) ==> !rowUpdated
      ensures !old(closed) && (forall s :: writes(s)) ==> (out.Ok? <==> rowUpdated && manifestRead)
      ensures out.Ok? ==> rowUpdated && manifestRead
      ensures closed == (old(closed) || out.Ok? || out == Err(Unreadable))
      ensures out == Err(Unreadable) ==> rowUpdated && !manifestRead
      ensures out.Ok? ==> out.value == StoredManifest(committed, |committed|, TotalBytes(committed))
      ensures old(committed) <= committed && (out.Ok? && dropped == 0 ==> committed == stream.segments)
      ensures out.Ok? ==> Covers(stream.segments, stream.chunks, Length(stream.chunks))
      ensures out.Ok? ==> out.value.audioBytes + dropped == Length(stream.chunks)
    {
      hide TotalBytes, Covers, Tracks;
      if closed {
        return Err(Finalized);
      }
      ghost var known := stream.segments;
      StreamTotal();
      var last := stream.Flush();
      StreamTotal();
      if last.Some? {
        LastTotal(known, last.value);
        var stored := Persist([last.value], writes);
        if !stored {
          return Err(Unavailable);
        }
      }
      if !rowUpdated {
        return Err(Gone);
      }
      closed := true;
      stream.Wipe();
      if !manifestRead {
        return Err(Unreadable);
      }
      return Ok(StoredManifest(committed, segmentCount, audioBytes));
    }
  }

  lemma LastTotal(known: seq<Segment>, last: Segment)
    ensures TotalBytes(known + [last]) == TotalBytes(known) + TotalBytes([last])
  {
    TotalAppend(known, [last]);
  }

  lemma TotalNone()
    ensures TotalBytes([]) == 0
  {
  }

  lemma DropRest(pending: seq<Segment>, i: nat)
    requires i < |pending| && pending[i].payload != []
    ensures TotalBytes(pending[..i]) < TotalBytes(pending)
  {
    assert pending == pending[..i] + pending[i..];
    TotalAppend(pending[..i], pending[i..]);
    assert pending[i..] == [pending[i]] + pending[i + 1..];
    TotalAppend([pending[i]], pending[i + 1..]);
    assert [pending[i]][..0] == [];
  }

  // ---------- when a manifest has a hole ----------

  datatype StoreCall =
    | Chunk(payload: Bytes, chunkIndex: Option<int>, writes: Segment -> bool)
    | Ending(writes: Segment -> bool, rowUpdated: bool, manifestRead: bool)

  /** Any calls on a session, and what each raised. Audio is lost exactly when one of them raised
      that a write had failed. */
  method CallAll(store: AudioStore, calls: seq<StoreCall>) returns (errors: seq<Option<StoreError>>)
    requires store.Valid() && store.dropped == 0
    modifies store, store.stream
    ensures store.Valid() && |errors| == |calls|
    ensures store.dropped == 0 <==> Some(Unavailable) !in errors
  {
    hide AudioStore.Valid;
    errors := [];
    var i := 0;
    while i < |calls|
      invariant 0 <= i <= |calls| && |errors| == i && store.Valid()
      invariant store.dropped == 0 <==> Some(Unavailable) !in errors
    {
      match calls[i] {
        case Chunk(payload, chunkIndex, writes) =>
          var stored := store.StoreChunk(payload, chunkIndex, writes);
          errors := errors + [if stored.Err? then Some(stored.error) else None];
        case Ending(writes, rowUpdated, manifestRead) =>
          var ended := store.Complete(writes, rowUpdated, manifestRead);
          errors := errors + [if ended.Err? then Some(ended.error) else None];
      }
      i := i + 1;
    }
  }

  /** A finished manifest holds everything the session was given if and only if no earlier call on
      the session raised that a write had failed. */
  method HoleExactly(
    targetBytes: nat, calls: seq<StoreCall>, writes: Segment -> bool, rowUpdated: bool, manifestRead: bool)
    returns (store: AudioStore, errors: seq<Option<StoreError>>, out: Result<StoredManifest, StoreError>)
    requires targetBytes > 0
    ensures |errors| == |calls|
    ensures out.Ok? ==>
              && out.value == StoredManifest(store.committed, |store.committed|, TotalBytes(store.committed))
              && (out.value.audioBytes == Length(store.stream.chunks) <==> Some(Unavailable) !in errors)
              && (Some(Unavailable) !in errors ==>
                    Covers(out.value.segments, store.stream.chunks, Length(store.stream.chunks)))
  {
    var stream := new StreamAccumulator(targetBytes);
    store := new AudioStore(stream);
    errors := CallAll(store, calls);
    out := store.Complete(writes, rowUpdated, manifestRead);
  }

  /** It happens: a session that goes on after a failed write finalizes with less than it was given. */
  method HoleAfterFailedWrite() returns (manifest: StoredManifest, store: AudioStore)
    ensures store.closed && manifest == StoredManifest(store.committed, |store.committed|, TotalBytes(store.committed))
    ensures manifest.audioBytes < Length(store.stream.chunks)
  {
    hide Covers, TotalBytes, SlicesIn, Concat;
    var stream := new StreamAccumulator(1);
    store := new AudioStore(stream);
    var payload: Bytes := [5];
    var failing: Segment -> bool := _ => false;
    var first := store.StoreChunk(payload, None, failing);
    ConcatNothing();
    LengthSnoc([], payload);
    assert [] + [payload] == [payload];
    NothingCovered(stream.segments, stream.chunks, stream.segmentStart);
    if first.Ok? && first.value != [] {
      FirstWritten(first.value, failing);
    }
    var last := store.Complete(_ => true, true, true);
    manifest := last.value;
  }

  lemma ConcatNothing()
    ensures Concat([]) == []
  {
  }

  lemma FirstWritten(segments: seq<Segment>, writes: Segment -> bool)
    requires AllWritten(segments, writes) && segments != []
    ensures writes(segments[0])
  {
  }

  lemma NothingCovered(segments: seq<Segment>, chunks: seq<Bytes>, upto: nat)
    requires Covers(segments, chunks, upto)
    ensures segments == [] ==> upto == 0
  {
  }
}
