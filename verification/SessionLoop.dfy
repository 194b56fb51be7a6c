/**
 The receive loop of a WebSocket session: frames in, stored segments, analysed buffer, receipts and
 progressive updates out. Inference, the socket and the two stores answer through parameters.
 */
module SessionLoop {
  import opened Bytes
  import opened Manifest
  import opened StreamAccumulator
  import opened AudioStore
  import opened Playout
  import opened ReorderBuffer
  import opened StreamTail
  import opened Receipts
  import opened Progress
  import ReorderTheorems

  datatype Settings = Settings(
    maxUploadBytes: nat,
    minAudioSeconds: real,
    maxAudioSeconds: real,
    emitInterval: real,
    maxEmitInterval: real,
    emitBackoff: real,
    analysisWindowSeconds: real)

  /** What settings validation guarantees. */
  predicate Validated(s: Settings) {
    && 0.0 < s.emitInterval <= s.maxEmitInterval
    && s.emitBackoff >= 1.0
    && 0.0 <= s.analysisWindowSeconds <= s.maxAudioSeconds
  }

  datatype Stream = Stream(frame: nat, sampleRate: nat)

  predicate Playable(s: Stream) {
    s.frame > 0 && s.sampleRate > 0
  }

  datatype Labels = Labels(gender: string, ageBracket: string)

  /** What the loop can receive; an analysis answers with labels or fails. */
  datatype Message =
    | Disconnect
    | Timeout
    | Binary(frame: Bytes, answer: Option<Labels>)
    | Ping
    | End(answered: bool)
    | Unexpected

  datatype Failure =
    | TooLarge
    | TooLong
    | MissingAudio
    | BadFrame
    | AnalysisFailed
    | ProtocolError
    | TimedOut
    | Storage(error: StoreError)

  datatype Outcome =
    | Continue
    | Left
    | Failed(failure: Failure)
    | Final(manifest: Option<StoredManifest>)

  /** What the pacing of updates remembers: when the last one was, the interval in force, and the
      labels it gave. */
  datatype Pace = Pace(last: real, interval: real, labels: Option<Labels>)

  function Duration(n: nat, s: Stream): real
    requires Playable(s)
  {
    n as real / (s.frame * s.sampleRate) as real
  }

  lemma DurationGrows(m: nat, n: nat, s: Stream)
    requires Playable(s) && m <= n
    ensures 0.0 <= Duration(m, s) <= Duration(n, s)
  {
    var d := (s.frame * s.sampleRate) as real;
    QuotientGrows(m as real, n as real, d);
    QuotientGrows(0.0, m as real, d);
  }

  lemma QuotientGrows(x: real, y: real, d: real)
    requires d > 0.0 && x <= y
    ensures x / d <= y / d
  {
    assert (y - x) / d >= 0.0;
    assert y / d == x / d + (y - x) / d;
  }

  /** So many whole seconds of audio last exactly that long. */
  lemma DurationOfSeconds(seconds: nat, s: Stream)
    requires Playable(s)
    ensures Duration(seconds * (s.frame * s.sampleRate), s) == seconds as real
  {
    var d := s.frame * s.sampleRate;
    CastProduct(seconds, d);
    Cancels(seconds as real, d as real);
  }

  lemma CastProduct(a: int, b: int)
    ensures (a * b) as real == a as real * b as real
  {
  }

  lemma Cancels(x: real, d: real)
    requires d > 0.0
    ensures (x * d) / d == x
  {
  }

  /** The stream a client announces. */
  function Announced(e: Encoding, channels: nat, rate: nat): Stream
    requires !e.Other?
  {
    Stream(channels * BytesPerSample(e).value, rate)
  }

  /** A segment asked for whole seconds plays for exactly that long. */
  lemma SegmentLasts(e: Encoding, channels: nat, rate: nat, seconds: nat)
    requires rate > 0 && channels > 0 && seconds > 0 && !e.Other?
    ensures var s, target := Announced(e, channels, rate), SegmentTargetBytes(e, rate, channels, seconds as real);
            && Playable(s)
            && target.Ok? && target.value >= 0
            && Duration(target.value, s) == seconds as real
  {
    hide SegmentTargetBytes, Duration, BytesOf;
    var width := BytesPerSample(e).value;
    WholeSeconds(e, rate, channels, seconds);
    FramesOf(seconds, rate, channels, width);
    DurationOfSeconds(seconds, Announced(e, channels, rate));
  }

  lemma FramesOf(seconds: nat, rate: nat, channels: nat, width: nat)
    requires channels > 0 && width > 0
    ensures channels * width > 0
    ensures BytesOf(seconds, rate, channels, width) == seconds * ((channels * width) * rate)
  {
    assert seconds * rate * channels * width == seconds * ((channels * width) * rate);
  }

  /** Audio lasts as long as its parts. */
  lemma DurationAdds(m: nat, n: nat, s: Stream)
    requires Playable(s)
    ensures Duration(m + n, s) == Duration(m, s) + Duration(n, s)
  {
    var d := (s.frame * s.sampleRate) as real;
    assert (m as real + n as real) / d == m as real / d + n as real / d;
  }

  /** So many bytes take more than `seconds` to play. */
  predicate PlaysBeyond(n: nat, s: Stream, seconds: real) {
    n as real > seconds * (s.frame * s.sampleRate) as real
  }

  lemma DurationInBytes(n: nat, s: Stream, seconds: real)
    requires Playable(s)
    ensures Duration(n, s) > seconds <==> PlaysBeyond(n, s, seconds)
  {
    QuotientExceeds(n as real, (s.frame * s.sampleRate) as real, seconds);
  }

  lemma QuotientExceeds(x: real, d: real, y: real)
    requires d > 0.0
    ensures x / d > y <==> x > y * d
  {
    var q := x / d;
    assert q * d == x;
    if q > y { assert (q - y) * d > 0.0; }
    if q <= y { assert (y - q) * d >= 0.0; }
  }

  /** The binary frames received before the loop's i-th message. */
  function Frames(messages: seq<Message>): seq<Bytes> {
    if messages == [] then []
    else
      var n := |messages| - 1;
      Frames(messages[..n]) + if messages[n].Binary? then [messages[n].frame] else []
  }

  lemma NoFrames()
    ensures Frames([]) == []
  {
  }

  lemma FramesSnoc(messages: seq<Message>, i: nat)
    requires i < |messages|
    ensures Frames(messages[..i + 1]) ==
              if messages[i].Binary? then Frames(messages[..i]) + [messages[i].frame] else Frames(messages[..i])
  {
    assert messages[..i + 1][..i] == messages[..i];
  }

  /** What sequenced frames mean to the reorder buffer. */
  function Arrivals(frames: seq<Bytes>): seq<ReorderTheorems.Event> {
    if frames == [] then []
    else
      var f := frames[|frames| - 1];
      Arrivals(frames[..|frames| - 1]) +
      if |f| >= 4 then [ReorderTheorems.Push(BigEndian32(f[..4]), f[4..])] else []
  }

  lemma ArrivalsSnoc(window: nat, maxRepeat: nat, frames: seq<Bytes>, f: Bytes)
    requires |f| >= 4
    ensures ReorderTheorems.Run(window, maxRepeat, Arrivals(frames + [f])) ==
              Arrive(ReorderTheorems.Run(window, maxRepeat, Arrivals(frames)), BigEndian32(f[..4]), f[4..])
  {
    hide Arrive, BigEndian32;
    var e := ReorderTheorems.Push(BigEndian32(f[..4]), f[4..]);
    assert (frames + [f])[..|frames|] == frames;
    var before := Arrivals(frames);
    assert (before + [e])[..|before|] == before;
  }

  lemma ShortFrame(frames: seq<Bytes>, f: Bytes)
    requires |f| < 4
    ensures Arrivals(frames + [f]) == Arrivals(frames)
  {
    assert (frames + [f])[..|frames|] == frames;
  }

  /** Frames that all carry so many bytes arrive as such. */
  lemma {:induction false} ArrivalsUniform(frames: seq<Bytes>, length: nat)
    requires forall i :: 0 <= i < |frames| && |frames[i]| >= 4 ==> |frames[i]| == length + 4
    ensures forall e :: e in Arrivals(frames) ==> e.Push? && |e.payload| == length
  {
    hide BigEndian32;
    if frames != [] { ArrivalsUniform(frames[..|frames| - 1], length); }
  }

  lemma ArriveReleasesMore(p: Playout, sequence: nat, payload: Bytes)
    requires |p.released| == p.next
    ensures |Concat(p.released)| <= |Concat(Arrive(p, sequence, payload).released)|
  {
    hide Concat, Arrive;
    ReorderTheorems.StepReleases(p, ReorderTheorems.Push(sequence, payload));
    var more := Arrive(p, sequence, payload).released;
    assert more[..|p.released|] == p.released;
    ConcatPrefix(more, |p.released|);
  }

  class WebSocketSession {
    const settings: Settings
    const source: Stream
    const reorder: ReorderBuffer?
    const store: AudioStore?      // of a session that retains audio
    const row: ResultRow?         // of one that retains its result only
    var buffer: Bytes
    var duration: real
    var sequence: nat
    var lastEmittedAt: real
    var emitInterval: real
    var lastLabels: Option<Labels>
    var chunksReceived: nat
    var chunkSizes: map<nat, nat>
    var storedChunkBytes: map<nat, int>
    var segmentsStored: nat
    var bytesStored: nat
    ghost var incoming: seq<Bytes>
    ghost var updates: seq<Update>

    ghost function StoreObjects(): set<object> {
      if store == null then {} else {store, store.stream}
    }

    ghost function RowObjects(): set<object> {
      if row == null then {} else {row}
    }

    ghost function ReorderObjects(): set<object> {
      if reorder == null then {} else {reorder}
    }

    /** The store was given exactly these bytes, and the counters describe what it holds. */
    ghost predicate Stocked(bytes: Bytes)
      reads this`chunksReceived, this`chunkSizes, this`storedChunkBytes, this`segmentsStored, this`bytesStored
      reads StoreObjects()
    {
      store != null ==>
        && store.Valid() && store.dropped == 0
        && Concat(store.stream.chunks) == bytes && AllNonEmpty(store.stream.chunks)
        && chunksReceived == |store.stream.chunks|
        && Booked(chunkSizes, storedChunkBytes, store.committed, store.stream.chunks)
        && segmentsStored == store.segmentCount && bytesStored == store.audioBytes
    }

    /** Nobody has finalized the session, and every write succeeds. */
    ghost predicate StorageAnswers(writes: Segment -> bool)
      reads StoreObjects(), RowObjects()
    {
      && (store != null ==> !store.closed && forall s :: writes(s))
      && (row != null ==> !row.closed)
    }

    ghost function Limit(): nat
      requires Validated(settings)
    {
      LimitBytes(settings.analysisWindowSeconds, source.sampleRate, source.frame)
    }

    /** The limits hold, and progressive updates are paced. */
    ghost predicate PacingOk()
      reads this`buffer, this`duration, this`sequence, this`lastEmittedAt, this`emitInterval, this`updates
    {
      && Validated(settings) && Playable(source)
      && |buffer| <= settings.maxUploadBytes
      && duration == Duration(|buffer|, source) <= settings.maxAudioSeconds
      && settings.emitInterval <= emitInterval <= settings.maxEmitInterval
      && sequence == |updates|
      && lastEmittedAt == LastAt(updates) && 0.0 <= lastEmittedAt <= duration
      && Paced(updates, settings.emitInterval, source.frame, Limit())
      && (forall u :: u in updates ==> u.at >= settings.minAudioSeconds)
    }

    /** No update that is due is missing. */
    ghost predicate NothingOverdue()
      reads this`duration, this`lastEmittedAt, this`emitInterval
    {
      duration < settings.minAudioSeconds || duration - lastEmittedAt < emitInterval
    }

    /** Everything let go so far, in order. */
    ghost function Received(): Bytes
      reads this`incoming, ReorderObjects()
    {
      if reorder == null then Concat(incoming) else Concat(reorder.released)
    }

    ghost predicate Ordered(bytes: Bytes)
      reads this`incoming, ReorderObjects()
    {
      && bytes == Received()
      && (reorder != null ==> reorder.Valid() && SilenceKnown(reorder.View()))
    }

    /** So many bytes are within both limits. */
    ghost predicate Within(n: nat) {
      Playable(source) && n <= settings.maxUploadBytes && !PlaysBeyond(n, source, settings.maxAudioSeconds)
    }

    ghost predicate Fits(bytes: Bytes) {
      Within(|bytes|)
    }

    /** How many bytes a flush of the reorder buffer would play out now. */
    ghost function Waiting(): nat
      reads ReorderObjects()
    {
      if reorder == null then 0
      else WaitingBytes(reorder.Stored(), reorder.maxRepeat, reorder.frameBytes, reorder.next)
    }

    // ---------- the pace of updates ----------

    ghost function Now(): Pace
      reads this`lastEmittedAt, this`emitInterval, this`lastLabels
    {
      Pace(lastEmittedAt, emitInterval, lastLabels)
    }

    /** With these bytes received, an update is due. */
    ghost predicate DueOn(bytes: Bytes, p: Pace) {
      && Playable(source) && bytes != []
      && Duration(|bytes|, source) >= settings.minAudioSeconds
      && Duration(|bytes|, source) - p.last >= p.interval
    }

    /** The pace after the update that is due, if one is and the analysis answers. */
    ghost function Tick(p: Pace, bytes: Bytes, answer: Option<Labels>): Pace {
      if DueOn(bytes, p) && answer.Some? then
        Pace(Duration(|bytes|, source),
             NextInterval(p.interval, settings.emitInterval, settings.maxEmitInterval, settings.emitBackoff,
                          p.labels == answer),
             answer)
      else p
    }

    /** Buffer, store, counters, order and limits agree. */
    ghost predicate Consistent()
      reads this, StoreObjects(), ReorderObjects()
    {
      Stocked(buffer) && PacingOk() && Ordered(buffer)
    }

    /** What holds at every loop head. */
    ghost predicate Valid()
      reads this, StoreObjects(), ReorderObjects()
    {
      Consistent() && NothingOverdue()
    }

    constructor (settings: Settings, source: Stream, reorder: ReorderBuffer?, store: AudioStore?, row: ResultRow?)
      requires Validated(settings) && Playable(source) && settings.maxAudioSeconds >= 0.0
      requires reorder != null ==> reorder.Valid() && reorder.View() == Init(reorder.window, reorder.maxRepeat)
      requires store == null || row == null
      requires store != null ==>
                 store.Valid() && store.dropped == 0 && store.stream.chunks == [] && store.committed == []
      ensures Valid() && Heard([])
      ensures this.settings == settings && this.source == source
      ensures this.reorder == reorder && this.store == store && this.row == row
      ensures sequence == 0 && incoming == [] && buffer == [] && fresh(this)
    {
      this.settings, this.source, this.reorder, this.store, this.row := settings, source, reorder, store, row;
      buffer, duration, sequence, lastEmittedAt := [], 0.0, 0, 0.0;
      emitInterval, lastLabels := settings.emitInterval, None;
      chunksReceived, chunkSizes, storedChunkBytes, segmentsStored, bytesStored := 0, map[], map[], 0, 0;
      incoming, updates := [], [];
    }

    // ---------- receipts ----------

    /** Count one stored segment. */
    method RecordSegment(segment: Segment)
      modifies this`segmentsStored, this`bytesStored, this`storedChunkBytes
      ensures segmentsStored == old(segmentsStored) + 1 && bytesStored == old(bytesStored) + |segment.payload|
      ensures forall k :: Count(storedChunkBytes, k) ==
                          old(Count(storedChunkBytes, k)) + SliceBytes(segment.slices, k)
    {
      segmentsStored := segmentsStored + 1;
      bytesStored := bytesStored + |segment.payload|;
      var i := 0;
      while i < |segment.slices|
        invariant 0 <= i <= |segment.slices|
        invariant segmentsStored == old(segmentsStored) + 1 && bytesStored == old(bytesStored) + |segment.payload|
        invariant forall k :: Count(storedChunkBytes, k) ==
                              old(Count(storedChunkBytes, k)) + SliceBytes(segment.slices[..i], k)
      {
        var item := segment.slices[i];
        assert segment.slices[..i + 1][..i] == segment.slices[..i];
        storedChunkBytes := storedChunkBytes[item.chunkIndex :=
          Count(storedChunkBytes, item.chunkIndex) + item.sourceEnd - item.sourceStart];
        i := i + 1;
      }
      assert segment.slices[..i] == segment.slices;
    }

    method Record(stored: seq<Segment>, ghost before: seq<Segment>)
      requires segmentsStored == |before| && bytesStored == TotalBytes(before)
      requires forall k :: Count(storedChunkBytes, k) == StoredBytes(before, k)
      modifies this`segmentsStored, this`bytesStored, this`storedChunkBytes
      ensures segmentsStored == |before + stored| && old(bytesStored) <= bytesStored == TotalBytes(before + stored)
      ensures forall k :: Count(storedChunkBytes, k) == StoredBytes(before + stored, k)
    {
      var i := 0;
      assert before + stored[..0] == before;
      while i < |stored|
        invariant 0 <= i <= |stored|
        invariant segmentsStored == |before| + i && old(bytesStored) <= bytesStored == TotalBytes(before + stored[..i])
        invariant forall k :: Count(storedChunkBytes, k) == StoredBytes(before + stored[..i], k)
      {
        ghost var done := before + stored[..i];
        RecordSegment(stored[i]);
        assert before + stored[..i + 1] == done + [stored[i]];
        TotalSnoc(done, stored[i]);
        StoredSnoc(done, stored[i]);
        i := i + 1;
      }
      assert stored[..i] == stored;
    }

    // ---------- one released chunk ----------

    /** Hand a chunk to the session's audio store and book what came back. */
    method StoreAndRecord(chunk: Bytes, writes: Segment -> bool) returns (error: Option<StoreError>)
      requires store != null && Stocked(buffer) && chunk != []
      modifies this`chunksReceived, this`chunkSizes, this`segmentsStored, this`bytesStored, this`storedChunkBytes
      modifies StoreObjects()
      ensures error.None? ==> Stocked(buffer + chunk)
      ensures error.Some? ==> error.value.Finalized? || error.value.Unavailable?
      ensures old(StorageAnswers(writes)) ==> error.None? && StorageAnswers(writes)
      ensures bytesStored >= old(bytesStored)
    {
      hide Concat, TotalBytes, StoredBytes, AllNonEmpty;
      ghost var before, chunks := store.committed, store.stream.chunks;
      chunkSizes := chunkSizes[chunksReceived := |chunk|];
      var stored := store.StoreChunk(chunk, Some(chunksReceived as int), writes);
      if stored.Err? {
        return Some(stored.error);
      }
      ConcatSnoc(chunks, chunk);
      NonEmptySnoc(chunks, chunk);
      chunksReceived := chunksReceived + 1;
      Record(stored.value, before);
      return None;
    }

    /** One non-empty chunk: limits, storage and receipts, then the analysis buffer. */
    method TakeChunk(chunk: Bytes, writes: Segment -> bool) returns (out: Outcome)
      requires Stocked(buffer) && PacingOk() && chunk != []
      modifies this, StoreObjects()
      ensures out.Continue? ==> Stocked(buffer) && PacingOk() && buffer == old(buffer) + chunk
      ensures out == Failed(TooLarge) <==> |old(buffer) + chunk| > settings.maxUploadBytes
      ensures out == Failed(TooLong) <==>
                && |old(buffer) + chunk| <= settings.maxUploadBytes
                && PlaysBeyond(|old(buffer) + chunk|, source, settings.maxAudioSeconds)
      ensures out.Continue? || out == Failed(TooLarge) || out == Failed(TooLong)
              || out == Failed(Storage(Finalized)) || out == Failed(Storage(Unavailable))
      ensures incoming == old(incoming) && updates == old(updates) && Now() == old(Now())
      ensures bytesStored >= old(bytesStored)
      ensures old(StorageAnswers(writes)) ==> StorageAnswers(writes) && !(out.Failed? && out.failure.Storage?)
      ensures Playable(source)
    {
      hide Stocked, Paced, LimitBytes, Duration, PlaysBeyond;
      var projected := |buffer| + |chunk|;
      if projected > settings.maxUploadBytes {
        return Failed(TooLarge);
      }
      DurationGrows(|buffer|, projected, source);
      DurationInBytes(projected, source, settings.maxAudioSeconds);
      duration := Duration(projected, source);
      if duration > settings.maxAudioSeconds {
        return Failed(TooLong);
      }
      if store != null {
        var error := StoreAndRecord(chunk, writes);
        if error.Some? {
          return Failed(Storage(error.value));
        }
      } else {
        NotStocked(buffer + chunk);
      }
      buffer := buffer + chunk;
      return Continue;
    }

    lemma BeyondGrows(m: nat, n: nat)
      requires m <= n
      ensures forall seconds :: PlaysBeyond(m, source, seconds) ==> PlaysBeyond(n, source, seconds)
    {
    }

    lemma NotStocked(bytes: Bytes)
      requires store == null
      ensures Stocked(bytes)
    {
    }

    /** Every non-empty chunk of one batch, in order, up to the first failure. */
    method TakeAll(ordered: seq<Bytes>, writes: Segment -> bool) returns (out: Outcome)
      requires Stocked(buffer) && PacingOk()
      modifies this, StoreObjects()
      ensures out.Continue? ==> Stocked(buffer) && PacingOk() && buffer == old(buffer) + Concat(ordered)
      ensures out == Failed(TooLarge) ==> |old(buffer) + Concat(ordered)| > settings.maxUploadBytes
      ensures out == Failed(TooLong) ==>
                PlaysBeyond(|old(buffer) + Concat(ordered)|, source, settings.maxAudioSeconds)
      ensures out.Continue? || out == Failed(TooLarge) || out == Failed(TooLong)
              || out == Failed(Storage(Finalized)) || out == Failed(Storage(Unavailable))
      ensures incoming == old(incoming) && updates == old(updates) && Now() == old(Now())
      ensures bytesStored >= old(bytesStored)
      ensures old(StorageAnswers(writes)) ==> StorageAnswers(writes) && !(out.Failed? && out.failure.Storage?)
    {
      hide Concat, Stocked, PacingOk, Duration, PlaysBeyond;
      var i := 0;
      ConcatNone();
      assert ordered[..0] == [];
      while i < |ordered|
        invariant 0 <= i <= |ordered|
        invariant Stocked(buffer) && PacingOk() && buffer == old(buffer) + Concat(ordered[..i])
        invariant incoming == old(incoming) && updates == old(updates) && Now() == old(Now())
        invariant bytesStored >= old(bytesStored)
        invariant old(StorageAnswers(writes)) ==> StorageAnswers(writes)
      {
        assert ordered[..i + 1] == ordered[..i] + [ordered[i]];
        ConcatSnoc(ordered[..i], ordered[i]);
        if ordered[i] != [] {
          var taken := TakeChunk(ordered[i], writes);
          if !taken.Continue? {
            ConcatPrefix(ordered, i + 1);
            BeyondGrows(|old(buffer) + Concat(ordered[..i + 1])|, |old(buffer) + Concat(ordered)|);
            return taken;
          }
        }
        i := i + 1;
      }
      assert ordered[..i] == ordered;
      return Continue;
    }

    // ---------- one binary message ----------

    /** The frames this message lets go, in order. */
    method Order(binary: Bytes) returns (out: Result<seq<Bytes>, string>)
      requires Ordered(buffer)
      modifies this`incoming, ReorderObjects()
      ensures incoming == old(incoming) + [binary]
      ensures reorder == null ==> out == Ok([binary])
      ensures reorder != null ==> (out.Ok? <==> |binary| >= 4)
      ensures out.Ok? ==> Ordered(buffer + Concat(out.value))
      ensures reorder != null && out.Ok? ==>
                && reorder.View() == Arrive(old(reorder.View()), BigEndian32(binary[..4]), binary[4..])
                && reorder.released == old(reorder.released) + out.value
    {
      hide Arrive, SilenceKnown, Concat, BigEndian32;
      incoming := incoming + [binary];
      if reorder == null {
        ConcatOne(binary);
        ConcatSnoc(old(incoming), binary);
        return Ok([binary]);
      }
      var frame := ParseSequencedFrame(binary);
      if frame.Err? {
        return Err(frame.error);
      }
      ArriveKeepsSilence(reorder.View(), frame.value.0, frame.value.1);
      out := reorder.Push(frame.value.0, frame.value.1);
      ConcatAppend(old(reorder.released), out.value);
    }

    /** A progressive update, when one is due: analyse the trailing window and back off. */
    method MaybeEmit(answer: Option<Labels>) returns (out: Outcome)
      requires PacingOk()
      modifies this`sequence, this`lastEmittedAt, this`emitInterval, this`lastLabels, this`updates
      ensures PacingOk() && Now() == Tick(old(Now()), buffer, answer)
      ensures out.Continue? ==> NothingOverdue()
      ensures out == if DueOn(buffer, old(Now())) && answer.None? then Failed(AnalysisFailed) else Continue
      ensures updates == old(updates) +
                if DueOn(buffer, old(Now())) && answer.Some?
                then [Update(duration, AnalysisOffset(|buffer|, source.frame, Limit()), |buffer|)] else []
      ensures updates != old(updates) ==>
                emitInterval == if old(lastLabels) == answer
                                then Capped(old(emitInterval) * settings.emitBackoff, settings.maxEmitInterval)
                                else settings.emitInterval
    {
      hide Paced, LastAt, LimitBytes, Duration, AnalysisOffset, NextInterval;
      NoAudioNoTime();
      IntervalIs(emitInterval, settings.emitInterval, settings.maxEmitInterval, settings.emitBackoff);
      if buffer != [] && duration >= settings.minAudioSeconds && duration - lastEmittedAt >= emitInterval {
        AnalysisOffsetFits(|buffer|, source.frame, Limit());
        var limit := LimitBytes(settings.analysisWindowSeconds, source.sampleRate, source.frame);
        var offset := AnalysisOffset(|buffer|, source.frame, limit);
        if answer.None? {
          return Failed(AnalysisFailed);
        }
        sequence := sequence + 1;
        PacedSnoc(updates, Update(duration, offset, |buffer|), settings.emitInterval, source.frame, limit);
        updates := updates + [Update(duration, offset, |buffer|)];
        lastEmittedAt := duration;
        var settled := lastLabels == answer;
        IntervalStays(emitInterval, settings.emitInterval, settings.maxEmitInterval, settings.emitBackoff, settled);
        emitInterval := NextInterval(emitInterval, settings.emitInterval, settings.maxEmitInterval,
                                     settings.emitBackoff, settled);
        lastLabels := answer;
      }
      return Continue;
    }

    /** Order the message's frame and take what it lets go. */
    method Absorb(binary: Bytes, writes: Segment -> bool) returns (out: Outcome)
      requires Consistent()
      modifies this, StoreObjects(), ReorderObjects()
      ensures out.Continue? ==> Consistent() && buffer == Received()
      ensures incoming == old(incoming) + [binary] && updates == old(updates) && Now() == old(Now())
      ensures out == Failed(BadFrame) <==> reorder != null && |binary| < 4
      ensures reorder != null && |binary| >= 4 ==>
                reorder.View() == Arrive(old(reorder.View()), BigEndian32(binary[..4]), binary[4..])
      ensures bytesStored >= old(bytesStored)
      ensures out.Continue? || out.Failed?
      ensures out == Failed(TooLarge) ==> |Received()| > settings.maxUploadBytes
      ensures out == Failed(TooLong) ==> PlaysBeyond(|Received()|, source, settings.maxAudioSeconds)
      ensures out != Failed(AnalysisFailed)
      ensures old(StorageAnswers(writes)) ==> StorageAnswers(writes)
      ensures old(StorageAnswers(writes)) && out.Failed? ==>
                out.failure == BadFrame || out.failure == TooLarge || out.failure == TooLong
    {
      hide Arrive, Concat, BigEndian32, Stocked, PacingOk, Ordered, Duration, SilenceKnown, Agrees;
      var ordered := Order(binary);
      if ordered.Err? {
        return Failed(BadFrame);
      }
      OrderedMeans(buffer + Concat(ordered.value));
      out := TakeAll(ordered.value, writes);
    }

    method OnBinary(binary: Bytes, answer: Option<Labels>, writes: Segment -> bool) returns (out: Outcome)
      requires Valid()
      modifies this, StoreObjects(), ReorderObjects()
      ensures out.Continue? ==> Valid()
      ensures incoming == old(incoming) + [binary]
      ensures out == Failed(BadFrame) <==> reorder != null && |binary| < 4
      ensures reorder != null && |binary| >= 4 ==>
                reorder.View() == Arrive(old(reorder.View()), BigEndian32(binary[..4]), binary[4..])
      ensures bytesStored >= old(bytesStored)
      ensures old(updates) <= updates && |updates| <= |old(updates)| + 1
      ensures out.Continue? || out.Failed?
      ensures out == Failed(TooLarge) ==> |Received()| > settings.maxUploadBytes
      ensures out == Failed(TooLong) ==> PlaysBeyond(|Received()|, source, settings.maxAudioSeconds)
      ensures old(StorageAnswers(writes)) ==> StorageAnswers(writes)
      ensures out == Failed(AnalysisFailed) ==> answer.None? && DueOn(Received(), old(Now()))
      ensures old(StorageAnswers(writes)) && out.Failed? ==>
                || out.failure == BadFrame || out.failure == TooLarge || out.failure == TooLong
                || out.failure == AnalysisFailed
      ensures out.Continue? ==>
                && Fits(Received()) && (answer.Some? || !DueOn(Received(), old(Now())))
                && Now() == Tick(old(Now()), Received(), answer)
    {
      hide Arrive, Concat, BigEndian32, Stocked, Ordered, Duration, DueOn, Tick, Paced, LimitBytes;
      out := Absorb(binary, writes);
      if out.Continue? {
        DurationInBytes(|buffer|, source, settings.maxAudioSeconds);
        out := MaybeEmit(answer);
      }
    }

    lemma NoAudioNoTime()
      requires PacingOk()
      ensures buffer == [] ==> duration == 0.0 == lastEmittedAt
    {
      if buffer == [] { DurationOfSeconds(0, source); }
    }

    lemma OrderedMeans(bytes: Bytes)
      requires Ordered(bytes)
      ensures bytes == Received()
    {
    }

    // ---------- the end of the session ----------

    /** The finalized manifest holds `stored`, chunk for chunk. */
    ghost predicate Sealed(m: StoredManifest, stored: Bytes)
      reads this`chunksReceived, StoreObjects()
    {
      && store != null && store.closed
      && m == StoredManifest(store.committed, |store.committed|, |stored|)
      && Concat(store.stream.chunks) == stored && AllNonEmpty(store.stream.chunks)
      && Covers(m.segments, store.stream.chunks, |stored|)
      && Concat(Payloads(m.segments)) == stored
      && |ManifestChunks(m.segments)| == chunksReceived
    }

    /** Add every non-empty chunk to the analysed buffer. */
    method Extend(tail: seq<Bytes>)
      modifies this`buffer
      ensures buffer == old(buffer) + Concat(tail)
    {
      hide Concat;
      var i := 0;
      ConcatNone();
      assert tail[..0] == [];
      while i < |tail|
        invariant 0 <= i <= |tail| && buffer == old(buffer) + Concat(tail[..i])
      {
        assert tail[..i + 1] == tail[..i] + [tail[i]];
        ConcatSnoc(tail[..i], tail[i]);
        if tail[i] != [] {
          buffer := buffer + tail[i];
        }
        i := i + 1;
      }
      assert tail[..i] == tail;
    }

    /** Add what the reorder buffer still holds to the analysed buffer, and to nothing else. */
    method FlushTail()
      requires Ordered(buffer)
      modifies this`buffer, ReorderObjects()
      ensures Ordered(buffer)
      ensures old(buffer) <= buffer && |buffer| == |old(buffer)| + old(Waiting())
      ensures reorder == null ==> buffer == old(buffer)
      ensures reorder != null ==> reorder.View() == Finish(old(reorder.View()))
      ensures buffer != [] ==> (buffer == old(buffer) <==> reorder == null || old(reorder.pending) == map[])
    {
      hide Concat, Finish, SilenceKnown, From, Agrees, WaitingBytes;
      if reorder != null {
        ghost var p := reorder.View();
        FlushAdds(reorder.Stored(), p);
        HeldFacts(reorder.Stored(), p);
        FinishKeepsSilence(p);
        var tail := reorder.Flush();
        ConcatAppend(p.released, tail);
        if Concat(reorder.released) != [] {
          FlushAddsAudioIff(p);
        }
        Extend(tail);
      }
    }

    /** With frames of one length, a flushed stream is one of them for every number up to the highest. */
    lemma UniformEnd()
      requires Ordered(buffer)
      ensures reorder != null ==>
                forall length :: ReorderTheorems.Uniform(reorder.View(), length) ==>
                                   |Concat(Finish(reorder.View()).released)| == (reorder.highest + 1) * length
    {
      hide Concat, Finish, SilenceKnown, Agrees, ReorderTheorems.Uniform;
      if reorder != null {
        var p := reorder.View();
        HeldFacts(reorder.Stored(), p);
        AgreesCounts(reorder.Stored(), p);
        forall length | ReorderTheorems.Uniform(p, length)
          ensures |Concat(Finish(p).released)| == (reorder.highest + 1) * length
        {
          ReorderTheorems.UniformFlush(p, length);
        }
      }
    }

    /** Over a whole session: when every readable frame carries `length` bytes, the final analysis sees
        `length` bytes for every frame number up to the highest heard. */
    lemma UniformSession(frames: seq<Bytes>, length: nat)
      requires reorder != null && length > 0
      requires forall i :: 0 <= i < |frames| && |frames[i]| >= 4 ==> |frames[i]| == length + 4
      ensures var p := ReorderTheorems.Run(reorder.window, reorder.maxRepeat, Arrivals(frames));
              && ReorderTheorems.Uniform(p, length)
              && |AnalysedStream(frames)| == FlushEnd(p) * length
    {
      hide Arrivals, Concat, ReorderTheorems.Uniform, ReorderTheorems.Run, Finish, FlushEnd;
      ArrivalsUniform(frames, length);
      var events := Arrivals(frames);
      ReorderTheorems.RunUniform(reorder.window, reorder.maxRepeat, events, length);
      ReorderTheorems.RunAtRest(reorder.window, reorder.maxRepeat, events);
      ReorderTheorems.UniformFlush(ReorderTheorems.Run(reorder.window, reorder.maxRepeat, events), length);
    }

    /** Finalize the store. What it then holds is the stream the loop stored, and all of it. */
    method CompleteStore(ghost stored: Bytes, writes: Segment -> bool, rowUpdated: bool, manifestRead: bool)
      returns (out: Result<StoredManifest, StoreError>)
      requires store != null && Stocked(stored)
      modifies StoreObjects()
      ensures old(StorageAnswers(writes)) && rowUpdated && manifestRead ==> out.Ok?
      ensures out.Ok? ==> Sealed(out.value, stored) && Concat(Payloads(out.value.segments)) == stored
    {
      hide Concat, Payloads, ManifestChunks, AllNonEmpty, Covers, TotalBytes;
      out := store.Complete(writes, rowUpdated, manifestRead);
      if out.Ok? {
        ghost var chunks, segments := store.stream.chunks, store.committed;
        PayloadsAreStream(segments, chunks, Length(chunks));
        ManifestReceiptIsComplete(segments, chunks);
      }
    }

    /** `storage.complete`: nothing to do without retention, otherwise the row, with or without audio. */
    method CompleteSession(ghost stored: Bytes, writes: Segment -> bool, rowUpdated: bool, manifestRead: bool)
      returns (out: Result<Option<StoredManifest>, StoreError>)
      requires Stocked(stored)
      modifies StoreObjects(), RowObjects()
      ensures old(StorageAnswers(writes)) && rowUpdated && manifestRead ==> out.Ok?
      ensures out.Ok? ==> (out.value.None? <==> store == null && row == null)
      ensures out.Ok? && store != null ==>
                Sealed(out.value.value, stored) && Concat(Payloads(out.value.value.segments)) == stored
      ensures out.Ok? && store == null && row != null ==> row.closed && out.value == Some(StoredManifest([], 0, 0))
    {
      hide Stocked, Sealed, Concat, Payloads;
      if store != null {
        var completed := CompleteStore(stored, writes, rowUpdated, manifestRead);
        if completed.Err? {
          return Err(completed.error);
        }
        return Ok(Some(completed.value));
      }
      if row != null {
        var completed := row.Complete(rowUpdated, manifestRead);
        if completed.Err? {
          return Err(completed.error);
        }
        return Ok(Some(completed.value));
      }
      return Ok(None);
    }

    /** `end`: the reorder buffer's tail joins the analysed buffer only, then the session is analysed
        and its manifest finalized. */
    method OnEnd(answered: bool, writes: Segment -> bool, rowUpdated: bool, manifestRead: bool)
      returns (out: Outcome)
      requires Valid()
      modifies this`buffer, this`sequence, ReorderObjects(), StoreObjects(), RowObjects()
      ensures out.Final? || out.Failed?
      ensures old(buffer) <= buffer && (reorder == null ==> buffer == old(buffer))
      ensures |buffer| == |old(buffer)| + old(Waiting())
      ensures Fits(buffer) <==> Within(|old(buffer)| + old(Waiting()))
      ensures reorder != null ==>
                forall length :: ReorderTheorems.Uniform(old(reorder.View()), length) ==>
                                   |buffer| == (old(reorder.highest) + 1) * length
      ensures reorder != null ==> reorder.View() == Finish(old(reorder.View())) && buffer == Concat(reorder.released)
      ensures out == Failed(MissingAudio) <==> buffer == []
      ensures out == Failed(AnalysisFailed) <==> buffer != [] && !answered
      ensures old(StorageAnswers(writes)) && rowUpdated && manifestRead && answered && buffer != [] ==> out.Final?
      ensures out.Final? ==> sequence == old(sequence) + 1 && (out.manifest.None? <==> store == null && row == null)
      ensures out.Final? && store == null && row != null ==> out.manifest == Some(StoredManifest([], 0, 0))
      ensures out.Final? && store != null ==> Sealed(out.manifest.value, old(buffer))
      ensures out.Final? && store != null ==>
                (Concat(Payloads(out.manifest.value.segments)) == buffer <==>
                 reorder == null || old(reorder.pending) == map[])
    {
      hide Concat, Payloads, Finish, Sealed, Stocked, PacingOk, From, StorageAnswers, SilenceKnown, Agrees;
      hide WaitingBytes;
      UniformEnd();
      FlushTail();
      if buffer == [] {
        return Failed(MissingAudio);
      }
      if !answered {
        return Failed(AnalysisFailed);
      }
      var completed := CompleteSession(old(buffer), writes, rowUpdated, manifestRead);
      if completed.Err? {
        return Failed(Storage(completed.error));
      }
      sequence := sequence + 1;
      return Final(completed.value);
    }

    // ---------- the whole session ----------

    /** The bytes these binary messages put into the store. */
    ghost function StoredStream(frames: seq<Bytes>): Bytes {
      if reorder == null then Concat(frames)
      else Concat(ReorderTheorems.Run(reorder.window, reorder.maxRepeat, Arrivals(frames)).released)
    }

    /** The bytes the final analysis sees. */
    ghost function AnalysedStream(frames: seq<Bytes>): Bytes {
      if reorder == null then Concat(frames)
      else Concat(Finish(ReorderTheorems.Run(reorder.window, reorder.maxRepeat, Arrivals(frames))).released)
    }

    /** The pace these messages leave. */
    ghost function PaceAfter(messages: seq<Message>): Pace {
      if messages == [] then Pace(0.0, settings.emitInterval, None)
      else
        var init, m := messages[..|messages| - 1], messages[|messages| - 1];
        if m.Binary? then Tick(PaceAfter(init), StoredStream(Frames(messages)), m.answer) else PaceAfter(init)
    }

    /** The session has seen exactly these messages. */
    ghost predicate Heard(messages: seq<Message>)
      reads this`incoming, this`lastEmittedAt, this`emitInterval, this`lastLabels, ReorderObjects()
    {
      && incoming == Frames(messages)
      && (reorder != null ==>
            reorder.View() == ReorderTheorems.Run(reorder.window, reorder.maxRepeat, Arrivals(incoming)))
      && Now() == PaceAfter(messages)
    }

    /** What the session goes on after: a frame that can be read, does not break a limit, and brings
        an answer if it makes an update due. */
    ghost predicate Admissible(heard: seq<Message>, m: Message)
      requires m.Binary?
    {
      Readable(heard, m) && Fits(StoredStream(Frames(heard) + [m.frame]))
    }

    ghost predicate Readable(heard: seq<Message>, m: Message)
      requires m.Binary?
    {
      && (reorder == null || |m.frame| >= 4)
      && (m.answer.Some? || !DueOn(StoredStream(Frames(heard) + [m.frame]), PaceAfter(heard)))
    }

    /** Message n is an answered `end` after nothing but pings and frames that can be read and are
        answered where an update is due, which let go of no more than the limits admit, and hold
        some audio. */
    ghost predicate Completes(messages: seq<Message>, n: nat)
      requires n < |messages|
    {
      && messages[n] == End(true)
      && (forall i :: 0 <= i < n ==>
            messages[i].Ping? || (messages[i].Binary? && Readable(messages[..i], messages[i])))
      && Fits(StoredStream(Frames(messages[..n])))
      && AnalysedStream(Frames(messages[..n])) != []
    }

    /** Serve messages until the session ends or none is left. */
    method Serve(messages: seq<Message>, writes: Segment -> bool, rowUpdated: bool, manifestRead: bool)
      returns (out: Outcome, handled: nat)
      requires Valid() && Heard([])
      modifies this, StoreObjects(), RowObjects(), ReorderObjects()
      ensures handled <= |messages|
      ensures out.Continue? <==> handled == |messages|
      ensures out.Continue? ==> Valid() && Heard(messages)
      ensures forall i :: 0 <= i < handled ==>
                messages[i].Ping? || (messages[i].Binary? && Admissible(messages[..i], messages[i]))
      ensures handled < |messages| ==>
                match messages[handled]
                case Disconnect => out == Left
                case Timeout => out == Failed(TimedOut)
                case Unexpected => out == Failed(ProtocolError)
                case Ping => false
                case Binary(_, _) => out.Failed?
                case End(_) => out.Final? || out.Failed?
      ensures old(StorageAnswers(writes)) && handled < |messages| && messages[handled].Binary? ==>
                !Admissible(messages[..handled], messages[handled])
      ensures old(StorageAnswers(writes)) && rowUpdated && manifestRead ==>
                forall n :: 0 <= n < |messages| && Completes(messages, n) ==> out.Final? && handled == n
      ensures out.Final? ==>
                && messages[handled] == End(true)
                && sequence == |updates| + 1
                && buffer == AnalysedStream(Frames(messages[..handled]))
                && (out.manifest.None? <==> store == null && row == null)
                && (store != null ==>
                      && Sealed(out.manifest.value, StoredStream(Frames(messages[..handled]))))
      ensures bytesStored >= old(bytesStored)
    {
      hide Valid, Heard, Sealed, StoredStream, AnalysedStream, Frames, StorageAnswers, Admissible, Completes, Fits;
      var i := 0;
      assert messages[..0] == [];
      while i < |messages|
        invariant 0 <= i <= |messages|
        invariant Valid() && Heard(messages[..i])
        invariant bytesStored >= old(bytesStored)
        invariant old(StorageAnswers(writes)) ==> StorageAnswers(writes)
        invariant forall j :: 0 <= j < i ==>
                    messages[j].Ping? || (messages[j].Binary? && Admissible(messages[..j], messages[j]))
      {
        assert messages[..i + 1] == messages[..i] + [messages[i]];
        CompletesOnlyAt(messages, i);
        match messages[i] {
          case Disconnect => return Left, i;
          case Timeout => return Failed(TimedOut), i;
          case Unexpected => return Failed(ProtocolError), i;
          case Ping => PingHeard(messages[..i]);
          case Binary(frame, answer) =>
            out := HearBinary(frame, answer, writes, messages[..i]);
            if !out.Continue? {
              return out, i;
            }
          case End(answered) =>
            out := HearEnd(answered, writes, rowUpdated, manifestRead, messages[..i]);
            return out, i;
        }
        i := i + 1;
      }
      assert messages[..i] == messages;
      NoneCompletes(messages);
      return Continue, i;
    }

    lemma PingHeard(heard: seq<Message>)
      requires Heard(heard)
      ensures Heard(heard + [Ping])
    {
      hide StoredStream, Tick, Arrivals;
      assert (heard + [Ping])[..|heard|] == heard;
    }

    lemma BinaryHeard(heard: seq<Message>, m: Message)
      requires m.Binary?
      ensures Frames(heard + [m]) == Frames(heard) + [m.frame]
      ensures PaceAfter(heard + [m]) == Tick(PaceAfter(heard), StoredStream(Frames(heard) + [m.frame]), m.answer)
    {
      hide StoredStream, Tick;
      assert (heard + [m])[..|heard|] == heard;
    }

    /** A run that completes is not stopped before its `end`: what message i does tells which. */
    lemma CompletesOnlyAt(messages: seq<Message>, i: nat)
      requires i < |messages| && forall j :: 0 <= j < i ==> messages[j].Ping? || messages[j].Binary?
      ensures forall n :: 0 <= n < |messages| && Completes(messages, n) ==>
                n >= i && match messages[i]
                          case Ping => n > i
                          case Binary(_, _) => n > i && Admissible(messages[..i], messages[i])
                          case End(answered) => n == i && answered && AnalysedStream(Frames(messages[..i])) != []
                          case _ => false
    {
      hide Frames, Fits, StoredStream, AnalysedStream, DueOn;
      forall n | 0 <= n < |messages| && Completes(messages, n) && i < n && messages[i].Binary?
        ensures Admissible(messages[..i], messages[i])
      {
        FramesSnoc(messages, i);
        StoredGrows(messages, i + 1, n);
        FitsBelow(StoredStream(Frames(messages[..i + 1])), StoredStream(Frames(messages[..n])));
      }
    }

    lemma NoneCompletes(messages: seq<Message>)
      requires forall j :: 0 <= j < |messages| ==> messages[j].Ping? || messages[j].Binary?
      ensures forall n :: 0 <= n < |messages| ==> !Completes(messages, n)
    {
      hide Frames, Fits, StoredStream, AnalysedStream;
    }

    lemma FitsBelow(bytes: Bytes, more: Bytes)
      requires Fits(more) && |bytes| <= |more|
      ensures Fits(bytes)
    {
      DurationGrows(|bytes|, |more|, source);
    }

    lemma {:induction false} StoredGrows(messages: seq<Message>, i: nat, n: nat)
      requires i <= n <= |messages|
      ensures |StoredStream(Frames(messages[..i]))| <= |StoredStream(Frames(messages[..n]))|
      decreases n - i
    {
      hide Frames, StoredStream;
      if i < n {
        FramesSnoc(messages, i);
        if messages[i].Binary? { OneMoreFrame(Frames(messages[..i]), messages[i].frame); }
        StoredGrows(messages, i + 1, n);
      }
    }

    lemma OneMoreFrame(frames: seq<Bytes>, f: Bytes)
      ensures |StoredStream(frames)| <= |StoredStream(frames + [f])|
    {
      hide Concat, Arrivals, BigEndian32, Arrive;
      if reorder == null {
        ConcatSnoc(frames, f);
      } else if |f| < 4 {
        ShortFrame(frames, f);
      } else {
        ArrivalsSnoc(reorder.window, reorder.maxRepeat, frames, f);
        ReorderTheorems.RunAtRest(reorder.window, reorder.maxRepeat, Arrivals(frames));
        ArriveReleasesMore(ReorderTheorems.Run(reorder.window, reorder.maxRepeat, Arrivals(frames)),
                           BigEndian32(f[..4]), f[4..]);
      }
    }

    method HearBinary(
      frame: Bytes, answer: Option<Labels>, writes: Segment -> bool, ghost heard: seq<Message>)
      returns (out: Outcome)
      requires Valid() && Heard(heard)
      modifies this, StoreObjects(), ReorderObjects()
      ensures out.Continue? ==> Valid() && Heard(heard + [Binary(frame, answer)])
      ensures out.Continue? ==> Admissible(heard, Binary(frame, answer))
      ensures out.Continue? || out.Failed?
      ensures old(StorageAnswers(writes)) ==> StorageAnswers(writes)
      ensures old(StorageAnswers(writes)) && Admissible(heard, Binary(frame, answer)) ==> out.Continue?
      ensures bytesStored >= old(bytesStored)
    {
      hide Arrive, BigEndian32, Valid, DueOn, Tick, StorageAnswers, Arrivals, Concat, Duration, Frames, PaceAfter;
      BinaryHeard(heard, Binary(frame, answer));
      out := OnBinary(frame, answer, writes);
      if reorder != null && |frame| >= 4 {
        ArrivalsSnoc(reorder.window, reorder.maxRepeat, Frames(heard), frame);
      }
    }

    method HearEnd(
      answered: bool, writes: Segment -> bool, rowUpdated: bool, manifestRead: bool, ghost heard: seq<Message>)
      returns (out: Outcome)
      requires Valid() && Heard(heard)
      modifies this`buffer, this`sequence, ReorderObjects(), StoreObjects(), RowObjects()
      ensures out.Final? || out.Failed?
      ensures old(StorageAnswers(writes)) && rowUpdated && manifestRead ==>
                (answered && AnalysedStream(Frames(heard)) != [] ==> out.Final?)
      ensures out.Final? ==>
                && answered && sequence == |updates| + 1
                && buffer == AnalysedStream(Frames(heard))
                && (out.manifest.None? <==> store == null && row == null)
                && (store != null ==> Sealed(out.manifest.value, StoredStream(Frames(heard))))
    {
      hide Finish, Sealed, Arrivals, Stocked, Paced, LimitBytes, Duration, SilenceKnown, Agrees, StorageAnswers;
      hide Frames, PaceAfter, WaitingBytes, Fits, Within;
      out := OnEnd(answered, writes, rowUpdated, manifestRead);
    }

    // ---------- what holds at every loop head ----------

    /** Receipt exactness: the bytes reported as stored are the sum of the per-chunk counters and a
        prefix of the received ones, short of them by less than a segment, and `chunks_stored` counts
        the chunks inside that prefix. */
    lemma ReceiptIsExact()
      requires Valid() && store != null
      ensures bytesStored == SumCounts(storedChunkBytes, chunksReceived)
      ensures forall k :: k in storedChunkBytes && k >= chunksReceived ==> storedChunkBytes[k] == 0
      ensures bytesStored <= |buffer| < bytesStored + store.stream.targetBytes
      ensures Concat(Payloads(store.committed)) == buffer[..bytesStored] && store.stream.buffer == buffer[bytesStored..]
      ensures var p := ChunksStored(chunkSizes, storedChunkBytes);
              var chunks := store.stream.chunks;
              && p <= chunksReceived == |chunks|
              && Offset(chunks, p) <= bytesStored
              && (p < |chunks| ==> bytesStored < Offset(chunks, p + 1))
    {
      hide Concat, Payloads, ChunksStored, Booked, TotalBytes, AllNonEmpty, Paced, Duration;
      ghost var chunks := store.stream.chunks;
      PayloadsAreStream(store.committed, chunks, store.stream.segmentStart);
      ReceiptIsPrefix(chunkSizes, storedChunkBytes, store.committed, chunks, store.stream.segmentStart);
      CountersAddUp(chunkSizes, storedChunkBytes, store.committed, chunks, store.stream.segmentStart);
      forall k | k in storedChunkBytes && k >= chunksReceived ensures storedChunkBytes[k] == 0 {
        assert Count(storedChunkBytes, k) == 0;
      }
    }

    /** Progressive cost bound: at most `maxAudioSeconds / emitInterval` updates, and analysed bytes
        linear in that number; none of them early, and none overdue. */
    lemma UpdatesAreBounded()
      requires Valid()
      ensures forall u :: u in updates ==> u.at >= settings.minAudioSeconds
      ensures Duration(|buffer|, source) < settings.minAudioSeconds
              || Duration(|buffer|, source) - LastAt(updates) < emitInterval
      ensures sequence as real * settings.emitInterval <= settings.maxAudioSeconds
      ensures Work(updates) as real * settings.emitInterval <=
                settings.maxAudioSeconds * (Limit() + source.frame) as real
    {
      hide Paced, Work, LastAt, LimitBytes, Stocked, Ordered, Duration;
      ProgressiveCost(updates, settings.emitInterval, source.frame, Limit(), settings.maxAudioSeconds);
    }
  }

  lemma NonEmptySnoc(chunks: seq<Bytes>, chunk: Bytes)
    requires AllNonEmpty(chunks) && chunk != []
    ensures AllNonEmpty(chunks + [chunk])
  {
  }

  lemma ConcatOne(b: Bytes)
    ensures Concat([b]) == b
  {
    assert [b][..0] == [];
  }

  lemma ConcatNone()
    ensures Concat([]) == []
  {
  }

  lemma ConcatPrefix(parts: seq<Bytes>, i: nat)
    requires i <= |parts|
    ensures |Concat(parts[..i])| <= |Concat(parts)|
  {
    assert parts == parts[..i] + parts[i..];
    ConcatAppend(parts[..i], parts[i..]);
  }

  lemma StoredSnoc(segments: seq<Segment>, s: Segment)
    ensures forall k :: StoredBytes(segments + [s], k) == StoredBytes(segments, k) + SliceBytes(s.slices, k)
  {
    assert (segments + [s])[..|segments|] == segments;
  }

  // ---------- a session that stores less than it analyses ----------

  lemma OneHeld()
    ensures var p := Arrive(Init(8, 2), 1, [7]);
            && p.accepted == map[1 := [7]] && p.next == 0 && p.released == []
            && p.frameBytes == 1 && p.maxRepeat == 2 && p.window == 8
  {
    var q := Hold(Init(8, 2), 1, [7]);
    assert From(q.accepted, 0) == {1};
    assert Entries(q.accepted, 2, 0, 0, 1) == [];
  }

  lemma TailIsHeard(p: Playout)
    requires p.accepted == map[1 := [7]] && p.next == 0 && p.released == [] && p.frameBytes == 1
    ensures |Concat(Finish(p).released)| >= 2
  {
    hide Concat, Finish;
    ReorderTheorems.StepReleases(p, ReorderTheorems.Flush);
    assert From(p.accepted, 0) == {1};
    FlushIsPast(p);
    var out := Finish(p).released;
    assert |out[0]| == 1 && |out[1]| == 1;
    ConcatPrefix(out, 2);
    assert out[..2] == [out[0]] + [out[1]];
    ConcatOne(out[0]);
    ConcatSnoc([out[0]], out[1]);
  }

  lemma FlushIsPast(p: Playout)
    requires 1 in From(p.accepted, p.next)
    ensures Finish(p).next >= 2 && Finish(p).frameBytes == p.frameBytes
    ensures Finish(p).accepted == p.accepted && Finish(p).maxRepeat == p.maxRepeat
  {
  }

  lemma HeaderOfOne()
    ensures var frame: Bytes := [0, 0, 0, 1, 7];
            BigEndian32(frame[..4]) == 1 && frame[4..] == [7]
  {
    var frame: Bytes := [0, 0, 0, 1, 7];
    assert frame[..4] == [0, 0, 0, 1];
  }

  /** One sequenced frame, numbered 1, and `end`: the analysis hears a lost slot and the frame, more
      than the limit admits, and the store holds neither. */
  method StoredIsShorter() returns (manifest: StoredManifest, session: WebSocketSession)
    ensures session.Sealed(manifest, [])
    ensures Concat(Payloads(manifest.segments)) != session.buffer
    ensures |session.buffer| > session.settings.maxUploadBytes
  {
    hide Arrive, Finish, Concat, Payloads, Duration, Agrees, SilenceKnown, Covers, WaitingBytes;
    hide ReorderTheorems.Uniform, WebSocketSession.DueOn, WebSocketSession.Tick, WebSocketSession.Heard;
    var reorder := new ReorderBuffer(8, 2);
    var stream := new StreamAccumulator(32000);
    var store := new AudioStore(stream);
    var settings := Settings(1, 1.25, 30.0, 1.0, 4.0, 1.5, 10.0);
    session := new WebSocketSession(settings, Stream(2, 16000), reorder, store, null);
    var frame: Bytes := [0, 0, 0, 1, 7];
    var written: Segment -> bool := _ => true;
    var heard := session.OnBinary(frame, Some(Labels("unknown", "unknown")), written);
    HeaderOfOne();
    OneHeld();
    ConcatNone();
    DurationGrows(0, 0, session.source);
    assert heard.Continue?;
    HeldFacts(reorder.Stored(), reorder.View());
    TailIsHeard(reorder.View());
    var ended := session.OnEnd(true, written, true, true);
    manifest := ended.manifest.value;
  }
}
