# Live-audio pipeline: a verified model

A Dafny 4.11 model of the stateful parts of the speech-analysis service, with proofs about them.
`dafny verify dfyconfig.toml` checks everything.

| module | what it models |
|---|---|
| `ReorderBuffer`, against `Playout` | the sequenced-frame reorder buffer, statement by statement, against a closed-form account of what plays in each slot; `ReorderTheorems` ranges over arrival histories |
| `StreamAccumulator`, against `Manifest` | re-chunking a byte stream into fixed-size segments with a slice manifest |
| `Protocol`, `ProtocolSafety`, `ProtocolTheorems` | the two-store protocol (object PUT, metadata row, compensation, deletion, weak lock index, request handler) as a step relation |
| `ProtocolOrder`, over `Manifest` | where the segments of a stream end up in any run of that protocol: in the row, owed by the operation in the lock, or lost |
| `ProtocolOutcomes` | what an operation's outcome tells in any run: whether it was cancelled, whether a call of its own failed, whether it lost anything |
| `ProtocolWitness` | runs that store, complete and delete a session of any size, so that the theorems are not about an idle protocol |
| `AudioStore`, `Receipts`, `Progress`, `StreamTail`, `SessionLoop` | the WebSocket receive loop, which feeds released frames to the store, the receipts, the analysed buffer and the progressive updates |
| `RateLimiter`, `LimiterTheorems` | the token bucket with an evicting client table, against the limiter that never evicts |
| `LimiterExact`, `LimiterEviction` | exactly which polls are rejected, and exactly which clients are evicted |
| `Resampler`, over `Numbers` | the polyphase resampler, against direct kernel evaluation at exact rational positions |
| `LiveClient`, over `LiveTrace` | the browser's live session, one method per turn of the event loop |

Code that updates objects is a class whose methods are proved against a specification over values; the
theorems are lemmas about those values, over every input, history or interleaving.

## How to read the protocol

`Protocol.State` is one stored session as every concurrent operation on it sees it: the objects, the row,
the runtime flags, the weak lock index, the held locks, the operations between two awaits, and the request
handler. Every await is a step boundary. A storage call may succeed or fail, an awaiting operation may be
cancelled, repeatedly, wherever the code can be cancelled, any number of deletes may be started at any time
(a retention purge is a series of them), and an object once handed to a delete may disappear at any later
moment, whether or not that delete reported success. `Behavior` is any finite run of this relation.

Assumptions: one process; object keys are never reused; a failed PUT leaves no object; the metadata
transaction of `add_segment` is all-or-nothing, and a cancelled metadata call has settled one way or the
other when its operation leaves the lock. Sessions share nothing the model keeps, so one session stands
for all.

## What the proofs found

* **The audio a sequenced session analyses can exceed the audio it stores.** What `reorder.flush()`
  releases at `end` reaches the analysed buffer only (`backend/app/main.py:1170-1173`): it is not stored,
  not counted in the receipt, and not checked against the size and duration limits. `SessionLoop` proves
  that the stored audio is exactly what had been released before `end`, a prefix of the analysed audio,
  and equal to it if and only if the reorder buffer was holding no frame when `end` arrived; and that the
  analysed audio is within the limits if and only if the bytes received so far plus the bytes waiting, as
  the reorder buffer's own fields give them, are. With frames of one length that is that length times the
  highest frame number plus one. `SessionLoop.StoredIsShorter` is a session of one frame where neither holds.
* **Eviction is noticed only by a client that returns before its bucket would have refilled.** When every
  returning client would have been full again, the limiter decides exactly as one that never evicts. When
  one would not, its next decisions may still agree, but polling on at that same instant brings out the
  difference. `LimiterTheorems.EarlyReturnHappens` is a run with one such client.
* **After a failed persist step the accumulator has already moved on.** `store_chunk` raises, and the
  segments it cut but did not write are gone, so a later `complete` finalizes a manifest with a hole.
  `AudioStore.HoleExactly` proves, for every sequence of calls, that a finished manifest holds everything
  the session was given if and only if no earlier call raised that a write had failed;
  `AudioStore.HoleAfterFailedWrite` is a session where one did. `ProtocolOrder.FinalizedIsStream` proves
  the same for every interleaving, cancellations included: a finalized row lacks exactly the segments lost
  in steps where a put failed or was cancelled, a commit failed, or a commit was cancelled with segments
  still to come. The WebSocket loop never gets there, because it stops at the first storage error.
* **A delete that fails part-way leaves a row with missing objects.** That is the one exception in
  `ProtocolTheorems.TwoStoreSafety`: a committed segment's object exists unless a delete has begun removing
  it. `ProtocolWitness.RowWithoutObject` is a run in which a completed session ends like that.
* **The live client's phase does not tell that it is over.** `start` checks only cancellation after its
  last await, so a connection lost, or a final result received, while the capture is coming up is followed
  by the phase `streaming` (`frontend/src/api/streamAnalysis.js:365-368`). `LiveClient.StreamingAfterFailure`
  is such a run. Short of cancellation, the phase misleads exactly when the capture came up after a failure
  or a final result (`CaptureStarted`, `Turn` and `Trace`). Nothing more is sent or delivered even then.

## Model

| member | source | states |
|---|---|---|
| ReorderBuffer.FramingRoundTrip | backend/app/audio/jitter.py:155-165 | decoding an encoded frame gives back sequence and payload, decoding fails exactly below four bytes, and every longer frame is the encoding of what it decodes to |
| ReorderBuffer.ReorderBuffer.constructor | backend/app/audio/jitter.py:61-74 | an empty buffer agrees with the empty history |
| ReorderBuffer.ReorderBuffer.Push | backend/app/audio/jitter.py:76-92 | negative sequences are refused without effect; otherwise the new state is the history extended by one arrival, the returned frames are what was released, and a frame is counted as duplicate or as reordered exactly when the history says it is |
| ReorderBuffer.ReorderBuffer.Accept | backend/app/audio/jitter.py:85-91 | a fresh frame is held, and counted as reordered exactly when a later frame had been accepted before it |
| ReorderBuffer.ReorderBuffer.Tally | backend/app/audio/jitter.py:85-88 | a frame is counted as received, as reordered exactly when below the highest frame seen, and raises that mark when above it |
| ReorderBuffer.ReorderBuffer.Drain | backend/app/audio/jitter.py:94-107 | terminates, having released every slot up to the point the history determines, with at most `window` frames left waiting |
| ReorderBuffer.ReorderBuffer.Release | backend/app/audio/jitter.py:96-102 | releases the next slot's own frame and keeps every counter equal to its closed form |
| ReorderBuffer.ReorderBuffer.Conceal | backend/app/audio/jitter.py:109-127 | fills a missing slot with what the history prescribes and keeps the loss and concealment counters equal to their closed forms |
| ReorderBuffer.ReorderBuffer.Flush | backend/app/audio/jitter.py:129-142 | terminates with nothing held, having released every slot up to the highest frame seen |
| Playout.Conservation | backend/app/audio/jitter.py:40-48 | in every state slots played plus frames held equal frames received plus slots lost; with nothing held this is the highest frame plus one |
| ReorderTheorems.OutputCharacterised | backend/app/audio/jitter.py:76-142 | over every history, slot i of everything released is frame i's accepted payload, or else, with r the last real frame before it, frame r again when it is non-empty and at most `max_repeat_frames` back, or silence exactly as long as the last non-empty frame accepted by the time the slot went out |
| ReorderTheorems.Timeline | backend/app/audio/jitter.py:89-127 | with frames of one length, slot i occupies exactly its own byte range of the released stream, concealed or not |
| ReorderTheorems.OneGapPerPush | backend/app/audio/jitter.py:94-107 | a push conceals at most one contiguous gap, only when the window was full, and leaves at most `window` frames held |
| ReorderTheorems.ReorderingTolerance | backend/app/audio/jitter.py:76-107 | nothing is declared lost if and only if, for every frame, at most `window` distinct later frames arrive before it first does |
| ReorderTheorems.CompleteStreamInOrder | backend/app/audio/jitter.py:76-107 | within that tolerance, and without a flush, frames 0..n-1 come out whole, once each, in order, with their first-arrival payloads |
| ReorderTheorems.LossRatioAfterFlush | backend/app/audio/jitter.py:40-48 | after a flush the loss ratio is the lost slots over all slots up to the highest frame |
| StreamTail.FlushAdds | backend/app/audio/jitter.py:129-142 | a flush adds exactly the bytes reckoned beforehand from the held frames, the last payload, the repeats so far and the silence length |
| ReorderTheorems.UniformFlush | backend/app/audio/jitter.py:129-142 | with frames of one length, a flushed stream has that length for every frame number up to the highest |
| StreamTail.FlushAddsAudioIff | backend/app/audio/jitter.py:129-142 | in a stream holding any audio, a flush adds audio exactly when frames are waiting |
| StreamAccumulator.AlignedTargetFits | backend/app/persistence/service.py:816-819 | the segment size is a positive whole number of sample frames, less than a frame below the size asked for, and not above it by more than rounding unless one frame is the floor |
| StreamAccumulator.SegmentTargetIsAligned | backend/app/persistence/service.py:804-819 | the size exists exactly for positive rates, positive channels and known encodings, and is then whole frames |
| StreamAccumulator.WholeSeconds | backend/app/persistence/service.py:804-819 | asked for whole seconds, a segment is exactly that many bytes: two a sample for 16-bit PCM, four for 32-bit float, one for the companded encodings |
| StreamAccumulator.StreamAccumulator.constructor | backend/app/persistence/service.py:77-84 | a new accumulator has consumed no chunk and cut no segment |
| StreamAccumulator.StreamAccumulator.Append | backend/app/persistence/service.py:86-119 | the chunk is consumed unless its index is out of turn, in which case nothing changes; returned segments are full, extend the covered prefix of the stream, and what is not covered is in the buffer with its slices |
| StreamAccumulator.StreamAccumulator.ExtendBuffer | backend/app/persistence/service.py:104-115 | adding a piece of a chunk adds exactly the one slice that locates it in the stream and in the open segment |
| StreamAccumulator.StreamAccumulator.Flush | backend/app/persistence/service.py:121-124 | afterwards the segments cover the whole stream; there is a last segment exactly when bytes were pending, and it is those bytes |
| StreamAccumulator.StreamAccumulator.TakeSegment | backend/app/persistence/service.py:132-146 | the cut segment carries the next sequence number, range, bytes and slices, and the next one starts empty where it ends |
| StreamAccumulator.StreamAccumulator.Wipe | backend/app/persistence/service.py:126-130 | forgets the pending bytes; after a flush it changes nothing that counts |
| StreamAccumulator.StoreStream | backend/app/persistence/service.py:86-146 | appending every chunk and flushing once gives segments that cover the stream, all of the target size but the last |
| Manifest.RebuildChunk | backend/app/persistence/service.py:86-146 | cutting the slices that name chunk k out of covering segments, in order, rebuilds chunk k byte for byte |
| Manifest.ManifestTiles | backend/app/persistence/service.py:100-115 | every segment is non-empty and numbered by position, its slices tile it in chunk order, and each source offset is the segment's start plus the offset inside it |
| Manifest.PayloadsAreStream | backend/app/persistence/service.py:132-146 | the payloads in sequence order are exactly the covered prefix of the stream |
| Manifest.ChunkingIndependence | backend/app/persistence/service.py:97-146 | two chunkings of one byte stream give the same segments up to their slices, each starting on a frame boundary |
| Manifest.StoredExactly | backend/app/main.py:1065-1077 | the bytes booked for a chunk reach its size exactly when the chunk lies wholly inside the stored bytes, and are positive exactly when it begins inside them |
| AudioStore.AudioStore.StoreChunk | backend/app/persistence/service.py:434-453 | refuses exactly a finalized session and an out-of-turn chunk, and a refusal changes nothing; succeeds with every segment of the chunk written and committed in order; otherwise the commits stop at the first failing write, and then, and only then, bytes are lost |
| AudioStore.AudioStore.Persist | backend/app/persistence/service.py:448-452 | succeeds exactly when every write does, and otherwise leaves the segments before a failing one committed |
| AudioStore.AudioStore.Complete | backend/app/persistence/service.py:463-494 | flushes, commits the trailing segment, finalizes the row and reads the manifest back; each of the three can fail, the last with the session already finalized; the manifest reports exactly the committed segments, their number and their bytes, stored plus dropped bytes equal the stream, and bytes are dropped exactly when the trailing write fails |
| AudioStore.ResultRow.Complete | backend/app/persistence/service.py:463-494 | without audio the same, with an empty manifest: exactly when the row updates and the manifest reads back |
| AudioStore.CallAll | backend/app/persistence/service.py:434-494 | over any sequence of calls on one session, audio is lost if and only if one of them raised that a write had failed |
| AudioStore.HoleExactly | backend/app/persistence/service.py:434-494 | after any sequence of calls a finished manifest holds everything the session was given if and only if none of them raised that a write had failed, and then its segments cover the stream |
| AudioStore.HoleAfterFailedWrite | backend/app/persistence/service.py:446-453 | a session that goes on after a failed write and finalizes, with the manifest of its store, less audio than it was given |
| ProtocolSafety.StepInv | backend/app/persistence/service.py:582-755 | every step of every operation, delete, cancellation or handler turn keeps the protocol invariant |
| ProtocolTheorems.TwoStoreSafety | backend/app/persistence/service.py:671-755 | in every reachable state a committed segment's object exists unless a delete began removing it, a stored object is committed, or held by the one persist step inside the runtime lock, or left by a compensation that failed, and the row counts its segments |
| ProtocolTheorems.MutualExclusion | backend/app/persistence/service.py:188-194 | while the row exists every operation on the session, waiting or inside, uses the one indexed lock, and at most one is inside |
| ProtocolTheorems.ClosedForGood | backend/app/persistence/service.py:776-779 | once a runtime is closed no later step commits a segment or a result or adds an object |
| ProtocolTheorems.DeleteCloses | backend/app/persistence/service.py:588-597 | a delete that has read the manifest has closed the runtime, and the row never changes again except by disappearing |
| ProtocolTheorems.DeleteIsFinal | backend/app/persistence/service.py:602-617 | after a delete has returned there is never again a row, nor an object beyond failed compensations |
| ProtocolTheorems.NothingStored | backend/app/persistence/service.py:594-612 | without a row, nothing of the session is stored beyond failed compensations |
| ProtocolTheorems.NoStrandedSession | backend/app/main.py:1226-1235 | whatever path the handler leaves by, the session is completed, or gone for all but failed compensations, or a storage call of its own clean-up delete failed in a step of that very delete |
| ProtocolTheorems.BlameIsEarned | backend/app/persistence/service.py:587-607 | the clean-up delete reports, or is about to report, a storage failure only if one of its own storage calls failed while it ran |
| ProtocolSafety.CleanupStep | backend/app/main.py:270-288 | the shielded clean-up delete keeps running, or has ended with the session gone or on a failed storage call, whatever step is taken |
| ProtocolSafety.RowStable | backend/app/persistence/stores.py:207-266 | a finalized status never changes and a deleted row never comes back |
| ProtocolOrder.Ledger | backend/app/persistence/service.py:434-500 | in every reachable state of every run, the segments cut are those in the row, those the operation in the lock has yet to commit, and those lost when a put or a commit failed or was cancelled |
| ProtocolOrder.KeysInOrder | backend/app/persistence/service.py:671-712 | in every run object keys are given out in cutting order, and no segment gets two |
| ProtocolOrder.FinalizedRow | backend/app/persistence/stores.py:207-266 | a finalized row keeps exactly its segments for as long as it exists |
| ProtocolOrder.FinalizedIsStream | backend/app/persistence/service.py:434-500 | for segments covering a stream, at any time after finalizing the row lists as many fewer than were cut as were lost; read in order of their keys they are all the segments, once each and in order, if and only if none was lost, and then they are the stream; each listed object exists unless a delete began removing it |
| ProtocolOutcomes.OutcomesTellAll | backend/app/persistence/service.py:671-755 | in any run an operation or delete that has ended raised the cancellation exactly if it was cancelled, otherwise a storage failure exactly if one of its own storage calls failed, and if it returned it lost no segment; a `fail` whose flush failed still raises in the end |
| ProtocolOutcomes.CompleteIsWhole | backend/app/persistence/service.py:463-548 | only what was called as `complete`, and has lost no segment in any step of its own, marks the row completed; only what was called as `fail` marks it failed |
| ProtocolOutcomes.FailFinalizes | backend/app/persistence/service.py:502-548 | a `fail` that got the lock has gone on to finalize the row by the time it ends, whatever became of its flush, unless it was cancelled |
| ProtocolOutcomes.ReturnsAsCalled | backend/app/persistence/service.py:396-548 | an operation that returns has done what it was called for |
| ProtocolOutcomes.RestOnce | backend/app/persistence/service.py:396-432 | however often it is tried and whatever happens in between, at most one store of a request's audio ever returns |
| ProtocolOutcomes.NoWriteLeftBehind | backend/app/persistence/service.py:703-755 | a task that waits for a put, a commit, the final status or the erasure of the row keeps the lock, also when cancelled, until that write has settled |
| ProtocolOutcomes.CompletedWithoutLoss | backend/app/main.py:1057-1192 | when the handler counts the session as completed, every storage call it has made has returned, and no step of any of them lost a segment |
| ProtocolOutcomes.CallsMayFail | backend/app/persistence/service.py:703-755 | wherever a task waits for a store there is a step in which its call fails |
| ProtocolOutcomes.MayBeCancelled | backend/app/persistence/service.py:703-755 | wherever a task waits, for a store or for the lock, it may be cancelled unless the handler shields it, and then ends there or once the write in flight has settled |
| ProtocolWitness.SessionCompletes | backend/app/persistence/service.py:434-494 | for any number of segments there is a run that stores them all and leaves a completed row with exactly its objects, the handler having left normally |
| ProtocolWitness.SessionDeleted | backend/app/main.py:1226-1235 | for any number of segments there is a run in which the handler gives up and its clean-up removes every object and the row |
| ProtocolWitness.SessionPurged | backend/app/persistence/service.py:582-617 | a completed session of any size can later be deleted in the same way |
| ProtocolWitness.RowWithoutObject | backend/app/persistence/service.py:594-607 | a run in which a delete fails while removing objects and leaves a completed row that lists an object which is gone |
| ProtocolTheorems.HolderProgress | backend/app/persistence/service.py:671-755 | whoever holds the lock always has a step of its own other than being cancelled |
| ProtocolTheorems.HolderDistance | backend/app/persistence/service.py:912-920 | each such step brings the holder strictly closer to releasing the lock, and repeated cancellation never takes it further away |
| Receipts.ReceiptIsPrefix | backend/app/main.py:1074-1077 | `chunks_stored` counts a prefix of the received chunks: exactly those lying wholly inside the stored bytes |
| Receipts.CountersAddUp | backend/app/main.py:1065-1073 | the per-chunk counters sum to the stored bytes, and nothing is counted for a chunk not received |
| Receipts.ManifestReceiptIsComplete | backend/app/main.py:208-235 | the distinct chunk indices of a finished manifest are exactly the received chunks |
| Progress.AnalysisOffsetFits | backend/app/main.py:785-792 | the analysed suffix starts on a frame boundary, is everything when it fits, and otherwise is the window plus less than one frame |
| Progress.LimitIsWindow | backend/app/main.py:809-811 | the analysis window in bytes is whole frames, as many as it has whole sampling periods |
| Progress.IntervalGrows | backend/app/main.py:1137-1143 | while the labels stand the interval is base times backoff to the number of updates, up to the maximum; when they change it is the base again |
| Progress.IntervalStays | backend/app/main.py:1137-1143 | the emit interval stays between its base and its maximum, and never shrinks while the labels stand |
| Progress.ProgressiveCost | backend/app/main.py:795-820 | updates at least a base interval apart number at most span over base, and the bytes they analyse are linear in the span |
| SessionLoop.DurationOfSeconds | backend/app/main.py:780-781 | so many whole seconds of frames last exactly that long |
| SessionLoop.DurationAdds | backend/app/main.py:780-781 | audio lasts as long as its parts |
| SessionLoop.SegmentLasts | backend/app/main.py:776-781 | a segment asked for whole seconds plays for exactly that long, for every encoding, rate and channel count |
| SessionLoop.WebSocketSession.RecordSegment | backend/app/main.py:1066-1073 | adds exactly the segment's bytes, chunk by chunk, to the counters |
| SessionLoop.WebSocketSession.StoreAndRecord | backend/app/main.py:1057-1073 | the counters keep describing the store, which now holds the buffer and this chunk, and the accumulator's chunk-index guard never fires |
| SessionLoop.WebSocketSession.TakeChunk | backend/app/main.py:1042-1089 | too large exactly above the byte limit, and too long exactly when within it the bytes exceed the maximum seconds times frame size times rate; otherwise the chunk is stored, booked and appended to the analysed buffer, or a storage error is reported |
| SessionLoop.WebSocketSession.TakeAll | backend/app/main.py:1042-1089 | a batch that is taken leaves the buffer extended by all of it in order; a limit error means the whole batch would have broken that limit |
| SessionLoop.WebSocketSession.MaybeEmit | backend/app/main.py:1090-1144 | an update happens exactly when one is due, covers the trailing window up to now, and afterwards the interval is the base if the labels moved and otherwise the old one times the backoff, capped; nothing is overdue |
| SessionLoop.WebSocketSession.Absorb | backend/app/main.py:1034-1089 | refused as malformed exactly when sequenced and shorter than its header; otherwise what the frame lets go is stored and appended, and a limit error means that it exceeds that limit |
| SessionLoop.WebSocketSession.OnBinary | backend/app/main.py:1034-1145 | a message is refused as malformed exactly when it is sequenced and shorter than its header; a limit error means that what the frames let go exceeds that limit; an analysis error means that an update was due and not answered; with storage answering nothing else stops the session; while it goes on, buffer, store, counters, order and pacing agree, `bytes_stored` never shrinks, and at most one update is added |
| SessionLoop.WebSocketSession.FlushTail | backend/app/main.py:1170-1173 | the buffer keeps what it has, grows at `end` exactly when the reorder buffer still held frames, and by exactly the bytes waiting in it |
| SessionLoop.WebSocketSession.CompleteSession | backend/app/main.py:1188-1192 | no manifest without retention, an empty one for a result-only session, and otherwise the stored audio, chunk for chunk |
| SessionLoop.WebSocketSession.OnEnd | backend/app/main.py:1170-1203 | with audio, an answer and working storage the session completes; stored audio is a prefix of the analysed audio, the finalized manifest holds exactly what was stored before `end`, and equals the analysed audio if and only if framing is raw or no frame was waiting; the analysed audio is within both limits if and only if the bytes received plus the bytes waiting are, which for frames of one length is that length for every number up to the highest |
| SessionLoop.WebSocketSession.UniformSession | backend/app/main.py:1170-1173 | over a whole session whose readable frames all carry `length` bytes, the final analysis sees `length` bytes for every frame number up to the highest heard |
| SessionLoop.StoredIsShorter | backend/app/main.py:1170-1192 | one sequenced frame out of turn, then `end`: the session's manifest holds nothing, and what it analysed exceeds the size limit |
| SessionLoop.WebSocketSession.Serve | backend/app/main.py:1005-1203 | over a whole message sequence: which message ends the session, and how; with storage answering, the frame that ends it is the first that is unreadable, over a limit, or makes an update due that is not answered; an answered `end` after frames that are none of these always gives the final result; the final analysis sees what the reorder history prescribes for the frames received, and the manifest holds what it prescribes without the flush, with every chunk counted |
| SessionLoop.WebSocketSession.ReceiptIsExact | backend/app/main.py:1057-1088 | at every loop head `bytes_stored` is the sum of the per-chunk counters; the committed payloads followed by the accumulator's remainder are the analysed buffer; stored bytes lag it by less than a segment; and `chunks_stored` is the prefix inside them |
| SessionLoop.WebSocketSession.UpdatesAreBounded | backend/app/main.py:1090-1144 | at every loop head the updates so far number at most the maximum duration over the base interval, and their total work is linear in that; none came before the minimum duration, and none is overdue |
| RateLimiter.RateLimiter.Check | backend/app/ratelimit.py:51-74 | verdict and new table are those of the specification `Decide`, and the table stays well formed and within its cap |
| RateLimiter.RateLimiter.EvictIfFull | backend/app/ratelimit.py:76-83 | a full table loses exactly its victims, and there is room for one more |
| RateLimiter.VictimsFit | backend/app/ratelimit.py:79-83 | the victims are distinct tracked clients, a tenth of the table rounded down but at least one, none seen later than a survivor |
| RateLimiter.EvictionFits | backend/app/ratelimit.py:76-83 | an eviction removes exactly a batch, keeps the table well formed and leaves it below its cap |
| LimiterTheorems.DecideFits | backend/app/ratelimit.py:51-74 | the table never exceeds its cap, and a check changes its size by exactly the newcomer and the evicted batch |
| LimiterTheorems.RunFits | backend/app/ratelimit.py:51-83 | over every run the table is well formed and within its cap |
| LimiterTheorems.EvictionRefines | backend/app/ratelimit.py:51-83 | if every client that returns after an eviction would have had a full bucket, all decisions and delays equal those of the limiter that never evicts |
| LimiterTheorems.EarlyReturnShows | backend/app/ratelimit.py:51-83 | if one returns before its bucket would have been full, its next decision or a further poll at that instant gets a different answer from the two limiters |
| LimiterTheorems.EarlyReturnHappens | backend/app/ratelimit.py:51-83 | with room for one client, two clients taking turns produce such a return and such a difference |
| LimiterTheorems.IdleLongEnough | backend/app/ratelimit.py:64-67 | a bucket idle for capacity over refill is full again |
| LimiterTheorems.EvictionsAmortised | backend/app/ratelimit.py:76-83 | eviction passes times the batch size, plus the clients tracked, equal the checks by new clients |
| LimiterTheorems.AdmissionBound | backend/app/ratelimit.py:64-71 | a client not evicted meanwhile is admitted at most capacity plus refill times span times |
| LimiterExact.RejectedIff | backend/app/ratelimit.py:51-74 | whatever the clock does, a poll of a client tracked since it was new is rejected if and only if, since some earlier poll of that client, one admission more would exceed the capacity plus the refill over the time its polls saw pass |
| LimiterExact.RejectionExact | backend/app/ratelimit.py:51-74 | under a clock that is not set back, it is rejected if and only if one admission more would exceed capacity plus refill times the time since some earlier poll: a client within its budget is never turned away |
| LimiterExact.EveryPoll | backend/app/ratelimit.py:51-62 | every client with a bucket has been tracked since it was new, and one without is admitted, so the two theorems above cover every poll |
| LimiterExact.NeverMeansNever | backend/app/ratelimit.py:72-74 | a rejected client is told an infinite delay exactly when there is no refill, and is then never admitted again while tracked |
| LimiterEviction.StalestFirst | backend/app/ratelimit.py:76-83 | in any run a victim was seen before every survivor, or at the same time and has been tracked for longer |
| LimiterTheorems.HonestRetry | backend/app/ratelimit.py:68-74 | after a rejection, whatever rejected polls come between, a poll is admitted if and only if the announced delay has passed, and every further rejection announces the same deadline |
| Resampler.RatioIsReduced | backend/app/audio/resample.py:135-139 | the ratio is positive, equals the rate ratio, and is in lowest terms |
| Resampler.Resample | backend/app/audio/resample.py:67-132 | rates must be positive, equal rates and short inputs are returned as they are, and otherwise every output is the direct normalised kernel sum at its exact position, for any block size |
| Resampler.PhasePosition | backend/app/audio/resample.py:100-104 | the integer base plus the tabulated phase is the exact rational position, with the phase in [0, 1) |
| Resampler.PolyphaseIsDirect | backend/app/audio/resample.py:100-130 | the gathered samples weighted by the phase's table row equal the direct sum |
| Resampler.PhasesDistinct | backend/app/audio/resample.py:104-104 | the reduction makes the phases pairwise distinct |
| Resampler.CentreInRange | backend/app/audio/resample.py:91-91 | every output's centre is an input sample, despite the rounding of the output length |
| Resampler.LastSampleHeld | backend/app/audio/resample.py:127-129 | past its end the input counts as its last sample held: appending any number of copies of it changes no output |
| Resampler.FirstSampleHeld | backend/app/audio/resample.py:127-129 | before its start it counts as its first sample held: prepending `down` copies delays the whole output by `up`, also where taps reach past an edge |
| Resampler.ImpulseResponse | backend/app/audio/resample.py:100-130 | a single unit sample comes out as the normalised kernel around its exact position |
| Resampler.OutputSizeNearest | backend/app/audio/resample.py:90-91 | the output is as long as the input to the nearest output sample, and never empty |
| Resampler.ConstantInput | backend/app/audio/resample.py:111-129 | a constant input gives the same constant at every output, edges included |
| Resampler.Superposition | backend/app/audio/resample.py:121-130 | the output is linear in the input |
| Resampler.DelayCommutes | backend/app/audio/resample.py:121-130 | delaying the input by `down` samples delays the output by exactly `up` samples where no tap is clamped |
| LiveClient.LiveAnalysisSession.constructor | frontend/src/api/streamAnalysis.js:290-325 | a new session has sent, accepted and delivered nothing |
| LiveClient.LiveAnalysisSession.AcceptSamples | frontend/src/api/streamAnalysis.js:543-553 | samples are accepted exactly while streaming or finalizing; nothing is sent below one chunk, then everything pending and new as one frame, and with an open socket less than one chunk stays pending |
| LiveClient.LiveAnalysisSession.SendPending | frontend/src/api/streamAnalysis.js:555-604 | sends everything pending as one frame, every sample unchanged if in full scale and otherwise the nearest that is, or says why not: a closed socket keeps it, backpressure and send errors fail the session; at the capture limit it starts finishing, once |
| LiveClient.LiveAnalysisSession.FinishStopped | frontend/src/api/streamAnalysis.js:624-643 | the end marker goes out exactly when the session lives, the socket takes it and nothing is left pending; then everything accepted has been sent |
| LiveClient.LiveAnalysisSession.CaptureStarted | frontend/src/api/streamAnalysis.js:365-377 | only cancellation or a capture that does not run keeps the phase from becoming streaming; the session counts as overtaken exactly if it had failed or its final result had come |
| LiveClient.LiveAnalysisSession.HandleMessage | frontend/src/api/streamAnalysis.js:456-541 | a prediction is delivered exactly when the session lives and its sequence is newer; a final one completes the session; an unusable message or a sequence that is not positive fails it, and nothing else does |
| LiveClient.LiveAnalysisSession.Fail | frontend/src/api/streamAnalysis.js:646-652 | the first of failure, cancellation and final result wins, and pending audio is dropped |
| LiveClient.LiveAnalysisSession.FailStopped | frontend/src/api/streamAnalysis.js:652-656 | an error is reported once, and not after a cancellation |
| LiveClient.LiveAnalysisSession.Cancel | frontend/src/api/streamAnalysis.js:659-669 | cancellation wins over everything still waiting |
| LiveClient.LiveAnalysisSession.Turn | frontend/src/api/streamAnalysis.js:327-669 | whatever happens next, nothing sent or delivered is taken back, and once over nothing more is sent, accepted or delivered; only a capture coming up changes whether the session counts as overtaken; each event has exactly its effect on what is accepted, delivered and reported, and a lost socket or an unusable message ends the session |
| LiveClient.LiveAnalysisSession.Trace | frontend/src/api/streamAnalysis.js:456-669 | in every reachable state the wire is one start, audio, at most one end and nothing after it; sent plus pending is the accepted audio while the session lives, and all of it once ended, every sample in full scale, unchanged if it was and otherwise the nearest that is; sequences increase; a final result and an error never both occur; and the phase is still streaming or finalizing after the end exactly in an overtaken session that was not cancelled |
| LiveClient.Run | frontend/src/api/streamAnalysis.js:327-669 | the same over any sequence of events, and after a cancellation no error is reported either |
| LiveClient.StreamingAfterFailure | frontend/src/api/streamAnalysis.js:365-368 | a run that leaves a failed session in the streaming phase |

## Left out

- Resampler.Resample: kernel values, taps and weights are parameters and all arithmetic is over reals; single- and double-precision rounding, and the sinc, Kaiser and Bessel values, are not modelled. Every phase is taken to have a non-zero weight sum.
- RateLimiter.RateLimiter.Check: times and tokens are reals, an infinite delay is the verdict `Never`, and the theorems take the validated settings, capacity at least one and a positive refill.
- SessionLoop.WebSocketSession.Serve: durations are reals; timeouts, inference results and the answers of the two stores are parameters; language carry-over, quality flags and the messages sent back are not modelled.
- AudioStore.AudioStore.Complete: the two-store commit of one segment is one success or failure here; its steps are in `Protocol`.
- ProtocolOrder.FinalizedIsStream: how many segments an operation cuts is a parameter of its step, so the accumulator's cutting enters as segments that cover the stream.
- ProtocolTheorems.TwoStoreSafety: `close()`, several processes on one database, and cancellation inside `start_rest` and `start_ws` before a handle exists are not modelled.
- LiveClient.LiveAnalysisSession.Prepared: microphone and audio-graph setup is one answer, ready or not; callbacks are assumed not to call back into the session.
- Zeroing of buffers: an object-lifetime promise, not a function of the values kept here.
- Real object store and database behaviour beyond atomic success or failure, the unique index on segment sequence, the object key format, and orphan expiry rules.
- Model loading, inference, quality gates, loudness, spectral gating, FFmpeg decoding, G.711 tables: foreign code or floating-point heuristics.
- Request parsing, retention and consent rules, client-key derivation, settings parsing, metrics, logging: each is settled by reading one branch.
- React components, styling, deployment files.
