/**
 The browser's live session. A method is one turn of the event loop: what runs between two awaits.
 A turn that resumes after an await is enabled by a field recording the await, so every interleaving
 the page can see is a sequence of calls the preconditions admit. They admit more, such as messages
 after a lost socket, and what is proved holds for those too.
 The microphone, the socket and the service answer through parameters.
 */
module LiveClient {
  import opened LiveTrace

  datatype Phase = Idle | Requesting | Connecting | Streaming | Finalizing | Complete | Failing | Cancelled

  /** Where `start` is waiting: for the microphone, the socket, the capture, or no longer. */
  datatype Starting = Unstarted | Preparing | Opening | Capturing | Started

  /** Before the start message is out. */
  predicate BeforeWire(s: Starting) {
    s == Unstarted || s == Preparing || s == Opening
  }

  predicate Listening(p: Phase) {
    p == Streaming || p == Finalizing
  }

  /** Where `finish` is waiting: for the worklet's flush, the capture's stop, or no longer. */
  datatype Finishing = Unfinished | Flushing | Stopping | Finished

  datatype Message =
    | Progress                                   // pong, started and storage messages
    | Unusable                                   // service errors and malformed messages
    | Prediction(sequence: int, isFinal: bool)

  datatype Event =
    | Starts
    | Prepares(ready: bool, rate: nat)
    | Opens(connected: bool, sends: bool)
    | Captures(running: bool)
    | Samples(samples: seq<real>, open: bool, buffered: nat, sends: bool)
    | Finishes
    | Flushes
    | Stops(open: bool, buffered: nat, sends: bool, ends: bool)
    | Says(message: Message)
    | Loses
    | FailResumes
    | Cancels

  const MAX_CAPTURE_SECONDS: nat := 29
  const MAX_SOCKET_BUFFER_BYTES: nat := 524288

  class LiveAnalysisSession {
    var phase: Phase
    var sampleRate: nat
    var pending: seq<seq<real>>
    var pendingSamples: nat
    var samplesSent: nat
    var lastSequence: int
    var cancelled: bool
    var failed: bool
    var finalReceived: bool
    var autoFinishing: bool
    var capturing: bool
    var starting: Starting
    var finishing: Finishing
    var errorPending: bool
    ghost var wire: seq<Frame>
    ghost var accepted: seq<real>
    ghost var delivered: seq<int>
    ghost var finals: nat
    ghost var errors: nat
    ghost var overtaken: bool    // the capture came up after the session had failed or completed

    ghost predicate Over()
      reads this
    {
      failed || cancelled || finalReceived
    }

    /** Audio: the counters are right, and the wire is faithful to what was accepted. */
    ghost predicate AudioOk()
      reads this
    {
      && pendingSamples == |Flat(pending)|
      && samplesSent == |Sent(wire)|
      && Faithful(wire, accepted, pending, Over())
    }

    /** Control: what the waiting turns may still do. */
    ghost predicate ControlOk()
      reads this
    {
      && WellShaped(wire)
      && (Listening(phase) ==> starting == Started)
      && (Listening(phase) || starting == Capturing ==> wire != [])
      && (BeforeWire(starting) ==> wire == [] && !failed && !finalReceived)
      && (starting == Unstarted ==> (phase == Idle || phase == Cancelled))
      && (phase == Idle ==> starting == Unstarted)
      && ((starting == Unstarted || starting == Preparing) ==> !capturing)
      && (starting != Started ==> finishing == Unfinished)
      && (finishing != Unfinished ==> phase != Streaming && wire != [])
      && ((finishing == Stopping || finishing == Finished) ==> !capturing)
      && (Over() ==> !capturing)
      && (Ended(wire) ==> finishing == Finished)
      && (overtaken ==> Over())
      && (Over() && !cancelled ==> (overtaken <==> Listening(phase)))
      && (cancelled ==> phase == Cancelled)
    }

    /** Outcome: at most one of a final prediction and an error, and nothing out of order. */
    ghost predicate OutcomeOk()
      reads this
    {
      && Increasing(delivered, lastSequence) && 0 <= lastSequence
      && finals == (if finalReceived then 1 else 0)
      && !(failed && finalReceived)
      && (errorPending ==> failed)
      && errors <= (if failed && !errorPending then 1 else 0)
    }

    ghost predicate Valid()
      reads this
    {
      AudioOk() && ControlOk() && OutcomeOk()
    }

    constructor ()
      ensures Valid() && phase == Idle && !Over() && !overtaken
      ensures wire == [] && delivered == [] && errors == finals == 0
    {
      phase, sampleRate, pending, pendingSamples, samplesSent, lastSequence := Idle, 0, [], 0, 0, 0;
      cancelled, failed, finalReceived, autoFinishing, capturing := false, false, false, false, false;
      starting, finishing, errorPending := Unstarted, Unfinished, false;
      wire, accepted, delivered, finals, errors, overtaken := [], [], [], 0, 0, false;
      FirstFrame();
    }

    // ---------- ending early ----------

    /** The part of `fail` before its await. */
    method Fail()
      requires Valid() && (!BeforeWire(starting) || cancelled)
      modifies this`failed, this`phase, this`pending, this`pendingSamples, this`capturing, this`errorPending
      ensures Valid() && Over()
      ensures old(Over()) ==> unchanged(this)
      ensures !old(Over()) ==> failed && errorPending && pendingSamples == 0 && phase == Failing
    {
      hide Faithful, Flat, Sent, Clamped, WellShaped, Increasing, Ended;
      if failed || cancelled || finalReceived {
        return;
      }
      FaithfulDropped(wire, accepted, pending, false);
      failed := true;
      phase := Failing;
      pending, pendingSamples := [], 0;
      capturing := false;
      errorPending := true;
    }

    /** `fail` resumes once the capture has stopped. */
    method FailStopped()
      requires Valid() && errorPending
      modifies this`errorPending, this`errors
      ensures Valid() && !errorPending
      ensures errors == old(errors) + if cancelled then 0 else 1
    {
      hide Faithful, Flat, Sent, Clamped, WellShaped, Increasing, Ended;
      errorPending := false;
      if cancelled || finalReceived {
        return;
      }
      errors := errors + 1;
    }

    method Cancel()
      requires Valid()
      modifies this`cancelled, this`phase, this`pending, this`pendingSamples, this`capturing
      ensures Valid() && cancelled
      ensures old(cancelled) ==> unchanged(this)
    {
      hide Faithful, Flat, Sent, Clamped, WellShaped, Increasing, Ended;
      if cancelled {
        return;
      }
      FaithfulDropped(wire, accepted, pending, Over());
      cancelled := true;
      phase := Cancelled;
      pending, pendingSamples := [], 0;
      capturing := false;
    }

    // ---------- starting ----------

    method Start()
      requires Valid()
      modifies this`phase, this`starting
      ensures Valid()
      ensures if old(phase) == Idle then phase == Requesting && starting == Preparing else unchanged(this)
    {
      hide Faithful, Flat, Sent, Clamped, WellShaped, Increasing, Ended;
      if phase != Idle {
        return;
      }
      phase := Requesting;
      starting := Preparing;
    }

    /** The microphone is ready, or not. */
    method Prepared(ready: bool, rate: nat)
      requires Valid() && starting == Preparing
      modifies this`failed, this`phase, this`pending, this`pendingSamples, this`capturing, this`errorPending,
               this`sampleRate, this`starting
      ensures Valid()
      ensures starting == Opening <==> ready && 8000 <= rate <= 96000 && !old(cancelled)
      ensures starting == Opening ==> sampleRate == rate && phase == Connecting && capturing
      ensures failed <==> starting == Started && !old(cancelled)
    {
      hide Faithful, Flat, Sent, Clamped, WellShaped, Increasing, Ended;
      if !ready || rate < 8000 || rate > 96000 || cancelled {
        starting := Started;
        Fail();
        return;
      }
      sampleRate := rate;
      capturing := true;
      phase := Connecting;
      starting := Opening;
    }

    /** The socket connected, or did not. */
    method OpenSettled(connected: bool, sends: bool)
      requires Valid() && starting == Opening
      modifies this`failed, this`phase, this`pending, this`pendingSamples, this`capturing, this`errorPending,
               this`starting, this`wire
      ensures Valid()
      ensures wire == if connected && sends && !old(cancelled) then [StartFrame] else []
      ensures failed <==> !(connected && sends) && !old(cancelled)
      ensures starting == (if connected && sends && !old(cancelled) then Capturing else Started)
      ensures old(cancelled) ==> wire == old(wire)
    {
      hide Faithful, Flat, Sent, Clamped, WellShaped, Increasing, Ended;
      FirstFrame();
      if !connected || cancelled || !sends {
        starting := Started;
        Fail();
        return;
      }
      FaithfulStarted(accepted, pending, false);
      wire := [StartFrame];
      starting := Capturing;
    }

    /** The capture is running, or is not. Only cancellation is checked here, so this turn puts a
        session that has failed or completed in the meantime back into the streaming phase. */
    method CaptureStarted(running: bool)
      requires Valid() && starting == Capturing
      modifies this`failed, this`phase, this`pending, this`pendingSamples, this`capturing, this`errorPending,
               this`starting, this`overtaken
      ensures Valid()
      ensures running && !old(cancelled) ==>
                phase == Streaming && failed == old(failed) && finalReceived == old(finalReceived)
      ensures !running || old(cancelled) ==> Over()
      ensures overtaken == if running && !old(cancelled) then old(failed) || old(finalReceived) else old(overtaken)
    {
      hide Faithful, Flat, Sent, Clamped, WellShaped, Increasing, Ended;
      starting := Started;
      if !running || cancelled {
        Fail();
        return;
      }
      phase := Streaming;
      overtaken := failed || finalReceived;
    }

    // ---------- audio ----------

    /** Samples from the worklet. */
    method AcceptSamples(samples: seq<real>, open: bool, buffered: nat, sends: bool)
      requires Valid() && capturing
      modifies this`failed, this`phase, this`pending, this`pendingSamples, this`capturing, this`errorPending,
               this`finishing, this`autoFinishing, this`samplesSent, this`wire, this`accepted
      ensures Valid()
      ensures accepted == old(accepted) + if Listening(old(phase)) then samples else []
      ensures old(wire) <= wire
      ensures open && Listening(old(phase)) ==>
                pendingSamples == 0 || pendingSamples < (sampleRate + 2) / 4
      ensures !Listening(old(phase)) || old(pendingSamples) + |samples| < (sampleRate + 2) / 4 ==>
                wire == old(wire) && failed == old(failed)
      ensures wire == old(wire) || wire == old(wire) + [Pcm(Clamped(old(Flat(pending)) + samples))]
    {
      hide Faithful, Flat, Sent, Clamped, WellShaped, Increasing, Ended;
      if phase != Streaming && phase != Finalizing {
        return;
      }
      FaithfulAccepted(wire, accepted, pending, samples);
      FlatSnoc(pending, samples);
      pending := pending + [samples];
      pendingSamples := pendingSamples + |samples|;
      accepted := accepted + samples;
      if pendingSamples >= (sampleRate + 2) / 4 {
        var _ := SendPending(open, buffered, sends);
      }
    }

    /** The payload of everything pending, clamped sample by sample. */
    method Payload() returns (payload: seq<real>)
      ensures payload == Clamped(Flat(pending))
    {
      payload := [];
      var i := 0;
      while i < |pending|
        invariant 0 <= i <= |pending| && payload == Clamped(Flat(pending[..i]))
      {
        ghost var before := payload;
        var chunk := pending[i];
        var j := 0;
        while j < |chunk|
          invariant 0 <= j <= |chunk| && payload == before + Clamped(chunk[..j])
        {
          payload := payload + [Clamp(chunk[j])];
          j := j + 1;
        }
        assert chunk[..j] == chunk;
        assert pending[..i + 1] == pending[..i] + [chunk];
        FlatSnoc(pending[..i], chunk);
        ClampedAppend(Flat(pending[..i]), chunk);
        i := i + 1;
      }
      assert pending[..i] == pending;
    }

    method SendPending(open: bool, buffered: nat, sends: bool) returns (sent: bool)
      requires Valid() && !Over() && !Ended(wire) && wire != [] && starting == Started
      modifies this`failed, this`phase, this`pending, this`pendingSamples, this`capturing, this`errorPending,
               this`finishing, this`autoFinishing, this`samplesSent, this`wire
      ensures Valid()
      ensures sent <==> old(pendingSamples) == 0 ||
                        (open && buffered + 4 * old(pendingSamples) <= MAX_SOCKET_BUFFER_BYTES && sends)
      ensures sent ==> !Over() && !Ended(wire) && pendingSamples == 0
      ensures !sent ==> wire == old(wire) && failed == open && (open ==> pendingSamples == 0)
      ensures wire == old(wire) + if sent && old(pendingSamples) > 0 then [Pcm(Clamped(old(Flat(pending))))] else []
      ensures AsRecorded(Clamped(old(Flat(pending))), old(Flat(pending)))
      ensures finishing == if sent && old(pendingSamples) > 0 && samplesSent >= MAX_CAPTURE_SECONDS * sampleRate &&
                              !old(autoFinishing) && old(phase) == Streaming
                           then Flushing else old(finishing)
    {
      hide Faithful, Flat, Sent, Clamped, WellShaped, Increasing, Ended, AsRecorded;
      ClampedAsRecorded(Clamped(Flat(pending)), Flat(pending));
      if pendingSamples == 0 {
        return true;
      }
      if !open {
        return false;
      }
      var payload := Payload();
      if buffered + 4 * pendingSamples > MAX_SOCKET_BUFFER_BYTES || !sends {
        Fail();
        return false;
      }
      Transmit(payload);
      return true;
    }

    /** The audio is on the wire; at the capture limit the session finishes by itself. */
    method Transmit(payload: seq<real>)
      requires Valid() && !Over() && !Ended(wire) && wire != [] && starting == Started
      requires payload == Clamped(Flat(pending)) && payload != []
      modifies this`pending, this`pendingSamples, this`samplesSent, this`wire, this`autoFinishing, this`phase,
               this`finishing
      ensures Valid() && !Ended(wire) && pendingSamples == 0
      ensures wire == old(wire) + [Pcm(payload)]
      ensures finishing == if samplesSent >= MAX_CAPTURE_SECONDS * sampleRate &&
                              !old(autoFinishing) && old(phase) == Streaming
                           then Flushing else old(finishing)
    {
      hide Faithful, Flat, Sent, Clamped, WellShaped, Increasing, Ended;
      FaithfulSent(wire, accepted, pending);
      ShapeGrows(wire, Pcm(payload));
      samplesSent := samplesSent + pendingSamples;
      pending, pendingSamples := [], 0;
      wire := wire + [Pcm(payload)];
      if samplesSent >= MAX_CAPTURE_SECONDS * sampleRate && !autoFinishing {
        autoFinishing := true;
        Finish();
      }
    }

    // ---------- finishing ----------

    method Finish()
      requires Valid()
      modifies this`phase, this`finishing
      ensures Valid()
      ensures if old(phase) == Streaming then phase == Finalizing && finishing == Flushing else unchanged(this)
    {
      hide Faithful, Flat, Sent, Clamped, WellShaped, Increasing, Ended;
      if phase != Streaming {
        return;
      }
      phase := Finalizing;
      finishing := Flushing;
    }

    /** The worklet has flushed, or its time is up. */
    method FinishFlushed()
      requires Valid() && finishing == Flushing
      modifies this`finishing, this`capturing
      ensures Valid()
      ensures finishing == if old(Over()) then Finished else Stopping
    {
      hide Faithful, Flat, Sent, Clamped, WellShaped, Increasing, Ended;
      if cancelled || failed || finalReceived {
        finishing := Finished;
        return;
      }
      finishing := Stopping;
      capturing := false;
    }

    /** The capture has stopped: the last audio, then the end marker. */
    method FinishStopped(open: bool, buffered: nat, sends: bool, ends: bool)
      requires Valid() && finishing == Stopping
      modifies this`failed, this`phase, this`pending, this`pendingSamples, this`capturing, this`errorPending,
               this`finishing, this`autoFinishing, this`samplesSent, this`wire
      ensures Valid()
      ensures old(wire) <= wire && (old(Over()) ==> Over() && wire == old(wire))
      ensures Ended(wire) ==> Sent(wire) == Clamped(accepted)
      ensures !old(Over()) ==>
                (Ended(wire) <==>
                 && open && ends
                 && (|| old(pendingSamples) == 0
                     || (buffered + 4 * old(pendingSamples) <= MAX_SOCKET_BUFFER_BYTES && sends)))
      ensures !old(Over()) && !Ended(wire) ==> failed || !open
    {
      hide Faithful, Flat, Sent, Clamped, WellShaped, Increasing, Ended;
      finishing := Finished;
      if cancelled || failed || finalReceived {
        return;
      }
      var sent := SendPending(open, buffered, sends);
      if !sent || failed {
        return;
      }
      if open && ends {
        FaithfulEnded(wire, accepted, pending);
        ShapeGrows(wire, EndFrame);
        wire := wire + [EndFrame];
      } else {
        Fail();
      }
    }

    // ---------- what the service says ----------

    method HandleMessage(message: Message)
      requires Valid() && !BeforeWire(starting)
      modifies this`failed, this`phase, this`pending, this`pendingSamples, this`capturing, this`errorPending,
               this`finalReceived, this`lastSequence, this`delivered, this`finals
      ensures Valid()
      ensures old(Over()) ==> unchanged(this)
      ensures delivered == old(delivered) +
                if !old(Over()) && message.Prediction? && message.sequence > old(lastSequence)
                then [message.sequence] else []
      ensures finalReceived == (old(finalReceived) ||
                (!old(Over()) && message.Prediction? && message.isFinal && message.sequence > old(lastSequence)))
      ensures failed == (old(failed) ||
                (!old(Over()) && (message.Unusable? || (message.Prediction? && message.sequence <= 0))))
    {
      hide Faithful, Flat, Sent, Clamped, WellShaped, Increasing, Ended;
      if cancelled || failed || finalReceived {
        return;
      }
      match message
      case Progress =>
      case Unusable => Fail();
      case Prediction(sequence, isFinal) =>
        if sequence <= 0 {
          Fail();
        } else if sequence > lastSequence {
          TakePrediction(sequence, isFinal);
        }
    }

    /** A newer prediction: the final one completes the session. */
    method TakePrediction(sequence: int, isFinal: bool)
      requires Valid() && !Over() && !BeforeWire(starting) && 0 < sequence && lastSequence < sequence
      modifies this`finalReceived, this`phase, this`lastSequence, this`pending, this`pendingSamples, this`capturing,
               this`delivered, this`finals
      ensures Valid() && delivered == old(delivered) + [sequence] && finalReceived == isFinal
      ensures failed == old(failed) && (isFinal ==> phase == Complete)
    {
      hide Faithful, Flat, Sent, Clamped, WellShaped, Increasing, Ended;
      IncreasingGrows(delivered, lastSequence, sequence);
      lastSequence := sequence;
      delivered := delivered + [sequence];
      if isFinal {
        Conclude();
      }
    }

    /** The final prediction is in: nothing pending is wanted any more. */
    method Conclude()
      requires Valid() && !Over() && !BeforeWire(starting)
      modifies this`finalReceived, this`phase, this`pending, this`pendingSamples, this`capturing, this`finals
      ensures Valid() && finalReceived && phase == Complete && failed == old(failed)
    {
      hide Faithful, Flat, Sent, Clamped, WellShaped, Increasing, Ended;
      FaithfulDropped(wire, accepted, pending, false);
      finalReceived := true;
      phase := Complete;
      pending, pendingSamples := [], 0;
      capturing := false;
      finals := finals + 1;
    }

    /** The socket reports an error, or closes. */
    method SocketLost()
      requires Valid() && !BeforeWire(starting)
      modifies this`failed, this`phase, this`pending, this`pendingSamples, this`capturing, this`errorPending
      ensures Valid() && Over()
      ensures if old(Over()) then unchanged(this) else failed
    {
      hide Faithful, Flat, Sent, Clamped, WellShaped, Increasing, Ended;
      if !cancelled && !finalReceived {
        Fail();
      }
    }

    // ---------- any run ----------

    /** One event: its turn when it is enabled, and nothing otherwise. */
    method Turn(e: Event)
      requires Valid()
      modifies this
      ensures Valid()
      ensures old(wire) <= wire && old(delivered) <= delivered
      ensures old(Over()) ==> Over() && wire == old(wire) && delivered == old(delivered) && accepted == old(accepted)
      ensures old(cancelled) ==> cancelled && errors == old(errors)
      ensures overtaken ==
                if e.Captures? && old(starting) == Capturing && e.running && !old(cancelled)
                then old(failed) || old(finalReceived) else old(overtaken)
      ensures e.Cancels? ==> cancelled
      ensures (e.Loses? || (e.Says? && e.message.Unusable?)) && !old(BeforeWire(starting)) ==> Over()
      ensures delivered == old(delivered) +
                if e.Says? && e.message.Prediction? && !old(BeforeWire(starting)) && !old(Over()) &&
                   e.message.sequence > old(lastSequence)
                then [e.message.sequence] else []
      ensures accepted == old(accepted) +
                if e.Samples? && old(capturing) && Listening(old(phase)) then e.samples else []
      ensures errors == old(errors) + if e.FailResumes? && old(errorPending) && !old(cancelled) then 1 else 0
    {
      hide Faithful, Flat, Sent, Clamped, WellShaped, Increasing, Ended, AudioOk, OutcomeOk;
      match e
      case Starts => Start();
      case Prepares(ready, rate) => if starting == Preparing { Prepared(ready, rate); }
      case Opens(connected, sends) => if starting == Opening { OpenSettled(connected, sends); }
      case Captures(running) => if starting == Capturing { CaptureStarted(running); }
      case Samples(samples, open, buffered, sends) => if capturing { AcceptSamples(samples, open, buffered, sends); }
      case Finishes => Finish();
      case Flushes => if finishing == Flushing { FinishFlushed(); }
      case Stops(open, buffered, sends, ends) =>
        if finishing == Stopping { FinishStopped(open, buffered, sends, ends); }
      case Says(message) => if !BeforeWire(starting) { HandleMessage(message); }
      case Loses => if !BeforeWire(starting) { SocketLost(); }
      case FailResumes => if errorPending { FailStopped(); }
      case Cancels => Cancel();
    }

    /** What every reachable session has done so far. */
    lemma Trace()
      requires Valid()
      ensures WellShaped(wire)
      ensures Sent(wire) <= Clamped(accepted) && AsRecorded(Sent(wire), accepted)
      ensures !Over() ==> Clamped(accepted) == Sent(wire) + Clamped(Flat(pending))
      ensures Ended(wire) ==> Sent(wire) == Clamped(accepted)
      ensures forall i, j :: 0 <= i < j < |delivered| ==> delivered[i] < delivered[j]
      ensures finals + errors <= 1
      ensures errors > 0 ==> failed
      ensures (Listening(phase) && Over()) <==> (overtaken && !cancelled)
    {
      hide Sent, Clamped, WellShaped, AsRecorded;
      ClampedAsRecorded(Sent(wire), accepted);
      if Ended(wire) {
        assert Flat(pending) == [];
        NothingPending(Sent(wire));
      }
    }
  }

  /** Any interleaving of events: every state on the way keeps its promises, what was sent and
      delivered is never taken back, and once the session has failed, completed or been cancelled
      nothing more is sent or delivered; after a cancellation no error is reported either. */
  method Run(session: LiveAnalysisSession, events: seq<Event>)
    requires session.Valid()
    modifies session
    ensures session.Valid()
    ensures old(session.wire) <= session.wire && old(session.delivered) <= session.delivered
    ensures old(session.Over()) ==>
              session.wire == old(session.wire) && session.delivered == old(session.delivered) &&
              session.accepted == old(session.accepted)
    ensures old(session.cancelled) ==> session.cancelled && session.errors == old(session.errors)
  {
    hide LiveAnalysisSession.Valid, LiveAnalysisSession.Over;
    var i := 0;
    while i < |events|
      invariant session.Valid()
      invariant old(session.wire) <= session.wire && old(session.delivered) <= session.delivered
      invariant old(session.Over()) ==>
                  session.Over() && session.wire == old(session.wire) && session.delivered == old(session.delivered) &&
                  session.accepted == old(session.accepted)
      invariant old(session.cancelled) ==> session.cancelled && session.errors == old(session.errors)
    {
      session.Turn(events[i]);
      i := i + 1;
    }
  }

  /** The phase alone does not tell that a session is over: a connection lost while the capture is
      still coming up leaves a failed session in the streaming phase. */
  method StreamingAfterFailure() returns (session: LiveAnalysisSession)
    ensures session.Valid() && session.failed && session.phase == Streaming
  {
    hide LiveAnalysisSession.Valid;
    session := new LiveAnalysisSession();
    session.Start();
    session.Prepared(true, 48000);
    session.OpenSettled(true, true);
    session.SocketLost();
    session.CaptureStarted(true);
  }
}
