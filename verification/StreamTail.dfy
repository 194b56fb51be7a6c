/** What flushing the reorder buffer adds to the stream at its end. */
module StreamTail {
  import opened Bytes
  import opened Playout

  /** While the silence length is unknown, no audio at all has been accepted or released. */
  ghost predicate SilenceKnown(p: Playout) {
    p.frameBytes == 0 ==>
      && (forall k :: k in p.accepted ==> p.accepted[k] == [])
      && (forall i :: 0 <= i < |p.released| ==> p.released[i] == [])
  }

  lemma ReleaseKeepsSilence(p: Playout, to: nat)
    requires SilenceKnown(p) && p.next <= to
    ensures SilenceKnown(ReleaseTo(p, to))
  {
    hide LastReal;
    var e := Entries(p.accepted, p.maxRepeat, p.next, to, p.frameBytes);
    if p.frameBytes == 0 {
      forall j | 0 <= j < |e| ensures e[j] == [] {
        assert e[j] == Entry(p.accepted, p.maxRepeat, p.next + j, 0);
      }
    }
  }

  lemma FinishKeepsSilence(p: Playout)
    requires SilenceKnown(p)
    ensures SilenceKnown(Finish(p))
  {
    ReleaseKeepsSilence(p, FlushEnd(p));
  }

  lemma ArriveKeepsSilence(p: Playout, s: nat, payload: Bytes)
    requires SilenceKnown(p)
    ensures SilenceKnown(Arrive(p, s, payload))
  {
    if Fresh(p, s) {
      var q := Hold(p, s, payload);
      ReleaseKeepsSilence(q, DrainEnd(q));
    }
  }

  lemma {:induction false} ConcatHears(parts: seq<Bytes>, i: nat)
    requires i < |parts| && parts[i] != []
    ensures Concat(parts) != []
  {
    if i < |parts| - 1 { ConcatHears(parts[..|parts| - 1], i); }
  }

  lemma {:induction false} ConcatSilent(parts: seq<Bytes>)
    requires forall i :: 0 <= i < |parts| ==> parts[i] == []
    ensures Concat(parts) == []
  {
    if parts != [] { ConcatSilent(parts[..|parts| - 1]); }
  }

  /** When the whole stream holds any audio, flushing adds audio exactly when frames are waiting:
      the first slot a flush releases is a lost one, and is filled with sound or silence. */
  lemma FlushAddsAudioIff(p: Playout)
    requires SilenceKnown(p) && p.next !in p.accepted
    requires Concat(Finish(p).released) != []
    ensures Concat(Finish(p).released) == Concat(p.released) <==> From(p.accepted, p.next) == {}
  {
    var to := FlushEnd(p);
    if p.frameBytes == 0 {
      ReleaseKeepsSilence(p, to);
      ConcatSilent(Finish(p).released);
      assert false;
    }
    hide Greatest, LastReal, SilenceKnown, Concat;
    var e := Entries(p.accepted, p.maxRepeat, p.next, to, p.frameBytes);
    ConcatAppend(p.released, e);
    if to == p.next {
      assert p.released + e == p.released;
    } else {
      assert e[0] == Entry(p.accepted, p.maxRepeat, p.next + 0, p.frameBytes);
      ConcatHears(e, 0);
    }
  }

  // ---------- how much a flush adds ----------

  /** The bytes a flush would play out, reckoned from the buffer's own fields: what is held in turn,
      and for each missing slot a repetition or silence, as far as repetitions last. */
  function WaitingBytes(b: Books, maxRepeat: nat, frameBytes: nat, next: nat): nat
    decreases b.highest + 1 - next
  {
    if next > b.highest then 0
    else if next in b.pending then
      |b.pending[next]| +
      WaitingBytes(b.(lastPayload := b.pending[next], repeats := 0), maxRepeat, frameBytes, next + 1)
    else if b.lastPayload != [] && b.repeats < maxRepeat then
      |b.lastPayload| + WaitingBytes(b.(repeats := b.repeats + 1), maxRepeat, frameBytes, next + 1)
    else frameBytes + WaitingBytes(b, maxRepeat, frameBytes, next + 1)
  }

  /** Only the held frames at or above `next`, and the repetition state, matter. */
  lemma {:induction false} WaitingDepends(b: Books, c: Books, maxRepeat: nat, frameBytes: nat, next: nat)
    requires b.lastPayload == c.lastPayload && b.repeats == c.repeats && b.highest == c.highest
    requires forall k :: k >= next ==> (k in b.pending <==> k in c.pending)
    requires forall k :: k >= next && k in b.pending ==> b.pending[k] == c.pending[k]
    ensures WaitingBytes(b, maxRepeat, frameBytes, next) == WaitingBytes(c, maxRepeat, frameBytes, next)
    decreases b.highest + 1 - next
  {
    if next <= b.highest {
      if next in b.pending {
        WaitingDepends(b.(lastPayload := b.pending[next], repeats := 0),
                       c.(lastPayload := c.pending[next], repeats := 0), maxRepeat, frameBytes, next + 1);
      } else if b.lastPayload != [] && b.repeats < maxRepeat {
        WaitingDepends(b.(repeats := b.repeats + 1), c.(repeats := c.repeats + 1), maxRepeat, frameBytes, next + 1);
      } else {
        WaitingDepends(b, c, maxRepeat, frameBytes, next + 1);
      }
    }
  }

  /** Playing one slot out moves its bytes from what waits to what is released. */
  lemma PlayOne(b: Books, p: Playout) returns (c: Books)
    requires Agrees(b, p) && p.next <= b.highest
    ensures var q := ReleaseTo(p, p.next + 1);
            && Agrees(c, q) && c.highest == b.highest
            && |Concat(q.released)| + WaitingBytes(c, p.maxRepeat, p.frameBytes, p.next + 1)
               == |Concat(p.released)| + WaitingBytes(b, p.maxRepeat, p.frameBytes, p.next)
  {
    hide Agrees, ReleaseTo, Concat, WaitingBytes;
    HeldFacts(b, p);
    WaitingStep(b, p.maxRepeat, p.frameBytes, p.next);
    if p.next in b.pending {
      AgreesRelease(b, p);
      ConcatSnoc(p.released, b.pending[p.next]);
      var d := b.(lastPayload := b.pending[p.next], repeats := 0);
      c := d.(pending := b.pending - {p.next});
      WaitingDepends(d, c, p.maxRepeat, p.frameBytes, p.next + 1);
    } else if b.lastPayload != [] && b.repeats < p.maxRepeat {
      AgreesRepeat(b, p);
      ConcatSnoc(p.released, b.lastPayload);
      c := b.(repeats := b.repeats + 1, lost := b.lost + 1, concealed := b.concealed + 1,
              concealedBytes := b.concealedBytes + |b.lastPayload|);
      WaitingDepends(b.(repeats := b.repeats + 1), c, p.maxRepeat, p.frameBytes, p.next + 1);
    } else {
      AgreesSilence(b, p);
      ConcatSnoc(p.released, Zeros(p.frameBytes));
      c := b.(lost := b.lost + 1, concealed := b.concealed + if p.frameBytes > 0 then 1 else 0,
              concealedBytes := b.concealedBytes + p.frameBytes);
      WaitingDepends(b, c, p.maxRepeat, p.frameBytes, p.next + 1);
    }
  }

  lemma WaitingStep(b: Books, maxRepeat: nat, frameBytes: nat, next: nat)
    requires next <= b.highest
    ensures WaitingBytes(b, maxRepeat, frameBytes, next) ==
              if next in b.pending then
                |b.pending[next]| +
                WaitingBytes(b.(lastPayload := b.pending[next], repeats := 0), maxRepeat, frameBytes, next + 1)
              else if b.lastPayload != [] && b.repeats < maxRepeat then
                |b.lastPayload| + WaitingBytes(b.(repeats := b.repeats + 1), maxRepeat, frameBytes, next + 1)
              else frameBytes + WaitingBytes(b, maxRepeat, frameBytes, next + 1)
  {
  }

  /** A flush adds exactly the waiting bytes. */
  lemma {:induction false} FlushAdds(b: Books, p: Playout)
    requires Agrees(b, p)
    ensures |Concat(Finish(p).released)| ==
              |Concat(p.released)| + WaitingBytes(b, p.maxRepeat, p.frameBytes, p.next)
    decreases b.highest + 1 - p.next
  {
    hide Agrees, ReleaseTo, Concat, FlushEnd;
    HeldFacts(b, p);
    if p.next > b.highest {
      ReleaseSteps(p, p.next);
    } else {
      var c := PlayOne(b, p);
      FlushAdds(c, ReleaseTo(p, p.next + 1));
      HeldFacts(c, ReleaseTo(p, p.next + 1));
      ReleaseTwice(p, p.next + 1, FlushEnd(p));
    }
  }

  lemma {:induction false} ReleaseTwice(p: Playout, via: nat, last: nat)
    requires p.next <= via <= last
    ensures ReleaseTo(ReleaseTo(p, via), last) == ReleaseTo(p, last)
    decreases last - via
  {
    hide ReleaseTo;
    var q := ReleaseTo(p, via);
    if via == last {
      ReleaseSteps(q, last);
    } else {
      ReleaseTwice(p, via, last - 1);
      ReleaseSteps(q, last - 1);
      ReleaseSteps(p, last - 1);
    }
  }
}
