/** The sequenced-frame reorder buffer, statement by statement, against `Playout`. */
module ReorderBuffer {
  import opened Bytes
  import opened Playout

  /** Big-endian value of a four-byte header. */
  function BigEndian32(h: Bytes): nat
    requires |h| == 4
  {
    ((h[0] as nat * 256 + h[1] as nat) * 256 + h[2] as nat) * 256 + h[3] as nat
  }

  function ParseSequencedFrame(frame: Bytes): Result<(nat, Bytes), string> {
    if |frame| < 4 then Err("A sequenced frame needs a 4-byte header")
    else Ok((BigEndian32(frame[..4]), frame[4..]))
  }

  /** What a `seq32` client puts on the wire. */
  function SequencedFrame(sequence: nat, payload: Bytes): Bytes
    requires sequence < 0x1_0000_0000
  {
    [(sequence / 0x100_0000) as byte, (sequence / 0x1_0000 % 256) as byte,
     (sequence / 256 % 256) as byte, (sequence % 256) as byte] + payload
  }

  lemma HeaderDigits(n: nat)
    requires n < 0x1_0000_0000
    ensures ((n / 0x100_0000 * 256 + n / 0x1_0000 % 256) * 256 + n / 256 % 256) * 256 + n % 256 == n
  {
  }

  lemma HeaderValue(h: Bytes)
    requires |h| == 4
    ensures var v := BigEndian32(h);
            v < 0x1_0000_0000 && v / 0x100_0000 == h[0] as int && v / 0x1_0000 % 256 == h[1] as int
            && v / 256 % 256 == h[2] as int && v % 256 == h[3] as int
  {
  }

  lemma FramingRoundTrip(sequence: nat, payload: Bytes, frame: Bytes)
    requires sequence < 0x1_0000_0000
    ensures ParseSequencedFrame(SequencedFrame(sequence, payload)) == Ok((sequence, payload))
    ensures ParseSequencedFrame(frame).Ok? <==> |frame| >= 4
    ensures |frame| >= 4 ==>
              var (s, p) := ParseSequencedFrame(frame).value;
              s < 0x1_0000_0000 && SequencedFrame(s, p) == frame
  {
    var w := SequencedFrame(sequence, payload);
    assert w[4..] == payload && w[..4] == [w[0], w[1], w[2], w[3]];
    HeaderDigits(sequence);
    if |frame| >= 4 {
      var h := frame[..4];
      HeaderValue(h);
      assert frame == [h[0], h[1], h[2], h[3]] + frame[4..];
    }
  }

  class ReorderBuffer {
    const window: nat
    const maxRepeat: nat
    var pending: map<nat, Bytes>
    var next: nat
    var lastPayload: Bytes
    var repeats: nat
    var frameBytes: nat
    var received: nat
    var duplicated: nat
    var reordered: nat
    var lost: nat
    var concealed: nat
    var concealedBytes: nat
    var highest: int
    ghost var accepted: map<nat, Bytes>
    ghost var released: seq<Bytes>

    ghost function View(): Playout
      reads this
    {
      Playout(window, maxRepeat, accepted, next, frameBytes, released)
    }

    ghost function Stored(): Books
      reads this
    {
      Books(pending, lastPayload, repeats, received, lost, concealed, concealedBytes, highest)
    }

    ghost predicate Consistent()
      reads this
    {
      Agrees(Stored(), View())
    }

    ghost predicate Valid()
      reads this
    {
      Consistent() && |pending| <= window && next !in accepted
    }

    constructor (window: nat, maxRepeat: nat)
      ensures Valid()
      ensures View() == Init(window, maxRepeat)
      ensures duplicated == reordered == 0
    {
      this.window, this.maxRepeat := window, maxRepeat;
      pending, next, lastPayload, repeats, frameBytes := map[], 0, [], 0, 0;
      received, duplicated, reordered, lost, concealed, concealedBytes := 0, 0, 0, 0, 0, 0;
      highest := -1;
      accepted, released := map[], [];
      AgreesInit(window, maxRepeat);
    }

    method Push(sequence: int, payload: Bytes) returns (out: Result<seq<Bytes>, string>)
      requires Valid()
      modifies this
      ensures Valid()
      ensures out.Ok? <==> sequence >= 0
      ensures sequence < 0 ==> unchanged(this)
      ensures sequence >= 0 ==>
                && View() == Arrive(old(View()), sequence, payload)
                && released == old(released) + out.value
                && duplicated == old(duplicated) + (if Fresh(old(View()), sequence) then 0 else 1)
                && reordered == old(reordered) + (if Overtaken(old(View()), sequence) then 1 else 0)
    {
      hide Agrees, ReleaseTo, DrainEnd, Overtaken, From, Pending, Fresh;
      if sequence < 0 {
        return Err("Frame sequence numbers cannot be negative");
      }
      HeldFacts(Stored(), View());
      if sequence < next || sequence in pending {
        duplicated := duplicated + 1;
        return Ok([]);
      }
      Accept(sequence, payload);
      var batch := Drain();
      return Ok(batch);
    }

    /** Hold a fresh frame. */
    method Accept(sequence: nat, payload: Bytes)
      requires Consistent() && Fresh(View(), sequence)
      modifies this`pending, this`frameBytes, this`received, this`reordered, this`highest, this`accepted
      ensures Consistent() && View() == Hold(old(View()), sequence, payload)
      ensures |pending| == |old(pending)| + 1
      ensures reordered == old(reordered) + (if Overtaken(old(View()), sequence) then 1 else 0)
    {
      hide Agrees, Overtaken, Fresh, IsHighest;
      ghost var b, p := Stored(), View();
      AgreesHold(b, p, sequence, payload);
      Tally(sequence);
      pending := pending[sequence := payload];
      if payload != [] {
        frameBytes := |payload|;
      }
      accepted := accepted[sequence := payload];
      assert Stored() == b.(pending := b.pending[sequence := payload], received := b.received + 1,
                            highest := if sequence > b.highest then sequence else b.highest);
      assert View() == Hold(p, sequence, payload);
    }

    /** Count a fresh frame, and whether a later one came before it. */
    method Tally(sequence: nat)
      modifies this`received, this`reordered, this`highest
      ensures received == old(received) + 1
      ensures highest == if sequence > old(highest) then sequence else old(highest)
      ensures reordered == old(reordered) + if sequence < old(highest) then 1 else 0
    {
      if sequence < highest {
        reordered := reordered + 1;
      }
      highest := if sequence > highest then sequence else highest;
      received := received + 1;
    }

    /** Release what is in order, giving up on the next frame only while too many wait. */
    method Drain() returns (out: seq<Bytes>)
      requires Consistent() && |pending| <= window + 1
      modifies this
      ensures Valid()
      ensures duplicated == old(duplicated) && reordered == old(reordered)
      ensures View() == ReleaseTo(old(View()), DrainEnd(old(View())))
      ensures released == old(released) + out
    {
      hide Agrees, ReleaseTo, DrainEnd;
      out := [];
      ghost var p := View();
      ReleaseSteps(p, next);
      while pending != map[]
        invariant Consistent() && |pending| <= window + 1
        invariant duplicated == old(duplicated) && reordered == old(reordered)
        invariant p.next <= next && View() == ReleaseTo(p, next) && DrainEnd(View()) == DrainEnd(p)
        invariant released == p.released + out
        decreases highest + 1 - next
      {
        HeldFacts(Stored(), View());
        DrainSteps(View());
        ReleaseSteps(p, next);
        if next in pending {
          var payload := Release();
          out := out + [payload];
          continue;
        }
        if |pending| <= window {
          return;
        }
        var filler := Conceal();
        out := out + [filler];
      }
      HeldFacts(Stored(), View());
      DrainSteps(View());
    }

    /** The lines both release loops share: play the held next frame. */
    method Release() returns (payload: Bytes)
      requires Consistent() && next in pending
      modifies this
      ensures Consistent() && View() == ReleaseTo(old(View()), old(next) + 1)
      ensures |pending| == |old(pending)| - 1 && highest == old(highest)
      ensures duplicated == old(duplicated) && reordered == old(reordered)
      ensures released == old(released) + [payload]
    {
      hide Agrees, ReleaseTo, IsHighest, Pending, LastReal, Entries;
      ghost var b, p := Stored(), View();
      AgreesRelease(b, p);
      payload := pending[next];
      pending := pending - {next};
      next := next + 1;
      lastPayload := payload;
      repeats := 0;
      released := released + [payload];
      assert Stored() == b.(pending := b.pending - {p.next}, lastPayload := b.pending[p.next], repeats := 0);
      assert View() == ReleaseTo(p, p.next + 1);
    }

    /** Give up on the next slot: count it as lost and play a stand-in for it. */
    method Conceal() returns (filler: Bytes)
      requires Consistent() && next !in accepted && next <= highest
      modifies this
      ensures Consistent() && View() == ReleaseTo(old(View()), old(next) + 1)
      ensures pending == old(pending) && highest == old(highest)
      ensures duplicated == old(duplicated) && reordered == old(reordered)
      ensures released == old(released) + [filler]
    {
      hide Agrees, ReleaseTo, IsHighest, Pending, LastReal, Entries;
      ghost var b, p := Stored(), View();
      lost := lost + 1;
      next := next + 1;
      if lastPayload != [] && repeats < maxRepeat {
        AgreesRepeat(b, p);
        repeats := repeats + 1;
        concealed := concealed + 1;
        concealedBytes := concealedBytes + |lastPayload|;
        filler := lastPayload;
        released := released + [filler];
        return;
      }
      AgreesSilence(b, p);
      filler := Zeros(frameBytes);
      if filler != [] {
        concealed := concealed + 1;
        concealedBytes := concealedBytes + |filler|;
      }
      released := released + [filler];
    }

    /** The stream is over: play out every slot up to the highest frame seen. */
    method Flush() returns (out: seq<Bytes>)
      requires Valid()
      modifies this
      ensures Valid() && pending == map[]
      ensures View() == Finish(old(View()))
      ensures released == old(released) + out
      ensures duplicated == old(duplicated) && reordered == old(reordered)
    {
      hide Agrees, ReleaseTo, FlushEnd, From;
      out := [];
      ghost var p := View();
      HeldFacts(Stored(), p);
      ReleaseSteps(p, next);
      while pending != map[]
        invariant Consistent() && accepted == p.accepted && frameBytes == p.frameBytes && highest == old(highest)
        invariant duplicated == old(duplicated) && reordered == old(reordered)
        invariant p.next <= next && View() == ReleaseTo(p, next)
        invariant released == p.released + out
        decreases highest + 1 - next
      {
        HeldFacts(Stored(), View());
        ReleaseSteps(p, next);
        if next in pending {
          var payload := Release();
          out := out + [payload];
        } else {
          var filler := Conceal();
          out := out + [filler];
        }
      }
      HeldFacts(Stored(), View());
    }
  }
}
