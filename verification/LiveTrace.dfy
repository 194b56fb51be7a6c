/** What one live session puts on the wire and delivers to the page. */
module LiveTrace {

  datatype Frame = StartFrame | Pcm(samples: seq<real>) | EndFrame

  function Clamp(x: real): real {
    if x < -1.0 then -1.0 else if x > 1.0 then 1.0 else x
  }

  function Clamped(samples: seq<real>): (r: seq<real>)
    ensures |r| == |samples|
    ensures forall i :: 0 <= i < |samples| ==> r[i] == Clamp(samples[i])
  {
    seq(|samples|, i requires 0 <= i < |samples| => Clamp(samples[i]))
  }

  lemma ClampedAppend(a: seq<real>, b: seq<real>)
    ensures Clamped(a + b) == Clamped(a) + Clamped(b)
  {
  }

  // ---------- what clamping does to a sample ----------

  predicate FullScale(y: real) {
    -1.0 <= y <= 1.0
  }

  function Off(x: real, y: real): real {
    if x <= y then y - x else x - y
  }

  /** y is in range, and no value in range is nearer to x. */
  ghost predicate Nearest(y: real, x: real) {
    FullScale(y) && forall z :: FullScale(z) ==> Off(x, y) <= Off(x, z)
  }

  lemma ClampNearest(x: real)
    ensures Nearest(Clamp(x), x)
    ensures FullScale(x) ==> Clamp(x) == x
  {
  }

  /** The samples sent are the first of those recorded: in range, unchanged if they were, and otherwise as
      near as the range admits. */
  ghost predicate AsRecorded(sent: seq<real>, recorded: seq<real>) {
    && |sent| <= |recorded|
    && forall i :: 0 <= i < |sent| ==>
         Nearest(sent[i], recorded[i]) && (FullScale(recorded[i]) ==> sent[i] == recorded[i])
  }

  lemma ClampedAsRecorded(sent: seq<real>, recorded: seq<real>)
    requires sent <= Clamped(recorded)
    ensures AsRecorded(sent, recorded)
  {
    forall i | 0 <= i < |sent|
      ensures Nearest(sent[i], recorded[i]) && (FullScale(recorded[i]) ==> sent[i] == recorded[i])
    {
      ClampNearest(recorded[i]);
    }
  }

  function Flat(chunks: seq<seq<real>>): seq<real> {
    if chunks == [] then [] else Flat(chunks[..|chunks| - 1]) + chunks[|chunks| - 1]
  }

  lemma FlatSnoc(chunks: seq<seq<real>>, c: seq<real>)
    ensures Flat(chunks + [c]) == Flat(chunks) + c
  {
    assert (chunks + [c])[..|chunks|] == chunks;
  }

  lemma NothingPending(sent: seq<real>)
    ensures Flat([]) == [] && Clamped([]) == []
    ensures sent + Clamped([]) == sent
  {
    assert sent + [] == sent;
  }

  /** The samples the wire carries, in order. */
  function Sent(wire: seq<Frame>): seq<real> {
    if wire == [] then []
    else
      var last := wire[|wire| - 1];
      Sent(wire[..|wire| - 1]) + if last.Pcm? then last.samples else []
  }

  lemma SentSnoc(wire: seq<Frame>, f: Frame)
    ensures Sent(wire + [f]) == Sent(wire) + if f.Pcm? then f.samples else []
  {
    assert (wire + [f])[..|wire|] == wire;
  }

  predicate Ended(wire: seq<Frame>) {
    wire != [] && wire[|wire| - 1] == EndFrame
  }

  /** One start, then non-empty audio frames, then at most one end, and nothing after it. */
  predicate WellShaped(wire: seq<Frame>) {
    && (wire != [] ==> wire[0] == StartFrame)
    && (forall i :: 0 < i < |wire| ==> wire[i] != StartFrame)
    && (forall i :: 0 <= i < |wire| - 1 ==> wire[i] != EndFrame)
    && (forall i :: 0 <= i < |wire| && wire[i].Pcm? ==> wire[i].samples != [])
  }

  lemma ShapeGrows(wire: seq<Frame>, f: Frame)
    requires WellShaped(wire) && !Ended(wire)
    requires f == StartFrame <==> wire == []
    requires f.Pcm? ==> f.samples != []
    ensures WellShaped(wire + [f])
    ensures Ended(wire + [f]) <==> f == EndFrame
  {
  }

  /** Nothing accepted is lost, reordered or sent twice while the session lives; once it is over,
      what was sent is still a prefix, and after an end marker it is everything. */
  ghost predicate Faithful(wire: seq<Frame>, accepted: seq<real>, pending: seq<seq<real>>, over: bool) {
    && Sent(wire) <= Clamped(accepted)
    && (over ==> pending == [])
    && (Ended(wire) ==> |Flat(pending)| == 0)
    && ((over && !Ended(wire)) || Clamped(accepted) == Sent(wire) + Clamped(Flat(pending)))
  }

  lemma FaithfulDropped(wire: seq<Frame>, accepted: seq<real>, pending: seq<seq<real>>, over: bool)
    requires Faithful(wire, accepted, pending, over)
    ensures Faithful(wire, accepted, [], true) && Flat([]) == []
  {
    NothingPending(Sent(wire));
    if Ended(wire) { assert Flat(pending) == []; }
  }

  lemma FaithfulStarted(accepted: seq<real>, pending: seq<seq<real>>, over: bool)
    requires Faithful([], accepted, pending, over)
    ensures Faithful([StartFrame], accepted, pending, over)
  {
    FirstFrame();
  }

  lemma FaithfulAccepted(wire: seq<Frame>, accepted: seq<real>, pending: seq<seq<real>>, samples: seq<real>)
    requires Faithful(wire, accepted, pending, false) && !Ended(wire)
    ensures Faithful(wire, accepted + samples, pending + [samples], false)
    ensures |Flat(pending + [samples])| == |Flat(pending)| + |samples|
  {
    FlatSnoc(pending, samples);
    ClampedAppend(Flat(pending), samples);
    ClampedAppend(accepted, samples);
  }

  lemma FaithfulSent(wire: seq<Frame>, accepted: seq<real>, pending: seq<seq<real>>)
    requires Faithful(wire, accepted, pending, false) && !Ended(wire)
    ensures var wire' := wire + [Pcm(Clamped(Flat(pending)))];
            Faithful(wire', accepted, [], false) && Sent(wire') == Clamped(accepted) &&
            |Sent(wire')| == |Sent(wire)| + |Flat(pending)|
    ensures Flat([]) == []
  {
    SentSnoc(wire, Pcm(Clamped(Flat(pending))));
    NothingPending(Sent(wire + [Pcm(Clamped(Flat(pending)))]));
  }

  lemma FaithfulEnded(wire: seq<Frame>, accepted: seq<real>, pending: seq<seq<real>>)
    requires Faithful(wire, accepted, pending, false) && |Flat(pending)| == 0
    ensures Faithful(wire + [EndFrame], accepted, pending, false)
    ensures Sent(wire + [EndFrame]) == Sent(wire) == Clamped(accepted)
  {
    assert Flat(pending) == [];
    NothingPending(Sent(wire));
    SentSnoc(wire, EndFrame);
  }

  lemma FirstFrame()
    ensures WellShaped([StartFrame]) && !Ended([StartFrame])
    ensures Sent([StartFrame]) == Sent([]) == []
    ensures Faithful([], [], [], false) && Flat([]) == []
  {
    assert [StartFrame][..0] == [];
  }

  /** Delivered sequence numbers strictly increase, and the last one is the newest seen. */
  predicate Increasing(delivered: seq<int>, newest: int) {
    && (delivered == [] ==> newest == 0)
    && (delivered != [] ==> delivered[|delivered| - 1] == newest)
    && (forall i, j :: 0 <= i < j < |delivered| ==> delivered[i] < delivered[j])
    && (forall i :: 0 <= i < |delivered| ==> 0 < delivered[i])
  }

  lemma IncreasingGrows(delivered: seq<int>, newest: int, next: int)
    requires Increasing(delivered, newest) && 0 < next && newest < next
    ensures Increasing(delivered + [next], next)
  {
  }
}
