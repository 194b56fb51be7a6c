/** What the reorder buffer guarantees over whole arrival histories. */
module ReorderTheorems {
  import opened Bytes
  import opened Playout

  datatype Event = Push(sequence: nat, payload: Bytes) | Flush

  ghost function Step(p: Playout, e: Event): Playout {
    match e
    case Push(s, v) => Arrive(p, s, v)
    case Flush => Finish(p)
  }

  ghost function Run(window: nat, maxRepeat: nat, events: seq<Event>): Playout {
    if events == [] then Init(window, maxRepeat)
    else Step(Run(window, maxRepeat, events[..|events| - 1]), events[|events| - 1])
  }

  predicate PushesOnly(events: seq<Event>) {
    forall e :: e in events ==> e.Push?
  }

  // ---------- invariants of every run ----------

  /** Nothing is due: the next slot is missing, and no more than a window waits behind it. */
  ghost predicate AtRest(p: Playout) {
    && |From(p.accepted, p.next)| <= p.window
    && p.next !in p.accepted
    && |p.released| == p.next
  }

  lemma DrainSettles(p: Playout)
    requires |From(p.accepted, p.next)| <= p.window + 1
    ensures DrainEnd(p) !in p.accepted && |From(p.accepted, DrainEnd(p))| <= p.window
    decreases |From(p.accepted, p.next)|
  {
    hide DrainEnd, From, Entries;
    DrainSteps(p);
    FromStep(p.accepted, p.next);
    if p.next in p.accepted {
      DrainSettles(ReleaseTo(p, p.next + 1));
    } else if |From(p.accepted, p.next)| > p.window {
      var start := Resume(p);
      GapIsSkipped(p);
      FromStep(p.accepted, start);
      DrainSettles(ReleaseTo(p, start + 1));
    }
  }

  /** Giving up on a gap moves on to the first held frame and drops none. */
  lemma GapIsSkipped(p: Playout)
    requires |From(p.accepted, p.next)| == p.window + 1
    ensures var start := Resume(p);
            && start in p.accepted && From(p.accepted, start) == From(p.accepted, p.next)
            && DrainEnd(ReleaseTo(p, start + 1)) == DrainEnd(p)
  {
    hide Entries, Least;
    var start := Resume(p);
    assert forall k :: k in p.accepted && k >= p.next ==> k in From(p.accepted, p.next);
    assert From(p.accepted, start) == From(p.accepted, p.next);
    FromStep(p.accepted, start);
    FirstGapSteps(p.accepted, start);
  }

  lemma FirstGapSteps(accepted: map<nat, Bytes>, n: nat)
    requires n in accepted
    ensures FirstGap(accepted, n) == FirstGap(accepted, n + 1)
  {
  }

  lemma HoldFits(p: Playout, s: nat, payload: Bytes)
    requires AtRest(p) && Fresh(p, s)
    ensures From(Hold(p, s, payload).accepted, p.next) == From(p.accepted, p.next) + {s}
    ensures |From(Hold(p, s, payload).accepted, p.next)| <= p.window + 1
  {
    assert From(Hold(p, s, payload).accepted, p.next) == From(p.accepted, p.next) + {s};
  }

  lemma StepAtRest(p: Playout, e: Event)
    requires AtRest(p)
    ensures AtRest(Step(p, e))
  {
    match e
    case Push(s, v) =>
      if Fresh(p, s) {
        HoldFits(p, s, v);
        DrainSettles(Hold(p, s, v));
      }
    case Flush =>
      NothingBeyondFlush(p);
  }

  lemma NothingBeyondFlush(p: Playout)
    ensures FlushEnd(p) !in p.accepted && From(p.accepted, FlushEnd(p)) == {}
  {
    assert forall k :: k in p.accepted && k >= p.next ==> k in From(p.accepted, p.next);
  }

  lemma {:induction false} RunAtRest(window: nat, maxRepeat: nat, events: seq<Event>)
    ensures var p := Run(window, maxRepeat, events);
            AtRest(p) && p.window == window && p.maxRepeat == maxRepeat
  {
    if events != [] {
      hide Step, AtRest;
      var init := events[..|events| - 1];
      RunAtRest(window, maxRepeat, init);
      StepAtRest(Run(window, maxRepeat, init), events[|events| - 1]);
      StepReleases(Run(window, maxRepeat, init), events[|events| - 1]);
    } else {
      assert From(Init(window, maxRepeat).accepted, 0) == {};
    }
  }

  // ---------- what every slot plays ----------

  /** Length of the last non-empty frame accepted, 0 before the first. */
  ghost function LatestAudio(window: nat, maxRepeat: nat, events: seq<Event>): nat {
    if events == [] then 0
    else
      var init, last := events[..|events| - 1], events[|events| - 1];
      if last.Push? && last.payload != [] && Fresh(Run(window, maxRepeat, init), last.sequence) then |last.payload|
      else LatestAudio(window, maxRepeat, init)
  }

  /** How many events it takes until slot i is out. */
  ghost function ReleasedBy(window: nat, maxRepeat: nat, events: seq<Event>, i: nat): (n: nat)
    requires i < Run(window, maxRepeat, events).next
    ensures 0 < n <= |events| && i < Run(window, maxRepeat, events[..n]).next
    ensures Run(window, maxRepeat, events[..n - 1]).next <= i
  {
    var init := events[..|events| - 1];
    if i < Run(window, maxRepeat, init).next then
      var n := ReleasedBy(window, maxRepeat, init, i);
      assert events[..n] == init[..n] && events[..n - 1] == init[..n - 1];
      n
    else
      assert events[..|events|] == events;
      |events|
  }

  /** r is the last slot before i that holds a real frame, or -1 when there is none. */
  ghost predicate LastBefore(accepted: map<nat, Bytes>, i: nat, r: int) {
    && -1 <= r < i
    && (r >= 0 ==> r in accepted)
    && forall k: nat :: r < k < i ==> k !in accepted
  }

  /** The frame of slot i, or a repetition at most `maxRepeat` slots after the last real frame, or
      `silence` bytes of silence. */
  ghost predicate SlotPlays(p: Playout, i: nat, entry: Bytes, silence: nat) {
    if i in p.accepted then entry == p.accepted[i] else exists r :: Conceals(p, i, r, entry, silence)
  }

  ghost predicate Conceals(p: Playout, i: nat, r: int, entry: Bytes, silence: nat) {
    && LastBefore(p.accepted, i, r)
    && entry == if r >= 0 && p.accepted[r] != [] && i - r <= p.maxRepeat then p.accepted[r] else Zeros(silence)
  }

  lemma EntryPlays(p: Playout, i: nat, silence: nat)
    ensures SlotPlays(p, i, Entry(p.accepted, p.maxRepeat, i, silence), silence)
  {
    LastRealIsLast(p.accepted, i);
    assert i !in p.accepted ==>
        Conceals(p, i, LastReal(p.accepted, i), Entry(p.accepted, p.maxRepeat, i, silence), silence);
  }

  lemma {:induction false} FrameBytesIsLatest(window: nat, maxRepeat: nat, events: seq<Event>)
    ensures Run(window, maxRepeat, events).frameBytes == LatestAudio(window, maxRepeat, events)
  {
    if events != [] { FrameBytesIsLatest(window, maxRepeat, events[..|events| - 1]); }
  }

  lemma ReleaseAdds(p: Playout, to: nat)
    requires p.next <= to && |p.released| == p.next
    ensures var q := ReleaseTo(p, to);
            && p.released <= q.released && |q.released| == to
            && forall i :: p.next <= i < to ==> q.released[i] == Entry(p.accepted, p.maxRepeat, i, p.frameBytes)
  {
    var e := Entries(p.accepted, p.maxRepeat, p.next, to, p.frameBytes);
    forall i | p.next <= i < to
      ensures ReleaseTo(p, to).released[i] == Entry(p.accepted, p.maxRepeat, i, p.frameBytes)
    {
      assert e[i - p.next] == Entry(p.accepted, p.maxRepeat, p.next + (i - p.next), p.frameBytes);
    }
  }

  /** A step keeps what is released, adds whole slots, and changes no frame below the next slot. */
  lemma StepReleases(p: Playout, e: Event)
    requires |p.released| == p.next
    ensures var q := Step(p, e);
            && p.released <= q.released && p.next <= q.next == |q.released|
            && q.window == p.window && q.maxRepeat == p.maxRepeat
            && (forall i :: p.next <= i < q.next ==>
                              q.released[i] == Entry(q.accepted, q.maxRepeat, i, q.frameBytes))
            && (forall k :: k in p.accepted ==> k in q.accepted && q.accepted[k] == p.accepted[k])
            && (forall k :: k in q.accepted && k < p.next ==> k in p.accepted)
  {
    hide Entry, Entries, DrainEnd, FlushEnd, ReleaseTo;
    match e
    case Push(s, v) =>
      if Fresh(p, s) {
        var h := Hold(p, s, v);
        ReleaseAdds(h, DrainEnd(h));
      }
    case Flush =>
      ReleaseAdds(p, FlushEnd(p));
  }

  /** Output characterisation: in every run, slot i of everything released plays frame i when it was
      accepted, and otherwise a short repetition of the last real frame before it, or silence as long
      as the last non-empty frame accepted by the time the slot was released. */
  lemma {:induction false} OutputCharacterised(window: nat, maxRepeat: nat, events: seq<Event>, i: nat)
    requires i < Run(window, maxRepeat, events).next
    ensures var p := Run(window, maxRepeat, events);
            && |p.released| == p.next && p.maxRepeat == maxRepeat
            && SlotPlays(p, i, p.released[i],
                         LatestAudio(window, maxRepeat, events[..ReleasedBy(window, maxRepeat, events, i)]))
  {
    hide SlotPlays, Step, LatestAudio, Entry;
    RunAtRest(window, maxRepeat, events);
    var init, last := events[..|events| - 1], events[|events| - 1];
    var p, q := Run(window, maxRepeat, init), Run(window, maxRepeat, events);
    RunAtRest(window, maxRepeat, init);
    StepReleases(p, last);
    if i < p.next {
      OutputCharacterised(window, maxRepeat, init, i);
      var n := ReleasedBy(window, maxRepeat, init, i);
      assert events[..n] == init[..n];
      PlaysStill(p, q, i, p.released[i], LatestAudio(window, maxRepeat, init[..n]));
    } else {
      assert events[..|events|] == events;
      FrameBytesIsLatest(window, maxRepeat, events);
      EntryPlays(q, i, q.frameBytes);
    }
  }

  lemma PlaysStill(p: Playout, q: Playout, i: nat, entry: Bytes, silence: nat)
    requires i < p.next && p.maxRepeat == q.maxRepeat && SlotPlays(p, i, entry, silence)
    requires forall k :: k in p.accepted ==> k in q.accepted && q.accepted[k] == p.accepted[k]
    requires forall k :: k in q.accepted && k < p.next ==> k in p.accepted
    ensures SlotPlays(q, i, entry, silence)
  {
    if i !in p.accepted {
      var r :| Conceals(p, i, r, entry, silence);
      assert Conceals(q, i, r, entry, silence);
    }
  }

  /** Concealment preserves the timeline: with frames of one length, slot i of the released bytes
      is exactly [i * length, (i + 1) * length). */
  lemma Timeline(window: nat, maxRepeat: nat, events: seq<Event>, length: nat, i: nat)
    requires length > 0
    requires forall e :: e in events && e.Push? ==> |e.payload| == length
    requires i < Run(window, maxRepeat, events).next
    ensures var p := Run(window, maxRepeat, events);
            && |p.released| == p.next
            && |p.released[i]| == length
            && |Concat(p.released)| == p.next * length
            && 0 <= i * length <= (i + 1) * length <= |Concat(p.released)|
            && Concat(p.released)[i * length..(i + 1) * length] == p.released[i]
  {
    var p := Run(window, maxRepeat, events);
    RunAtRest(window, maxRepeat, events);
    RunUniform(window, maxRepeat, events, length);
    ConcatUniform(p.released, length, i);
  }

  ghost predicate Uniform(p: Playout, length: nat) {
    && (forall k :: k in p.accepted ==> |p.accepted[k]| == length)
    && (p.accepted != map[] ==> p.frameBytes == length)
    && forall i :: 0 <= i < |p.released| ==> |p.released[i]| == length
  }

  lemma ReleaseUniform(p: Playout, to: nat, length: nat)
    requires p.next <= to && Uniform(p, length) && (to > p.next ==> p.accepted != map[])
    ensures Uniform(ReleaseTo(p, to), length)
  {
  }

  lemma {:induction false} RunUniform(window: nat, maxRepeat: nat, events: seq<Event>, length: nat)
    requires length > 0
    requires forall e :: e in events && e.Push? ==> |e.payload| == length
    ensures Uniform(Run(window, maxRepeat, events), length)
  {
    if events != [] {
      var init, last := events[..|events| - 1], events[|events| - 1];
      RunUniform(window, maxRepeat, init, length);
      var p := Run(window, maxRepeat, init);
      if last.Push? && Fresh(p, last.sequence) {
        var h := Hold(p, last.sequence, last.payload);
        assert last.sequence in h.accepted;
        ReleaseUniform(h, DrainEnd(h), length);
      } else if last.Flush? {
        ReleaseUniform(p, FlushEnd(p), length);
      }
    }
  }

  /** With frames of one length, a flushed stream is that length times the slots it has. */
  lemma UniformFlush(p: Playout, length: nat)
    requires Uniform(p, length) && |p.released| == p.next
    ensures |Concat(Finish(p).released)| == FlushEnd(p) * length
  {
    hide Concat, Entry;
    ReleaseUniform(p, FlushEnd(p), length);
    ReleaseAdds(p, FlushEnd(p));
    ConcatUniformLength(Finish(p).released, length);
  }

  lemma {:induction false} ConcatUniformLength(parts: seq<Bytes>, length: nat)
    requires forall j :: 0 <= j < |parts| ==> |parts[j]| == length
    ensures |Concat(parts)| == |parts| * length
  {
    if parts != [] {
      var n := |parts| - 1;
      ConcatUniformLength(parts[..n], length);
      assert |parts| * length == n * length + length;
    }
  }

  lemma {:induction false} ConcatUniform(parts: seq<Bytes>, length: nat, i: nat)
    requires forall j :: 0 <= j < |parts| ==> |parts[j]| == length
    requires i < |parts|
    ensures |Concat(parts)| == |parts| * length
    ensures 0 <= i * length <= (i + 1) * length <= |parts| * length
    ensures Concat(parts)[i * length..(i + 1) * length] == parts[i]
  {
    var n := |parts| - 1;
    var init := parts[..n];
    ConcatUniformLength(parts, length);
    ConcatUniformLength(init, length);
    var lo, hi := i * length, (i + 1) * length;
    assert hi == lo + length;
    if i < n {
      ConcatUniform(init, length, i);
      assert Concat(parts)[lo..hi] == Concat(init)[lo..hi];
    }
  }

  // ---------- one push gives up on at most one gap ----------

  /** Each push conceals at most one contiguous gap, only when the window was already full, and
      leaves at most `window` frames held. */
  lemma OneGapPerPush(p: Playout, s: nat, payload: Bytes) returns (gapEnd: nat)
    requires AtRest(p)
    ensures var q := Arrive(p, s, payload);
            && p.next <= gapEnd <= q.next
            && (forall k :: p.next <= k < gapEnd ==> k !in q.accepted)
            && (forall k :: gapEnd <= k < q.next ==> k in q.accepted)
            && (gapEnd > p.next ==> |From(p.accepted, p.next)| == p.window && Fresh(p, s))
            && |From(q.accepted, q.next)| <= p.window
  {
    if !Fresh(p, s) { return p.next; }
    var h := Hold(p, s, payload);
    gapEnd := Resume(h);
    HoldFits(p, s, payload);
    DrainSettles(h);
    assert forall k :: k in h.accepted && k >= h.next ==> k in From(h.accepted, h.next);
  }

  // ---------- exactly how much reordering is repaired ----------

  function Lost(p: Playout): nat {
    p.next - CountBelow(p.accepted, p.next)
  }

  lemma {:induction false} CountBelowFull(accepted: map<nat, Bytes>, n: nat)
    ensures CountBelow(accepted, n) == n <==> forall k :: 0 <= k < n ==> k in accepted
  {
    if n > 0 { CountBelowFull(accepted, n - 1); }
  }

  ghost predicate Arrived(events: seq<Event>, k: nat) {
    exists e :: e in events && e.Push? && e.sequence == k
  }

  ghost function FirstPayload(events: seq<Event>, k: nat): Bytes
    requires Arrived(events, k)
  {
    var init := events[..|events| - 1];
    if Arrived(init, k) then FirstPayload(init, k)
    else
      assert events == init + [events[|events| - 1]];
      events[|events| - 1].payload
  }

  /** The part of the history before frame k first arrives; all of it when it never does. */
  ghost function Before(events: seq<Event>, k: nat): seq<Event> {
    if Arrived(events, k) then Before(events[..|events| - 1], k) else events
  }

  /** The distinct frames above k that arrive before k first does. */
  ghost function Overtaking(events: seq<Event>, k: nat): set<nat> {
    set e | e in Before(events, k) && e.Push? && e.sequence > k :: e.sequence
  }

  lemma ArrivedSnoc(init: seq<Event>, s: nat, v: Bytes, k: nat)
    ensures Arrived(init + [Push(s, v)], k) <==> Arrived(init, k) || k == s
    ensures Arrived(init, k) ==> FirstPayload(init + [Push(s, v)], k) == FirstPayload(init, k)
    ensures k == s && !Arrived(init, k) ==> FirstPayload(init + [Push(s, v)], k) == v
  {
    var events := init + [Push(s, v)];
    assert events[..|init|] == init && events[|init|] in events;
    assert forall e :: e in events <==> e in init || e == Push(s, v);
  }

  /** What one push accepts, in a run that has lost nothing before or through it. */
  lemma LosslessPush(p: Playout, s: nat, v: Bytes)
    requires |p.released| == p.next && Lost(Arrive(p, s, v)) == 0
    ensures Lost(p) == 0
    ensures Arrive(p, s, v).accepted == if s in p.accepted then p.accepted else p.accepted[s := v]
  {
    hide DrainEnd, Entries;
    var q := Arrive(p, s, v);
    CountBelowFull(q.accepted, q.next);
    CountBelowFull(p.accepted, p.next);
    forall k | 0 <= k < p.next ensures k in p.accepted {
      assert k in q.accepted;
    }
  }

  /** A lossless run has accepted exactly the frames that arrived, each with its first payload. */
  lemma {:induction false} LosslessAccepts(window: nat, maxRepeat: nat, events: seq<Event>)
    requires PushesOnly(events)
    requires Lost(Run(window, maxRepeat, events)) == 0
    ensures var p := Run(window, maxRepeat, events);
            forall k :: k in p.accepted <==> Arrived(events, k)
    ensures var p := Run(window, maxRepeat, events);
            forall k :: k in p.accepted ==> p.accepted[k] == FirstPayload(events, k)
    ensures events != [] ==> Lost(Run(window, maxRepeat, events[..|events| - 1])) == 0
  {
    hide Arrived, FirstPayload, Arrive, Lost;
    if events == [] {
      NoneArrived();
    } else {
      var init, last := events[..|events| - 1], events[|events| - 1];
      assert events == init + [last] && last in events;
      RunAtRest(window, maxRepeat, init);
      LosslessPush(Run(window, maxRepeat, init), last.sequence, last.payload);
      LosslessAccepts(window, maxRepeat, init);
      forall k: nat { ArrivedSnoc(init, last.sequence, last.payload, k); }
    }
  }

  lemma NoneArrived()
    ensures forall k: nat :: !Arrived([], k)
  {
  }

  lemma LosslessHeld(window: nat, maxRepeat: nat, events: seq<Event>, k: nat)
    requires PushesOnly(events)
    requires Lost(Run(window, maxRepeat, events)) == 0 && !Arrived(events, k)
    ensures |Overtaking(events, k)| <= window
  {
    var p := Run(window, maxRepeat, events);
    LosslessAccepts(window, maxRepeat, events);
    RunAtRest(window, maxRepeat, events);
    CountBelowFull(p.accepted, p.next);
    var held := From(p.accepted, p.next);
    forall s | s in Overtaking(events, k) ensures s in held {
      assert Arrived(events, s);
      assert p.next <= k;
    }
    SubsetSize(Overtaking(events, k), held);
  }

  lemma SubsetSize(a: set<nat>, b: set<nat>)
    requires a <= b
    ensures |a| <= |b|
    decreases |a|
  {
    if a != {} {
      var x :| x in a;
      SubsetSize(a - {x}, b - {x});
    }
  }

  lemma OvertakingGrows(init: seq<Event>, last: Event, k: nat)
    requires last.Push?
    ensures Overtaking(init, k) <= Overtaking(init + [last], k)
    ensures Arrived(init + [last], k) ==> Overtaking(init, k) == Overtaking(init + [last], k)
  {
    var events := init + [last];
    assert events[..|events| - 1] == init;
    if Arrived(init, k) {
      var e :| e in init && e.Push? && e.sequence == k;
      assert e in events;
    } else if Arrived(events, k) {
      assert Before(events, k) == Before(init, k);
    } else {
      assert Before(init, k) == init && Before(events, k) == events;
    }
  }

  /** Reordering tolerance, exact: no frame is ever declared lost if and only if, for every frame,
      at most `window` distinct later frames arrive before it first does. */
  lemma {:induction false} ReorderingTolerance(window: nat, maxRepeat: nat, events: seq<Event>)
    requires PushesOnly(events)
    ensures Lost(Run(window, maxRepeat, events)) == 0
            <==> forall k: nat :: |Overtaking(events, k)| <= window
  {
    if events == [] {
      forall k: nat ensures |Overtaking(events, k)| <= window {
        assert Overtaking(events, k) == {};
      }
      return;
    }
    var init, last := events[..|events| - 1], events[|events| - 1];
    assert events == init + [last] && last in events;
    ReorderingTolerance(window, maxRepeat, init);
    if Lost(Run(window, maxRepeat, events)) == 0 {
      LosslessAccepts(window, maxRepeat, events);
      forall k: nat ensures |Overtaking(events, k)| <= window {
        OvertakingGrows(init, last, k);
        if !Arrived(events, k) { LosslessHeld(window, maxRepeat, events, k); }
      }
    } else if forall k: nat :: |Overtaking(events, k)| <= window {
      forall k: nat ensures |Overtaking(init, k)| <= window {
        OvertakingGrows(init, last, k);
        SubsetSize(Overtaking(init, k), Overtaking(events, k));
      }
      LossNamesAFrame(window, maxRepeat, init, last);
      assert false;
    }
  }

  /** A push that first loses a frame loses the next one, with more than `window` frames above it. */
  lemma FirstLoss(p: Playout, s: nat, payload: Bytes)
    requires AtRest(p) && Lost(p) == 0 && Lost(Arrive(p, s, payload)) != 0
    ensures Fresh(p, s) && s != p.next
    ensures |From(p.accepted, p.next) + {s}| > p.window
  {
    var q := Arrive(p, s, payload);
    CountBelowFull(p.accepted, p.next);
    CountBelowFull(q.accepted, q.next);
    var gapEnd := OneGapPerPush(p, s, payload);
    var g :| 0 <= g < q.next && g !in q.accepted;
    assert p.next <= g < gapEnd && p.next !in q.accepted;
  }

  lemma LossNamesAFrame(window: nat, maxRepeat: nat, init: seq<Event>, last: Event)
    requires PushesOnly(init) && last.Push?
    requires Lost(Run(window, maxRepeat, init)) == 0
    requires Lost(Arrive(Run(window, maxRepeat, init), last.sequence, last.payload)) != 0
    ensures var k := Run(window, maxRepeat, init).next; |Overtaking(init + [last], k)| > window
  {
    var p := Run(window, maxRepeat, init);
    LosslessAccepts(window, maxRepeat, init);
    RunAtRest(window, maxRepeat, init);
    FirstLoss(p, last.sequence, last.payload);
    AllAboveOvertake(init, last, p.next, From(p.accepted, p.next) + {last.sequence});
  }

  lemma AllAboveOvertake(init: seq<Event>, last: Event, k: nat, above: set<nat>)
    requires last.Push? && last.sequence != k && !Arrived(init, k)
    requires forall s :: s in above ==> s >= k && (s == last.sequence || Arrived(init, s))
    ensures |above| <= |Overtaking(init + [last], k)|
  {
    var events := init + [last];
    assert !Arrived(events, k);
    forall s | s in above ensures s in Overtaking(events, k) {
      if s == last.sequence {
        assert last in events;
      } else {
        var e :| e in init && e.Push? && e.sequence == s;
        assert e in events;
      }
    }
    SubsetSize(above, Overtaking(events, k));
  }

  /** Within the tolerance, and without any flush, a complete stream comes out whole and in order,
      whatever order its frames arrived in. */
  lemma CompleteStreamInOrder(window: nat, maxRepeat: nat, events: seq<Event>, n: nat)
    requires PushesOnly(events)
    requires forall k: nat :: Arrived(events, k) <==> k < n
    requires forall k: nat :: |Overtaking(events, k)| <= window
    ensures var p := Run(window, maxRepeat, events);
            && p.next == n == |p.released|
            && From(p.accepted, p.next) == {}
            && forall i :: 0 <= i < n ==> p.released[i] == FirstPayload(events, i)
  {
    var p := Run(window, maxRepeat, events);
    ReorderingTolerance(window, maxRepeat, events);
    LosslessAccepts(window, maxRepeat, events);
    RunAtRest(window, maxRepeat, events);
    forall i | 0 <= i < p.next ensures i in p.accepted ==> p.released[i] == p.accepted[i] {
      OutputCharacterised(window, maxRepeat, events, i);
    }
    CountBelowFull(p.accepted, p.next);
    assert Arrived(events, p.next) <==> p.next < n;
    assert !Arrived(events, n);
    assert p.next > n ==> n in p.accepted;
  }

  // ---------- exact loss accounting ----------

  function LossRatio(received: nat, lost: nat): real {
    if received + lost <= 0 then 0.0 else lost as real / (received + lost) as real
  }

  /** After a flush the loss ratio is exact: lost slots over slots up to the highest frame seen. */
  lemma LossRatioAfterFlush(b: Books, p: Playout)
    requires Agrees(b, p) && b.pending == map[] && b.received > 0
    ensures b.highest >= 0
    ensures LossRatio(b.received, b.lost) == Lost(p) as real / (b.highest + 1) as real
    ensures 0.0 <= LossRatio(b.received, b.lost) < 1.0
  {
    Conservation(b, p);
    var k :| k in p.accepted;
  }
}
