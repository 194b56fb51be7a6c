/**
 What the reorder buffer means: which slots of the stream have been played out, and with what.
 The state keeps only the frames accepted so far, the next slot to release, the length used for
 silence, and everything released. Held frames, counters and repetition state are all functions
 of these, so a buffer that agrees with this state has no room to disagree about them.
 */
module Playout {
  import opened Bytes

  datatype Playout = Playout(
    window: nat,
    maxRepeat: nat,
    accepted: map<nat, Bytes>,
    next: nat,
    frameBytes: nat,
    released: seq<Bytes>)

  function Init(window: nat, maxRepeat: nat): Playout {
    Playout(window, maxRepeat, map[], 0, 0, [])
  }

  // ---------- slots ----------

  function From(accepted: map<nat, Bytes>, n: nat): set<nat> {
    set k | k in accepted && k >= n
  }

  /** The frames held back at slot `n`. */
  function Pending(accepted: map<nat, Bytes>, n: nat): map<nat, Bytes> {
    map k | k in accepted && k >= n :: accepted[k]
  }

  /** The last slot before `n` that holds a real frame, or -1. */
  function LastReal(accepted: map<nat, Bytes>, n: nat): (r: int)
    ensures -1 <= r < n
    ensures r >= 0 ==> r in accepted
  {
    if n == 0 then -1 else if n - 1 in accepted then n - 1 else LastReal(accepted, n - 1)
  }

  /** What plays in slot `i`: the frame, or a short repetition, or silence of `filler` bytes. */
  function Entry(accepted: map<nat, Bytes>, maxRepeat: nat, i: nat, filler: nat): Bytes {
    if i in accepted then accepted[i]
    else
      var r := LastReal(accepted, i);
      if r >= 0 && accepted[r] != [] && i - r <= maxRepeat then accepted[r] else Zeros(filler)
  }

  function Entries(accepted: map<nat, Bytes>, maxRepeat: nat, from: nat, to: nat, filler: nat): (r: seq<Bytes>)
    requires from <= to
    ensures |r| == to - from
    ensures forall j :: 0 <= j < to - from ==> r[j] == Entry(accepted, maxRepeat, from + j, filler)
  {
    if from == to then []
    else Entries(accepted, maxRepeat, from, to - 1, filler) + [Entry(accepted, maxRepeat, to - 1, filler)]
  }

  function CountBelow(accepted: map<nat, Bytes>, n: nat): (c: nat)
    ensures c <= n
  {
    if n == 0 then 0 else CountBelow(accepted, n - 1) + (if n - 1 in accepted then 1 else 0)
  }

  /** How many released lost slots are non-empty, and how many bytes all lost slots hold. */
  function ConcealedCount(accepted: map<nat, Bytes>, released: seq<Bytes>): nat {
    if released == [] then 0
    else
      var n := |released| - 1;
      ConcealedCount(accepted, released[..n]) + (if n !in accepted && released[n] != [] then 1 else 0)
  }

  function ConcealedBytes(accepted: map<nat, Bytes>, released: seq<Bytes>): nat {
    if released == [] then 0
    else
      var n := |released| - 1;
      ConcealedBytes(accepted, released[..n]) + (if n !in accepted then |released[n]| else 0)
  }

  // ---------- one arrival, and the end of the stream ----------

  ghost function Least(s: set<nat>): (m: nat)
    requires s != {}
    ensures m in s
    ensures forall k :: k in s ==> m <= k
    decreases |s|
  {
    var k :| k in s;
    if s == {k} then k
    else
      var m := Least(s - {k});
      assert forall j :: j in s ==> j == k || j in s - {k};
      if m <= k then m else k
  }

  ghost function Greatest(s: set<nat>): (m: nat)
    requires s != {}
    ensures m in s
    ensures forall k :: k in s ==> k <= m
    decreases |s|
  {
    var k :| k in s;
    if s == {k} then k
    else
      var m := Greatest(s - {k});
      assert forall j :: j in s ==> j == k || j in s - {k};
      if m >= k then m else k
  }

  /** The first slot at or after `n` without a frame. */
  function FirstGap(accepted: map<nat, Bytes>, n: nat): (g: nat)
    ensures n <= g && g !in accepted
    ensures forall k :: n <= k < g ==> k in accepted
    decreases |From(accepted, n)|
  {
    if n !in accepted then n
    else
      assert From(accepted, n) == From(accepted, n + 1) + {n};
      FirstGap(accepted, n + 1)
  }

  function ReleaseTo(p: Playout, to: nat): (q: Playout)
    requires p.next <= to
    ensures q == p.(next := to, released := q.released)
  {
    p.(next := to,
       released := p.released + Entries(p.accepted, p.maxRepeat, p.next, to, p.frameBytes))
  }

  function Hold(p: Playout, sequence: nat, payload: Bytes): Playout {
    p.(accepted := p.accepted[sequence := payload],
       frameBytes := if payload != [] then |payload| else p.frameBytes)
  }

  predicate Fresh(p: Playout, sequence: nat) {
    p.next <= sequence && sequence !in p.accepted
  }

  /** A fresh frame that some later frame has already overtaken. */
  ghost predicate Overtaken(p: Playout, sequence: nat)
    ensures Overtaken(p, sequence) ==> Fresh(p, sequence)
  {
    Fresh(p, sequence) && exists k :: k in p.accepted && sequence < k
  }

  /** Where release resumes: past the one gap given up on when more than `window` frames wait. */
  ghost function Resume(p: Playout): (r: nat)
    ensures p.next <= r
  {
    if |From(p.accepted, p.next)| > p.window then Least(From(p.accepted, p.next)) else p.next
  }

  /** The next slot once everything due has been released. */
  ghost function DrainEnd(p: Playout): (to: nat)
    ensures p.next <= to
  {
    FirstGap(p.accepted, Resume(p))
  }

  ghost function Arrive(p: Playout, sequence: nat, payload: Bytes): Playout {
    if !Fresh(p, sequence) then p
    else
      var q := Hold(p, sequence, payload);
      ReleaseTo(q, DrainEnd(q))
  }

  /** The slot after the last frame held, or the next slot when none is. */
  ghost function FlushEnd(p: Playout): (to: nat)
    ensures p.next <= to
  {
    if From(p.accepted, p.next) == {} then p.next else Greatest(From(p.accepted, p.next)) + 1
  }

  ghost function Finish(p: Playout): Playout {
    ReleaseTo(p, FlushEnd(p))
  }

  // ---------- framing lemmas: a frame at or above `n` changes nothing below ----------

  lemma {:induction false} LastRealFrame(accepted: map<nat, Bytes>, s: nat, v: Bytes, n: nat)
    requires n <= s
    ensures LastReal(accepted[s := v], n) == LastReal(accepted, n)
  {
    if n > 0 { LastRealFrame(accepted, s, v, n - 1); }
  }

  lemma {:induction false} CountBelowFrame(accepted: map<nat, Bytes>, s: nat, v: Bytes, n: nat)
    requires n <= s
    ensures CountBelow(accepted[s := v], n) == CountBelow(accepted, n)
  {
    if n > 0 { CountBelowFrame(accepted, s, v, n - 1); }
  }

  lemma {:induction false} ConcealedFrame(accepted: map<nat, Bytes>, s: nat, v: Bytes, released: seq<Bytes>)
    requires |released| <= s
    ensures ConcealedCount(accepted[s := v], released) == ConcealedCount(accepted, released)
    ensures ConcealedBytes(accepted[s := v], released) == ConcealedBytes(accepted, released)
  {
    if released != [] { ConcealedFrame(accepted, s, v, released[..|released| - 1]); }
  }

  lemma {:induction false} LastRealIsLast(accepted: map<nat, Bytes>, n: nat)
    ensures forall k: nat :: LastReal(accepted, n) < k < n ==> k !in accepted
  {
    if n > 0 && n - 1 !in accepted { LastRealIsLast(accepted, n - 1); }
  }

  // ---------- one released slot ----------

  lemma HeldAfterRelease(accepted: map<nat, Bytes>, n: nat)
    ensures n in accepted ==> Pending(accepted, n + 1) == Pending(accepted, n) - {n}
    ensures n !in accepted ==> Pending(accepted, n + 1) == Pending(accepted, n)
  {
  }

  lemma ConcealedSnoc(accepted: map<nat, Bytes>, released: seq<Bytes>, entry: Bytes)
    ensures ConcealedCount(accepted, released + [entry]) ==
              ConcealedCount(accepted, released) + if |released| !in accepted && entry != [] then 1 else 0
    ensures ConcealedBytes(accepted, released + [entry]) ==
              ConcealedBytes(accepted, released) + if |released| !in accepted then |entry| else 0
  {
    assert (released + [entry])[..|released|] == released;
  }

  lemma FromStep(accepted: map<nat, Bytes>, n: nat)
    ensures n in accepted ==> From(accepted, n) == From(accepted, n + 1) + {n}
    ensures n !in accepted ==> From(accepted, n) == From(accepted, n + 1)
    ensures |From(accepted, n)| == |From(accepted, n + 1)| + if n in accepted then 1 else 0
  {
    if n in accepted {
      assert From(accepted, n) == From(accepted, n + 1) + {n};
    } else {
      assert From(accepted, n) == From(accepted, n + 1);
    }
  }

  lemma HeldKeys(accepted: map<nat, Bytes>, n: nat)
    ensures Pending(accepted, n).Keys == From(accepted, n) && |From(accepted, n)| == |Pending(accepted, n)|
    ensures n == 0 ==> |From(accepted, n)| == |accepted|
  {
    assert n == 0 ==> accepted.Keys == From(accepted, n);
  }

  /** Every accepted frame is either already played or still held. */
  lemma {:induction false} SplitAt(accepted: map<nat, Bytes>, n: nat)
    ensures |accepted| == CountBelow(accepted, n) + |From(accepted, n)|
    ensures |From(accepted, n)| == |Pending(accepted, n)|
  {
    hide From, Pending;
    HeldKeys(accepted, n);
    if n == 0 {
      HeldKeys(accepted, 0);
    } else {
      SplitAt(accepted, n - 1);
      FromStep(accepted, n - 1);
    }
  }

  // ---------- the buffer's own fields ----------

  /** What the implementation stores beside the slot cursor, silence length and settings. */
  datatype Books = Books(
    pending: map<nat, Bytes>,
    lastPayload: Bytes,
    repeats: nat,
    received: nat,
    lost: nat,
    concealed: nat,
    concealedBytes: nat,
    highest: int)

  ghost predicate IsHighest(accepted: map<nat, Bytes>, h: int) {
    && -1 <= h
    && (h >= 0 ==> h in accepted)
    && forall k :: k in accepted ==> k <= h
  }

  function LastPayload(p: Playout): Bytes {
    var r := LastReal(p.accepted, p.next);
    if r >= 0 then p.accepted[r] else []
  }

  /** Repetitions already played since the last real frame, capped. */
  function Repeats(p: Playout): nat {
    var r := LastReal(p.accepted, p.next);
    if LastPayload(p) == [] then 0
    else if p.next - 1 - r <= p.maxRepeat then p.next - 1 - r else p.maxRepeat
  }

  /** Every stored field as a function of the history. */
  ghost predicate Agrees(b: Books, p: Playout) {
    && |p.released| == p.next
    && b.pending == Pending(p.accepted, p.next)
    && b.lastPayload == LastPayload(p)
    && b.repeats == Repeats(p)
    && b.received == |p.accepted|
    && b.lost + CountBelow(p.accepted, p.next) == p.next
    && b.concealed == ConcealedCount(p.accepted, p.released)
    && b.concealedBytes == ConcealedBytes(p.accepted, p.released)
    && IsHighest(p.accepted, b.highest)
    && p.next <= b.highest + 1
  }

  lemma AgreesInit(window: nat, maxRepeat: nat)
    ensures Agrees(Books(map[], [], 0, 0, 0, 0, 0, -1), Init(window, maxRepeat))
  {
  }

  lemma AgreesHold(b: Books, p: Playout, s: nat, payload: Bytes)
    requires Agrees(b, p) && Fresh(p, s)
    ensures Agrees(b.(pending := b.pending[s := payload], received := b.received + 1,
                      highest := if s > b.highest then s else b.highest), Hold(p, s, payload))
    ensures |b.pending[s := payload]| == |b.pending| + 1
    ensures Overtaken(p, s) <==> s < b.highest
  {
    LastRealFrame(p.accepted, s, payload, p.next);
    CountBelowFrame(p.accepted, s, payload, p.next);
    ConcealedFrame(p.accepted, s, payload, p.released);
    assert Pending(p.accepted[s := payload], p.next) == Pending(p.accepted, p.next)[s := payload];
  }

  lemma AgreesRelease(b: Books, p: Playout)
    requires Agrees(b, p) && p.next in b.pending
    ensures Agrees(b.(pending := b.pending - {p.next}, lastPayload := b.pending[p.next], repeats := 0),
                   ReleaseTo(p, p.next + 1))
    ensures ReleaseTo(p, p.next + 1).released == p.released + [b.pending[p.next]]
    ensures |b.pending - {p.next}| == |b.pending| - 1
  {
    hide Entries, ConcealedCount, ConcealedBytes;
    HeldAfterRelease(p.accepted, p.next);
    ConcealedSnoc(p.accepted, p.released, p.accepted[p.next]);
    OneEntry(p);
    SplitAt(p.accepted, p.next);
    SplitAt(p.accepted, p.next + 1);
  }

  lemma AgreesRepeat(b: Books, p: Playout)
    requires Agrees(b, p) && p.next !in p.accepted && p.next <= b.highest
    requires b.lastPayload != [] && b.repeats < p.maxRepeat
    ensures Agrees(b.(repeats := b.repeats + 1, lost := b.lost + 1, concealed := b.concealed + 1,
                      concealedBytes := b.concealedBytes + |b.lastPayload|), ReleaseTo(p, p.next + 1))
    ensures ReleaseTo(p, p.next + 1).released == p.released + [b.lastPayload]
  {
    hide Pending, Entries, ConcealedCount, ConcealedBytes;
    HeldAfterRelease(p.accepted, p.next);
    ConcealedSnoc(p.accepted, p.released, b.lastPayload);
    OneEntry(p);
  }

  lemma AgreesSilence(b: Books, p: Playout)
    requires Agrees(b, p) && p.next !in p.accepted && p.next <= b.highest
    requires b.lastPayload == [] || b.repeats >= p.maxRepeat
    ensures Agrees(b.(lost := b.lost + 1, concealed := b.concealed + if p.frameBytes > 0 then 1 else 0,
                      concealedBytes := b.concealedBytes + p.frameBytes), ReleaseTo(p, p.next + 1))
    ensures ReleaseTo(p, p.next + 1).released == p.released + [Zeros(p.frameBytes)]
  {
    hide Pending, Entries, ConcealedCount, ConcealedBytes;
    HeldAfterRelease(p.accepted, p.next);
    ConcealedSnoc(p.accepted, p.released, Zeros(p.frameBytes));
    OneEntry(p);
  }

  lemma OneEntry(p: Playout)
    ensures ReleaseTo(p, p.next + 1).released ==
              p.released + [Entry(p.accepted, p.maxRepeat, p.next, p.frameBytes)]
  {
    assert Entries(p.accepted, p.maxRepeat, p.next, p.next, p.frameBytes) == [];
  }

  lemma ReleaseSteps(p: Playout, to: nat)
    requires p.next <= to
    ensures ReleaseTo(p, p.next) == p
    ensures ReleaseTo(ReleaseTo(p, to), to + 1) == ReleaseTo(p, to + 1)
  {
    OneEntry(ReleaseTo(p, to));
    assert ReleaseTo(p, to + 1).released ==
           p.released + (Entries(p.accepted, p.maxRepeat, p.next, to, p.frameBytes) +
                         [Entry(p.accepted, p.maxRepeat, to, p.frameBytes)]);
  }

  /** Releasing one due slot does not move the slot where release will stop. */
  lemma DrainSteps(p: Playout)
    requires |From(p.accepted, p.next)| <= p.window + 1
    ensures p.next in p.accepted ==> DrainEnd(ReleaseTo(p, p.next + 1)) == DrainEnd(p)
    ensures |From(p.accepted, p.next)| > p.window ==> DrainEnd(ReleaseTo(p, p.next + 1)) == DrainEnd(p)
    ensures p.next !in p.accepted && |From(p.accepted, p.next)| <= p.window ==> DrainEnd(p) == p.next
  {
    FromStep(p.accepted, p.next);
    if p.next in p.accepted {
      assert p.next in From(p.accepted, p.next);
    }
  }

  /** The facts about held frames that the release loops need. */
  lemma HeldFacts(b: Books, p: Playout)
    requires Agrees(b, p)
    ensures b.pending.Keys == From(p.accepted, p.next) && |b.pending| == |From(p.accepted, p.next)|
    ensures p.next in b.pending <==> p.next in p.accepted
    ensures forall s: nat :: Fresh(p, s) <==> p.next <= s && s !in b.pending
    ensures p.next in p.accepted ==> b.pending[p.next] == p.accepted[p.next]
    ensures b.pending != map[] ==> p.next <= b.highest
    ensures FlushEnd(p) == b.highest + 1
    ensures b.pending == map[] ==> p.next == b.highest + 1
  {
    SplitAt(p.accepted, p.next);
    if b.pending != map[] {
      var k :| k in b.pending;
      assert b.highest in From(p.accepted, p.next);
    }
    assert b.highest >= p.next ==> b.highest in b.pending;
  }

  lemma AgreesCounts(b: Books, p: Playout)
    requires Agrees(b, p)
    ensures |p.released| == p.next
  {
  }

  /** In every state the buffer can be in: the slots played plus the frames held account for
      the frames received plus the slots lost. */
  lemma Conservation(b: Books, p: Playout)
    requires Agrees(b, p)
    ensures p.next + |b.pending| == b.received + b.lost
    ensures b.pending == map[] ==> p.next == b.highest + 1 == b.received + b.lost
  {
    SplitAt(p.accepted, p.next);
    HeldFacts(b, p);
  }
}
