/** Progressive updates: how much audio each analyses, and how often they come. */
module Progress {
  import opened Numbers

  /** One progressive update: stream time in seconds, and the analysed byte range of the buffer. */
  datatype Update = Update(at: real, from: nat, upto: nat)

  /** The analysis window in bytes: whole samples, then whole frames. */
  function LimitBytes(windowSeconds: real, sampleRate: nat, frame: nat): nat
    requires windowSeconds >= 0.0
  {
    WindowIsNat(windowSeconds, sampleRate);
    (windowSeconds * sampleRate as real).Floor * frame
  }

  lemma WindowIsNat(windowSeconds: real, sampleRate: nat)
    requires windowSeconds >= 0.0
    ensures (windowSeconds * sampleRate as real).Floor >= 0
  {
  }

  /** The window in bytes is whole frames, as many as it has whole sampling periods. */
  lemma LimitIsWindow(windowSeconds: real, sampleRate: nat, frame: nat)
    requires windowSeconds >= 0.0 && frame > 0
    ensures var limit := LimitBytes(windowSeconds, sampleRate, frame);
            limit % frame == 0
            && (limit / frame) as real <= windowSeconds * sampleRate as real < (limit / frame) as real + 1.0
  {
    var samples := (windowSeconds * sampleRate as real).Floor;
    DivUnique(samples * frame, frame, samples, 0);
  }

  function AnalysisOffset(byteCount: nat, frame: nat, limit: nat): nat
    requires frame > 0
  {
    if byteCount <= limit then 0
    else
      var offset := byteCount - limit;
      offset - offset % frame
  }

  /** The analysed suffix starts on a frame boundary, is everything when it fits the window, and
      otherwise is the window plus less than one frame. */
  lemma AnalysisOffsetFits(byteCount: nat, frame: nat, limit: nat)
    requires frame > 0
    ensures var offset := AnalysisOffset(byteCount, frame, limit);
            && 0 <= offset <= byteCount && offset % frame == 0
            && (byteCount <= limit ==> offset == 0)
            && (byteCount > limit ==> limit <= byteCount - offset < limit + frame)
  {
    if byteCount > limit {
      var offset := byteCount - limit;
      assert offset - offset % frame == (offset / frame) * frame;
      DivUnique(offset - offset % frame, frame, offset / frame, 0);
    } else {
      DivUnique(0, frame, 0, 0);
    }
  }

  function NextInterval(interval: real, base: real, max: real, backoff: real, settled: bool): real {
    if !settled then base
    else if interval * backoff <= max then interval * backoff else max
  }

  function Capped(x: real, max: real): real { if x <= max then x else max }

  lemma IntervalIs(interval: real, base: real, max: real, backoff: real)
    ensures NextInterval(interval, base, max, backoff, true) == Capped(interval * backoff, max)
    ensures NextInterval(interval, base, max, backoff, false) == base
  {
  }

  lemma IntervalStays(interval: real, base: real, max: real, backoff: real, settled: bool)
    requires 0.0 < base <= interval <= max && backoff >= 1.0
    ensures base <= NextInterval(interval, base, max, backoff, settled) <= max
    ensures settled ==> NextInterval(interval, base, max, backoff, settled) >= interval
  {
    assert interval * backoff - interval == interval * (backoff - 1.0);
    assert interval * (backoff - 1.0) >= 0.0;
  }

  /** The interval after so many updates in a row whose labels did not change. */
  function Settled(base: real, max: real, backoff: real, times: nat): real {
    if times == 0 then base else NextInterval(Settled(base, max, backoff, times - 1), base, max, backoff, true)
  }

  /** base * backoff ^ times */
  function Grown(base: real, backoff: real, times: nat): real {
    if times == 0 then base else Grown(base, backoff, times - 1) * backoff
  }

  /** While the labels stand the interval grows geometrically up to its maximum; when they change it is
      the base again. */
  lemma {:induction false} IntervalGrows(base: real, max: real, backoff: real, times: nat)
    requires 0.0 < base <= max && backoff >= 1.0
    ensures Settled(base, max, backoff, times) == Capped(Grown(base, backoff, times), max)
    ensures NextInterval(Settled(base, max, backoff, times), base, max, backoff, false) == base
  {
    hide NextInterval;
    IntervalIs(Settled(base, max, backoff, times), base, max, backoff);
    if times > 0 {
      IntervalGrows(base, max, backoff, times - 1);
      GrowOnce(Grown(base, backoff, times - 1), base, max, backoff);
    }
  }

  lemma GrowOnce(asked: real, base: real, max: real, backoff: real)
    requires max > 0.0 && backoff >= 1.0
    ensures NextInterval(Capped(asked, max), base, max, backoff, true) == Capped(asked * backoff, max)
  {
    assert max * (backoff - 1.0) >= 0.0;
    if asked > max { assert (asked - max) * backoff > 0.0; }
  }

  function LastAt(updates: seq<Update>): real {
    if updates == [] then 0.0 else updates[|updates| - 1].at
  }

  /** Updates at least `base` apart, each over a frame-aligned range shorter than the window plus a frame. */
  ghost predicate Paced(updates: seq<Update>, base: real, frame: nat, limit: nat)
    requires frame > 0
  {
    updates == [] ||
    var n := |updates| - 1;
    var u := updates[n];
    && u.at - LastAt(updates[..n]) >= base
    && u.from % frame == 0 && u.from <= u.upto < u.from + limit + frame
    && Paced(updates[..n], base, frame, limit)
  }

  /** Bytes handed to the estimator by all updates together. */
  function Work(updates: seq<Update>): int {
    if updates == [] then 0
    else Work(updates[..|updates| - 1]) + updates[|updates| - 1].upto - updates[|updates| - 1].from
  }

  lemma PacedSnoc(updates: seq<Update>, u: Update, base: real, frame: nat, limit: nat)
    requires frame > 0 && Paced(updates, base, frame, limit)
    requires u.at - LastAt(updates) >= base && u.from % frame == 0 && u.from <= u.upto < u.from + limit + frame
    ensures Paced(updates + [u], base, frame, limit) && LastAt(updates + [u]) == u.at
  {
    assert (updates + [u])[..|updates|] == updates;
  }

  lemma Times(n: nat, base: real)
    ensures (n + 1) as real * base == n as real * base + base
  {
  }

  lemma {:induction false} PacedCost(updates: seq<Update>, base: real, frame: nat, limit: nat)
    requires frame > 0 && Paced(updates, base, frame, limit)
    ensures |updates| as real * base <= LastAt(updates)
    ensures Work(updates) <= |updates| * (limit + frame)
  {
    if updates != [] {
      var n := |updates| - 1;
      PacedCost(updates[..n], base, frame, limit);
      Times(n, base);
      assert (n + 1) * (limit + frame) == n * (limit + frame) + (limit + frame);
    }
  }

  lemma Scale(w: int, n: nat, per: nat, base: real, span: real)
    requires base > 0.0 && w <= n * per && n as real * base <= span
    ensures w as real * base <= span * per as real
  {
    var a, b := n as real, per as real;
    assert w as real <= a * b;
    assert w as real * base <= (a * b) * base;
    assert (a * b) * base == (a * base) * b;
    assert (span - a * base) * b >= 0.0;
  }

  /** Progressive cost bound: over `span` seconds of audio there are at most span / base updates,
      and their total work is linear in the span, whatever was said and however it arrived. */
  lemma ProgressiveCost(updates: seq<Update>, base: real, frame: nat, limit: nat, span: real)
    requires frame > 0 && base > 0.0 && Paced(updates, base, frame, limit) && LastAt(updates) <= span
    ensures |updates| as real * base <= span
    ensures Work(updates) as real * base <= span * (limit + frame) as real
  {
    PacedCost(updates, base, frame, limit);
    Scale(Work(updates), |updates|, limit + frame, base, span);
  }
}
