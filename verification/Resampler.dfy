/**
 The polyphase resampler over real samples. The kernel is any real function whose weights do not
 sum to zero at the positions in use; `taps` is the half-width it is evaluated to.
 */
module Resampler {
  import opened Bytes
  import opened Numbers

  /** f(lo) + ... + f(hi - 1) */
  function Sum(f: int -> real, lo: int, hi: int): real
    decreases hi - lo
  {
    if hi <= lo then 0.0 else Sum(f, lo, hi - 1) + f(hi - 1)
  }

  lemma {:induction false} SumSame(f: int -> real, g: int -> real, lo: int, hi: int, shift: int)
    requires forall i :: lo <= i < hi ==> f(i) == g(i + shift)
    ensures Sum(f, lo, hi) == Sum(g, lo + shift, hi + shift)
    decreases hi - lo
  {
    if lo < hi { SumSame(f, g, lo, hi - 1, shift); }
  }

  lemma {:induction false} SumLinear(f: int -> real, g: int -> real, h: int -> real, a: real, b: real, lo: int, hi: int)
    requires forall i :: lo <= i < hi ==> h(i) == a * f(i) + b * g(i)
    ensures Sum(h, lo, hi) == a * Sum(f, lo, hi) + b * Sum(g, lo, hi)
    decreases hi - lo
  {
    if lo < hi { SumLinear(f, g, h, a, b, lo, hi - 1); }
  }

  // ---------- rates ----------

  /** Reduced (up, down). */
  function RationalRatio(source: nat, target: nat): (nat, nat)
    requires source > 0 && target > 0
  {
    var d := Gcd(source, target);
    (target / d, source / d)
  }

  lemma RatioIsReduced(source: nat, target: nat)
    requires source > 0 && target > 0
    ensures var (up, down) := RationalRatio(source, target);
            && up > 0 && down > 0
            && up * source == down * target
            && Gcd(up, down) == 1
  {
    var d := Gcd(source, target);
    QuotientsCoprime(target, source);
    GcdSymmetric(source, target);
    SwapFactors(target / d, source / d, d);
  }

  lemma SwapFactors(up: nat, down: nat, d: nat)
    ensures up * (down * d) == down * (up * d)
  {
  }

  // ---------- direct evaluation, the reference ----------

  /** Where output n sits in the input, exactly. */
  function Position(source: nat, target: nat, n: nat): real
    requires target > 0
  {
    (n * source) as real / target as real
  }

  function Centre(source: nat, target: nat, n: nat): int
    requires target > 0
  {
    n * source / target
  }

  function Clip(i: int, limit: int): int {
    if i < 0 then 0 else if i > limit then limit else i
  }

  /** The kernel seen from position x: its value at each input sample. */
  function Seen(kernel: real -> real, x: real): int -> real {
    (i: int) => kernel(x - i as real)
  }

  /** Each tap's contribution at position x, the edge samples extended. */
  function Terms(samples: seq<real>, kernel: real -> real, x: real): int -> real
    requires samples != []
  {
    (i: int) => samples[Clip(i, |samples| - 1)] * kernel(x - i as real)
  }

  /** The kernel's total weight around position x, over the taps centred at c. */
  function Weight(kernel: real -> real, taps: nat, x: real, c: int): real {
    Sum(Seen(kernel, x), c - taps, c + taps + 1)
  }

  /** Output n can be normalised: its weights do not sum to zero. */
  predicate HasWeight(kernel: real -> real, taps: nat, source: nat, target: nat, n: nat)
    requires target > 0
  {
    Weight(kernel, taps, Position(source, target, n), Centre(source, target, n)) != 0.0
  }

  /** Output n by evaluating the normalised kernel at every tap's distance from its exact position. */
  function Direct(samples: seq<real>, kernel: real -> real, taps: nat, source: nat, target: nat, n: nat): real
    requires samples != [] && target > 0
    requires HasWeight(kernel, taps, source, target, n)
  {
    var x, c := Position(source, target, n), Centre(source, target, n);
    Sum(Terms(samples, kernel, x), c - taps, c + taps + 1) / Weight(kernel, taps, x, c)
  }

  // ---------- the polyphase form ----------

  function PhaseOffset(up: nat, down: nat, p: nat): real
    requires up > 0
  {
    (p * down % up) as real / up as real
  }

  function RowTaps(kernel: real -> real, taps: nat, phase: real): int -> real {
    (j: int) => kernel(phase - (j - taps) as real)
  }

  function RowTotal(kernel: real -> real, taps: nat, phase: real): real {
    Sum(RowTaps(kernel, taps, phase), 0, 2 * taps + 1)
  }

  /** Every phase of the table can be normalised. */
  ghost predicate Normalisable(kernel: real -> real, taps: nat, up: nat, down: nat) {
    up > 0 && forall p: nat :: p < up ==> RowTotal(kernel, taps, PhaseOffset(up, down, p)) != 0.0
  }

  function Row(kernel: real -> real, taps: nat, phase: real): (r: seq<real>)
    requires RowTotal(kernel, taps, phase) != 0.0
    ensures |r| == 2 * taps + 1
  {
    seq(2 * taps + 1, j => kernel(phase - (j - taps) as real) / RowTotal(kernel, taps, phase))
  }

  function Dot(a: seq<real>, b: seq<real>): real
    requires |a| == |b|
  {
    Sum(Products(a, b), 0, |a|)
  }

  function Products(a: seq<real>, b: seq<real>): int -> real
    requires |a| == |b|
  {
    (j: int) => if 0 <= j < |a| then a[j] * b[j] else 0.0
  }

  function Gathered(samples: seq<real>, base: int, taps: nat): (g: seq<real>)
    requires samples != []
    ensures |g| == 2 * taps + 1
  {
    seq(2 * taps + 1, j => samples[Clip(base + j - taps, |samples| - 1)])
  }

  function OutputSize(size: nat, source: nat, target: nat): nat
    requires source > 0 && target > 0
  {
    Max(1, RoundHalfEven((size * target) as real / source as real))
  }

  /** The block loop: phases once, then every output as one weighted gather. */
  method Resample(
    samples: seq<real>, sourceRate: int, targetRate: int, taps: nat, kernel: real -> real, block: nat)
    returns (out: Result<seq<real>, string>)
    requires block > 0
    requires sourceRate > 0 && targetRate > 0 ==>
               var (up, down) := RationalRatio(sourceRate, targetRate); Normalisable(kernel, taps, up, down)
    ensures out.Ok? <==> sourceRate > 0 && targetRate > 0
    ensures out.Ok? && (sourceRate == targetRate || |samples| < 2) ==> out.value == samples
    ensures out.Ok? && sourceRate != targetRate && |samples| >= 2 ==>
              && |out.value| == OutputSize(|samples|, sourceRate, targetRate)
              && forall n :: 0 <= n < |out.value| ==>
                   && HasWeight(kernel, taps, sourceRate, targetRate, n)
                   && out.value[n] == Direct(samples, kernel, taps, sourceRate, targetRate, n)
  {
    hide Direct, Weight, Position, Centre, Dot, Gathered, Row, RationalRatio, PhaseOffset;
    if sourceRate <= 0 || targetRate <= 0 {
      return Err("Sample rates must be positive");
    }
    if sourceRate == targetRate || |samples| < 2 {
      return Ok(samples);
    }
    var (up, down) := RationalRatio(sourceRate, targetRate);
    RatioIsReduced(sourceRate, targetRate);
    var table := seq(up, p requires 0 <= p < up => Row(kernel, taps, PhaseOffset(up, down, p)));
    var output := new real[OutputSize(|samples|, sourceRate, targetRate)];
    var begin := 0;
    while begin < output.Length
      invariant 0 <= begin
      invariant forall n :: 0 <= n < Min(begin, output.Length) ==>
                  && HasWeight(kernel, taps, sourceRate, targetRate, n)
                  && output[n] == Direct(samples, kernel, taps, sourceRate, targetRate, n)
    {
      var end := Min(begin + block, output.Length);
      for n := begin to end
        invariant forall m :: 0 <= m < n ==>
                    && HasWeight(kernel, taps, sourceRate, targetRate, m)
                    && output[m] == Direct(samples, kernel, taps, sourceRate, targetRate, m)
      {
        PolyphaseIsDirect(samples, kernel, taps, sourceRate, targetRate, n);
        output[n] := Dot(Gathered(samples, n * down / up, taps), table[n % up]);
      }
      begin := begin + block;
    }
    return Ok(output[..]);
  }

  // ---------- the polyphase form refines direct evaluation ----------

  /** n * down // up plus the phase of n % up is the exact position. */
  lemma PhasePosition(source: nat, target: nat, n: nat)
    requires source > 0 && target > 0
    ensures var (up, down) := RationalRatio(source, target);
            && up > 0
            && n * down / up == Centre(source, target, n)
            && PhaseOffset(up, down, n % up) == Position(source, target, n) - Centre(source, target, n) as real
            && 0.0 <= PhaseOffset(up, down, n % up) < 1.0
  {
    RatioIsReduced(source, target);
    var (up, down) := RationalRatio(source, target);
    ReducedPosition(n, source, target, up, down);
  }

  lemma ReducedPosition(n: nat, source: nat, target: nat, up: nat, down: nat)
    requires target > 0 && up > 0 && up * source == down * target
    ensures n * down / up == Centre(source, target, n)
    ensures PhaseOffset(up, down, n % up) == Position(source, target, n) - Centre(source, target, n) as real
    ensures 0.0 <= PhaseOffset(up, down, n % up) < 1.0
  {
    hide PhaseOffset;
    PhaseAt(up, down, n);
    CrossMultiply(n, source, target, up, down);
    ExactPosition(n * source, target, n * down, up);
  }

  lemma PhaseAt(up: nat, down: nat, n: nat)
    requires up > 0
    ensures PhaseOffset(up, down, n % up) == (n * down % up) as real / up as real
  {
    ModOfProduct(n, down, up);
  }

  /** Two fractions of one value: the quotient and the remainder of either are those of the other. */
  lemma ExactPosition(a: nat, t: nat, b: nat, up: nat)
    requires t > 0 && up > 0 && a * up == b * t
    ensures b / up == a / t
    ensures (b % up) as real / up as real == a as real / t as real - (a / t) as real
    ensures 0.0 <= (b % up) as real / up as real < 1.0
  {
    var q, r := b / up, b % up;
    Division(b, up);
    ScaledDivision(a, t, up, q, r);
    ScaledFraction(a, t, up, q, r);
    FractionBelowOne(r, up);
  }

  lemma FractionBelowOne(r: nat, d: nat)
    requires r < d
    ensures 0.0 <= r as real / d as real < 1.0
  {
    QuotientOrder(0.0, r as real, d as real);
    QuotientOrder(r as real, (d - 1) as real, d as real);
    AddFractions((d - 1) as real, 1.0, d as real);
    QuotientOrder(0.0, 1.0, d as real);
  }

  lemma QuotientOrder(x: real, y: real, d: real)
    requires d > 0.0 && x <= y
    ensures x / d <= y / d && (x < y ==> x / d < y / d)
    ensures (x / d) * d == x && d / d == 1.0
  {
    assert (y - x) / d >= 0.0;
    assert x < y ==> (y - x) / d > 0.0;
    assert y / d == x / d + (y - x) / d;
  }

  lemma CrossMultiply(n: nat, source: nat, target: nat, up: nat, down: nat)
    requires up * source == down * target
    ensures (n * source) * up == (n * down) * target
  {
    assert (n * source) * up == n * (up * source);
    assert (n * down) * target == n * (down * target);
  }

  lemma ScaledDivision(a: nat, t: nat, up: nat, q: nat, r: nat)
    requires t > 0 && up > 0 && r < up && a * up == (q * up + r) * t
    ensures a / t == q
  {
    var s := a - q * t;
    Spread(a, t, up, q, r);
    MulAtMost(0, r, t);
    NotBelow(s, 0, up);
    MulAtMost(r, up - 1, t);
    assert (up - 1) * t == (t - 1) * up + (up - t);
    Below(s, t, r, up);
    DivUnique(a, t, q, s);
  }

  lemma Spread(a: int, t: int, up: int, q: int, r: int)
    requires a * up == (q * up + r) * t
    ensures (a - q * t) * up == r * t
  {
  }

  /** Dividing a non-negative product by a positive factor. */
  lemma NotBelow(s: int, low: int, up: nat)
    requires up > 0 && s * up >= low * up
    ensures s >= low
  {
    if s < low {
      MulAtMost(1, low - s, up);
      assert false;
    }
  }

  lemma Below(s: int, t: nat, r: nat, up: nat)
    requires r < up && t > 0 && s * up == r * t
    ensures s < t
  {
    if s >= t {
      MulAtMost(t, s, up);
      MulAtMost(1, up - r, t);
      assert false;
    }
  }

  lemma CastProduct(a: int, b: int)
    ensures (a * b) as real == a as real * b as real
  {
  }

  lemma ScaledFraction(a: nat, t: nat, up: nat, q: nat, r: nat)
    requires t > 0 && up > 0 && a * up == (q * up + r) * t
    ensures a as real / t as real == q as real + r as real / up as real
  {
    CastProduct(a, up);
    CastProduct(q * up + r, t);
    CastProduct(q, up);
    QuotientOrder(a as real, a as real, t as real);
    QuotientOrder(r as real, r as real, up as real);
    FractionSum(a as real, t as real, up as real, q as real, r as real, a as real / t as real, r as real / up as real);
  }

  lemma FractionSum(a: real, t: real, up: real, q: real, r: real, x: real, y: real)
    requires t > 0.0 && up > 0.0 && a * up == (q * up + r) * t && x * t == a && y * up == r
    ensures x == q + y
  {
    calc {
      (x * up) * t;
    ==
      (x * t) * up;
    ==
      (q * up + r) * t;
    ==
      ((q + y) * up) * t;
    }
    CancelReal(x * up, (q + y) * up, t);
    CancelReal(x, q + y, up);
  }

  lemma CancelReal(x: real, y: real, d: real)
    requires d > 0.0 && x * d == y * d
    ensures x == y
  {
    assert (x - y) * d == 0.0;
  }

  lemma RowTotalIsWeight(kernel: real -> real, taps: nat, phase: real, x: real, c: int)
    requires phase == x - c as real
    ensures RowTotal(kernel, taps, phase) == Weight(kernel, taps, x, c)
  {
    SumSame(RowTaps(kernel, taps, phase), Seen(kernel, x), 0, 2 * taps + 1, c - taps);
  }

  lemma {:induction false} SumOverTotal(f: int -> real, g: int -> real, total: real, lo: int, hi: int)
    requires total != 0.0 && forall i :: lo <= i < hi ==> g(i) == f(i) / total
    ensures Sum(g, lo, hi) == Sum(f, lo, hi) / total
    decreases hi - lo
  {
    if lo < hi {
      SumOverTotal(f, g, total, lo, hi - 1);
      AddFractions(Sum(f, lo, hi - 1), f(hi - 1), total);
    }
  }

  lemma AddFractions(a: real, b: real, d: real)
    requires d != 0.0
    ensures a / d + b / d == (a + b) / d
  {
  }

  /** For every input, rate pair and output, the table-driven gather is the normalised kernel sum
      evaluated directly at the exact position. */
  lemma PolyphaseIsDirect(samples: seq<real>, kernel: real -> real, taps: nat, source: nat, target: nat, n: nat)
    requires samples != [] && source > 0 && target > 0
    requires var (up, down) := RationalRatio(source, target); Normalisable(kernel, taps, up, down)
    ensures var (up, down) := RationalRatio(source, target);
            && up > 0
            && RowTotal(kernel, taps, PhaseOffset(up, down, n % up)) != 0.0
            && HasWeight(kernel, taps, source, target, n)
            && Dot(Gathered(samples, n * down / up, taps), Row(kernel, taps, PhaseOffset(up, down, n % up)))
               == Direct(samples, kernel, taps, source, target, n)
  {
    hide Sum, Weight, RowTotal, Dot, Gathered, Row, PhaseOffset, Position, Centre, RationalRatio, Terms;
    var (up, down) := RationalRatio(source, target);
    PhasePosition(source, target, n);
    var x, c := Position(source, target, n), Centre(source, target, n);
    var phase := PhaseOffset(up, down, n % up);
    RowTotalIsWeight(kernel, taps, phase, x, c);
    DotIsDirect(samples, kernel, taps, x, c, phase);
  }

  lemma DotIsDirect(samples: seq<real>, kernel: real -> real, taps: nat, x: real, c: int, phase: real)
    requires samples != [] && phase == x - c as real
    requires RowTotal(kernel, taps, phase) == Weight(kernel, taps, x, c) != 0.0
    ensures Dot(Gathered(samples, c, taps), Row(kernel, taps, phase)) ==
              Sum(Terms(samples, kernel, x), c - taps, c + taps + 1) / Weight(kernel, taps, x, c)
  {
    hide Sum, Weight, RowTotal;
    var g, r := Gathered(samples, c, taps), Row(kernel, taps, phase);
    var total := RowTotal(kernel, taps, phase);
    var plain := (j: int) => samples[Clip(c + j - taps, |samples| - 1)] * kernel(phase - (j - taps) as real);
    forall j | 0 <= j < 2 * taps + 1 ensures Products(g, r)(j) == plain(j) / total {
      MulFraction(g[j], kernel(phase - (j - taps) as real), total);
    }
    SumOverTotal(plain, Products(g, r), total, 0, 2 * taps + 1);
    SumSame(plain, Terms(samples, kernel, x), 0, 2 * taps + 1, c - taps);
  }

  lemma MulFraction(a: real, b: real, d: real)
    requires d != 0.0
    ensures a * (b / d) == (a * b) / d
  {
  }

  // ---------- the table is no larger than it must be ----------

  /** The gcd reduction makes the phases pairwise distinct. */
  lemma PhasesDistinct(source: nat, target: nat, p: nat, q: nat)
    requires source > 0 && target > 0
    requires var (up, _) := RationalRatio(source, target); p < q < up
    ensures var (up, down) := RationalRatio(source, target);
            PhaseOffset(up, down, p) != PhaseOffset(up, down, q)
  {
    RatioIsReduced(source, target);
    var (up, down) := RationalRatio(source, target);
    if PhaseOffset(up, down, p) == PhaseOffset(up, down, q) {
      SameFraction(p * down % up, q * down % up, up);
      SameRemainder(p * down, q * down, up);
      assert q * down - p * down == (q - p) * down;
      CoprimeCancels(up, down, q - p);
      DivUnique(q - p, up, 0, q - p);
    }
  }

  lemma SameFraction(a: int, b: int, d: nat)
    requires d > 0 && a as real / d as real == b as real / d as real
    ensures a == b
  {
    var x := a as real / d as real;
    assert x * d as real == a as real && x * d as real == b as real;
  }

  lemma SameRemainder(a: int, b: int, d: nat)
    requires d > 0 && a % d == b % d
    ensures (b - a) % d == 0
  {
    assert b - a == (b / d - a / d) * d;
    DivUnique(b - a, d, b / d - a / d, 0);
  }

  // ---------- structure of the output ----------

  /** Despite the rounding of the output length, every output's centre is an input sample. */
  lemma CentreInRange(size: nat, source: nat, target: nat, n: nat)
    requires size >= 2 && source > 0 && target > 0 && n < OutputSize(size, source, target)
    ensures 0 <= Centre(source, target, n) <= size - 1
  {
    if n == 0 {
      assert Centre(source, target, 0) == 0;
    } else {
      BelowQuotient(n, size * target, source);
      if n * source / target >= size {
        MulAtMost(size, n * source / target, target);
      }
    }
  }

  lemma BelowQuotient(n: nat, a: nat, d: nat)
    requires d > 0 && n < Max(1, RoundHalfEven(a as real / d as real)) && n > 0
    ensures n * d < a
  {
    hide RoundHalfEven;
    var x := a as real / d as real;
    BelowRounded(n, x);
    CastProduct(n, d);
    QuotientOrder(a as real, a as real, d as real);
    Shrink(n as real, x, d as real);
    CastOrder(n * d, a);
  }

  lemma BelowRounded(n: nat, x: real)
    requires n < RoundHalfEven(x)
    ensures n as real + 0.5 <= x
  {
    hide RoundHalfEven;
  }

  lemma CastOrder(a: int, b: int)
    requires a as real < b as real
    ensures a < b
  {
  }

  lemma Shrink(n: real, x: real, d: real)
    requires n + 0.5 <= x && d > 0.0
    ensures n * d < x * d
  {
    MulReal(n + 0.5, x, d);
    assert (n + 0.5) * d == n * d + 0.5 * d;
  }

  lemma MulReal(a: real, b: real, d: real)
    requires a <= b && d > 0.0
    ensures a * d <= b * d
  {
    assert (b - a) * d >= 0.0;
  }

  /** Unit gain at zero frequency: a constant input gives the same constant everywhere. */
  lemma ConstantInput(samples: seq<real>, v: real, kernel: real -> real, taps: nat, source: nat, target: nat, n: nat)
    requires samples != [] && target > 0 && forall i :: 0 <= i < |samples| ==> samples[i] == v
    requires HasWeight(kernel, taps, source, target, n)
    ensures Direct(samples, kernel, taps, source, target, n) == v
  {
    var x, c := Position(source, target, n), Centre(source, target, n);
    ConstantTerms(samples, v, kernel, x, c - taps, c + taps + 1);
    CancelQuotient(v, Weight(kernel, taps, x, c));
  }

  lemma {:induction false} ConstantTerms(samples: seq<real>, v: real, kernel: real -> real, x: real, lo: int, hi: int)
    requires samples != [] && forall i :: 0 <= i < |samples| ==> samples[i] == v
    ensures Sum(Terms(samples, kernel, x), lo, hi) == v * Sum(Seen(kernel, x), lo, hi)
    decreases hi - lo
  {
    if lo < hi { ConstantTerms(samples, v, kernel, x, lo, hi - 1); }
  }

  lemma CancelQuotient(v: real, d: real)
    requires d != 0.0
    ensures (v * d) / d == v
  {
  }

  /** Superposition: the output is linear in the input. */
  lemma Superposition(
    f: seq<real>, g: seq<real>, h: seq<real>, a: real, b: real,
    kernel: real -> real, taps: nat, source: nat, target: nat, n: nat)
    requires |f| == |g| == |h| > 0 && target > 0
    requires forall i :: 0 <= i < |h| ==> h[i] == a * f[i] + b * g[i]
    requires HasWeight(kernel, taps, source, target, n)
    ensures Direct(h, kernel, taps, source, target, n) ==
              a * Direct(f, kernel, taps, source, target, n) + b * Direct(g, kernel, taps, source, target, n)
  {
    hide Sum, Terms, Weight, Position, Centre;
    var x, c := Position(source, target, n), Centre(source, target, n);
    var d := Weight(kernel, taps, x, c);
    LinearTerms(f, g, h, a, b, kernel, x, c - taps, c + taps + 1);
    LinearFraction(a, Sum(Terms(f, kernel, x), c - taps, c + taps + 1),
                   b, Sum(Terms(g, kernel, x), c - taps, c + taps + 1), d);
  }

  lemma LinearTerms(
    f: seq<real>, g: seq<real>, h: seq<real>, a: real, b: real, kernel: real -> real, x: real, lo: int, hi: int)
    requires |f| == |g| == |h| > 0
    requires forall i :: 0 <= i < |h| ==> h[i] == a * f[i] + b * g[i]
    ensures Sum(Terms(h, kernel, x), lo, hi) ==
              a * Sum(Terms(f, kernel, x), lo, hi) + b * Sum(Terms(g, kernel, x), lo, hi)
  {
    forall i | lo <= i < hi
      ensures Terms(h, kernel, x)(i) == a * Terms(f, kernel, x)(i) + b * Terms(g, kernel, x)(i)
    {
      var j := Clip(i, |h| - 1);
      Distribute(a, f[j], b, g[j], h[j], kernel(x - i as real));
    }
    SumLinear(Terms(f, kernel, x), Terms(g, kernel, x), Terms(h, kernel, x), a, b, lo, hi);
  }

  lemma Distribute(a: real, x: real, b: real, y: real, z: real, k: real)
    requires z == a * x + b * y
    ensures z * k == a * (x * k) + b * (y * k)
  {
  }

  lemma LinearFraction(a: real, x: real, b: real, y: real, d: real)
    requires d != 0.0
    ensures (a * x + b * y) / d == a * (x / d) + b * (y / d)
  {
    AddFractions(a * x, b * y, d);
    MulFraction(a, x, d);
    MulFraction(b, y, d);
  }

  /** Delaying the input by `down` samples delays the output by exactly `up` samples, wherever no
      tap is clamped. */
  lemma DelayCommutes(
    f: seq<real>, g: seq<real>, kernel: real -> real, taps: nat, source: nat, target: nat, n: nat)
    requires source > 0 && target > 0 && f != [] && g != []
    requires var (up, down) := RationalRatio(source, target);
             && down >= 0
             && forall i :: 0 <= i < |f| && i + down < |g| ==> g[i + down] == f[i]
    requires HasWeight(kernel, taps, source, target, n)
    requires var (up, down) := RationalRatio(source, target);
             var c := Centre(source, target, n);
             0 <= c - taps && c + taps < |f| && c + down + taps < |g|
    ensures var (up, down) := RationalRatio(source, target);
            && up > 0
            && Weight(kernel, taps, Position(source, target, n + up), Centre(source, target, n + up)) != 0.0
            && Direct(g, kernel, taps, source, target, n + up) == Direct(f, kernel, taps, source, target, n)
  {
    hide Sum, Position, Centre, RationalRatio;
    RatioIsReduced(source, target);
    var (up, down) := RationalRatio(source, target);
    PositionShifts(source, target, up, down, n);
    var x, c := Position(source, target, n), Centre(source, target, n);
    var x', c' := Position(source, target, n + up), Centre(source, target, n + up);
    SumSame(Seen(kernel, x), Seen(kernel, x'), c - taps, c + taps + 1, down);
    forall i | c - taps <= i < c + taps + 1
      ensures Terms(f, kernel, x)(i) == Terms(g, kernel, x')(i + down)
    {
      assert Clip(i, |f| - 1) == i && Clip(i + down, |g| - 1) == i + down;
    }
    SumSame(Terms(f, kernel, x), Terms(g, kernel, x'), c - taps, c + taps + 1, down);
  }

  lemma PositionShifts(source: nat, target: nat, up: nat, down: nat, n: nat)
    requires source > 0 && target > 0 && up * source == down * target
    ensures Centre(source, target, n + up) == Centre(source, target, n) + down
    ensures Position(source, target, n + up) == Position(source, target, n) + down as real
  {
    assert (n + up) * source == n * source + down * target;
    AddMultiple(n * source, down, target);
    var x, y := Position(source, target, n), Position(source, target, n + up);
    assert x * target as real == (n * source) as real;
    assert y * target as real == (n * source + down * target) as real;
    assert (down * target) as real == down as real * target as real;
    CancelReal(y, x + down as real, target as real);
  }

  // ---------- the edges ----------

  function Held(x: real, n: nat): (r: seq<real>)
    ensures |r| == n && forall i :: 0 <= i < n ==> r[i] == x
  {
    seq(n, _ => x)
  }

  /** Past its end the input counts as its last sample held: appending any number of copies of it
      changes no output. */
  lemma LastSampleHeld(
    f: seq<real>, copies: nat, kernel: real -> real, taps: nat, source: nat, target: nat, n: nat)
    requires f != [] && target > 0 && HasWeight(kernel, taps, source, target, n)
    ensures Direct(f + Held(f[|f| - 1], copies), kernel, taps, source, target, n) ==
              Direct(f, kernel, taps, source, target, n)
  {
    hide Sum, Position, Centre, Weight;
    var x, c := Position(source, target, n), Centre(source, target, n);
    var g := f + Held(f[|f| - 1], copies);
    forall i | c - taps <= i < c + taps + 1 ensures Terms(g, kernel, x)(i) == Terms(f, kernel, x)(i + 0) {
      assert i + 0 == i;
      assert g[Clip(i, |g| - 1)] == f[Clip(i, |f| - 1)];
    }
    SumSame(Terms(g, kernel, x), Terms(f, kernel, x), c - taps, c + taps + 1, 0);
  }

  /** Before its start it counts as its first sample held: prepending `down` copies of it delays the
      whole output by `up` samples, also where taps reach past either edge. */
  lemma FirstSampleHeld(f: seq<real>, kernel: real -> real, taps: nat, source: nat, target: nat, n: nat)
    requires source > 0 && target > 0 && f != [] && HasWeight(kernel, taps, source, target, n)
    ensures var (up, down) := RationalRatio(source, target);
            && up > 0
            && HasWeight(kernel, taps, source, target, n + up)
            && Direct(Held(f[0], down) + f, kernel, taps, source, target, n + up) ==
                 Direct(f, kernel, taps, source, target, n)
  {
    hide Sum, Position, Centre, RationalRatio;
    RatioIsReduced(source, target);
    var (up, down) := RationalRatio(source, target);
    PositionShifts(source, target, up, down, n);
    var x, c := Position(source, target, n), Centre(source, target, n);
    var x', c' := Position(source, target, n + up), Centre(source, target, n + up);
    var g := Held(f[0], down) + f;
    SumSame(Seen(kernel, x), Seen(kernel, x'), c - taps, c + taps + 1, down);
    forall i | c - taps <= i < c + taps + 1 ensures Terms(f, kernel, x)(i) == Terms(g, kernel, x')(i + down) {
      assert g[Clip(i + down, |g| - 1)] == f[Clip(i, |f| - 1)];
      assert x' - (i + down) as real == x - i as real;
    }
    SumSame(Terms(f, kernel, x), Terms(g, kernel, x'), c - taps, c + taps + 1, down);
  }

  // ---------- single samples ----------

  lemma {:induction false} SumOne(f: int -> real, lo: int, hi: int, j: int)
    requires forall i :: lo <= i < hi && i != j ==> f(i) == 0.0
    ensures Sum(f, lo, hi) == if lo <= j < hi then f(j) else 0.0
    decreases hi - lo
  {
    if lo < hi { SumOne(f, lo, hi - 1, j); }
  }

  /** A single unit sample, away from the edges, comes out as the normalised kernel around it. */
  lemma ImpulseResponse(
    f: seq<real>, j: nat, kernel: real -> real, taps: nat, source: nat, target: nat, n: nat)
    requires 0 < j < |f| - 1 && target > 0 && HasWeight(kernel, taps, source, target, n)
    requires forall i :: 0 <= i < |f| ==> f[i] == if i == j then 1.0 else 0.0
    ensures var x, c := Position(source, target, n), Centre(source, target, n);
            Direct(f, kernel, taps, source, target, n) ==
              (if c - taps <= j <= c + taps then kernel(x - j as real) else 0.0) / Weight(kernel, taps, x, c)
  {
    hide Sum, Position, Centre, Weight;
    var x, c := Position(source, target, n), Centre(source, target, n);
    SumOne(Terms(f, kernel, x), c - taps, c + taps + 1, j);
  }

  // ---------- how much comes out ----------

  /** The output is as long as the input, to the nearest output sample, and never empty. */
  lemma OutputSizeNearest(size: nat, source: nat, target: nat)
    requires source > 0 && target > 0
    ensures var out, asked := OutputSize(size, source, target), size * target;
            && out >= 1
            && (2 * asked >= source ==> 2 * asked - source <= 2 * (out * source) <= 2 * asked + source)
            && (2 * asked <= source ==> out == 1)
  {
    hide RoundHalfEven;
    NearestQuotient(size * target, source);
  }

  lemma NearestQuotient(a: int, source: nat)
    requires source > 0 && a >= 0
    ensures var out := Max(1, RoundHalfEven(a as real / source as real));
            && (2 * a >= source ==> 2 * a - source <= 2 * (out * source) <= 2 * a + source)
            && (2 * a <= source ==> out == 1)
  {
    hide RoundHalfEven;
    var r := RoundHalfEven(a as real / source as real);
    RoundedQuotient(a, source, r);
    var rs := r * source;
    if r < 0 { MulAtMost(r, -1, source); }
    if r > 1 { MulAtMost(2, r, source); }
    if r == 0 { assert rs == 0; }
    if r == 1 { assert rs == source; }
  }

  lemma RoundedQuotient(a: int, source: nat, r: int)
    requires source > 0 && -0.5 <= a as real / source as real - r as real <= 0.5
    ensures 2 * a - source <= 2 * (r * source) <= 2 * a + source
  {
    QuotientOrder(a as real, a as real, source as real);
    CastProduct(r, source);
    NearestProduct(a as real / source as real, r as real, source as real);
    CastWithin(a, r * source, source);
  }

  lemma CastWithin(a: int, p: int, d: nat)
    requires -0.5 * d as real <= a as real - p as real <= 0.5 * d as real
    ensures 2 * a - d <= 2 * p <= 2 * a + d
  {
  }

  lemma NearestProduct(x: real, r: real, d: real)
    requires d > 0.0 && -0.5 <= x - r <= 0.5
    ensures -0.5 * d <= x * d - r * d <= 0.5 * d
  {
    assert x * d - r * d == (x - r) * d;
    MulReal(-0.5, x - r, d);
    MulReal(x - r, 0.5, d);
  }
}
