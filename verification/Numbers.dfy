/** Integer division, greatest common divisors and rounding. */
module Numbers {

  function Min(a: int, b: int): int { if a <= b then a else b }

  function Max(a: int, b: int): int { if a >= b then a else b }

  /** Round to the nearest integer, ties to the even one. */
  function RoundHalfEven(x: real): (r: int)
    ensures -0.5 <= x - r as real <= 0.5
    ensures x - r as real == 0.5 || x - r as real == -0.5 ==> r % 2 == 0
  {
    var f := x.Floor;
    var rest := x - f as real;
    if rest < 0.5 || (rest == 0.5 && f % 2 == 0) then f else f + 1
  }

  lemma MulAtMost(a: int, b: int, d: nat)
    requires a <= b
    ensures a * d <= b * d
  {
    assert (b - a) * d >= 0;
  }

  lemma DivUnique(x: int, d: int, q: int, r: int)
    requires d > 0 && 0 <= r < d && x == q * d + r
    ensures x / d == q && x % d == r
  {
    var t := x / d - q;
    assert t * d == r - x % d;
    if t >= 1 {
      MulAtMost(1, t, d);
    } else if t <= -1 {
      MulAtMost(t, -1, d);
    }
  }

  lemma AddMultiple(x: int, k: int, d: int)
    requires d > 0
    ensures (x + k * d) / d == x / d + k && (x + k * d) % d == x % d
  {
    DivUnique(x + k * d, d, x / d + k, x % d);
  }

  /** A multiple of a multiple of d is a multiple of d. */
  lemma MultipleOfMultiple(i: int, m: int, d: int)
    requires d > 0 && m % d == 0
    ensures (i * m) % d == 0
  {
    assert i * m == (i * (m / d)) * d;
    DivUnique(i * m, d, i * (m / d), 0);
  }

  /** Reducing a factor first does not change the product's remainder. */
  lemma ModOfProduct(n: int, k: int, d: int)
    requires d > 0
    ensures ((n % d) * k) % d == (n * k) % d
  {
    assert n * k == (n % d) * k + ((n / d) * k) * d;
    AddMultiple((n % d) * k, (n / d) * k, d);
  }

  // ---------- greatest common divisor ----------

  function Gcd(a: nat, b: nat): (g: nat)
    ensures a > 0 || b > 0 ==> g > 0
    decreases b
  {
    if b == 0 then a else Gcd(b, a % b)
  }

  lemma {:induction false} Bezout(a: nat, b: nat) returns (x: int, y: int)
    ensures a * x + b * y == Gcd(a, b)
    decreases b
  {
    if b == 0 {
      x, y := 1, 0;
    } else {
      var x', y' := Bezout(b, a % b);
      x, y := y', x' - (a / b) * y';
      BezoutStep(a, b, x', y');
    }
  }

  lemma BezoutStep(a: nat, b: nat, x: int, y: int)
    requires b > 0
    ensures a * y + b * (x - (a / b) * y) == b * x + (a % b) * y
  {
    var q := a / b;
    assert a % b == a - q * b;
    assert (a - q * b) * y == a * y - (q * b) * y;
    assert b * (x - q * y) == b * x - b * (q * y);
    assert (q * b) * y == b * (q * y);
  }

  lemma SumOfMultiples(p: int, q: int, g: int)
    ensures p * g + q * g == (p + q) * g
  {
  }

  lemma IsMultiple(a: int, g: int)
    requires g > 0 && a % g == 0
    ensures a == (a / g) * g
  {
  }

  lemma {:induction false} GcdDivides(a: nat, b: nat)
    requires a > 0 || b > 0
    ensures a % Gcd(a, b) == 0 && b % Gcd(a, b) == 0
    decreases b
  {
    hide Gcd;
    GcdUnfolds(a, b);
    if b == 0 {
      DivUnique(a, a, 1, 0);
      DivUnique(0, a, 0, 0);
    } else {
      GcdDivides(b, a % b);
      var g := Gcd(b, a % b);
      MultipleOfMultiple(a / b, b, g);
      MultiplesAdd((a / b) * b, a % b, g);
      Division(a, b);
    }
  }

  lemma GcdUnfolds(a: nat, b: nat)
    ensures Gcd(a, b) == if b == 0 then a else Gcd(b, a % b)
  {
  }

  lemma Division(a: int, b: int)
    requires b != 0
    ensures a == (a / b) * b + a % b
  {
  }

  lemma MultiplesAdd(m: int, n: int, g: int)
    requires g > 0 && m % g == 0 && n % g == 0
    ensures (m + n) % g == 0
  {
    IsMultiple(m, g);
    IsMultiple(n, g);
    SumOfMultiples(m / g, n / g, g);
    DivUnique(m + n, g, m / g + n / g, 0);
  }

  /** It is the greatest: every common divisor divides it. */
  lemma GcdIsGreatest(a: nat, b: nat, d: nat)
    requires (a > 0 || b > 0) && d > 0 && a % d == 0 && b % d == 0
    ensures Gcd(a, b) % d == 0
  {
    hide Gcd;
    var x, y := Bezout(a, b);
    MultipleOfMultiple(x, a, d);
    MultipleOfMultiple(y, b, d);
    MultiplesAdd(x * a, y * b, d);
    assert x * a == a * x && y * b == b * y;
  }

  /** With coprime factors, d divides k * m only if it divides k. */
  lemma CoprimeCancels(d: nat, m: nat, k: int)
    requires d > 0 && Gcd(d, m) == 1 && (k * m) % d == 0
    ensures k % d == 0
  {
    hide Gcd;
    var x, y := Bezout(d, m);
    IsMultiple(k * m, d);
    var c := (k * m) / d;
    Combination(k, m, c, d, x, y);
    DivUnique(k, d, k * x + c * y, 0);
  }

  lemma Combination(k: int, m: int, c: int, d: int, x: int, y: int)
    requires k * m == c * d && d * x + m * y == 1
    ensures k == (k * x + c * y) * d
  {
    calc {
      (k * x + c * y) * d;
    ==
      k * (d * x) + (c * d) * y;
    ==
      k * (d * x) + (k * m) * y;
    ==
      k * (d * x + m * y);
    }
  }

  lemma CancelFactor(d: nat, a: int, b: int)
    requires d > 0 && d * a == d * b
    ensures a == b
  {
    if a > b { MulAtMost(1, a - b, d); }
    if a < b { MulAtMost(1, b - a, d); }
  }

  lemma FactorOfOne(t: int, g: nat)
    requires t * g == 1
    ensures g == 1
  {
    if t >= 1 && g > 1 { MulAtMost(1, t, g); }
    if t <= 0 { MulAtMost(t, 0, g); }
  }

  /** A combination of value one makes two numbers coprime. */
  lemma CoprimeFromBezout(a: nat, b: nat, x: int, y: int)
    requires (a > 0 || b > 0) && a * x + b * y == 1
    ensures Gcd(a, b) == 1
  {
    hide Gcd;
    var g := Gcd(a, b);
    GcdDivides(a, b);
    var p, q := a / g, b / g;
    assert a == p * g && b == q * g;
    CombineMultiples(p, q, g, x, y);
    FactorOfOne(p * x + q * y, g);
  }

  lemma CombineMultiples(p: int, q: int, g: int, x: int, y: int)
    ensures (p * g) * x + (q * g) * y == (p * x + q * y) * g == g * (p * x + q * y)
  {
  }

  lemma MultipleOf(a: nat, g: nat)
    requires a > 0 && g > 0 && a % g == 0
    ensures a == (a / g) * g && a / g > 0
  {
  }

  /** Dividing two numbers by their greatest common divisor leaves coprime quotients. */
  lemma QuotientsCoprime(a: nat, b: nat)
    requires a > 0 && b > 0
    ensures var g := Gcd(a, b);
            && a == (a / g) * g && b == (b / g) * g
            && a / g > 0 && b / g > 0
            && Gcd(a / g, b / g) == 1
  {
    hide Gcd;
    var g := Gcd(a, b);
    GcdDivides(a, b);
    MultipleOf(a, g);
    MultipleOf(b, g);
    var x, y := Bezout(a, b);
    var p, q := a / g, b / g;
    CombineMultiples(p, q, g, x, y);
    assert g * (p * x + q * y) == g * 1;
    CancelFactor(g, p * x + q * y, 1);
    CoprimeFromBezout(p, q, x, y);
  }

  lemma GcdSymmetric(a: nat, b: nat)
    requires a > 0 && b > 0
    ensures Gcd(a, b) == Gcd(b, a)
  {
    hide Gcd;
    var g, h := Gcd(a, b), Gcd(b, a);
    GcdDivides(a, b);
    GcdDivides(b, a);
    GcdIsGreatest(a, b, h);
    GcdIsGreatest(b, a, g);
    MultipleOf(g, h);
    MultipleOf(h, g);
    if g < h { MulAtMost(1, h / g, g); MulAtMost(1, g / h, h); }
    if h < g { MulAtMost(1, g / h, h); MulAtMost(1, h / g, g); }
  }
}
