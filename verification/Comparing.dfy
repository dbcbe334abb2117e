/** Rationals compared exactly, by cross products in 256 bits (core/crates/objectflow-core/src/rat.rs). */
module Comparing {
  import opened Wrappers
  import opened Divisors
  import opened Rationals

  datatype Ordering = Less | Equal | Greater

  function Compare(a: int, b: int): Ordering {
    if a < b then Less else if a == b then Equal else Greater
  }

  function Reversed(o: Ordering): Ordering {
    match o case Less => Greater case Equal => Equal case Greater => Less
  }

  /** The 256-bit product of two magnitudes, its high and low halves, every sum and product within 128 bits on the way. */
  function WideMul(a: U128, b: U128): (r: (U128, U128))
    ensures r.0 * WHOLE + r.1 == a * b
  {
    var (a1, a0) := (a / HALF, a % HALF);
    var (b1, b0) := (b / HALF, b % HALF);
    Parts(a0, b0);
    Parts(a0, b1);
    Parts(a1, b0);
    Parts(a1, b1);
    var p00: U128, p01: U128, p10: U128, p11: U128 := a0 * b0, a0 * b1, a1 * b0, a1 * b1;
    var mid: U128 := p00 / HALF + p01 % HALF + p10 % HALF;
    var low: U128 := p00 % HALF + mid % HALF * HALF;
    var high: U128 := p11 + p01 / HALF + p10 / HALF + mid / HALF;
    WideMulIsExact(a, b, a1, a0, b1, b0, p00, p01, p10, p11);
    (high, low)
  }

  /** Halves below 2^64 multiply to at most (2^64 - 1)^2. */
  lemma Parts(x: int, y: int)
    requires 0 <= x < HALF && 0 <= y < HALF
    ensures 0 <= x * y <= (HALF - 1) * (HALF - 1)
    ensures x * y / HALF <= HALF - 2
  {
    Bounded(x, y, HALF - 1);
    PartHigh(x * y);
  }

  lemma Bounded(x: int, y: int, k: int)
    requires 0 <= x <= k && 0 <= y <= k
    ensures 0 <= x * y <= k * k
  {
    Monotone(x, 0, y);
    Monotone(x, y, k);
    Monotone(k, x, k);
  }

  lemma PartHigh(p: int)
    requires 0 <= p <= (HALF - 1) * (HALF - 1)
    ensures p / HALF <= HALF - 2
  {
  }

  lemma WideMulIsExact(a: int, b: int, a1: int, a0: int, b1: int, b0: int, p00: int, p01: int, p10: int, p11: int)
    requires a == a1 * HALF + a0 && b == b1 * HALF + b0
    requires p00 == a0 * b0 && p01 == a0 * b1 && p10 == a1 * b0 && p11 == a1 * b1
    ensures var mid := p00 / HALF + p01 % HALF + p10 % HALF;
            var low := p00 % HALF + mid % HALF * HALF;
            var high := p11 + p01 / HALF + p10 / HALF + mid / HALF;
            high * WHOLE + low == a * b
  {
    Expand(a1, a0, b1, b0);
  }

  lemma Expand(a1: int, a0: int, b1: int, b0: int)
    ensures (a1 * HALF + a0) * (b1 * HALF + b0) == a1 * b1 * WHOLE + (a0 * b1 + a1 * b0) * HALF + a0 * b0
  {
    assert (a1 * HALF + a0) * (b1 * HALF + b0) ==
           a1 * HALF * (b1 * HALF) + a1 * HALF * b0 + a0 * (b1 * HALF) + a0 * b0;
    assert a1 * HALF * (b1 * HALF) == a1 * b1 * WHOLE;
    assert a1 * HALF * b0 == a1 * b0 * HALF;
    assert a0 * (b1 * HALF) == a0 * b1 * HALF;
  }

  /** Two pairs of halves, the high first. */
  function CompareWide(x: (U128, U128), y: (U128, U128)): Ordering {
    if x.0 != y.0 then Compare(x.0, y.0) else Compare(x.1, y.1)
  }

  lemma WideIsValue(x: (U128, U128), y: (U128, U128))
    ensures CompareWide(x, y) == Compare(x.0 * WHOLE + x.1, y.0 * WHOLE + y.1)
  {
  }

  function Sign(x: int): int {
    if x < 0 then -1 else if x == 0 then 0 else 1
  }

  /** By sign, then by the cross products. */
  function Cmp(a: Rat, b: Rat): Ordering {
    var s, t := Sign(a.n), Sign(b.n);
    if s != t then Compare(s, t)
    else if s == 0 then Equal
    else
      var x := WideMul(Abs(a.n), Abs(b.d));
      var y := WideMul(Abs(b.n), Abs(a.d));
      if s > 0 then CompareWide(x, y) else CompareWide(y, x)
  }

  /** The comparison is that of the cross products, whatever their size. */
  lemma CmpIsCross(a: Rat, b: Rat)
    requires a.d > 0 && b.d > 0
    ensures Cmp(a, b) == Compare(a.n * b.d, b.n * a.d)
  {
    SignOfProduct(a.n, b.d);
    SignOfProduct(b.n, a.d);
    if Sign(a.n) == Sign(b.n) && a.n != 0 {
      var x := WideMul(Abs(a.n), Abs(b.d));
      var y := WideMul(Abs(b.n), Abs(a.d));
      WideIsValue(x, y);
      WideIsValue(y, x);
      AbsProduct(a.n, b.d);
      AbsProduct(b.n, a.d);
      CompareAbs(a.n * b.d, b.n * a.d);
    }
  }

  lemma AbsProduct(n: int, d: int)
    requires d > 0
    ensures Abs(n) * Abs(d) == Abs(n * d)
  {
    SignOfProduct(n, d);
    assert -n * d == -(n * d);
  }

  lemma CompareAbs(x: int, y: int)
    ensures x > 0 && y > 0 ==> Compare(Abs(x), Abs(y)) == Compare(x, y)
    ensures x < 0 && y < 0 ==> Compare(Abs(y), Abs(x)) == Compare(x, y)
  {
  }

  lemma SignOfProduct(n: int, d: int)
    requires d > 0
    ensures Sign(n * d) == Sign(n)
  {
    if n > 0 {
      Monotone(d, 1, n);
    } else if n < 0 {
      Monotone(d, n, -1);
    }
  }

  /** The comparison is that of the values. */
  lemma CmpIsValue(a: Rat, b: Rat)
    requires a.d > 0 && b.d > 0
    ensures Cmp(a, b) == (if Value(a) < Value(b) then Less else if Value(a) == Value(b) then Equal else Greater)
  {
    CmpIsCross(a, b);
    ValuesCross(a, b);
  }

  lemma ValuesCross(a: Rat, b: Rat)
    requires a.d > 0 && b.d > 0
    ensures Value(a) < Value(b) <==> a.n * b.d < b.n * a.d
    ensures Value(a) == Value(b) <==> a.n * b.d == b.n * a.d
  {
    CrossOrder(a.n as real, a.d as real, b.n as real, b.d as real);
    IntOrder(a.n, b.d, b.n, a.d);
  }

  lemma IntOrder(a: int, b: int, c: int, d: int)
    ensures a as real * b as real < c as real * d as real <==> a * b < c * d
    ensures a as real * b as real == c as real * d as real <==> a * b == c * d
  {
    Reals(a, b);
    Reals(c, d);
  }

  lemma CrossOrder(a: real, b: real, c: real, d: real)
    requires b > 0.0 && d > 0.0
    ensures a / b < c / d <==> a * d < c * b
    ensures a / b == c / d <==> a * d == c * b
  {
    var x, y := a / b, c / d;
    assert a == x * b && c == y * d;
    assert a * d == x * (b * d) && c * b == y * (b * d);
    RealOrder(x, y, b * d);
  }

  lemma RealOrder(x: real, y: real, k: real)
    requires k > 0.0
    ensures x < y <==> x * k < y * k
    ensures x == y <==> x * k == y * k
  {
  }

  /** Two rationals in lowest terms compare equal exactly where they are the same. */
  lemma EqualIsIdentical(a: Rat, b: Rat)
    requires Valid(a) && Valid(b)
    ensures Cmp(a, b) == Equal <==> a == b
  {
    CmpIsCross(a, b);
    if Cmp(a, b) == Equal {
      LowestTermsUnique(a.n, a.d, b.n, b.d);
    }
  }

  /** A total order: of two, one way or the other, and of three, transitive. */
  lemma CmpIsTotalOrder(a: Rat, b: Rat, c: Rat)
    requires Valid(a) && Valid(b) && Valid(c)
    ensures Cmp(b, a) == Reversed(Cmp(a, b))
    ensures Cmp(a, b) != Greater && Cmp(b, c) != Greater ==> Cmp(a, c) != Greater
    ensures Cmp(a, b) != Greater && Cmp(b, a) != Greater ==> a == b
  {
    CmpIsValue(a, b);
    CmpIsValue(b, a);
    CmpIsValue(b, c);
    CmpIsValue(a, c);
    EqualIsIdentical(a, b);
  }
}
