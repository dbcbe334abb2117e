/** Exact rationals over 128-bit integers, their arithmetic checked (core/crates/objectflow-core/src/rat.rs). */
module Rationals {
  import opened Wrappers
  import opened Divisors

  type I128 = x: int | -0x8000_0000_0000_0000_0000_0000_0000_0000 <= x < 0x8000_0000_0000_0000_0000_0000_0000_0000
  type U128 = x: int | 0 <= x < 0x1_0000_0000_0000_0000_0000_0000_0000_0000

  const LEAST := -0x8000_0000_0000_0000_0000_0000_0000_0000
  const HALF := 0x1_0000_0000_0000_0000
  const WHOLE := 0x1_0000_0000_0000_0000_0000_0000_0000_0000

  predicate Fits(x: int) {
    -0x8000_0000_0000_0000_0000_0000_0000_0000 <= x < 0x8000_0000_0000_0000_0000_0000_0000_0000
  }

  function Checked(x: int): Option<I128> {
    if Fits(x) then Some(x) else None
  }

  /** A fraction in lowest terms, its denominator positive. */
  datatype Rat = Rat(n: I128, d: I128)

  ghost predicate Valid(r: Rat) {
    r.d > 0 && Coprime(r.n, r.d)
  }

  ghost function Value(r: Rat): real
    requires r.d > 0
  {
    r.n as real / r.d as real
  }

  function AtLeastOne(x: int): int {
    if x < 1 then 1 else x
  }

  /** The greatest common divisor, by remainders; one where both are nought, or where it passes 128 bits. */
  method GcdOf(a: I128, b: I128) returns (g: I128)
    ensures var d := Gcd(Abs(a), Abs(b)); g == if d == 0 || !Fits(d) then 1 else d
    ensures g > 0
  {
    var x: U128, y: U128 := Abs(a), Abs(b);
    while y != 0
      invariant Gcd(x, y) == Gcd(Abs(a), Abs(b))
      decreases y
    {
      x, y := y, x % y;
    }
    g := if Fits(AtLeastOne(x)) then AtLeastOne(x) else 1;
  }

  lemma GcdAtMost(a: nat, b: nat)
    requires b > 0
    ensures 0 < Gcd(a, b) <= b
  {
    var x, y := Bezout(a, b);
    var q: int :| b == Gcd(a, b) * q;
    PositiveFactor(Gcd(a, b), q);
    Monotone(Gcd(a, b), 1, q);
  }

  /** `n / d`, where it is one: no zero denominator, and no sign turned past 128 bits. */
  predicate Formed(n: I128, d: I128) {
    d > 0 || (d < 0 && n != LEAST && d != LEAST)
  }

  method New(n: I128, d: I128) returns (r: Option<Rat>)
    ensures r.Some? <==> Formed(n, d)
    ensures r.Some? ==> Valid(r.value) && r.value.n * d == n * r.value.d
    ensures r.Some? ==> Value(r.value) == n as real / d as real
  {
    if d == 0 || (d < 0 && (n == LEAST || d == LEAST)) {
      return None;
    }
    var m: int, e: int := n, d;
    if d < 0 {
      m, e := -m, -e;
    }
    GcdAtMost(Abs(m), e);
    var g := GcdOf(m, e);
    LowestTerms(m, e, g);
    Smaller(m, g);
    Smaller(e, g);
    var s: I128, t: I128 := m / g, e / g;
    Reduced(m, e, g, s, t);
    SignsTurned(s, t, m, e, n, d);
    SameValue(s, t, n, d);
    r := Some(Rat(s, t));
  }

  lemma SignsTurned(s: int, t: int, m: int, e: int, n: int, d: int)
    requires s * e == m * t && ((m == n && e == d) || (m == -n && e == -d))
    ensures s * d == n * t
  {
  }

  lemma Smaller(m: I128, g: int)
    requires g > 0
    ensures Fits(m / g)
  {
    var q := m / g;
    assert m == g * q + m % g;
    if q >= 0 {
      Monotone(q, 1, g);
    } else {
      Monotone(-q, 1, g);
    }
  }

  lemma Reduced(m: int, e: int, g: int, s: int, t: int)
    requires m == g * s && e == g * t
    ensures s * e == m * t
  {
    assert s * (g * t) == g * s * t;
  }

  lemma SameValue(n: int, d: int, m: int, e: int)
    requires d != 0 && e != 0 && n * e == m * d
    ensures n as real / d as real == m as real / e as real
  {
    assert n as real * e as real == m as real * d as real by {
      assert n as real * e as real == (n * e) as real;
      assert m as real * d as real == (m * d) as real;
    }
    CrossMultiply(n as real, d as real, m as real, e as real);
  }

  lemma CrossMultiply(a: real, b: real, c: real, d: real)
    requires b != 0.0 && d != 0.0 && a * d == c * b
    ensures a / b == c / d
  {
    assert a == (c / d) * b by {
      assert a * d == c * b;
      assert c == (c / d) * d;
      assert a * d == (c / d) * b * d;
    }
  }

  // the checked operations, each exact where it answers

  method Add(a: Rat, b: Rat) returns (r: Option<Rat>)
    requires Valid(a) && Valid(b)
    ensures r.Some? <==> Fits(a.n * b.d) && Fits(b.n * a.d) && Fits(a.n * b.d + b.n * a.d) && Fits(a.d * b.d)
    ensures r.Some? ==> Valid(r.value) && Value(r.value) == Value(a) + Value(b)
  {
    var x, y := Checked(a.n * b.d), Checked(b.n * a.d);
    var d := Checked(a.d * b.d);
    if x.None? || y.None? || d.None? {
      return None;
    }
    var left: int, right: int := x.value, y.value;
    var n := Checked(left + right);
    if n.None? {
      return None;
    }
    Product(a.d, b.d);
    r := New(n.value, d.value);
    SumOfFractions(a.n as real, a.d as real, b.n as real, b.d as real);
    Reals(a.n, b.d);
    Reals(b.n, a.d);
    Reals(a.d, b.d);
  }

  method Subtract(a: Rat, b: Rat) returns (r: Option<Rat>)
    requires Valid(a) && Valid(b)
    ensures r.Some? <==> b.n != LEAST && Fits(a.n * b.d) && Fits(-b.n * a.d) && Fits(a.n * b.d + -b.n * a.d)
                         && Fits(a.d * b.d)
    ensures r.Some? ==> Valid(r.value) && Value(r.value) == Value(a) - Value(b)
  {
    if b.n == LEAST {
      return None;
    }
    var n: int := b.n;
    var minus := Rat(-n, b.d);
    Negated(b.n, b.d);
    r := Add(a, minus);
    NegatedValue(b.n as real, b.d as real);
  }

  lemma Negated(n: int, d: int)
    requires Coprime(n, d)
    ensures Coprime(-n, d)
  {
    forall k: int | k > 0 && Divides(k, -n) && Divides(k, d)
      ensures k == 1
    {
      SignsDivide(k, n);
    }
  }

  lemma NegatedValue(n: real, d: real)
    requires d != 0.0
    ensures -n / d == -(n / d)
  {
  }

  method Multiply(a: Rat, b: Rat) returns (r: Option<Rat>)
    requires Valid(a) && Valid(b)
    ensures r.Some? <==> Fits(a.n * b.n) && Fits(a.d * b.d)
    ensures r.Some? ==> Valid(r.value) && Value(r.value) == Value(a) * Value(b)
  {
    var n, d := Checked(a.n * b.n), Checked(a.d * b.d);
    if n.None? || d.None? {
      return None;
    }
    Product(a.d, b.d);
    r := New(n.value, d.value);
    ProductOfFractions(a.n as real, a.d as real, b.n as real, b.d as real);
    Reals(a.n, b.n);
    Reals(a.d, b.d);
  }

  /** The quotient, none for a zero divisor. */
  method Divide(a: Rat, b: Rat) returns (r: Option<Rat>)
    requires Valid(a) && Valid(b)
    ensures r.Some? <==> Fits(a.n * b.d) && Fits(a.d * b.n) && Formed(a.n * b.d, a.d * b.n)
    ensures r.Some? ==> b.n != 0 && Valid(r.value) && Value(r.value) == Value(a) / Value(b)
  {
    var n, d := Checked(a.n * b.d), Checked(a.d * b.n);
    if n.None? || d.None? {
      return None;
    }
    r := New(n.value, d.value);
    if r.Some? {
      DivisorNotNought(a.d, b.n);
      QuotientValue(a, b, n.value, d.value);
    }
  }

  lemma DivisorNotNought(d: int, n: int)
    requires d * n != 0
    ensures n != 0
  {
  }

  lemma QuotientValue(a: Rat, b: Rat, n: int, d: int)
    requires a.d > 0 && b.d > 0 && b.n != 0 && n == a.n * b.d && d == a.d * b.n && d != 0
    ensures n as real / d as real == Value(a) / Value(b)
  {
    QuotientOfFractions(a.n as real, a.d as real, b.n as real, b.d as real);
    Reals(a.n, b.d);
    Reals(a.d, b.n);
  }

  lemma Product(a: int, b: int)
    requires a > 0 && b > 0
    ensures a * b > 0
  {
  }

  lemma Reals(a: int, b: int)
    ensures (a * b) as real == a as real * b as real
  {
  }

  lemma SumOfFractions(a: real, b: real, c: real, d: real)
    requires b > 0.0 && d > 0.0
    ensures b * d > 0.0 && (a * d + c * b) / (b * d) == a / b + c / d
  {
    var x, y := a / b, c / d;
    assert a == x * b && c == y * d;
    assert a * d + c * b == (x + y) * (b * d);
  }

  lemma ProductOfFractions(a: real, b: real, c: real, d: real)
    requires b > 0.0 && d > 0.0
    ensures b * d > 0.0 && (a * c) / (b * d) == (a / b) * (c / d)
  {
    var x, y := a / b, c / d;
    assert a == x * b && c == y * d;
    assert a * c == (x * y) * (b * d);
  }

  lemma QuotientOfFractions(a: real, b: real, c: real, d: real)
    requires b > 0.0 && d > 0.0 && c != 0.0
    ensures b * c != 0.0 && c / d != 0.0 && (a * d) / (b * c) == (a / b) / (c / d)
  {
    var x, y := a / b, c / d;
    assert a == x * b && c == y * d;
    assert y != 0.0;
    assert (x / y) * (b * c) == a * d by {
      assert (x / y) * y == x;
      assert (x / y) * (b * (y * d)) == ((x / y) * y) * b * d;
    }
  }
}
