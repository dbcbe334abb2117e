/** Common divisors, Bezout's identity and lowest terms: what the rationals' arithmetic rests on. */
module Divisors {
  ghost predicate Divides(k: int, x: int) {
    exists q: int :: x == k * q
  }

  /** No common divisor but one. */
  ghost predicate Coprime(a: int, b: int) {
    forall k: int | k > 0 && Divides(k, a) && Divides(k, b) :: k == 1
  }

  function Gcd(a: nat, b: nat): (g: nat)
    ensures a > 0 || b > 0 ==> g > 0
    decreases b
  {
    if b == 0 then a else Gcd(b, a % b)
  }

  function Abs(x: int): nat {
    if x < 0 then -x else x
  }

  /** The greatest common divisor is a sum of multiples of the two, and divides both. */
  lemma {:induction false} Bezout(a: nat, b: nat) returns (x: int, y: int)
    ensures a * x + b * y == Gcd(a, b)
    ensures Divides(Gcd(a, b), a) && Divides(Gcd(a, b), b)
    decreases b
  {
    if b == 0 {
      x, y := 1, 0;
      assert a == a * 1 && b == a * 0;
    } else {
      var u, v := Bezout(b, a % b);
      var q := a / b;
      x, y := v, u - q * v;
      assert a == b * q + a % b;
      Rearrange(a, b, q, a % b, u, v);
      var g := Gcd(b, a % b);
      var s: int :| b == g * s;
      var t: int :| a % b == g * t;
      assert a == g * (s * q + t) by {
        Distribute(g, s, q, t);
      }
    }
  }

  lemma Rearrange(a: int, b: int, q: int, r: int, u: int, v: int)
    requires a == b * q + r
    ensures a * v + b * (u - q * v) == b * u + r * v
  {
    assert a * v == (b * q + r) * v == b * q * v + r * v;
    assert b * (u - q * v) == b * u - b * (q * v);
    assert b * q * v == b * (q * v);
  }

  lemma Distribute(g: int, s: int, q: int, t: int)
    ensures g * (s * q + t) == g * s * q + g * t
  {
    assert g * (s * q) == g * s * q;
  }

  /** Of two numbers that a sum of multiples makes one, nothing divides both. */
  lemma CoprimeByBezout(a: int, b: int, x: int, y: int)
    requires a * x + b * y == 1
    ensures Coprime(a, b)
  {
    forall k: int | k > 0 && Divides(k, a) && Divides(k, b)
      ensures k == 1
    {
      var s: int :| a == k * s;
      var t: int :| b == k * t;
      assert k * (s * x + t * y) == 1 by {
        assert k * (s * x) == a * x;
        assert k * (t * y) == b * y;
        Split(k, s * x, t * y);
      }
      OneFactor(k, s * x + t * y);
    }
  }

  lemma Split(k: int, a: int, b: int)
    ensures k * (a + b) == k * a + k * b
  {
  }

  lemma OneFactor(k: int, m: int)
    requires k > 0 && k * m == 1
    ensures k == 1
  {
    if m >= 1 {
      Monotone(k, 1, m);
    } else {
      Monotone(k, m, 0);
    }
  }

  lemma Monotone(k: int, a: int, b: int)
    requires k >= 0 && a <= b
    ensures k * a <= k * b
  {
  }

  lemma GcdOfCoprime(a: nat, b: nat)
    requires Coprime(a, b) && (a > 0 || b > 0)
    ensures Gcd(a, b) == 1
  {
    var x, y := Bezout(a, b);
  }

  lemma SignsDivide(k: int, x: int)
    ensures Divides(k, x) <==> Divides(k, -x)
  {
    if Divides(k, x) {
      var q: int :| x == k * q;
      assert -x == k * (-q);
    }
    if Divides(k, -x) {
      var q: int :| -x == k * q;
      assert x == k * (-q);
    }
  }

  /** Divided by their greatest common divisor, two numbers have none. */
  lemma LowestTerms(n: int, d: int, g: nat)
    requires d > 0 && g == Gcd(Abs(n), d)
    ensures g > 0 && Divides(g, n) && Divides(g, d) && Coprime(n / g, d / g)
    ensures n == g * (n / g) && d == g * (d / g) && d / g > 0
  {
    var x, y := Bezout(Abs(n), d);
    SignsDivide(g, n);
    var x' := if n < 0 then -x else x;
    assert n * x' == Abs(n) * x;
    var s: int :| n == g * s;
    var t: int :| d == g * t;
    Quotient(n, g, s);
    Quotient(d, g, t);
    PositiveFactor(g, t);
    BezoutReduced(n, x', d, y, g, s, t);
    CoprimeByBezout(s, t, x', y);
  }

  lemma PositiveFactor(g: int, t: int)
    requires g > 0 && g * t > 0
    ensures t > 0
  {
    if t <= 0 {
      Monotone(g, t, 0);
    }
  }

  lemma BezoutReduced(n: int, x: int, d: int, y: int, g: int, s: int, t: int)
    requires g > 0 && n * x + d * y == g && n == g * s && d == g * t
    ensures s * x + t * y == 1
  {
    assert g * (s * x) == n * x && g * (t * y) == d * y;
    Split(g, s * x, t * y);
    Cancel(g, s * x + t * y, 1);
  }

  lemma Quotient(n: int, g: int, s: int)
    requires g > 0 && n == g * s
    ensures n / g == s
  {
    Cancel2(g, n / g, s, n % g);
  }

  lemma Cancel2(g: int, a: int, b: int, r: int)
    requires g > 0 && 0 <= r < g && g * a + r == g * b
    ensures a == b
  {
    assert g * (b - a) == r;
    if b - a >= 1 {
      Monotone(g, 1, b - a);
    } else if b - a <= -1 {
      Monotone(g, b - a, -1);
    }
  }

  lemma Cancel(g: int, a: int, b: int)
    requires g > 0 && g * a == g * b
    ensures a == b
  {
    Cancel2(g, a, b, 0);
  }

  /** What divides a product and shares nothing with one factor divides the other. */
  lemma Euclid(d: int, n: int, m: int)
    requires d > 0 && Coprime(n, d) && Divides(d, n * m)
    ensures Divides(d, m)
  {
    CoprimeAbs(n, d);
    GcdOfCoprime(Abs(n), d);
    var x, y := Bezout(Abs(n), d);
    var x' := if n < 0 then -x else x;
    assert n * x' == Abs(n) * x;
    var q: int :| n * m == d * q;
    BezoutScaled(n, x', d, y, m, q);
  }

  lemma BezoutScaled(n: int, x: int, d: int, y: int, m: int, q: int)
    requires n * x + d * y == 1 && n * m == d * q
    ensures m == d * (q * x + y * m)
  {
    Spread(n, x, d, y, m);
    assert (n * x + d * y) * m == m;
    assert n * m * x == d * q * x;
    Distribute(d, q, x, y * m);
    assert d * (y * m) == d * y * m;
  }

  lemma Spread(n: int, x: int, d: int, y: int, m: int)
    ensures (n * x + d * y) * m == n * m * x + d * y * m
  {
    assert (n * x + d * y) * m == n * x * m + d * y * m;
    assert n * x * m == n * m * x;
  }

  lemma CoprimeAbs(n: int, d: int)
    requires Coprime(n, d)
    ensures Coprime(Abs(n), d)
  {
    forall k: int | k > 0 && Divides(k, Abs(n)) && Divides(k, d)
      ensures k == 1
    {
      SignsDivide(k, n);
    }
  }

  /** Two fractions in lowest terms of one value are one fraction. */
  lemma LowestTermsUnique(n: int, d: int, m: int, e: int)
    requires d > 0 && e > 0 && Coprime(n, d) && Coprime(m, e) && n * e == m * d
    ensures n == m && d == e
  {
    assert n * e == d * m;
    Euclid(d, n, e);
    assert m * d == e * n;
    Euclid(e, m, d);
    var q: int :| e == d * q;
    var r: int :| d == e * r;
    assert d * (q * r) == d by {
      assert d * q * r == d * (q * r);
    }
    Cancel(d, q * r, 1);
    PositiveFactor(d, q);
    OneFactor(q, r);
    assert e == d;
    Cancel(d, n, m);
  }
}
