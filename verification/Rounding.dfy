/** Rationals rounded: toward zero, up, and half to even to so many places (core/crates/objectflow-core/src/rat.rs). */
module Rounding {
  import opened Wrappers
  import opened Divisors
  import opened Rationals

  /** Toward zero: the integer of the value's sign at most it in magnitude, and within one of it. */
  function Trunc(r: Rat): (t: I128)
    requires r.d > 0
    ensures t != 0 ==> (t > 0 <==> r.n > 0)
    ensures Abs(t) * r.d <= Abs(r.n) < (Abs(t) + 1) * r.d
  {
    Smaller2(Abs(r.n), r.d);
    var m: int := r.n;
    if m < 0 then -(-m / r.d) else m / r.d
  }

  lemma Smaller2(m: nat, d: int)
    requires d > 0
    ensures 0 <= m / d <= m && m / d * d <= m < (m / d + 1) * d
  {
    assert m == d * (m / d) + m % d;
    Monotone(m / d, 1, d);
  }

  /** The least integer at least a value. It turns the numerator's sign, so it answers for every value but one whose
      numerator is the least a 128-bit integer holds, which has no opposite. */
  function Ceil(r: Rat): (c: Option<I128>)
    requires r.d > 0
    ensures c.Some? <==> r.n != LEAST
    ensures c.Some? ==> (c.value - 1) * r.d < r.n <= c.value * r.d
  {
    var m: int := r.n;
    var turned := -m;
    if !Fits(turned) then None
    else
      Smaller(turned, r.d);
      assert turned == r.d * (turned / r.d) + turned % r.d;
      var q: int := turned / r.d;
      CeilFits(m, r.d, q);
      Some(-q)
  }

  lemma CeilFits(m: int, d: int, q: int)
    requires d > 0 && Fits(m) && Fits(-m) && q == -m / d
    ensures Fits(-q) && (-q - 1) * d < m <= -q * d
  {
    assert -m == d * q + (-m) % d;
    assert -q * d == -(d * q);
    if q == LEAST {
      Monotone(-q, 1, d);
    }
  }

  // half to even

  function PowerOfTen(n: nat): (p: nat)
    ensures p > 0
  {
    if n == 0 then 1 else 10 * PowerOfTen(n - 1)
  }

  /** The integer nearest to s / d, the even one where two are. */
  predicate Nearest(v: int, s: int, d: int) {
    -d <= 2 * (v * d - s) <= d && (2 * (v * d - s) == d || 2 * (v * d - s) == -d ==> v % 2 == 0)
  }

  /** Rounded half to even to so many decimal places, as units of that scale: it answers where the scale, the value at that
      scale and twice its remainder fit, and its `floor + 1` always does. */
  method HalfEven(r: Rat, places: nat) returns (v: Option<I128>)
    requires r.d > 0 && places < 256
    ensures v.Some? <==> Fits(PowerOfTen(places)) && Fits(r.n * PowerOfTen(places))
                         && Fits(2 * (r.n * PowerOfTen(places) % r.d))
    ensures v.Some? ==> Nearest(v.value, r.n * PowerOfTen(places), r.d)
  {
    var scale := Checked(PowerOfTen(places));
    if scale.None? {
      return None;
    }
    var scaled := Checked(r.n * scale.value);
    if scaled.None? {
      return None;
    }
    Smaller(scaled.value, r.d);
    var floor: I128 := scaled.value / r.d;
    var rest: I128 := scaled.value % r.d;
    var twice := Checked(2 * rest);
    if twice.None? {
      return None;
    }
    assert scaled.value == r.d * floor + rest;
    Rounded(scaled.value, r.d, floor, rest);
    if twice.value > r.d || (twice.value == r.d && floor % 2 == 1) {
      var next: I128 := floor + 1;
      return Some(next);
    }
    return Some(floor);
  }

  lemma Rounded(s: int, d: int, f: int, rest: int)
    requires d > 0 && Fits(s) && Fits(f) && s == d * f + rest && 0 <= rest < d
    ensures 2 * rest <= d ==> (2 * rest == d ==> f % 2 == 0) ==> Nearest(f, s, d)
    ensures 2 * rest > d || (2 * rest == d && f % 2 == 1) ==> Fits(f + 1) && Nearest(f + 1, s, d)
  {
    assert f * d == d * f;
    assert (f + 1) * d == d * f + d;
    if 2 * rest >= d {
      HalfFits(s, d, f);
    }
  }

  lemma HalfFits(s: int, d: int, f: int)
    requires d >= 1 && Fits(s) && Fits(f) && d * f <= s && s != d * f
    ensures Fits(f + 1)
  {
    if f >= 0 {
      Monotone(f, 1, d);
    }
  }

  /** At most one integer is nearest. */
  lemma NearestUnique(v: int, w: int, s: int, d: int)
    requires d > 0 && Nearest(v, s, d) && Nearest(w, s, d)
    ensures v == w
  {
    NearestMonotone(v, s, d, w, s, d);
    NearestMonotone(w, s, d, v, s, d);
  }

  /** Of a value at most another, the nearest is at most the other's. */
  lemma NearestMonotone(v: int, s: int, d: int, w: int, t: int, e: int)
    requires d > 0 && e > 0 && Nearest(v, s, d) && Nearest(w, t, e) && s * e <= t * d
    ensures v <= w
  {
    assert (2 * v - 1) * d <= 2 * s;
    assert 2 * t <= (2 * w + 1) * e;
    Scaled((2 * v - 1) * d, 2 * s, e);
    Scaled(2 * t, (2 * w + 1) * e, d);
    assert (2 * v - 1) * d * e == (2 * v - 1) * (d * e);
    assert (2 * w + 1) * e * d == (2 * w + 1) * (d * e) by {
      assert e * d == d * e;
    }
    assert 2 * s * e == 2 * (s * e) && 2 * t * d == 2 * (t * d);
    AtMost(2 * v - 1, 2 * w + 1, d * e);
    if v == w + 1 {
      // each is half way, so both are even
      Between((2 * v - 1) * d * e, 2 * s * e, 2 * t * d, (2 * w + 1) * e * d);
      Halfway((2 * v - 1) * d, 2 * s, e);
      Halfway((2 * w + 1) * e, 2 * t, d);
      HalfwayEven(v, s, d, w, t, e);
    }
  }

  lemma HalfwayEven(v: int, s: int, d: int, w: int, t: int, e: int)
    requires Nearest(v, s, d) && Nearest(w, t, e) && (2 * v - 1) * d == 2 * s && (2 * w + 1) * e == 2 * t
    ensures v % 2 == 0 && w % 2 == 0
  {
    assert 2 * (v * d - s) == d && 2 * (w * e - t) == -e;
  }

  lemma Scaled(a: int, b: int, k: int)
    requires a <= b && k > 0
    ensures a * k <= b * k
  {
  }

  lemma AtMost(a: int, b: int, k: int)
    requires k > 0 && a * k <= b * k
    ensures a <= b
  {
    if a > b {
      Monotone(k, b + 1, a);
    }
  }

  lemma Between(a: int, b: int, c: int, d: int)
    requires a <= b <= c <= d && a == d
    ensures a == b == c == d
  {
  }

  lemma Halfway(a: int, b: int, k: int)
    requires k > 0 && a * k == b * k
    ensures a == b
  {
    Cancel(k, a, b);
  }

  /** The nearest to the opposite is the opposite of the nearest. */
  lemma NearestOdd(v: int, s: int, d: int)
    requires Nearest(v, s, d)
    ensures Nearest(-v, -s, d)
  {
    assert -v * d == -(v * d);
  }

  /** Rounded, a value at most another is at most it. */
  lemma RoundingIsMonotone(a: Rat, b: Rat, places: nat, v: int, w: int)
    requires a.d > 0 && b.d > 0 && a.n * b.d <= b.n * a.d
    requires Nearest(v, a.n * PowerOfTen(places), a.d) && Nearest(w, b.n * PowerOfTen(places), b.d)
    ensures v <= w
  {
    var p := PowerOfTen(places);
    Scaled(a.n * b.d, b.n * a.d, p);
    assert a.n * p * b.d == a.n * b.d * p;
    assert b.n * p * a.d == b.n * a.d * p;
    NearestMonotone(v, a.n * p, a.d, w, b.n * p, b.d);
  }
}
