/** Powers of two, and the population count the filter uses to recognise them. */
module Powers {

  /** 2 raised to the power e. */
  function Pow2(e: nat): (r: nat)
    ensures r >= 1
  {
    if e == 0 then 1 else 2 * Pow2(e - 1)
  }

  /** n is a positive power of two: 1, 2, 4, 8, ... */
  predicate IsPow2(n: int)
  {
    if n < 1 then false
    else if n == 1 then true
    else n % 2 == 0 && IsPow2(n / 2)
  }

  /** The number of one bits in the binary representation of n
      (Go's bits.OnesCount applied to a non-negative value). */
  function OnesCount(n: nat): nat
  {
    if n == 0 then 0 else n % 2 + OnesCount(n / 2)
  }

  /** The exponent of a power of two. */
  function Log2(n: int): (e: nat)
    requires IsPow2(n)
    ensures Pow2(e) == n
  {
    if n == 1 then 0 else 1 + Log2(n / 2)
  }

  lemma {:induction false} Pow2IsPow2(e: nat)
    ensures IsPow2(Pow2(e))
  {
    if e > 0 {
      Pow2IsPow2(e - 1);
      assert Pow2(e) / 2 == Pow2(e - 1);
    }
  }

  lemma {:induction false} OnesCountZero(n: nat)
    ensures OnesCount(n) == 0 <==> n == 0
  {
    if n > 0 && n % 2 == 0 {
      OnesCountZero(n / 2);
    }
  }

  /** A non-negative number has exactly one bit set iff it is a power of two:
      the test `OnesCount(n) == 1` the filter performs is a power-of-two test. */
  lemma {:induction false} OnesCountIsPow2(n: nat)
    ensures OnesCount(n) == 1 <==> IsPow2(n)
  {
    if n >= 2 {
      if n % 2 == 0 {
        OnesCountIsPow2(n / 2);
      } else {
        OnesCountZero(n / 2);
      }
    }
  }

  lemma {:induction false} PowMonotone(a: nat, b: nat)
    requires a <= b
    ensures Pow2(a) <= Pow2(b)
  {
    if a < b {
      PowMonotone(a, b - 1);
    }
  }

  /** Multiplying a power of two by eight (bytes to bits) gives a power of two. */
  lemma TimesEightIsPow2(n: int)
    requires IsPow2(n)
    ensures IsPow2(n * 8) && Log2(n * 8) == Log2(n) + 3
  {
    assert (n * 8) / 2 == n * 4;
    assert (n * 4) / 2 == n * 2;
    assert (n * 2) / 2 == n;
    assert Log2(n * 2) == 1 + Log2(n);
    assert Log2(n * 4) == 1 + Log2(n * 2);
    assert Log2(n * 8) == 1 + Log2(n * 4);
  }

  /** Division is determined by quotient and remainder. */
  lemma DivMod(a: int, b: int, q: int, r: int)
    requires b >= 1 && 0 <= r < b && a == b * q + r
    ensures a / b == q && a % b == r
  {
    var q', r' := a / b, a % b;
    assert a == b * q' + r';
    var d := q' - q;
    Distrib(b, q', q);
    assert b * d == r - r';
    if d >= 1 {
      MulAtLeast(b, d);
    } else if d <= -1 {
      MulAtLeast(b, -d);
      Distrib(b, q, q');
    }
  }

  lemma Distrib(b: int, x: int, y: int)
    ensures b * x - b * y == b * (x - y)
  {
  }

  lemma MulAtLeast(b: int, d: int)
    requires b >= 1 && d >= 1
    ensures b * d >= b
  {
  }

  /** Dividing by b and then by 2 is dividing by 2b. */
  lemma DivDiv(a: nat, b: nat)
    requires b >= 1
    ensures (a / b) / 2 == a / (b * 2)
  {
    var q, r := a / (b * 2), a % (b * 2);
    var t, u := r / b, r % b;
    assert a == (b * 2) * q + r;
    assert r == b * t + u;
    if t >= 2 {
      MulAtLeast(b, t - 1);
      Distrib(b, t, 1);
    }
    assert 0 <= t < 2;
    Twice(b, q);
    Distrib(b, 2 * q + t, t);
    assert a == b * (2 * q + t) + u;
    DivMod(a, b, 2 * q + t, u);
    DivMod(2 * q + t, 2, q, t);
  }

  lemma Twice(b: int, q: int)
    ensures (b * 2) * q == b * (2 * q)
  {
  }
}
