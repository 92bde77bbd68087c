/** Money arithmetic. Every `Decimal(10,2)` amount is an integer number of
    cents; a decimal with more places is an integer at a stated scale.
    `round(x, 2)` on a Python `Decimal` uses the context rounding mode,
    ROUND_HALF_EVEN by default. */
module Money {

  function Pow10(k: nat): (r: nat)
    ensures r >= 1
  {
    if k == 0 then 1 else 10 * Pow10(k - 1)
  }

  /** `n / d` rounded to the nearest integer, a tie going to the even
      neighbour. The contract is the definition of that rounding: the error
      is at most half of `d`, and exactly half only when the result is even. */
  function RoundHalfEven(n: int, d: int): (q: int)
    requires d > 0
    ensures -d <= 2 * (n - d * q) <= d
    ensures (2 * (n - d * q) == d || 2 * (n - d * q) == -d) ==> q % 2 == 0
  {
    var q0, r := n / d, n % d;
    assert n - d * q0 == r;
    assert n - d * (q0 + 1) == r - d;
    if 2 * r < d then q0
    else if 2 * r > d then q0 + 1
    else if q0 % 2 == 0 then q0
    else assert (q0 + 1) % 2 == 0; q0 + 1
  }

  lemma {:induction false} MulAtLeast(d: int, t: int)
    requires d > 0 && t >= 1
    ensures d * t >= d
    decreases t
  {
    if t > 1 {
      MulAtLeast(d, t - 1);
      assert d * t == d * (t - 1) + d;
    }
  }

  lemma MulGap(d: int, a: int, b: int)
    requires d > 0 && a >= b + 1
    ensures d * a >= d * b + d
  {
    MulAtLeast(d, a - b);
    assert d * a == d * b + d * (a - b);
  }

  lemma MulCancel(d: int, a: int, b: int)
    requires d > 0 && d * a == d * b + d
    ensures a == b + 1
  {
    if a >= b + 2 {
      MulGap(d, a, b + 1);
    } else if a <= b {
      if a < b { MulGap(d, b, a); }
    }
  }

  /** The half-even rounding is the only integer meeting its contract. */
  lemma {:induction false} RoundHalfEvenUnique(n: int, d: int, q: int)
    requires d > 0
    requires -d <= 2 * (n - d * q) <= d
    requires (2 * (n - d * q) == d || 2 * (n - d * q) == -d) ==> q % 2 == 0
    ensures RoundHalfEven(n, d) == q
  {
    var p := RoundHalfEven(n, d);
    if q >= p + 1 {
      MulGap(d, q, p);
      MulCancel(d, q, p);
      assert false;
    } else if p >= q + 1 {
      MulGap(d, p, q);
      MulCancel(d, p, q);
      assert false;
    }
  }

  /** Rounding an exact multiple gives the quotient back. */
  lemma RoundHalfEvenExact(k: int, d: int)
    requires d > 0
    ensures RoundHalfEven(d * k, d) == k
  {
    RoundHalfEvenUnique(d * k, d, k);
  }

  /** Rounding is bounded by the bounds of the exact quotient. */
  lemma {:induction false} RoundHalfEvenBetween(n: int, d: int, lo: int, hi: int)
    requires d > 0
    requires d * lo <= n <= d * hi
    ensures lo <= RoundHalfEven(n, d) <= hi
  {
    var q := RoundHalfEven(n, d);
    if q < lo {
      MulGap(d, lo, q);
    }
    if q > hi {
      MulGap(d, q, hi);
    }
  }

  /** `round(x, 2)` in cents, for a decimal `x` held as the integer `amount`
      with `scale` decimal places (`scale >= 2`). */
  function RoundCents(amount: int, scale: nat): (c: int)
    requires scale >= 2
  {
    RoundHalfEven(amount, Pow10(scale - 2))
  }

  /** A value already in whole cents is left unchanged by `round(·, 2)`. */
  lemma RoundCentsOfCents(c: int)
    ensures RoundCents(c, 2) == c
  {
    RoundHalfEvenExact(c, 1);
  }

  lemma MulMonotone(a: int, b: int, c: int)
    requires a >= 0 && b <= c
    ensures a * b <= a * c
  {
    assert a * c - a * b == a * (c - b);
  }
}
