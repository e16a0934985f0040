/**
 * Exact decimal arithmetic as Python's `Decimal` does it for this program: a value is carried as an
 * integer number of units of 10^-scale, and `quantize(..., rounding=ROUND_HALF_UP)` rounds it to
 * fewer places, sending exact halves away from zero.
 */
module Decimals {
  import opened Common

  function Pow10(n: nat): (r: nat)
    ensures r >= 1
    ensures n >= 1 ==> r % 2 == 0 && r >= 10
  {
    if n == 0 then 1 else 10 * Pow10(n - 1)
  }

  /** `r * d` is a multiple of `d` nearest to `u`; on an exact tie it is the one farther from zero. */
  ghost predicate IsHalfUpRounding(u: int, d: int, r: int)
  {
    && 2 * Abs(r * d - u) <= d
    && (2 * Abs(r * d - u) == d ==> Abs(r * d) > Abs(u))
  }

  /** Round-half-up division of `u` by the even divisor `d` (a power of ten of at least 10). */
  function RoundHalfUp(u: int, d: nat): (r: int)
    requires d >= 2 && d % 2 == 0
    ensures IsHalfUpRounding(u, d, r)
  {
    if u >= 0 then RoundHalfUpNat(u, d)
    else
      var m: int := RoundHalfUpNat(-u, d);
      NegMul(m, d);
      -m
  }

  lemma NegMul(m: int, d: int)
    ensures (-m) * d == -(m * d)
  {
  }

  /** Rounds the magnitude `u / d` up exactly when the remainder is at least half of `d`. */
  function RoundHalfUpNat(u: nat, d: nat): (r: nat)
    requires d >= 2 && d % 2 == 0
    ensures 2 * Abs(r * d - u) <= d
    ensures 2 * Abs(r * d - u) == d ==> r * d > u
  {
    var q, m := u / d, u % d;
    DivMod(u, d);
    Distrib(q, d);
    if 2 * m >= d then q + 1 else q
  }

  /**
   * `Decimal(units / 10^scale).quantize(Decimal(10^-places), rounding=ROUND_HALF_UP)`, as a number of
   * units of 10^-places.
   */
  function QuantizeHalfUp(units: int, scale: nat, places: nat): (r: int)
    ensures scale <= places ==> r == units * Pow10(places - scale)
    ensures scale > places ==> IsHalfUpRounding(units, Pow10(scale - places), r)
  {
    if scale <= places then units * Pow10(places - scale)
    else RoundHalfUp(units, Pow10(scale - places))
  }

  /** Rounding half up is symmetric about zero: it rounds the magnitude and keeps the sign. */
  lemma {:induction false} QuantizeNegate(units: int, scale: nat, places: nat)
    ensures QuantizeHalfUp(-units, scale, places) == -QuantizeHalfUp(units, scale, places)
  {
    if scale > places {
      var d := Pow10(scale - places);
      if units > 0 {
        assert RoundHalfUp(-units, d) == -(RoundHalfUpNat(units, d) as int);
      } else if units < 0 {
        assert RoundHalfUp(units, d) == -(RoundHalfUpNat(-units, d) as int);
      }
    }
  }

  /** Quantizing never reverses the order of two values. */
  lemma {:induction false} QuantizeMonotone(u: int, v: int, scale: nat, places: nat)
    requires u <= v
    ensures QuantizeHalfUp(u, scale, places) <= QuantizeHalfUp(v, scale, places)
  {
    if scale > places {
      var d := Pow10(scale - places);
      if 0 <= u {
        RoundHalfUpNatMonotone(u, v, d);
      } else if v < 0 {
        RoundHalfUpNatMonotone(-v, -u, d);
      }
    } else {
      MulMono(u, v, Pow10(places - scale));
    }
  }

  /** A value that already has `places` decimal places is left as it is. */
  lemma {:induction false} QuantizeExact(k: int, scale: nat, places: nat)
    requires scale >= places
    ensures QuantizeHalfUp(k * Pow10(scale - places), scale, places) == k
  {
    var d := Pow10(scale - places);
    if scale > places {
      if k >= 0 {
        MulDiv(k, d);
      } else {
        MulDiv(-k, d);
        assert -(k * d) == (-k) * d;
      }
    }
  }

  lemma {:induction false} RoundHalfUpNatMonotone(u: nat, v: nat, d: nat)
    requires d >= 2 && d % 2 == 0 && u <= v
    ensures RoundHalfUpNat(u, d) <= RoundHalfUpNat(v, d)
  {
    RoundHalfUpNatAsDiv(u, d);
    RoundHalfUpNatAsDiv(v, d);
    DivMono(u + d / 2, v + d / 2, d);
  }

  lemma {:induction false} RoundHalfUpNatAsDiv(u: nat, d: nat)
    requires d >= 2 && d % 2 == 0
    ensures RoundHalfUpNat(u, d) == (u + d / 2) / d
  {
    var q, m := u / d, u % d;
    DivMod(u, d);
    Distrib(q, d);
    DivMod(u + d / 2, d);
    var q2 := (u + d / 2) / d;
    if q2 > q + (if 2 * m >= d then 1 else 0) {
      MulMono(q + 2, q2, d);
      Distrib(q + 1, d);
      MulMono(q + 1, q2, d);
    } else if q2 < q + (if 2 * m >= d then 1 else 0) {
      MulMono(q2 + 1, q + (if 2 * m >= d then 1 else 0), d);
      Distrib(q2, d);
      MulMono(q2 + 1, q, d);
    }
  }

  lemma {:induction false} MulDiv(k: nat, d: nat)
    requires d >= 2 && d % 2 == 0
    ensures RoundHalfUpNat(k * d, d) == k
  {
    DivMod(k * d, d);
    var q, m := (k * d) / d, (k * d) % d;
    if q < k {
      MulMono(q + 1, k, d);
      Distrib(q, d);
    } else if q > k {
      MulMono(k + 1, q, d);
      Distrib(k, d);
    }
  }

  lemma MulMono(a: int, b: int, d: int)
    requires a <= b && d >= 0
    ensures a * d <= b * d
  {
  }

  lemma Distrib(q: int, d: int)
    ensures (q + 1) * d == q * d + d
  {
  }

  lemma DivMod(u: int, d: int)
    requires d > 0
    ensures u == (u / d) * d + u % d && 0 <= u % d < d
  {
  }

  lemma {:induction false} DivMono(a: int, b: int, d: int)
    requires d > 0 && a <= b
    ensures a / d <= b / d
  {
    var qa, qb := a / d, b / d;
    DivMod(a, d);
    DivMod(b, d);
    if qa > qb {
      MulMono(qb + 1, qa, d);
      Distrib(qb, d);
    }
  }
}
