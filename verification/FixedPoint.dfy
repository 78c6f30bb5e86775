/**
 The fixed-point numbers the balance and the payout compute with: a 128-bit unsigned
 inner integer scaled by `DIV`. Every operation floors. The checked ones return `None`
 above `MAX`, the saturating ones clamp at `MAX`.
 */
module FixedPoint {
  import opened Wrappers

  const DIV: nat := 1_000_000_000_000_000_000

  const MAX: nat := 340_282_366_920_938_463_463_374_607_431_768_211_455

  type u128 = x: nat | x <= MAX

  function Fit(x: nat): Option<u128> {
    if x <= MAX then Some(x) else None
  }

  function Saturate(x: nat): u128 {
    if x <= MAX then x else MAX
  }

  function SaturatingFromInteger(n: u128): u128 {
    Saturate(n * DIV)
  }

  /** The integers the fixed-point type represents without clamping. */
  predicate InRange(n: nat) {
    n * DIV <= MAX
  }

  /** The price `n / d` as a fixed-point number. */
  function CheckedFromRational(n: u128, d: u128): Option<u128> {
    if d == 0 then None else Fit(n * DIV / d)
  }

  /** Dividing two fixed-point numbers is the ratio of their inner integers. */
  function CheckedDiv(a: u128, b: u128): Option<u128> {
    CheckedFromRational(a, b)
  }

  function CheckedMul(a: u128, b: u128): Option<u128> {
    Fit(a * b / DIV)
  }

  // ---------------------------------------------------------------------------
  // Flooring
  // ---------------------------------------------------------------------------

  /** Multiplying both sides of an inequality by the same factor. */
  lemma MulMono(a: int, b: int, c: nat)
    requires a <= b
    ensures a * c <= b * c
  {
    assert (b - a) * c >= 0;
  }

  /** `a / b` is the largest quotient that does not overshoot. */
  lemma Floor(a: nat, b: nat)
    requires b > 0
    ensures a / b * b <= a < a / b * b + b
    ensures 0 <= a / b <= a
  {
    assert a == a / b * b + a % b;
    MulMono(1, b, a / b);
  }

  /** A lower bound that multiplies out is a lower bound of the quotient. */
  lemma FloorAtLeast(a: nat, b: nat, q: nat)
    requires b > 0 && q * b <= a
    ensures q <= a / b
  {
    Floor(a, b);
    if a / b < q {
      MulMono(a / b + 1, q, b);
    }
  }

  /** An upper bound that multiplies out is an upper bound of the quotient. */
  lemma FloorAtMost(a: nat, b: nat, q: nat)
    requires b > 0 && a < q * b + b
    ensures a / b <= q
  {
    Floor(a, b);
    if q < a / b {
      MulMono(q + 1, a / b, b);
    }
  }

  lemma FloorMono(a: nat, a': nat, b: nat)
    requires b > 0 && a <= a'
    ensures a / b <= a' / b
  {
    Floor(a, b);
    FloorAtLeast(a', b, a / b);
  }

  /** Scaling by `d` and flooring by `d` cancel. */
  lemma FloorCancel(a: nat, d: nat)
    requires d > 0
    ensures a * d / d == a
  {
    FloorAtLeast(a * d, d, a);
    FloorAtMost(a * d, d, a);
  }

  lemma {:induction false} CancelLess(a: int, b: int, c: nat)
    requires a * c < b * c
    ensures a < b
  {
    if b <= a {
      MulMono(b, a, c);
    }
  }

  lemma {:induction false} MulLess(a: int, b: int, c: nat)
    requires a < b && c > 0
    ensures a * c < b * c
  {
    MulMono(a + 1, b, c);
    assert (a + 1) * c == a * c + c;
  }

  /** If `q` is `a / b` and `m` is `a * d / b`, then `m` lies in the `q`-th block of `d`. */
  lemma {:induction false} ScaledQuotient(a: nat, b: nat, d: nat, q: nat, m: nat)
    requires d > 0 && q * b <= a < (q + 1) * b && m * b <= a * d < (m + 1) * b
    ensures q * d <= m < (q + 1) * d
  {
    assert q * d * b < (m + 1) * b by {
      MulMono(q * b, a, d);
      MulSwap(q, b, d);
    }
    CancelLess(q * d, m + 1, b);
    assert m * b < (q + 1) * d * b by {
      MulLess(a, (q + 1) * b, d);
      MulSwap(q + 1, b, d);
    }
    CancelLess(m, (q + 1) * d, b);
  }

  /** Scaling before a division and back after it changes nothing. */
  lemma {:induction false} NestedFloor(a: nat, b: nat, d: nat)
    requires b > 0 && d > 0
    ensures a * d / b / d == a / b
  {
    Floor(a, b);
    Floor(a * d, b);
    ScaledQuotient(a, b, d, a / b, a * d / b);
    FloorAtLeast(a * d / b, d, a / b);
    FloorAtMost(a * d / b, d, a / b);
  }

  /** The three-factor product can be regrouped. */
  lemma MulSwap(a: int, b: int, c: int)
    ensures a * b * c == a * c * b
    ensures a * b * c == a * (b * c)
  {
  }
}
