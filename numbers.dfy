/**
 * Number handling shared by the calculators: the `parseFloat(x) || d`
 * coercion of form fields, `Math.min`/`Math.max`, and `Math.pow` with a
 * whole-number exponent.
 */
module Numbers {
  import opened Wrappers

  /**
   * `parseFloat(x) || d`: an empty or unparsable field (`None`, JavaScript's
   * NaN) and a field that parses to 0 are both falsy, so both become `d`.
   */
  function OrDefault(x: Option<real>, d: real): (r: real)
    ensures x.Some? && x.value != 0.0 ==> r == x.value
    ensures x.None? || x.value == 0.0 ==> r == d
  {
    if x.Some? && x.value != 0.0 then x.value else d
  }

  /** `parseFloat(x) || 0`. */
  function OrZero(x: Option<real>): real {
    OrDefault(x, 0.0)
  }

  /** `parseFloat(x) || 0` for a field holding a whole number of years. */
  function OrZeroYears(x: Option<nat>): nat {
    if x.Some? then x.value else 0
  }

  function Min(a: real, b: real): real { if a <= b then a else b }

  function Max(a: real, b: real): real { if a >= b then a else b }

  /** `Math.pow(x, n)` for a whole exponent. */
  function Pow(x: real, n: nat): real
    decreases n
  {
    if n == 0 then 1.0 else x * Pow(x, n - 1)
  }

  lemma {:induction false} PowPositive(x: real, n: nat)
    requires x > 0.0
    ensures Pow(x, n) > 0.0
    decreases n
  {
    if n > 0 {
      PowPositive(x, n - 1);
    }
  }

  lemma {:induction false} PowAtLeastOne(x: real, n: nat)
    requires x >= 1.0
    ensures Pow(x, n) >= 1.0
    decreases n
  {
    if n > 0 {
      PowAtLeastOne(x, n - 1);
      assert x * Pow(x, n - 1) >= 1.0 * Pow(x, n - 1);
    }
  }

  /** Multiplying both sides by a non-negative factor keeps the order. */
  lemma MulLeftMonotone(a: real, b: real, c: real)
    requires a >= 0.0 && b >= c
    ensures a * b >= a * c
  {
    assert a * b - a * c == a * (b - c);
  }

  /** Bernoulli's inequality. */
  lemma {:induction false} Bernoulli(x: real, n: nat)
    requires x >= 0.0
    ensures Pow(1.0 + x, n) >= 1.0 + (n as real) * x
    decreases n
  {
    if n > 0 {
      Bernoulli(x, n - 1);
      var p := Pow(1.0 + x, n - 1);
      var k := (n - 1) as real;
      assert Pow(1.0 + x, n) == p + x * p;
      MulLeftMonotone(x, p, 1.0 + k * x);
      assert x * (1.0 + k * x) == x + k * (x * x);
      MulLeftMonotone(k, x * x, 0.0);
      assert (n as real) * x == k * x + x;
    }
  }

  lemma {:induction false} PowAdd(x: real, a: nat, b: nat)
    ensures Pow(x, a + b) == Pow(x, a) * Pow(x, b)
    decreases a
  {
    if a > 0 {
      PowAdd(x, a - 1, b);
    }
  }

  lemma {:induction false} PowMonotone(x: real, m: nat, n: nat)
    requires x >= 1.0 && m <= n
    ensures Pow(x, m) <= Pow(x, n)
    decreases n - m
  {
    if m < n {
      PowMonotone(x, m, n - 1);
      PowAtLeastOne(x, n - 1);
      assert Pow(x, n) == x * Pow(x, n - 1) >= 1.0 * Pow(x, n - 1);
    }
  }

  /** `1 + x + ... + x^(n-1)`. */
  function GeomSum(x: real, n: nat): real
    decreases n
  {
    if n == 0 then 0.0 else GeomSum(x, n - 1) + Pow(x, n - 1)
  }

  /** The closed form of the geometric sum. */
  lemma {:induction false} GeomClosed(x: real, n: nat)
    ensures (x - 1.0) * GeomSum(x, n) == Pow(x, n) - 1.0
    decreases n
  {
    if n > 0 {
      GeomClosed(x, n - 1);
      assert Pow(x, n) == x * Pow(x, n - 1);
    }
  }

  /** Peeling the first term instead of the last. */
  lemma {:induction false} GeomShift(x: real, n: nat)
    requires n > 0
    ensures GeomSum(x, n) == 1.0 + x * GeomSum(x, n - 1)
    decreases n
  {
    if n > 1 {
      GeomShift(x, n - 1);
      assert Pow(x, n - 1) == x * Pow(x, n - 2);
    }
  }

  /** For `x >= 1` every term lies between 1 and `x^n`. */
  lemma {:induction false} GeomBounds(x: real, n: nat)
    requires x >= 1.0
    ensures (n as real) <= GeomSum(x, n) <= (n as real) * Pow(x, n)
    decreases n
  {
    if n > 0 {
      GeomBounds(x, n - 1);
      PowAtLeastOne(x, n - 1);
      PowMonotone(x, n - 1, n);
      MulLeftMonotone((n - 1) as real, Pow(x, n), Pow(x, n - 1));
    }
  }

  lemma {:induction false} PowAboveOne(x: real, n: nat)
    requires x > 1.0 && n > 0
    ensures Pow(x, n) > 1.0
    decreases n
  {
    PowAtLeastOne(x, n - 1);
    assert x * Pow(x, n - 1) > 1.0 * Pow(x, n - 1);
  }

  /** A common factor `m` cancels, and multiplying back by `g` undoes the division. */
  lemma CancelFactors(a: real, m: real, g: real)
    requires m != 0.0 && g != 0.0
    ensures (a * m) / (m * g) * g == a
  {
    assert (a * m) / (m * g) == a / g;
  }

  /** A positive factor common to both sides can be divided out. */
  lemma CancelPositive(a: real, b: real, c: real)
    requires c > 0.0 && a * c >= b * c
    ensures a >= b
  {
  }
}
