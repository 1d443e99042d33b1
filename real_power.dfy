/**
 * Natural powers of reals, and an exact description of `x ** 2.4`.
 *
 * Dafny has no real exponentiation, so the upper branch of the sRGB transfer
 * function is handed to the luminance model as a function parameter.
 * `IsPow24` pins that parameter down completely on the non-negative reals:
 * since 2.4 = 12/5, y = x ** 2.4 is the unique non-negative y with
 * y^5 = x^12.  Everything the model proves about the upper branch follows
 * from this characterisation alone.
 */
module RealPower {

  /** x raised to the natural power n. */
  function Pow(x: real, n: nat): real
  {
    if n == 0 then 1.0 else x * Pow(x, n - 1)
  }

  lemma {:induction false} PowNonNegative(x: real, n: nat)
    requires 0.0 <= x
    ensures 0.0 <= Pow(x, n)
  {
    if n > 0 {
      PowNonNegative(x, n - 1);
    }
  }

  lemma {:induction false} PowPositive(x: real, n: nat)
    requires 0.0 < x
    ensures 0.0 < Pow(x, n)
  {
    if n > 0 {
      PowPositive(x, n - 1);
    }
  }

  lemma {:induction false} PowOfOne(n: nat)
    ensures Pow(1.0, n) == 1.0
  {
    if n > 0 {
      PowOfOne(n - 1);
    }
  }

  lemma {:induction false} PowOfZero(n: nat)
    requires 0 < n
    ensures Pow(0.0, n) == 0.0
  {
  }

  /** On the non-negative reals a positive power is strictly increasing. */
  lemma {:induction false} PowStrictlyIncreasing(x: real, y: real, n: nat)
    requires 0.0 <= x < y
    requires 0 < n
    ensures Pow(x, n) < Pow(y, n)
  {
    if n > 1 {
      PowStrictlyIncreasing(x, y, n - 1);
      PowNonNegative(x, n - 1);
      assert x * Pow(x, n - 1) <= x * Pow(y, n - 1);
      assert x * Pow(y, n - 1) < y * Pow(y, n - 1);
    }
  }

  /** Hence comparing positive powers of non-negative reals compares the reals. */
  lemma PowOrder(x: real, y: real, n: nat)
    requires 0.0 <= x && 0.0 <= y
    requires 0 < n
    ensures x < y <==> Pow(x, n) < Pow(y, n)
    ensures x == y <==> Pow(x, n) == Pow(y, n)
  {
    if x < y {
      PowStrictlyIncreasing(x, y, n);
    } else if y < x {
      PowStrictlyIncreasing(y, x, n);
    }
  }

  /** `p` is the function x ↦ x ** 2.4 on the non-negative reals. */
  ghost predicate IsPow24(p: real -> real)
  {
    forall x: real :: 0.0 <= x ==> 0.0 <= p(x) && Pow(p(x), 5) == Pow(x, 12)
  }

  /** x ** 2.4 is strictly increasing, hence injective, on [0, ∞). */
  lemma Pow24Order(p: real -> real, x: real, y: real)
    requires IsPow24(p)
    requires 0.0 <= x && 0.0 <= y
    ensures x < y <==> p(x) < p(y)
    ensures x == y <==> p(x) == p(y)
  {
    PowOrder(x, y, 12);
    PowOrder(p(x), p(y), 5);
  }

  /** 0 ** 2.4 == 0 and 1 ** 2.4 == 1. */
  lemma Pow24Ends(p: real -> real)
    requires IsPow24(p)
    ensures p(0.0) == 0.0
    ensures p(1.0) == 1.0
  {
    PowOfZero(12);
    PowOfZero(5);
    PowOrder(p(0.0), 0.0, 5);
    PowOfOne(12);
    PowOfOne(5);
    PowOrder(p(1.0), 1.0, 5);
  }

  /** x ** 2.4 maps [0, 1] into [0, 1] and (0, ∞) into (0, ∞). */
  lemma Pow24Range(p: real -> real, x: real)
    requires IsPow24(p)
    requires 0.0 <= x
    ensures 0.0 <= p(x)
    ensures 0.0 < x ==> 0.0 < p(x)
    ensures x <= 1.0 ==> p(x) <= 1.0
  {
    Pow24Ends(p);
    Pow24Order(p, 0.0, x);
    Pow24Order(p, x, 1.0);
  }
}
