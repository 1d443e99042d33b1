/**
 * `contrast_ratio` and the WCAG AA verdicts drawn from it.
 *
 * The Python function accepts either a hex string or a triple for each
 * colour and resolves strings with `hex_to_rgb`; here that is the sum type
 * `ColorArg` and the function `Resolve`.  The ratio itself is `Ratio`, the
 * "contrast ratio" of the WCAG 2.1 glossary.
 */
module Contrast {
  import opened Colors
  import opened RealPower
  import opened Luminance
  import opened Hex

  /** (lighter + 0.05) / (darker + 0.05). */
  function Ratio(l1: real, l2: real): real
    requires MinReal(l1, l2) + 0.05 != 0.0
  {
    (MaxReal(l1, l2) + 0.05) / (MinReal(l1, l2) + 0.05)
  }

  /** Comparing a quotient with k is comparing the numerator with k times the
      (positive) denominator. */
  lemma QuotientCompare(n: real, d: real, k: real)
    requires 0.0 < d
    ensures n / d >= k <==> n >= k * d
    ensures n / d <= k <==> n <= k * d
    ensures n / d == k <==> n == k * d
  {
    var q := n / d;
    assert q * d == n;
    if q >= k {
      assert q * d >= k * d;
    }
    if q <= k {
      assert q * d <= k * d;
    }
  }

  /** The ratio does not depend on the order of its arguments. */
  lemma RatioSymmetric(l1: real, l2: real)
    requires MinReal(l1, l2) + 0.05 != 0.0
    ensures Ratio(l1, l2) == Ratio(l2, l1)
  {
  }

  /** For luminances above -0.05 (in particular non-negative ones) the ratio
      is at least 1, and exactly 1 when the luminances are equal. */
  lemma RatioAtLeastOne(l1: real, l2: real)
    requires -0.05 < l1 && -0.05 < l2
    ensures 1.0 <= Ratio(l1, l2)
    ensures Ratio(l1, l2) == 1.0 <==> l1 == l2
  {
    var d := MinReal(l1, l2) + 0.05;
    var n := MaxReal(l1, l2) + 0.05;
    QuotientCompare(n, d, 1.0);
  }

  /** For luminances in [0, 1] the ratio is at most 21, reached only by 0 and 1. */
  lemma RatioAtMost21(l1: real, l2: real)
    requires 0.0 <= l1 <= 1.0 && 0.0 <= l2 <= 1.0
    ensures Ratio(l1, l2) <= 21.0
    ensures Ratio(l1, l2) == 21.0 <==> MinReal(l1, l2) == 0.0 && MaxReal(l1, l2) == 1.0
  {
    var d := MinReal(l1, l2) + 0.05;
    var n := MaxReal(l1, l2) + 0.05;
    QuotientCompare(n, d, 21.0);
  }

  /** WCAG 2.1 success criterion 1.4.3 for large text, and 1.4.11 for user
      interface components: at least 3:1. */
  predicate PassesLargeText(ratio: real)
  {
    ratio >= 3.0
  }

  /** WCAG 2.1 success criterion 1.4.3 for normal text: at least 4.5:1. */
  predicate PassesNormalText(ratio: real)
  {
    ratio >= 4.5
  }

  /** Passing the normal-text check implies passing the large-text check. */
  lemma NormalTextImpliesLargeText(ratio: real)
    ensures PassesNormalText(ratio) ==> PassesLargeText(ratio)
  {
  }

  /** The verdicts read directly on luminances, without the division. */
  lemma VerdictsOnLuminance(l1: real, l2: real)
    requires 0.0 <= l1 && 0.0 <= l2
    ensures PassesNormalText(Ratio(l1, l2))
            <==> MaxReal(l1, l2) + 0.05 >= 4.5 * (MinReal(l1, l2) + 0.05)
    ensures PassesLargeText(Ratio(l1, l2))
            <==> MaxReal(l1, l2) + 0.05 >= 3.0 * (MinReal(l1, l2) + 0.05)
  {
    var d := MinReal(l1, l2) + 0.05;
    var n := MaxReal(l1, l2) + 0.05;
    QuotientCompare(n, d, 4.5);
    QuotientCompare(n, d, 3.0);
  }

  /** An argument of `contrast_ratio`: a hex string or an RGB triple. */
  datatype ColorArg = HexString(text: string) | Triple(rgb: Rgb)

  /** The `isinstance(color, str)` step: strings go through `hex_to_rgb`. */
  function Resolve(color: ColorArg): (r: Result<Rgb>)
    ensures color.Triple? ==> r.Success?
    ensures r.Failure? ==> r.error.ValueError?
    ensures r.Success? && color.HexString? ==> InGamut(r.value)
  {
    match color
    case HexString(s) => HexToRgb(s)
    case Triple(c) => Success(c)
  }

  /** Luminance of a resolved colour (`rgb_to_luminance(*color)`). */
  function LuminanceOf(c: Rgb, pow24: real -> real): real
  {
    RgbToLuminance(c.r, c.g, c.b, pow24)
  }

  /** The arithmetic half of `contrast_ratio`, on resolved colours: a zero
      denominator raises ZeroDivisionError. */
  function RatioOf(c1: Rgb, c2: Rgb, pow24: real -> real): (r: Result<real>)
    ensures r.Failure? ==> r.error == ZeroDivisionError
    ensures IsPow24(pow24) && InGamut(c1) && InGamut(c2) ==> r.Success? && 1.0 <= r.value <= 21.0
  {
    RatioInRangeWhenValid(c1, c2, pow24);
    var lum1 := LuminanceOf(c1, pow24);
    var lum2 := LuminanceOf(c2, pow24);
    if MinReal(lum1, lum2) + 0.05 == 0.0 then Failure(ZeroDivisionError)
    else Success(Ratio(lum1, lum2))
  }

  /** `LuminanceRatioRange` for whatever `pow24` is, as an implication. */
  lemma RatioInRangeWhenValid(c1: Rgb, c2: Rgb, pow24: real -> real)
    ensures IsPow24(pow24) && InGamut(c1) && InGamut(c2) ==>
              var l1 := LuminanceOf(c1, pow24);
              var l2 := LuminanceOf(c2, pow24);
              0.0 < MinReal(l1, l2) + 0.05 && 1.0 <= Ratio(l1, l2) <= 21.0
  {
    if IsPow24(pow24) && InGamut(c1) && InGamut(c2) {
      LuminanceRatioRange(c1, c2, pow24);
    }
  }

  /** `contrast_ratio`: resolve both colours (the first failure is raised),
      then compute the ratio of their luminances. */
  function ContrastRatio(color1: ColorArg, color2: ColorArg, pow24: real -> real): (r: Result<real>)
    ensures r.Failure? ==> r.error.ValueError? || r.error == ZeroDivisionError
    ensures (r.Failure? && r.error.ValueError?) <==> Resolve(color1).Failure? || Resolve(color2).Failure?
    ensures Resolve(color1).Failure? ==> r == Failure(Resolve(color1).error)
    ensures && IsPow24(pow24)
            && Resolve(color1).Success? && InGamut(Resolve(color1).value)
            && Resolve(color2).Success? && InGamut(Resolve(color2).value)
            ==> r.Success? && 1.0 <= r.value <= 21.0
  {
    var c1 :- Resolve(color1);
    var c2 :- Resolve(color2);
    RatioOf(c1, c2, pow24)
  }

  lemma RatioOfSymmetric(c1: Rgb, c2: Rgb, pow24: real -> real)
    ensures RatioOf(c1, c2, pow24) == RatioOf(c2, c1, pow24)
  {
    var l1 := LuminanceOf(c1, pow24);
    var l2 := LuminanceOf(c2, pow24);
    if MinReal(l1, l2) + 0.05 != 0.0 {
      RatioSymmetric(l1, l2);
    }
  }

  /** Unless both colours fail to resolve (when the first one's error wins),
      the argument order does not matter. */
  lemma ContrastRatioSymmetric(color1: ColorArg, color2: ColorArg, pow24: real -> real)
    requires !(Resolve(color1).Failure? && Resolve(color2).Failure?)
    ensures ContrastRatio(color1, color2, pow24) == ContrastRatio(color2, color1, pow24)
  {
    if Resolve(color1).Success? && Resolve(color2).Success? {
      RatioOfSymmetric(Resolve(color1).value, Resolve(color2).value, pow24);
    }
  }

  /** The luminance-level facts behind `ContrastRatioRange`. */
  lemma LuminanceRatioRange(c1: Rgb, c2: Rgb, pow24: real -> real)
    requires IsPow24(pow24)
    requires InGamut(c1) && InGamut(c2)
    ensures var l1 := LuminanceOf(c1, pow24);
            var l2 := LuminanceOf(c2, pow24);
            && 0.0 < MinReal(l1, l2) + 0.05
            && 1.0 <= Ratio(l1, l2) <= 21.0
            && (Ratio(l1, l2) == 1.0 <==> l1 == l2)
            && (Ratio(l1, l2) == 21.0 <==> (c1 == Black && c2 == White) || (c1 == White && c2 == Black))
  {
    var l1 := LuminanceOf(c1, pow24);
    var l2 := LuminanceOf(c2, pow24);
    LuminanceRange(c1.r, c1.g, c1.b, pow24);
    LuminanceRange(c2.r, c2.g, c2.b, pow24);
    RatioAtLeastOne(l1, l2);
    RatioAtMost21(l1, l2);
  }

  /** Two resolvable 8-bit colours always give a ratio in [1, 21]; it is 1
      exactly for colours of equal luminance, in particular for a colour and
      itself, and 21 exactly for black against white. */
  lemma ContrastRatioRange(color1: ColorArg, color2: ColorArg, pow24: real -> real)
    requires IsPow24(pow24)
    requires Resolve(color1).Success? && InGamut(Resolve(color1).value)
    requires Resolve(color2).Success? && InGamut(Resolve(color2).value)
    ensures var c1 := Resolve(color1).value;
            var c2 := Resolve(color2).value;
            var r := ContrastRatio(color1, color2, pow24);
            && r.Success?
            && 1.0 <= r.value <= 21.0
            && (r.value == 1.0 <==> LuminanceOf(c1, pow24) == LuminanceOf(c2, pow24))
            && (c1 == c2 ==> r.value == 1.0)
            && (r.value == 21.0 <==> (c1 == Black && c2 == White) || (c1 == White && c2 == Black))
  {
    LuminanceRatioRange(Resolve(color1).value, Resolve(color2).value, pow24);
  }

  /** White text against black: 21:1, which passes both AA checks. */
  lemma WhiteOnBlack(pow24: real -> real)
    requires IsPow24(pow24)
    ensures ContrastRatio(HexString("#ffffff"), HexString("000000"), pow24) == Success(21.0)
    ensures PassesNormalText(21.0) && PassesLargeText(21.0)
  {
    WhiteLiteral();
    BlackLiteral();
    BlackAndWhite(pow24);
  }

  /** A colour against itself fails both AA checks. */
  lemma SameColourFails(color: ColorArg, pow24: real -> real)
    requires IsPow24(pow24)
    requires Resolve(color).Success? && InGamut(Resolve(color).value)
    ensures ContrastRatio(color, color, pow24) == Success(1.0)
    ensures !PassesLargeText(1.0) && !PassesNormalText(1.0)
  {
    ContrastRatioRange(color, color, pow24);
  }
}
