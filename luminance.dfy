/**
 * Relative luminance of an sRGB colour (`rgb_to_luminance` and its inner
 * `adjust`), as defined in the WCAG 2.1 glossary.
 *
 * The upper branch of the transfer function, ((c + 0.055) / 1.055) ** 2.4,
 * is the parameter `pow24`; lemmas that need its values require
 * `IsPow24(pow24)`, the exact description of x ** 2.4 from RealPower.
 */
module Luminance {
  import opened RealPower

  /** Where `adjust` switches from the linear to the power branch. */
  const LinearLimit: real := 0.03928

  /** The same branch point as the sRGB standard (IEC 61966-2-1) writes it. */
  const SrgbLinearLimit: real := 0.04045

  /** Linear-light value of one channel (`adjust`). */
  function Adjust(channel: int, pow24: real -> real): real
  {
    var c := channel as real / 255.0;
    if c <= LinearLimit then c / 12.92 else pow24((c + 0.055) / 1.055)
  }

  /** Weighted sum of the three linear-light channels (`rgb_to_luminance`). */
  function RgbToLuminance(r: int, g: int, b: int, pow24: real -> real): real
  {
    0.2126 * Adjust(r, pow24) + 0.7152 * Adjust(g, pow24) + 0.0722 * Adjust(b, pow24)
  }

  /** On integer channels the linear branch is taken exactly for 0..10, and
      the WCAG branch point selects the same branch as the sRGB one. */
  lemma LinearBranchExactly(channel: int)
    ensures channel as real / 255.0 <= LinearLimit <==> channel <= 10
    ensures channel as real / 255.0 <= LinearLimit <==> channel as real / 255.0 <= SrgbLinearLimit
  {
  }

  /** Channel 0 is 0 in linear light, whatever the power branch is. */
  lemma AdjustZero(pow24: real -> real)
    ensures Adjust(0, pow24) == 0.0
  {
  }

  /** The power branch starts above where the linear branch ends:
      channel 10 is darker than channel 11 in linear light. */
  lemma BranchStep(pow24: real -> real)
    requires IsPow24(pow24)
    ensures Adjust(10, pow24) < Adjust(11, pow24)
  {
    var low := 10.0 / 255.0 / 12.92;
    var base := (11.0 / 255.0 + 0.055) / 1.055;
    assert Adjust(10, pow24) == low;
    assert Adjust(11, pow24) == pow24(base);
    assert Pow(low, 5) < Pow(base, 12);
    assert Pow(pow24(base), 5) == Pow(base, 12);
    PowOrder(low, pow24(base), 5);
  }

  /** `adjust` is strictly increasing on the 8-bit channels. */
  lemma AdjustStrictlyIncreasing(a: int, b: int, pow24: real -> real)
    requires IsPow24(pow24)
    requires 0 <= a < b <= 255
    ensures Adjust(a, pow24) < Adjust(b, pow24)
  {
    LinearBranchExactly(a);
    LinearBranchExactly(b);
    var x := (a as real / 255.0 + 0.055) / 1.055;
    var y := (b as real / 255.0 + 0.055) / 1.055;
    if 11 <= a {
      Pow24Order(pow24, x, y);
    } else if b <= 10 {
    } else {
      BranchStep(pow24);
      LinearBranchExactly(10);
      LinearBranchExactly(11);
      if 11 < b {
        Pow24Order(pow24, (11.0 / 255.0 + 0.055) / 1.055, y);
      }
    }
  }

  /** `adjust` maps [0, 255] onto [0, 1], reaching 0 only at 0 and 1 only at 255. */
  lemma AdjustRange(channel: int, pow24: real -> real)
    requires IsPow24(pow24)
    requires 0 <= channel <= 255
    ensures 0.0 <= Adjust(channel, pow24) <= 1.0
    ensures Adjust(channel, pow24) == 0.0 <==> channel == 0
    ensures Adjust(channel, pow24) == 1.0 <==> channel == 255
  {
    Pow24Ends(pow24);
    assert Adjust(255, pow24) == pow24(1.0);
    if 0 < channel {
      AdjustStrictlyIncreasing(0, channel, pow24);
    }
    if channel < 255 {
      AdjustStrictlyIncreasing(channel, 255, pow24);
    }
  }

  /** The three weights sum to 1, so a grey has the luminance of its channel. */
  lemma GreyLuminance(c: int, pow24: real -> real)
    ensures RgbToLuminance(c, c, c, pow24) == Adjust(c, pow24)
  {
  }

  /** Black has luminance 0; white has luminance 1. */
  lemma BlackAndWhite(pow24: real -> real)
    requires IsPow24(pow24)
    ensures RgbToLuminance(0, 0, 0, pow24) == 0.0
    ensures RgbToLuminance(255, 255, 255, pow24) == 1.0
  {
    GreyLuminance(0, pow24);
    GreyLuminance(255, pow24);
    AdjustRange(255, pow24);
  }

  /** Luminance of an 8-bit colour lies in [0, 1]; it is 0 exactly for black
      and 1 exactly for white. */
  lemma LuminanceRange(r: int, g: int, b: int, pow24: real -> real)
    requires IsPow24(pow24)
    requires 0 <= r <= 255 && 0 <= g <= 255 && 0 <= b <= 255
    ensures 0.0 <= RgbToLuminance(r, g, b, pow24) <= 1.0
    ensures RgbToLuminance(r, g, b, pow24) == 0.0 <==> r == 0 && g == 0 && b == 0
    ensures RgbToLuminance(r, g, b, pow24) == 1.0 <==> r == 255 && g == 255 && b == 255
  {
    AdjustRange(r, pow24);
    AdjustRange(g, pow24);
    AdjustRange(b, pow24);
  }

  lemma AdjustIncreasing(a: int, b: int, pow24: real -> real)
    requires IsPow24(pow24)
    requires 0 <= a <= b <= 255
    ensures Adjust(a, pow24) <= Adjust(b, pow24)
    ensures Adjust(a, pow24) == Adjust(b, pow24) <==> a == b
  {
    if a < b {
      AdjustStrictlyIncreasing(a, b, pow24);
    }
  }

  /** Raising any channel makes a colour strictly lighter: luminance is
      monotone in each channel and equal only for equal colours. */
  lemma LuminanceIncreasing(r: int, g: int, b: int, r': int, g': int, b': int, pow24: real -> real)
    requires IsPow24(pow24)
    requires 0 <= r <= r' <= 255 && 0 <= g <= g' <= 255 && 0 <= b <= b' <= 255
    ensures RgbToLuminance(r, g, b, pow24) <= RgbToLuminance(r', g', b', pow24)
    ensures RgbToLuminance(r, g, b, pow24) == RgbToLuminance(r', g', b', pow24)
            <==> r == r' && g == g' && b == b'
  {
    AdjustIncreasing(r, r', pow24);
    AdjustIncreasing(g, g', pow24);
    AdjustIncreasing(b, b', pow24);
  }
}
