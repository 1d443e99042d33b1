/**
 * `blend_rgba_on_rgb`: a translucent foreground colour composited over an
 * opaque backdrop, channel by channel, each result truncated by `int()`.
 * Float arithmetic is idealised to exact reals.
 */
module Blend {
  import opened Colors

  /** Python's `int()` on a number: truncation toward zero. */
  function Trunc(x: real): (n: int)
    ensures 0.0 <= x ==> n as real <= x < n as real + 1.0
    ensures x <= 0.0 ==> n as real - 1.0 < x <= n as real
  {
    if 0.0 <= x then x.Floor else -((-x).Floor)
  }

  lemma TruncIncreasing(x: real, y: real)
    requires x <= y
    ensures Trunc(x) <= Trunc(y)
  {
  }

  /** The exact composited value of one channel before truncation. */
  function Mix(fg: int, bg: int, alpha: real): real
  {
    fg as real * alpha + bg as real * (1.0 - alpha)
  }

  /** The mix moves from the backdrop toward the foreground as alpha grows. */
  lemma MixBetween(fg: int, bg: int, alpha: real)
    requires 0.0 <= alpha <= 1.0
    ensures Min(fg, bg) as real <= Mix(fg, bg, alpha) <= Max(fg, bg) as real
  {
    var d := (fg - bg) as real;
    assert Mix(fg, bg, alpha) == bg as real + alpha * d;
    if 0.0 <= d {
      assert 0.0 <= alpha * d <= d;
    } else {
      assert d <= alpha * d <= 0.0;
    }
  }

  /** One channel of `blend_rgba_on_rgb`; for alpha in [0, 1] it lies
      between the two input channels. */
  function BlendChannel(fg: int, bg: int, alpha: real): (v: int)
    ensures 0.0 <= alpha <= 1.0 ==> Min(fg, bg) <= v <= Max(fg, bg)
  {
    var x := Mix(fg, bg, alpha);
    if 0.0 <= alpha <= 1.0 then
      MixBetween(fg, bg, alpha);
      TruncIncreasing(Min(fg, bg) as real, x);
      TruncIncreasing(x, Max(fg, bg) as real);
      Trunc(x)
    else
      Trunc(x)
  }

  /** `blend_rgba_on_rgb`: every channel lies between the foreground's and the
      backdrop's, so blending two 8-bit colours gives an 8-bit colour. */
  function BlendRgbaOnRgb(fg: Rgb, bg: Rgb, alpha: real): (c: Rgb)
    ensures 0.0 <= alpha <= 1.0 ==>
              && Min(fg.r, bg.r) <= c.r <= Max(fg.r, bg.r)
              && Min(fg.g, bg.g) <= c.g <= Max(fg.g, bg.g)
              && Min(fg.b, bg.b) <= c.b <= Max(fg.b, bg.b)
    ensures 0.0 <= alpha <= 1.0 && InGamut(fg) && InGamut(bg) ==> InGamut(c)
  {
    Rgb(BlendChannel(fg.r, bg.r, alpha),
        BlendChannel(fg.g, bg.g, alpha),
        BlendChannel(fg.b, bg.b, alpha))
  }

  /** Alpha 0 shows only the backdrop; alpha 1 only the foreground. */
  lemma BlendEndpoints(fg: Rgb, bg: Rgb)
    ensures BlendRgbaOnRgb(fg, bg, 0.0) == bg
    ensures BlendRgbaOnRgb(fg, bg, 1.0) == fg
  {
  }

  /** A colour blended onto itself is unchanged, whatever the alpha. */
  lemma BlendSelf(c: Rgb, alpha: real)
    ensures BlendRgbaOnRgb(c, c, alpha) == c
  {
    assert forall v: int :: Mix(v, v, alpha) == v as real;
  }

  /** A more opaque foreground pulls each channel further toward it. */
  lemma BlendIncreasingInAlpha(fg: int, bg: int, a1: real, a2: real)
    requires bg <= fg
    requires a1 <= a2
    ensures BlendChannel(fg, bg, a1) <= BlendChannel(fg, bg, a2)
  {
    var d := (fg - bg) as real;
    assert Mix(fg, bg, a1) == bg as real + a1 * d;
    assert Mix(fg, bg, a2) == bg as real + a2 * d;
    assert a1 * d <= a2 * d;
    TruncIncreasing(Mix(fg, bg, a1), Mix(fg, bg, a2));
  }

  /** Result alpha of simple alpha compositing (source-over), section 5.1 of
      W3C Compositing and Blending Level 1: αo = αs + αb × (1 − αs). */
  function SourceOverAlpha(alphaS: real, alphaB: real): real
  {
    alphaS + alphaB * (1.0 - alphaS)
  }

  /** Premultiplied result colour of the same operator:
      co = Cs × αs + Cb × αb × (1 − αs). */
  function SourceOverPremultiplied(cs: real, alphaS: real, cb: real, alphaB: real): real
  {
    cs * alphaS + cb * alphaB * (1.0 - alphaS)
  }

  /** On an opaque backdrop the W3C operator yields an opaque result whose
      colour is the mix, and each blended channel is that colour rounded
      down, less than one unit below it. */
  lemma BlendIsSourceOver(fg: int, bg: int, alpha: real)
    requires 0 <= fg && 0 <= bg
    requires 0.0 <= alpha <= 1.0
    ensures SourceOverAlpha(alpha, 1.0) == 1.0
    ensures var co := SourceOverPremultiplied(fg as real, alpha, bg as real, 1.0)
                      / SourceOverAlpha(alpha, 1.0);
            && BlendChannel(fg, bg, alpha) == co.Floor
            && 0.0 <= co - BlendChannel(fg, bg, alpha) as real < 1.0
  {
    MixBetween(fg, bg, alpha);
    assert SourceOverPremultiplied(fg as real, alpha, bg as real, 1.0) == Mix(fg, bg, alpha);
  }
}
