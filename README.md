# WCAG contrast math of calculate_contrast.py

This project models the colour-math functions of `calculate_contrast.py` in Dafny and proves properties about them. These are the functions the script uses to check its status colours against the WCAG AA contrast thresholds:

- `hex_to_rgb` (module `Hex`) strips every leading `#` and reads the slices `[0:2]`, `[2:4]` and `[4:6]` with `int(_, 16)`.
- `rgb_to_luminance` and its inner `adjust` (module `Luminance`) compute "relative luminance" as the WCAG 2.1 glossary defines it.
- `contrast_ratio` (module `Contrast`) computes `(lighter + 0.05) / (darker + 0.05)`, the WCAG 2.1 "contrast ratio". Each argument may be a hex string or a triple.
- `blend_rgba_on_rgb` (module `Blend`) composites a translucent colour over an opaque one. This is simple alpha compositing (source-over), section 5.1 of W3C Compositing and Blending Level 1. Each channel is truncated with `int()`.
- The AA verdicts `ratio >= 3.0` and `ratio >= 4.5` (module `Contrast`) are the thresholds of WCAG 2.1 success criteria 1.4.3 and 1.4.11. They are used at calculate_contrast.py lines 66-67, 95-96 and 142.

Modelling choices:

- Floats are idealised to exact `real`s. Colour triples are unbounded `int`s, and `Colors.InGamut` says when all three lie in [0, 255].
- The errors the code can raise are values of `Colors.Result`. `ValueError` carries the literal that `int(_, 16)` refused. `ZeroDivisionError` covers a zero denominator in the ratio, which needs a luminance of exactly -0.05 and so out-of-range channels.
- `int()` is modelled as truncation toward zero (`Blend.Trunc`). For the non-negative values the script produces, this is the floor (`Blend.BlendIsSourceOver`).
- Dafny has no real exponentiation. So the upper branch of `adjust`, `((c + 0.055) / 1.055) ** 2.4`, receives its power function as the parameter `pow24`. Lemmas that need its values require `RealPower.IsPow24(pow24)`: for every `x >= 0`, `pow24(x) >= 0` and `pow24(x)^5 == x^12`. Because 2.4 = 12/5, this describes `x ** 2.4` exactly and assumes nothing else about it.
- From that description the model derives that `adjust` maps 0 to 0 and 255 to 1. It also derives that `adjust` is strictly increasing over all 256 channel values, including across the branch point between 10 and 11.
- The `isinstance(color, str)` dispatch of `contrast_ratio` becomes the sum type `Contrast.ColorArg` (a hex string or a triple) and the function `Contrast.Resolve`.

One might expect `hex_to_rgb` to reject anything but six hex digits after the `#`. The code accepts more:

- Five characters are accepted. The last slice then holds a single digit, so blue lies in 0..15 (`Hex.FiveDigits`).
- Characters after the sixth are ignored (`Hex.ReadsOnlySixCharacters`).
- Any number of leading `#` are stripped (`Hex.HashPrefixIgnored`).

The model follows the code.

## Model

| member | source | states |
|---|---|---|
| `Hex.StripHashes` | calculate_contrast.py:6 | `lstrip('#')`: the result is a suffix of the input, every removed character is `#`, and the result does not start with `#` |
| `Hex.ParseInt16` | calculate_contrast.py:7 | `int(text, 16)` succeeds exactly on a non-empty run of hex digits. A one-digit text gives that digit, and a two-digit text gives `16*high + low`. Otherwise it raises ValueError naming the literal |
| `Hex.Slice` | calculate_contrast.py:7 | no contract. It is Python's clamping slice `hex_color[i:i+2]`. `Hex.FiveDigits`, `Hex.TooShort` and `Hex.ReadsOnlySixCharacters` state what the clamping does to the parse |
| `Hex.ParseStripped` | calculate_contrast.py:7 | the three slice conversions give an 8-bit colour on success and raise only ValueError |
| `Hex.HexToRgb` | calculate_contrast.py:4-7 | in the model, `hex_to_rgb` returns an in-gamut colour or raises ValueError and nothing else. Python can also return negative channels for signed pairs (see Left out) |
| `Hex.SucceedsExactly` | calculate_contrast.py:6-7 | parsing succeeds if and only if at least five characters remain after the `#`s and the first (at most six) of them are hex digits |
| `Hex.SixDigits` | calculate_contrast.py:6-7 | with six or more hex digits after the `#`s, each channel is `16*high + low` of its pair |
| `Hex.FiveDigits` | calculate_contrast.py:7 | with exactly five hex digits, red and green are pairs and blue is the single fifth digit |
| `Hex.TooShort` | calculate_contrast.py:7 | fewer than five characters after stripping always fail. When they are all hex digits, the refused literal is the empty slice |
| `Hex.HashPrefixIgnored` | calculate_contrast.py:6 | an extra leading `#` never changes the result, and stripping is idempotent |
| `Hex.ReadsOnlySixCharacters` | calculate_contrast.py:7 | the result depends only on the first six characters after stripping |
| `Hex.CaseInsensitive` | calculate_contrast.py:7 | lower-casing the text changes neither success nor the parsed colour |
| `Hex.LowerDigit` | calculate_contrast.py:7 | every value below 16 has a lower-case digit (`0-9`, `a-f`) that parses back to it |
| `Hex.RoundTrip` | calculate_contrast.py:4-7 | parsing the `#rrggbb` encoding of any 8-bit colour, with or without the `#`, gives back that colour |
| `Hex.WhiteLiteral` | calculate_contrast.py:4-7 | `"#ffffff"` parses to (255, 255, 255) |
| `Hex.BlackLiteral` | calculate_contrast.py:4-7 | `"000000"` parses to (0, 0, 0) |
| `Hex.XyzRefused` | calculate_contrast.py:4-7 | `"xyz"` raises ValueError on its first slice `"xy"` |
| `Hex.FfRefused` | calculate_contrast.py:4-7 | `"ff"` raises ValueError on an empty slice |
| `RealPower.Pow24Order` | calculate_contrast.py:16 | `x ** 2.4` is strictly increasing and injective on the non-negative reals |
| `RealPower.Pow24Ends` | calculate_contrast.py:16 | `0 ** 2.4 == 0` and `1 ** 2.4 == 1` |
| `RealPower.Pow24Range` | calculate_contrast.py:16 | `x ** 2.4` maps [0, 1] into [0, 1] and positive reals to positive reals |
| `Luminance.Adjust` | calculate_contrast.py:11-16 | no contract. It is `adjust`, with the power branch as the parameter `pow24`. `Luminance.LinearBranchExactly`, `Luminance.AdjustZero`, `Luminance.AdjustStrictlyIncreasing` and `Luminance.AdjustRange` state its properties |
| `Luminance.RgbToLuminance` | calculate_contrast.py:9-22 | no contract. It is the weighted sum of the three adjusted channels. `Luminance.GreyLuminance`, `Luminance.BlackAndWhite`, `Luminance.LuminanceRange` and `Luminance.LuminanceIncreasing` state its properties |
| `Luminance.LinearBranchExactly` | calculate_contrast.py:12-14 | an integer channel takes the linear branch exactly when it is at most 10. For integer channels, the branch point 0.03928 chooses the same branch as the sRGB standard's 0.04045 |
| `Luminance.AdjustZero` | calculate_contrast.py:12-14 | channel 0 is 0 in linear light |
| `Luminance.BranchStep` | calculate_contrast.py:12-16 | the power branch at 11 lies strictly above the linear branch at 10 |
| `Luminance.AdjustStrictlyIncreasing` | calculate_contrast.py:11-16 | `adjust` is strictly increasing on 0..255 |
| `Luminance.AdjustRange` | calculate_contrast.py:11-16 | `adjust` maps 0..255 into [0, 1]. It is 0 only at 0 and 1 only at 255 |
| `Luminance.GreyLuminance` | calculate_contrast.py:22 | the weights sum to 1, so a grey's luminance is its channel's linear value |
| `Luminance.BlackAndWhite` | calculate_contrast.py:9-22 | black has luminance 0 and white has luminance 1 |
| `Luminance.LuminanceRange` | calculate_contrast.py:9-22 | an 8-bit colour's luminance lies in [0, 1]. It is 0 exactly for black and 1 exactly for white |
| `Luminance.LuminanceIncreasing` | calculate_contrast.py:9-22 | raising channels never lowers luminance. Luminance stays equal only when no channel changes |
| `Contrast.Ratio` | calculate_contrast.py:34-37 | no contract. It is `(max + 0.05) / (min + 0.05)`, defined when the denominator is non-zero. `Contrast.RatioSymmetric`, `Contrast.RatioAtLeastOne` and `Contrast.RatioAtMost21` state its properties |
| `Contrast.RatioSymmetric` | calculate_contrast.py:34-37 | the ratio is symmetric in its two luminances |
| `Contrast.RatioAtLeastOne` | calculate_contrast.py:34-37 | for luminances above -0.05 the ratio is at least 1, and it equals 1 exactly when the luminances are equal |
| `Contrast.RatioAtMost21` | calculate_contrast.py:34-37 | for luminances in [0, 1] the ratio is at most 21. It equals 21 only for luminances 0 and 1 |
| `Contrast.PassesLargeText` | calculate_contrast.py:66 | no contract. It is the `ratio >= 3.0` test, which lines 96 and 142 repeat. `Contrast.NormalTextImpliesLargeText` and `Contrast.VerdictsOnLuminance` state its properties |
| `Contrast.PassesNormalText` | calculate_contrast.py:67 | no contract. It is the `ratio >= 4.5` test, which line 95 repeats. `Contrast.NormalTextImpliesLargeText` and `Contrast.VerdictsOnLuminance` state its properties |
| `Contrast.NormalTextImpliesLargeText` | calculate_contrast.py:66-67 | a ratio that passes 4.5:1 also passes 3:1 |
| `Contrast.VerdictsOnLuminance` | calculate_contrast.py:66-67 | each verdict holds exactly when lighter + 0.05 is at least 4.5 (resp. 3) times darker + 0.05 |
| `Contrast.Resolve` | calculate_contrast.py:26-29 | a triple always resolves. A failure is always a ValueError from `hex_to_rgb`. A resolved hex string is an 8-bit colour |
| `Contrast.RatioOf` | calculate_contrast.py:31-38 | the arithmetic half of `contrast_ratio` can fail only with ZeroDivisionError. For 8-bit colours and the true `** 2.4` it succeeds with a ratio in [1, 21] |
| `Contrast.RatioInRangeWhenValid` | calculate_contrast.py:31-37 | for 8-bit colours and the true `** 2.4`, the denominator is positive and the ratio lies in [1, 21] |
| `Contrast.ContrastRatio` | calculate_contrast.py:24-38 | in the model, `contrast_ratio` fails only with ValueError or ZeroDivisionError (Python can also raise OverflowError, see Left out). It raises ValueError exactly when some argument fails to parse, and the first argument's error wins. For resolvable 8-bit arguments and the true `** 2.4` it succeeds with a ratio in [1, 21] |
| `Contrast.RatioOfSymmetric` | calculate_contrast.py:31-38 | the ratio of two resolved colours does not depend on their order, including its failure |
| `Contrast.ContrastRatioSymmetric` | calculate_contrast.py:24-38 | `contrast_ratio(a, b) == contrast_ratio(b, a)` unless both arguments fail to parse. In that case each order raises its own first argument's error, so the two may differ |
| `Contrast.LuminanceRatioRange` | calculate_contrast.py:31-37 | for 8-bit colours the denominator is positive and the ratio lies in [1, 21]. It is 1 exactly for equal luminances and 21 exactly for black against white |
| `Contrast.ContrastRatioRange` | calculate_contrast.py:24-38 | the same bounds hold for `contrast_ratio` on resolvable 8-bit arguments. It never fails on them, and a colour against itself gives 1 |
| `Contrast.WhiteOnBlack` | calculate_contrast.py:24-38 | `"#ffffff"` against `"000000"` gives exactly 21, which passes both AA checks |
| `Contrast.SameColourFails` | calculate_contrast.py:24-38 | a colour against itself gives 1, which fails both AA checks |
| `Blend.Mix` | calculate_contrast.py:81-83 | no contract. It is the exact value `fg * alpha + bg * (1 - alpha)`. `Blend.MixBetween` states its bounds, and `Blend.BlendIsSourceOver` ties its truncation to the W3C formula |
| `Blend.Trunc` | calculate_contrast.py:81-83 | `int()` truncates toward zero: the result is within one unit of the value and lies on the zero side of it |
| `Blend.MixBetween` | calculate_contrast.py:81-83 | for alpha in [0, 1], the exact mix lies between the two channels |
| `Blend.BlendChannel` | calculate_contrast.py:81 | for alpha in [0, 1], a blended channel lies between the foreground and backdrop channels |
| `Blend.BlendRgbaOnRgb` | calculate_contrast.py:79-84 | for alpha in [0, 1], every channel lies between its inputs, so blending two 8-bit colours gives an 8-bit colour |
| `Blend.BlendEndpoints` | calculate_contrast.py:79-84 | alpha 0 returns the backdrop and alpha 1 returns the foreground |
| `Blend.BlendSelf` | calculate_contrast.py:79-84 | blending a colour onto itself returns it, for every alpha |
| `Blend.BlendIncreasingInAlpha` | calculate_contrast.py:81-83 | over a darker backdrop, a larger alpha never gives a darker channel |
| `Blend.BlendIsSourceOver` | calculate_contrast.py:81-83 | on an opaque backdrop, W3C source-over gives result alpha 1. The blended channel is the floor of the composited colour, less than one unit below it |

## Left out

- The report (calculate_contrast.py:40-147) is left out. This covers the colour table, the four print loops and every printed line, including the blur and backdrop-filter remarks. It is presentation and I/O only.
- The third arm of the conditional expressions at calculate_contrast.py:124-125 is left out. Over reals it cannot be reached.
- The numeric values of `** 2.4` are not computed. Neither are particular ratios such as about 2.19 for white on `#27ae60`. Both need real exponentiation and IEEE-754 rounding. The power is the parameter `pow24`, described only by `RealPower.IsPow24`.
- Float rounding and float range are not modelled. Every product, sum and quotient is exact over the reals. So the model cannot show a truncation that differs because a float result lands just below an integer. Nor can it show the OverflowError Python raises when `fg_rgb[0] * alpha` at calculate_contrast.py:81 is given an int channel too large for a float.
- Hex.ParseInt16: refuses some spellings that Python's `int(_, 16)` accepts in a slice of one or two characters: a sign (`"+f"`, `"-1"`), surrounding whitespace (`" f"`) and non-ASCII decimal digits. For such a pair `Hex.HexToRgb` reports ValueError where Python returns a number. A negative sign gives Python an out-of-gamut channel: `hex_to_rgb("-1-1-1")` returns (-1, -1, -1). On longer texts `int(_, 16)` also accepts underscores between digits and a `0x` prefix, which the model refuses. A slice of `hex_to_rgb` has at most two characters, and Python raises on such a slice with an underscore or a bare `0x` too.
- Contrast.ContrastRatio: an argument that is neither a string nor a triple fails in Python with a TypeError. `ColorArg` cannot express such an argument, so the model does not have that failure. A triple whose channel is too large for a float makes Python raise OverflowError: `channel / 255.0` at calculate_contrast.py:12 overflows from about 1.8e308, and `** 2.4` at line 16 from about 1e131. The model returns a ratio for such a triple. `ColorArg` triples hold only ints, while `contrast_ratio` also accepts float channels such as (127.5, 0, 0). The model does not cover those.
- Blend.Trunc: `int()` of an infinite or NaN float raises in Python. The reals have no such values.
