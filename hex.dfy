/**
 * `hex_to_rgb`: strip every leading '#', slice positions [0:2], [2:4] and
 * [4:6] with Python's clamping slice semantics, and read each slice with
 * `int(_, 16)`.  Only plain hexadecimal digits are accepted by this model of
 * `int(_, 16)`; anything else, including an empty slice, is a ValueError.
 */
module Hex {
  import opened Colors

  predicate IsHexDigit(ch: char)
  {
    '0' <= ch <= '9' || 'a' <= ch <= 'f' || 'A' <= ch <= 'F'
  }

  predicate AllHexDigits(s: string)
  {
    forall i :: 0 <= i < |s| ==> IsHexDigit(s[i])
  }

  /** Value of one hexadecimal digit, in either case. */
  function DigitValue(ch: char): (v: nat)
    requires IsHexDigit(ch)
    ensures v < 16
  {
    if '0' <= ch <= '9' then ch as int - '0' as int
    else if 'a' <= ch <= 'f' then ch as int - 'a' as int + 10
    else ch as int - 'A' as int + 10
  }

  /** The lower-case digit of a value below 16; `DigitValue` inverts it. */
  function LowerDigit(v: nat): (ch: char)
    requires v < 16
    ensures '0' <= ch <= '9' || 'a' <= ch <= 'f'
    ensures IsHexDigit(ch) && DigitValue(ch) == v
  {
    if v < 10 then ('0' as int + v) as char else ('a' as int + v - 10) as char
  }

  /** ASCII lower-casing of one character. */
  function ToLower(ch: char): char
  {
    if 'A' <= ch <= 'Z' then (ch as int + 32) as char else ch
  }

  function LowerCase(s: string): string
  {
    seq(|s|, i requires 0 <= i < |s| => ToLower(s[i]))
  }

  /** Upper- and lower-case digits are the same digits. */
  lemma DigitIgnoresCase(ch: char)
    ensures IsHexDigit(ToLower(ch)) <==> IsHexDigit(ch)
    ensures IsHexDigit(ch) ==> DigitValue(ToLower(ch)) == DigitValue(ch)
  {
  }

  /** Value of a string of hex digits, most significant digit first. */
  function HexValue(digits: string): (v: nat)
    requires AllHexDigits(digits)
  {
    if digits == [] then 0
    else 16 * HexValue(digits[..|digits| - 1]) + DigitValue(digits[|digits| - 1])
  }

  /** `int(text, 16)` on plain hex digits. */
  function ParseInt16(text: string): (r: Result<int>)
    ensures r.Success? <==> text != [] && AllHexDigits(text)
    ensures r.Failure? ==> r.error == ValueError(text)
    ensures r.Success? && |text| == 1 ==> r.value == DigitValue(text[0])
    ensures r.Success? && |text| == 2 ==> r.value == 16 * DigitValue(text[0]) + DigitValue(text[1])
  {
    if text != [] && AllHexDigits(text) then
      assert |text| <= 2 ==> HexValue(text[..1]) == DigitValue(text[0]) by {
        assert text[..1][..0] == [];
      }
      Success(HexValue(text))
    else
      Failure(ValueError(text))
  }

  /** `s.lstrip('#')`: every leading '#' is removed, nothing else. */
  function StripHashes(s: string): (t: string)
    ensures |t| <= |s| && t == s[|s| - |t|..]
    ensures forall i :: 0 <= i < |s| - |t| ==> s[i] == '#'
    ensures t == [] || t[0] != '#'
  {
    if |s| > 0 && s[0] == '#' then StripHashes(s[1..]) else s
  }

  /** Python's `s[i:j]` for 0 <= i <= j: both ends are clamped to the length. */
  function Slice(s: string, i: nat, j: nat): string
    requires i <= j
  {
    s[Min(i, |s|)..Min(j, |s|)]
  }

  /** The characters `hex_to_rgb` reads: the first six after stripping. */
  function ReadPart(hexColor: string): string
  {
    var t := StripHashes(hexColor);
    t[..Min(6, |t|)]
  }

  /** The three slices and their conversions, on text already stripped. */
  function ParseStripped(t: string): (r: Result<Rgb>)
    ensures r.Success? ==> InGamut(r.value)
    ensures r.Failure? ==> r.error.ValueError?
  {
    var red :- ParseInt16(Slice(t, 0, 2));
    var green :- ParseInt16(Slice(t, 2, 4));
    var blue :- ParseInt16(Slice(t, 4, 6));
    Success(Rgb(red, green, blue))
  }

  /** `hex_to_rgb`. */
  function HexToRgb(hexColor: string): (r: Result<Rgb>)
    ensures r.Success? ==> InGamut(r.value)
    ensures r.Failure? ==> r.error.ValueError?
  {
    ParseStripped(StripHashes(hexColor))
  }

  /** Pair value `16 * high + low` of t[k], t[k + 1]. */
  function PairValue(t: string, k: nat): int
    requires k + 1 < |t| && IsHexDigit(t[k]) && IsHexDigit(t[k + 1])
  {
    16 * DigitValue(t[k]) + DigitValue(t[k + 1])
  }

  lemma ParseSix(t: string)
    requires |t| >= 6 && AllHexDigits(t[..6])
    ensures forall k :: 0 <= k < 6 ==> IsHexDigit(t[k])
    ensures ParseStripped(t) == Success(Rgb(PairValue(t, 0), PairValue(t, 2), PairValue(t, 4)))
  {
    assert forall k :: 0 <= k < 6 ==> t[..6][k] == t[k];
    assert Slice(t, 0, 2) == [t[0], t[1]];
    assert Slice(t, 2, 4) == [t[2], t[3]];
    assert Slice(t, 4, 6) == [t[4], t[5]];
  }

  lemma ParseFive(t: string)
    requires |t| == 5 && AllHexDigits(t)
    ensures ParseStripped(t) == Success(Rgb(PairValue(t, 0), PairValue(t, 2), DigitValue(t[4])))
  {
    assert Slice(t, 0, 2) == [t[0], t[1]];
    assert Slice(t, 2, 4) == [t[2], t[3]];
    assert Slice(t, 4, 6) == [t[4]];
  }

  lemma ParseShort(t: string)
    requires |t| < 5
    ensures ParseStripped(t).Failure?
    ensures AllHexDigits(t) ==> ParseStripped(t) == Failure(ValueError([]))
  {
    if AllHexDigits(t) {
      assert AllHexDigits(Slice(t, 0, 2));
      if |t| <= 2 {
        assert Slice(t, 2, 4) == [];
      } else {
        assert AllHexDigits(Slice(t, 2, 4));
        assert Slice(t, 4, 6) == [];
      }
    } else if |t| <= 2 {
      assert Slice(t, 0, 2) == t;
    } else {
      assert Slice(t, 4, 6) == [];
    }
  }

  lemma ParseBadDigit(t: string, k: nat)
    requires k < |t| && k < 6 && !IsHexDigit(t[k])
    ensures ParseStripped(t).Failure?
  {
    var lo := k / 2 * 2;
    var g := Slice(t, lo, lo + 2);
    assert g[k - lo] == t[k];
  }

  lemma ParseSucceedsExactly(t: string)
    ensures ParseStripped(t).Success? <==> |t| >= 5 && AllHexDigits(t[..Min(6, |t|)])
  {
    var p := t[..Min(6, |t|)];
    if |t| < 5 {
      ParseShort(t);
    } else if AllHexDigits(p) {
      if |t| == 5 {
        assert p == t;
        ParseFive(t);
      } else {
        ParseSix(t);
      }
    } else {
      var k :| 0 <= k < |p| && !IsHexDigit(p[k]);
      assert p[k] == t[k];
      ParseBadDigit(t, k);
    }
  }

  /** `hex_to_rgb` succeeds exactly when at least five characters remain after
      the '#'s and the first (up to) six of them are hex digits. */
  lemma SucceedsExactly(hexColor: string)
    ensures HexToRgb(hexColor).Success?
            <==> |StripHashes(hexColor)| >= 5 && AllHexDigits(ReadPart(hexColor))
  {
    ParseSucceedsExactly(StripHashes(hexColor));
  }

  /** Exactly six hex digits after the '#'s: each channel is the value of its
      pair, `16 * high + low`. */
  lemma SixDigits(hexColor: string)
    requires |StripHashes(hexColor)| >= 6 && AllHexDigits(ReadPart(hexColor))
    ensures var t := StripHashes(hexColor);
            && (forall k :: 0 <= k < 6 ==> IsHexDigit(t[k]))
            && HexToRgb(hexColor) == Success(Rgb(PairValue(t, 0), PairValue(t, 2), PairValue(t, 4)))
  {
    ParseSix(StripHashes(hexColor));
  }

  /** Five digits are accepted too: the last slice holds one digit, so blue
      is that digit's value alone. */
  lemma FiveDigits(hexColor: string)
    requires |StripHashes(hexColor)| == 5 && AllHexDigits(StripHashes(hexColor))
    ensures var t := StripHashes(hexColor);
            HexToRgb(hexColor) == Success(Rgb(PairValue(t, 0), PairValue(t, 2), DigitValue(t[4])))
  {
    ParseFive(StripHashes(hexColor));
  }

  /** Fewer than five characters left: a slice is empty and parsing fails;
      when what is there are hex digits, the refused literal is the empty one. */
  lemma TooShort(hexColor: string)
    requires |StripHashes(hexColor)| < 5
    ensures HexToRgb(hexColor).Failure?
    ensures AllHexDigits(StripHashes(hexColor)) ==> HexToRgb(hexColor) == Failure(ValueError([]))
  {
    ParseShort(StripHashes(hexColor));
  }

  /** Leading '#' characters are all removed, so adding one changes nothing
      and stripping twice is stripping once. */
  lemma HashPrefixIgnored(s: string)
    ensures HexToRgb(['#'] + s) == HexToRgb(s)
    ensures StripHashes(StripHashes(s)) == StripHashes(s)
  {
    assert (['#'] + s)[1..] == s;
  }

  lemma ParseReadsSix(t: string)
    ensures ParseStripped(t) == ParseStripped(t[..Min(6, |t|)])
  {
    var p := t[..Min(6, |t|)];
    assert Slice(p, 0, 2) == Slice(t, 0, 2);
    assert Slice(p, 2, 4) == Slice(t, 2, 4);
    assert Slice(p, 4, 6) == Slice(t, 4, 6);
  }

  /** Characters after the sixth one (after stripping) are never looked at. */
  lemma ReadsOnlySixCharacters(hexColor: string)
    ensures HexToRgb(hexColor) == HexToRgb(ReadPart(hexColor))
  {
    var t := StripHashes(hexColor);
    var p := ReadPart(hexColor);
    assert p == [] || p[0] == t[0];
    assert StripHashes(p) == p;
    ParseReadsSix(t);
  }

  lemma StripLowerCase(s: string)
    ensures StripHashes(LowerCase(s)) == LowerCase(StripHashes(s))
    decreases |s|
  {
    if |s| > 0 && s[0] == '#' {
      assert LowerCase(s)[1..] == LowerCase(s[1..]);
      StripLowerCase(s[1..]);
    }
  }

  lemma LowerCaseKeepsDigits(t: string, n: nat)
    requires n <= |t|
    ensures AllHexDigits(LowerCase(t)[..n]) <==> AllHexDigits(t[..n])
    ensures AllHexDigits(t[..n]) ==>
              forall i :: 0 <= i < n ==>
                IsHexDigit(t[i]) && IsHexDigit(LowerCase(t)[i])
                && DigitValue(LowerCase(t)[i]) == DigitValue(t[i])
  {
    var lt := LowerCase(t);
    forall i | 0 <= i < n
      ensures lt[..n][i] == lt[i] && t[..n][i] == t[i]
      ensures IsHexDigit(lt[i]) <==> IsHexDigit(t[i])
      ensures IsHexDigit(t[i]) ==> DigitValue(lt[i]) == DigitValue(t[i])
    {
      DigitIgnoresCase(t[i]);
    }
  }

  lemma ParseIgnoresCase(t: string)
    ensures ParseStripped(LowerCase(t)).Success? <==> ParseStripped(t).Success?
    ensures ParseStripped(t).Success? ==> ParseStripped(LowerCase(t)) == ParseStripped(t)
  {
    var lt := LowerCase(t);
    LowerCaseKeepsDigits(t, Min(6, |t|));
    ParseSucceedsExactly(t);
    ParseSucceedsExactly(lt);
    if ParseStripped(t).Success? {
      if |t| >= 6 {
        ParseSix(t);
        ParseSix(lt);
      } else {
        assert t[..5] == t && lt[..5] == lt;
        ParseFive(t);
        ParseFive(lt);
      }
    }
  }

  /** Upper- and lower-case spellings parse alike. */
  lemma CaseInsensitive(hexColor: string)
    ensures HexToRgb(LowerCase(hexColor)).Success? <==> HexToRgb(hexColor).Success?
    ensures HexToRgb(hexColor).Success? ==> HexToRgb(LowerCase(hexColor)) == HexToRgb(hexColor)
  {
    StripLowerCase(hexColor);
    ParseIgnoresCase(StripHashes(hexColor));
  }

  /** `#rrggbb` in lower case: the reference encoding of an 8-bit colour. */
  function RgbToHex(c: Rgb): string
    requires InGamut(c)
  {
    ['#', LowerDigit(c.r / 16), LowerDigit(c.r % 16),
          LowerDigit(c.g / 16), LowerDigit(c.g % 16),
          LowerDigit(c.b / 16), LowerDigit(c.b % 16)]
  }

  /** Parsing inverts the encoding, with or without the '#'. */
  lemma RoundTrip(c: Rgb)
    requires InGamut(c)
    ensures HexToRgb(RgbToHex(c)) == Success(c)
    ensures HexToRgb(RgbToHex(c)[1..]) == Success(c)
  {
    var s := RgbToHex(c);
    assert StripHashes(s[1..]) == s[1..];
    assert StripHashes(s) == s[1..];
    SixDigits(s);
    SixDigits(s[1..]);
  }

  lemma WhiteEncoding()
    ensures RgbToHex(White) == "#ffffff"
  {
  }

  /** "#ffffff" is white. */
  lemma WhiteLiteral()
    ensures HexToRgb("#ffffff") == Success(White)
  {
    RoundTrip(White);
    WhiteEncoding();
  }

  /** "000000", without a '#', is black. */
  lemma BlackLiteral()
    ensures HexToRgb("000000") == Success(Black)
  {
    RoundTrip(Black);
    assert RgbToHex(Black)[1..] == "000000";
  }

  /** Text that does not start with '#' is left as it is by the stripping. */
  lemma NoLeadingHash(s: string)
    requires s == [] || s[0] != '#'
    ensures StripHashes(s) == s
  {
  }

  /** "xyz" is refused: its first slice "xy" is not hexadecimal. */
  lemma XyzRefused()
    ensures HexToRgb("xyz") == Failure(ValueError("xy"))
  {
    NoLeadingHash("xyz");
    assert Slice("xyz", 0, 2) == "xy";
    assert !IsHexDigit("xy"[0]);
  }

  /** "ff" is refused: its second slice is empty. */
  lemma FfRefused()
    ensures HexToRgb("ff") == Failure(ValueError([]))
  {
    NoLeadingHash("ff");
    ParseShort("ff");
  }
}
