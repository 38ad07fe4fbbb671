/**
 * Merchant USDT input and display. Numbers are doubles in the source; every value accepted is
 * an integer at most 2^53 - 1, where double arithmetic is exact, and whatever exceeds
 * that bound rounds to at least 2^53 and is refused, so integers describe the function.
 */
module Usdt {
  import opened Basics
  import opened Text

  const SCALE := 1_000_000
  const MAX_SAFE_INTEGER := 0x1F_FFFF_FFFF_FFFF

  function WithoutCommas(s: string): string {
    if s == "" then ""
    else if s[0] == ',' then WithoutCommas(s[1..])
    else [s[0]] + WithoutCommas(s[1..])
  }

  /** The text before the first point, and the text after it when there is one. */
  function SplitAtPoint(s: string): (string, Option<string>) {
    if s == "" then ("", None)
    else if s[0] == '.' then ("", Some(s[1..]))
    else
      var (w, f) := SplitAtPoint(s[1..]);
      ([s[0]] + w, f)
  }

  function ParseUsdtToBaseUnits(input: string): Option<nat> {
    var (whole, frac) := SplitAtPoint(WithoutCommas(Trim(input, JsSpace)));
    BaseUnits(whole, frac)
  }

  function BaseUnits(whole: string, frac: Option<string>): Option<nat> {
    if !IsNumeral(whole, 10) then None
    else if frac.Some? && !(IsNumeral(frac.value, 10) && |frac.value| <= 6) then None
    else
      var base := ValueOf(whole, 10) * SCALE + ValueOf(SixDigits(if frac.Some? then frac.value else ""), 10);
      if base <= 0 || base > MAX_SAFE_INTEGER then None else Some(base)
  }

  function SixDigits(frac: string): string {
    (frac + Zeros(6))[..6]
  }

  function StripTrailingZeros(s: string): string {
    if s != "" && s[|s| - 1] == '0' then StripTrailingZeros(s[..|s| - 1]) else s
  }

  function FormatUsdtFromBaseUnits(base: int): string {
    if base <= 0 then "0"
    else
      var frac := StripTrailingZeros(PadStart(Numeral(base % SCALE, 10), 6));
      if frac == "" then Numeral(base / SCALE, 10)
      else Numeral(base / SCALE, 10) + "." + frac
  }

  lemma {:induction false} StrippedZerosComeBack(s: string)
    ensures var t := StripTrailingZeros(s);
      |t| <= |s| && t + Zeros(|s| - |t|) == s && t <= s
      && (t != "" ==> t[|t| - 1] != '0')
  {
    if s != "" && s[|s| - 1] == '0' {
      var front := s[..|s| - 1];
      StrippedZerosComeBack(front);
      var t := StripTrailingZeros(front);
      assert Zeros(|s| - |t|) == Zeros(|front| - |t|) + "0";
      assert s == front + "0";
    } else {
      assert Zeros(0) == "";
    }
  }

  lemma {:induction false} SplitNumeral(w: string, rest: string)
    requires forall k :: 0 <= k < |w| ==> DigitOf(w[k]) < 10
    requires rest == "" || rest[0] == '.'
    ensures SplitAtPoint(w + rest) == (w, if rest == "" then None else Some(rest[1..]))
  {
    if w == "" {
      assert w + rest == rest;
    } else {
      assert (w + rest)[1..] == w[1..] + rest;
      SplitNumeral(w[1..], rest);
      assert [w[0]] + w[1..] == w;
    }
  }

  lemma {:induction false} NoCommasToDrop(s: string)
    requires forall k :: 0 <= k < |s| ==> s[k] != ','
    ensures WithoutCommas(s) == s
  {
    if s != "" {
      NoCommasToDrop(s[1..]);
    }
  }

  lemma CleanTextIsKept(s: string)
    requires s != "" && DigitOf(s[0]) < 10 && DigitOf(s[|s| - 1]) < 10
    requires forall k :: 0 <= k < |s| ==> s[k] == '.' || DigitOf(s[k]) < 10
    ensures WithoutCommas(Trim(s, JsSpace)) == s
  {
    NoCommasToDrop(s);
    assert !JsSpace(s[0]) && !JsSpace(s[|s| - 1]);
  }

  lemma SixthPower()
    ensures Pow(10, 6) == SCALE
  {
    assert Pow(10, 3) == 1000;
  }

  lemma SixFractionDigits(base: nat)
    ensures var six := PadStart(Numeral(base % SCALE, 10), 6);
      |six| == 6 && IsNumeral(six, 10) && ValueOf(six, 10) == base % SCALE
  {
    hide Numeral, ValueOf, Pow;
    var n := Numeral(base % SCALE, 10);
    SixthPower();
    NumeralLength(base % SCALE, 10, 6);
    NumeralRoundTrip(base % SCALE, 10);
    LeadingZerosKeepValue(6 - |n|, n, 10);
    assert Zeros(0) + n == n;
  }

  /** A text with a whole part and a fraction is split where it was joined. */
  lemma PlainTextSplits(whole: string, frac: string)
    requires IsNumeral(whole, 10)
    requires frac != "" ==> IsNumeral(frac, 10)
    ensures ParseUsdtToBaseUnits(if frac == "" then whole else whole + "." + frac)
         == BaseUnits(whole, if frac == "" then None else Some(frac))
  {
    var rest := if frac == "" then "" else "." + frac;
    var text := whole + rest;
    assert whole + "" == whole && whole + ("." + frac) == whole + "." + frac;
    assert text[|text| - 1] == if frac == "" then whole[|whole| - 1] else frac[|frac| - 1];
    CleanTextIsKept(text);
    SplitNumeral(whole, rest);
    assert frac != "" ==> rest[1..] == frac;
  }

  lemma SixDigitsComeBack(six: string)
    requires |six| == 6 && IsNumeral(six, 10)
    ensures var frac := StripTrailingZeros(six);
      |frac| <= 6 && SixDigits(frac) == six && (frac != "" ==> IsNumeral(frac, 10))
  {
    StrippedZerosComeBack(six);
    var frac := StripTrailingZeros(six);
    assert forall k :: 0 <= k < |frac| ==> frac[k] == six[k];
    assert forall k :: 0 <= k < 6 ==> SixDigits(frac)[k] == (frac + Zeros(6 - |frac|))[k];
  }

  /** Whatever is displayed can be typed back in, for every amount the parser can produce. */
  lemma UsdtRoundTrip(base: nat)
    requires 1 <= base <= MAX_SAFE_INTEGER
    ensures ParseUsdtToBaseUnits(FormatUsdtFromBaseUnits(base)) == Some(base)
  {
    hide Numeral, ValueOf, PadStart, StripTrailingZeros, SixDigits, ParseUsdtToBaseUnits;
    var six := PadStart(Numeral(base % SCALE, 10), 6);
    var frac := StripTrailingZeros(six);
    SixFractionDigits(base);
    SixDigitsComeBack(six);
    NumeralRoundTrip(base / SCALE, 10);
    PlainTextSplits(Numeral(base / SCALE, 10), frac);
    assert FormatUsdtFromBaseUnits(base) ==
           if frac == "" then Numeral(base / SCALE, 10) else Numeral(base / SCALE, 10) + "." + frac;
    assert BaseUnits(Numeral(base / SCALE, 10), if frac == "" then None else Some(frac)) == Some(base);
  }

  lemma {:induction false} SplitRejoins(s: string)
    ensures var (w, f) := SplitAtPoint(s); s == w + match f case None => "" case Some(rest) => "." + rest
  {
    if s != "" && s[0] != '.' {
      SplitRejoins(s[1..]);
    }
  }

  lemma {:induction false} TrailingZerosScale(s: string, k: nat)
    ensures ValueOf(s + Zeros(k), 10) == ValueOf(s, 10) * Pow(10, k)
  {
    hide ValueOf;
    if k == 0 {
      assert s + Zeros(0) == s;
    } else {
      TrailingZerosScale(s, k - 1);
      assert s + Zeros(k) == s + Zeros(k - 1) + ['0'];
      ValueOfAppend(s + Zeros(k - 1), '0', 10);
      assert Pow(10, k) == 10 * Pow(10, k - 1);
      assert ValueOf(s, 10) * Pow(10, k - 1) * 10 == ValueOf(s, 10) * (10 * Pow(10, k - 1));
    }
  }

  /**
   * The number a text stands for: its whole part in millions, and its fraction, of at most six digits, scaled to six.
   * It is read if and only if it lies in 1..2^53-1.
   */
  lemma TextIsReadExactly(whole: string, frac: string)
    requires IsNumeral(whole, 10) && (frac != "" ==> IsNumeral(frac, 10)) && |frac| <= 6
    ensures var v := ValueOf(whole, 10) * 1_000_000 + ValueOf(frac, 10) * Pow(10, 6 - |frac|);
      ParseUsdtToBaseUnits(if frac == "" then whole else whole + "." + frac)
        == if 1 <= v <= 0x1F_FFFF_FFFF_FFFF then Some(v) else None
  {
    hide ValueOf, IsNumeral, Pow, ParseUsdtToBaseUnits;
    PlainTextSplits(whole, frac);
    TrailingZerosScale(frac, 6 - |frac|);
    SixDigitsAreFilled(frac);
    hide SixDigits, Zeros;
  }

  lemma SixDigitsAreFilled(frac: string)
    requires |frac| <= 6
    ensures SixDigits(frac) == frac + Zeros(6 - |frac|)
    ensures SixDigits("") == Zeros(6)
  {
  }

  /** The text without commas and outer white space. */
  function Plain(input: string): string {
    WithoutCommas(Trim(input, JsSpace))
  }

  /** Nothing else is read: a text is digits, or digits, a point and one to six digits. */
  lemma OnlyDecimalsAreRead(input: string)
    requires ParseUsdtToBaseUnits(input).Some?
    ensures exists whole, frac ::
      && IsNumeral(whole, 10) && |frac| <= 6 && (frac != "" ==> IsNumeral(frac, 10))
      && Plain(input) == if frac == "" then whole else whole + "." + frac
  {
    SplitRejoins(Plain(input));
    var (w, f) := SplitAtPoint(Plain(input));
    var frac := if f.Some? then f.value else "";
    assert w + "" == w && w + ("." + frac) == w + "." + frac;
    hide IsNumeral, ValueOf, SixDigits, Trim, WithoutCommas;
    assert Plain(input) == if frac == "" then w else w + "." + frac;
  }

  lemma {:induction false} CommaIsDropped(a: string, b: string)
    ensures WithoutCommas(a + "," + b) == WithoutCommas(a + b)
  {
    if a == "" {
      assert a + "," + b == "," + b && ("," + b)[1..] == b && a + b == b;
    } else {
      CommaIsDropped(a[1..], b);
      assert (a + "," + b)[1..] == a[1..] + "," + b && (a + b)[1..] == a[1..] + b;
    }
  }

  /** Commas inside a text count for nothing. */
  lemma CommasAreIgnored(a: string, b: string)
    requires a != "" && b != "" && !JsSpace(a[0]) && !JsSpace(b[|b| - 1])
    ensures ParseUsdtToBaseUnits(a + "," + b) == ParseUsdtToBaseUnits(a + b)
  {
    assert (a + "," + b)[0] == a[0] && (a + b)[0] == a[0];
    assert (a + "," + b)[|a| + |b|] == b[|b| - 1] && (a + b)[|a| + |b| - 1] == b[|b| - 1];
    hide JsSpace;
    TrimOfSolid(a + "," + b, JsSpace);
    TrimOfSolid(a + b, JsSpace);
    CommaIsDropped(a, b);
    hide Trim, WithoutCommas, SplitAtPoint, BaseUnits;
  }

  /** What is displayed is the shortest such text: no fraction ends in a zero, and nothing positive shows as "0". */
  lemma DisplayIsShortest(base: int)
    requires base <= MAX_SAFE_INTEGER
    ensures var s := FormatUsdtFromBaseUnits(base);
      && (s == "0" <==> base <= 0)
      && (base > 0 && base % 1_000_000 == 0 ==> s == Numeral(base / 1_000_000, 10))
      && (base > 0 && base % 1_000_000 != 0 ==>
            exists frac ::
              s == Numeral(base / 1_000_000, 10) + "." + frac && 0 < |frac| <= 6 && frac[|frac| - 1] != '0')
  {
    if base > 0 {
      var six := PadStart(Numeral(base % SCALE, 10), 6);
      var frac := StripTrailingZeros(six);
      SixFractionDigits(base);
      SixDigitsComeBack(six);
      StrippedZerosComeBack(six);
      UsdtRoundTrip(base);
      hide Numeral, ValueOf, PadStart, StripTrailingZeros;
      ZeroFractions(six);
      NumeralOfZero(base / SCALE);
    }
  }

  lemma NumeralOfZero(n: nat)
    ensures Numeral(n, 10) == "0" <==> n == 0
  {
    if n > 0 {
      NumeralHasNoLeadingZero(n, 10);
    }
  }

  /** Six digits are all stripped if and only if they are worth nothing. */
  lemma ZeroFractions(six: string)
    requires |six| == 6 && IsNumeral(six, 10)
    ensures StripTrailingZeros(six) == "" <==> ValueOf(six, 10) == 0
  {
    StrippedZerosComeBack(six);
    var frac := StripTrailingZeros(six);
    if frac == "" {
      assert "" + Zeros(6) == six && Zeros(6) + "" == six;
      LeadingZerosKeepValue(6, "", 10);
    } else {
      TrailingZerosScale(frac, 6 - |frac|);
      LastDigitCounts(frac);
      PowPositive(10, 6 - |frac|);
      hide ValueOf, Pow;
      assert ValueOf(frac, 10) * Pow(10, 6 - |frac|) > 0;
    }
  }

  lemma LastDigitCounts(s: string)
    requires s != "" && IsNumeral(s, 10) && s[|s| - 1] != '0'
    ensures ValueOf(s, 10) > 0
  {
  }
}
