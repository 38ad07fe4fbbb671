/** Characters, case, trimming and positional numerals, as the Go and TypeScript code uses them. */
module Text {
  predicate CommonSpace(c: char) {
    || '\t' <= c <= '\r'
    || c == ' ' || c == '\U{00a0}' || c == '\U{1680}'
    || '\U{2000}' <= c <= '\U{200a}'
    || c == '\U{2028}' || c == '\U{2029}' || c == '\U{202f}' || c == '\U{205f}' || c == '\U{3000}'
  }

  /** Go's unicode.IsSpace. */
  predicate GoSpace(c: char) {
    CommonSpace(c) || c == '\U{0085}'
  }

  /** White space of a JavaScript regular expression and of String.prototype.trim. */
  predicate JsSpace(c: char) {
    CommonSpace(c) || c == '\U{feff}'
  }

  function LowerChar(c: char): char {
    if 'A' <= c <= 'Z' then (c as int + 32) as char else c
  }

  function Lower(s: string): (r: string)
    ensures |r| == |s| && forall k :: 0 <= k < |s| ==> r[k] == LowerChar(s[k])
  {
    seq(|s|, k requires 0 <= k < |s| => LowerChar(s[k]))
  }

  function UpperChar(c: char): char {
    if 'a' <= c <= 'z' then (c as int - 32) as char else c
  }

  function Upper(s: string): (r: string)
    ensures |r| == |s| && forall k :: 0 <= k < |s| ==> r[k] == UpperChar(s[k])
  {
    seq(|s|, k requires 0 <= k < |s| => UpperChar(s[k]))
  }

  function TrimLeft(s: string, space: char -> bool): string {
    if s != "" && space(s[0]) then TrimLeft(s[1..], space) else s
  }

  function TrimRight(s: string, space: char -> bool): string {
    if s != "" && space(s[|s| - 1]) then TrimRight(s[..|s| - 1], space) else s
  }

  function Trim(s: string, space: char -> bool): string {
    TrimRight(TrimLeft(s, space), space)
  }

  /** No space at either end. */
  predicate Solid(s: string, space: char -> bool) {
    s != "" ==> !space(s[0]) && !space(s[|s| - 1])
  }

  lemma {:induction false} TrimLeftShape(s: string, space: char -> bool)
    ensures var t := TrimLeft(s, space); |t| <= |s| && t == s[|s| - |t|..] && (t != "" ==> !space(t[0]))
  {
    if s != "" && space(s[0]) {
      TrimLeftShape(s[1..], space);
    }
  }

  lemma {:induction false} TrimRightShape(s: string, space: char -> bool)
    ensures var t := TrimRight(s, space); t <= s && (t != "" ==> !space(t[|t| - 1]))
  {
    if s != "" && space(s[|s| - 1]) {
      TrimRightShape(s[..|s| - 1], space);
    }
  }

  /** A trimmed text is a contiguous part of the original with solid ends. */
  lemma TrimShape(s: string, space: char -> bool)
    ensures Solid(Trim(s, space), space)
    ensures exists i, j :: 0 <= i <= j <= |s| && Trim(s, space) == s[i..j]
  {
    var l := TrimLeft(s, space);
    TrimLeftShape(s, space);
    TrimRightShape(l, space);
    var t := TrimRight(l, space);
    var i := |s| - |l|;
    assert t == l[..|t|] == s[i..i + |t|];
    assert t != "" ==> t[0] == l[0];
  }

  lemma TrimOfSolid(s: string, space: char -> bool)
    requires Solid(s, space)
    ensures Trim(s, space) == s
  {
  }

  function TrimPrefix(s: string, p: string): string {
    if p <= s then s[|p|..] else s
  }

  /** The digit a character stands for; 16 when it stands for none. */
  function DigitOf(c: char): nat {
    if '0' <= c <= '9' then c as int - '0' as int
    else if 'a' <= c <= 'f' then c as int - 'a' as int + 10
    else 16
  }

  function DigitChar(d: nat): (c: char)
    requires d < 16
    ensures DigitOf(c) == d
  {
    if d < 10 then (d + '0' as int) as char else (d - 10 + 'a' as int) as char
  }

  predicate IsNumeral(s: string, base: nat) {
    s != "" && forall k :: 0 <= k < |s| ==> DigitOf(s[k]) < base
  }

  /** The two bases in use. */
  predicate IsBase(base: nat) {
    base == 10 || base == 16
  }

  /** %d, %x, String(n), BigInt.toString: most significant digit first, no leading zero. */
  function Numeral(n: nat, base: nat): (s: string)
    requires IsBase(base)
    ensures IsNumeral(s, base)
    decreases n
  {
    if n < base then [DigitChar(n)]
    else
      DivideSplits(n, base);
      Numeral(n / base, base) + [DigitChar(n % base)]
  }

  function ValueOf(s: string, base: nat): nat {
    if s == "" then 0 else ValueOf(s[..|s| - 1], base) * base + DigitOf(s[|s| - 1])
  }

  lemma DivideSplits(n: nat, base: nat)
    requires IsBase(base) && n >= base
    ensures 1 <= n / base < n && 0 <= n % base < base
    ensures (n / base) * base + n % base == n
  {
    if base == 10 {
      assert n == n / 10 * 10 + n % 10;
    } else {
      assert n == n / 16 * 16 + n % 16;
    }
  }

  lemma ValueOfAppend(s: string, c: char, base: nat)
    ensures ValueOf(s + [c], base) == ValueOf(s, base) * base + DigitOf(c)
  {
    assert (s + [c])[..|s|] == s;
  }

  lemma {:induction false} NumeralSplits(n: nat, base: nat)
    requires IsBase(base) && n >= base
    ensures 1 <= n / base < n && n % base < base
    ensures Numeral(n, base) == Numeral(n / base, base) + [DigitChar(n % base)]
  {
    DivideSplits(n, base);
  }

  lemma OneDigit(n: nat, base: nat)
    requires IsBase(base) && n < base
    ensures |Numeral(n, base)| == 1 && ValueOf(Numeral(n, base), base) == n
  {
    hide ValueOf;
    var c := DigitChar(n);
    assert Numeral(n, base) == [c];
    ValueOfAppend("", c, base);
    NoDigits(base);
    assert "" + [c] == [c];
  }

  lemma NoDigits(base: nat)
    ensures ValueOf("", base) * base == 0
  {
  }

  lemma {:induction false} NumeralRoundTrip(n: nat, base: nat)
    requires IsBase(base)
    ensures ValueOf(Numeral(n, base), base) == n
    decreases n
  {
    hide Numeral, ValueOf, DigitChar, DigitOf;
    if n < base {
      OneDigit(n, base);
    } else {
      NumeralSplits(n, base);
      NumeralRoundTrip(n / base, base);
      ValueOfAppend(Numeral(n / base, base), DigitChar(n % base), base);
      assert DigitOf(DigitChar(n % base)) == n % base;
      DivideSplits(n, base);
    }
  }

  lemma {:induction false} NumeralHasNoLeadingZero(n: nat, base: nat)
    requires IsBase(base) && n > 0
    ensures Numeral(n, base)[0] != '0'
    decreases n
  {
    if n >= base {
      DivideSplits(n, base);
      NumeralHasNoLeadingZero(n / base, base);
    }
  }

  function Zeros(k: nat): string {
    seq(k, _ => '0')
  }

  /** String.prototype.padStart(width, "0"). */
  function PadStart(s: string, width: nat): string {
    if |s| < width then Zeros(width - |s|) + s else s
  }

  lemma {:induction false} LeadingZerosKeepValue(k: nat, s: string, base: nat)
    ensures ValueOf(Zeros(k) + s, base) == ValueOf(s, base)
    decreases k + |s|
  {
    var z := Zeros(k) + s;
    if s != "" {
      assert z[..|z| - 1] == Zeros(k) + s[..|s| - 1];
      LeadingZerosKeepValue(k, s[..|s| - 1], base);
    } else if k > 0 {
      assert z[..|z| - 1] == Zeros(k - 1) + s;
      LeadingZerosKeepValue(k - 1, s, base);
    }
  }

  function Pow(b: nat, e: nat): nat {
    if e == 0 then 1 else b * Pow(b, e - 1)
  }

  lemma PowPositive(b: nat, e: nat)
    requires b > 0
    ensures Pow(b, e) > 0
  {
  }

  lemma PowSplits(b: nat, e: nat)
    requires e > 0
    ensures Pow(b, e) == b * Pow(b, e - 1)
  {
  }

  lemma DivideBelow(n: nat, base: nat, p: nat)
    requires IsBase(base)
    ensures n / base < p <==> n < base * p
  {
    if base == 10 {
      assert n / 10 < p <==> n < 10 * p;
    } else {
      assert n / 16 < p <==> n < 16 * p;
    }
  }

  lemma PowZero(b: nat)
    ensures Pow(b, 0) == 1
  {
  }

  /** A numeral below base^k is written with at most k digits, and conversely. */
  lemma {:induction false} NumeralLength(n: nat, base: nat, k: nat)
    requires IsBase(base) && k >= 1
    ensures |Numeral(n, base)| <= k <==> n < Pow(base, k)
    decreases n
  {
    hide Numeral, Pow;
    PowPositive(base, k - 1);
    PowSplits(base, k);
    if n < base {
      OneDigit(n, base);
      DivideBelow(n, base, Pow(base, k - 1));
      assert n / base == 0 by {
        DivideBelow(n, base, 1);
      }
    } else {
      NumeralSplits(n, base);
      DivideBelow(n, base, Pow(base, k - 1));
      if k == 1 {
        PowZero(base);
      } else {
        NumeralLength(n / base, base, k - 1);
      }
    }
  }
}
