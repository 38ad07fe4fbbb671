/**
 * Toman amounts: the digit parser of the Instagram handler, and two printers that
 * group the same numbers by different loops.
 */
module Toman {
  import opened Basics
  import opened Text

  const ARABIC_SEPARATOR := '\U{066c}'

  /** ASCII, Persian and Arabic-Indic digits, as the ASCII digit written for them. */
  function AsciiDigit(r: char): (d: Option<char>)
    ensures d.Some? ==> DigitOf(d.value) < 10
  {
    if '0' <= r <= '9' then Some(r)
    else if '\U{06f0}' <= r <= '\U{06f9}' then Some(DigitChar(r as int - 0x06f0))
    else if '\U{0660}' <= r <= '\U{0669}' then Some(DigitChar(r as int - 0x0660))
    else None
  }

  predicate IsSkipped(r: char) {
    r == ',' || r == ARABIC_SEPARATOR || r == ' ' || r == '\U{00a0}' || GoSpace(r)
  }

  /** The digits of s in order, separators dropped; None when any other character occurs. */
  function DigitsIn(s: string): Option<string> {
    if s == "" then Some("")
    else
      var front := DigitsIn(s[..|s| - 1]);
      var r := s[|s| - 1];
      if front.None? then None
      else if AsciiDigit(r).Some? then Some(front.value + [AsciiDigit(r).value])
      else if IsSkipped(r) then front
      else None
  }

  function ParsedToman(s: string): Option<Int64> {
    var digits := DigitsIn(s);
    if digits.None? || digits.value == "" then None
    else
      var n := ValueOf(digits.value, 10);
      if n > MAX_INT64 || n <= 0 then None else Some(n)
  }

  lemma {:induction false} OneBadCharacterSpoils(s: string, k: nat)
    requires k < |s| && AsciiDigit(s[k]).None? && !IsSkipped(s[k])
    ensures DigitsIn(s).None?
  {
    if k < |s| - 1 {
      OneBadCharacterSpoils(s[..|s| - 1], k);
    }
  }

  method ParseTomanDigits(s: string) returns (n: Int64, ok: bool)
    ensures ok == ParsedToman(s).Some?
    ensures n == if ok then ParsedToman(s).value else 0
  {
    var b := "";
    var i := 0;
    while i < |s|
      invariant 0 <= i <= |s|
      invariant DigitsIn(s[..i]) == Some(b)
    {
      assert s[..i + 1][..i] == s[..i];
      var digit := AsciiDigit(s[i]);
      if digit.Some? {
        b := b + [digit.value];
      } else if !IsSkipped(s[i]) {
        OneBadCharacterSpoils(s, i);
        return 0, false;
      }
      i := i + 1;
    }
    assert s[..i] == s;
    if b == "" {
      return 0, false;
    }
    var v := ValueOf(b, 10);
    if v > MAX_INT64 || v <= 0 {
      return 0, false;
    }
    return v, true;
  }

  /** strconv.FormatInt in base 10. */
  function FormatInt(n: Int64): (s: string)
    ensures s != ""
  {
    if n < 0 then "-" + Numeral(0 - n, 10) else Numeral(n, 10)
  }

  /** Groups of three counted from the right. */
  function Grouped(s: string, sep: char): string {
    if |s| <= 3 then s else Grouped(s[..|s| - 3], sep) + [sep] + s[|s| - 3..]
  }

  function Join(parts: seq<string>, sep: char): string {
    if parts == [] then ""
    else if |parts| == 1 then parts[0]
    else parts[0] + [sep] + Join(parts[1..], sep)
  }

  lemma JoinAfterHead(a: string, parts: seq<string>, sep: char)
    requires parts != []
    ensures Join([a] + parts, sep) == a + [sep] + Join(parts, sep)
  {
    assert ([a] + parts)[1..] == parts;
  }

  /** The Instagram printer: peel three digits off the right end until at most three are left. */
  method FormatTomanPeeling(n: Int64, sep: char) returns (r: string)
    ensures r == Grouped(FormatInt(n), sep)
  {
    hide FormatInt;
    var s := FormatInt(n);
    if |s| <= 3 {
      return s;
    }
    var parts: seq<string> := [];
    while |s| > 3
      invariant s != ""
      invariant |s| <= 3 ==> parts != []
      invariant Grouped(FormatInt(n), sep) ==
                if parts == [] then Grouped(s, sep) else Grouped(s, sep) + [sep] + Join(parts, sep)
      decreases |s|
    {
      var tail := s[|s| - 3..];
      if parts != [] {
        JoinAfterHead(tail, parts, sep);
      }
      parts := [tail] + parts;
      s := s[..|s| - 3];
    }
    JoinAfterHead(s, parts, sep);
    parts := [s] + parts;
    r := Join(parts, sep);
  }

  /** What the left-to-right scan has written after k characters of s. */
  function Scanned(s: string, k: nat, sep: char): string
    requires k <= |s|
  {
    if k == 0 then ""
    else
      Scanned(s, k - 1, sep) +
      (if k - 1 > 0 && (|s| - (k - 1)) % 3 == 0 then [sep] else "") + [s[k - 1]]
  }

  /** The e-mail printer: negate in int64, scan from the left, put the sign back. */
  method FormatTomanScanning(n: Int64, sep: char) returns (r: string)
    ensures r == ScannedToman(n, sep)
  {
    var neg := n < 0;
    var m := n;
    if neg {
      m := Wrap64(0 - n);
    }
    var s := FormatInt(m);
    var b := "";
    for i := 0 to |s|
      invariant b == Scanned(s, i, sep)
    {
      if i > 0 && (|s| - i) % 3 == 0 {
        b := b + [sep];
      }
      b := b + [s[i]];
    }
    r := if neg then "-" + b else b;
  }

  function ScannedToman(n: Int64, sep: char): string {
    var s := FormatInt(if n < 0 then Wrap64(0 - n) else n);
    var b := Scanned(s, |s|, sep);
    if n < 0 then "-" + b else b
  }

  lemma {:induction false} ScanIgnoresTail(p: string, t: string, k: nat, sep: char)
    requires |t| == 3 && k <= |p|
    ensures Scanned(p + t, k, sep) == Scanned(p, k, sep)
  {
    if k > 0 {
      ScanIgnoresTail(p, t, k - 1, sep);
    }
  }

  lemma ScanSteps(s: string, k: nat, sep: char)
    requires k < |s|
    ensures Scanned(s, k + 1, sep)
         == Scanned(s, k, sep) + (if k > 0 && (|s| - k) % 3 == 0 then [sep] + [s[k]] else [s[k]])
  {
    if k > 0 && (|s| - k) % 3 == 0 {
      assert Scanned(s, k, sep) + [sep] + [s[k]] == Scanned(s, k, sep) + ([sep] + [s[k]]);
    } else {
      assert Scanned(s, k, sep) + "" + [s[k]] == Scanned(s, k, sep) + [s[k]];
    }
  }

  lemma ShortScan(s: string, sep: char)
    requires |s| <= 3
    ensures Scanned(s, |s|, sep) == s
  {
    if |s| >= 1 { ScanSteps(s, 0, sep); }
    if |s| >= 2 { ScanSteps(s, 1, sep); }
    if |s| >= 3 { ScanSteps(s, 2, sep); }
  }

  lemma GroupStep(s: string, sep: char)
    requires |s| > 3
    ensures Grouped(s, sep) == Grouped(s[..|s| - 3], sep) + [sep] + s[|s| - 3..]
  {
  }

  lemma ThreeAppends(p: string, sep: char, x: char, y: char, z: char)
    ensures p + ([sep] + [x]) + [y] + [z] == p + [sep] + ([x] + [y] + [z])
  {
  }

  /** Scanning from the left and grouping from the right put separators at the same places. */
  lemma {:induction false} ScanIsGrouping(s: string, sep: char)
    ensures Scanned(s, |s|, sep) == Grouped(s, sep)
  {
    var n := |s|;
    if n <= 3 {
      ShortScan(s, sep);
    } else {
      hide Scanned;
      var p, t := s[..n - 3], s[n - 3..];
      assert s == p + t;
      ScanIsGrouping(p, sep);
      ScanIgnoresTail(p, t, n - 3, sep);
      ScanSteps(s, n - 3, sep);
      ScanSteps(s, n - 2, sep);
      ScanSteps(s, n - 1, sep);
      hide Grouped;
      assert t == [s[n - 3]] + [s[n - 2]] + [s[n - 1]];
      GroupStep(s, sep);
      ThreeAppends(Scanned(s, n - 3, sep), sep, s[n - 3], s[n - 2], s[n - 1]);
    }
  }

  /** A leading minus sign is taken for a digit and gets a separator of its own when the digits fill whole groups. */
  lemma {:induction false} GroupingAMinusSign(d: string, sep: char)
    requires d != ""
    ensures Grouped("-" + d, sep) == "-" + (if |d| % 3 == 0 then [sep] else "") + Grouped(d, sep)
  {
    var s := "-" + d;
    if |d| >= 3 {
      assert s[|s| - 3..] == d[|d| - 3..];
      assert s[..|s| - 3] == "-" + d[..|d| - 3];
      if |d| == 3 {
        assert Grouped("-" + d[..0], sep) == "-";
      } else {
        GroupingAMinusSign(d[..|d| - 3], sep);
      }
    }
  }

  /** A negative number is negated exactly, except for the least int64, which is its own negation. */
  lemma NegationWraps(n: Int64)
    requires n < 0
    ensures n == MIN_INT64 ==> Wrap64(0 - n) == n
    ensures n != MIN_INT64 ==> Wrap64(0 - n) == 0 - n
  {
  }

  /** The two printers agree on every non-negative int64, and exactly when they agree on the rest. */
  lemma PrintersAgreeExactly(n: Int64, sep: char)
    ensures Grouped(FormatInt(n), sep) == ScannedToman(n, sep) <==>
            n >= 0 || (n != MIN_INT64 && |Numeral(0 - n, 10)| % 3 != 0)
  {
    hide Numeral, Grouped, Scanned, Wrap64;
    var m := if n < 0 then Wrap64(0 - n) else n;
    ScanIsGrouping(FormatInt(m), sep);
    if n < 0 {
      NegationWraps(n);
      if m == n {
        assert |ScannedToman(n, sep)| == 1 + |Grouped(FormatInt(n), sep)|;
      } else {
        var d := Numeral(0 - n, 10);
        GroupingAMinusSign(d, sep);
        assert ScannedToman(n, sep) == "-" + Grouped(d, sep);
        assert |d| % 3 != 0 ==> "-" + "" + Grouped(d, sep) == "-" + Grouped(d, sep);
        assert |"-" + [sep] + Grouped(d, sep)| != |"-" + Grouped(d, sep)|;
      }
    }
  }

  lemma {:induction false} DigitsInAppend(a: string, b: string)
    requires DigitsIn(a).Some? && DigitsIn(b).Some?
    ensures DigitsIn(a + b) == Some(DigitsIn(a).value + DigitsIn(b).value)
    decreases |b|
  {
    hide AsciiDigit, IsSkipped;
    if b == "" {
      assert a + b == a;
      assert DigitsIn(a).value + "" == DigitsIn(a).value;
    } else {
      var n := |b| - 1;
      assert (a + b)[..|a| + n] == a + b[..n] && (a + b)[|a| + n] == b[n];
      DigitsInAppend(a, b[..n]);
      if AsciiDigit(b[n]).Some? {
        var front, d := DigitsIn(b[..n]).value, AsciiDigit(b[n]).value;
        assert DigitsIn(a).value + front + [d] == DigitsIn(a).value + (front + [d]);
      }
    }
  }

  lemma {:induction false} DigitsInNumeral(s: string)
    requires forall k :: 0 <= k < |s| ==> DigitOf(s[k]) < 10
    ensures DigitsIn(s) == Some(s)
  {
    if s != "" {
      DigitsInNumeral(s[..|s| - 1]);
      assert s[..|s| - 1] + [s[|s| - 1]] == s;
    }
  }

  lemma {:induction false} DigitsInGrouped(s: string, sep: char)
    requires forall k :: 0 <= k < |s| ==> DigitOf(s[k]) < 10
    requires IsSkipped(sep) && AsciiDigit(sep).None?
    ensures DigitsIn(Grouped(s, sep)) == Some(s)
  {
    if |s| <= 3 {
      DigitsInNumeral(s);
    } else {
      var p, t := s[..|s| - 3], s[|s| - 3..];
      DigitsInGrouped(p, sep);
      DigitsInNumeral(t);
      assert [sep][..0] == "";
      assert DigitsIn([sep]) == Some("");
      DigitsInAppend(Grouped(p, sep), [sep]);
      DigitsInAppend(Grouped(p, sep) + [sep], t);
      assert p + "" + t == s;
    }
  }

  /** Parsing what either printer writes gives the number back, for every positive int64 and either separator. */
  lemma TomanRoundTrip(n: Int64, sep: char)
    requires n > 0
    requires sep == ',' || sep == ARABIC_SEPARATOR
    ensures ParsedToman(Grouped(FormatInt(n), sep)) == Some(n)
    ensures ParsedToman(ScannedToman(n, sep)) == Some(n)
  {
    DigitsInGrouped(Numeral(n, 10), sep);
    NumeralRoundTrip(n, 10);
    PrintersAgreeExactly(n, sep);
  }

  predicate IsDigit(r: char) {
    '0' <= r <= '9' || '\U{06f0}' <= r <= '\U{06f9}' || '\U{0660}' <= r <= '\U{0669}'
  }

  /** The value of a digit of any of the three scripts. */
  function Worth(r: char): nat
    requires IsDigit(r)
  {
    if r <= '9' then r as int - 0x30 else if r <= '\U{0669}' then r as int - 0x660 else r as int - 0x6F0
  }

  predicate IsSeparator(r: char) {
    r == ',' || r == '\U{066c}' || GoSpace(r)
  }

  /** The number whose decimal digits are those of the text, in order. */
  function Total(s: string): nat {
    if s == "" then 0
    else
      var front, r := Total(s[..|s| - 1]), s[|s| - 1];
      if IsDigit(r) then front * 10 + Worth(r) else front
  }

  lemma OneCharacter(r: char)
    ensures AsciiDigit(r).Some? <==> IsDigit(r)
    ensures IsDigit(r) ==> DigitOf(AsciiDigit(r).value) == Worth(r)
    ensures !IsDigit(r) ==> (IsSkipped(r) <==> IsSeparator(r))
  {
  }

  lemma {:induction false} DigitsAreRead(s: string)
    ensures DigitsIn(s).Some? <==> forall k :: 0 <= k < |s| ==> IsDigit(s[k]) || IsSeparator(s[k])
    ensures DigitsIn(s).Some? ==> ValueOf(DigitsIn(s).value, 10) == Total(s)
  {
    hide AsciiDigit, IsDigit, IsSeparator, IsSkipped, ValueOf, DigitOf, Worth;
    if s == "" {
      assert ValueOf("", 10) == 0 by {
        NumberOfNothing();
      }
    } else {
      var front, r := s[..|s| - 1], s[|s| - 1];
      DigitsAreRead(front);
      OneCharacter(r);
      assert forall k :: 0 <= k < |front| ==> front[k] == s[k];
      if DigitsIn(front).Some? && IsDigit(r) {
        ValueOfAppend(DigitsIn(front).value, AsciiDigit(r).value, 10);
      }
    }
  }

  lemma NumberOfNothing()
    ensures ValueOf("", 10) == 0
  {
  }

  /**
   * A text is read if and only if it has nothing but digits of the three scripts and separators, and its digits make a
   * positive int64; it is read as that number.
   */
  lemma TomanIsReadExactly(s: string)
    ensures ParsedToman(s) ==
      if (forall k :: 0 <= k < |s| ==> IsDigit(s[k]) || IsSeparator(s[k])) && 1 <= Total(s) <= 0x7FFF_FFFF_FFFF_FFFF
      then Some(Total(s)) else None
  {
    DigitsAreRead(s);
    NumberOfNothing();
    hide DigitsIn, Total, ValueOf, IsDigit, IsSeparator;
  }

  /** Zero is printed as 0, and a negative number as its absolute value behind a minus sign, the least int64 apart. */
  lemma SignsArePrinted(n: Int64, sep: char)
    ensures FormatInt(0) == "0" && ScannedToman(0, sep) == "0"
    ensures MIN_INT64 < n < 0 ==>
      FormatInt(n) == "-" + FormatInt(0 - n) && ScannedToman(n, sep) == "-" + ScannedToman(0 - n, sep)
  {
    hide Numeral, Scanned, Wrap64;
    ZeroIsPrinted(sep);
    if n < 0 {
      NegationWraps(n);
    }
  }

  lemma ZeroIsPrinted(sep: char)
    ensures Numeral(0, 10) == "0" && Scanned("0", 1, sep) == "0"
  {
    ShortScan("0", sep);
  }
}
