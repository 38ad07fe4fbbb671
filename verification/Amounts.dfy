/**
 * Scaling between Pooli's 6-decimal base units and a token's own units, on the
 * seller's side (Go) and on the buyer's side (TypeScript), and the ERC-20 words
 * that carry the amount between them.
 */
module Amounts {
  import opened Basics
  import opened Text

  const USDT_DECIMALS := 6
  const ADDRESS_DIGITS := 40

  function Shift(tokenDecimals: int): (r: nat)
    requires tokenDecimals >= USDT_DECIMALS
    ensures r > 0
  {
    PowPositive(10, tokenDecimals - USDT_DECIMALS);
    Pow(10, tokenDecimals - USDT_DECIMALS)
  }

  predicate IsInt64(x: int) {
    MIN_INT64 <= x <= MAX_INT64
  }

  datatype AmountError = Invalid | Overflows | DecimalsTooSmall | NotAligned

  function OnChainAmountToPooliBase(onChain: Option<int>, tokenDecimals: int): Result<Int64, AmountError> {
    if onChain.None? || onChain.value < 0 then Err(Invalid)
    else if tokenDecimals == USDT_DECIMALS then
      if IsInt64(onChain.value) then Ok(onChain.value) else Err(Overflows)
    else if tokenDecimals < USDT_DECIMALS then Err(DecimalsTooSmall)
    else
      var shift := Shift(tokenDecimals);
      if onChain.value % shift != 0 then Err(NotAligned)
      else if !IsInt64(onChain.value / shift) then Err(Overflows)
      else Ok(onChain.value / shift)
  }

  /** The Go direction; fewer than six decimals leave the amount as it is. */
  function PooliBaseToOnChainAmount(pooliBase: Int64, tokenDecimals: int): int {
    if tokenDecimals <= USDT_DECIMALS then pooliBase else pooliBase * Shift(tokenDecimals)
  }

  /** The buyer's direction: a decimal string, or a thrown error below six decimals. */
  function BuyerOnChainAmount(baseUnits: nat, tokenDecimals: int): Result<string, AmountError> {
    if tokenDecimals == USDT_DECIMALS then Ok(Numeral(baseUnits, 10))
    else if tokenDecimals < USDT_DECIMALS then Err(DecimalsTooSmall)
    else Ok(Numeral(baseUnits * Shift(tokenDecimals), 10))
  }

  const TRANSFER_SELECTOR := "0xa9059cbb"

  /** transfer(address,uint256) calldata; the amount is a decimal numeral. */
  function EncodeErc20Transfer(recipient: string, onChainAmount: string): string
    requires IsNumeral(onChainAmount, 10)
  {
    var addr := PadStart(TrimPrefix(Lower(recipient), "0x"), 64);
    var amt := PadStart(Numeral(ValueOf(onChainAmount, 10), 16), 64);
    TRANSFER_SELECTOR + addr + amt
  }

  /** big.Int.SetString in base 16 after trimming, lower-casing and dropping 0x. */
  function ParseHexBigInt(s: string): Option<int> {
    var h := TrimPrefix(Lower(Trim(s, GoSpace)), "0x");
    if h == "" then Some(0)
    else if h[0] == '-' then
      if IsNumeral(h[1..], 16) then Some(0 - ValueOf(h[1..], 16)) else None
    else
      var m := if h[0] == '+' then h[1..] else h;
      if IsNumeral(m, 16) then Some(ValueOf(m, 16)) else None
  }

  function TopicAddress(addr: string): string {
    "0x" + Zeros(24) + TrimPrefix(Lower(addr), "0x")
  }

  function TopicToAddress(topic: string): string {
    var t := TrimPrefix(Lower(topic), "0x");
    if |t| < ADDRESS_DIGITS then "0x" + t else "0x" + t[|t| - ADDRESS_DIGITS..]
  }

  /** An address the EVM adapter accepts once it is lower-cased. */
  predicate IsEvmAddress(a: string) {
    |a| == 2 + ADDRESS_DIGITS && a[..2] == "0x" && IsNumeral(a[2..], 16)
  }

  lemma HexIsUntouched(h: string)
    requires forall k :: 0 <= k < |h| ==> DigitOf(h[k]) < 16
    ensures Lower(h) == h
  {
  }

  lemma MultiplesAreFar(s: nat, k: int)
    ensures k >= 1 ==> s * k >= s
    ensures k <= -1 ==> s * k <= 0 - s
  {
  }

  lemma DivideUnique(s: nat, b: int, q: int, r: int)
    requires 0 <= r < s && s * b == s * q + r
    ensures b == q
  {
    assert s * (b - q) == r;
    MultiplesAreFar(s, b - q);
  }

  lemma MultipleDivides(b: nat, s: nat)
    requires s > 0
    ensures b * s >= 0 && (b * s) % s == 0 && (b * s) / s == b
  {
    var m: nat := b * s;
    DivideUnique(s, b, m / s, m % s);
  }

  /** Scaling an accepted on-chain amount back up loses nothing. */
  lemma AcceptedScalesBackExactly(x: int, d: int)
    requires d >= USDT_DECIMALS
    requires OnChainAmountToPooliBase(Some(x), d).Ok?
    ensures var b := OnChainAmountToPooliBase(Some(x), d).value;
      b >= 0 && x == b * Shift(d) && PooliBaseToOnChainAmount(b, d) == x
  {
    var shift := Shift(d);
    if d == USDT_DECIMALS {
      assert shift == 1;
    } else {
      assert x == shift * (x / shift) + x % shift;
    }
  }

  lemma ShiftAtSix(d: int)
    requires d >= USDT_DECIMALS
    ensures d == USDT_DECIMALS ==> Shift(d) == 1
  {
  }

  lemma MultipleIsAccepted(b: Int64, d: int)
    requires d >= USDT_DECIMALS && b >= 0
    ensures OnChainAmountToPooliBase(Some(b * Shift(d)), d) == Ok(b)
  {
    MultipleDivides(b, Shift(d));
    if d == USDT_DECIMALS {
      assert b * Shift(d) == b;
    }
  }

  /** Exactly the multiples of the shift whose quotient is a non-negative int64 are accepted. */
  lemma AcceptedExactlyWhenAligned(x: int, d: int)
    requires d >= USDT_DECIMALS
    ensures OnChainAmountToPooliBase(Some(x), d).Ok? <==>
            exists b: Int64 :: b >= 0 && x == b * Shift(d)
  {
    if OnChainAmountToPooliBase(Some(x), d).Ok? {
      AcceptedScalesBackExactly(x, d);
    }
    if b: Int64 :| b >= 0 && x == b * Shift(d) {
      MultipleIsAccepted(b, d);
    }
  }

  lemma TrimKeepsSolid(s: string, space: char -> bool)
    requires s != "" && !space(s[0]) && !space(s[|s| - 1])
    ensures Trim(s, space) == s
  {
  }

  /** A hex word without sign parses to its value. */
  lemma HexWordParses(w: string)
    requires IsNumeral(w, 16)
    ensures ParseHexBigInt("0x" + w) == Some(ValueOf(w, 16))
  {
    var s := "0x" + w;
    assert s[|s| - 1] == w[|w| - 1];
    TrimKeepsSolid(s, GoSpace);
    HexIsUntouched(w);
    assert Lower(s) == s;
    assert s[|"0x"|..] == w;
    assert DigitOf(w[0]) < 16;
  }

  lemma PaddedWordParses(v: nat, width: nat)
    requires width >= 1 && v < Pow(16, width)
    ensures var w := PadStart(Numeral(v, 16), width);
      |w| == width && ParseHexBigInt("0x" + w) == Some(v)
  {
    hide Numeral, ValueOf, Pow, ParseHexBigInt;
    var n := Numeral(v, 16);
    NumeralLength(v, 16, width);
    NumeralRoundTrip(v, 16);
    LeadingZerosKeepValue(width - |n|, n, 16);
    assert Zeros(0) + n == n;
    HexWordParses(Zeros(width - |n|) + n);
  }

  /**
   * The whole way round: the buyer's wallet scales and encodes, the watcher reads the last
   * word of the calldata back as the amount of the log, and scales down to the same base units.
   */
  lemma AmountRoundTrip(base: Int64, d: int, recipient: string)
    requires base >= 0 && d >= USDT_DECIMALS
    requires base * Shift(d) < Pow(16, 64)
    ensures var text := BuyerOnChainAmount(base, d);
      && text.Ok?
      && IsNumeral(text.value, 10)
      && ValueOf(text.value, 10) == PooliBaseToOnChainAmount(base, d)
      && var call := EncodeErc20Transfer(recipient, text.value);
      && |call| >= 64
      && var data := ParseHexBigInt("0x" + call[|call| - 64..]);
      && data == Some(PooliBaseToOnChainAmount(base, d))
      && OnChainAmountToPooliBase(data, d) == Ok(base)
  {
    hide Numeral, ValueOf, Pow, ParseHexBigInt, OnChainAmountToPooliBase, Lower, TrimPrefix;
    var shift := Shift(d);
    var v: nat := base * shift;
    ShiftAtSix(d);
    NumeralRoundTrip(v, 10);
    PaddedWordParses(v, 64);
    MultipleIsAccepted(base, d);
    var text := BuyerOnChainAmount(base, d).value;
    var call := EncodeErc20Transfer(recipient, text);
    var w := PadStart(Numeral(v, 16), 64);
    assert call[|call| - 64..] == w;
  }

  /** The calldata of a transfer is the selector and two words, and the first word names the recipient. */
  lemma RecipientRoundTrip(recipient: string, onChainAmount: string)
    requires IsNumeral(onChainAmount, 10) && ValueOf(onChainAmount, 10) < Pow(16, 64)
    requires IsEvmAddress(Lower(recipient))
    ensures var call := EncodeErc20Transfer(recipient, onChainAmount);
      && |call| == 138 && call[..10] == "0xa9059cbb"
      && TopicToAddress("0x" + call[10..74]) == Lower(recipient)
  {
    hide Numeral, ValueOf, Pow;
    var v := ValueOf(onChainAmount, 10);
    AmountFitsOneWord(v);
    TopicRoundTrip(recipient);
    var call := EncodeErc20Transfer(recipient, onChainAmount);
    var h := TrimPrefix(Lower(recipient), "0x");
    assert "0x" <= Lower(recipient) by { assert Lower(recipient)[..2] == "0x"; }
    assert |h| == ADDRESS_DIGITS;
    assert call == TRANSFER_SELECTOR + (Zeros(24) + h) + PadStart(Numeral(v, 16), 64);
    assert call[10..74] == Zeros(24) + h;
    assert "0x" + (Zeros(24) + h) == TopicAddress(recipient);
  }

  /** The amount fills exactly one 32-byte word if and only if it fits a uint256. */
  lemma AmountFitsOneWord(v: nat)
    ensures |PadStart(Numeral(v, 16), 64)| == 64 <==> v < Pow(16, 64)
  {
    NumeralLength(v, 16, 64);
  }

  /** Filtering logs by destination topic and reading the topic back agree on every valid address. */
  lemma TopicRoundTrip(a: string)
    requires IsEvmAddress(Lower(a))
    ensures TopicToAddress(TopicAddress(a)) == Lower(a)
    ensures |TopicAddress(a)| == 66
  {
    var l := Lower(a);
    var h := l[2..];
    assert "0x" <= l by { assert l[..2] == "0x"; }
    assert TrimPrefix(l, "0x") == h;
    var t := TopicAddress(a);
    assert t == "0x" + (Zeros(24) + h);
    HexIsUntouched(Zeros(24) + h);
    assert Lower(t) == t;
    assert TrimPrefix(t, "0x") == Zeros(24) + h;
    assert (Zeros(24) + h)[24..] == h;
    assert l == "0x" + h;
  }

  /** The blocks from a transfer's up to the head, both counted; none while the head is behind. */
  function Confirmations(head: nat, block: nat): (n: nat)
    ensures n > 0 <==> block <= head
    ensures n > 0 ==> block + n == head + 1
  {
    if head < block then 0 else head - block + 1
  }

  /** Six decimals scale by one, and each further decimal by ten. */
  lemma ScaleIsDecimal(d: int)
    requires d >= 6
    ensures Shift(6) == 1 && Shift(d + 1) == 10 * Shift(d)
    ensures Shift(18) == 1_000_000_000_000
  {
    assert Pow(10, 4) == 10_000;
    assert Pow(10, 8) == 10_000 * Pow(10, 4);
    assert Pow(10, 12) == 10_000 * Pow(10, 8);
  }

  /**
   * An on-chain amount is refused as invalid if and only if it is missing or negative, for too few decimals if and
   * only if there are fewer than six, as not aligned if and only if scaling would lose digits, and as too large if and
   * only if the quotient passes an int64.
   */
  lemma AmountIsRefusedExactly(x: Option<int>, d: int)
    ensures var r := OnChainAmountToPooliBase(x, d);
      && (r == Err(Invalid) <==> x.None? || x.value < 0)
      && (r == Err(DecimalsTooSmall) <==> x.Some? && x.value >= 0 && d < 6)
      && (r == Err(NotAligned) <==> x.Some? && x.value >= 0 && d > 6 && x.value % Shift(d) != 0)
      && (r == Err(Overflows) <==>
            && x.Some? && x.value >= 0 && d >= 6 && x.value % Shift(d) == 0
            && x.value / Shift(d) > 0x7FFF_FFFF_FFFF_FFFF)
  {
    if d >= 6 {
      ShiftAtSix(d);
      if x.Some? && x.value >= 0 {
        QuotientIsNat(x.value, Shift(d));
      }
    }
    hide Shift;
  }

  lemma QuotientIsNat(x: nat, s: nat)
    requires s > 0
    ensures x / s >= 0 && x % 1 == 0
  {
  }

  /** Below six decimals the buyer is refused, and the seller's side leaves the amount as it is. */
  lemma ScalingBelowSix(base: nat, pooli: Int64, d: int)
    ensures BuyerOnChainAmount(base, d) == Err(DecimalsTooSmall) <==> d < 6
    ensures d <= 6 ==> PooliBaseToOnChainAmount(pooli, d) == pooli
  {
    hide Shift, Numeral;
  }

  /** A sign before the digits is read, and no digits at all are zero. */
  lemma SignedHexParses(h: string)
    requires |h| > 1 && (h[0] == '-' || h[0] == '+') && IsNumeral(h[1..], 16)
    ensures ParseHexBigInt("0x" + h) == Some(if h[0] == '-' then 0 - ValueOf(h[1..], 16) else ValueOf(h[1..], 16))
    ensures ParseHexBigInt("0x") == Some(0)
  {
    SignedHexIsKept(h);
    NothingIsKept();
    hide Trim, ValueOf, IsNumeral, Lower, TrimPrefix;
  }

  lemma NothingIsKept()
    ensures TrimPrefix(Lower(Trim("0x", GoSpace)), "0x") == ""
  {
    TrimKeepsSolid("0x", GoSpace);
    assert Lower("0x") == "0x" && "0x"[2..] == "";
  }

  lemma SignedHexIsKept(h: string)
    requires |h| > 1 && (h[0] == '-' || h[0] == '+') && IsNumeral(h[1..], 16)
    ensures TrimPrefix(Lower(Trim("0x" + h, GoSpace)), "0x") == h
  {
    var s := "0x" + h;
    assert forall k :: 1 <= k < |h| ==> h[k] == h[1..][k - 1];
    assert s[|s| - 1] == h[|h| - 1];
    TrimKeepsSolid(s, GoSpace);
    assert Lower(s) == s;
    assert s[2..] == h;
  }

  /** A topic of at most 40 digits is taken whole, and of a longer one the last 40. */
  lemma TopicsAreCut(h: string)
    requires IsNumeral(h, 16)
    ensures TopicToAddress("0x" + h) == "0x" + if |h| <= 40 then h else h[|h| - 40..]
  {
    HexIsUntouched(h);
    assert Lower("0x" + h) == "0x" + h;
    assert ("0x" + h)[2..] == h;
    if |h| == 40 {
      assert h[0..] == h;
    }
  }

  /** Hex text is read if and only if, without space, case, prefix and sign, it is hex digits, or there is nothing. */
  lemma HexIsReadExactly(s: string)
    ensures var h := TrimPrefix(Lower(Trim(s, GoSpace)), "0x");
      var digits := if h != "" && (h[0] == '-' || h[0] == '+') then h[1..] else h;
      ParseHexBigInt(s).Some? <==>
        || h == ""
        || (digits != "" && forall k :: 0 <= k < |digits| ==> '0' <= digits[k] <= '9' || 'a' <= digits[k] <= 'f')
  {
    hide Trim, Lower, TrimPrefix, ValueOf;
  }
}
