/** Token amounts in different numbers of decimals, by digit strings and by
    arithmetic, and the roundings built on them. */
module Conversions {
  import opened Wrappers
  import opened Decimals

  /** BigNumber.div: truncates toward zero. */
  function TruncDiv(a: int, b: int): int
    requires b != 0
  {
    if (a < 0) == (b < 0) then Abs(a) / Abs(b) else -(Abs(a) / Abs(b))
  }

  function Abs(a: int): nat { if a < 0 then -a else a }

  // --------------------------------------------------------------- rounding

  /** q is the integer quotient of x by d rounded down, and rounded up. */
  predicate IsFloor(q: int, x: int, d: int) { d * q <= x < d * q + d }
  predicate IsCeil(q: int, x: int, d: int) { d * q - d < x <= d * q }

  /** Every multiple of d that is not above x belongs to an integer up to q. */
  ghost predicate Greatest(q: int, x: int, d: int) { forall y: int :: d * y <= x <==> y <= q }

  /** Every multiple of d that is not below x belongs to an integer from q on. */
  ghost predicate Least(q: int, x: int, d: int) { forall y: int :: x <= d * y <==> q <= y }

  /** Rounding down is giving the greatest integer whose multiple is not above x. */
  lemma FloorIsTheGreatest(q: int, x: int, d: int)
    requires d > 0
    ensures IsFloor(q, x, d) <==> Greatest(q, x, d)
  {
    Expand(d, q);
    if IsFloor(q, x, d) {
      forall y: int ensures d * y <= x <==> y <= q {
        if y <= q {
          MulLeq(d, y, q);
        } else {
          MulLeq(d, q + 1, y);
        }
      }
    }
    if Greatest(q, x, d) {
      assert d * q <= x && !(d * (q + 1) <= x);
    }
  }

  /** Rounding up is giving the least integer whose multiple is not below x. */
  lemma CeilIsTheLeast(q: int, x: int, d: int)
    requires d > 0
    ensures IsCeil(q, x, d) <==> Least(q, x, d)
  {
    Expand(d, q - 1);
    if IsCeil(q, x, d) {
      forall y: int ensures x <= d * y <==> q <= y {
        if q <= y {
          MulLeq(d, q, y);
        } else {
          MulLeq(d, y, q - 1);
        }
      }
    }
    if Least(q, x, d) {
      assert x <= d * q && !(x <= d * (q - 1));
    }
  }

  lemma Expand(d: int, q: int)
    ensures d * (q + 1) == d * q + d
    ensures d * (-q) == -(d * q)
  {
  }

  lemma TruncIs(x: int, d: int) returns (q: int, r: int)
    requires d > 0
    ensures 0 <= r < d && q >= 0
    ensures Abs(x) == d * q + r && r == Abs(x) % d
    ensures TruncDiv(x, d) == if x < 0 then -q else q
    ensures d * TruncDiv(x, d) == if x < 0 then -(d * q) else d * q
  {
    q, r := Abs(x) / d, Abs(x) % d;
    Expand(d, q);
  }

  /** The amounts that truncation takes to the integer below or equal. */
  predicate CutsDown(x: int, d: int)
    requires d > 0
  {
    x >= 0 || Abs(x) % d == 0
  }

  /** Truncation rounds down exactly on the non-negative numbers and on the
      multiples of the divisor, and rounds up exactly on the non-positive ones
      and the multiples. */
  lemma WhenTruncationRounds(x: int, d: int)
    requires d > 0
    ensures IsFloor(TruncDiv(x, d), x, d) <==> CutsDown(x, d)
    ensures IsCeil(TruncDiv(x, d), x, d) <==> x <= 0 || Abs(x) % d == 0
  {
    var q, r := TruncIs(x, d);
  }

  /** The usual round-up, add the divisor less one and divide. */
  function RoundUp(x: int, d: int): int
    requires d != 0
  {
    if x == 0 then 0 else TruncDiv(x + d - 1, d)
  }

  /** The amounts that the usual round-up takes to the integer above or equal. */
  predicate CoversUp(x: int, d: int)
    requires d > 0
  {
    x > -d || Abs(x) % d == d - 1
  }

  /** It rounds up every non-negative number; below zero it does so only above
      minus the divisor or one short of the next multiple, because the division
      truncates. */
  lemma WhenRoundUpRoundsUp(x: int, d: int)
    requires d > 0
    ensures IsCeil(RoundUp(x, d), x, d) <==> CoversUp(x, d)
  {
    if x != 0 {
      var q, r := TruncIs(x + d - 1, d);
      Expand(d, q);
      if x <= -d {
        RemainderOneLess(x, d, q, r);
      }
    }
  }

  lemma RemainderOneLess(x: int, d: int, q: int, r: int)
    requires d > 0 && x <= -d && -(x + d - 1) == d * q + r && 0 <= r < d
    ensures Abs(x) % d == if r == 0 then d - 1 else r - 1
  {
    Expand(d, q);
    if r == 0 {
      DivIs(Abs(x), d, q, d - 1);
    } else {
      DivIs(Abs(x), d, q + 1, r - 1);
    }
  }

  // ---------------------------------------------------------------- changing

  /** x in `from` decimals expressed in `to` decimals, cutting off what does not fit. */
  function Rescaled(x: int, from: nat, to: nat): int {
    if from <= to then x * Pow10(to - from) else TruncDiv(x, Pow10(from - to))
  }

  /** Number.prototype.slice(0, end) on strings: a negative end counts from the back. */
  function SliceTo(s: string, end: int): string {
    if end >= |s| then s
    else if end >= 0 then s[..end]
    else if |s| + end > 0 then s[..|s| + end]
    else ""
  }

  function PadEnd(s: string, length: int): string {
    if length <= |s| then s else s + Zeros(length - |s|)
  }

  /** BigNumber.from on a decimal string. */
  function BigNumberFrom(s: string): Result<int, ()> {
    if s != "" && AreDigits(s) then Ok(Value(s))
    else if |s| > 1 && s[0] == '-' && AreDigits(s[1..]) then Ok(Negated(Value(s[1..])))
    else Err(())
  }

  function Negated(n: nat): int { 0 - n }

  function Signed(negative: bool, s: string): string { if negative then "-" + s else s }

  lemma SignedValue(negative: bool, s: string)
    requires s != "" && AreDigits(s)
    ensures BigNumberFrom(Signed(negative, s)) == Ok(if negative then Negated(Value(s)) else Value(s))
  {
    if negative {
      var t := Signed(negative, s);
      assert t[0] == '-' && !IsDigit(t[0]);
      assert t[1..] == s;
    }
  }

  /** The digits with zeros appended, or with the last ones cut off. */
  function ChangedText(absStr: string, currDecimals: nat, targetDecimals: nat): string {
    if currDecimals < targetDecimals then absStr + Zeros(targetDecimals - currDecimals)
    else if currDecimals > targetDecimals then SliceTo(absStr, -(currDecimals - targetDecimals))
    else absStr
  }

  function TokenChangeDecimals(tokenWei: int, currDecimals: nat, targetDecimals: nat): Result<int, ()> {
    var isNegative := tokenWei < 0;
    var absStr := Digits(Abs(tokenWei));
    if currDecimals > targetDecimals && |absStr| <= currDecimals - targetDecimals then Ok(0)
    else
      var result := BigNumberFrom(ChangedText(absStr, currDecimals, targetDecimals));
      if result.Err? then result
      else Ok(if isNegative then result.value * -1 else result.value)
  }

  /** The digit-string conversion never fails and is the arithmetic one. */
  lemma TokenChangeIsExact(x: int, from: nat, to: nat)
    ensures TokenChangeDecimals(x, from, to) == Ok(Rescaled(x, from, to))
  {
    var s := Digits(Abs(x));
    DigitsHaveTheirValue(Abs(x));
    ChangedTextIsExact(s, from, to);
    if from <= to {
      SignsMultiply(x, Pow10(to - from));
    }
  }

  lemma ChangedTextIsExact(s: string, from: nat, to: nat)
    requires AreDigits(s) && s != ""
    ensures from > to && |s| <= from - to ==> Value(s) / Pow10(from - to) == 0
    ensures var text := ChangedText(s, from, to);
            !(from > to && |s| <= from - to) ==>
              && text != "" && AreDigits(text)
              && Value(text) == if from <= to then Value(s) * Pow10(to - from) else Value(s) / Pow10(from - to)
  {
    if from < to {
      AppendingZerosMultiplies(s, to - from);
    } else if from > to {
      var k := from - to;
      if |s| <= k {
        FewDigitsAreSmall(s, k);
        DivIs(Value(s), Pow10(k), 0, Value(s));
      } else {
        DroppingDigitsDivides(s, k);
      }
    } else {
      assert Value(s) * Pow10(0) == Value(s);
    }
  }

  lemma SignsMultiply(x: int, p: nat)
    ensures x * p == if x < 0 then -(Abs(x) * p) else Abs(x) * p
  {
  }

  const WAD_DECIMALS: nat := 18

  function ConvertWadToTokenDecimals(wadAmount: int, tokenDecimals: nat): int {
    if tokenDecimals == 18 then wadAmount
    else if tokenDecimals < 18 then TruncDiv(wadAmount, Pow10(18 - tokenDecimals))
    else wadAmount * Pow10(tokenDecimals - 18)
  }

  function ConvertWadToTokenDecimalsCeil(wadAmount: int, tokenDecimals: nat): int {
    if tokenDecimals == 18 then wadAmount
    else if tokenDecimals < 18 then RoundUp(wadAmount, Pow10(18 - tokenDecimals))
    else wadAmount * Pow10(tokenDecimals - 18)
  }

  function ConvertTokenDecimalsToWad(tokenAmount: int, tokenDecimals: nat): int {
    if tokenDecimals == 18 then tokenAmount
    else if tokenDecimals < 18 then tokenAmount * Pow10(18 - tokenDecimals)
    else TruncDiv(tokenAmount, Pow10(tokenDecimals - 18))
  }

  /** The two WAD conversions and the digit-string conversion agree. */
  lemma ConversionsAgree(x: int, decimals: nat)
    ensures TokenChangeDecimals(x, WAD_DECIMALS, decimals) == Ok(ConvertWadToTokenDecimals(x, decimals))
    ensures TokenChangeDecimals(x, decimals, WAD_DECIMALS) == Ok(ConvertTokenDecimalsToWad(x, decimals))
  {
    RescaleAgrees(x, WAD_DECIMALS, decimals);
    TokenChangeIsExact(x, WAD_DECIMALS, decimals);
    TokenChangeIsExact(x, decimals, WAD_DECIMALS);
  }

  lemma RescaleAgrees(x: int, wad: nat, decimals: nat)
    requires wad == 18
    ensures Rescaled(x, wad, decimals) == ConvertWadToTokenDecimals(x, decimals)
    ensures Rescaled(x, decimals, wad) == ConvertTokenDecimalsToWad(x, decimals)
  {
    if decimals == wad {
      assert Pow10(0) == 1;
    }
  }

  /** Going to more decimals and back gives the amount back, whatever its sign. */
  lemma WideningThenNarrowing(x: int, from: nat, to: nat)
    requires from <= to
    ensures Rescaled(Rescaled(x, from, to), to, from) == x
  {
    var p := Pow10(to - from);
    if from == to {
      assert x * 1 == x;
    } else {
      SignsMultiply(x, p);
      assert Abs(x * p) == p * Abs(x) + 0;
      DivIs(Abs(x * p), p, Abs(x), 0);
    }
  }

  /** fromWad after toWad is the identity for tokens of at most 18 decimals, and
      toWad after fromWad for tokens of at least 18. */
  lemma WadRoundTrip(x: int, decimals: nat)
    ensures decimals <= 18 ==> ConvertWadToTokenDecimals(ConvertTokenDecimalsToWad(x, decimals), decimals) == x
    ensures decimals >= 18 ==> ConvertTokenDecimalsToWad(ConvertWadToTokenDecimals(x, decimals), decimals) == x
  {
    var wad: nat := 18;
    RescaleAgrees(x, wad, decimals);
    if decimals <= wad {
      RescaleAgrees(Rescaled(x, decimals, wad), wad, decimals);
      WideningThenNarrowing(x, decimals, wad);
    }
    if decimals >= wad {
      RescaleAgrees(Rescaled(x, wad, decimals), wad, decimals);
      WideningThenNarrowing(x, wad, decimals);
    }
  }

  /** `down` is the greatest token amount worth no more than x, and `up` the least
      worth no less. */
  ghost predicate BestBelow(down: int, x: int, decimals: nat) {
    forall y: int :: ConvertTokenDecimalsToWad(y, decimals) <= x <==> y <= down
  }

  ghost predicate BestAbove(up: int, x: int, decimals: nat) {
    forall y: int :: x <= ConvertTokenDecimalsToWad(y, decimals) <==> up <= y
  }

  /** For a token of at most 18 decimals the conversion is the greatest token
      amount worth no more, and the rounded-up one the least worth no less, exactly
      when the division behind each rounds that way, as it does for every amount
      that is not negative; there the two differ by one exactly when something is
      cut off. For a token of more decimals both are exact. */
  lemma WadConversionsAreTheBestBounds(x: int, decimals: nat)
    ensures var down, up := ConvertWadToTokenDecimals(x, decimals), ConvertWadToTokenDecimalsCeil(x, decimals);
            if decimals <= 18 then
              var d := Pow10(18 - decimals);
              && (BestBelow(down, x, decimals) <==> CutsDown(x, d))
              && (BestAbove(up, x, decimals) <==> CoversUp(x, d))
              && (x >= 0 ==> up == if ConvertTokenDecimalsToWad(down, decimals) == x then down else down + 1)
            else
              down == up && ConvertTokenDecimalsToWad(down, decimals) == x
  {
    if decimals <= 18 {
      BestBounds(x, decimals, Pow10(18 - decimals));
    } else {
      WadRoundTrip(x, decimals);
    }
  }

  lemma BestBounds(x: int, decimals: nat, d: nat)
    requires decimals <= 18 && d == Pow10(18 - decimals)
    ensures var down, up := ConvertWadToTokenDecimals(x, decimals), ConvertWadToTokenDecimalsCeil(x, decimals);
            && (BestBelow(down, x, decimals) <==> CutsDown(x, d))
            && (BestAbove(up, x, decimals) <==> CoversUp(x, d))
            && (x >= 0 ==> up == if ConvertTokenDecimalsToWad(down, decimals) == x then down else down + 1)
  {
    var down, up := TruncDiv(x, d), RoundUp(x, d);
    OneIsTheUnit(x, decimals, d);
    WhenTruncationRounds(x, d);
    WhenRoundUpRoundsUp(x, d);
    FloorIsTheGreatest(down, x, d);
    CeilIsTheLeast(up, x, d);
    SameMultiples(down, up, x, decimals, d);
    if x >= 0 {
      FloorMeetsCeil(down, up, x, d);
    }
  }

  /** At 18 decimals the divisor is one, and the formulas for fewer agree. */
  lemma OneIsTheUnit(x: int, decimals: nat, d: nat)
    requires decimals <= 18 && d == Pow10(18 - decimals)
    ensures ConvertWadToTokenDecimals(x, decimals) == TruncDiv(x, d)
    ensures ConvertWadToTokenDecimalsCeil(x, decimals) == RoundUp(x, d)
    ensures forall y: int :: ConvertTokenDecimalsToWad(y, decimals) == d * y
  {
    if decimals == 18 {
      assert d == 1;
    }
  }

  lemma SameMultiples(down: int, up: int, x: int, decimals: nat, d: nat)
    requires forall y: int :: ConvertTokenDecimalsToWad(y, decimals) == d * y
    ensures BestBelow(down, x, decimals) <==> Greatest(down, x, d)
    ensures BestAbove(up, x, decimals) <==> Least(up, x, d)
  {
    if BestBelow(down, x, decimals) {
      forall y: int ensures d * y <= x <==> y <= down {
        assert ConvertTokenDecimalsToWad(y, decimals) == d * y;
      }
    }
    if BestAbove(up, x, decimals) {
      forall y: int ensures x <= d * y <==> up <= y {
        assert ConvertTokenDecimalsToWad(y, decimals) == d * y;
      }
    }
  }

  lemma FloorMeetsCeil(down: int, up: int, x: int, d: int)
    requires d > 0 && IsFloor(down, x, d) && IsCeil(up, x, d)
    ensures up == if d * down == x then down else down + 1
  {
    CeilIsTheLeast(up, x, d);
    Expand(d, down);
    assert x <= d * (down + 1) && (x <= d * down <==> up <= down);
  }

  // ----------------------------------------------------------- decimaledToWei

  /** What Number.prototype.toExponential writes: a sign, the digits of the
      mantissa with the point after the first, and the exponent. */
  datatype Exponential = Exponential(negative: bool, digits: string, exponent: int)

  predicate Written(e: Exponential) {
    && e.digits != "" && AreDigits(e.digits)
    && (e.digits[0] == '0' ==> e == Exponential(false, "0", 0))
  }

  function DecimaledToWei(dec: Exponential, tokenDecimals: int): Result<int, ()> {
    var mantissaStr := Signed(dec.negative, dec.digits);
    var exponent10 := dec.exponent + tokenDecimals;
    var weiStrLength := 1 + (if dec.negative then 1 else 0) + exponent10;
    BigNumberFrom(PadEnd(SliceTo(mantissaStr, weiStrLength), weiStrLength))
  }

  /** The digits with the point moved to after the one numbered e, cut to an integer. */
  function Moved(digits: string, e: int): nat
    requires AreDigits(digits) && digits != ""
  {
    var shift := e - (|digits| - 1);
    if shift >= 0 then Value(digits) * Pow10(shift) else Value(digits) / Pow10(-shift)
  }

  /** The number times ten to the decimals, truncated toward zero. */
  function Scaled(dec: Exponential, tokenDecimals: int): int
    requires Written(dec)
  {
    var size := Moved(dec.digits, dec.exponent + tokenDecimals);
    if dec.negative then Negated(size) else size
  }

  /** The amount is exact, truncated toward zero, precisely when the number is
      zero or at least one wei; below one wei the conversion throws or returns
      leading digits of the mantissa. */
  lemma WhenDecimaledToWeiIsExact(dec: Exponential, tokenDecimals: nat)
    requires Written(dec)
    ensures DecimaledToWei(dec, tokenDecimals) == Ok(Scaled(dec, tokenDecimals)) <==> dec.exponent + tokenDecimals >= 0
  {
    if dec.exponent + tokenDecimals >= 0 {
      ExactFromOneWei(dec, tokenDecimals, dec.exponent + tokenDecimals);
    } else {
      NothingBelowOneWei(dec.digits, dec.exponent + tokenDecimals);
      GarbageBelowOneWei(dec, tokenDecimals);
    }
  }

  lemma ExactFromOneWei(dec: Exponential, tokenDecimals: nat, e: nat)
    requires Written(dec) && e == dec.exponent + tokenDecimals
    ensures DecimaledToWei(dec, tokenDecimals) == Ok(Scaled(dec, tokenDecimals))
  {
    KeptIsMoved(dec.digits, e);
    SignStaysInFront(dec.negative, dec.digits, e);
    SignedValue(dec.negative, Kept(dec.digits, e));
  }

  /** The digits that are kept, without their sign. */
  function Kept(digits: string, e: int): string { PadEnd(SliceTo(digits, 1 + e), 1 + e) }

  lemma KeptIsMoved(digits: string, e: nat)
    requires AreDigits(digits) && digits != ""
    ensures Kept(digits, e) != "" && AreDigits(Kept(digits, e))
    ensures Value(Kept(digits, e)) == Moved(digits, e)
  {
    var shift := e - (|digits| - 1);
    if shift > 0 {
      AppendingZerosMultiplies(digits, shift);
    } else if shift == 0 {
      TenTimes(1, Value(digits));
      assert Pow10(0) == 1;
    } else {
      DroppingDigitsDivides(digits, -shift);
    }
  }

  lemma SignStaysInFront(negative: bool, digits: string, e: nat)
    requires digits != ""
    ensures var length := 1 + (if negative then 1 else 0) + e;
            PadEnd(SliceTo(Signed(negative, digits), length), length) == Signed(negative, Kept(digits, e))
  {
    if negative {
      assert SliceTo("-" + digits, 2 + e) == "-" + SliceTo(digits, 1 + e);
    }
  }

  lemma NothingBelowOneWei(digits: string, e: int)
    requires AreDigits(digits) && digits != "" && e < 0
    ensures Moved(digits, e) == 0
  {
    var k := -(e - (|digits| - 1));
    FewDigitsAreSmall(digits, k);
    DivIs(Value(digits), Pow10(k), 0, Value(digits));
  }

  lemma GarbageBelowOneWei(dec: Exponential, tokenDecimals: nat)
    requires Written(dec) && dec.exponent + tokenDecimals < 0
    ensures DecimaledToWei(dec, tokenDecimals) != Ok(0)
  {
    var text := Signed(dec.negative, dec.digits);
    var length := 1 + (if dec.negative then 1 else 0) + dec.exponent + tokenDecimals;
    LeadingDigitsAreNotZero(dec.negative, dec.digits, SliceTo(text, length));
  }

  /** A non-empty prefix of a number that does not start with zero is not zero. */
  lemma LeadingDigitsAreNotZero(negative: bool, digits: string, kept: string)
    requires AreDigits(digits) && digits != "" && digits[0] != '0'
    requires kept <= Signed(negative, digits)
    ensures BigNumberFrom(kept) != Ok(0)
  {
    if kept != "" && AreDigits(kept) {
      LeadingDigitShows(kept);
    } else if |kept| > 1 && kept[0] == '-' && AreDigits(kept[1..]) {
      assert kept[1..][0] == Signed(negative, digits)[1];
      LeadingDigitShows(kept[1..]);
    }
  }

  // ------------------------------------------------------- ceilings and floors

  function CeilDivBigNumber(numerator: int, denominator: int): Result<int, ()> {
    if numerator == 0 then Ok(0)
    else if denominator == 0 then Err(())
    else Ok(TruncDiv(numerator + denominator - 1, denominator))
  }

  /** On a non-negative numerator this is the least integer whose multiple
      covers it. */
  lemma CeilDivIsTheLeastCover(numerator: nat, denominator: nat)
    requires denominator > 0
    ensures CeilDivBigNumber(numerator, denominator).Ok?
    ensures forall y: int :: numerator <= denominator * y <==> CeilDivBigNumber(numerator, denominator).value <= y
  {
    WhenRoundUpRoundsUp(numerator, denominator);
    CeilIsTheLeast(RoundUp(numerator, denominator), numerator, denominator);
  }

  function WithGasLimitBuffer(estimatedGas: int, basisPoints: int): int {
    TruncDiv(estimatedGas * basisPoints + 9999, 10000)
  }

  /** The buffered limit is the least whole number of gas units not below the
      estimate times the factor. */
  lemma GasBufferIsAnExactCeiling(estimatedGas: nat, basisPoints: nat)
    ensures forall y: int ::
              estimatedGas * basisPoints <= 10000 * y <==> WithGasLimitBuffer(estimatedGas, basisPoints) <= y
    ensures basisPoints >= 10000 ==> WithGasLimitBuffer(estimatedGas, basisPoints) >= estimatedGas
  {
    var x := estimatedGas * basisPoints;
    MulLeq(estimatedGas, 0, basisPoints);
    WhenRoundUpRoundsUp(x, 10000);
    CeilIsTheLeast(RoundUp(x, 10000), x, 10000);
    if basisPoints >= 10000 {
      MulLeq(estimatedGas, 10000, basisPoints);
    }
  }

  // ----------------------------------------------------------- minimum output

  datatype SwapError = NonPositiveQuote | InvalidSlippage

  /** The slippage is in basis points, None when it is not a finite number. */
  function DeriveSwapMinimumOut(expectedOutputRaw: int, slippageBps: Option<int>): Result<int, SwapError> {
    if expectedOutputRaw <= 0 then Err(NonPositiveQuote)
    else if slippageBps.None? || slippageBps.value < 0 || slippageBps.value >= 10000 then Err(InvalidSlippage)
    else Ok(TruncDiv(expectedOutputRaw * (10000 - slippageBps.value), 10000))
  }

  /** It answers exactly for a positive quote and a slippage within [0, 100%).
      The answer is the greatest amount within the slippage, never more than the
      quote, and positive exactly when the quote less slippage is at least one
      unit. */
  lemma MinimumOutIsTheGreatestWithinSlippage(quote: int, bps: int)
    ensures DeriveSwapMinimumOut(quote, Some(bps)).Ok? <==> quote > 0 && 0 <= bps < 10000
    ensures var r := DeriveSwapMinimumOut(quote, Some(bps));
            r.Ok? ==>
              && (forall y: int :: 10000 * y <= quote * (10000 - bps) <==> y <= r.value)
              && 0 <= r.value <= quote
              && (r.value > 0 <==> quote * (10000 - bps) >= 10000)
  {
    var r := DeriveSwapMinimumOut(quote, Some(bps));
    if r.Ok? {
      var x := quote * (10000 - bps);
      MulLeq(quote, 0, 10000 - bps);
      MulLeq(quote, 10000 - bps, 10000);
      WhenTruncationRounds(x, 10000);
      FloorIsTheGreatest(r.value, x, 10000);
      assert 10000 * 0 <= x && (10000 * 1 <= x <==> 1 <= r.value);
    }
  }

  /** A better quote never lowers the minimum, more slippage never raises it. */
  lemma MinimumOutIsMonotone(quote: int, better: int, bps: int, more: int)
    requires quote <= better && bps <= more
    requires DeriveSwapMinimumOut(quote, Some(more)).Ok? && DeriveSwapMinimumOut(better, Some(bps)).Ok?
    ensures DeriveSwapMinimumOut(quote, Some(more)).value <= DeriveSwapMinimumOut(better, Some(bps)).value
  {
    var low, high := DeriveSwapMinimumOut(quote, Some(more)).value, DeriveSwapMinimumOut(better, Some(bps)).value;
    assert 10000 * low <= quote * (10000 - more) by { MinimumOutIsTheGreatestWithinSlippage(quote, more); }
    MulLeq(quote, 10000 - more, 10000 - bps);
    assert quote * (10000 - bps) <= better * (10000 - bps) by { MulLeq(10000 - bps, quote, better); }
    MinimumOutIsTheGreatestWithinSlippage(better, bps);
  }
}
