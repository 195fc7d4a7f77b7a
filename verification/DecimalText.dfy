/**
 Decimal text: the grammar `decimalToRatio` and `tboAmountToMoney` accept, the exact ratio it
 denotes, and the two printers of minor units (packages/ui formatMoney, packages/documents format).
 */
module DecimalText {
  import opened Money
  import opened Numbers
  import opened Sequences
  import opened Text
  import opened Wrappers

  // ---------------------------------------------------------------------------
  // Digits

  predicate AllDigits(s: string) {
    forall i :: 0 <= i < |s| ==> IsDigit(s[i])
  }

  function DigitValue(c: char): nat
    requires IsDigit(c)
  {
    c as int - '0' as int
  }

  function DigitChar(d: nat): (c: char)
    requires d < 10
    ensures IsDigit(c) && DigitValue(c) == d
  {
    (d + '0' as int) as char
  }

  /** BigInt(text) for a run of digits. */
  function DigitsValue(s: string): nat
    requires AllDigits(s)
  {
    if s == "" then 0 else 10 * DigitsValue(s[..|s| - 1]) + DigitValue(s[|s| - 1])
  }

  /** String(n): no leading zeros. */
  function DigitsOf(n: nat): (s: string)
    ensures AllDigits(s) && s != ""
  {
    if n < 10 then [DigitChar(n)] else DigitsOf(n / 10) + [DigitChar(n % 10)]
  }

  function Zeros(k: nat): (s: string)
    ensures |s| == k && AllDigits(s)
  {
    if k == 0 then "" else "0" + Zeros(k - 1)
  }

  /** padStart(width, "0"): never truncates. */
  function PadStart(s: string, width: nat): (t: string)
    ensures |t| == if |s| >= width then |s| else width
    ensures AllDigits(s) ==> AllDigits(t)
  {
    if |s| >= width then s else Zeros(width - |s|) + s
  }

  lemma AppendDigit(s: string, c: char)
    requires AllDigits(s) && IsDigit(c)
    ensures AllDigits(s + [c]) && DigitsValue(s + [c]) == 10 * DigitsValue(s) + DigitValue(c)
  {
    assert (s + [c])[..|s|] == s;
  }

  lemma {:induction false} PrintedDigitsHaveTheValue(n: nat)
    ensures DigitsValue(DigitsOf(n)) == n
  {
    if n < 10 {
      AppendDigit("", DigitChar(n));
      assert "" + [DigitChar(n)] == DigitsOf(n);
    } else {
      PrintedDigitsHaveTheValue(n / 10);
      AppendDigit(DigitsOf(n / 10), DigitChar(n % 10));
    }
  }

  lemma {:induction false} LeadingZerosAddNothing(k: nat, s: string)
    requires AllDigits(s)
    ensures AllDigits(Zeros(k) + s) && DigitsValue(Zeros(k) + s) == DigitsValue(s)
    decreases |s|, k
  {
    if s == "" {
      assert Zeros(k) + s == Zeros(k);
      if k > 0 {
        LeadingZerosAddNothing(k - 1, "");
        assert Zeros(k - 1) + "" == Zeros(k - 1);
        ZerosEndInZero(k);
        AppendDigit(Zeros(k - 1), '0');
      }
    } else {
      var init, last := s[..|s| - 1], s[|s| - 1];
      assert Zeros(k) + s == (Zeros(k) + init) + [last] && s == init + [last];
      LeadingZerosAddNothing(k, init);
      AppendDigit(Zeros(k) + init, last);
    }
  }

  lemma {:induction false} ZerosEndInZero(k: nat)
    requires k > 0
    ensures Zeros(k) == Zeros(k - 1) + "0"
  {
    if k > 1 {
      ZerosEndInZero(k - 1);
    }
  }

  // ---------------------------------------------------------------------------
  // The grammar: -?digits[.digits][e(+|-)digits]

  datatype Exponent = Exponent(negative: bool, digits: string)

  datatype Decimal = Decimal(negative: bool, whole: string, fraction: Option<string>, exponent: Option<Exponent>)

  predicate WellFormed(d: Decimal) {
    && d.whole != "" && AllDigits(d.whole)
    && (d.fraction.Some? ==> d.fraction.value != "" && AllDigits(d.fraction.value))
    && (d.exponent.Some? ==> d.exponent.value.digits != "" && AllDigits(d.exponent.value.digits))
  }

  function RenderExponent(e: Option<Exponent>): string {
    if e.None? then "" else "e" + (if e.value.negative then "-" else "+") + e.value.digits
  }

  function RenderFraction(f: Option<string>): string {
    if f.None? then "" else "." + f.value
  }

  function Render(d: Decimal): string {
    (if d.negative then "-" else "") + d.whole + RenderFraction(d.fraction) + RenderExponent(d.exponent)
  }

  /** The longest run of digits at the front. */
  function DigitRun(s: string): (n: nat)
    ensures n <= |s| && AllDigits(s[..n]) && (n < |s| ==> !IsDigit(s[n]))
  {
    if s == "" || !IsDigit(s[0]) then 0
    else
      var rest := DigitRun(s[1..]);
      assert forall i :: 0 < i < rest + 1 ==> s[i] == s[1..][i - 1];
      rest + 1
  }

  function ParseExponent(s: string): Option<Option<Exponent>> {
    if s == "" then Some(None)
    else if |s| >= 3 && s[0] == 'e' && (s[1] == '+' || s[1] == '-') && AllDigits(s[2..]) then
      Some(Some(Exponent(s[1] == '-', s[2..])))
    else None
  }

  function ParseEnd(negative: bool, whole: string, fraction: Option<string>, s: string): Option<Decimal> {
    match ParseExponent(s)
    case None => None
    case Some(e) => Some(Decimal(negative, whole, fraction, e))
  }

  function ParseTail(negative: bool, whole: string, s: string): Option<Decimal> {
    if s != "" && s[0] == '.' then
      var m := DigitRun(s[1..]);
      if m == 0 then None else ParseEnd(negative, whole, Some(s[1..][..m]), s[1..][m..])
    else ParseEnd(negative, whole, None, s)
  }

  function ParseUnsigned(negative: bool, s: string): Option<Decimal> {
    var n := DigitRun(s);
    if n == 0 then None else ParseTail(negative, s[..n], s[n..])
  }

  /** `/^(-?)(\d+)(?:\.(\d+))?(?:e([+-]\d+))?$/` */
  function ParseDecimal(s: string): Option<Decimal> {
    if s != "" && s[0] == '-' then ParseUnsigned(true, s[1..]) else ParseUnsigned(false, s)
  }

  lemma {:induction false} DigitRunStops(s: string, rest: string)
    requires AllDigits(s) && (rest != "" ==> !IsDigit(rest[0]))
    ensures DigitRun(s + rest) == |s|
    ensures (s + rest)[..|s|] == s && (s + rest)[|s|..] == rest
  {
    if s == "" {
      assert s + rest == rest;
    } else {
      assert (s + rest)[1..] == s[1..] + rest;
      DigitRunStops(s[1..], rest);
    }
  }

  lemma ExponentRoundTrip(e: Option<Exponent>)
    requires e.Some? ==> e.value.digits != "" && AllDigits(e.value.digits)
    ensures ParseExponent(RenderExponent(e)) == Some(e)
    ensures RenderExponent(e) != "" ==> RenderExponent(e)[0] == 'e'
  {
    if e.Some? {
      assert RenderExponent(e)[2..] == e.value.digits;
    }
  }

  lemma FractionRoundTrip(f: string, end: string)
    requires f != "" && AllDigits(f) && (end != "" ==> !IsDigit(end[0]))
    ensures var tail := ("." + f) + end;
            tail != "" && tail[0] == '.' && tail[1..][..DigitRun(tail[1..])] == f && tail[1..][DigitRun(tail[1..])..] == end
  {
    DigitRunStops(f, end);
    assert (("." + f) + end)[1..] == f + end;
  }

  lemma TailRoundTrip(d: Decimal)
    requires WellFormed(d)
    ensures ParseTail(d.negative, d.whole, RenderFraction(d.fraction) + RenderExponent(d.exponent)) == Some(d)
    ensures var tail := RenderFraction(d.fraction) + RenderExponent(d.exponent); tail != "" ==> !IsDigit(tail[0])
  {
    ExponentRoundTrip(d.exponent);
    if d.fraction.Some? {
      FractionRoundTrip(d.fraction.value, RenderExponent(d.exponent));
    } else {
      assert "" + RenderExponent(d.exponent) == RenderExponent(d.exponent);
    }
  }

  /** Every well-formed decimal is read back from its text. */
  lemma ParseAfterRender(d: Decimal)
    requires WellFormed(d)
    ensures ParseDecimal(Render(d)) == Some(d)
  {
    var tail := RenderFraction(d.fraction) + RenderExponent(d.exponent);
    TailRoundTrip(d);
    DigitRunStops(d.whole, tail);
    assert ParseUnsigned(d.negative, d.whole + tail) == Some(d);
    Associate(if d.negative then "-" else "", d.whole, RenderFraction(d.fraction), RenderExponent(d.exponent));
    SignAndBody(d.negative, d.whole + tail);
    assert IsDigit((d.whole + tail)[0]);
  }

  lemma SignAndBody(negative: bool, body: string)
    ensures var s := (if negative then "-" else "") + body;
            if negative then s != "" && s[0] == '-' && s[1..] == body else s == body
  {
  }

  lemma Associate(a: string, b: string, c: string, d: string)
    ensures a + b + c + d == a + (b + (c + d))
  {
  }

  /** Accepted text without its sign. */
  lemma UnsignedText(negative: bool, body: string)
    requires ParseUnsigned(negative, body).Some?
    ensures var d := ParseUnsigned(negative, body).value;
            WellFormed(d) && d.negative == negative && d.whole + (RenderFraction(d.fraction) + RenderExponent(d.exponent)) == body
  {
    var n := DigitRun(body);
    TailText(negative, body[..n], body[n..]);
    Cut(body, n);
  }

  lemma SignRestored(s: string)
    requires s != ""
    ensures s[0] == '-' ==> s == "-" + s[1..]
  {
  }

  /** Whatever is accepted is the text of exactly one well-formed decimal. */
  lemma RenderAfterParse(s: string)
    requires ParseDecimal(s).Some?
    ensures WellFormed(ParseDecimal(s).value) && Render(ParseDecimal(s).value) == s
  {
    var d := ParseDecimal(s).value;
    if s != "" && s[0] == '-' {
      UnsignedText(true, s[1..]);
      SignRestored(s);
    } else {
      UnsignedText(false, s);
      assert "" + s == s;
    }
    Associate(if d.negative then "-" else "", d.whole, RenderFraction(d.fraction), RenderExponent(d.exponent));
  }

  lemma Cut(s: string, n: nat)
    requires n <= |s|
    ensures s[..n] + s[n..] == s
  {
  }

  lemma TailText(negative: bool, whole: string, s: string)
    requires ParseTail(negative, whole, s).Some?
    ensures var d := ParseTail(negative, whole, s).value;
            && d.negative == negative && d.whole == whole
            && RenderFraction(d.fraction) + RenderExponent(d.exponent) == s
            && (d.fraction.Some? ==> d.fraction.value != "" && AllDigits(d.fraction.value))
            && (d.exponent.Some? ==> d.exponent.value.digits != "" && AllDigits(d.exponent.value.digits))
  {
    if s != "" && s[0] == '.' {
      var m := DigitRun(s[1..]);
      ExponentText(s[1..][m..]);
      Cut(s[1..], m);
      PointAndRest(s, s[1..][..m], s[1..][m..]);
    } else {
      ExponentText(s);
      assert "" + s == s;
    }
  }

  lemma PointAndRest(s: string, f: string, e: string)
    requires s != "" && s[0] == '.' && f + e == s[1..]
    ensures ("." + f) + e == s
  {
    assert s == "." + s[1..];
    assert ("." + f) + e == "." + (f + e);
  }

  lemma ExponentText(s: string)
    requires ParseExponent(s).Some?
    ensures RenderExponent(ParseExponent(s).value) == s
    ensures ParseExponent(s).value.Some? ==> ParseExponent(s).value.value.digits != "" && AllDigits(ParseExponent(s).value.value.digits)
  {
    if s != "" {
      assert s == [s[0]] + [s[1]] + s[2..];
    }
  }

  // ---------------------------------------------------------------------------
  // The ratio, and the value it must have

  datatype Ratio = Ratio(numerator: int, denominator: int)

  function FractionDigits(d: Decimal): string {
    if d.fraction.Some? then d.fraction.value else ""
  }

  function ExponentDigits(d: Decimal): nat
    requires WellFormed(d)
  {
    if d.exponent.None? then 0 else DigitsValue(d.exponent.value.digits)
  }

  /** The numerator before the sign: all the digits, times 10^e for a positive exponent. */
  function Numerator(d: Decimal): int
    requires WellFormed(d)
  {
    var n := DigitsValue(d.whole + FractionDigits(d));
    if d.exponent.Some? && !d.exponent.value.negative then n * Pow10(ExponentDigits(d)) else n
  }

  /** 10 per digit after the point, times 10^e for a negative exponent. */
  function Denominator(d: Decimal): int
    requires WellFormed(d)
  {
    var p := Pow10(|FractionDigits(d)|);
    if d.exponent.Some? && d.exponent.value.negative then p * Pow10(ExponentDigits(d)) else p
  }

  lemma MagnitudeSigns(d: Decimal)
    requires WellFormed(d)
    ensures Numerator(d) >= 0 && Denominator(d) > 0
    ensures d.fraction.None? && d.exponent.None? ==> Denominator(d) == 1
  {
    ProductOrder(0, DigitsValue(d.whole + FractionDigits(d)), Pow10(ExponentDigits(d)));
    ProductStrictOrder(0, Pow10(|FractionDigits(d)|), Pow10(ExponentDigits(d)));
  }

  /**
   decimalToRatio over the scalar's text. A safe integer takes the fast path n/1; everything else is
   decomposed digit by digit, or refused.
   */
  function DecimalToRatio(text: string): (r: Option<Ratio>)
    ensures r.Some? ==> r.value.denominator > 0
  {
    match ParseDecimal(text)
    case None => None
    case Some(d) =>
      RenderAfterParse(text);
      MagnitudeSigns(d);
      var signed := if d.negative then -Numerator(d) else Numerator(d);
      if d.fraction.None? && d.exponent.None? && SafeInteger(signed) then Some(Ratio(signed, 1))
      else Some(Ratio(signed, Denominator(d)))
  }

  function TenTo(e: int): real
    decreases Abs(e)
  {
    if e == 0 then 1.0 else if e > 0 then 10.0 * TenTo(e - 1) else TenTo(e + 1) / 10.0
  }

  /** The positional value of the digits after the point: d0/10 + d1/100 + ... */
  function FractionValue(f: string): real
    requires AllDigits(f)
  {
    if f == "" then 0.0 else (DigitValue(f[0]) as real + FractionValue(f[1..])) / 10.0
  }

  function ExponentValue(e: Option<Exponent>): int
    requires e.Some? ==> AllDigits(e.value.digits)
  {
    if e.None? then 0
    else
      var magnitude: int := DigitsValue(e.value.digits);
      if e.value.negative then -magnitude else magnitude
  }

  /** What the digits mean before the sign: (whole + fraction) * 10^exponent. */
  function UnsignedValue(d: Decimal): real
    requires WellFormed(d)
  {
    (DigitsValue(d.whole) as real + FractionValue(FractionDigits(d))) * TenTo(ExponentValue(d.exponent))
  }

  /** What a decimal means: sign * (whole + fraction) * 10^exponent. */
  function Value(d: Decimal): real
    requires WellFormed(d)
  {
    if d.negative then -UnsignedValue(d) else UnsignedValue(d)
  }

  lemma MoveFirst(a: string, b: string)
    requires b != ""
    ensures (a + [b[0]]) + b[1..] == a + b
  {
  }

  /** numerator/denominator is the number v. */
  ghost predicate Denotes(numerator: int, denominator: int, v: real) {
    numerator as real == v * denominator as real
  }

  lemma NumeratorTimes(n: int, d: int, v: real, k: int, t: real, n': int, v': real)
    requires Denotes(n, d, v) && k as real == t && n' == n * k && v' == v * t
    ensures Denotes(n', d, v')
  {
    assert n' as real == n as real * t;
    assert n as real * t == v * t * d as real;
  }

  lemma DenominatorTimes(n: int, d: int, v: real, k: int, t: real, d': int, v': real)
    requires Denotes(n, d, v) && t * k as real == 1.0 && d' == d * k && v' == v * t
    ensures Denotes(n, d', v')
  {
    assert d' as real == d as real * k as real;
    assert v * t * (d as real * k as real) == v * d as real * (t * k as real);
  }

  lemma CancelTen(t: real, p: real)
    ensures (t / 10.0) * (10.0 * p) == t * p
  {
  }

  lemma {:induction false} TenToIsPow10(e: int, k: nat)
    requires e == k || e == -(k as int)
    ensures e == k ==> TenTo(e) == Pow10(k) as real
    ensures e == -(k as int) ==> TenTo(e) * Pow10(k) as real == 1.0
    decreases k
  {
    if k > 0 {
      assert e != 0;
      TenToIsPow10(if e > 0 then e - 1 else e + 1, k - 1);
      assert Pow10(k) as real == 10.0 * Pow10(k - 1) as real;
      CancelTen(TenTo(e + 1), Pow10(k - 1) as real);
    }
  }

  /** Moving the point one digit left: x/p with x = 10(w + y) is (w + y) over 10p. */
  lemma ShiftPoint(n: int, x: real, p: int, w: real, y: real, q: int)
    requires Denotes(n, p, x)
    requires x == 10.0 * (w + y)
    requires q == 10 * p
    ensures Denotes(n, q, w + y)
  {
    assert q as real == 10.0 * p as real;
    assert x * p as real == (w + y) * (10.0 * p as real);
  }

  /** Gluing the fraction digits onto the whole digits scales the value by 10 per digit. */
  lemma {:induction false} GluedDigits(whole: string, fraction: string)
    requires AllDigits(whole) && AllDigits(fraction)
    ensures AllDigits(whole + fraction)
    ensures Denotes(DigitsValue(whole + fraction), Pow10(|fraction|), DigitsValue(whole) as real + FractionValue(fraction))
    decreases |fraction|
  {
    if fraction == "" {
      assert whole + fraction == whole;
    } else {
      var c, rest := fraction[0], fraction[1..];
      AppendDigit(whole, c);
      GluedDigits(whole + [c], rest);
      MoveFirst(whole, fraction);
      ShiftPoint(DigitsValue(whole + fraction), DigitsValue(whole + [c]) as real + FractionValue(rest), Pow10(|rest|),
                 DigitsValue(whole) as real, FractionValue(fraction), Pow10(|fraction|));
    }
  }

  lemma MagnitudeValue(d: Decimal)
    requires WellFormed(d)
    ensures Denotes(Numerator(d), Denominator(d), UnsignedValue(d))
  {
    GluedDigits(d.whole, FractionDigits(d));
    if d.exponent.None? {
      assert UnsignedValue(d) == DigitsValue(d.whole) as real + FractionValue(FractionDigits(d));
    } else if d.exponent.value.negative {
      NegativeExponent(d);
    } else {
      PositiveExponent(d);
    }
  }

  /** Multiplying by a power of ten. */
  lemma PositiveScaling(n: int, d: int, v: real, e: int, k: nat, n': int, v': real)
    requires Denotes(n, d, v) && e == k && n' == n * Pow10(k) && v' == v * TenTo(e)
    ensures Denotes(n', d, v')
  {
    TenToIsPow10(e, k);
    NumeratorTimes(n, d, v, Pow10(k), TenTo(e), n', v');
  }

  lemma PositiveExponent(d: Decimal)
    requires WellFormed(d) && d.exponent.Some? && !d.exponent.value.negative
    ensures Denotes(Numerator(d), Denominator(d), UnsignedValue(d))
  {
    GluedDigits(d.whole, FractionDigits(d));
    PositiveScaling(DigitsValue(d.whole + FractionDigits(d)), Denominator(d),
                    DigitsValue(d.whole) as real + FractionValue(FractionDigits(d)),
                    ExponentValue(d.exponent), ExponentDigits(d), Numerator(d), UnsignedValue(d));
  }

  /** Dividing by a power of ten. */
  lemma NegativeScaling(n: int, d: int, v: real, e: int, k: nat, d': int, v': real)
    requires Denotes(n, d, v) && e == -(k as int) && d' == d * Pow10(k) && v' == v * TenTo(e)
    ensures Denotes(n, d', v')
  {
    TenToIsPow10(e, k);
    DenominatorTimes(n, d, v, Pow10(k), TenTo(e), d', v');
  }

  lemma NegativeExponent(d: Decimal)
    requires WellFormed(d) && d.exponent.Some? && d.exponent.value.negative
    ensures Denotes(Numerator(d), Denominator(d), UnsignedValue(d))
  {
    GluedDigits(d.whole, FractionDigits(d));
    NegativeScaling(DigitsValue(d.whole + FractionDigits(d)), Pow10(|FractionDigits(d)|),
                    DigitsValue(d.whole) as real + FractionValue(FractionDigits(d)),
                    ExponentValue(d.exponent), ExponentDigits(d), Denominator(d), UnsignedValue(d));
  }

  /** Both paths of the decomposition yield the signed numerator over the denominator. */
  lemma RatioParts(text: string)
    requires ParseDecimal(text).Some?
    ensures DecimalToRatio(text).Some? && WellFormed(ParseDecimal(text).value)
    ensures var d := ParseDecimal(text).value;
            DecimalToRatio(text).value == Ratio(if d.negative then -Numerator(d) else Numerator(d), Denominator(d))
  {
    RenderAfterParse(text);
    MagnitudeSigns(ParseDecimal(text).value);
  }

  lemma SignedDenotes(n: int, d: int, v: real, negative: bool, n': int, v': real)
    requires Denotes(n, d, v) && n' == (if negative then -n else n) && v' == (if negative then -v else v)
    ensures Denotes(n', d, v')
  {
  }

  /** The ratio of any accepted text, exponent forms included, has exactly the value of the text. */
  lemma RatioHasTheValue(text: string)
    requires ParseDecimal(text).Some?
    ensures DecimalToRatio(text).Some?
    ensures WellFormed(ParseDecimal(text).value)
    ensures Denotes(DecimalToRatio(text).value.numerator, DecimalToRatio(text).value.denominator, Value(ParseDecimal(text).value))
  {
    RatioParts(text);
    ValueOfRatio(ParseDecimal(text).value, DecimalToRatio(text).value);
  }

  lemma ValueOfRatio(d: Decimal, ratio: Ratio)
    requires WellFormed(d) && ratio == Ratio(if d.negative then -Numerator(d) else Numerator(d), Denominator(d))
    ensures Denotes(ratio.numerator, ratio.denominator, Value(d))
  {
    MagnitudeValue(d);
    SignedDenotes(Numerator(d), Denominator(d), UnsignedValue(d), d.negative, ratio.numerator, Value(d));
  }

  // ---------------------------------------------------------------------------
  // The two scalings

  /** multiplyByScalar: refuse an unreadable scalar, otherwise one rounding at the very end. */
  function MultiplyByScalar(m: Money, scalar: string): Result<Money, MoneyError> {
    match DecimalToRatio(scalar)
    case None => Failure(InvalidMoney)
    case Some(ratio) => MultiplyByRatio(m, ratio.numerator, ratio.denominator)
  }

  /** The adapter's own rounding: half up on the magnitude, then the sign. */
  function RoundMagnitude(negative: bool, numerator: int, denominator: int): int
    requires denominator > 0
  {
    var quotient, remainder := numerator / denominator, numerator % denominator;
    var rounded := if remainder * 2 >= denominator then quotient + 1 else quotient;
    if negative then -rounded else rounded
  }

  /** tboAmountToMoney: the magnitude is rounded half up and the sign restored afterwards. */
  function TboAmountToMoney(text: string, exponent: nat, currency: string): Result<Money, MoneyError> {
    match ParseDecimal(text)
    case None => Failure(InvalidMoney)
    case Some(d) =>
      RenderAfterParse(text);
      MagnitudeSigns(d);
      var minor := RoundMagnitude(d.negative, Numerator(d) * Pow10(exponent), Denominator(d));
      if ValidCurrency(currency) then SafeResult(minor, currency) else Failure(InvalidMoney)
  }

  /** The adapter rounds exactly as the domain does: converting equals scaling 10^exponent minor units. */
  lemma AdapterRoundsLikeTheDomain(text: string, exponent: nat, currency: string)
    requires SafeInteger(Pow10(exponent))
    ensures TboAmountToMoney(text, exponent, currency) == MultiplyByScalar(Money(Pow10(exponent), currency), text)
  {
    if ParseDecimal(text).Some? {
      RenderAfterParse(text);
      var d := ParseDecimal(text).value;
      MagnitudeSigns(d);
      SignRestoredAfterRounding(d.negative, Numerator(d), Denominator(d), Pow10(exponent), DecimalToRatio(text).value.numerator);
      ScalingUnfolded(Pow10(exponent), currency, DecimalToRatio(text).value.numerator, DecimalToRatio(text).value.denominator);
    }
  }

  lemma ScalingUnfolded(a: int, currency: string, n: int, d: int)
    requires d > 0 && SafeInteger(a)
    ensures MultiplyByRatio(Money(a, currency), n, d)
            == if ValidCurrency(currency) then SafeResult(DivideRoundHalfAwayFromZero(a * n, d), currency) else Failure(InvalidMoney)
  {
  }

  lemma SignRestoredAfterRounding(negative: bool, n: int, d: int, p: nat, signed: int)
    requires d > 0 && n >= 0 && signed == if negative then -n else n
    ensures RoundMagnitude(negative, n * p, d) == DivideRoundHalfAwayFromZero(p * signed, d)
  {
    var product := n * p;
    assert product >= 0 by { ProductOrder(0, n, p); }
    assert p * n == product && p * -n == -product;
    RoundingIsOdd(product, d);
  }

  /** The integer nearest to v, ties away from zero. */
  predicate NearestTo(amount: int, v: real) {
    if v < 0.0 then -0.5 <= amount as real - v < 0.5 else -0.5 < amount as real - v <= 0.5
  }

  lemma GapOfRatio(a: int, n: int, d: int, v: real)
    requires d > 0 && Denotes(n, d, v)
    ensures (2 * (a * d - n)) as real == (2.0 * d as real) * (a as real - v)
    ensures v < 0.0 <==> n < 0
  {
    assert (2 * (a * d - n)) as real == 2.0 * (a as real * d as real - n as real);
    assert v < 0.0 <==> v * d as real < 0.0;
  }

  lemma ScaledBounds(gap: real, d: real, e: real)
    requires d > 0.0 && gap == (2.0 * d) * e
    ensures -d < gap <==> -0.5 < e
    ensures -d <= gap <==> -0.5 <= e
    ensures gap < d <==> e < 0.5
    ensures gap <= d <==> e <= 0.5
  {
    var w := 2.0 * d;
    assert gap == w * e && -d == w * -0.5 && d == w * 0.5;
    RealOrder(w, -0.5, e);
    RealOrder(w, e, 0.5);
  }

  lemma RealOrder(w: real, x: real, y: real)
    requires w > 0.0
    ensures w * x < w * y <==> x < y
    ensures w * x <= w * y <==> x <= y
  {
    assert w * (y - x) == w * y - w * x;
  }

  /** Nearest to a fraction is nearest to the number it denotes. */
  lemma NearestToTheValue(amount: int, n: int, d: int, v: real)
    requires d > 0 && Denotes(n, d, v)
    ensures NearestTiesAway(amount, n, d) <==> NearestTo(amount, v)
  {
    var gap := 2 * (amount * d - n);
    GapOfRatio(amount, n, d, v);
    ScaledBounds(gap as real, d as real, amount as real - v);
  }

  lemma ScaledDenotes(k: int, n: int, d: int, v: real)
    requires Denotes(n, d, v)
    ensures Denotes(k * n, d, k as real * v)
  {
    assert (k * n) as real == k as real * n as real;
    assert k as real * (v * d as real) == (k as real * v) * d as real;
  }

  lemma NearestOfScaled(amount: int, k: int, ratio: Ratio, v: real, exact: real)
    requires ratio.denominator > 0 && Denotes(ratio.numerator, ratio.denominator, v) && exact == k as real * v
    ensures NearestTiesAway(amount, k * ratio.numerator, ratio.denominator) <==> NearestTo(amount, exact)
  {
    ScaledDenotes(k, ratio.numerator, ratio.denominator, v);
    NearestToTheValue(amount, k * ratio.numerator, ratio.denominator, exact);
  }

  lemma ScalingByRatioIsNearest(m: Money, ratio: Ratio, v: real, exact: real, amount: int)
    requires ratio.denominator > 0 && Denotes(ratio.numerator, ratio.denominator, v) && exact == m.amount as real * v
    ensures MultiplyByRatio(m, ratio.numerator, ratio.denominator) == Success(Money(amount, m.currency))
            <==> ValidMoney(m) && SafeInteger(amount) && NearestTo(amount, exact)
  {
    ScalingIsNearest(m, ratio.numerator, ratio.denominator, amount);
    NearestOfScaled(amount, m.amount, ratio, v, exact);
  }

  /** The number a text writes, if it is one. */
  predicate Writes(text: string, v: real) {
    match ParseDecimal(text)
    case None => false
    case Some(d) =>
      RenderAfterParse(text);
      v == Value(d)
  }

  /**
   Scaling by a text, exponent forms included, yields the amount nearest to m times the number the text
   writes, ties away from zero, and refuses only invalid money and an unsafe nearest amount.
   */
  lemma ScalingByTextIsNearest(m: Money, text: string, v: real, exact: real, amount: int)
    requires Writes(text, v) && exact == m.amount as real * v
    ensures MultiplyByScalar(m, text) == Success(Money(amount, m.currency)) <==> ValidMoney(m) && SafeInteger(amount) && NearestTo(amount, exact)
  {
    RatioHasTheValue(text);
    ScalingByRatioIsNearest(m, DecimalToRatio(text).value, v, exact, amount);
  }

  lemma RoundedMagnitudeIsNearest(d: Decimal, k: nat, v: real, exact: real, amount: int)
    requires WellFormed(d) && v == Value(d) && exact == k as real * v
    ensures Denominator(d) > 0
    ensures amount == RoundMagnitude(d.negative, Numerator(d) * k, Denominator(d)) <==> NearestTo(amount, exact)
  {
    MagnitudeSigns(d);
    var ratio := Ratio(if d.negative then -Numerator(d) else Numerator(d), Denominator(d));
    ValueOfRatio(d, ratio);
    SignRestoredAfterRounding(d.negative, Numerator(d), Denominator(d), k, ratio.numerator);
    RoundingCharacterised(amount, k * ratio.numerator, ratio.denominator);
    NearestOfScaled(amount, k, ratio, v, exact);
  }

  /** The adapter yields the minor unit nearest to 10^exponent times the number on the wire, ties away from zero. */
  lemma AdapterIsNearest(text: string, exponent: nat, currency: string, v: real, exact: real, amount: int)
    requires ValidCurrency(currency) && Writes(text, v) && exact == Pow10(exponent) as real * v
    ensures TboAmountToMoney(text, exponent, currency) == Success(Money(amount, currency)) <==> SafeInteger(amount) && NearestTo(amount, exact)
  {
    RenderAfterParse(text);
    RoundedMagnitudeIsNearest(ParseDecimal(text).value, Pow10(exponent), v, exact, amount);
  }

  // ---------------------------------------------------------------------------
  // The two printers

  function Sign(amount: int): string {
    if amount < 0 then "-" else ""
  }

  function MinorUnitsToDecimalString(amount: int, fractionDigits: nat): string {
    var digits := PadStart(DigitsOf(Abs(amount)), fractionDigits + 1);
    var whole := digits[..|digits| - fractionDigits];
    var fraction := if fractionDigits > 0 then "." + digits[|digits| - fractionDigits..] else "";
    Sign(amount) + whole + fraction
  }

  /** Whole units: trunc(n / 10^k). */
  function HighPart(n: nat, k: nat): nat {
    QuotientIsNatural(n, Pow10(k));
    n / Pow10(k)
  }

  /** Minor units: n % 10^k. */
  function LowPart(n: nat, k: nat): nat {
    QuotientIsNatural(n, Pow10(k));
    n % Pow10(k)
  }

  /** The documents' formatMoney for a currency with `exponent` minor digits. */
  function FormatForDocuments(amount: int, exponent: nat, currency: string): string {
    if exponent == 0 then Sign(amount) + DigitsOf(Abs(amount)) + " " + currency
    else
      var units := HighPart(Abs(amount), exponent);
      var minor := PadStart(DigitsOf(LowPart(Abs(amount), exponent)), exponent);
      Sign(amount) + DigitsOf(units) + "." + minor + " " + currency
  }

  lemma PaddedValue(n: nat, width: nat)
    ensures DigitsValue(PadStart(DigitsOf(n), width)) == n
  {
    PrintedDigitsHaveTheValue(n);
    var s := DigitsOf(n);
    if |s| < width {
      LeadingZerosAddNothing(width - |s|, s);
    }
  }

  /** The decimal that MinorUnitsToDecimalString writes. */
  function PrintedDecimal(amount: int, exponent: nat): (d: Decimal)
    ensures WellFormed(d) && Render(d) == MinorUnitsToDecimalString(amount, exponent)
  {
    var digits := PadStart(DigitsOf(Abs(amount)), exponent + 1);
    var cut := |digits| - exponent;
    Decimal(amount < 0, digits[..cut], if exponent > 0 then Some(digits[cut..]) else None, None)
  }

  lemma PrintedMagnitude(amount: int, exponent: nat)
    ensures var d := PrintedDecimal(amount, exponent);
            Numerator(d) == Abs(amount) && Denominator(d) == Pow10(exponent)
  {
    var digits := PadStart(DigitsOf(Abs(amount)), exponent + 1);
    var cut := |digits| - exponent;
    Cut(digits, cut);
    PaddedValue(Abs(amount), exponent + 1);
    var d := PrintedDecimal(amount, exponent);
    if exponent == 0 {
      assert FractionDigits(d) == "" && d.whole == digits;
      assert d.whole + FractionDigits(d) == digits;
    } else {
      assert FractionDigits(d) == digits[cut..];
      assert |FractionDigits(d)| == exponent;
    }
  }

  /** Printing minor units and reading the text back gives the amount, for every exponent. */
  lemma PrintThenParse(amount: int, exponent: nat, currency: string)
    requires SafeInteger(amount) && ValidCurrency(currency)
    ensures TboAmountToMoney(MinorUnitsToDecimalString(amount, exponent), exponent, currency) == Success(Money(amount, currency))
  {
    ParseAfterRender(PrintedDecimal(amount, exponent));
    PrintedMagnitude(amount, exponent);
    DivisionIsUnique(Abs(amount) * Pow10(exponent), Pow10(exponent), Abs(amount), 0);
  }

  /** Dropping the last digit of the padded text is padding the quotient by ten. */
  lemma PadStep(n: nat, width: nat)
    requires width > 0
    ensures PadStart(DigitsOf(n), width + 1) == PadStart(DigitsOf(n / 10), width) + [DigitChar(n % 10)]
  {
    if n < 10 {
      assert DigitsOf(0) == "0";
      ZerosEndInZero(width);
    } else {
      var s := DigitsOf(n / 10);
      assert DigitsOf(n) == s + [DigitChar(n % 10)];
    }
  }

  lemma DivModByTens(n: nat, k: nat)
    requires k > 0
    ensures HighPart(n / 10, k - 1) == HighPart(n, k)
    ensures LowPart(n, k) / 10 == LowPart(n / 10, k - 1)
    ensures LowPart(n, k) % 10 == n % 10
  {
    var p := Pow10(k - 1);
    var q, r := (n / 10) / p, (n / 10) % p;
    DivisionExact(n, 10);
    DivisionExact(n / 10, p);
    var low := 10 * r + n % 10;
    assert n == q * (10 * p) + low;
    DivisionIsUnique(n, 10 * p, q, low);
    DivisionIsUnique(low, 10, r, n % 10);
  }

  lemma {:induction false} PaddedSplitsAtThePoint(n: nat, k: nat)
    requires k > 0
    ensures PadStart(DigitsOf(n), k + 1) == DigitsOf(HighPart(n, k)) + PadStart(DigitsOf(LowPart(n, k)), k)
  {
    PadStep(n, k);
    if k == 1 {
      OneDigit(n);
    } else {
      PaddedSplitsAtThePoint(n / 10, k - 1);
      PaddedLowPart(n, k);
      Regroup(DigitsOf(HighPart(n, k)), PadStart(DigitsOf(LowPart(n / 10, k - 1)), k - 1), [DigitChar(n % 10)]);
    }
  }

  lemma PaddedLowPart(n: nat, k: nat)
    requires k > 1
    ensures HighPart(n / 10, k - 1) == HighPart(n, k)
    ensures PadStart(DigitsOf(LowPart(n, k)), k) == PadStart(DigitsOf(LowPart(n / 10, k - 1)), k - 1) + [DigitChar(n % 10)]
  {
    DivModByTens(n, k);
    PadStep(LowPart(n, k), k - 1);
  }

  lemma OneDigit(n: nat)
    ensures HighPart(n, 1) == n / 10 && LowPart(n, 1) == n % 10
    ensures DigitsOf(n % 10) == [DigitChar(n % 10)]
  {
    assert Pow10(1) == 10;
  }

  lemma {:induction false} ShortRemainder(m: nat, k: nat)
    requires k > 0 && m < Pow10(k)
    ensures |DigitsOf(m)| <= k
  {
    if m >= 10 {
      assert m / 10 < Pow10(k - 1);
      ShortRemainder(m / 10, k - 1);
    }
  }

  lemma LowPartIsShort(n: nat, k: nat)
    requires k > 0
    ensures |PadStart(DigitsOf(LowPart(n, k)), k)| == k
  {
    QuotientIsNatural(n, Pow10(k));
    ShortRemainder(LowPart(n, k), k);
  }

  /** The screen's text for a currency with minor digits: whole units, point, minor units. */
  lemma ScreenText(amount: int, exponent: nat)
    requires exponent > 0
    ensures MinorUnitsToDecimalString(amount, exponent)
            == Sign(amount) + DigitsOf(HighPart(Abs(amount), exponent)) + ("." + PadStart(DigitsOf(LowPart(Abs(amount), exponent)), exponent))
  {
    PaddedSplitsAtThePoint(Abs(amount), exponent);
    LowPartIsShort(Abs(amount), exponent);
    SplitText(DigitsOf(HighPart(Abs(amount), exponent)), PadStart(DigitsOf(LowPart(Abs(amount), exponent)), exponent), exponent);
  }

  /** The screen and the documents print the same digits, for every amount and exponent. */
  lemma PrintersAgree(amount: int, exponent: nat, currency: string)
    ensures FormatForDocuments(amount, exponent, currency) == MinorUnitsToDecimalString(amount, exponent) + " " + currency
  {
    if exponent == 0 {
      WholeText(PadStart(DigitsOf(Abs(amount)), 1), Sign(amount));
    } else {
      ScreenText(amount, exponent);
      Regroup(Sign(amount) + DigitsOf(HighPart(Abs(amount), exponent)), ".",
              PadStart(DigitsOf(LowPart(Abs(amount), exponent)), exponent));
    }
  }

  lemma WholeText(digits: string, sign: string)
    ensures sign + digits[..|digits| - 0] + "" == sign + digits
  {
  }

  lemma SplitText(a: string, b: string, k: nat)
    requires |b| == k
    ensures (a + b)[..|a + b| - k] == a && (a + b)[|a + b| - k..] == b
  {
  }
}
