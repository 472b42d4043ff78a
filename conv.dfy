/**
 * The pieces of Go's `strconv` package the receipt code uses: FormatInt and
 * Atoi on decimal integers, and ParseFloat, which here reads a plain decimal
 * literal exactly (sign, digits, an optional fraction) instead of rounding it
 * to a binary float.
 */
module Conv {
  import opened Wrappers

  predicate IsDigit(c: char) {
    '0' <= c <= '9'
  }

  predicate IsDigits(s: string) {
    forall i :: 0 <= i < |s| ==> IsDigit(s[i])
  }

  function DigitValue(c: char): (v: nat)
    requires IsDigit(c)
    ensures v < 10
  {
    c as int - '0' as int
  }

  function DigitChar(v: nat): (c: char)
    requires v < 10
    ensures IsDigit(c) && DigitValue(c) == v
  {
    ('0' as int + v) as char
  }

  function Pow10(n: nat): (p: nat)
    ensures p >= 1
  {
    if n == 0 then 1 else 10 * Pow10(n - 1)
  }

  /** v followed by n decimal zeros: v * 10^n, kept free of multiplication by a variable. */
  function Shift(v: nat, n: nat): nat {
    if n == 0 then v else 10 * Shift(v, n - 1)
  }

  /** The number a run of decimal digits denotes, most significant digit first. */
  function DigitsValue(s: string): nat
    requires IsDigits(s)
  {
    if s == [] then 0 else 10 * DigitsValue(s[..|s| - 1]) + DigitValue(s[|s| - 1])
  }

  /** Reading a + b is reading a, shifted by the length of b, plus reading b. */
  lemma {:induction false} DigitsValueAppend(a: string, b: string)
    requires IsDigits(a) && IsDigits(b)
    ensures IsDigits(a + b)
    ensures DigitsValue(a + b) == Shift(DigitsValue(a), |b|) + DigitsValue(b)
  {
    assert IsDigits(a + b) by {
      forall i | 0 <= i < |a + b| ensures IsDigit((a + b)[i]) {
        if i < |a| { assert (a + b)[i] == a[i]; } else { assert (a + b)[i] == b[i - |a|]; }
      }
    }
    if b != [] {
      var init := b[..|b| - 1];
      assert (a + b)[..|a + b| - 1] == a + init;
      DigitsValueAppend(a, init);
      calc {
        DigitsValue(a + b);
        10 * DigitsValue(a + init) + DigitValue(b[|b| - 1]);
        10 * (Shift(DigitsValue(a), |init|) + DigitsValue(init)) + DigitValue(b[|b| - 1]);
        Shift(DigitsValue(a), |b|) + DigitsValue(b);
      }
    } else {
      assert a + b == a;
    }
  }

  /** Leading zeros do not change the value read. */
  lemma {:induction false} LeadingZerosValue(zeros: string, s: string)
    requires forall i :: 0 <= i < |zeros| ==> zeros[i] == '0'
    requires IsDigits(s)
    ensures IsDigits(zeros + s) && DigitsValue(zeros + s) == DigitsValue(s)
  {
    ZerosValue(zeros);
    DigitsValueAppend(zeros, s);
    ShiftZero(|s|);
  }

  lemma {:induction false} ShiftZero(n: nat)
    ensures Shift(0, n) == 0
  {
    if n > 0 {
      ShiftZero(n - 1);
    }
  }

  lemma {:induction false} ZerosValue(zeros: string)
    requires forall i :: 0 <= i < |zeros| ==> zeros[i] == '0'
    ensures IsDigits(zeros) && DigitsValue(zeros) == 0
  {
    if zeros != [] {
      ZerosValue(zeros[..|zeros| - 1]);
    }
  }

  /** The shortest decimal spelling of n, as FormatInt writes it. */
  function NatToDigits(n: nat): (s: string)
    ensures |s| > 0 && IsDigits(s)
    ensures DigitsValue(s) == n
    ensures s[0] == '0' ==> s == "0"
    decreases n
  {
    if n < 10 then [DigitChar(n)]
    else
      var init := NatToDigits(n / 10);
      var s := init + [DigitChar(n % 10)];
      assert s[..|s| - 1] == init;
      s
  }

  /** strconv.FormatInt(n, 10): a minus sign for negative n, then the digits. */
  function FormatInt(n: int): (s: string)
    ensures |s| > 0
    ensures s[0] == '-' <==> n < 0
  {
    if n < 0 then "-" + NatToDigits(-n) else NatToDigits(n)
  }

  /**
   * strconv.Atoi: an optional sign, then at least one decimal digit and
   * nothing else; anything else is a syntax error.
   */
  function Atoi(s: string): (r: Option<int>)
    ensures r.Some? ==> |s| > 0
  {
    if |s| == 0 then None
    else
      var digits := if s[0] == '-' || s[0] == '+' then s[1..] else s;
      if |digits| == 0 || !IsDigits(digits) then None
      else
        var magnitude: int := DigitsValue(digits);
        Some(if s[0] == '-' then -magnitude else magnitude)
  }

  /** Atoi reads back every integer FormatInt writes. */
  lemma {:induction false} AtoiFormatInt(n: int)
    ensures Atoi(FormatInt(n)) == Some(n)
  {
    var s := FormatInt(n);
    if n < 0 {
      assert s[1..] == NatToDigits(-n);
    } else {
      assert s[0] != '-' && s[0] != '+';
    }
  }

  /**
   * A decimal literal read exactly: its value is
   * (negative ? -1 : 1) * mantissa / 10^scale.
   */
  datatype Decimal = Decimal(negative: bool, mantissa: nat, scale: nat)

  /** The length of the run of digits at the front of s. */
  function DigitRun(s: string): (k: nat)
    ensures k <= |s|
    ensures forall i :: 0 <= i < k ==> IsDigit(s[i])
    ensures k < |s| ==> !IsDigit(s[k])
  {
    if s != [] && IsDigit(s[0]) then 1 + DigitRun(s[1..]) else 0
  }

  /**
   * strconv.ParseFloat on a plain decimal literal: an optional sign, then
   * digits with at most one '.', and at least one digit in all.
   */
  function ParseDecimal(s: string): (r: Option<Decimal>)
    ensures r.Some? ==> |s| > 0
  {
    var negative := |s| > 0 && s[0] == '-';
    var body := if |s| > 0 && (s[0] == '-' || s[0] == '+') then s[1..] else s;
    match ParseUnsigned(body)
    case None => None
    case Some(d) => Some(Decimal(negative, d.mantissa, d.scale))
  }

  /** The unsigned part of a decimal literal: digits, then optionally '.' and more digits. */
  function ParseUnsigned(body: string): (r: Option<Decimal>)
    ensures r.Some? ==> |body| > 0 && !r.value.negative
  {
    var k := DigitRun(body);
    if k == |body| then
      if k == 0 then None else Some(Decimal(false, DigitsValue(body), 0))
    else if body[k] != '.' then None
    else
      var whole, fraction := body[..k], body[k + 1..];
      if !IsDigits(fraction) || (k == 0 && |fraction| == 0) then None
      else Some(Decimal(false, Shift(DigitsValue(whole), |fraction|) + DigitsValue(fraction), |fraction|))
  }

  /**
   * The syntax ParseDecimal accepts, read one character at a time: digits,
   * then optionally '.' and more digits, with at least one digit in all.
   * `digitSeen` records whether a digit has been read already.
   */
  predicate UnsignedSyntax(body: string, digitSeen: bool) {
    if body == [] then digitSeen
    else if IsDigit(body[0]) then UnsignedSyntax(body[1..], true)
    else body[0] == '.' && IsDigits(body[1..]) && (digitSeen || |body| > 1)
  }

  /** s is a decimal literal: an optional sign, then the unsigned syntax. */
  predicate IsNumeral(s: string) {
    UnsignedSyntax(if |s| > 0 && (s[0] == '-' || s[0] == '+') then s[1..] else s, false)
  }

  /** The character scanner agrees with the split at the end of the leading digits. */
  lemma {:induction false} UnsignedSyntaxRun(body: string, digitSeen: bool)
    ensures UnsignedSyntax(body, digitSeen) <==>
      var k := DigitRun(body);
      if k == |body| then digitSeen || k > 0
      else body[k] == '.' && IsDigits(body[k + 1..]) && (digitSeen || k > 0 || |body| > k + 1)
  {
    if body != [] && IsDigit(body[0]) {
      var k := DigitRun(body);
      UnsignedSyntaxRun(body[1..], true);
      assert DigitRun(body[1..]) == k - 1;
      if k < |body| {
        assert body[1..][k - 1] == body[k];
        assert body[1..][k..] == body[k + 1..];
      }
    }
  }

  /** The literals ParseDecimal reads are exactly the numerals. */
  lemma {:induction false} NumeralParses(s: string)
    ensures IsNumeral(s) <==> ParseDecimal(s).Some?
  {
    var body := if |s| > 0 && (s[0] == '-' || s[0] == '+') then s[1..] else s;
    UnsignedSyntaxRun(body, false);
  }

  /** s preceded by enough zeros to be at least w characters long. */
  function ZeroPad(s: string, w: nat): (r: string)
    ensures |r| == if |s| < w then w else |s|
  {
    if |s| < w then seq(w - |s|, _ => '0') + s else s
  }

  /**
   * The canonical spelling of a decimal: its digits, with a '.' before the
   * last `scale` of them when scale is positive and at least one digit
   * before the '.'.
   */
  function FormatDecimal(d: Decimal): string {
    if d.scale == 0 then SignText(d.negative) + NatToDigits(d.mantissa)
    else SignText(d.negative) + PointBefore(ZeroPad(NatToDigits(d.mantissa), d.scale + 1), d.scale)
  }

  /** digits with a '.' inserted before the last n of them. */
  function PointBefore(digits: string, n: nat): string
    requires n <= |digits|
  {
    digits[..|digits| - n] + ("." + digits[|digits| - n..])
  }

  /** ParseDecimal reads back every decimal FormatDecimal writes. */
  lemma {:induction false} ParseFormatDecimal(d: Decimal)
    ensures ParseDecimal(FormatDecimal(d)) == Some(d)
  {
    if d.scale == 0 {
      ParseWhole(d.negative, NatToDigits(d.mantissa));
    } else {
      var digits := ZeroPad(NatToDigits(d.mantissa), d.scale + 1);
      PaddedDigits(d.mantissa, d.scale + 1);
      ParsePointBefore(d.negative, digits, d.scale);
    }
  }

  /** Reading digits with a point inserted gives back their value, scaled. */
  lemma {:induction false} ParsePointBefore(negative: bool, digits: string, n: nat)
    requires n < |digits| && IsDigits(digits)
    ensures ParseDecimal(SignText(negative) + PointBefore(digits, n)) == Some(Decimal(negative, DigitsValue(digits), n))
  {
    var cut := |digits| - n;
    var whole, fraction := digits[..cut], digits[cut..];
    assert IsDigits(whole) && IsDigits(fraction) && |whole| > 0 && |fraction| == n by {
      assert forall i :: 0 <= i < |whole| ==> whole[i] == digits[i];
      assert forall i :: 0 <= i < |fraction| ==> fraction[i] == digits[cut + i];
    }
    assert digits[..cut] + digits[cut..] == digits;
    ParsePointed(negative, whole, fraction);
  }

  /** Zero-padding the digits of m keeps them digits of value m. */
  lemma {:induction false} PaddedDigits(m: nat, w: nat)
    ensures var digits := ZeroPad(NatToDigits(m), w);
            |digits| >= w && IsDigits(digits) && DigitsValue(digits) == m
  {
    var low := NatToDigits(m);
    var zeros := if |low| < w then seq(w - |low|, _ => '0') else [];
    assert ZeroPad(low, w) == zeros + low;
    LeadingZerosValue(zeros, low);
  }

  function SignText(negative: bool): string {
    if negative then "-" else ""
  }

  lemma {:induction false} ParseWhole(negative: bool, digits: string)
    requires |digits| > 0 && IsDigits(digits)
    ensures ParseDecimal(SignText(negative) + digits) == Some(Decimal(negative, DigitsValue(digits), 0))
  {
    DigitRunAll(digits);
    ParseSigned(negative, digits, Decimal(false, DigitsValue(digits), 0));
  }

  lemma {:induction false} ParsePointed(negative: bool, whole: string, fraction: string)
    requires |whole| > 0 && IsDigits(whole) && IsDigits(fraction)
    ensures IsDigits(whole + fraction)
    ensures ParseDecimal(SignText(negative) + (whole + ("." + fraction)))
         == Some(Decimal(negative, DigitsValue(whole + fraction), |fraction|))
  {
    DigitsValueAppend(whole, fraction);
    ParseUnsignedPointed(whole, fraction);
    ParseSigned(negative, whole + ("." + fraction), Decimal(false, DigitsValue(whole + fraction), |fraction|));
  }

  lemma {:induction false} ParseUnsignedPointed(whole: string, fraction: string)
    requires |whole| > 0 && IsDigits(whole) && IsDigits(fraction)
    ensures ParseUnsigned(whole + ("." + fraction))
         == Some(Decimal(false, Shift(DigitsValue(whole), |fraction|) + DigitsValue(fraction), |fraction|))
  {
    var body := whole + ("." + fraction);
    DigitRunStops(whole, "." + fraction);
    var k := DigitRun(body);
    assert k == |whole| && |body| - k - 1 == |fraction|;
    assert body[..k] == whole;
    assert body[k + 1..] == fraction;
    ParseUnsignedAtDot(body);
  }

  /** How ParseUnsigned reads digits, a '.', and digits. */
  lemma {:induction false} ParseUnsignedAtDot(body: string)
    requires 0 < DigitRun(body) < |body| && body[DigitRun(body)] == '.'
    requires IsDigits(body[DigitRun(body) + 1..])
    ensures IsDigits(body[..DigitRun(body)])
    ensures ParseUnsigned(body)
         == Some(Decimal(false, Shift(DigitsValue(body[..DigitRun(body)]), |body| - DigitRun(body) - 1)
                                + DigitsValue(body[DigitRun(body) + 1..]), |body| - DigitRun(body) - 1))
  {
    assert IsDigits(body[..DigitRun(body)]);
  }

  /** A sign in front of an unsigned literal only sets the sign. */
  lemma {:induction false} ParseSigned(negative: bool, body: string, d: Decimal)
    requires |body| > 0 && IsDigit(body[0]) && ParseUnsigned(body) == Some(d)
    ensures ParseDecimal(SignText(negative) + body) == Some(Decimal(negative, d.mantissa, d.scale))
  {
    var s := SignText(negative) + body;
    if negative {
      assert s[1..] == body;
    } else {
      assert s == body;
    }
  }

  lemma {:induction false} DigitRunAll(s: string)
    requires IsDigits(s)
    ensures DigitRun(s) == |s|
  {
    if s != [] {
      DigitRunAll(s[1..]);
    }
  }

  lemma {:induction false} DigitRunStops(a: string, b: string)
    requires IsDigits(a) && b != [] && !IsDigit(b[0])
    ensures DigitRun(a + b) == |a|
  {
    if a != [] {
      assert (a + b)[1..] == a[1..] + b;
      DigitRunStops(a[1..], b);
    } else {
      assert a + b == b;
    }
  }

  /**
   * A total written with two fraction digits, "D.CC", reads as the whole
   * number of cents D * 100 + CC.
   */
  lemma {:induction false} TwoDecimalCents(dollars: string, c1: char, c2: char)
    requires |dollars| > 0 && IsDigits(dollars) && IsDigit(c1) && IsDigit(c2)
    ensures ParseDecimal(dollars + "." + [c1, c2])
         == Some(Decimal(false, 100 * DigitsValue(dollars) + 10 * DigitValue(c1) + DigitValue(c2), 2))
  {
    var s := dollars + "." + [c1, c2];
    assert s[0] != '-' && s[0] != '+';
    DigitRunStops(dollars, "." + [c1, c2]);
    assert s == dollars + ("." + [c1, c2]);
    assert s[..|dollars|] == dollars;
    assert s[|dollars| + 1..] == [c1, c2];
    DigitsValueAppend(dollars, [c1, c2]);
    assert [c1, c2][..1] == [c1];
    assert [c1][..0] == [];
    assert DigitsValue([c1]) == DigitValue(c1);
    assert DigitsValue([c1, c2]) == 10 * DigitsValue([c1]) + DigitValue(c2);
    assert Shift(DigitsValue(dollars), 1) == 10 * DigitsValue(dollars);
    assert Shift(DigitsValue(dollars), 2) == 100 * DigitsValue(dollars);
  }
}
