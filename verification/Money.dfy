// Amounts in cents as EPay writes and reads them.
module Money {
  import opened Sums
  import opened Digits

  /** A decimal number: digits / 10^scale, negative or not. */
  datatype Amount = Amount(negative: bool, digits: nat, scale: nat)

  /** Decimal.normalize: no trailing zeros after the point. */
  function Normalize(digits: nat, scale: nat): Amount {
    if scale > 0 && digits % 10 == 0 then Normalize(digits / 10, scale - 1) else Amount(false, digits, scale)
  }

  /** format(amount, "f") of a number that is not negative */
  function Format(a: Amount): string {
    if a.scale == 0 then ToText(a.digits)
    else
      var p := Pow10(a.scale);
      ToText(Quotient(a.digits, p)) + ['.'] + Padded(Remainder(a.digits, p), a.scale)
  }

  /** _cents_to_money */
  function CentsToMoney(cents: nat): string { Format(Normalize(cents, 2)) }

  /** Decimal(s) for plain decimal notation: a sign, digits, a point, digits. */
  function ParseAmount(s: string): Option<Amount> {
    var negative := s != [] && s[0] == '-';
    var body := if negative then s[1..] else s;
    var i := IndexOf(body, '.');
    var fraction := if i < |body| then body[i + 1..] else [];
    if !AllDigits(body[..i]) || !AllDigits(fraction) || body[..i] + fraction == [] then None
    else Some(Amount(negative, Value(body[..i] + fraction), |fraction|))
  }

  /** quantize(Decimal("1"), ROUND_HALF_UP) of num / den, without its sign */
  function RoundHalf(num: nat, den: nat): nat
    requires den > 0
  {
    Quotient(2 * num + den, 2 * den)
  }

  /** _money_to_cents; minus zero is zero. */
  function ToCents(a: Amount): Option<nat> {
    var cents := RoundHalf(100 * a.digits, Pow10(a.scale));
    if a.negative && cents > 0 then None else Some(cents)
  }

  function MoneyToCents(s: string): Option<nat> {
    var a := ParseAmount(s);
    if a.None? then None else ToCents(a.value)
  }

  // ---------- Round trip ----------

  lemma {:induction false} NormalizeKeepsValue(digits: nat, scale: nat)
    ensures var a := Normalize(digits, scale);
            !a.negative && a.scale <= scale && digits * Pow10(a.scale) == a.digits * Pow10(scale)
    decreases scale
  {
    if scale > 0 && digits % 10 == 0 {
      NormalizeKeepsValue(digits / 10, scale - 1);
    }
  }

  lemma ParsesWhole(s: string)
    requires AllDigits(s) && s != []
    ensures ParseAmount(s) == Some(Amount(false, Value(s), 0))
  {
    assert IsDigit(s[0]);
    NoIndexInDigits(s, '.');
    assert s[..|s|] + [] == s;
  }

  lemma ParsesPoint(whole: string, fraction: string)
    requires AllDigits(whole) && whole != [] && AllDigits(fraction)
    ensures AllDigits(whole + fraction)
    ensures ParseAmount(whole + ['.'] + fraction) == Some(Amount(false, Value(whole + fraction), |fraction|))
  {
    var s := whole + ['.'] + fraction;
    assert s[0] == whole[0] && IsDigit(whole[0]);
    IndexAfterDigits(whole, '.', fraction);
    assert s[..|whole|] == whole && s[|whole| + 1..] == fraction;
  }

  lemma ValueOfParts(n: nat, scale: nat)
    ensures var p := Pow10(scale);
            Value(ToText(Quotient(n, p)) + Padded(Remainder(n, p), scale)) == n
  {
    var p := Pow10(scale);
    ValueConcat(ToText(Quotient(n, p)), Padded(Remainder(n, p), scale));
    TextRoundTrip(Quotient(n, p));
    PaddedValue(Remainder(n, p), scale);
    DivMod(n, p);
  }

  /** Printed amounts are read back digit by digit, scale included. */
  lemma FormatRoundTrip(a: Amount)
    requires !a.negative
    ensures ParseAmount(Format(a)) == Some(a)
  {
    if a.scale == 0 {
      ParsesWhole(ToText(a.digits));
      TextRoundTrip(a.digits);
    } else {
      var p := Pow10(a.scale);
      ParsesPoint(ToText(Quotient(a.digits, p)), Padded(Remainder(a.digits, p), a.scale));
      ValueOfParts(a.digits, a.scale);
    }
  }

  /** Cents printed for the gateway are read back unchanged. */
  lemma MoneyRoundTrip(cents: nat)
    ensures MoneyToCents(CentsToMoney(cents)) == Some(cents)
  {
    var a := Normalize(cents, 2);
    NormalizeKeepsValue(cents, 2);
    FormatRoundTrip(a);
    assert Pow10(2) == 100;
    ExactHalf(cents, Pow10(a.scale));
  }

  lemma ExactHalf(n: nat, den: nat)
    requires den > 0
    ensures RoundHalf(n * den, den) == n
  {
    QuotientIs(2 * (n * den) + den, 2 * den, n);
  }

  lemma QuotientIs(a: nat, b: nat, q: nat)
    requires b > 0 && b * q <= a < b * (q + 1)
    ensures Quotient(a, b) == q
  {
    var k := Quotient(a, b);
    DivMod(a, b);
    LessTimes(b, k, q + 1);
    LessTimes(b, q, k + 1);
  }

  lemma LessTimes(b: nat, x: nat, y: nat)
    requires b * x < b * y
    ensures x < y
  {
    if x >= y {
      Times(b, y, x - y);
    }
  }

  lemma Times(b: nat, y: nat, z: nat)
    ensures b * (y + z) >= b * y
  {
  }

  /** The printed amount has no trailing zero after its point. */
  lemma {:induction false} NoTrailingZeros(digits: nat, scale: nat)
    ensures var a := Normalize(digits, scale); a.scale > 0 ==> a.digits % 10 != 0
    decreases scale
  {
    if scale > 0 && digits % 10 == 0 { NoTrailingZeros(digits / 10, scale - 1); }
  }

  // ---------- Rounding ----------

  /** Accepted amounts are off by half a cent at most, and a tie goes up; a negative amount that is accepted rounds to zero. */
  lemma RoundingError(a: Amount)
    ensures var den: int := Pow10(a.scale);
            var amount: int := if a.negative then 0 - 100 * a.digits else 100 * a.digits;
            var r := ToCents(a);
            if r.Some? then 0 - den <= 2 * (amount - r.value * den) < den else 2 * amount <= 0 - den
  {
    var den := Pow10(a.scale);
    var num := 100 * a.digits;
    var c := RoundHalf(num, den);
    HalfBounds(num, den);
    if c > 0 { Times(den, 1, c - 1); }
  }

  lemma HalfBounds(num: nat, den: nat)
    requires den > 0
    ensures var c := RoundHalf(num, den);
            2 * (c * den) <= 2 * num + den < 2 * (c * den) + 2 * den
  {
    var c := RoundHalf(num, den);
    DivMod(2 * num + den, 2 * den);
    assert c * (2 * den) == 2 * (c * den);
  }

  /** Texts without a digit are no amounts: the empty one, a sign, a point. */
  lemma AmountHasDigits(s: string)
    requires ParseAmount(s).Some?
    ensures exists i :: 0 <= i < |s| && IsDigit(s[i])
  {
    var k := if s != [] && s[0] == '-' then 1 else 0;
    var body := s[k..];
    var i := IndexOf(body, '.');
    if i > 0 {
      assert IsDigit(body[..i][0]) && s[k] == body[..i][0];
    } else {
      assert IsDigit(body[i + 1..][0]) && s[k + i + 1] == body[i + 1..][0];
    }
  }

  /** A minus sign is all that makes an amount negative. */
  lemma NegativeText(s: string)
    requires AllDigits(s) && s != []
    ensures ParseAmount("-" + s) == Some(Amount(true, Value(s), 0))
  {
    assert ("-" + s)[1..] == s;
    NoIndexInDigits(s, '.');
    assert s[..|s|] + [] == s;
  }

  lemma TextOfTen()
    ensures ToText(10) == "10"
  {
    assert ToText(1) == "1";
  }

  /** Amounts are printed with a point: 10.50 as "10.5". */
  lemma PrintedWithPoint()
    ensures CentsToMoney(1050) == "10.5"
  {
    var a := Normalize(1050, 2);
    assert a == Normalize(105, 1) == Amount(false, 105, 1);
    assert Pow10(1) == 10 * Pow10(0);
    QuotientIs(105, 10, 10);
    DivMod(105, 10);
    TextOfTen();
    assert Padded(5, 1) == Padded(0, 0) + [DigitChar(5)];
  }
}
