/**
 * Decimal numerals, as strconv.ParseFloat reads them, with exact (rational)
 * values instead of binary floating point.
 */
module Numbers {
  import opened Wrappers
  import opened GoStrings

  predicate IsDigit(c: char) {
    '0' <= c <= '9'
  }

  predicate AllDigits(s: string) {
    forall i :: 0 <= i < |s| ==> IsDigit(s[i])
  }

  function DigitValue(c: char): (d: nat)
    requires IsDigit(c)
    ensures d < 10
  {
    c as int - '0' as int
  }

  function DigitChar(d: nat): (c: char)
    requires d < 10
    ensures IsDigit(c) && DigitValue(c) == d
  {
    ('0' as int + d) as char
  }

  function Pow10(k: nat): (p: nat)
    ensures p >= 1
  {
    if k == 0 then 1 else 10 * Pow10(k - 1)
  }

  /** The value of a string of decimal digits, most significant first (0 for ""). */
  function DigitsValue(s: string): nat
    requires AllDigits(s)
  {
    if s == [] then 0 else DigitsValue(s[..|s| - 1]) * 10 + DigitValue(s[|s| - 1])
  }

  lemma {:induction false} DigitsValueSnoc(t: string, c: char)
    requires AllDigits(t) && IsDigit(c)
    ensures AllDigits(t + [c])
    ensures DigitsValue(t + [c]) == DigitsValue(t) * 10 + DigitValue(c)
  {
    assert (t + [c])[..|t|] == t;
  }

  lemma {:induction false} DigitsValueAppend(a: string, b: string)
    requires AllDigits(a) && AllDigits(b)
    ensures AllDigits(a + b)
    ensures DigitsValue(a + b) == DigitsValue(a) * Pow10(|b|) + DigitsValue(b)
  {
    if b == [] {
      assert a + b == a;
    } else {
      var b', c := b[..|b| - 1], b[|b| - 1];
      assert b == b' + [c];
      assert a + b == (a + b') + [c];
      DigitsValueAppend(a, b');
      DigitsValueSnoc(a + b', c);
      DigitsValueSnoc(b', c);
      MulTen(DigitsValue(a), Pow10(|b'|));
    }
  }

  lemma {:induction false} MulTen(x: int, p: int)
    ensures x * (10 * p) == 10 * (x * p)
  {
  }

  /** The shortest decimal numeral of `n`. */
  function NatDigits(n: nat): (s: string)
    ensures |s| > 0 && AllDigits(s)
    ensures DigitsValue(s) == n
  {
    if n < 10 then [DigitChar(n)]
    else
      var s := NatDigits(n / 10) + [DigitChar(n % 10)];
      assert s[..|s| - 1] == NatDigits(n / 10);
      s
  }

  function Zeros(k: nat): (s: string)
    ensures |s| == k && AllDigits(s) && DigitsValue(s) == 0
  {
    if k == 0 then []
    else
      var s := Zeros(k - 1) + ['0'];
      assert s[..|s| - 1] == Zeros(k - 1);
      s
  }

  /** Left-pads a numeral with zeros to at least `width` digits; the value is unchanged. */
  function PadZeros(s: string, width: nat): (r: string)
    requires AllDigits(s)
    ensures AllDigits(r) && DigitsValue(r) == DigitsValue(s)
    ensures |r| >= width && |r| >= |s|
  {
    if |s| >= width then s
    else
      DigitsValueAppend(Zeros(width - |s|), s);
      Zeros(width - |s|) + s
  }

  /** Index of the first exponent marker ('e' or 'E'), or |s|. */
  function ExponentIndex(s: string): (i: nat)
    ensures i <= |s|
    ensures i < |s| ==> s[i] == 'e' || s[i] == 'E'
    ensures forall k :: 0 <= k < i ==> s[k] != 'e' && s[k] != 'E'
  {
    if |s| == 0 then 0 else if s[0] == 'e' || s[0] == 'E' then 0 else 1 + ExponentIndex(s[1..])
  }

  /** The value of the numeral whole.frac: all its digits read as one integer, over 10^|frac|. */
  function DecimalValue(whole: string, frac: string): (v: real)
    requires AllDigits(whole) && AllDigits(frac)
    ensures v >= 0.0
  {
    assert AllDigits(whole + frac);
    DigitsValue(whole + frac) as real / Pow10(|frac|) as real
  }

  /** The mantissa of a decimal numeral: digits with at most one '.', at least one digit. */
  function ParseMantissa(s: string): (r: Option<real>)
    ensures r.Some? ==> r.value >= 0.0
    ensures r.Some? ==> |s| > 0 && (IsDigit(s[0]) || s[0] == '.')
  {
    var dot := IndexOf(s, '.');
    var whole := s[..dot];
    var frac := if dot < |s| then s[dot + 1..] else [];
    if AllDigits(whole) && AllDigits(frac) && |whole| + |frac| > 0 then
      Some(DecimalValue(whole, frac))
    else
      None
  }

  /** A decimal exponent: an optional sign and at least one digit. */
  function ParseExponent(s: string): Option<int> {
    var neg := |s| > 0 && s[0] == '-';
    var digits := if |s| > 0 && (s[0] == '+' || s[0] == '-') then s[1..] else s;
    if |digits| > 0 && AllDigits(digits) then
      var v: int := DigitsValue(digits);
      Some(if neg then -v else v)
    else
      None
  }

  /** x * 10^e for an integer e. */
  function Scale(x: real, e: int): (r: real)
    ensures x >= 0.0 ==> r >= 0.0
    ensures e == 0 ==> r == x
  {
    if e >= 0 then x * Pow10(e) as real else x / Pow10(-e) as real
  }

  /**
   * strconv.ParseFloat on a base-10 numeral: an optional sign, a mantissa and an
   * optional exponent. The result is the exact value.
   */
  function ParseNumber(s: string): (r: Option<real>)
    ensures r.Some? ==> |s| > 0 && (IsDigit(s[0]) || s[0] == '.' || s[0] == '+' || s[0] == '-')
    ensures r.Some? && s[0] != '-' ==> r.value >= 0.0
  {
    var neg := |s| > 0 && s[0] == '-';
    var body := if |s| > 0 && (s[0] == '+' || s[0] == '-') then s[1..] else s;
    var e := ExponentIndex(body);
    var mantissa := ParseMantissa(body[..e]);
    var exponent := if e < |body| then ParseExponent(body[e + 1..]) else Some(0);
    if mantissa.None? || exponent.None? then None
    else
      var magnitude := Scale(mantissa.value, exponent.value);
      Some(if neg then -magnitude else magnitude)
  }

  /** The exact value of m / 10^k. */
  function Scaled(m: int, k: nat): real {
    m as real / Pow10(k) as real
  }

  /** The digits of n / 10^k with exactly k of them after a '.' (none when k = 0). */
  function ShowUnsigned(n: nat, k: nat): (s: string)
    ensures |s| > 0 && IsDigit(s[0])
    ensures forall i :: 0 <= i < |s| ==> IsDigit(s[i]) || s[i] == '.'
  {
    var digits := PadZeros(NatDigits(n), k + 1);
    var whole := digits[..|digits| - k];
    var frac := digits[|digits| - k..];
    DecimalOfPadded(digits, n, k);
    if k == 0 then
      whole
    else
      NumeralChars(whole, frac);
      whole + ['.'] + frac
  }

  /**
   * The numeral of m / 10^k with exactly k fraction digits, as a ledger report
   * prints it: "-1234.56" for (-123456, 2), "0.05" for (5, 2), "7" for (7, 0).
   */
  function Show(m: int, k: nat): (s: string)
    ensures |s| > 0
  {
    if m < 0 then ['-'] + ShowUnsigned(-m, k) else ShowUnsigned(m, k)
  }

  lemma {:induction false} DotSplits(whole: string, frac: string)
    requires AllDigits(whole)
    ensures IndexOf(whole + ['.'] + frac, '.') == |whole|
  {
    if whole != [] {
      assert (whole + ['.'] + frac)[1..] == whole[1..] + ['.'] + frac;
      DotSplits(whole[1..], frac);
    }
  }

  lemma {:induction false} NoDot(s: string)
    requires AllDigits(s)
    ensures IndexOf(s, '.') == |s|
  {
    if s != [] {
      NoDot(s[1..]);
    }
  }

  /** The numeral whole.frac (just whole when frac is empty) reads as DecimalValue(whole, frac). */
  lemma {:induction false} MantissaOfNumeral(whole: string, frac: string)
    requires AllDigits(whole) && AllDigits(frac) && |whole| > 0
    ensures ParseMantissa(if frac == [] then whole else whole + ['.'] + frac) == Some(DecimalValue(whole, frac))
  {
    var body := if frac == [] then whole else whole + ['.'] + frac;
    var dot := IndexOf(body, '.');
    if frac == [] {
      NoDot(whole);
      assert body[..dot] == whole;
    } else {
      DotSplits(whole, frac);
      assert body[..dot] == whole;
      assert body[dot + 1..] == frac;
    }
  }

  lemma {:induction false} MantissaOfShow(n: nat, k: nat)
    ensures ParseMantissa(ShowUnsigned(n, k)) == Some(Scaled(n, k))
  {
    var digits := PadZeros(NatDigits(n), k + 1);
    var whole := digits[..|digits| - k];
    var frac := digits[|digits| - k..];
    assert ShowUnsigned(n, k) == if frac == [] then whole else whole + ['.'] + frac;
    MantissaOfNumeral(whole, frac);
    DecimalOfPadded(digits, n, k);
  }

  lemma {:induction false} DecimalOfPadded(digits: string, n: nat, k: nat)
    requires AllDigits(digits) && DigitsValue(digits) == n && |digits| >= k
    ensures AllDigits(digits[..|digits| - k]) && AllDigits(digits[|digits| - k..])
    ensures DecimalValue(digits[..|digits| - k], digits[|digits| - k..]) == Scaled(n, k)
  {
    assert digits[..|digits| - k] + digits[|digits| - k..] == digits;
  }

  /** Without an exponent, a numeral is its sign and its mantissa. */
  lemma {:induction false} NumberWithoutExponent(body: string)
    requires |body| > 0 && IsDigit(body[0])
    requires forall i :: 0 <= i < |body| ==> IsDigit(body[i]) || body[i] == '.'
    ensures ParseNumber(body) == ParseMantissa(body)
    ensures ParseNumber(['-'] + body) == if ParseMantissa(body).Some? then Some(-ParseMantissa(body).value) else None
  {
    UnsignedWithoutExponent(body);
    NegativeWithoutExponent(body);
  }

  lemma {:induction false} UnsignedWithoutExponent(body: string)
    requires |body| > 0 && IsDigit(body[0])
    requires forall i :: 0 <= i < |body| ==> IsDigit(body[i]) || body[i] == '.'
    ensures ParseNumber(body) == ParseMantissa(body)
  {
    ExponentAbsent(body);
    assert body[..|body|] == body;
  }

  lemma {:induction false} NegativeWithoutExponent(body: string)
    requires |body| > 0 && IsDigit(body[0])
    requires forall i :: 0 <= i < |body| ==> IsDigit(body[i]) || body[i] == '.'
    ensures ParseNumber(['-'] + body) == if ParseMantissa(body).Some? then Some(-ParseMantissa(body).value) else None
  {
    ExponentAbsent(body);
    assert body[..|body|] == body;
    assert (['-'] + body)[1..] == body;
  }

  /** A numeral whole.frac, with no sign and no exponent, reads as DecimalValue(whole, frac). */
  lemma {:induction false} NumberOfNumeral(whole: string, frac: string)
    requires AllDigits(whole) && AllDigits(frac) && |whole| > 0 && |frac| > 0
    ensures forall i :: 0 <= i < |whole + ['.'] + frac| ==> IsDigit((whole + ['.'] + frac)[i]) || (whole + ['.'] + frac)[i] == '.'
    ensures ParseNumber(whole + ['.'] + frac) == Some(DecimalValue(whole, frac))
  {
    var s := whole + ['.'] + frac;
    NumeralChars(whole, frac);
    MantissaOfNumeral(whole, frac);
    NumberWithoutExponent(s);
  }

  lemma {:induction false} NumeralChars(whole: string, frac: string)
    requires AllDigits(whole) && AllDigits(frac)
    ensures forall i :: 0 <= i < |whole + ['.'] + frac| ==> IsDigit((whole + ['.'] + frac)[i]) || (whole + ['.'] + frac)[i] == '.'
  {
    var s := whole + ['.'] + frac;
    forall i | 0 <= i < |s| ensures IsDigit(s[i]) || s[i] == '.' {
      if i > |whole| { assert s[i] == frac[i - |whole| - 1]; }
    }
  }

  lemma {:induction false} NonNegativeShow(n: nat, k: nat)
    ensures ParseNumber(Show(n, k)) == ParseMantissa(ShowUnsigned(n, k))
  {
    NumberWithoutExponent(ShowUnsigned(n, k));
  }

  /** A '-' before a plain numeral negates its value. */
  lemma {:induction false} NegatedNumeral(body: string, v: real, w: real)
    requires |body| > 0 && IsDigit(body[0])
    requires forall i :: 0 <= i < |body| ==> IsDigit(body[i]) || body[i] == '.'
    requires ParseMantissa(body) == Some(v) && w == -v
    ensures ParseNumber(['-'] + body) == Some(w)
  {
    NumberWithoutExponent(body);
  }

  lemma {:induction false} ShowParsesNegative(m: int, k: nat)
    requires m < 0
    ensures ParseNumber(Show(m, k)) == Some(Scaled(m, k))
  {
    var n: nat := -m;
    var body := ShowUnsigned(n, k);
    MantissaOfShow(n, k);
    ScaledOfNegative(m, n, k);
    NegatedNumeral(body, Scaled(n, k), Scaled(m, k));
    ShowOfNegative(m, n, k);
  }

  lemma {:induction false} ShowOfNegative(m: int, n: nat, k: nat)
    requires m < 0 && n == -m
    ensures Show(m, k) == ['-'] + ShowUnsigned(n, k)
  {
  }

  lemma {:induction false} ScaledOfNegative(m: int, n: nat, k: nat)
    requires n == -m
    ensures Scaled(m, k) == -Scaled(n, k)
  {
    ScaledNegated(n, k);
    assert m == -(n as int);
  }

  lemma {:induction false} ShowParsesNonNegative(m: nat, k: nat)
    ensures ParseNumber(Show(m, k)) == Some(Scaled(m, k))
  {
    MantissaOfShow(m, k);
    NonNegativeShow(m, k);
  }

  /** Reading a shown numeral gives back its exact value. */
  lemma {:induction false} ShowParses(m: int, k: nat)
    ensures ParseNumber(Show(m, k)) == Some(Scaled(m, k))
  {
    if m < 0 {
      ShowParsesNegative(m, k);
    } else {
      ShowParsesNonNegative(m, k);
    }
  }

  lemma {:induction false} ScaledNegated(m: int, k: nat)
    ensures Scaled(-m, k) == -Scaled(m, k)
  {
  }

  lemma {:induction false} ExponentAbsent(s: string)
    requires forall i :: 0 <= i < |s| ==> IsDigit(s[i]) || s[i] == '.'
    ensures ExponentIndex(s) == |s|
  {
  }

  lemma {:induction false} IndexOfFirst(s: string, c: char, i: nat)
    requires i < |s| && s[i] == c
    requires forall k :: 0 <= k < i ==> s[k] != c
    ensures IndexOf(s, c) == i
  {
  }
}
