/**
 * Amount tokens of hledger reports: a currency glyph followed by a number
 * that may carry thousands separators, such as "€1,234.56".
 */
module Amounts {
  import opened Wrappers
  import opened GoStrings
  import opened Numbers

  const Euro: char := '€'

  /** The fixed glyph table: "€" is EUR, "$" is USD, and every other key has no code. */
  function CurrencyCode(symbol: string): (code: string)
    ensures symbol == [Euro] ==> code == "EUR"
    ensures symbol == ['$'] ==> code == "USD"
    ensures symbol != [Euro] && symbol != ['$'] ==> code == ""
  {
    if symbol == [Euro] then "EUR" else if symbol == ['$'] then "USD" else ""
  }

  /** A known currency glyph. */
  predicate IsGlyph(c: char) {
    c == Euro || c == '$'
  }

  /** parseAmount: drop every ',' and read what is left as a number; text without commas is read as it is. */
  function ParseAmount(s: string): (r: Option<real>)
    ensures ',' !in s ==> r == ParseNumber(s)
  {
    RemoveCommasWithout(s);
    ParseNumber(RemoveCommas(s))
  }

  /** A decoded amount token: its value and its currency code ("" for an unknown glyph). */
  datatype Amount = Amount(value: real, currency: string)

  /**
   * The first rune of a token is its glyph and the rest its number; the token
   * fails to decode exactly when the rest does not parse.
   */
  function DecodeAmount(token: string): (r: Option<Amount>)
    ensures r.Some? <==> |token| > 0 && ParseAmount(token[1..]).Some?
    ensures r.Some? ==> r.value == Amount(ParseAmount(token[1..]).value, CurrencyCode([token[0]]))
  {
    if |token| == 0 then None
    else
      match ParseAmount(token[1..])
      case None => None
      case Some(v) => Some(Amount(v, CurrencyCode([token[0]])))
  }

  /** Thousands separators are ignored wherever they stand. */
  lemma {:induction false} CommaInsensitive(a: string, b: string)
    ensures ParseAmount(a + [','] + b) == ParseAmount(a + b)
  {
    RemoveCommaDropped(a, b);
  }

  /** A number printed with k fraction digits reads back as its value. */
  lemma {:induction false} ParseAmountOfShow(m: int, k: nat)
    ensures ParseAmount(Show(m, k)) == Some(Scaled(m, k))
  {
    assert ',' !in Show(m, k) by {
      ShowHasNoComma(m, k);
    }
    ShowParses(m, k);
  }

  lemma {:induction false} ShowHasNoComma(m: int, k: nat)
    ensures ',' !in Show(m, k)
  {
    var s := ShowUnsigned(if m < 0 then -m else m, k);
    assert forall i :: 0 <= i < |s| ==> s[i] != ',';
    if m < 0 {
      assert Show(m, k) == ['-'] + s;
      assert forall i :: 0 <= i < |Show(m, k)| ==> Show(m, k)[i] != ',' by {
        forall i | 0 <= i < |Show(m, k)| ensures Show(m, k)[i] != ',' {
          if i > 0 { assert Show(m, k)[i] == s[i - 1]; }
        }
      }
    }
  }

  /**
   * A glyph followed by a printed number decodes to that number in the
   * glyph's currency; any other first rune still decodes, with no currency.
   */
  lemma {:induction false} DecodeShownAmount(glyph: char, m: int, k: nat)
    ensures DecodeAmount([glyph] + Show(m, k)) == Some(Amount(Scaled(m, k), CurrencyCode([glyph])))
  {
    assert ([glyph] + Show(m, k))[1..] == Show(m, k);
    ParseAmountOfShow(m, k);
  }

  /** A plain numeral whole.frac reads as DecimalValue(whole, frac). */
  lemma {:induction false} ParseAmountOfNumeral(whole: string, frac: string)
    requires AllDigits(whole) && AllDigits(frac) && |whole| > 0 && |frac| > 0
    ensures ParseAmount(whole + ['.'] + frac) == Some(DecimalValue(whole, frac))
  {
    var s := whole + ['.'] + frac;
    NumberOfNumeral(whole, frac);
    assert ',' !in s by {
      assert forall i :: 0 <= i < |s| ==> IsDigit(s[i]) || s[i] == '.';
    }
  }

  lemma {:induction false} DecimalValue123456()
    ensures DecimalValue("1234", "56") == 1234.56
  {
    assert DigitsValue("12") == 12;
    DigitsValueSnoc("12", '3');
    assert "12" + ['3'] == "123";
    DigitsValueSnoc("123", '4');
    assert "123" + ['4'] == "1234";
    DigitsValueSnoc("1234", '5');
    assert "1234" + ['5'] == "12345";
    DigitsValueSnoc("12345", '6');
    assert "12345" + ['6'] == "123456";
    assert "1234" + "56" == "123456";
    assert Pow10(2) == 100;
  }

  lemma {:induction false} DecimalValue123()
    ensures DecimalValue("12", "3") == 12.3
  {
    DigitsValueSnoc("12", '3');
    assert "12" + ['3'] == "123";
    assert "12" + "3" == "123";
    assert Pow10(1) == 10;
  }

  lemma {:induction false} DecimalValue75()
    ensures DecimalValue("7", "5") == 7.5
  {
    DigitsValueSnoc("7", '5');
    assert "7" + ['5'] == "75";
    assert "7" + "5" == "75";
    assert Pow10(1) == 10;
  }

  /** "€1,234.56" is 1234.56 euros: the comma is ignored. */
  lemma {:induction false} DecodeEuroExample()
    ensures DecodeAmount("€1,234.56") == Some(Amount(1234.56, "EUR"))
  {
    assert "€1,234.56"[1..] == "1,234.56";
    GroupedAmount();
  }

  lemma {:induction false} GroupedAmount()
    ensures ParseAmount("1,234.56") == Some(1234.56)
  {
    assert "1,234.56" == "1" + [','] + "234.56";
    GroupedDigits("1", "234.56");
    assert "1" + "234.56" == "1234.56";
    PlainAmount();
  }

  lemma {:induction false} GroupedDigits(a: string, b: string)
    requires a == "1" && b == "234.56"
    ensures RemoveCommas(a + [','] + b) == a + b
  {
    RemoveCommaDropped(a, b);
    assert forall i :: 0 <= i < |a + b| ==> (a + b)[i] != ',';
    RemoveCommasWithout(a + b);
  }

  lemma {:induction false} PlainAmount()
    ensures ParseNumber("1234.56") == Some(1234.56)
  {
    assert "1234" + ['.'] + "56" == "1234.56";
    NumberOfNumeral("1234", "56");
    DecimalValue123456();
  }

  /** "$12.3" is 12.3 dollars. */
  lemma {:induction false} DecodeDollarExample()
    ensures DecodeAmount("$12.3") == Some(Amount(12.3, "USD"))
  {
    assert "$12.3"[1..] == "12" + ['.'] + "3";
    ParseAmountOfNumeral("12", "3");
    DecimalValue123();
  }

  /** An unknown glyph keeps the amount, with an empty currency. */
  lemma {:induction false} DecodeUnknownGlyphExample()
    ensures DecodeAmount("£7.5") == Some(Amount(7.5, ""))
  {
    assert "£7.5"[1..] == "7" + ['.'] + "5";
    ParseAmountOfNumeral("7", "5");
    DecimalValue75();
  }

  /** A glyph followed by something that is not a number does not decode. */
  lemma {:induction false} DecodeNonNumberExample()
    ensures DecodeAmount("€abc") == None
  {
    assert "€abc"[1..] == "abc";
    assert ExponentIndex("abc") == 3;
    assert ParseMantissa("abc") == None;
  }
}
