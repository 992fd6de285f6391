/**
 * The text report of `hledger bal`: each line is blank, a separator, a
 * per-currency total (a lone glyph-prefixed amount) or an account line (an
 * amount token followed by the account name).
 */
module Balances {
  import opened Wrappers
  import opened GoStrings
  import opened Numbers
  import opened Amounts
  import opened Gauges

  /** What one report line contributes to the gauges. */
  datatype BalanceLine =
    | Skip
    | Total(currency: string, amount: real)
    | Entry(account: string, currency: string, amount: real)

  /** Labels of a per-account gauge: (account, currency). */
  type AccountLabel = (string, string)

  /** A blank line or a line holding the separator "----". */
  predicate IsFiller(line: string) {
    line == [] || Contains(line, "----")
  }

  /** A total always names a currency the glyph table knows. */
  predicate KnownTotal(b: BalanceLine) {
    b.Total? ==> b.currency == "EUR" || b.currency == "USD"
  }

  /**
   * One iteration of the report loop on a trimmed line: filler is skipped, a
   * total needs a single field led by a glyph, an account line at least two
   * fields. ClassifyTrimmedMeaning states the rest.
   */
  function ClassifyTrimmed(line: string, prefix: string): (b: BalanceLine)
    ensures IsFiller(line) ==> b == Skip
    ensures KnownTotal(b)
    ensures b.Total? ==> |Fields(line)| == 1 && IsGlyph(line[0])
    ensures b.Entry? ==> |Fields(line)| >= 2
  {
    if IsFiller(line) then Skip
    else
      var parts := Fields(line);
      if |parts| == 1 && IsGlyph(line[0]) then
        match DecodeAmount(line)
        case None => Skip
        case Some(a) => Total(a.currency, a.value)
      else if |parts| < 2 then Skip
      else
        match DecodeAmount(parts[0])
        case None => Skip
        case Some(a) => Entry(TrimPrefix(parts[1], prefix), a.currency, a.value)
  }

  /**
   * A trimmed line: filler is skipped; a lone token starting with a currency
   * glyph is a total (skipped when its number does not parse); any other
   * line needs an amount token and an account field, and the account loses
   * `prefix` if it has it.
   */
  lemma {:induction false} ClassifyTrimmedMeaning(line: string, prefix: string)
    ensures IsFiller(line) ==> ClassifyTrimmed(line, prefix) == Skip
    ensures ClassifyTrimmed(line, prefix).Total? <==>
      !IsFiller(line) && |Fields(line)| == 1 && IsGlyph(line[0]) && DecodeAmount(line).Some?
    ensures ClassifyTrimmed(line, prefix).Total? ==> Amount(ClassifyTrimmed(line, prefix).amount, ClassifyTrimmed(line, prefix).currency) == DecodeAmount(line).value
    ensures KnownTotal(ClassifyTrimmed(line, prefix))
    ensures ClassifyTrimmed(line, prefix).Entry? <==>
      !IsFiller(line) && !(|Fields(line)| == 1 && IsGlyph(line[0]))
      && |Fields(line)| >= 2 && DecodeAmount(Fields(line)[0]).Some?
    ensures ClassifyTrimmed(line, prefix).Entry? ==>
      ClassifyTrimmed(line, prefix).account == TrimPrefix(Fields(line)[1], prefix)
      && Amount(ClassifyTrimmed(line, prefix).amount, ClassifyTrimmed(line, prefix).currency) == DecodeAmount(Fields(line)[0]).value
  {
  }

  /**
   * One iteration of the report loop on the raw line, which is trimmed
   * first: a line of nothing but white space is skipped.
   */
  function ClassifyLine(raw: string, prefix: string): (b: BalanceLine)
    ensures KnownTotal(b)
    ensures (forall i :: 0 <= i < |raw| ==> IsSpace(raw[i])) ==> b == Skip
  {
    TrimSpaceFacts(raw);
    ClassifyTrimmed(TrimSpace(raw), prefix)
  }

  /**
   * A total is a whole line: the trimmed line holds no white space inside,
   * and the total is that line decoded as one amount token.
   */
  lemma {:induction false} TotalIsWholeLine(raw: string, prefix: string)
    requires ClassifyLine(raw, prefix).Total?
    ensures forall i :: 0 <= i < |TrimSpace(raw)| ==> !IsSpace(TrimSpace(raw)[i])
    ensures Fields(TrimSpace(raw)) == [TrimSpace(raw)]
    ensures DecodeAmount(TrimSpace(raw)) == Some(Amount(ClassifyLine(raw, prefix).amount, ClassifyLine(raw, prefix).currency))
  {
    var line := TrimSpace(raw);
    FieldsOfTrimmed(line);
  }

  /** Every line of a report, classified. */
  function ClassifyReport(lines: seq<string>, prefix: string): (bs: seq<BalanceLine>)
    ensures |bs| == |lines|
  {
    if lines == [] then [] else ClassifyReport(lines[..|lines| - 1], prefix) + [ClassifyLine(lines[|lines| - 1], prefix)]
  }

  /** Line i of a classified report is line i of the text, classified. */
  lemma {:induction false} ClassifyReportAt(lines: seq<string>, prefix: string)
    ensures forall i :: 0 <= i < |lines| ==> ClassifyReport(lines, prefix)[i] == ClassifyLine(lines[i], prefix)
  {
    if lines != [] {
      var init := lines[..|lines| - 1];
      ClassifyReportAt(init, prefix);
      forall i | 0 <= i < |lines|
        ensures ClassifyReport(lines, prefix)[i] == ClassifyLine(lines[i], prefix)
      {
        if i < |init| {
          assert init[i] == lines[i];
        }
      }
    }
  }

  /**
   * The writes of the first i + 1 lines are those of the first i, then the
   * writes of line i.
   */
  lemma {:induction false} ReportSnoc(lines: seq<string>, prefix: string, i: nat)
    requires i < |lines|
    ensures EntryWrites(ClassifyReport(lines[..i + 1], prefix))
      == EntryWrites(ClassifyReport(lines[..i], prefix)) + EntryWrite(ClassifyLine(lines[i], prefix))
    ensures TotalWrites(ClassifyReport(lines[..i + 1], prefix))
      == TotalWrites(ClassifyReport(lines[..i], prefix)) + TotalWrite(ClassifyLine(lines[i], prefix))
  {
    var bs := ClassifyReport(lines[..i + 1], prefix);
    assert lines[..i + 1][..i] == lines[..i];
    assert bs[..i] == ClassifyReport(lines[..i], prefix);
  }

  /** The per-account gauge write of one line, if it makes one. */
  function EntryWrite(b: BalanceLine): seq<(AccountLabel, real)> {
    if b.Entry? then [((b.account, b.currency), b.amount)] else []
  }

  /** The total gauge write of one line, if it makes one. */
  function TotalWrite(b: BalanceLine): seq<(string, real)> {
    if b.Total? then [(b.currency, b.amount)] else []
  }

  /** The per-account gauge writes of a report, in line order. */
  function EntryWrites(bs: seq<BalanceLine>): (ws: seq<(AccountLabel, real)>)
    ensures |ws| <= |bs|
  {
    if bs == [] then [] else EntryWrites(bs[..|bs| - 1]) + EntryWrite(bs[|bs| - 1])
  }

  /** The total gauge writes of a report, in line order. */
  function TotalWrites(bs: seq<BalanceLine>): (ws: seq<(string, real)>)
    ensures |ws| <= |bs|
  {
    if bs == [] then [] else TotalWrites(bs[..|bs| - 1]) + TotalWrite(bs[|bs| - 1])
  }

  /** The report text split into lines, as strings.Split(out, "\n") does. */
  function ReportLines(output: string): seq<string> {
    Split(output, '\n')
  }

  /** The account gauge after collecting the report `output`: emptied, then every account line written in order. */
  function AccountGauge(output: string, prefix: string): map<AccountLabel, real> {
    Apply(map[], EntryWrites(ClassifyReport(ReportLines(output), prefix)))
  }

  /**
   * After collecting the report `output`, the account gauge holds a label
   * exactly when some line of the report writes it.
   */
  lemma {:induction false} AccountGaugeOfReport(output: string, prefix: string, key: AccountLabel)
    ensures key in AccountGauge(output, prefix) <==>
      exists i :: 0 <= i < |ReportLines(output)| && WritesKey(ClassifyLine(ReportLines(output)[i], prefix), key)
  {
    var lines := ReportLines(output);
    var bs := ClassifyReport(lines, prefix);
    ClassifyReportAt(lines, prefix);
    AccountGaugeEntries(bs, key);
    if exists i :: 0 <= i < |bs| && WritesKey(bs[i], key) {
      var i :| 0 <= i < |bs| && WritesKey(bs[i], key);
      assert WritesKey(ClassifyLine(lines[i], prefix), key);
    }
    if exists i :: 0 <= i < |lines| && WritesKey(ClassifyLine(lines[i], prefix), key) {
      var i :| 0 <= i < |lines| && WritesKey(ClassifyLine(lines[i], prefix), key);
      assert WritesKey(bs[i], key);
    }
  }

  /** The total gauge writes the report `output` makes, in order. */
  function ReportTotals(output: string, prefix: string): seq<(string, real)> {
    TotalWrites(ClassifyReport(ReportLines(output), prefix))
  }

  /**
   * The report makes the total write (c, v) exactly when one of its lines is
   * the total v in currency c.
   */
  lemma {:induction false} ReportTotalsOfReport(output: string, prefix: string, c: string, v: real)
    ensures (c, v) in ReportTotals(output, prefix) <==>
      exists i :: 0 <= i < |ReportLines(output)| && ClassifyLine(ReportLines(output)[i], prefix) == Total(c, v)
  {
    var lines := ReportLines(output);
    var bs := ClassifyReport(lines, prefix);
    ClassifyReportAt(lines, prefix);
    TotalWritesFrom(bs, c, v);
    if (c, v) in TotalWrites(bs) {
      var i :| 0 <= i < |bs| && bs[i] == Total(c, v);
      assert ClassifyLine(lines[i], prefix) == Total(c, v);
    }
    if exists i :: 0 <= i < |lines| && ClassifyLine(lines[i], prefix) == Total(c, v) {
      var i :| 0 <= i < |lines| && ClassifyLine(lines[i], prefix) == Total(c, v);
      assert bs[i] == Total(c, v);
    }
  }

  /** A total write comes from a total line, and every total line makes one. */
  lemma {:induction false} TotalWritesFrom(bs: seq<BalanceLine>, c: string, v: real)
    ensures (c, v) in TotalWrites(bs) <==> Total(c, v) in bs
  {
    if bs != [] {
      var init := bs[..|bs| - 1];
      TotalWritesFrom(init, c, v);
      assert bs == init + [bs[|bs| - 1]];
    }
  }

  /**
   * After the report loop the account gauge holds exactly the labels some
   * line wrote, each with the amount of the last line that wrote it.
   */
  lemma {:induction false} AccountGaugeEntries(bs: seq<BalanceLine>, key: AccountLabel)
    ensures key in Apply(map[], EntryWrites(bs)) <==> exists i :: 0 <= i < |bs| && WritesKey(bs[i], key)
    ensures key in Apply(map[], EntryWrites(bs)) ==> exists i :: LastEntryAt(bs, key, Apply(map[], EntryWrites(bs))[key], i)
  {
    LastEntryWins(bs, key);
    ApplyFacts(map[], EntryWrites(bs));
  }

  /** The totals only ever gain the keys "EUR" and "USD". */
  lemma {:induction false} TotalGaugeKeys(m: map<string, real>, output: string, prefix: string)
    ensures forall c :: c in Apply(m, ReportTotals(output, prefix)) ==> c in m || c == "EUR" || c == "USD"
  {
    var bs := ClassifyReport(ReportLines(output), prefix);
    ClassifyReportAt(ReportLines(output), prefix);
    TotalCurrenciesKnown(bs);
    var ws := TotalWrites(bs);
    ApplyFacts(m, ws);
    forall c | c in Apply(m, ws) && c !in m
      ensures c == "EUR" || c == "USD"
    {
      var i :| 0 <= i < |ws| && ws[i] == (c, LastWrite(ws, c).value) && IsLastFor(ws, c, i);
    }
  }

  /** The prefix stripped from account names does not affect the totals. */
  lemma {:induction false} TotalIgnoresPrefix(line: string, prefix: string)
    ensures ClassifyTrimmed(line, prefix).Total? <==> ClassifyTrimmed(line, "").Total?
    ensures ClassifyTrimmed(line, prefix).Total? ==> ClassifyTrimmed(line, prefix) == ClassifyTrimmed(line, "")
  {
  }

  /** The writes of consecutive pieces of a report are the writes of the whole. */
  lemma {:induction false} EntryWritesConcat(a: seq<BalanceLine>, b: seq<BalanceLine>)
    ensures EntryWrites(a + b) == EntryWrites(a) + EntryWrites(b)
  {
    if b == [] {
      assert a + b == a;
    } else {
      assert (a + b)[..|a + b| - 1] == a + b[..|b| - 1];
      EntryWritesConcat(a, b[..|b| - 1]);
    }
  }

  lemma {:induction false} TotalWritesConcat(a: seq<BalanceLine>, b: seq<BalanceLine>)
    ensures TotalWrites(a + b) == TotalWrites(a) + TotalWrites(b)
  {
    if b == [] {
      assert a + b == a;
    } else {
      assert (a + b)[..|a + b| - 1] == a + b[..|b| - 1];
      TotalWritesConcat(a, b[..|b| - 1]);
    }
  }

  /**
   * A line that is not an account line (filler, a total, or a line whose
   * amount does not parse) leaves the account writes of the lines around it
   * as they were: the loop goes on with the next line.
   */
  lemma {:induction false} NonEntryTransparent(a: seq<BalanceLine>, x: BalanceLine, b: seq<BalanceLine>)
    requires !x.Entry?
    ensures EntryWrites(a + [x] + b) == EntryWrites(a) + EntryWrites(b)
  {
    var ax := a + [x];
    EntryWritesConcat(ax, b);
    assert ax[..|ax| - 1] == a;
    assert EntryWrites(ax) == EntryWrites(a) + EntryWrite(x);
  }

  /** Likewise a line that is not a total leaves the total writes as they were. */
  lemma {:induction false} NonTotalTransparent(a: seq<BalanceLine>, x: BalanceLine, b: seq<BalanceLine>)
    requires !x.Total?
    ensures TotalWrites(a + [x] + b) == TotalWrites(a) + TotalWrites(b)
  {
    var ax := a + [x];
    TotalWritesConcat(ax, b);
    assert ax[..|ax| - 1] == a;
    assert TotalWrites(ax) == TotalWrites(a) + TotalWrite(x);
  }

  /** Every total write of a classified report is keyed by a known currency code. */
  lemma {:induction false} TotalCurrenciesKnown(bs: seq<BalanceLine>)
    requires forall i :: 0 <= i < |bs| ==> KnownTotal(bs[i])
    ensures forall i :: 0 <= i < |TotalWrites(bs)| ==>
      TotalWrites(bs)[i].0 == "EUR" || TotalWrites(bs)[i].0 == "USD"
  {
    if bs != [] {
      TotalCurrenciesKnown(bs[..|bs| - 1]);
      assert KnownTotal(bs[|bs| - 1]);
    }
  }

  /** The line writes the account gauge entry `key`. */
  predicate WritesKey(b: BalanceLine, key: AccountLabel) {
    b.Entry? && (b.account, b.currency) == key
  }

  /** Line `i` writes `key` with `amount`, and no later line writes `key`. */
  predicate LastEntryAt(bs: seq<BalanceLine>, key: AccountLabel, amount: real, i: int) {
    0 <= i < |bs| && WritesKey(bs[i], key) && bs[i].amount == amount
    && forall j :: i < j < |bs| ==> !WritesKey(bs[j], key)
  }

  /**
   * After the report loop, an account gauge holding `key` holds the amount
   * of the last line that wrote it; a key no line wrote is absent.
   */
  lemma {:induction false} LastEntryWins(bs: seq<BalanceLine>, key: AccountLabel)
    ensures LastWrite(EntryWrites(bs), key).None? <==> forall i :: 0 <= i < |bs| ==> !WritesKey(bs[i], key)
    ensures LastWrite(EntryWrites(bs), key).Some? ==>
      exists i :: LastEntryAt(bs, key, LastWrite(EntryWrites(bs), key).value, i)
  {
    if bs != [] {
      var init, last := bs[..|bs| - 1], bs[|bs| - 1];
      LastEntryWins(init, key);
      assert bs == init + [last];
      assert EntryWrites(bs) == EntryWrites(init) + EntryWrite(last);
      if WritesKey(last, key) {
        LastEntryIsLast(init, last, key);
      } else {
        LastWriteSkips(EntryWrites(init), EntryWrite(last), key);
        NoEntryExtends(init, last, key);
        if LastWrite(EntryWrites(init), key).Some? {
          var i :| LastEntryAt(init, key, LastWrite(EntryWrites(init), key).value, i);
          LastEntryExtends(init, last, key, LastWrite(EntryWrites(init), key).value, i);
        }
      }
    }
  }

  lemma {:induction false} LastEntryIsLast(init: seq<BalanceLine>, last: BalanceLine, key: AccountLabel)
    requires WritesKey(last, key)
    ensures LastWrite(EntryWrites(init) + EntryWrite(last), key) == Some(last.amount)
    ensures LastEntryAt(init + [last], key, last.amount, |init|)
  {
    var ws := EntryWrites(init) + EntryWrite(last);
    assert ws[|ws| - 1] == (key, last.amount);
  }

  lemma {:induction false} NoEntryExtends(init: seq<BalanceLine>, last: BalanceLine, key: AccountLabel)
    requires !WritesKey(last, key)
    ensures (forall i :: 0 <= i < |init| ==> !WritesKey(init[i], key))
      <==> forall i :: 0 <= i < |init + [last]| ==> !WritesKey((init + [last])[i], key)
  {
    var bs := init + [last];
    assert forall i :: 0 <= i < |init| ==> bs[i] == init[i];
  }

  lemma {:induction false} LastEntryExtends(init: seq<BalanceLine>, last: BalanceLine, key: AccountLabel, amount: real, i: int)
    requires !WritesKey(last, key) && LastEntryAt(init, key, amount, i)
    ensures LastEntryAt(init + [last], key, amount, i)
  {
    var bs := init + [last];
    assert forall j :: 0 <= j < |init| ==> bs[j] == init[j];
  }

  /** A trimmed line of two fields whose first decodes is an account line. */
  lemma {:induction false} ClassifyEntry(line: string, prefix: string, a: string, b: string, v: real, currency: string)
    requires !IsFiller(line) && Fields(line) == [a, b]
    requires DecodeAmount(a) == Some(Amount(v, currency))
    ensures ClassifyTrimmed(line, prefix) == Entry(TrimPrefix(b, prefix), currency, v)
  {
  }

  /** A trimmed line that is one glyph-led token which decodes is a total. */
  lemma {:induction false} ClassifyTotal(line: string, prefix: string, v: real, currency: string)
    requires !IsFiller(line) && |Fields(line)| == 1 && |line| > 0 && IsGlyph(line[0])
    requires DecodeAmount(line) == Some(Amount(v, currency))
    ensures ClassifyTrimmed(line, prefix) == Total(currency, v)
  {
  }

  /**
   * The gauge writes of a report of an account line, a separator and a total
   * line, classified as EntryLineExample, SeparatorExample and
   * TotalLineExample show.
   */
  lemma {:induction false} ReportWritesExample(bs: seq<BalanceLine>)
    requires bs == [Entry("food:groceries", "EUR", 120.0), Skip, Total("EUR", 120.0)]
    ensures EntryWrites(bs) == [(("food:groceries", "EUR"), 120.0)]
    ensures TotalWrites(bs) == [("EUR", 120.0)]
  {
    var one, two := bs[..1], bs[..2];
    assert one[..0] == [] && two[..1] == one && bs[..2] == two;
    assert EntryWrites(one) == EntryWrite(bs[0]);
    assert EntryWrites(two) == EntryWrites(one);
    assert TotalWrites(one) == [];
    assert TotalWrites(two) == [];
  }

  /** "€120.00  expenses:food:groceries" is an account line for "food:groceries". */
  lemma {:induction false} EntryLineExample(a: string, b: string)
    requires a == "€120.00" && b == "expenses:food:groceries"
    ensures ClassifyLine(a + "  " + b, "expenses:") == Entry("food:groceries", "EUR", 120.0)
  {
    EntryLineShape(a, b);
    AmountExample(a);
    AccountExample(b);
    ClassifyEntry(a + "  " + b, "expenses:", a, b, 120.0, "EUR");
  }

  lemma {:induction false} EntryLineShape(a: string, b: string)
    requires a == "€120.00" && b == "expenses:food:groceries"
    ensures TrimSpace(a + "  " + b) == a + "  " + b
    ensures !IsFiller(a + "  " + b)
    ensures Fields(a + "  " + b) == [a, b]
  {
    WordExamples(a, b);
    EntryLineParts(a, b);
    EdgesOfJoin(a, b);
    TrimSpaceOfTrimmed(a + "  " + b);
    assert '-' !in a && '-' !in b;
    NoSeparator(a + "  " + b);
  }

  lemma {:induction false} WordExamples(a: string, b: string)
    requires a == "€120.00" && b == "expenses:food:groceries"
    ensures IsWord(a) && IsWord(b)
  {
  }

  lemma {:induction false} EdgesOfJoin(a: string, b: string)
    requires IsWord(a) && IsWord(b)
    ensures !IsSpace((a + "  " + b)[0]) && !IsSpace((a + "  " + b)[|a + "  " + b| - 1])
  {
    var s := a + "  " + b;
    assert s[0] == a[0] && s[|s| - 1] == b[|b| - 1];
  }

  lemma {:induction false} EntryLineParts(a: string, b: string)
    requires IsWord(a) && IsWord(b)
    ensures Fields(a + "  " + b) == [a, b]
  {
    var t := [' '] + b;
    assert a + "  " + b == a + [' '] + t;
    FieldsAppend(a, ' ', t);
    FieldsSkipSpace(' ', b);
    FieldsOfWord(b);
    assert Fields(t) == [b];
  }

  lemma {:induction false} AccountExample(b: string)
    requires b == "expenses:food:groceries"
    ensures TrimPrefix(b, "expenses:") == "food:groceries"
  {
    assert "expenses:" <= b;
  }

  /** The dashed rule under the account lines is skipped. */
  lemma {:induction false} SeparatorExample(s: string)
    requires s == "--------------------"
    ensures ClassifyLine(s, "expenses:") == Skip
  {
    TrimSpaceOfTrimmed(s);
    assert OccursAt(s, "----", 0);
  }

  /** A lone "€120.00" is the euro total. */
  lemma {:induction false} TotalLineExample(s: string)
    requires s == "€120.00"
    ensures ClassifyLine(s, "expenses:") == Total("EUR", 120.0)
  {
    TrimSpaceOfTrimmed(s);
    NoSeparator(s);
    FieldsOfWord(s);
    AmountExample(s);
    ClassifyTotal(s, "expenses:", 120.0, "EUR");
  }

  lemma {:induction false} AmountExample(a: string)
    requires a == "€120.00"
    ensures DecodeAmount(a) == Some(Amount(120.0, "EUR"))
  {
    assert a[1..] == "120" + ['.'] + "00";
    ParseAmountOfNumeral("120", "00");
    Value12000();
  }

  lemma {:induction false} Value12000()
    ensures DecimalValue("120", "00") == 120.0
  {
    DigitsValueSnoc("12", '0');
    assert "12" + ['0'] == "120";
    DigitsValueSnoc("120", '0');
    assert "120" + ['0'] == "1200";
    DigitsValueSnoc("1200", '0');
    assert "1200" + ['0'] == "12000";
    assert "120" + "00" == "12000";
    assert Pow10(2) == 100;
  }

  /** A text holding a separator holds a '-'. */
  lemma {:induction false} SeparatorHasDash(s: string)
    ensures Contains(s, "----") ==> '-' in s
  {
    if Contains(s, "----") {
      var i: nat :| OccursAt(s, "----", i);
      assert s[i] == s[i..i + 4][0];
    }
  }

  lemma {:induction false} NoSeparator(s: string)
    requires '-' !in s
    ensures !Contains(s, "----")
  {
    SeparatorHasDash(s);
  }
}
