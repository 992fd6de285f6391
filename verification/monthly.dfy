/**
 * The CSV register of `hledger reg expenses --monthly`: after the header
 * record, each record with at least six columns names a period start (column
 * 1), an account (column 4) and an amount token (column 5). Each such record
 * sets one entry of the monthly gauge, labelled (category, currency, month,
 * month_tag).
 */
module Monthly {
  import opened Wrappers
  import opened GoStrings
  import opened Amounts
  import opened Months
  import opened Gauges

  /** Labels of the monthly gauge: (category, currency, month, month_tag). */
  type MonthLabel = (string, string, string, string)

  /**
   * What one CSV record does in the loop. `Panic` is the run-time abort of
   * slicing the first seven bytes of a date shorter than that.
   */
  datatype RecordEffect =
    | Ignored
    | Write(key: MonthLabel, amount: real)
    | Panic

  /** The prefix cut from account names to form categories. */
  function ExpensesPrefix(): (p: string)
    ensures |p| == 9 && p[..8] == "expenses" && p[8] == ':'
  {
    "expenses:"
  }

  /**
   * One iteration of the loop over the records, the record's index being `i`.
   * The header and short records are ignored; a date shorter than seven
   * characters panics; an empty or undecodable amount is ignored; anything
   * else writes the decoded amount under the month of its date.
   */
  function ClassifyRecord(i: nat, rec: seq<string>, now: YearMonth): (r: RecordEffect)
    requires ValidNow(now)
    ensures i == 0 || |rec| < 6 ==> r == Ignored
    ensures r.Panic? <==> i > 0 && |rec| >= 6 && |rec[1]| < 7
    ensures r.Write? <==> i > 0 && |rec| >= 6 && |rec[1]| >= 7 && DecodeAmount(TrimSpace(rec[5])).Some?
    ensures r.Write? ==>
      r.key.0 == TrimPrefix(rec[4], ExpensesPrefix()) && r.key.2 == rec[1][..7]
      && Amount(r.amount, r.key.1) == DecodeAmount(TrimSpace(rec[5])).value
    ensures r.Write? ==> r.key.3 == MonthTag(r.key.2, now)
  {
    if i == 0 || |rec| < 6 then Ignored
    else if |rec[1]| < 7 then Panic
    else
      var month := rec[1][..7];
      var category := TrimPrefix(rec[4], ExpensesPrefix());
      var amountStr := TrimSpace(rec[5]);
      if amountStr == [] then Ignored
      else
        match DecodeAmount(amountStr)
        case None => Ignored
        case Some(a) => Write((category, a.currency, month, MonthTag(month, now)), a.value)
  }

  /** The outcome of the loop: the gauge writes made, and whether it panicked. */
  datatype Run = Run(writes: seq<(MonthLabel, real)>, panicked: bool)

  /**
   * The loop over `records`: each record's write in order, stopping at the
   * first record that panics.
   */
  function RunRecords(records: seq<seq<string>>, now: YearMonth): (r: Run)
    requires ValidNow(now)
    ensures |r.writes| <= |records|
  {
    if records == [] then Run([], false)
    else
      var n := |records| - 1;
      var prev := RunRecords(records[..n], now);
      if prev.panicked then prev
      else
        match ClassifyRecord(n, records[n], now)
        case Ignored => prev
        case Panic => Run(prev.writes, true)
        case Write(key, amount) => Run(prev.writes + [(key, amount)], false)
  }

  /** The state of the monthly gauge after a run on an emptied gauge. */
  function MonthlyGauge(records: seq<seq<string>>, now: YearMonth): map<MonthLabel, real>
    requires ValidNow(now)
  {
    Apply(map[], RunRecords(records, now).writes)
  }

  /** Once the loop has panicked, later records change nothing. */
  lemma {:induction false} PanicIsFinal(records: seq<seq<string>>, k: nat, now: YearMonth)
    requires ValidNow(now) && k <= |records|
    requires RunRecords(records[..k], now).panicked
    ensures RunRecords(records, now) == RunRecords(records[..k], now)
    decreases |records| - k
  {
    if k < |records| {
      var n := |records| - 1;
      assert records[..n][..k] == records[..k];
      PanicIsFinal(records[..n], k, now);
    } else {
      assert records[..k] == records;
    }
  }

  /** Record `i` is a data record of six columns whose date is shorter than seven. */
  predicate PanicRecord(i: nat, rec: seq<string>) {
    i > 0 && |rec| >= 6 && |rec[1]| < 7
  }

  /** The loop panics exactly when some record is a PanicRecord. */
  lemma {:induction false} PanicsIff(records: seq<seq<string>>, now: YearMonth)
    requires ValidNow(now)
    ensures RunRecords(records, now).panicked <==>
      exists i :: 0 <= i < |records| && PanicRecord(i, records[i])
  {
    if records != [] {
      var n := |records| - 1;
      var init := records[..n];
      PanicsIff(init, now);
      PanicStep(records, now);
      assert forall i :: 0 <= i < n ==> init[i] == records[i];
    }
  }

  lemma {:induction false} PanicStep(records: seq<seq<string>>, now: YearMonth)
    requires ValidNow(now) && records != []
    ensures RunRecords(records, now).panicked <==>
      RunRecords(records[..|records| - 1], now).panicked || PanicRecord(|records| - 1, records[|records| - 1])
  {
  }

  /** Every write carries the month tag of its own month label. */
  lemma {:induction false} WritesTagged(records: seq<seq<string>>, now: YearMonth)
    requires ValidNow(now)
    ensures forall k :: 0 <= k < |RunRecords(records, now).writes| ==>
      RunRecords(records, now).writes[k].0.3 == MonthTag(RunRecords(records, now).writes[k].0.2, now)
  {
    if records != [] {
      var n := |records| - 1;
      WritesTagged(records[..n], now);
    }
  }

  /**
   * Every entry of the monthly gauge is tagged "current" exactly when its
   * month is the clock's month, "previous" exactly when it is the month
   * before, and "" otherwise.
   */
  lemma {:induction false} GaugeTagsAgree(records: seq<seq<string>>, now: YearMonth)
    requires ValidNow(now)
    ensures forall l :: l in MonthlyGauge(records, now) ==> l.3 == MonthTag(l.2, now)
    ensures forall l :: l in MonthlyGauge(records, now) ==>
      (l.3 == "current" <==> l.2 == FormatYearMonth(now))
      && (l.3 == "previous" <==> l.2 == FormatYearMonth(Previous(now)))
  {
    var ws := RunRecords(records, now).writes;
    WritesTagged(records, now);
    ApplyFacts(map[], ws);
    forall l | l in MonthlyGauge(records, now)
      ensures l.3 == MonthTag(l.2, now)
    {
      var i :| 0 <= i < |ws| && ws[i] == (l, LastWrite(ws, l).value) && IsLastFor(ws, l, i);
    }
  }

  /** The header record never writes, whatever it holds. */
  lemma {:induction false} HeaderIgnored(rec: seq<string>, now: YearMonth)
    requires ValidNow(now)
    ensures RunRecords([rec], now) == Run([], false)
  {
    assert [rec][..0] == [];
  }

  /**
   * A data record of the expected shape: its period starts on `date` and its
   * amount column holds a euro amount; it writes that amount under the
   * account's category, the date's month and that month's tag.
   */
  lemma {:induction false} RecordExample(rec: seq<string>, date: string, account: string, amountStr: string, now: YearMonth)
    requires ValidNow(now) && now == YearMonth(2024, 4)
    requires date == "2024-04-01" && account == ExpensesPrefix() + "food" && amountStr == [Euro] + "12.3"
    requires |rec| == 7 && rec[1] == date && rec[4] == account && rec[5] == amountStr
    ensures ClassifyRecord(1, rec, now) == Write(("food", "EUR", "2024-04", "current"), 12.3)
  {
    assert date[..7] == "2024-04";
    FormatApril();
    assert TrimPrefix(account, ExpensesPrefix()) == "food";
    DecodeEuroTwelve(amountStr);
  }

  lemma {:induction false} DecodeEuroTwelve(s: string)
    requires s == [Euro] + "12.3"
    ensures TrimSpace(s) == s
    ensures DecodeAmount(s) == Some(Amount(12.3, "EUR"))
  {
    assert !IsSpace(s[0]) && !IsSpace(s[|s| - 1]);
    assert s[1..] == "12" + ['.'] + "3";
    ParseAmountOfNumeral("12", "3");
    DecimalValue123();
  }
}
