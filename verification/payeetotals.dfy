/**
 * The CSV export of `hledger print expenses`: every posting record names a
 * date (column 1), a description (column 5), an account (column 7), a
 * commodity symbol (column 9) and a debit amount (column 11). Positive
 * debits to expense accounts are summed per normalised payee and month,
 * and each sum sets one entry of the payee gauge, labelled (payee, currency,
 * month, month_tag).
 */
module PayeeTotals {
  import opened Wrappers
  import opened GoStrings
  import opened Numbers
  import opened Amounts
  import opened Months
  import opened Payees
  import opened Gauges
  import opened Monthly

  /** Labels of the payee gauge: (payee, currency, month, month_tag). */
  type PayeeLabel = (string, string, string, string)

  /** A posting the aggregation keeps. */
  datatype Posting = Posting(payee: string, month: string, currency: string, amount: real)

  /** Sums per payee and then per month. */
  type Totals = map<string, map<string, real>>

  /** The trimmed columns of a posting record that the aggregation reads. */
  datatype PostingColumns = PostingColumns(date: string, description: string, account: string, debit: string, commodity: string)

  /** Columns 1, 5, 7, 11 and 9 of a record, white space trimmed. */
  function ColumnsOf(rec: seq<string>): (c: PostingColumns)
    requires |rec| >= 12
    ensures NoEdgeSpace(c.date) && |c.date| <= |rec[1]|
    ensures NoEdgeSpace(c.description) && |c.description| <= |rec[5]|
    ensures NoEdgeSpace(c.account) && |c.account| <= |rec[7]|
    ensures NoEdgeSpace(c.debit) && |c.debit| <= |rec[11]|
    ensures NoEdgeSpace(c.commodity) && |c.commodity| <= |rec[9]|
  {
    PostingColumns(TrimSpace(rec[1]), TrimSpace(rec[5]), TrimSpace(rec[7]), TrimSpace(rec[11]), TrimSpace(rec[9]))
  }

  /**
   * The filter and decoding of one record's columns: a posting to an account
   * outside "expenses:" is dropped, and so is one whose date is not a
   * "YYYY-MM-DD" date and one whose debit is empty, not a number or not
   * positive. The payee is the normalised description, the month that of the
   * date, and the commodity is looked up in the glyph table.
   */
  function ClassifyColumns(c: PostingColumns): (r: Option<Posting>)
    ensures r.Some? <==>
      ExpensesPrefix() <= c.account && ParseDate(c.date).Some?
      && ParseAmount(c.debit).Some? && ParseAmount(c.debit).value > 0.0
    ensures r.Some? ==>
      r.value == Posting(NormalizePayeeAsWritten(c.description), c.date[..7], CurrencyCode(c.commodity), ParseAmount(c.debit).value)
  {
    if !(ExpensesPrefix() <= c.account) then None
    else
      match ParseDate(c.date)
      case None => None
      case Some(d) =>
        if c.debit == [] then None
        else
          match ParseAmount(c.debit)
          case None => None
          case Some(v) =>
            if v <= 0.0 then None
            else
              MonthOfParsedDate(c.date);
              Some(Posting(NormalizePayeeAsWritten(c.description), FormatYearMonth(YearMonth(d.year, d.month)), CurrencyCode(c.commodity), v))
  }

  /** One iteration of the aggregation loop, the record's index being `i`: the header and records of fewer than twelve columns are dropped. */
  function ClassifyPosting(i: nat, rec: seq<string>): (r: Option<Posting>)
    ensures i == 0 || |rec| < 12 ==> r == None
    ensures r.Some? ==> r.value.amount > 0.0
  {
    if i == 0 || |rec| < 12 then None else ClassifyColumns(ColumnsOf(rec))
  }

  /** The posting record `i` contributes: none or one, and a kept debit is positive. */
  function Kept(i: nat, rec: seq<string>): (ps: seq<Posting>)
    ensures |ps| <= 1
    ensures forall k :: 0 <= k < |ps| ==> ps[k].amount > 0.0
  {
    var r := ClassifyPosting(i, rec);
    if r.Some? then [r.value] else []
  }

  /** The postings kept from `records`, in record order. */
  function Postings(records: seq<seq<string>>): (ps: seq<Posting>)
    ensures |ps| <= |records|
    ensures forall k :: 0 <= k < |ps| ==> ps[k].amount > 0.0
  {
    if records == [] then []
    else
      var n := |records| - 1;
      var init := Postings(records[..n]);
      var last := Kept(n, records[n]);
      PositiveAppend(init, last);
      init + last
  }

  lemma {:induction false} PositiveAppend(a: seq<Posting>, b: seq<Posting>)
    requires forall k :: 0 <= k < |a| ==> a[k].amount > 0.0
    requires forall k :: 0 <= k < |b| ==> b[k].amount > 0.0
    ensures forall k :: 0 <= k < |a + b| ==> (a + b)[k].amount > 0.0
  {
  }

  /** The postings of the first i + 1 records are those of the first i and then record i's. */
  lemma {:induction false} PostingsSnoc(records: seq<seq<string>>, i: nat)
    requires i < |records|
    ensures Postings(records[..i + 1]) == Postings(records[..i]) + Kept(i, records[i])
  {
    assert records[..i + 1][..i] == records[..i];
  }

  /** `totals[payee][month] += amount`, creating the payee's map and the month's entry (at 0) when absent. */
  function AddPosting(totals: Totals, p: Posting): (r: Totals)
    ensures r.Keys == totals.Keys + {p.payee}
  {
    var inner := if p.payee in totals then totals[p.payee] else map[];
    var prior := if p.month in inner then inner[p.month] else 0.0;
    totals[p.payee := inner[p.month := prior + p.amount]]
  }

  /** The sums after adding `ps` in order to empty totals. */
  function TotalsOf(ps: seq<Posting>): Totals {
    if ps == [] then map[] else AddPosting(TotalsOf(ps[..|ps| - 1]), ps[|ps| - 1])
  }

  /** The writes `currencies[payee] = currency`, one per posting. */
  function CurrencyWrites(ps: seq<Posting>): (ws: seq<(string, string)>)
    ensures |ws| == |ps|
    ensures forall k :: 0 <= k < |ps| ==> ws[k] == (ps[k].payee, ps[k].currency)
  {
    seq(|ps|, k requires 0 <= k < |ps| => (ps[k].payee, ps[k].currency))
  }

  /** The currency map after the postings: each payee's currency is that of its last posting. */
  function CurrenciesOf(ps: seq<Posting>): map<string, string> {
    Apply(map[], CurrencyWrites(ps))
  }

  /** Reference definition of a sum: the amounts of the postings of `payee` in `month`, added up. */
  function SumFor(ps: seq<Posting>, payee: string, month: string): real {
    if ps == [] then 0.0
    else
      var last := ps[|ps| - 1];
      SumFor(ps[..|ps| - 1], payee, month) + (if last.payee == payee && last.month == month then last.amount else 0.0)
  }

  /** Some posting is for `payee`. */
  predicate HasPayee(ps: seq<Posting>, payee: string) {
    exists k :: 0 <= k < |ps| && ps[k].payee == payee
  }

  /** Some posting is for `payee` in `month`. */
  predicate HasEntry(ps: seq<Posting>, payee: string, month: string) {
    exists k :: 0 <= k < |ps| && ps[k].payee == payee && ps[k].month == month
  }

  /**
   * The nested maps hold a payee exactly when some posting is for it, a month
   * under it exactly when some posting is for both, and that entry is the sum
   * of those postings' amounts.
   */
  lemma {:induction false} TotalsAreSums(ps: seq<Posting>, payee: string, month: string)
    ensures payee in TotalsOf(ps) <==> HasPayee(ps, payee)
    ensures payee in TotalsOf(ps) ==> (month in TotalsOf(ps)[payee] <==> HasEntry(ps, payee, month))
    ensures HasEntry(ps, payee, month) ==> TotalsOf(ps)[payee][month] == SumFor(ps, payee, month)
  {
    if ps != [] {
      var init, last := ps[..|ps| - 1], ps[|ps| - 1];
      TotalsAreSums(init, payee, month);
      HasExtends(init, last, payee, month);
      AddPostingAt(TotalsOf(init), last, payee, month);
      if !HasEntry(init, payee, month) {
        NoEntryNoSum(init, payee, month);
      }
    }
  }

  /** AddPosting, seen from one (payee, month) entry. */
  lemma {:induction false} AddPostingAt(totals: Totals, p: Posting, payee: string, month: string)
    ensures payee in AddPosting(totals, p) <==> payee in totals || payee == p.payee
    ensures payee in AddPosting(totals, p) ==>
      (month in AddPosting(totals, p)[payee] <==>
        (payee in totals && month in totals[payee]) || (payee == p.payee && month == p.month))
    ensures payee in AddPosting(totals, p) && month in AddPosting(totals, p)[payee] ==>
      AddPosting(totals, p)[payee][month] ==
        (if payee in totals && month in totals[payee] then totals[payee][month] else 0.0)
        + (if payee == p.payee && month == p.month then p.amount else 0.0)
  {
  }

  lemma {:induction false} HasExtends(init: seq<Posting>, last: Posting, payee: string, month: string)
    ensures HasPayee(init + [last], payee) <==> HasPayee(init, payee) || last.payee == payee
    ensures HasEntry(init + [last], payee, month) <==>
      HasEntry(init, payee, month) || (last.payee == payee && last.month == month)
  {
    var ps := init + [last];
    assert ps[|init|] == last;
    assert forall k :: 0 <= k < |init| ==> ps[k] == init[k];
  }

  /** Without a posting for (payee, month) the sum is zero. */
  lemma {:induction false} NoEntryNoSum(ps: seq<Posting>, payee: string, month: string)
    requires !HasEntry(ps, payee, month)
    ensures SumFor(ps, payee, month) == 0.0
  {
    if ps != [] {
      HasExtends(ps[..|ps| - 1], ps[|ps| - 1], payee, month);
      assert ps == ps[..|ps| - 1] + [ps[|ps| - 1]];
      NoEntryNoSum(ps[..|ps| - 1], payee, month);
    }
  }

  /** A sum of positive debits over at least one posting is positive. */
  lemma {:induction false} SumPositive(ps: seq<Posting>, payee: string, month: string)
    requires forall k :: 0 <= k < |ps| ==> ps[k].amount > 0.0
    ensures SumFor(ps, payee, month) >= 0.0
    ensures HasEntry(ps, payee, month) ==> SumFor(ps, payee, month) > 0.0
  {
    if ps != [] {
      var init, last := ps[..|ps| - 1], ps[|ps| - 1];
      SumPositive(init, payee, month);
      HasExtends(init, last, payee, month);
      assert ps == init + [last];
    }
  }

  /** The currency map and the sums have the same payees. */
  lemma {:induction false} CurrencyKeys(ps: seq<Posting>, payee: string)
    ensures payee in CurrenciesOf(ps) <==> payee in TotalsOf(ps)
  {
    TotalsAreSums(ps, payee, "");
    var ws := CurrencyWrites(ps);
    ApplyFacts(map[], ws);
    if HasPayee(ps, payee) {
      var k :| 0 <= k < |ps| && ps[k].payee == payee;
      assert ws[k].0 == payee;
    }
  }

  /** A payee's currency is the commodity of its last posting. */
  lemma {:induction false} CurrencyOfLastPosting(ps: seq<Posting>, payee: string)
    requires payee in CurrenciesOf(ps)
    ensures exists k :: (0 <= k < |ps| && ps[k].payee == payee && ps[k].currency == CurrenciesOf(ps)[payee] &&
      forall j :: k < j < |ps| ==> ps[j].payee != payee)
  {
    var ws := CurrencyWrites(ps);
    ApplyFacts(map[], ws);
    var k :| 0 <= k < |ws| && ws[k] == (payee, LastWrite(ws, payee).value) && IsLastFor(ws, payee, k);
    assert ps[k].payee == payee && ps[k].currency == CurrenciesOf(ps)[payee];
  }

  /** The label of the sum for (payee, month); a payee with no currency gets "". */
  function LabelOf(payee: string, month: string, currencies: map<string, string>, now: YearMonth): (l: PayeeLabel)
    requires ValidNow(now)
    ensures l.0 == payee && l.2 == month && l.3 == MonthTag(month, now)
  {
    (payee, if payee in currencies then currencies[payee] else "", month, MonthTag(month, now))
  }

  /** Every (payee, month) pair of the sums. */
  function Pairs(totals: Totals): set<(string, string)> {
    set p, m | p in totals && m in totals[p] :: (p, m)
  }

  /** The gauge entries of the pairs in `done`. */
  function Emitted(done: set<(string, string)>, totals: Totals, currencies: map<string, string>, now: YearMonth): map<PayeeLabel, real>
    requires ValidNow(now) && done <= Pairs(totals)
  {
    map l | l in Labels(done, currencies, now) :: totals[l.0][l.2]
  }

  /** The labels of the pairs in `done`. */
  function Labels(done: set<(string, string)>, currencies: map<string, string>, now: YearMonth): (ls: set<PayeeLabel>)
    requires ValidNow(now)
    ensures forall l :: l in ls <==> (l.0, l.2) in done && l == LabelOf(l.0, l.2, currencies, now)
  {
    set pm | pm in done :: LabelOf(pm.0, pm.1, currencies, now)
  }

  /** The payee gauge after the emit loops: one entry per (payee, month) sum. */
  function PayeeGauge(totals: Totals, currencies: map<string, string>, now: YearMonth): map<PayeeLabel, real>
    requires ValidNow(now)
  {
    Emitted(Pairs(totals), totals, currencies, now)
  }

  /** Emitting one more pair sets one more entry. */
  lemma {:induction false} EmittedAdd(done: set<(string, string)>, p: string, m: string, totals: Totals, currencies: map<string, string>, now: YearMonth)
    requires ValidNow(now) && done <= Pairs(totals) && p in totals && m in totals[p]
    ensures done + {(p, m)} <= Pairs(totals)
    ensures Emitted(done + {(p, m)}, totals, currencies, now)
      == Emitted(done, totals, currencies, now)[LabelOf(p, m, currencies, now) := totals[p][m]]
  {
    assert (p, m) in Pairs(totals);
  }

  /**
   * Every entry of the payee gauge is the sum of the postings of its payee
   * and month, is positive, carries the currency of the payee's last posting
   * and the month tag of its month.
   */
  lemma {:induction false} PayeeGaugeEntry(ps: seq<Posting>, now: YearMonth, payee: string, month: string)
    requires ValidNow(now)
    requires forall k :: 0 <= k < |ps| ==> ps[k].amount > 0.0
    requires HasEntry(ps, payee, month)
    ensures LabelOf(payee, month, CurrenciesOf(ps), now) in PayeeGauge(TotalsOf(ps), CurrenciesOf(ps), now)
    ensures PayeeGauge(TotalsOf(ps), CurrenciesOf(ps), now)[LabelOf(payee, month, CurrenciesOf(ps), now)]
      == SumFor(ps, payee, month) > 0.0
  {
    TotalsAreSums(ps, payee, month);
    SumPositive(ps, payee, month);
    assert (payee, month) in Pairs(TotalsOf(ps));
  }

  /** And every entry of the payee gauge comes from such a pair. */
  lemma {:induction false} PayeeGaugeKeys(ps: seq<Posting>, now: YearMonth, l: PayeeLabel)
    requires ValidNow(now)
    requires l in PayeeGauge(TotalsOf(ps), CurrenciesOf(ps), now)
    ensures HasEntry(ps, l.0, l.2) && l == LabelOf(l.0, l.2, CurrenciesOf(ps), now)
  {
    TotalsAreSums(ps, l.0, l.2);
  }

  /**
   * The first loop of collectExpenseTotalsByPayee: fold every kept posting
   * into the nested sums and the per-payee currency map.
   */
  method Aggregate(records: seq<seq<string>>) returns (totals: Totals, currencies: map<string, string>)
    ensures totals == TotalsOf(Postings(records))
    ensures currencies == CurrenciesOf(Postings(records))
  {
    totals, currencies := map[], map[];
    assert records[..0] == [];
    var i := 0;
    while i < |records|
      invariant i <= |records|
      invariant totals == TotalsOf(Postings(records[..i])) && currencies == CurrenciesOf(Postings(records[..i]))
      decreases |records| - i
    {
      totals, currencies := AggregateRecord(records, i, totals, currencies);
      i := i + 1;
    }
    assert records[..i] == records;
  }

  /** One iteration of that loop: record `i` is folded in when it is kept. */
  method AggregateRecord(records: seq<seq<string>>, i: nat, totals: Totals, currencies: map<string, string>)
    returns (totals': Totals, currencies': map<string, string>)
    requires i < |records|
    requires totals == TotalsOf(Postings(records[..i])) && currencies == CurrenciesOf(Postings(records[..i]))
    ensures totals' == TotalsOf(Postings(records[..i + 1])) && currencies' == CurrenciesOf(Postings(records[..i + 1]))
  {
    var kept := Kept(i, records[i]);
    ghost var ps := Postings(records[..i]);
    PostingsSnoc(records, i);
    if kept != [] {
      assert Postings(records[..i + 1]) == ps + [kept[0]];
      totals', currencies' := Accumulate(totals, currencies, kept[0], ps);
    } else {
      assert Postings(records[..i + 1]) == ps;
      totals', currencies' := totals, currencies;
    }
  }

  /** `totals[payee][month] += amount` and `currencies[payee] = currency` for one kept posting. */
  method Accumulate(totals: Totals, currencies: map<string, string>, p: Posting, ghost ps: seq<Posting>)
    returns (totals': Totals, currencies': map<string, string>)
    requires totals == TotalsOf(ps) && currencies == CurrenciesOf(ps)
    ensures totals' == TotalsOf(ps + [p]) && currencies' == CurrenciesOf(ps + [p])
  {
    TotalsSnoc(ps, p);
    CurrenciesSnoc(ps, p);
    var inner := if p.payee in totals then totals[p.payee] else map[];
    var prior := if p.month in inner then inner[p.month] else 0.0;
    totals' := totals[p.payee := inner[p.month := prior + p.amount]];
    currencies' := currencies[p.payee := p.currency];
  }

  /** Adding one more posting to the sums. */
  lemma {:induction false} TotalsSnoc(ps: seq<Posting>, p: Posting)
    ensures TotalsOf(ps + [p]) == AddPosting(TotalsOf(ps), p)
  {
    assert (ps + [p])[..|ps|] == ps;
  }

  /** One more posting sets its payee's currency. */
  lemma {:induction false} CurrenciesSnoc(ps: seq<Posting>, p: Posting)
    ensures CurrenciesOf(ps + [p]) == CurrenciesOf(ps)[p.payee := p.currency]
  {
    CurrencyWritesSnoc(ps, p);
    ApplySnoc(map[], CurrencyWrites(ps), p.payee, p.currency);
  }

  lemma {:induction false} CurrencyWritesSnoc(ps: seq<Posting>, p: Posting)
    ensures CurrencyWrites(ps + [p]) == CurrencyWrites(ps) + [(p.payee, p.currency)]
  {
  }

  /**
   * The emit loops of collectExpenseTotalsByPayee: for every payee and every
   * month under it, in whatever order the maps yield them, set the sum under
   * its label. The result does not depend on that order.
   */
  method Emit(gauge: Gauge<PayeeLabel>, totals: Totals, currencies: map<string, string>, now: YearMonth)
    requires ValidNow(now) && gauge.values == map[]
    modifies gauge
    ensures gauge.values == PayeeGauge(totals, currencies, now)
  {
    var payees := totals.Keys;
    ghost var done: set<(string, string)> := {};
    while payees != {}
      invariant payees <= totals.Keys && done <= Pairs(totals)
      invariant forall p, m :: p in totals && p !in payees && m in totals[p] ==> (p, m) in done
      invariant gauge.values == Emitted(done, totals, currencies, now)
      decreases |payees|
    {
      var p :| p in payees;
      var months := totals[p].Keys;
      while months != {}
        invariant months <= totals[p].Keys && done <= Pairs(totals)
        invariant forall q, m :: q in totals && q !in payees && m in totals[q] ==> (q, m) in done
        invariant forall m :: m in totals[p] && m !in months ==> (p, m) in done
        invariant gauge.values == Emitted(done, totals, currencies, now)
        decreases |months|
      {
        var m :| m in months;
        EmittedAdd(done, p, m, totals, currencies, now);
        gauge.Set(LabelOf(p, m, currencies, now), totals[p][m]);
        done := done + {(p, m)};
        months := months - {m};
      }
      payees := payees - {p};
    }
    assert done == Pairs(totals);
  }

  /** A debit that starts with a currency glyph is not a number, so the posting is dropped. */
  lemma {:induction false} GlyphDebitDropped(c: PostingColumns)
    requires |c.debit| > 0 && IsGlyph(c.debit[0])
    ensures ClassifyColumns(c) == None
  {
    GlyphLedNotNumber(c.debit);
  }

  lemma {:induction false} GlyphLedNotNumber(s: string)
    requires |s| > 0 && IsGlyph(s[0])
    ensures ParseAmount(s) == None
  {
    assert RemoveCommas(s) == [s[0]] + RemoveCommas(s[1..]);
  }
}
