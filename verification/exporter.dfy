/**
 * The exporter: eight gauge vectors, and the collection runs that refill
 * them from the reports of the ledger tool. The reports are parameters: the
 * captured output of each command, or None when the command (or, for the
 * CSV reports, the CSV reader) failed. The clock's month is a parameter too.
 */
module Exporter {
  import opened Wrappers
  import opened Months
  import opened Gauges
  import opened Balances
  import opened Monthly
  import opened PayeeTotals

  /** The metric registry's eight gauge vectors. */
  class Exporter {
    const expenses: Gauge<AccountLabel>
    const assets: Gauge<AccountLabel>
    const income: Gauge<AccountLabel>
    const totalExpenses: Gauge<string>
    const totalAssets: Gauge<string>
    const totalIncome: Gauge<string>
    const monthly: Gauge<MonthLabel>
    const byPayee: Gauge<PayeeLabel>

    /** The gauge vectors are distinct objects. */
    predicate Valid() {
      expenses != assets && expenses != income && assets != income
      && totalExpenses != totalAssets && totalExpenses != totalIncome && totalAssets != totalIncome
      && monthly != byPayee
      && Accounts() !! Totals()
      && monthly !in Balances() && byPayee !in Balances()
    }

    /** The three per-account gauges. */
    function Accounts(): set<object> {
      {expenses as object, assets, income}
    }

    /** The three total gauges. */
    function Totals(): set<object> {
      {totalExpenses as object, totalAssets, totalIncome}
    }

    /** The six gauges of the balance reports. */
    function Balances(): set<object> {
      Accounts() + Totals()
    }

    /** Every gauge starts empty. */
    constructor ()
      ensures Valid()
      ensures expenses.values == assets.values == income.values == map[]
      ensures totalExpenses.values == totalAssets.values == totalIncome.values == map[]
      ensures monthly.values == map[] && byPayee.values == map[]
    {
      expenses := new Gauge();
      assets := new Gauge();
      income := new Gauge();
      totalExpenses := new Gauge();
      totalAssets := new Gauge();
      totalIncome := new Gauge();
      monthly := new Gauge();
      byPayee := new Gauge();
    }

    /**
     * collectMonthlyExpenses: when the register failed, nothing changes.
     * Otherwise the monthly gauge is emptied and each data record writes its
     * entry, until a record panics; `panicked` tells whether one did.
     */
    method CollectMonthlyExpenses(records: Option<seq<seq<string>>>, now: YearMonth) returns (panicked: bool)
      requires ValidNow(now)
      modifies monthly
      ensures records.None? ==> unchanged(monthly) && !panicked
      ensures records.Some? ==> monthly.values == MonthlyGauge(records.value, now)
      ensures records.Some? ==> panicked == RunRecords(records.value, now).panicked
    {
      if records.None? {
        return false;
      }
      var recs := records.value;
      monthly.Reset();
      assert recs[..0] == [];
      var i := 0;
      while i < |recs|
        invariant i <= |recs| && !RunRecords(recs[..i], now).panicked
        invariant monthly.values == Apply(map[], RunRecords(recs[..i], now).writes)
        decreases |recs| - i
      {
        var stop := MonthlyStep(recs, i, now);
        if stop {
          PanicIsFinal(recs, i + 1, now);
          return true;
        }
        i := i + 1;
      }
      assert recs[..i] == recs;
      return false;
    }

    /**
     * One iteration of the monthly loop: record `i` writes its entry, or
     * leaves the gauge alone, or panics (`stop`).
     */
    method MonthlyStep(recs: seq<seq<string>>, i: nat, now: YearMonth) returns (stop: bool)
      requires ValidNow(now) && i < |recs| && !RunRecords(recs[..i], now).panicked
      requires monthly.values == Apply(map[], RunRecords(recs[..i], now).writes)
      modifies monthly
      ensures stop == RunRecords(recs[..i + 1], now).panicked
      ensures monthly.values == Apply(map[], RunRecords(recs[..i + 1], now).writes)
    {
      var effect := ClassifyRecord(i, recs[i], now);
      ghost var before := RunRecords(recs[..i], now);
      RunStep(recs, i, now, effect);
      match effect {
        case Ignored =>
          stop := false;
        case Panic =>
          stop := true;
        case Write(key, amount) =>
          ApplySnoc(map[], before.writes, key, amount);
          monthly.Set(key, amount);
          stop := false;
      }
    }

    /**
     * collectExpenseTotalsByPayee: when the export failed, nothing changes.
     * Otherwise the payee gauge is emptied and set to one sum per payee and
     * month.
     */
    method CollectExpenseTotalsByPayee(records: Option<seq<seq<string>>>, now: YearMonth)
      requires ValidNow(now)
      modifies byPayee
      ensures records.None? ==> unchanged(byPayee)
      ensures records.Some? ==>
        byPayee.values == PayeeGauge(TotalsOf(Postings(records.value)), CurrenciesOf(Postings(records.value)), now)
    {
      if records.None? {
        return;
      }
      byPayee.Reset();
      var totals, currencies := Aggregate(records.value);
      Emit(byPayee, totals, currencies, now);
    }

    /**
     * The six balance gauges after collecting the three balance reports over
     * the former values `e0`, `a0`, `i0` (account gauges) and `te0`, `ta0`,
     * `ti0` (total gauges): a report that failed leaves its gauges as they
     * were; one that succeeded refills its account gauge and writes its
     * totals over its own total gauge.
     */
    ghost predicate BalancesFrom(expenseReport: Option<string>, assetReport: Option<string>, incomeReport: Option<string>,
                                 e0: map<AccountLabel, real>, a0: map<AccountLabel, real>, i0: map<AccountLabel, real>,
                                 te0: map<string, real>, ta0: map<string, real>, ti0: map<string, real>)
      reads expenses, assets, income, totalExpenses, totalAssets, totalIncome
    {
      Collected(expenses, totalExpenses, "expenses:", expenseReport, e0, te0)
      && Collected(assets, totalAssets, "assets:", assetReport, a0, ta0)
      && Collected(income, totalIncome, "income:", incomeReport, i0, ti0)
    }

    /** The total gauge the switch of collectBalances selects for `accountType`. */
    function TotalGauge(accountType: AccountType): Gauge<string> {
      match accountType
      case Expenses => totalExpenses
      case Assets => totalAssets
      case Income => totalIncome
    }

    /** The three collectBalances calls of updateMetrics, in order. */
    method CollectAllBalances(expenseReport: Option<string>, assetReport: Option<string>, incomeReport: Option<string>)
      requires Valid()
      modifies expenses, assets, income, totalExpenses, totalAssets, totalIncome
      ensures BalancesFrom(expenseReport, assetReport, incomeReport,
        old(expenses.values), old(assets.values), old(income.values),
        old(totalExpenses.values), old(totalAssets.values), old(totalIncome.values))
    {
      CollectBalances(expenses, TotalGauge(Expenses), "expenses:", expenseReport);
      CollectBalances(assets, TotalGauge(Assets), "assets:", assetReport);
      CollectBalances(income, TotalGauge(Income), "income:", incomeReport);
    }

    /**
     * The monthly and payee gauges after the register run and the payee
     * export, from former values `m0` and `p0`: a register that could be
     * read refills the monthly gauge; `panicked` tells whether a record
     * panicked; the payee gauge is refilled when the run did not panic and
     * the postings could be read, and keeps its values otherwise.
     */
    ghost predicate MonthlyAndPayeesFrom(register: Option<seq<seq<string>>>, postings: Option<seq<seq<string>>>,
                                         nowMonthly: YearMonth, nowPayees: YearMonth, panicked: bool,
                                         m0: map<MonthLabel, real>, p0: map<PayeeLabel, real>)
      requires ValidNow(nowMonthly) && ValidNow(nowPayees)
      reads monthly, byPayee
    {
      (register.Some? ==> monthly.values == MonthlyGauge(register.value, nowMonthly))
      && (register.None? ==> monthly.values == m0)
      && (panicked <==> register.Some? && RunRecords(register.value, nowMonthly).panicked)
      && (!panicked && postings.Some? ==>
            byPayee.values == PayeeGauge(TotalsOf(Postings(postings.value)), CurrenciesOf(Postings(postings.value)), nowPayees))
      && (panicked || postings.None? ==> byPayee.values == p0)
    }

    /**
     * The last two steps of updateMetrics: the monthly register, then the
     * payee export, which a panic in the register prevents.
     */
    method CollectMonthlyAndPayees(register: Option<seq<seq<string>>>, postings: Option<seq<seq<string>>>,
                                   nowMonthly: YearMonth, nowPayees: YearMonth)
      returns (panicked: bool)
      requires Valid() && ValidNow(nowMonthly) && ValidNow(nowPayees)
      modifies monthly, byPayee
      ensures MonthlyAndPayeesFrom(register, postings, nowMonthly, nowPayees, panicked,
        old(monthly.values), old(byPayee.values))
    {
      panicked := CollectMonthlyExpenses(register, nowMonthly);
      if panicked {
        return;
      }
      CollectExpenseTotalsByPayee(postings, nowPayees);
    }

    /**
     * updateMetrics: the three balance reports, the monthly register, then
     * the payee export (`postings`), each run on the clock's month at the
     * time. A panic in the monthly register ends the program before the
     * payee export.
     */
    method UpdateMetrics(expenseReport: Option<string>, assetReport: Option<string>, incomeReport: Option<string>,
                         register: Option<seq<seq<string>>>, postings: Option<seq<seq<string>>>,
                         nowMonthly: YearMonth, nowPayees: YearMonth)
      returns (panicked: bool)
      requires Valid() && ValidNow(nowMonthly) && ValidNow(nowPayees)
      modifies expenses, assets, income, totalExpenses, totalAssets, totalIncome, monthly, byPayee
      ensures BalancesFrom(expenseReport, assetReport, incomeReport,
        old(expenses.values), old(assets.values), old(income.values),
        old(totalExpenses.values), old(totalAssets.values), old(totalIncome.values))
      ensures MonthlyAndPayeesFrom(register, postings, nowMonthly, nowPayees, panicked,
        old(monthly.values), old(byPayee.values))
    {
      CollectAllBalances(expenseReport, assetReport, incomeReport);
      panicked := CollectMonthlyAndPayees(register, postings, nowMonthly, nowPayees);
    }
  }

  /**
   * The account types updateMetrics collects balances for; collectBalances
   * switches on them to pick the total gauge.
   */
  datatype AccountType = Expenses | Assets | Income

  /**
   * The account gauge and the total gauge after collectBalances, from former
   * values `g0` and `t0`: a failed report leaves both as they were; a report
   * that was read refills the account gauge from its account lines and writes
   * its totals over the total gauge.
   */
  ghost predicate Collected(gauge: Gauge<AccountLabel>, total: Gauge<string>, prefix: string, output: Option<string>,
                            g0: map<AccountLabel, real>, t0: map<string, real>)
    reads gauge, total
  {
    match output
    case None => gauge.values == g0 && total.values == t0
    case Some(report) =>
      gauge.values == AccountGauge(report, prefix) && total.values == Apply(t0, ReportTotals(report, prefix))
  }

  /**
   * collectBalances: when the balance report failed, nothing changes.
   * Otherwise the account gauge is emptied and refilled from the report's
   * account lines, and the report's totals are written over the total
   * gauge, which is never emptied.
   */
  method CollectBalances(gauge: Gauge<AccountLabel>, total: Gauge<string>, prefix: string, output: Option<string>)
    modifies gauge, total
    ensures Collected(gauge, total, prefix, output, old(gauge.values), old(total.values))
  {
    if output.None? {
      return;
    }
    gauge.Reset();
    CollectLines(gauge, total, prefix, ReportLines(output.value));
  }

  /**
   * The loop of collectBalances over the report's lines, on an emptied
   * account gauge: every line classified, and its write made to `gauge` or,
   * for a total, to `total`.
   */
  method CollectLines(gauge: Gauge<AccountLabel>, total: Gauge<string>, prefix: string, lines: seq<string>)
    requires gauge.values == map[]
    modifies gauge, total
    ensures gauge.values == Apply(map[], EntryWrites(ClassifyReport(lines, prefix)))
    ensures total.values == Apply(old(total.values), TotalWrites(ClassifyReport(lines, prefix)))
  {
    ghost var t0 := total.values;
    assert lines[..0] == [];
    var i := 0;
    while i < |lines|
      invariant i <= |lines|
      invariant gauge.values == Apply(map[], EntryWrites(ClassifyReport(lines[..i], prefix)))
      invariant total.values == Apply(t0, TotalWrites(ClassifyReport(lines[..i], prefix)))
      decreases |lines| - i
    {
      CollectLine(gauge, total, prefix, lines, i, t0);
      i := i + 1;
    }
    assert lines[..i] == lines;
  }

  /** One iteration of the loop of collectBalances: line `i` is classified and its write made. */
  method CollectLine(gauge: Gauge<AccountLabel>, total: Gauge<string>, prefix: string, lines: seq<string>, i: nat,
                     ghost t0: map<string, real>)
    requires i < |lines|
    requires gauge.values == Apply(map[], EntryWrites(ClassifyReport(lines[..i], prefix)))
    requires total.values == Apply(t0, TotalWrites(ClassifyReport(lines[..i], prefix)))
    modifies gauge, total
    ensures gauge.values == Apply(map[], EntryWrites(ClassifyReport(lines[..i + 1], prefix)))
    ensures total.values == Apply(t0, TotalWrites(ClassifyReport(lines[..i + 1], prefix)))
  {
    var b := ClassifyLine(lines[i], prefix);
    ReportSnoc(lines, prefix, i);
    ApplyLine(gauge, total, b, EntryWrites(ClassifyReport(lines[..i], prefix)),
      TotalWrites(ClassifyReport(lines[..i], prefix)), t0);
  }

  /**
   * One iteration of the balance report loop after the line is classified:
   * an account line sets its entry of the account gauge, and a total sets
   * its entry of the total gauge.
   */
  method ApplyLine(gauge: Gauge<AccountLabel>, total: Gauge<string>, b: BalanceLine,
                   ghost entries: seq<(AccountLabel, real)>, ghost totals: seq<(string, real)>, ghost t0: map<string, real>)
    requires gauge.values == Apply(map[], entries)
    requires total.values == Apply(t0, totals)
    modifies gauge, total
    ensures gauge.values == Apply(map[], entries + EntryWrite(b))
    ensures total.values == Apply(t0, totals + TotalWrite(b))
  {
    match b
    case Skip =>
      assert entries + [] == entries;
      assert totals + [] == totals;
    case Total(currency, amount) =>
      assert entries + [] == entries;
      ApplySnoc(t0, totals, currency, amount);
      total.Set(currency, amount);
    case Entry(account, currency, amount) =>
      assert totals + [] == totals;
      ApplySnoc(map[], entries, (account, currency), amount);
      gauge.Set((account, currency), amount);
  }

  /** The run over the first i + 1 records is the run over the first i, then record i's effect. */
  lemma {:induction false} RunStep(records: seq<seq<string>>, i: nat, now: YearMonth, effect: RecordEffect)
    requires ValidNow(now) && i < |records| && !RunRecords(records[..i], now).panicked
    requires effect == ClassifyRecord(i, records[i], now)
    ensures effect.Ignored? ==> RunRecords(records[..i + 1], now) == RunRecords(records[..i], now)
    ensures effect.Panic? ==> RunRecords(records[..i + 1], now) == Run(RunRecords(records[..i], now).writes, true)
    ensures effect.Write? ==>
      RunRecords(records[..i + 1], now) == Run(RunRecords(records[..i], now).writes + [(effect.key, effect.amount)], false)
  {
    assert records[..i + 1][..i] == records[..i];
  }
}
