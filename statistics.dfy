/** The statistics calculator: stateless accumulator loops over a list of
    transactions that group amounts by calendar month and year, by category and
    by day. Each loop is a method proved against the specification functions of
    `Ledger` and the grouping functions below. */
module Statistics {
  import opened Timestamps
  import opened Transactions
  import opened Ledger

  datatype MonthlyStats = MonthlyStats(totalIncome: real, totalExpense: real, netAmount: real)

  /** `monthlyData` maps each month number 1..12 to that month's statistics. */
  datatype YearlyStats = YearlyStats(
    monthlyData: map<int, MonthlyStats>,
    totalIncome: real,
    totalExpense: real,
    netAmount: real)

  /** What the default constructors hold. */
  const ZeroMonth: MonthlyStats := MonthlyStats(0.0, 0.0, 0.0)
  const ZeroYear: YearlyStats := YearlyStats(map[], 0.0, 0.0, 0.0)

  const MonthNumbers: set<int> := {1, 2, 3, 4, 5, 6, 7, 8, 9, 10, 11, 12}

  /** The statistics of one calendar month. */
  function MonthlyStatsOf(transactions: seq<Transaction>, month: int, year: int): MonthlyStats {
    MonthlyStats(
      Total(transactions, InMonth(month, year), IncomeOnly),
      Total(transactions, InMonth(month, year), NonIncome),
      Net(transactions, InMonth(month, year)))
  }

  /** The sum, over months 1..n of `year`, of the monthly sums on `side`. */
  function MonthSum(transactions: seq<Transaction>, year: int, side: Side, n: nat): real {
    if n == 0 then 0.0 else MonthSum(transactions, year, side, n - 1) + Total(transactions, InMonth(n, year), side)
  }

  /** The sum of the monthly income entries 1..n. */
  function IncomeOfMonths(data: map<int, MonthlyStats>, n: nat): real
    requires forall k :: 1 <= k <= n ==> k in data
  {
    if n == 0 then 0.0 else IncomeOfMonths(data, n - 1) + data[n].totalIncome
  }

  /** The sum of the monthly expense entries 1..n. */
  function ExpenseOfMonths(data: map<int, MonthlyStats>, n: nat): real
    requires forall k :: 1 <= k <= n ==> k in data
  {
    if n == 0 then 0.0 else ExpenseOfMonths(data, n - 1) + data[n].totalExpense
  }

  /** A map's value at `k`, a missing key reading as 0. */
  function ValueOr0<K>(m: map<K, real>, k: K): real {
    if k in m then m[k] else 0.0
  }

  /** `m[k] += x` on a map whose missing values read as 0. */
  function AddTo<K>(m: map<K, real>, k: K, x: real): map<K, real> {
    m[k := ValueOr0(m, k) + x]
  }

  /** The categories of the transactions on `side`. */
  function CategoriesOf(transactions: seq<Transaction>, side: Side): set<string> {
    if transactions == [] then {}
    else
      var t := transactions[|transactions| - 1];
      CategoriesOf(transactions[..|transactions| - 1], side) + (if OnSide(t, side) then {t.category} else {})
  }

  /** Each category of the transactions on `side`, mapped to the sum of their
      amounts in that category. */
  function CategoryMap(transactions: seq<Transaction>, side: Side): map<string, real> {
    map c | c in CategoriesOf(transactions, side) :: Total(transactions, InCategory(c), side)
  }

  /** The calendar dates of the transactions timestamped within [start, end]. */
  function DatesIn(transactions: seq<Transaction>, start: Timestamp, end: Timestamp): set<Date> {
    if transactions == [] then {}
    else
      var t := transactions[|transactions| - 1];
      DatesIn(transactions[..|transactions| - 1], start, end) +
        (if Le(start, t.timestamp) && Le(t.timestamp, end) then {DateOf(t.timestamp)} else {})
  }

  /** Each such date, mapped to the income minus the other amounts of that
      single day within [start, end]. */
  function DailyMap(transactions: seq<Transaction>, start: Timestamp, end: Timestamp): map<Date, real> {
    map d | d in DatesIn(transactions, start, end) :: Net(transactions, OnDay(start, end, d))
  }

  // ---------------------------------------------------------------------------
  // Months and years

  lemma {:induction false} MonthSumConcat(a: seq<Transaction>, b: seq<Transaction>, year: int, side: Side, n: nat)
    ensures MonthSum(a + b, year, side, n) == MonthSum(a, year, side, n) + MonthSum(b, year, side, n)
  {
    if n > 0 {
      MonthSumConcat(a, b, year, side, n - 1);
      TotalConcat(a, b, InMonth(n, year), side);
    }
  }

  /** One transaction of a year other than 0 falls in exactly one of its
      months, so over months 1..n it counts once if its month is at most n. */
  lemma {:induction false} MonthSumSingle(t: Transaction, year: int, side: Side, n: nat)
    requires year != 0
    ensures MonthSum([t], year, side, n) ==
      if IsTransactionInYear(t, year) && DateOf(t.timestamp).month <= n then Share(t, InYear(year), side) else 0.0
  {
    if n > 0 {
      MonthSumSingle(t, year, side, n - 1);
      assert [t][..0] == [];
      assert Total([t], InMonth(n, year), side) == Share(t, InMonth(n, year), side);
    }
  }

  /** The yearly pass agrees with the twelve monthly passes for every year but
      0: every valid date lies in a month 1..12, and only invalid timestamps
      (whose null date reads as year 0) lie in no month. */
  lemma {:induction false} YearIsSumOfMonths(transactions: seq<Transaction>, year: int, side: Side)
    requires year != 0
    ensures Total(transactions, InYear(year), side) == MonthSum(transactions, year, side, 12)
  {
    if transactions == [] {
      MonthSumSingleEmpty(year, side, 12);
    } else {
      var p, t := transactions[..|transactions| - 1], transactions[|transactions| - 1];
      assert transactions == p + [t];
      YearIsSumOfMonths(p, year, side);
      MonthSumConcat(p, [t], year, side, 12);
      MonthSumSingle(t, year, side, 12);
    }
  }

  lemma {:induction false} MonthSumSingleEmpty(year: int, side: Side, n: nat)
    ensures MonthSum([], year, side, n) == 0.0
  {
    if n > 0 {
      MonthSumSingleEmpty(year, side, n - 1);
    }
  }

  /** In year 0 the two passes can disagree: an invalid timestamp lies in that
      year's yearly total but in none of its months. */
  lemma YearZeroCounterexample(t: Transaction)
    requires t.timestamp == Invalid && t.kind == INCOME && t.amount == 5.0
    ensures Total([t], InYear(0), IncomeOnly) == 5.0
    ensures MonthSum([t], 0, IncomeOnly, 12) == 0.0
  {
    assert [t][..0] == [];
    MonthSumZero(t, 12);
  }

  lemma {:induction false} MonthSumZero(t: Transaction, n: nat)
    requires t.timestamp == Invalid
    ensures MonthSum([t], 0, IncomeOnly, n) == 0.0
  {
    if n > 0 {
      MonthSumZero(t, n - 1);
      assert [t][..0] == [];
      assert !IsTransactionInMonth(t, n, 0);
      assert Total([t], InMonth(n, 0), IncomeOnly) == Share(t, InMonth(n, 0), IncomeOnly) == 0.0;
    }
  }

  lemma {:induction false} MonthsMatchData(data: map<int, MonthlyStats>, transactions: seq<Transaction>, year: int, n: nat)
    requires forall k :: 1 <= k <= n ==> k in data && data[k] == MonthlyStatsOf(transactions, k, year)
    ensures IncomeOfMonths(data, n) == MonthSum(transactions, year, IncomeOnly, n)
    ensures ExpenseOfMonths(data, n) == MonthSum(transactions, year, NonIncome, n)
  {
    if n > 0 {
      MonthsMatchData(data, transactions, year, n - 1);
    }
  }

  /** For a year other than 0, the year's sums equal the sums of twelve
      entries that hold the monthly statistics. */
  lemma YearMatchesMonths(data: map<int, MonthlyStats>, transactions: seq<Transaction>, year: int)
    requires year != 0
    requires forall k :: 1 <= k <= 12 ==> k in data && data[k] == MonthlyStatsOf(transactions, k, year)
    ensures Total(transactions, InYear(year), IncomeOnly) == IncomeOfMonths(data, 12)
    ensures Total(transactions, InYear(year), NonIncome) == ExpenseOfMonths(data, 12)
  {
    YearIsSumOfMonths(transactions, year, IncomeOnly);
    YearIsSumOfMonths(transactions, year, NonIncome);
    MonthsMatchData(data, transactions, year, 12);
  }

  /** A month no transaction falls in has all-zero statistics (an empty list
      in particular). */
  lemma MonthWithoutMatches(transactions: seq<Transaction>, month: int, year: int)
    requires forall i :: 0 <= i < |transactions| ==> !IsTransactionInMonth(transactions[i], month, year)
    ensures MonthlyStatsOf(transactions, month, year) == ZeroMonth
  {
    TotalWithoutMatches(transactions, InMonth(month, year), IncomeOnly);
    TotalWithoutMatches(transactions, InMonth(month, year), NonIncome);
  }

  /** March 2024 with two March transactions and one April one: the April
      income is excluded. */
  lemma MonthlyExample()
    ensures MonthlyStatsOf([
        Transaction("a", INCOME, 100.0, "", "", "", "", At(2024, 3, 5, 0)),
        Transaction("b", EXPENSE, 40.0, "", "", "", "", At(2024, 3, 10, 0)),
        Transaction("c", INCOME, 10.0, "", "", "", "", At(2024, 4, 1, 0))], 3, 2024)
      == MonthlyStats(100.0, 40.0, 60.0)
  {
    var a := Transaction("a", INCOME, 100.0, "", "", "", "", At(2024, 3, 5, 0));
    var b := Transaction("b", EXPENSE, 40.0, "", "", "", "", At(2024, 3, 10, 0));
    var c := Transaction("c", INCOME, 10.0, "", "", "", "", At(2024, 4, 1, 0));
    var march := InMonth(3, 2024);
    assert InWindow(a, march) && InWindow(b, march) && !InWindow(c, march);
    TotalOfThree(a, b, c, march, IncomeOnly);
    TotalOfThree(a, b, c, march, NonIncome);
  }

  lemma TotalOfThree(a: Transaction, b: Transaction, c: Transaction, w: Window, side: Side)
    ensures Total([a, b, c], w, side) == Share(a, w, side) + Share(b, w, side) + Share(c, w, side)
  {
    assert [a, b, c] == [a, b] + [c] && [a, b] == [a] + [b] && [a] == [] + [a];
    TotalSnoc([], a, w, side);
    TotalSnoc([a], b, w, side);
    TotalSnoc([a, b], c, w, side);
  }

  // ---------------------------------------------------------------------------
  // Categories

  /** The keys are exactly the categories occurring on `side`. */
  lemma {:induction false} CategoryMapKeys(transactions: seq<Transaction>, side: Side, c: string)
    ensures c in CategoryMap(transactions, side) <==>
      exists i :: 0 <= i < |transactions| && transactions[i].category == c && OnSide(transactions[i], side)
  {
    if transactions != [] {
      var p := transactions[..|transactions| - 1];
      CategoryMapKeys(p, side, c);
      if exists i :: 0 <= i < |p| && p[i].category == c && OnSide(p[i], side) {
        var i :| 0 <= i < |p| && p[i].category == c && OnSide(p[i], side);
        assert transactions[i] == p[i];
      }
      if exists i :: 0 <= i < |transactions| && transactions[i].category == c && OnSide(transactions[i], side) {
        var i :| 0 <= i < |transactions| && transactions[i].category == c && OnSide(transactions[i], side);
        if i < |p| {
          assert p[i] == transactions[i];
        }
      }
    }
  }

  lemma {:induction false} TotalOutsideCategories(transactions: seq<Transaction>, side: Side, c: string)
    requires c !in CategoriesOf(transactions, side)
    ensures Total(transactions, InCategory(c), side) == 0.0
  {
    if transactions != [] {
      TotalOutsideCategories(transactions[..|transactions| - 1], side, c);
    }
  }

  /** One more transaction adds its amount to its category's entry (creating
      the entry at 0 first) when it is on the side, and changes nothing
      otherwise. */
  lemma CategoryMapSnoc(transactions: seq<Transaction>, t: Transaction, side: Side)
    ensures CategoryMap(transactions + [t], side) ==
      if OnSide(t, side) then AddTo(CategoryMap(transactions, side), t.category, t.amount)
      else CategoryMap(transactions, side)
  {
    var m, m' := CategoryMap(transactions, side), CategoryMap(transactions + [t], side);
    var r := if OnSide(t, side) then AddTo(m, t.category, t.amount) else m;
    CategoriesSnoc(transactions, t, side);
    assert m'.Keys == r.Keys;
    forall c | c in r
      ensures m'[c] == r[c]
    {
      CategoryEntrySnoc(transactions, t, side, c);
    }
  }

  lemma CategoriesSnoc(transactions: seq<Transaction>, t: Transaction, side: Side)
    ensures CategoriesOf(transactions + [t], side) ==
      CategoriesOf(transactions, side) + (if OnSide(t, side) then {t.category} else {})
  {
    assert (transactions + [t])[..|transactions|] == transactions;
  }

  /** One category's sum after one more transaction: the old entry (0 when
      absent) plus the transaction's amount if it is grouped under `c`. */
  lemma CategoryEntrySnoc(transactions: seq<Transaction>, t: Transaction, side: Side, c: string)
    ensures Total(transactions + [t], InCategory(c), side) ==
      ValueOr0(CategoryMap(transactions, side), c) + (if OnSide(t, side) && t.category == c then t.amount else 0.0)
  {
    TotalSnoc(transactions, t, InCategory(c), side);
    if c !in CategoriesOf(transactions, side) {
      TotalOutsideCategories(transactions, side, c);
    }
  }

  /** With only INCOME and EXPENSE codes, the kind-blind breakdown is the
      expense breakdown plus the income breakdown, key by key. */
  lemma {:induction false} BreakdownIsExpensePlusIncome(transactions: seq<Transaction>)
    requires forall i :: 0 <= i < |transactions| ==> transactions[i].kind == INCOME || transactions[i].kind == EXPENSE
    ensures CategoryMap(transactions, AnyKind).Keys ==
      CategoryMap(transactions, ExpenseOnly).Keys + CategoryMap(transactions, IncomeOnly).Keys
    ensures forall c :: c in CategoryMap(transactions, AnyKind) ==>
      CategoryMap(transactions, AnyKind)[c] ==
        ValueOr0(CategoryMap(transactions, ExpenseOnly), c) + ValueOr0(CategoryMap(transactions, IncomeOnly), c)
  {
    CategoriesSplit(transactions);
    forall c | c in CategoryMap(transactions, AnyKind)
      ensures CategoryMap(transactions, AnyKind)[c] ==
        ValueOr0(CategoryMap(transactions, ExpenseOnly), c) + ValueOr0(CategoryMap(transactions, IncomeOnly), c)
    {
      TwoKinds(transactions, InCategory(c));
      if c !in CategoriesOf(transactions, ExpenseOnly) {
        TotalOutsideCategories(transactions, ExpenseOnly, c);
      }
      if c !in CategoriesOf(transactions, IncomeOnly) {
        TotalOutsideCategories(transactions, IncomeOnly, c);
      }
    }
  }

  lemma {:induction false} CategoriesSplit(transactions: seq<Transaction>)
    requires forall i :: 0 <= i < |transactions| ==> transactions[i].kind == INCOME || transactions[i].kind == EXPENSE
    ensures CategoriesOf(transactions, AnyKind) ==
      CategoriesOf(transactions, ExpenseOnly) + CategoriesOf(transactions, IncomeOnly)
  {
    if transactions != [] {
      CategoriesSplit(transactions[..|transactions| - 1]);
    }
  }

  /** Three transactions in two categories: the shared category's amounts are
      summed into one entry, and there is no other key. */
  lemma CategoryExample()
    ensures CategoryMap([
        Transaction("a", EXPENSE, 50.0, "", "", "食品", "", Invalid),
        Transaction("b", EXPENSE, 30.0, "", "", "食品", "", Invalid),
        Transaction("c", EXPENSE, 20.0, "", "", "交通", "", Invalid)], AnyKind)
      == map["食品" := 80.0, "交通" := 20.0]
  {
    var a := Transaction("a", EXPENSE, 50.0, "", "", "食品", "", Invalid);
    var b := Transaction("b", EXPENSE, 30.0, "", "", "食品", "", Invalid);
    var c := Transaction("c", EXPENSE, 20.0, "", "", "交通", "", Invalid);
    assert [a] == [] + [a];
    assert [a, b] == [a] + [b];
    assert [a, b, c] == [a, b] + [c];
    CategoryMapSnoc([], a, AnyKind);
    CategoryMapSnoc([a], b, AnyKind);
    CategoryMapSnoc([a, b], c, AnyKind);
  }

  // ---------------------------------------------------------------------------
  // Days

  /** The keys are exactly the dates of the transactions within [start, end]. */
  lemma {:induction false} DailyMapKeys(transactions: seq<Transaction>, start: Timestamp, end: Timestamp, d: Date)
    ensures d in DailyMap(transactions, start, end) <==>
      exists i :: 0 <= i < |transactions| && InWindow(transactions[i], OnDay(start, end, d))
  {
    if transactions != [] {
      var p := transactions[..|transactions| - 1];
      DailyMapKeys(p, start, end, d);
      if exists i :: 0 <= i < |p| && InWindow(p[i], OnDay(start, end, d)) {
        var i :| 0 <= i < |p| && InWindow(p[i], OnDay(start, end, d));
        assert transactions[i] == p[i];
      }
      if exists i :: 0 <= i < |transactions| && InWindow(transactions[i], OnDay(start, end, d)) {
        var i :| 0 <= i < |transactions| && InWindow(transactions[i], OnDay(start, end, d));
        if i < |p| {
          assert p[i] == transactions[i];
        }
      }
    }
  }

  lemma {:induction false} NetOutsideDates(transactions: seq<Transaction>, start: Timestamp, end: Timestamp, d: Date)
    requires d !in DatesIn(transactions, start, end)
    ensures Net(transactions, OnDay(start, end, d)) == 0.0
  {
    if transactions != [] {
      NetOutsideDates(transactions[..|transactions| - 1], start, end, d);
    }
  }

  /** One more transaction moves a window's balance by its signed amount when
      it lies in the window. */
  lemma NetSnoc(transactions: seq<Transaction>, t: Transaction, w: Window)
    ensures Net(transactions + [t], w) == Net(transactions, w) + (if InWindow(t, w) then Signed(t) else 0.0)
  {
    TotalSnoc(transactions, t, w, IncomeOnly);
    TotalSnoc(transactions, t, w, NonIncome);
  }

  /** One more transaction within [start, end] adds its signed amount to its
      date's entry (creating the entry at 0 first); one outside changes
      nothing. */
  lemma DailyMapSnoc(transactions: seq<Transaction>, t: Transaction, start: Timestamp, end: Timestamp)
    ensures DailyMap(transactions + [t], start, end) ==
      if Le(start, t.timestamp) && Le(t.timestamp, end) then AddTo(DailyMap(transactions, start, end), DateOf(t.timestamp), Signed(t))
      else DailyMap(transactions, start, end)
  {
    var m, m' := DailyMap(transactions, start, end), DailyMap(transactions + [t], start, end);
    var r := if Le(start, t.timestamp) && Le(t.timestamp, end) then AddTo(m, DateOf(t.timestamp), Signed(t)) else m;
    DatesInSnoc(transactions, t, start, end);
    assert m'.Keys == r.Keys;
    forall d | d in r
      ensures m'[d] == r[d]
    {
      DailyEntrySnoc(transactions, t, start, end, d);
    }
  }

  lemma DatesInSnoc(transactions: seq<Transaction>, t: Transaction, start: Timestamp, end: Timestamp)
    ensures DatesIn(transactions + [t], start, end) == DatesIn(transactions, start, end) +
      (if Le(start, t.timestamp) && Le(t.timestamp, end) then {DateOf(t.timestamp)} else {})
  {
    assert (transactions + [t])[..|transactions|] == transactions;
  }

  /** One day's net after one more transaction: the old entry (0 when absent)
      plus the transaction's signed amount if it falls on that day in range. */
  lemma DailyEntrySnoc(transactions: seq<Transaction>, t: Transaction, start: Timestamp, end: Timestamp, d: Date)
    ensures Net(transactions + [t], OnDay(start, end, d)) ==
      ValueOr0(DailyMap(transactions, start, end), d) + (if InWindow(t, OnDay(start, end, d)) then Signed(t) else 0.0)
  {
    NetSnoc(transactions, t, OnDay(start, end, d));
    if d !in DatesIn(transactions, start, end) {
      NetOutsideDates(transactions, start, end, d);
    }
  }

  /** Two incomes on the same day within range give one entry holding their
      sum, not two entries. */
  lemma SameDayIncomes(a: Transaction, b: Transaction, start: Timestamp, end: Timestamp)
    requires a.kind == INCOME && b.kind == INCOME
    requires Le(start, a.timestamp) && Le(a.timestamp, end) && Le(start, b.timestamp) && Le(b.timestamp, end)
    requires DateOf(a.timestamp) == DateOf(b.timestamp)
    ensures DailyMap([a, b], start, end) == map[DateOf(a.timestamp) := a.amount + b.amount]
  {
    assert [a, b] == [a] + [b];
    assert [a] == [] + [a];
    DailyMapSnoc([], a, start, end);
    DailyMapSnoc([a], b, start, end);
  }

  // ---------------------------------------------------------------------------
  // The calculator

  /** The sum of all amounts, whatever their kind; 0 for an empty list. */
  method CalculateTotalAmount(transactions: seq<Transaction>) returns (total: real)
    ensures total == Total(transactions, Everything, AnyKind)
    ensures transactions == [] ==> total == 0.0
  {
    total := 0.0;
    var i := 0;
    while i < |transactions|
      invariant 0 <= i <= |transactions|
      invariant total == Total(transactions[..i], Everything, AnyKind)
    {
      total := total + transactions[i].amount;
      assert transactions[..i + 1][..i] == transactions[..i];
      i := i + 1;
    }
    assert transactions[..i] == transactions;
  }

  /** Income of the month in `totalIncome`, every other kind in
      `totalExpense`, and their difference in `netAmount`. */
  method CalculateMonthlyStats(month: int, year: int, transactions: seq<Transaction>) returns (stats: MonthlyStats)
    ensures stats.totalIncome == Total(transactions, InMonth(month, year), IncomeOnly)
    ensures stats.totalExpense == Total(transactions, InMonth(month, year), NonIncome)
    ensures stats.netAmount == stats.totalIncome - stats.totalExpense
    ensures stats == MonthlyStatsOf(transactions, month, year)
  {
    stats := ZeroMonth;
    var i := 0;
    while i < |transactions|
      invariant 0 <= i <= |transactions|
      invariant stats.totalIncome == Total(transactions[..i], InMonth(month, year), IncomeOnly)
      invariant stats.totalExpense == Total(transactions[..i], InMonth(month, year), NonIncome)
    {
      var t := transactions[i];
      if IsTransactionInMonth(t, month, year) {
        if t.kind == INCOME {
          stats := stats.(totalIncome := stats.totalIncome + t.amount);
        } else {
          stats := stats.(totalExpense := stats.totalExpense + t.amount);
        }
      }
      assert transactions[..i + 1][..i] == transactions[..i];
      i := i + 1;
    }
    assert transactions[..i] == transactions;
    stats := stats.(netAmount := stats.totalIncome - stats.totalExpense);
  }

  /** The first pass of `CalculateYearlyStats`: the statistics of months 1..12,
      keyed by month number. */
  method MonthlyDataOf(year: int, transactions: seq<Transaction>) returns (monthlyData: map<int, MonthlyStats>)
    ensures monthlyData.Keys == MonthNumbers
    ensures forall k :: 1 <= k <= 12 ==> monthlyData[k] == MonthlyStatsOf(transactions, k, year)
  {
    monthlyData := map[];
    var month := 1;
    while month <= 12
      invariant 1 <= month <= 13
      invariant forall k :: k in monthlyData <==> 1 <= k < month
      invariant forall k :: 1 <= k < month ==> monthlyData[k] == MonthlyStatsOf(transactions, k, year)
    {
      var m := CalculateMonthlyStats(month, year, transactions);
      monthlyData := monthlyData[month := m];
      month := month + 1;
    }
    assert forall k :: k in MonthNumbers <==> 1 <= k <= 12;
  }

  /** The second pass of `CalculateYearlyStats`: income of the year, and every
      other kind in that year. */
  method YearTotalsOf(year: int, transactions: seq<Transaction>) returns (totalIncome: real, totalExpense: real)
    ensures totalIncome == Total(transactions, InYear(year), IncomeOnly)
    ensures totalExpense == Total(transactions, InYear(year), NonIncome)
  {
    totalIncome, totalExpense := 0.0, 0.0;
    var i := 0;
    while i < |transactions|
      invariant 0 <= i <= |transactions|
      invariant totalIncome == Total(transactions[..i], InYear(year), IncomeOnly)
      invariant totalExpense == Total(transactions[..i], InYear(year), NonIncome)
    {
      var t := transactions[i];
      if IsTransactionInYear(t, year) {
        if t.kind == INCOME {
          totalIncome := totalIncome + t.amount;
        } else {
          totalExpense := totalExpense + t.amount;
        }
      }
      assert transactions[..i + 1][..i] == transactions[..i];
      i := i + 1;
    }
    assert transactions[..i] == transactions;
  }

  /** Twelve monthly entries, then year totals from a second pass; for every
      year but 0 the totals equal the sums of the twelve entries. */
  method CalculateYearlyStats(year: int, transactions: seq<Transaction>) returns (stats: YearlyStats)
    ensures stats.monthlyData.Keys == MonthNumbers
    ensures forall k :: 1 <= k <= 12 ==> stats.monthlyData[k] == MonthlyStatsOf(transactions, k, year)
    ensures stats.totalIncome == Total(transactions, InYear(year), IncomeOnly)
    ensures stats.totalExpense == Total(transactions, InYear(year), NonIncome)
    ensures stats.netAmount == stats.totalIncome - stats.totalExpense
    ensures year != 0 ==>
      stats.totalIncome == IncomeOfMonths(stats.monthlyData, 12) &&
      stats.totalExpense == ExpenseOfMonths(stats.monthlyData, 12)
  {
    stats := ZeroYear;
    var monthlyData := MonthlyDataOf(year, transactions);
    stats := stats.(monthlyData := monthlyData);
    var totalIncome, totalExpense := YearTotalsOf(year, transactions);
    stats := stats.(totalIncome := totalIncome, totalExpense := totalExpense, netAmount := totalIncome - totalExpense);
    if year != 0 {
      YearMatchesMonths(stats.monthlyData, transactions, year);
    }
  }

  /** The accumulation the three breakdowns share: each transaction on `side`
      adds its amount to its category's entry. */
  method GroupByCategory(transactions: seq<Transaction>, side: Side) returns (breakdown: map<string, real>)
    ensures breakdown == CategoryMap(transactions, side)
  {
    breakdown := map[];
    var i := 0;
    while i < |transactions|
      invariant 0 <= i <= |transactions|
      invariant breakdown == CategoryMap(transactions[..i], side)
    {
      var t := transactions[i];
      if OnSide(t, side) {
        breakdown := breakdown[t.category := ValueOr0(breakdown, t.category) + t.amount];
      }
      CategoryMapSnoc(transactions[..i], t, side);
      assert transactions[..i + 1] == transactions[..i] + [t];
      i := i + 1;
    }
    assert transactions[..i] == transactions;
  }

  /** Every transaction, whatever its kind, grouped by category. */
  method CalculateCategoryBreakdown(transactions: seq<Transaction>) returns (breakdown: map<string, real>)
    ensures breakdown == CategoryMap(transactions, AnyKind)
  {
    breakdown := GroupByCategory(transactions, AnyKind);
  }

  /** The EXPENSE transactions grouped by category. */
  method CalculateExpenseByCategory(transactions: seq<Transaction>) returns (expenseBreakdown: map<string, real>)
    ensures expenseBreakdown == CategoryMap(transactions, ExpenseOnly)
  {
    expenseBreakdown := GroupByCategory(transactions, ExpenseOnly);
  }

  /** The INCOME transactions grouped by category. */
  method CalculateIncomeByCategory(transactions: seq<Transaction>) returns (incomeBreakdown: map<string, real>)
    ensures incomeBreakdown == CategoryMap(transactions, IncomeOnly)
  {
    incomeBreakdown := GroupByCategory(transactions, IncomeOnly);
  }

  /** For each date within [startDate, endDate], that day's income minus its
      other amounts. */
  method CalculateDailyTrend(startDate: Timestamp, endDate: Timestamp, transactions: seq<Transaction>)
    returns (dailyTrend: map<Date, real>)
    ensures dailyTrend == DailyMap(transactions, startDate, endDate)
  {
    dailyTrend := map[];
    var i := 0;
    while i < |transactions|
      invariant 0 <= i <= |transactions|
      invariant dailyTrend == DailyMap(transactions[..i], startDate, endDate)
    {
      var t := transactions[i];
      var timestamp := t.timestamp;
      if Le(startDate, timestamp) && Le(timestamp, endDate) {
        var date := DateOf(timestamp);
        if t.kind == INCOME {
          dailyTrend := dailyTrend[date := ValueOr0(dailyTrend, date) + t.amount];
        } else {
          dailyTrend := dailyTrend[date := ValueOr0(dailyTrend, date) - t.amount];
        }
      }
      DailyMapSnoc(transactions[..i], t, startDate, endDate);
      assert transactions[..i + 1] == transactions[..i] + [t];
      i := i + 1;
    }
    assert transactions[..i] == transactions;
  }
}
