/**
 * Folds of the transaction list into report views: expenses by category,
 * the six-month revenue/expense trend, budget against actual spending, and
 * the saving and loading of the monthly budget form.
 */
module Aggregation {
  import opened Wrappers
  import opened Dates
  import opened Types
  import opened Normaliser

  // ------------------------------------------------ expenses by category

  /** One `{ name, value }` entry of the category breakdown. */
  datatype CategoryTotal = CategoryTotal(name: Category, value: real)

  function Names(r: seq<CategoryTotal>): (ns: seq<Category>)
    ensures |ns| == |r|
    decreases |r|
  {
    if r == [] then [] else [r[0].name] + Names(r[1..])
  }

  /** `acc[c] || 0`: the value recorded for c, or 0 when c has no entry. */
  function Lookup(r: seq<CategoryTotal>, c: Category): real
    decreases |r|
  {
    if r == [] then 0.0 else if r[0].name == c then r[0].value else Lookup(r[1..], c)
  }

  function Total(r: seq<CategoryTotal>): real
    decreases |r|
  {
    if r == [] then 0.0 else r[0].value + Total(r[1..])
  }

  predicate Distinct<T(==)>(s: seq<T>) {
    forall i, j :: 0 <= i < j < |s| ==> s[i] != s[j]
  }

  /**
   * `acc[c] = (acc[c] || 0) + v` on a record whose keys keep insertion order:
   * an existing key is updated in place, a new key goes to the end.
   */
  function AddTo(acc: seq<CategoryTotal>, c: Category, v: real): (r: seq<CategoryTotal>)
    ensures Names(r) == if c in Names(acc) then Names(acc) else Names(acc) + [c]
    ensures forall x :: Lookup(r, x) == Lookup(acc, x) + (if x == c then v else 0.0)
    ensures Total(r) == Total(acc) + v
    decreases |acc|
  {
    if acc == [] then [CategoryTotal(c, v)]
    else if acc[0].name == c then
      var r := [CategoryTotal(c, acc[0].value + v)] + acc[1..];
      assert r[1..] == acc[1..];
      r
    else
      var rest := AddTo(acc[1..], c, v);
      var r := [acc[0]] + rest;
      assert r[1..] == rest;
      r
  }

  /** The distinct elements of s in order of first occurrence. */
  function FirstOccurrences(s: seq<Category>): (r: seq<Category>)
    ensures forall x :: x in r <==> x in s
    ensures Distinct(r)
    decreases |s|
  {
    if s == [] then []
    else
      var prev := FirstOccurrences(s[..|s| - 1]);
      assert s == s[..|s| - 1] + [s[|s| - 1]];
      if s[|s| - 1] in prev then prev else prev + [s[|s| - 1]]
  }

  /** The categories of a transaction list, in order. */
  function CategoriesOf(ts: seq<Transaction>): (cs: seq<Category>)
    ensures |cs| == |ts|
    ensures forall i :: 0 <= i < |ts| ==> cs[i] == ts[i].category
  {
    seq(|ts|, i requires 0 <= i < |ts| => ts[i].category)
  }

  /** Sum of the category-fold conversion over a list (reference definition). */
  function SumLoose(ts: seq<Transaction>, g: Rate): real
    decreases |ts|
  {
    if ts == [] then 0.0 else SumLoose(ts[..|ts| - 1], g) + ToUSDLoose(ts[|ts| - 1], g)
  }

  /** What category c should total: the expenses of category c, converted as the fold does. */
  function CategorySum(ts: seq<Transaction>, c: Category, g: Rate): real
    decreases |ts|
  {
    if ts == [] then 0.0
    else
      var t := ts[|ts| - 1];
      CategorySum(ts[..|ts| - 1], c, g) + (if t.kind == Expense && t.category == c then ToUSDLoose(t, g) else 0.0)
  }

  /**
   * `expenseData` / `expenseDistributionData`: the expenses grouped by
   * category, one entry per category that occurs, in first-occurrence order.
   */
  function ExpensesByCategory(ts: seq<Transaction>, g: Rate): (r: seq<CategoryTotal>)
    ensures Names(r) == FirstOccurrences(CategoriesOf(OfKind(ts, Expense)))
    ensures forall c :: Lookup(r, c) == CategorySum(ts, c, g)
    ensures Total(r) == SumLoose(OfKind(ts, Expense), g)
    decreases |ts|
  {
    if ts == [] then []
    else
      var init, t := ts[..|ts| - 1], ts[|ts| - 1];
      var acc := ExpensesByCategory(init, g);
      ByCategoryStep(ts, g);
      if t.kind != Expense then
        assert forall c :: CategorySum(ts, c, g) == CategorySum(init, c, g);
        acc
      else
        assert forall c :: (CategorySum(ts, c, g)
          == CategorySum(init, c, g) + (if t.category == c then ToUSDLoose(t, g) else 0.0));
        AddTo(acc, t.category, ToUSDLoose(t, g))
  }

  /** How the breakdown's reference definitions change with one more transaction at the end. */
  lemma ByCategoryStep(ts: seq<Transaction>, g: Rate)
    requires ts != []
    ensures var init, t := ts[..|ts| - 1], ts[|ts| - 1];
      var prev := FirstOccurrences(CategoriesOf(OfKind(init, Expense)));
      && FirstOccurrences(CategoriesOf(OfKind(ts, Expense)))
         == (if t.kind != Expense || t.category in prev then prev else prev + [t.category])
      && SumLoose(OfKind(ts, Expense), g)
         == SumLoose(OfKind(init, Expense), g) + (if t.kind == Expense then ToUSDLoose(t, g) else 0.0)
  {
    var init, t := ts[..|ts| - 1], ts[|ts| - 1];
    OfKindLast(ts, Expense);
    if t.kind == Expense {
      var xs := OfKind(init, Expense);
      assert OfKind(ts, Expense) == xs + [t];
      assert CategoriesOf(xs + [t])[..|xs|] == CategoriesOf(xs);
      assert (xs + [t])[..|xs + [t]| - 1] == xs;
    }
  }

  lemma {:induction false} SumLooseOfExpenses(ts: seq<Transaction>, g: Rate)
    requires forall i :: 0 <= i < |ts| ==> ts[i].kind == Expense
    ensures SumLoose(ts, g) == SumUSD(ts, g)
    decreases |ts|
  {
    if ts != [] {
      SumLooseOfExpenses(ts[..|ts| - 1], g);
      LooseAgreesOnExpenses(ts[|ts| - 1], g);
    }
  }

  /** The category totals add up to the expense total of the balances. */
  lemma ByCategoryAddsUpToExpenses(ts: seq<Transaction>, g: Rate)
    ensures Total(ExpensesByCategory(ts, g)) == UnifiedBalances(ts, g).totalExpensesUSD
  {
    SumLooseOfExpenses(OfKind(ts, Expense), g);
  }

  lemma {:induction false} OfKindMembers(ts: seq<Transaction>, k: TransactionType, t: Transaction)
    ensures t in OfKind(ts, k) <==> t in ts && t.kind == k
    decreases |ts|
  {
    if ts != [] {
      OfKindMembers(ts[..|ts| - 1], k, t);
      OfKindLast(ts, k);
      assert ts == ts[..|ts| - 1] + [ts[|ts| - 1]];
    }
  }

  /** A category has an entry exactly when some expense has that category: no zero entries. */
  lemma ByCategoryKeys(ts: seq<Transaction>, g: Rate, c: Category)
    ensures c in Names(ExpensesByCategory(ts, g)) <==> exists t :: t in ts && t.kind == Expense && t.category == c
  {
    var xs := OfKind(ts, Expense);
    var cs := CategoriesOf(xs);
    if c in cs {
      var i :| 0 <= i < |cs| && cs[i] == c;
      OfKindMembers(ts, Expense, xs[i]);
    }
    if exists t :: t in ts && t.kind == Expense && t.category == c {
      var t :| t in ts && t.kind == Expense && t.category == c;
      OfKindMembers(ts, Expense, t);
      var i :| 0 <= i < |xs| && xs[i] == t;
      assert cs[i] == c;
    }
  }

  // ------------------------------------------------ six-month trend

  datatype YearMonth = YearMonth(year: int, month: int)

  function YearMonthOf(d: Date): YearMonth {
    YearMonth(d.year, d.month)
  }

  /** Months since January of year 0. */
  function Index(ym: YearMonth): int {
    ym.year * 12 + ym.month - 1
  }

  function FromIndex(i: int): (ym: YearMonth)
    ensures Index(ym) == i && 1 <= ym.month <= 12
  {
    YearMonth(i / 12, i % 12 + 1)
  }

  lemma IndexInjective(a: YearMonth, b: YearMonth)
    requires 1 <= a.month <= 12 && 1 <= b.month <= 12
    requires Index(a) == Index(b)
    ensures a == b
  {
  }

  /**
   * The six (year, month) buckets of the trend, oldest first, ending with the
   * month of `today`: bucket k is today moved back 5 - k months with
   * `setMonth`. Near the end of a month a target month may be too short for
   * today's day, and the bucket then falls on the month after it.
   */
  function TrendWindow(today: CalDate): (w: seq<YearMonth>)
    ensures |w| == 6
    ensures w[5] == YearMonthOf(today)
    ensures forall k :: 0 <= k < 6 ==> 1 <= w[k].month <= 12
    ensures forall k :: 0 <= k < 6 ==>
      Index(w[k]) == MonthIndex(today) - 5 + k || Index(w[k]) == MonthIndex(today) - 4 + k
    ensures today.day <= 28 ==> forall k :: 0 <= k < 6 ==> Index(w[k]) == MonthIndex(today) - 5 + k
  {
    seq(6, k requires 0 <= k < 6 => WindowMonth(today, k))
  }

  /** Bucket k of the window: the month of today moved back 5 - k months. */
  function WindowMonth(today: CalDate, k: nat): (ym: YearMonth)
    requires k < 6
    ensures 1 <= ym.month <= 12
    ensures Index(ym) == MonthIndex(today) - 5 + k || Index(ym) == MonthIndex(today) - 4 + k
    ensures today.day <= 28 ==> Index(ym) == MonthIndex(today) - 5 + k
    ensures k == 5 ==> ym == YearMonthOf(today)
  {
    YearMonthOf(MonthsBack(today, 5 - k))
  }

  /**
   * Every bucket lies in the five months before today's month or in it; up to
   * the 28th of a month, every month of that range is a bucket.
   */
  lemma InTrendWindow(today: CalDate, ym: YearMonth)
    requires 1 <= ym.month <= 12
    ensures ym in TrendWindow(today) ==> MonthIndex(today) - 5 <= Index(ym) <= MonthIndex(today)
    ensures today.day <= 28 && MonthIndex(today) - 5 <= Index(ym) <= MonthIndex(today) ==> ym in TrendWindow(today)
  {
    var w := TrendWindow(today);
    if today.day <= 28 && MonthIndex(today) - 5 <= Index(ym) <= MonthIndex(today) {
      var i := Index(ym) - MonthIndex(today) + 5;
      IndexInjective(w[i], ym);
    }
  }

  /** A transaction dated eight months before today falls in no bucket. */
  lemma EightMonthsBackIsOutside(today: CalDate, d: CalDate)
    requires MonthIndex(d) == MonthIndex(today) - 8
    ensures YearMonthOf(d) !in TrendWindow(today)
  {
    InTrendWindow(today, YearMonthOf(d));
  }

  /**
   * On 31 May 2024 the buckets are December, January, March, March, May and
   * May: February and April have no bucket, and March and May have two.
   */
  lemma MonthEndTrendWindow()
    ensures var w := TrendWindow(Date(2024, 5, 31));
      && w[0] == YearMonth(2023, 12) && w[1] == YearMonth(2024, 1) && w[2] == YearMonth(2024, 3)
      && w[3] == YearMonth(2024, 3) && w[4] == YearMonth(2024, 5) && w[5] == YearMonth(2024, 5)
    ensures YearMonth(2024, 2) !in TrendWindow(Date(2024, 5, 31))
    ensures YearMonth(2024, 4) !in TrendWindow(Date(2024, 5, 31))
  {
    var w := TrendWindow(Date(2024, 5, 31));
    forall k | 0 <= k < 5
      ensures w[k] == YearMonthOf([Date(2024, 5, 1), Date(2024, 3, 31), Date(2024, 3, 2), Date(2024, 1, 31), Date(2023, 12, 31)][4 - k])
    {
      MonthEndMonthsBack(5 - k);
    }
  }

  /** A bucket receives transactions when no earlier bucket has its month (`find` picks the first). */
  predicate Counted(w: seq<YearMonth>, i: int)
    requires 0 <= i < |w|
  {
    forall j :: 0 <= j < i ==> w[j] != w[i]
  }

  /** Up to the 28th of a month the six buckets are distinct, so each one counts. */
  lemma EarlyInMonthEveryBucketCounts(today: CalDate)
    requires today.day <= 28
    ensures forall i :: 0 <= i < 6 ==> Counted(TrendWindow(today), i)
  {
    var w := TrendWindow(today);
    forall i, j | 0 <= j < i < 6 ensures w[j] != w[i] {
      assert Index(w[j]) != Index(w[i]);
    }
  }

  datatype TrendBucket = TrendBucket(period: YearMonth, revenues: real, expenses: real)

  /** What a bucket should hold: the transactions of one type in one month, converted as the fold does. */
  function PeriodSum(ts: seq<Transaction>, ym: YearMonth, k: TransactionType, g: Rate): real
    decreases |ts|
  {
    if ts == [] then 0.0
    else
      var t := ts[|ts| - 1];
      PeriodSum(ts[..|ts| - 1], ym, k, g) + (if t.kind == k && YearMonthOf(t.date) == ym then ToUSDLoose(t, g) else 0.0)
  }

  /** `last6Months.find(...)`: the first bucket of the given month, or -1. */
  function FindBucket(bs: seq<TrendBucket>, ym: YearMonth): (i: int)
    ensures -1 <= i < |bs|
    ensures i == -1 <==> forall j :: 0 <= j < |bs| ==> bs[j].period != ym
    ensures 0 <= i ==> bs[i].period == ym && forall j :: 0 <= j < i ==> bs[j].period != ym
    decreases |bs|
  {
    if bs == [] then -1
    else if bs[0].period == ym then 0
    else
      var i := FindBucket(bs[1..], ym);
      if i == -1 then -1 else i + 1
  }

  lemma PeriodSumPrefix(ts: seq<Transaction>, k: nat, ym: YearMonth, kind: TransactionType, g: Rate)
    requires k < |ts|
    ensures PeriodSum(ts[..k + 1], ym, kind, g)
         == PeriodSum(ts[..k], ym, kind, g) + (if ts[k].kind == kind && YearMonthOf(ts[k].date) == ym then ToUSDLoose(ts[k], g) else 0.0)
  {
    assert ts[..k + 1][..k] == ts[..k];
  }

  /**
   * What bucket i of window w holds after the transactions ts: the loose USD
   * sums of its month's revenues and expenses when it is the first bucket of
   * its month, and zeros otherwise.
   */
  function TrendSlot(w: seq<YearMonth>, i: nat, ts: seq<Transaction>, g: Rate): TrendBucket
    requires i < |w|
  {
    if Counted(w, i) then TrendBucket(w[i], PeriodSum(ts, w[i], Revenue, g), PeriodSum(ts, w[i], Expense, g))
    else TrendBucket(w[i], 0.0, 0.0)
  }

  /** `monthData.revenues += amountUSD` or `monthData.expenses += amountUSD`. */
  function AddToBucket(bs: seq<TrendBucket>, j: nat, t: Transaction, g: Rate): (r: seq<TrendBucket>)
    requires j < |bs|
    ensures |r| == |bs|
  {
    if t.kind == Revenue then bs[j := bs[j].(revenues := bs[j].revenues + ToUSDLoose(t, g))]
    else bs[j := bs[j].(expenses := bs[j].expenses + ToUSDLoose(t, g))]
  }

  /** Before the fold every bucket is zero, as is every slot over no transactions. */
  lemma TrendStart(w: seq<YearMonth>, bs: seq<TrendBucket>, ts: seq<Transaction>, g: Rate)
    requires |bs| == |w| && forall i :: 0 <= i < |w| ==> bs[i] == TrendBucket(w[i], 0.0, 0.0)
    ensures forall i :: 0 <= i < |w| ==> bs[i] == TrendSlot(w, i, ts[..0], g)
  {
    assert ts[..0] == [];
  }

  /** One transaction of the fold keeps every bucket equal to its slot. */
  lemma {:induction false} TrendStep(w: seq<YearMonth>, bs: seq<TrendBucket>, ts: seq<Transaction>, k: nat, g: Rate)
    requires |bs| == |w| && k < |ts|
    requires forall i :: 0 <= i < |w| ==> bs[i] == TrendSlot(w, i, ts[..k], g)
    ensures var j := FindBucket(bs, YearMonthOf(ts[k].date));
      var next := if j >= 0 then AddToBucket(bs, j, ts[k], g) else bs;
      forall i :: 0 <= i < |w| ==> next[i] == TrendSlot(w, i, ts[..k + 1], g)
  {
    var ym := YearMonthOf(ts[k].date);
    var j := FindBucket(bs, ym);
    var next := if j >= 0 then AddToBucket(bs, j, ts[k], g) else bs;
    forall i | 0 <= i < |w| ensures next[i] == TrendSlot(w, i, ts[..k + 1], g) {
      PeriodSumPrefix(ts, k, w[i], Revenue, g);
      PeriodSumPrefix(ts, k, w[i], Expense, g);
      assert bs[i].period == w[i];
      if j >= 0 && i == j {
        assert Counted(w, j) by {
          forall l | 0 <= l < j ensures w[l] != w[j] {
            assert bs[l].period == w[l];
          }
        }
      }
    }
  }

  /**
   * `financialTrendData`: six zeroed buckets for the months of the trend
   * window, then each transaction is added to the first bucket of its month,
   * if there is one, under its type. A bucket repeating an earlier bucket's
   * month stays at zero.
   */
  method FinancialTrend(ts: seq<Transaction>, g: Rate, today: CalDate) returns (buckets: seq<TrendBucket>)
    ensures |buckets| == 6
    ensures forall i :: 0 <= i < 6 ==> buckets[i] == TrendSlot(TrendWindow(today), i, ts, g)
  {
    buckets := FillBuckets(TrendWindow(today), ts, g);
  }

  /** `transactions.forEach(...)` over zeroed buckets for the months of w. */
  method FillBuckets(w: seq<YearMonth>, ts: seq<Transaction>, g: Rate) returns (buckets: seq<TrendBucket>)
    ensures |buckets| == |w|
    ensures forall i :: 0 <= i < |w| ==> buckets[i] == TrendSlot(w, i, ts, g)
  {
    buckets := seq(|w|, i requires 0 <= i < |w| => TrendBucket(w[i], 0.0, 0.0));
    TrendStart(w, buckets, ts, g);
    var k := 0;
    while k < |ts|
      invariant 0 <= k <= |ts|
      invariant |buckets| == |w|
      invariant forall i :: 0 <= i < |w| ==> buckets[i] == TrendSlot(w, i, ts[..k], g)
    {
      var t := ts[k];
      TrendStep(w, buckets, ts, k, g);
      var j := FindBucket(buckets, YearMonthOf(t.date));
      if j >= 0 {
        var usd := ToUSDLoose(t, g);
        if t.kind == Revenue {
          buckets := buckets[j := buckets[j].(revenues := buckets[j].revenues + usd)];
        } else {
          buckets := buckets[j := buckets[j].(expenses := buckets[j].expenses + usd)];
        }
      }
      k := k + 1;
    }
    assert ts[..k] == ts;
  }

  /** Up to the 28th of a month every bucket holds its month's sums. */
  lemma TrendEarlyInMonth(ts: seq<Transaction>, g: Rate, today: CalDate, i: nat)
    requires today.day <= 28 && i < 6
    ensures var ym := TrendWindow(today)[i];
      TrendSlot(TrendWindow(today), i, ts, g) == TrendBucket(ym, PeriodSum(ts, ym, Revenue, g), PeriodSum(ts, ym, Expense, g))
  {
    EarlyInMonthEveryBucketCounts(today);
  }

  // ------------------------------------------------ budget against actual

  /** One row of the budget table. */
  datatype BudgetRow = BudgetRow(category: ExpenseCategory, budget: real, actual: real, remaining: real, percentage: real)

  /** The expenses dated within one calendar month. */
  function MonthlyExpenses(ts: seq<Transaction>, ym: YearMonth): (r: seq<Transaction>)
    ensures forall i :: 0 <= i < |r| ==> r[i].kind == Expense && YearMonthOf(r[i].date) == ym
    ensures forall t :: t in ts && t.kind == Expense && YearMonthOf(t.date) == ym ==> t in r
    ensures forall t :: t in r ==> t in ts
    decreases |ts|
  {
    if ts == [] then []
    else
      var t := ts[|ts| - 1];
      MonthlyExpenses(ts[..|ts| - 1], ym) + (if t.kind == Expense && YearMonthOf(t.date) == ym then [t] else [])
  }

  /** `parseFloat(monthlyBudgets[category] || '0')`: an empty field reads as 0. */
  function BudgetField(fields: map<ExpenseCategory, real>, c: ExpenseCategory): real {
    if c in fields then fields[c] else 0.0
  }

  function Min(a: real, b: real): real {
    if a <= b then a else b
  }

  lemma RatioAtLeastOne(a: real, b: real)
    requires b > 0.0
    ensures a / b >= 1.0 <==> a >= b
    ensures a >= 0.0 ==> a / b >= 0.0
  {
    var q := a / b;
    assert q * b == a;
    if q >= 1.0 {
      assert (q - 1.0) * b >= 0.0;
    } else {
      assert (1.0 - q) * b > 0.0;
    }
  }

  /** A row: the remaining amount may be negative; the percentage is capped at 100. */
  function Row(c: ExpenseCategory, budget: real, actual: real): (row: BudgetRow)
    ensures row.category == c && row.budget == budget && row.actual == actual
    ensures row.remaining == budget - actual
    ensures row.percentage <= 100.0
  {
    if budget > 0.0 then
      BudgetRow(c, budget, actual, budget - actual, Min((actual / budget) * 100.0, 100.0))
    else
      BudgetRow(c, budget, actual, budget - actual, Min(0.0, 100.0))
  }

  /**
   * The percentage of a row: 0 without a positive budget; otherwise the
   * share of the budget spent, reaching 100 exactly when the spending
   * reaches the budget.
   */
  lemma RowPercentage(c: ExpenseCategory, budget: real, actual: real)
    ensures budget <= 0.0 ==> Row(c, budget, actual).percentage == 0.0
    ensures budget > 0.0 ==> (Row(c, budget, actual).percentage == 100.0 <==> actual >= budget)
    ensures budget > 0.0 && actual < budget ==> Row(c, budget, actual).percentage * budget == actual * 100.0
    ensures budget > 0.0 && actual >= 0.0 ==> Row(c, budget, actual).percentage >= 0.0
  {
    if budget > 0.0 {
      RatioAtLeastOne(actual, budget);
    }
  }

  /**
   * `budgetVsActualData`: one row per expense category in declaration order,
   * the actual spending counting only expenses dated in today's month.
   */
  function BudgetVsActual(ts: seq<Transaction>, fields: map<ExpenseCategory, real>, g: Rate, today: CalDate)
    : (rows: seq<BudgetRow>)
    ensures |rows| == |ExpenseCategories()|
    ensures forall i :: 0 <= i < |rows| ==> rows[i].category == ExpenseCategories()[i]
    ensures forall i :: 0 <= i < |rows| ==> rows[i].budget == BudgetField(fields, rows[i].category)
    ensures forall i :: 0 <= i < |rows| ==>
      rows[i].actual == CategorySum(MonthlyExpenses(ts, YearMonthOf(today)), OfExpense(rows[i].category), g)
    ensures forall i :: 0 <= i < |rows| ==> rows[i].remaining == rows[i].budget - rows[i].actual
    ensures forall i :: 0 <= i < |rows| ==> rows[i].percentage <= 100.0
    ensures forall i :: 0 <= i < |rows| ==> rows[i] == Row(rows[i].category, rows[i].budget, rows[i].actual)
  {
    var spending := ExpensesByCategory(MonthlyExpenses(ts, YearMonthOf(today)), g);
    var cats := ExpenseCategories();
    seq(|cats|, i requires 0 <= i < |cats| =>
      Row(cats[i], BudgetField(fields, cats[i]), Lookup(spending, OfExpense(cats[i]))))
  }

  /** An expense from another month, or a revenue, leaves every budget row as it was. */
  lemma BudgetIgnoresOtherTransactions(ts: seq<Transaction>, t: Transaction, fields: map<ExpenseCategory, real>, g: Rate, today: CalDate)
    requires t.kind == Revenue || YearMonthOf(t.date) != YearMonthOf(today)
    ensures BudgetVsActual(ts + [t], fields, g, today) == BudgetVsActual(ts, fields, g, today)
  {
    assert (ts + [t])[..|ts + [t]| - 1] == ts;
    var e: seq<Transaction> := [];
    assert MonthlyExpenses(ts, YearMonthOf(today)) + e == MonthlyExpenses(ts, YearMonthOf(today));
  }

  /** An expense of category c dated in today's month adds its USD value to c's row and to no other. */
  lemma BudgetCountsMonthExpense(ts: seq<Transaction>, t: Transaction, fields: map<ExpenseCategory, real>, g: Rate, today: CalDate, i: nat)
    requires t.kind == Expense && YearMonthOf(t.date) == YearMonthOf(today)
    requires i < |ExpenseCategories()|
    ensures BudgetVsActual(ts + [t], fields, g, today)[i].actual
         == BudgetVsActual(ts, fields, g, today)[i].actual
            + (if t.category == OfExpense(ExpenseCategories()[i]) then ToUSDLoose(t, g) else 0.0)
  {
    var ym := YearMonthOf(today);
    var c := OfExpense(ExpenseCategories()[i]);
    var m := MonthlyExpenses(ts, ym);
    assert MonthlyExpenses(ts + [t], ym) == m + [t] by {
      assert (ts + [t])[..|ts + [t]| - 1] == ts;
    }
    CategorySumSnoc(m, t, c, g);
  }

  lemma CategorySumSnoc(ts: seq<Transaction>, t: Transaction, c: Category, g: Rate)
    ensures CategorySum(ts + [t], c, g)
         == CategorySum(ts, c, g) + (if t.kind == Expense && t.category == c then ToUSDLoose(t, g) else 0.0)
  {
    assert (ts + [t])[..|ts|] == ts;
  }

  // ------------------------------------------------ saving and loading budgets

  /** The budgets saved from the form fields of `cats`, in that order, positive amounts only. */
  function SaveBudgetsFrom(cats: seq<ExpenseCategory>, fields: map<ExpenseCategory, real>): (bs: seq<Budget>)
    ensures |bs| <= |cats|
    ensures forall i :: 0 <= i < |bs| ==>
      bs[i].currency == USD && bs[i].category in fields && bs[i].amount == fields[bs[i].category] && bs[i].amount > 0.0
    decreases |cats|
  {
    if cats == [] then []
    else
      var c := cats[0];
      (if c in fields && fields[c] > 0.0 then [Budget(c, fields[c], USD)] else []) + SaveBudgetsFrom(cats[1..], fields)
  }

  /**
   * `handleSaveBudgets`: the form fields in category declaration order, kept
   * only when the amount is positive, as USD budgets.
   */
  function SaveBudgets(fields: map<ExpenseCategory, real>): (bs: seq<Budget>)
    ensures forall i :: 0 <= i < |bs| ==>
      bs[i].currency == USD && bs[i].category in fields && bs[i].amount == fields[bs[i].category] && bs[i].amount > 0.0
  {
    SaveBudgetsFrom(ExpenseCategories(), fields)
  }

  /** `budgets.find(b => b.category === c)?.amount`. */
  function FirstBudget(bs: seq<Budget>, c: ExpenseCategory): Option<real>
    decreases |bs|
  {
    if bs == [] then None else if bs[0].category == c then Some(bs[0].amount) else FirstBudget(bs[1..], c)
  }

  /** The monthly budget form filled from the saved budgets; a category with none is left empty. */
  function LoadBudgetFields(bs: seq<Budget>): (fields: map<ExpenseCategory, real>)
    ensures forall c :: c in fields <==> FirstBudget(bs, c).Some?
    ensures forall c :: c in fields ==> fields[c] == FirstBudget(bs, c).value
  {
    forall c: ExpenseCategory ensures c in ExpenseCategories() { ExpenseCategoriesComplete(c); }
    map c | c in ExpenseCategories() && FirstBudget(bs, c).Some? :: FirstBudget(bs, c).value
  }

  /** The positive fields of a form: what saving keeps. */
  function PositiveFields(fields: map<ExpenseCategory, real>): map<ExpenseCategory, real> {
    map c | c in fields && fields[c] > 0.0 :: fields[c]
  }

  lemma {:induction false} FirstBudgetOfSaved(cats: seq<ExpenseCategory>, fields: map<ExpenseCategory, real>, c: ExpenseCategory)
    ensures FirstBudget(SaveBudgetsFrom(cats, fields), c)
         == if c in cats && c in fields && fields[c] > 0.0 then Some(fields[c]) else None
    decreases |cats|
  {
    if cats != [] {
      FirstBudgetOfSaved(cats[1..], fields, c);
      var rest := SaveBudgetsFrom(cats[1..], fields);
      var kept := cats[0] in fields && fields[cats[0]] > 0.0;
      if kept {
        FirstBudgetCons(Budget(cats[0], fields[cats[0]], USD), rest, c);
      } else {
        assert SaveBudgetsFrom(cats, fields) == rest;
      }
      MemberOfHeadOrTail(cats, c);
    }
  }

  lemma MemberOfHeadOrTail<T>(s: seq<T>, x: T)
    requires s != []
    ensures x in s <==> x == s[0] || x in s[1..]
  {
    assert s == [s[0]] + s[1..];
  }

  lemma FirstBudgetCons(b: Budget, rest: seq<Budget>, c: ExpenseCategory)
    ensures FirstBudget([b] + rest, c) == if b.category == c then Some(b.amount) else FirstBudget(rest, c)
  {
    assert ([b] + rest)[1..] == rest;
  }

  /** Loading what was saved gives back exactly the positive fields. */
  lemma LoadAfterSave(fields: map<ExpenseCategory, real>)
    ensures LoadBudgetFields(SaveBudgets(fields)) == PositiveFields(fields)
  {
    var loaded := LoadBudgetFields(SaveBudgets(fields));
    var positive := PositiveFields(fields);
    forall c: ExpenseCategory
      ensures (c in loaded <==> c in positive) && (c in loaded ==> loaded[c] == positive[c])
    {
      ExpenseCategoriesComplete(c);
      FirstBudgetOfSaved(ExpenseCategories(), fields, c);
    }
    assert loaded.Keys == positive.Keys;
  }

  lemma {:induction false} SaveDependsOnPositiveFields(cats: seq<ExpenseCategory>, fields: map<ExpenseCategory, real>)
    ensures SaveBudgetsFrom(cats, PositiveFields(fields)) == SaveBudgetsFrom(cats, fields)
    decreases |cats|
  {
    if cats != [] {
      SaveDependsOnPositiveFields(cats[1..], fields);
    }
  }

  /** Saving, loading and saving again gives the same budgets. */
  lemma SaveLoadRoundTrip(fields: map<ExpenseCategory, real>)
    ensures SaveBudgets(LoadBudgetFields(SaveBudgets(fields))) == SaveBudgets(fields)
  {
    LoadAfterSave(fields);
    SaveDependsOnPositiveFields(ExpenseCategories(), fields);
  }
}
