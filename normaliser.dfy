/**
 * Conversion of transaction amounts to USD and the revenue/expense totals
 * built from it (the dashboard balances and the report summary).
 */
module Normaliser {
  import opened Wrappers
  import opened Dates
  import opened Types

  /**
   * The rate the totals divide an EGP amount by: the transaction's own
   * snapshot when it is an expense that carries one, else the global rate.
   */
  function EffectiveRate(t: Transaction, globalRate: Rate): Rate {
    if t.kind == Expense && t.exchangeRate.Some? then t.exchangeRate.value else globalRate
  }

  /** The USD equivalent of a transaction as the totals compute it. */
  function ToUSD(t: Transaction, globalRate: Rate): (usd: real)
    ensures t.currency == USD ==> usd == t.amount
    ensures t.currency == EGP ==> usd * EffectiveRate(t, globalRate) == t.amount
  {
    if t.currency == EGP then t.amount / EffectiveRate(t, globalRate) else t.amount
  }

  /**
   * The rate the category and trend folds use, `t.exchangeRate || rate`:
   * a snapshot is honoured whatever the transaction's type.
   */
  function LooseRate(t: Transaction, globalRate: Rate): Rate {
    t.exchangeRate.GetOr(globalRate)
  }

  /** The USD equivalent as the category and trend folds compute it. */
  function ToUSDLoose(t: Transaction, globalRate: Rate): (usd: real)
    ensures t.currency == USD ==> usd == t.amount
    ensures t.currency == EGP ==> usd * LooseRate(t, globalRate) == t.amount
  {
    if t.currency == EGP then t.amount / LooseRate(t, globalRate) else t.amount
  }

  /** A USD amount is taken as it is, whatever the global rate. */
  lemma NormalisationIdentity(t: Transaction, g1: Rate, g2: Rate)
    requires t.currency == USD
    ensures ToUSD(t, g1) == t.amount == ToUSD(t, g2)
  {
  }

  /** A rated EGP expense is converted at its own rate, whatever the global rate. */
  lemma SnapshotPrecedence(t: Transaction, g1: Rate, g2: Rate)
    requires t.kind == Expense && t.currency == EGP && t.exchangeRate.Some?
    ensures ToUSD(t, g1) == ToUSD(t, g2) == t.amount / t.exchangeRate.value
  {
  }

  /** An EGP transaction without an applicable snapshot is converted at the global rate. */
  lemma GlobalRateFallback(t: Transaction, g: Rate)
    requires t.currency == EGP && (t.kind == Revenue || t.exchangeRate.None?)
    ensures ToUSD(t, g) == t.amount / g
  {
  }

  /** On expenses the two conversions agree; the Expense check only matters for revenues. */
  lemma LooseAgreesOnExpenses(t: Transaction, g: Rate)
    requires t.kind == Expense || t.exchangeRate.None?
    ensures ToUSDLoose(t, g) == ToUSD(t, g)
  {
  }

  /** Under the rate invariant the two conversions agree on every transaction. */
  lemma LooseAgreesWhenWellPlaced(t: Transaction, g: Rate)
    requires RateWellPlaced(t)
    ensures ToUSDLoose(t, g) == ToUSD(t, g)
  {
  }

  /** A rated EGP revenue is where the two conversions part. */
  lemma LooseDiffersOnRatedRevenue()
    ensures exists t: Transaction, g: Rate :: t.kind == Revenue && ToUSDLoose(t, g) != ToUSD(t, g)
  {
    var t := Transaction("r", Revenue, 100.0, EGP, Date(2024, 1, 1), "", OfRevenue(General),
                         None, None, Some(50.0), None);
    assert ToUSDLoose(t, 25.0) == 2.0;
    assert ToUSD(t, 25.0) == 4.0;
  }

  /** 200 EGP spent at a snapshot of 50 is 4 USD even when the global rate is 48. */
  lemma SnapshotScenario(t: Transaction)
    requires t.kind == Expense && t.currency == EGP && t.amount == 200.0 && t.exchangeRate == Some(50.0)
    ensures ToUSD(t, 48.0) == 4.0
  {
  }

  // ---------------------------------------------------------------- totals

  /** The transactions of one type, in order. */
  function OfKind(ts: seq<Transaction>, k: TransactionType): (r: seq<Transaction>)
    ensures |r| <= |ts|
    ensures forall i :: 0 <= i < |r| ==> r[i].kind == k
    decreases |ts|
  {
    if ts == [] then []
    else OfKind(ts[..|ts| - 1], k) + (if ts[|ts| - 1].kind == k then [ts[|ts| - 1]] else [])
  }

  /** The sum of the USD equivalents, an independent reference for the folds. */
  function SumUSD(ts: seq<Transaction>, g: Rate): real
    decreases |ts|
  {
    if ts == [] then 0.0 else SumUSD(ts[..|ts| - 1], g) + ToUSD(ts[|ts| - 1], g)
  }

  datatype Balances = Balances(totalRevenuesUSD: real, totalExpensesUSD: real, currentBalanceUSD: real)

  /**
   * The `reduce` of the balances: one pass, left to right, adding each
   * transaction's USD equivalent to the revenue or the expense total.
   */
  function Accumulate(ts: seq<Transaction>, g: Rate): (acc: (real, real))
    ensures acc.0 == SumUSD(OfKind(ts, Revenue), g)
    ensures acc.1 == SumUSD(OfKind(ts, Expense), g)
    decreases |ts|
  {
    if ts == [] then (0.0, 0.0)
    else
      var acc := Accumulate(ts[..|ts| - 1], g);
      var t := ts[|ts| - 1];
      var usd := ToUSD(t, g);
      OfKindLast(ts, Revenue);
      OfKindLast(ts, Expense);
      SumSnoc(OfKind(ts[..|ts| - 1], t.kind), t, g);
      if t.kind == Revenue then (acc.0 + usd, acc.1) else (acc.0, acc.1 + usd)
  }

  /** `unifiedUSDBalances` (and, over the filtered list, `reportSummary`). */
  function UnifiedBalances(ts: seq<Transaction>, g: Rate): (b: Balances)
    ensures b.totalRevenuesUSD == SumUSD(OfKind(ts, Revenue), g)
    ensures b.totalExpensesUSD == SumUSD(OfKind(ts, Expense), g)
    ensures b.currentBalanceUSD == b.totalRevenuesUSD - b.totalExpensesUSD
  {
    var acc := Accumulate(ts, g);
    Balances(acc.0, acc.1, acc.0 - acc.1)
  }

  lemma OfKindLast(ts: seq<Transaction>, k: TransactionType)
    requires ts != []
    ensures OfKind(ts, k) == if ts[|ts| - 1].kind == k then OfKind(ts[..|ts| - 1], k) + [ts[|ts| - 1]]
                             else OfKind(ts[..|ts| - 1], k)
  {
    var e: seq<Transaction> := [];
    assert OfKind(ts[..|ts| - 1], k) + e == OfKind(ts[..|ts| - 1], k);
  }

  lemma SumSnoc(ts: seq<Transaction>, t: Transaction, g: Rate)
    ensures SumUSD(ts + [t], g) == SumUSD(ts, g) + ToUSD(t, g)
  {
    assert (ts + [t])[..|ts + [t]| - 1] == ts;
  }

  /** Every transaction lands in exactly one of the two totals. */
  lemma {:induction false} TotalsPartition(ts: seq<Transaction>, g: Rate)
    ensures SumUSD(OfKind(ts, Revenue), g) + SumUSD(OfKind(ts, Expense), g) == SumUSD(ts, g)
    decreases |ts|
  {
    if ts != [] {
      var init, t := ts[..|ts| - 1], ts[|ts| - 1];
      TotalsPartition(init, g);
      OfKindLast(ts, Revenue);
      OfKindLast(ts, Expense);
      SumSnoc(OfKind(init, t.kind), t, g);
      assert SumUSD(ts, g) == SumUSD(init, g) + ToUSD(t, g);
      if t.kind == Revenue {
        assert SumUSD(OfKind(ts, Revenue), g) == SumUSD(OfKind(init, Revenue), g) + ToUSD(t, g);
        assert OfKind(ts, Expense) == OfKind(init, Expense);
      } else {
        assert SumUSD(OfKind(ts, Expense), g) == SumUSD(OfKind(init, Expense), g) + ToUSD(t, g);
        assert OfKind(ts, Revenue) == OfKind(init, Revenue);
      }
    }
  }

  /** The balance is the sum of revenues' minus expenses' USD equivalents, over all transactions. */
  lemma BalanceCoversEveryTransaction(ts: seq<Transaction>, g: Rate)
    ensures UnifiedBalances(ts, g).totalRevenuesUSD + UnifiedBalances(ts, g).totalExpensesUSD == SumUSD(ts, g)
  {
    TotalsPartition(ts, g);
  }

  lemma {:induction false} SumAppend(a: seq<Transaction>, b: seq<Transaction>, g: Rate)
    ensures SumUSD(a + b, g) == SumUSD(a, g) + SumUSD(b, g)
    decreases |b|
  {
    if b == [] {
      assert a + b == a;
    } else {
      assert (a + b)[..|a + b| - 1] == a + b[..|b| - 1];
      SumAppend(a, b[..|b| - 1], g);
    }
  }

  lemma {:induction false} OfKindAppend(a: seq<Transaction>, b: seq<Transaction>, k: TransactionType)
    ensures OfKind(a + b, k) == OfKind(a, k) + OfKind(b, k)
    decreases |b|
  {
    if b == [] {
      assert a + b == a;
    } else {
      assert (a + b)[..|a + b| - 1] == a + b[..|b| - 1];
      OfKindAppend(a, b[..|b| - 1], k);
    }
  }

  /** Totals are additive: the totals of `a + b` are those of `a` plus those of `b`. */
  lemma BalancesAppend(a: seq<Transaction>, b: seq<Transaction>, g: Rate)
    ensures UnifiedBalances(a + b, g).totalRevenuesUSD
         == UnifiedBalances(a, g).totalRevenuesUSD + UnifiedBalances(b, g).totalRevenuesUSD
    ensures UnifiedBalances(a + b, g).totalExpensesUSD
         == UnifiedBalances(a, g).totalExpensesUSD + UnifiedBalances(b, g).totalExpensesUSD
  {
    OfKindAppend(a, b, Revenue);
    OfKindAppend(a, b, Expense);
    SumAppend(OfKind(a, Revenue), OfKind(b, Revenue), g);
    SumAppend(OfKind(a, Expense), OfKind(b, Expense), g);
  }
}
