/**
 * The recurring-expense engine: the due-date chain of a monthly or yearly
 * expense, `calculateNextDueDate`, and the start-up catch-up that books one
 * expense per missed due date and moves each recurring expense forward.
 * "Today" is a parameter; the ids of booked transactions come from `mintId`,
 * the k-th booking of a run getting `mintId(k)`.
 */
module Recurrence {
  import opened Wrappers
  import opened Dates
  import opened Types
  import opened Normaliser

  /** One interval forward: `setMonth(+1)` or `setFullYear(+1)`. */
  function Step(d: CalDate, f: Frequency): (r: CalDate)
    ensures Before(d, r)
    ensures MonthIndex(r) > MonthIndex(d)
    ensures f == Monthly ==> MonthIndex(r) <= MonthIndex(d) + 2
  {
    match f
    case Monthly => AddMonth(d)
    case Yearly => AddYear(d)
  }

  /** The k-th date of the chain that starts at `d`. */
  function Iterate(d: CalDate, f: Frequency, k: nat): (r: CalDate)
    ensures MonthIndex(r) >= MonthIndex(d) + k
    ensures k > 0 ==> Before(d, r)
  {
    if k == 0 then d else Step(Iterate(d, f, k - 1), f)
  }

  /**
   * The first date of the chain from `d` that is not before `today`: `d`
   * itself when `d` is not before `today`, otherwise a later date.
   */
  function NextOnOrAfter(d: CalDate, f: Frequency, today: CalDate): (r: CalDate)
    ensures !Before(r, today)
    ensures !Before(d, today) ==> r == d
    ensures Before(d, today) ==> Before(d, r)
    decreases MonthIndex(today) - MonthIndex(d)
  {
    if Before(d, today) then
      BeforeMonthIndex(d, today);
      NextOnOrAfter(Step(d, f), f, today)
    else d
  }

  /** The due dates of the chain from `d` that fall before `today`, in order. */
  function DueDatesBefore(d: CalDate, f: Frequency, today: CalDate): (ds: seq<CalDate>)
    ensures |ds| == 0 <==> !Before(d, today)
    ensures |ds| > 0 ==> ds[0] == d
    ensures forall i :: 0 <= i < |ds| ==> Before(ds[i], today)
    ensures forall i :: 0 < i < |ds| ==> ds[i] == Step(ds[i - 1], f)
    decreases MonthIndex(today) - MonthIndex(d)
  {
    if Before(d, today) then
      BeforeMonthIndex(d, today);
      [d] + DueDatesBefore(Step(d, f), f, today)
    else []
  }

  /**
   * The missed dates are exactly the first |ds| dates of the chain, and the
   * date after them is where the chain first reaches `today`.
   */
  lemma DueDatesFollowChain(d: CalDate, f: Frequency, today: CalDate)
    ensures forall k :: 0 <= k < |DueDatesBefore(d, f, today)| ==> DueDatesBefore(d, f, today)[k] == Iterate(d, f, k)
    ensures NextOnOrAfter(d, f, today) == Iterate(d, f, |DueDatesBefore(d, f, today)|)
  {
    forall k | 0 <= k < |DueDatesBefore(d, f, today)|
      ensures DueDatesBefore(d, f, today)[k] == Iterate(d, f, k)
    {
      DueDateIsChainDate(d, f, today, k);
    }
    NextFollowsDueDates(d, f, today);
  }

  /** The k-th missed date is the k-th date of the chain. */
  lemma {:induction false} DueDateIsChainDate(d: CalDate, f: Frequency, today: CalDate, k: nat)
    requires k < |DueDatesBefore(d, f, today)|
    ensures DueDatesBefore(d, f, today)[k] == Iterate(d, f, k)
    decreases k
  {
    if k > 0 {
      DueDateIsChainDate(d, f, today, k - 1);
    }
  }

  /** The next due date is the chain date right after the missed ones. */
  lemma {:induction false} NextFollowsDueDates(d: CalDate, f: Frequency, today: CalDate)
    ensures NextOnOrAfter(d, f, today) == Iterate(d, f, |DueDatesBefore(d, f, today)|)
    decreases MonthIndex(today) - MonthIndex(d)
  {
    if Before(d, today) {
      BeforeMonthIndex(d, today);
      var d1 := Step(d, f);
      NextFollowsDueDates(d1, f, today);
      assert |DueDatesBefore(d, f, today)| == 1 + |DueDatesBefore(d1, f, today)|;
      IterateShift(d, f, |DueDatesBefore(d1, f, today)|);
    }
  }

  /** Starting one step later is the same chain shifted by one. */
  lemma {:induction false} IterateShift(d: CalDate, f: Frequency, k: nat)
    ensures Iterate(Step(d, f), f, k) == Iterate(d, f, k + 1)
  {
    if k > 0 {
      IterateShift(d, f, k - 1);
    }
  }

  /**
   * The answer is the n-th date of the chain, and every earlier chain date is
   * before `today`: it is the first date of the chain that is not.
   */
  lemma NextDueIsFirstOnChain(d: CalDate, f: Frequency, today: CalDate)
    ensures var n := |DueDatesBefore(d, f, today)|;
      NextOnOrAfter(d, f, today) == Iterate(d, f, n) &&
      forall k :: 0 <= k < n ==> Before(Iterate(d, f, k), today)
  {
    DueDatesFollowChain(d, f, today);
  }

  /**
   * `calculateNextDueDate`: walk the chain from the start date until it is
   * no longer before `today`.
   */
  method CalculateNextDueDate(startDate: CalDate, f: Frequency, today: CalDate) returns (next: CalDate)
    ensures next == NextOnOrAfter(startDate, f, today)
  {
    var date := startDate;
    while Before(date, today)
      invariant NextOnOrAfter(date, f, today) == NextOnOrAfter(startDate, f, today)
      decreases MonthIndex(today) - MonthIndex(date)
    {
      BeforeMonthIndex(date, today);
      match f {
        case Monthly => date := AddMonth(date);
        case Yearly => date := AddYear(date);
      }
    }
    next := date;
  }

  /** The marker appended to the description of a booked recurring expense. */
  const RecurringSuffix: string := " (دوري)"

  /** The expense transaction booked for one missed due date; it carries no rate snapshot. */
  function Materialise(e: RecurringExpense, due: CalDate, id: Id): (t: Transaction)
    ensures t.kind == Expense && t.date == due && t.id == id
    ensures t.amount == e.amount && t.currency == e.currency && t.category == OfExpense(e.category)
    ensures t.description == e.description + RecurringSuffix
    ensures t.exchangeRate == None && t.projectId == None
  {
    Transaction(id, Expense, e.amount, e.currency, due, e.description + RecurringSuffix,
      OfExpense(e.category), None, None, None, None)
  }

  /** The transactions booked for `dues`, the i-th with id `mintId(base + i)`. */
  function Generated(e: RecurringExpense, dues: seq<CalDate>, mintId: nat -> Id, base: nat): (ts: seq<Transaction>)
    ensures |ts| == |dues|
    ensures forall i :: 0 <= i < |dues| ==> ts[i] == Materialise(e, dues[i], mintId(base + i))
  {
    seq(|dues|, i requires 0 <= i < |dues| => Materialise(e, dues[i], mintId(base + i)))
  }

  /** One recurring expense after catch-up, and what it booked. */
  datatype Advanced = Advanced(expense: RecurringExpense, generated: seq<Transaction>)

  /** The expense with its due date moved to the first chain date not before today. */
  function Rescheduled(e: RecurringExpense, today: CalDate): RecurringExpense {
    e.(nextDueDate := NextOnOrAfter(e.nextDueDate, e.frequency, today))
  }

  /** The catch-up of one recurring expense, as a value. */
  function Advance(e: RecurringExpense, today: CalDate, mintId: nat -> Id, base: nat): (a: Advanced)
    ensures a.expense.(nextDueDate := e.nextDueDate) == e
    ensures !Before(a.expense.nextDueDate, today)
    ensures |a.generated| == |DueDatesBefore(e.nextDueDate, e.frequency, today)|
  {
    var dues := DueDatesBefore(e.nextDueDate, e.frequency, today);
    Advanced(Rescheduled(e, today), Generated(e, dues, mintId, base))
  }

  /**
   * What catch-up promises for one expense: only the due date moves, never
   * backwards and never to before today; one booking per missed date, and
   * one at least exactly when the expense was overdue.
   */
  lemma AdvanceContract(e: RecurringExpense, today: CalDate, mintId: nat -> Id, base: nat)
    ensures var a := Advance(e, today, mintId, base);
      && a.expense.(nextDueDate := e.nextDueDate) == e
      && !Before(a.expense.nextDueDate, today)
      && !Before(a.expense.nextDueDate, e.nextDueDate)
      && (a.generated != [] <==> Before(e.nextDueDate, today))
      && (forall i :: 0 <= i < |a.generated| ==>
            a.generated[i].kind == Expense && a.generated[i].exchangeRate == None
            && a.generated[i].amount == e.amount && a.generated[i].currency == e.currency
            && a.generated[i].category == OfExpense(e.category)
            && a.generated[i].description == e.description + RecurringSuffix
            && a.generated[i].date == Iterate(e.nextDueDate, e.frequency, i)
            && Before(a.generated[i].date, today))
  {
    DueDatesFollowChain(e.nextDueDate, e.frequency, today);
  }

  /** A second catch-up on the same day books nothing and moves nothing. */
  lemma AdvanceIdempotent(e: RecurringExpense, today: CalDate, mintId: nat -> Id, base: nat, base2: nat)
    ensures var a := Advance(e, today, mintId, base);
      Advance(a.expense, today, mintId, base2) == Advanced(a.expense, [])
  {
  }

  /**
   * The catch-up loop for one expense: book the due date, step it, until it
   * is no longer before today.
   */
  method AdvanceExpense(e: RecurringExpense, today: CalDate, mintId: nat -> Id, base: nat)
      returns (updated: RecurringExpense, generated: seq<Transaction>)
    ensures Advanced(updated, generated) == Advance(e, today, mintId, base)
  {
    var nextDueDate := e.nextDueDate;
    generated := [];
    ghost var done: seq<CalDate> := [];
    while Before(nextDueDate, today)
      invariant AdvanceInvariant(e, today, mintId, base, done, nextDueDate, generated)
      decreases MonthIndex(today) - MonthIndex(nextDueDate)
    {
      BeforeMonthIndex(nextDueDate, today);
      var tx := Materialise(e, nextDueDate, mintId(base + |generated|));
      AdvanceStep(e, today, mintId, base, done, nextDueDate, generated);
      generated := generated + [tx];
      ghost var due := nextDueDate;
      done := done + [due];
      match e.frequency {
        case Monthly => nextDueDate := AddMonth(nextDueDate);
        case Yearly => nextDueDate := AddYear(nextDueDate);
      }
      assert nextDueDate == Step(due, e.frequency);
    }
    AdvanceExit(e, today, mintId, base, done, nextDueDate, generated);
    updated := e.(nextDueDate := nextDueDate);
  }

  /**
   * The loop's invariant: the dates booked so far (`done`) followed by the
   * missed dates from `next` are all the missed dates, `next` leads to the
   * same next due date, and the bookings so far are those of `done`.
   */
  ghost predicate AdvanceInvariant(e: RecurringExpense, today: CalDate, mintId: nat -> Id, base: nat,
                                   done: seq<CalDate>, next: CalDate, generated: seq<Transaction>)
  {
    && DueDatesBefore(e.nextDueDate, e.frequency, today) == done + DueDatesBefore(next, e.frequency, today)
    && NextOnOrAfter(next, e.frequency, today) == NextOnOrAfter(e.nextDueDate, e.frequency, today)
    && generated == Generated(e, done, mintId, base)
  }

  /** One turn of the catch-up loop keeps its invariant. */
  lemma AdvanceStep(e: RecurringExpense, today: CalDate, mintId: nat -> Id, base: nat,
                    done: seq<CalDate>, due: CalDate, generated: seq<Transaction>)
    requires Before(due, today)
    requires AdvanceInvariant(e, today, mintId, base, done, due, generated)
    ensures AdvanceInvariant(e, today, mintId, base, done + [due], Step(due, e.frequency),
                             generated + [Materialise(e, due, mintId(base + |generated|))])
  {
    ChainStep(due, e.frequency, today);
    var later := DueDatesBefore(Step(due, e.frequency), e.frequency, today);
    assert DueDatesBefore(e.nextDueDate, e.frequency, today) == (done + [due]) + later by {
      assert done + ([due] + later) == (done + [due]) + later;
    }
    GeneratedStep(e, done, due, mintId, base, generated);
  }

  /** A due date before today is missed, and the chain goes on from the next one. */
  lemma ChainStep(due: CalDate, f: Frequency, today: CalDate)
    requires Before(due, today)
    ensures DueDatesBefore(due, f, today) == [due] + DueDatesBefore(Step(due, f), f, today)
    ensures NextOnOrAfter(Step(due, f), f, today) == NextOnOrAfter(due, f, today)
  {
  }

  /** When the loop stops it has computed the catch-up of the expense. */
  lemma AdvanceExit(e: RecurringExpense, today: CalDate, mintId: nat -> Id, base: nat,
                    done: seq<CalDate>, next: CalDate, generated: seq<Transaction>)
    requires !Before(next, today)
    requires AdvanceInvariant(e, today, mintId, base, done, next, generated)
    ensures Advanced(e.(nextDueDate := next), generated) == Advance(e, today, mintId, base)
  {
    assert done + [] == done;
  }

  /** Booking one more due date appends its transaction, with the next id. */
  lemma GeneratedStep(e: RecurringExpense, dues: seq<CalDate>, due: CalDate, mintId: nat -> Id, base: nat,
                      generated: seq<Transaction>)
    requires generated == Generated(e, dues, mintId, base)
    ensures generated + [Materialise(e, due, mintId(base + |generated|))] == Generated(e, dues + [due], mintId, base)
  {
  }

  /**
   * The catch-up over all recurring expenses: the expenses after it, the
   * transactions it booked (in booking order) and the expenses now due
   * tomorrow.
   */
  datatype CatchUpResult = CatchUpResult(
    expenses: seq<RecurringExpense>,
    generated: seq<Transaction>,
    upcoming: seq<RecurringExpense>)

  /** The whole catch-up run, expense by expense in list order. */
  function CatchUpRun(es: seq<RecurringExpense>, today: CalDate, mintId: nat -> Id): (r: CatchUpResult)
    ensures |r.expenses| == |es| && |r.upcoming| <= |es|
    ensures forall i :: 0 <= i < |r.upcoming| ==> r.upcoming[i].nextDueDate == NextDay(today)
    decreases |es|
  {
    if es == [] then CatchUpResult([], [], [])
    else
      var prev := CatchUpRun(es[..|es| - 1], today, mintId);
      var a := Advance(es[|es| - 1], today, mintId, |prev.generated|);
      CatchUpResult(
        prev.expenses + [a.expense],
        prev.generated + a.generated,
        prev.upcoming + (if a.expense.nextDueDate == NextDay(today) then [a.expense] else []))
  }

  /** Every expense comes out of the run advanced to its next due date, in place. */
  lemma {:induction false} CatchUpAdvancesEach(es: seq<RecurringExpense>, today: CalDate, mintId: nat -> Id)
    ensures |CatchUpRun(es, today, mintId).expenses| == |es|
    ensures forall i :: 0 <= i < |es| ==> CatchUpRun(es, today, mintId).expenses[i] == Rescheduled(es[i], today)
    decreases |es|
  {
    if es != [] {
      var init := es[..|es| - 1];
      CatchUpAdvancesEach(init, today, mintId);
      var prev := CatchUpRun(init, today, mintId);
      var a := Advance(es[|es| - 1], today, mintId, |prev.generated|);
      var r := CatchUpRun(es, today, mintId).expenses;
      assert r == prev.expenses + [a.expense];
      forall i | 0 <= i < |es| ensures r[i] == Rescheduled(es[i], today) {
        if i < |init| {
          assert r[i] == prev.expenses[i];
          assert init[i] == es[i];
        } else {
          assert r[i] == a.expense;
        }
      }
    }
  }

  /** Every reminder of the run is an expense now due tomorrow. */
  lemma {:induction false} CatchUpRemindersDueTomorrow(es: seq<RecurringExpense>, today: CalDate, mintId: nat -> Id)
    ensures forall i :: 0 <= i < |CatchUpRun(es, today, mintId).upcoming| ==>
      CatchUpRun(es, today, mintId).upcoming[i].nextDueDate == NextDay(today)
    decreases |es|
  {
    if es != [] {
      CatchUpRemindersDueTomorrow(es[..|es| - 1], today, mintId);
    }
  }

  /** Some expense is overdue: its due date is before today. */
  predicate AnyOverdue(es: seq<RecurringExpense>, today: CalDate) {
    exists i :: 0 <= i < |es| && Before(es[i].nextDueDate, today)
  }

  /** The same, walked from the end of the list as the run is. */
  predicate SomeOverdue(es: seq<RecurringExpense>, today: CalDate)
    decreases |es|
  {
    es != [] && (SomeOverdue(es[..|es| - 1], today) || Before(es[|es| - 1].nextDueDate, today))
  }

  lemma {:induction false} SomeOverdueIsAny(es: seq<RecurringExpense>, today: CalDate)
    ensures SomeOverdue(es, today) <==> AnyOverdue(es, today)
    decreases |es|
  {
    if es != [] {
      var init, e := es[..|es| - 1], es[|es| - 1];
      SomeOverdueIsAny(init, today);
      AnyOverdueSnoc(init, e, today);
      assert es == init + [e];
    }
  }

  /**
   * The run books something exactly when some expense was overdue, and when
   * nothing was overdue the expenses come out unchanged.
   */
  lemma CatchUpBooksIffOverdue(es: seq<RecurringExpense>, today: CalDate, mintId: nat -> Id)
    ensures CatchUpRun(es, today, mintId).generated != [] <==> AnyOverdue(es, today)
    ensures !AnyOverdue(es, today) ==> CatchUpRun(es, today, mintId).expenses == es
  {
    CatchUpBooksIffSomeOverdue(es, today, mintId);
    SomeOverdueIsAny(es, today);
    if !SomeOverdue(es, today) {
      CatchUpKeepsOnTimeExpenses(es, today, mintId);
    }
  }

  lemma {:induction false} CatchUpBooksIffSomeOverdue(es: seq<RecurringExpense>, today: CalDate, mintId: nat -> Id)
    ensures CatchUpRun(es, today, mintId).generated != [] <==> SomeOverdue(es, today)
    decreases |es|
  {
    if es != [] {
      var init, e := es[..|es| - 1], es[|es| - 1];
      CatchUpBooksIffSomeOverdue(init, today, mintId);
      AdvanceBooksIffOverdue(e, today, mintId, |CatchUpRun(init, today, mintId).generated|);
    }
  }

  lemma {:induction false} CatchUpKeepsOnTimeExpenses(es: seq<RecurringExpense>, today: CalDate, mintId: nat -> Id)
    requires !SomeOverdue(es, today)
    ensures CatchUpRun(es, today, mintId).expenses == es
    decreases |es|
  {
    if es != [] {
      var init, e := es[..|es| - 1], es[|es| - 1];
      CatchUpKeepsOnTimeExpenses(init, today, mintId);
      AdvanceBooksIffOverdue(e, today, mintId, |CatchUpRun(init, today, mintId).generated|);
      assert es == init + [e];
    }
  }

  /** One expense books something exactly when it is overdue, and is left alone when it is not. */
  lemma AdvanceBooksIffOverdue(e: RecurringExpense, today: CalDate, mintId: nat -> Id, base: nat)
    ensures Advance(e, today, mintId, base).generated != [] <==> Before(e.nextDueDate, today)
    ensures !Before(e.nextDueDate, today) ==> Advance(e, today, mintId, base).expense == e
  {
    var dues := DueDatesBefore(e.nextDueDate, e.frequency, today);
    assert |Generated(e, dues, mintId, base)| == |dues|;
  }

  /** A list with one more expense has an overdue one iff the list had or the new one is. */
  lemma AnyOverdueSnoc(es: seq<RecurringExpense>, e: RecurringExpense, today: CalDate)
    ensures AnyOverdue(es + [e], today) <==> AnyOverdue(es, today) || Before(e.nextDueDate, today)
  {
    var all := es + [e];
    if AnyOverdue(es, today) {
      var i :| 0 <= i < |es| && Before(es[i].nextDueDate, today);
      assert all[i] == es[i];
    }
    if AnyOverdue(all, today) {
      var i :| 0 <= i < |all| && Before(all[i].nextDueDate, today);
      if i < |es| {
        assert all[i] == es[i];
      }
    }
    if Before(e.nextDueDate, today) {
      assert all[|es|] == e;
    }
  }

  /** Every booked transaction is an unrated expense dated before today. */
  lemma {:induction false} CatchUpBookings(es: seq<RecurringExpense>, today: CalDate, mintId: nat -> Id)
    ensures forall i :: 0 <= i < |CatchUpRun(es, today, mintId).generated| ==>
      var t := CatchUpRun(es, today, mintId).generated[i];
      t.kind == Expense && t.exchangeRate == None && Before(t.date, today) && RateWellPlaced(t)
    decreases |es|
  {
    if es != [] {
      var init := es[..|es| - 1];
      CatchUpBookings(init, today, mintId);
      var prev := CatchUpRun(init, today, mintId);
      AdvanceContract(es[|es| - 1], today, mintId, |prev.generated|);
    }
  }

  /** The k-th transaction booked in a run has id `mintId(k)`. */
  lemma {:induction false} CatchUpIds(es: seq<RecurringExpense>, today: CalDate, mintId: nat -> Id)
    ensures forall k :: 0 <= k < |CatchUpRun(es, today, mintId).generated| ==> CatchUpRun(es, today, mintId).generated[k].id == mintId(k)
    decreases |es|
  {
    if es != [] {
      CatchUpIds(es[..|es| - 1], today, mintId);
    }
  }

  /** An expense is flagged as upcoming exactly when its due date after catch-up is tomorrow. */
  lemma {:induction false} UpcomingIffDueTomorrow(es: seq<RecurringExpense>, today: CalDate, mintId: nat -> Id, x: RecurringExpense)
    ensures x in CatchUpRun(es, today, mintId).upcoming <==>
      x in CatchUpRun(es, today, mintId).expenses && x.nextDueDate == NextDay(today)
    decreases |es|
  {
    if es != [] {
      var init := es[..|es| - 1];
      UpcomingIffDueTomorrow(init, today, mintId, x);
    }
  }

  /** Running the catch-up twice on the same day: the second run books nothing and changes nothing. */
  lemma CatchUpIdempotent(es: seq<RecurringExpense>, today: CalDate, mintId: nat -> Id, mintId2: nat -> Id)
    ensures var once := CatchUpRun(es, today, mintId);
      var twice := CatchUpRun(once.expenses, today, mintId2);
      twice.generated == [] && twice.expenses == once.expenses
  {
    var once := CatchUpRun(es, today, mintId);
    CatchUpAdvancesEach(es, today, mintId);
    assert !AnyOverdue(once.expenses, today);
    CatchUpBooksIffOverdue(once.expenses, today, mintId2);
  }

  /**
   * A booked EGP expense carries no rate, so it is valued at whatever the
   * global rate is when the totals are computed.
   */
  lemma BookingsValuedAtLiveRate(es: seq<RecurringExpense>, today: CalDate, mintId: nat -> Id, g: Rate)
    ensures forall i :: 0 <= i < |CatchUpRun(es, today, mintId).generated| ==>
      var t := CatchUpRun(es, today, mintId).generated[i];
      ToUSD(t, g) == (if t.currency == EGP then t.amount / g else t.amount)
  {
    CatchUpBookings(es, today, mintId);
  }

  lemma {:induction false} OfKindOfExpenses(xs: seq<Transaction>)
    requires forall i :: 0 <= i < |xs| ==> xs[i].kind == Expense
    ensures OfKind(xs, Expense) == xs && OfKind(xs, Revenue) == []
    decreases |xs|
  {
    if xs != [] {
      OfKindOfExpenses(xs[..|xs| - 1]);
      OfKindLast(xs, Expense);
      OfKindLast(xs, Revenue);
      assert xs == xs[..|xs| - 1] + [xs[|xs| - 1]];
    }
  }

  /**
   * Appending the bookings leaves the revenue total as it was and raises the
   * expense total by exactly their USD value.
   */
  lemma CatchUpTotals(ts: seq<Transaction>, es: seq<RecurringExpense>, today: CalDate, mintId: nat -> Id, g: Rate)
    ensures var gen := CatchUpRun(es, today, mintId).generated;
      && UnifiedBalances(ts + gen, g).totalRevenuesUSD == UnifiedBalances(ts, g).totalRevenuesUSD
      && UnifiedBalances(ts + gen, g).totalExpensesUSD == UnifiedBalances(ts, g).totalExpensesUSD + SumUSD(gen, g)
  {
    var gen := CatchUpRun(es, today, mintId).generated;
    CatchUpBookings(es, today, mintId);
    OfKindOfExpenses(gen);
    BalancesAppend(ts, gen, g);
  }

  /** A monthly expense due on the 15th, three months behind, books three expenses and moves to the 15th of this month. */
  lemma ThreeMonthsBehind()
    ensures DueDatesBefore(Date(2024, 1, 15), Monthly, Date(2024, 4, 10))
         == [Date(2024, 1, 15), Date(2024, 2, 15), Date(2024, 3, 15)]
    ensures NextOnOrAfter(Date(2024, 1, 15), Monthly, Date(2024, 4, 10)) == Date(2024, 4, 15)
  {
    var today := Date(2024, 4, 10);
    assert Step(Date(2024, 1, 15), Monthly) == Date(2024, 2, 15);
    assert Step(Date(2024, 2, 15), Monthly) == Date(2024, 3, 15);
    assert Step(Date(2024, 3, 15), Monthly) == Date(2024, 4, 15);
    assert DueDatesBefore(Date(2024, 4, 15), Monthly, today) == [];
    assert DueDatesBefore(Date(2024, 3, 15), Monthly, today) == [Date(2024, 3, 15)];
    assert DueDatesBefore(Date(2024, 2, 15), Monthly, today) == [Date(2024, 2, 15), Date(2024, 3, 15)];
  }

  /**
   * A monthly expense due on 31 January 2023 drifts: the next due date is
   * 3 March, and the drifted day is kept on the step after.
   */
  lemma MonthEndDrift()
    ensures Iterate(Date(2023, 1, 31), Monthly, 1) == Date(2023, 3, 3)
    ensures Iterate(Date(2023, 1, 31), Monthly, 2) == Date(2023, 4, 3)
  {
    assert AddMonth(Date(2023, 1, 31)) == Date(2023, 3, 3);
  }

  /** A yearly expense due on 29 February 2024 falls due next on 1 March 2025. */
  lemma LeapDayYearly()
    ensures NextOnOrAfter(Date(2024, 2, 29), Yearly, Date(2024, 6, 1)) == Date(2025, 3, 1)
  {
    assert Step(Date(2024, 2, 29), Yearly) == Date(2025, 3, 1);
  }
}
