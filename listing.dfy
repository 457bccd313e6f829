/**
 * The list utilities of the transaction pages and the report: the filter
 * panels, ten-per-page pagination, the report's category multi-select,
 * the project column of a transaction row, and which disbursement sheet
 * becomes active after the active one is deleted.
 */
module Listing {
  import opened Wrappers
  import opened Dates
  import opened Types
  import opened Normaliser
  import opened Aggregation
  import opened Collections

  // ---------------------------------------------------------------- filters

  /**
   * The filter panel of a transaction page. An empty input is `None`; date
   * bounds are inclusive calendar dates, amount bounds inclusive.
   */
  datatype Filters = Filters(
    dateFrom: Option<CalDate>,
    dateTo: Option<CalDate>,
    amountMin: Option<real>,
    amountMax: Option<real>,
    category: Option<Category>)

  const NoFilters := Filters(None, None, None, None, None)

  /** A transaction survives the filter panel when it meets every bound that is set. */
  predicate PassesFilters(t: Transaction, f: Filters) {
    && (f.dateFrom.Some? ==> !Before(t.date, f.dateFrom.value))
    && (f.dateTo.Some? ==> !Before(f.dateTo.value, t.date))
    && (f.amountMin.Some? ==> t.amount >= f.amountMin.value)
    && (f.amountMax.Some? ==> t.amount <= f.amountMax.value)
    && (f.category.Some? ==> t.category == f.category.value)
  }

  /**
   * The report's filters: inclusive date bounds, a type (`None` for all
   * types) and a set of categories (empty for all categories).
   */
  datatype ReportFilters = ReportFilters(
    dateFrom: Option<CalDate>,
    dateTo: Option<CalDate>,
    kind: Option<TransactionType>,
    categories: seq<Category>)

  predicate PassesReport(t: Transaction, f: ReportFilters) {
    && (f.dateFrom.Some? ==> !Before(t.date, f.dateFrom.value))
    && (f.dateTo.Some? ==> !Before(f.dateTo.value, t.date))
    && (f.kind.Some? ==> t.kind == f.kind.value)
    && (|f.categories| > 0 ==> t.category in f.categories)
  }

  /** `filter`: the transactions that `keep` accepts, in their original order. */
  function Select(ts: seq<Transaction>, keep: Transaction -> bool): (r: seq<Transaction>)
    ensures |r| <= |ts|
    ensures forall j :: 0 <= j < |r| ==> keep(r[j]) && r[j] in ts
    ensures forall j :: 0 <= j < |ts| && keep(ts[j]) ==> ts[j] in r
    decreases |ts|
  {
    if ts == [] then []
    else
      var init := ts[..|ts| - 1];
      var last := ts[|ts| - 1];
      assert ts == init + [last];
      Select(init, keep) + (if keep(last) then [last] else [])
  }

  /** A single transaction is kept exactly when `keep` accepts it. */
  lemma SelectSingle(t: Transaction, keep: Transaction -> bool)
    ensures Select([t], keep) == if keep(t) then [t] else []
  {
    assert [t][..0] == [];
  }

  /**
   * Selecting from a concatenation selects from each part and keeps them in
   * order; with `SelectSingle` this pins the result down to the accepted
   * transactions in their original order, each as often as it occurs.
   */
  lemma {:induction false} SelectAppend(a: seq<Transaction>, b: seq<Transaction>, keep: Transaction -> bool)
    ensures Select(a + b, keep) == Select(a, keep) + Select(b, keep)
    decreases |b|
  {
    if b == [] {
      assert a + b == a;
    } else {
      var init, last := b[..|b| - 1], b[|b| - 1];
      SelectAppend(a, init, keep);
      assert (a + b)[..|a + b| - 1] == a + init;
      assert (a + b)[|a + b| - 1] == last;
    }
  }

  /** The transaction page's filtered list. */
  function FilterTransactions(ts: seq<Transaction>, f: Filters): (r: seq<Transaction>)
    ensures forall j :: 0 <= j < |r| ==> PassesFilters(r[j], f) && r[j] in ts
    ensures forall j :: 0 <= j < |ts| && PassesFilters(ts[j], f) ==> ts[j] in r
  {
    Select(ts, t => PassesFilters(t, f))
  }

  /** The report's filtered list. */
  function FilterReport(ts: seq<Transaction>, f: ReportFilters): (r: seq<Transaction>)
    ensures forall j :: 0 <= j < |r| ==> PassesReport(r[j], f) && r[j] in ts
    ensures forall j :: 0 <= j < |ts| && PassesReport(ts[j], f) ==> ts[j] in r
  {
    Select(ts, t => PassesReport(t, f))
  }

  /** The transaction page's filter keeps the list's order: it filters each part of a concatenation. */
  lemma FilterTransactionsInOrder(a: seq<Transaction>, b: seq<Transaction>, t: Transaction, f: Filters)
    ensures FilterTransactions(a + b, f) == FilterTransactions(a, f) + FilterTransactions(b, f)
    ensures FilterTransactions([t], f) == if PassesFilters(t, f) then [t] else []
  {
    SelectAppend(a, b, t => PassesFilters(t, f));
    SelectSingle(t, t => PassesFilters(t, f));
  }

  /** The report's filter keeps the list's order: it filters each part of a concatenation. */
  lemma FilterReportInOrder(a: seq<Transaction>, b: seq<Transaction>, t: Transaction, f: ReportFilters)
    ensures FilterReport(a + b, f) == FilterReport(a, f) + FilterReport(b, f)
    ensures FilterReport([t], f) == if PassesReport(t, f) then [t] else []
  {
    SelectAppend(a, b, t => PassesReport(t, f));
    SelectSingle(t, t => PassesReport(t, f));
  }

  /** When every transaction is kept, selecting changes nothing. */
  lemma {:induction false} SelectAll(ts: seq<Transaction>, keep: Transaction -> bool)
    requires forall j :: 0 <= j < |ts| ==> keep(ts[j])
    ensures Select(ts, keep) == ts
    decreases |ts|
  {
    if ts != [] {
      var init := ts[..|ts| - 1];
      forall j | 0 <= j < |init| ensures keep(init[j]) {
        assert init[j] == ts[j];
      }
      SelectAll(init, keep);
      assert keep(ts[|ts| - 1]);
      assert ts == init + [ts[|ts| - 1]];
    }
  }

  /** Cleared filters show the whole list. */
  lemma ClearedFiltersKeepAll(ts: seq<Transaction>)
    ensures FilterTransactions(ts, NoFilters) == ts
  {
    SelectAll(ts, t => PassesFilters(t, NoFilters));
  }

  /** A report filtered on a type alone lists exactly the transactions of that type, in order. */
  lemma {:induction false} ReportByTypeIsOfKind(ts: seq<Transaction>, k: TransactionType)
    ensures FilterReport(ts, ReportFilters(None, None, Some(k), [])) == OfKind(ts, k)
    decreases |ts|
  {
    if ts != [] {
      ReportByTypeIsOfKind(ts[..|ts| - 1], k);
      OfKindLast(ts, k);
    }
  }

  /**
   * `reportSummary`: the revenue and expense totals of the filtered report,
   * normalised as the dashboard totals are.
   */
  function ReportSummary(ts: seq<Transaction>, f: ReportFilters, g: Rate): (totals: (real, real))
    ensures totals.0 == SumUSD(OfKind(FilterReport(ts, f), Revenue), g)
    ensures totals.1 == SumUSD(OfKind(FilterReport(ts, f), Expense), g)
  {
    Accumulate(FilterReport(ts, f), g)
  }

  /** With no filter set, the report's totals are the dashboard's totals. */
  lemma UnfilteredReportMatchesDashboard(ts: seq<Transaction>, g: Rate)
    ensures ReportSummary(ts, ReportFilters(None, None, None, []), g).0 == UnifiedBalances(ts, g).totalRevenuesUSD
    ensures ReportSummary(ts, ReportFilters(None, None, None, []), g).1 == UnifiedBalances(ts, g).totalExpensesUSD
  {
    SelectAll(ts, t => PassesReport(t, ReportFilters(None, None, None, [])));
  }

  /**
   * `expenseDistributionData`: the report's expenses by category; the
   * entries add up to the report's expense total.
   */
  function ExpenseDistribution(ts: seq<Transaction>, f: ReportFilters, g: Rate): (r: seq<CategoryTotal>)
    ensures Total(r) == ReportSummary(ts, f, g).1
    ensures forall c :: Lookup(r, c) == CategorySum(FilterReport(ts, f), c, g)
  {
    ByCategoryAddsUpToExpenses(FilterReport(ts, f), g);
    ExpensesByCategory(FilterReport(ts, f), g)
  }

  // ------------------------------------------------------------- pagination

  const ItemsPerPage: nat := 10

  /** `Math.ceil(n / 10)`: the fewest pages of ten that hold n rows. */
  function TotalPages(n: nat): (p: nat)
    ensures p * ItemsPerPage >= n
    ensures p > 0 ==> (p - 1) * ItemsPerPage < n
  {
    (n + ItemsPerPage - 1) / ItemsPerPage
  }

  /**
   * `slice((page - 1) * 10, (page - 1) * 10 + 10)` for a page number of at
   * least 1: up to ten rows starting at the page's first index, and none for
   * a page past the end.
   */
  function PageSlice(s: seq<Transaction>, page: nat): (r: seq<Transaction>)
    requires page >= 1
    ensures |r| <= ItemsPerPage
    ensures (page - 1) * ItemsPerPage >= |s| ==> r == []
    ensures |r| > 0 ==> (page - 1) * ItemsPerPage + |r| <= |s|
    ensures forall k :: 0 <= k < |r| ==> r[k] == s[(page - 1) * ItemsPerPage + k]
    ensures (page - 1) * ItemsPerPage + ItemsPerPage <= |s| ==> |r| == ItemsPerPage
  {
    var start := (page - 1) * ItemsPerPage;
    if start >= |s| then []
    else if start + ItemsPerPage <= |s| then s[start..start + ItemsPerPage]
    else s[start..]
  }

  /** Every row is on exactly one page: row i is row i % 10 of page i / 10 + 1, which is not past the last page. */
  lemma RowOnItsPage(s: seq<Transaction>, i: nat)
    requires i < |s|
    ensures 1 <= i / ItemsPerPage + 1 <= TotalPages(|s|)
    ensures i % ItemsPerPage < |PageSlice(s, i / ItemsPerPage + 1)|
    ensures PageSlice(s, i / ItemsPerPage + 1)[i % ItemsPerPage] == s[i]
  {
  }

  /** The previous-page button: one page back, never before page 1. */
  function PrevPage(p: int): (q: int)
    ensures q >= 1
    ensures p > 1 ==> q == p - 1
    ensures p <= 1 ==> q == 1
  {
    if 1 > p - 1 then 1 else p - 1
  }

  /** The next-page button: one page on, never past the last page. */
  function NextPage(p: int, totalPages: int): (q: int)
    ensures q <= totalPages
    ensures p < totalPages ==> q == p + 1
    ensures p >= totalPages ==> q == totalPages
  {
    if totalPages < p + 1 then totalPages else p + 1
  }

  /** From any page in [1, totalPages] both buttons stay in [1, totalPages]. */
  lemma PageButtonsStayInRange(p: int, totalPages: int)
    requires 1 <= p <= totalPages
    ensures 1 <= PrevPage(p) <= totalPages
    ensures 1 <= NextPage(p, totalPages) <= totalPages
  {
  }

  /**
   * The transaction page does not reset its page when the filters narrow the
   * list, so the page can lie past the end; the next-page button then jumps
   * back to the last page.
   */
  lemma NextPageFromStalePage(p: int, totalPages: int)
    requires p > totalPages
    ensures NextPage(p, totalPages) == totalPages < p
  {
  }

  // -------------------------------------------------- category multi-select

  /** Ticking a category in the report's multi-select: remove it when chosen, else append it. */
  function ToggleCategory(cs: seq<Category>, c: Category): (r: seq<Category>)
    ensures c in r <==> c !in cs
    ensures forall x :: x != c ==> (x in r <==> x in cs)
    ensures c !in cs ==> r == cs + [c]
    decreases |cs|
  {
    if c in cs then RemoveCategory(cs, c) else cs + [c]
  }

  /** `filter(x => x !== c)` on the chosen categories. */
  function RemoveCategory(cs: seq<Category>, c: Category): (r: seq<Category>)
    ensures forall x :: x in r <==> x in cs && x != c
    ensures c !in cs ==> r == cs
    decreases |cs|
  {
    if cs == [] then []
    else (if cs[0] == c then [] else [cs[0]]) + RemoveCategory(cs[1..], c)
  }

  /**
   * Ticking twice restores the choice: exactly, when the category was not
   * chosen; as a set, when it was (it moves to the end).
   */
  lemma ToggleTwice(cs: seq<Category>, c: Category)
    ensures c !in cs ==> ToggleCategory(ToggleCategory(cs, c), c) == cs
    ensures forall x :: x in ToggleCategory(ToggleCategory(cs, c), c) <==> x in cs
  {
    if c !in cs {
      assert cs + [c] != [] && c in cs + [c];
      assert RemoveCategory(cs + [c], c) == cs by {
        RemoveAppended(cs, c);
      }
    }
  }

  lemma {:induction false} RemoveAppended(cs: seq<Category>, c: Category)
    requires c !in cs
    ensures RemoveCategory(cs + [c], c) == cs
    decreases |cs|
  {
    if cs == [] {
      assert RemoveCategory([c], c) == [] + RemoveCategory([], c);
    } else {
      assert (cs + [c])[1..] == cs[1..] + [c];
      RemoveAppended(cs[1..], c);
      assert cs == [cs[0]] + cs[1..];
    }
  }

  // ---------------------------------------------------------- project column

  const NoProjectLabel: string := "-"
  const DeletedProjectLabel: string := "مشروع محذوف"

  /** The first project with the given id, as `find` returns it. */
  function FindProject(projects: seq<Project>, id: Id): (r: Option<Project>)
    ensures r.Some? <==> exists j :: 0 <= j < |projects| && projects[j].id == id
    ensures r.Some? ==> r.value in projects && r.value.id == id
    ensures r.Some? ==>
      exists k :: (0 <= k < |projects| && projects[k] == r.value && forall j :: 0 <= j < k ==> projects[j].id != id)
    decreases |projects|
  {
    if projects == [] then None
    else if projects[0].id == id then Some(projects[0])
    else
      var r := FindProject(projects[1..], id);
      assert forall j :: 0 < j < |projects| ==> projects[j] == projects[1..][j - 1];
      if r.Some? then
        var k :| 0 <= k < |projects[1..]| && projects[1..][k] == r.value &&
          forall j :: 0 <= j < k ==> projects[1..][j].id != id;
        assert projects[k + 1] == r.value;
        r
      else r
  }

  /**
   * The project column of a transaction row: "-" without a project link,
   * the project's name when it exists with a non-empty name, and the
   * deleted-project placeholder otherwise.
   */
  function ProjectLabel(t: Transaction, projects: seq<Project>): (shown: string)
    ensures t.projectId.None? || t.projectId == Some("") ==> shown == NoProjectLabel
    ensures t.projectId.Some? && t.projectId.value != "" && shown != DeletedProjectLabel ==>
      exists j :: 0 <= j < |projects| && projects[j].id == t.projectId.value && projects[j].name == shown
    ensures (t.projectId.Some? && t.projectId.value != "" &&
             forall j :: 0 <= j < |projects| ==> projects[j].id != t.projectId.value)
            ==> shown == DeletedProjectLabel
    ensures t.projectId.Some? && t.projectId.value != "" && FindProject(projects, t.projectId.value).Some? ==>
      var p := FindProject(projects, t.projectId.value).value;
      shown == (if p.name != "" then p.name else DeletedProjectLabel)
  {
    if t.projectId.None? || t.projectId.value == "" then NoProjectLabel
    else
      match FindProject(projects, t.projectId.value)
      case Some(p) => if p.name != "" then p.name else DeletedProjectLabel
      case None => DeletedProjectLabel
  }

  // ----------------------------------------------- active disbursement sheet

  /** The first sheet whose id differs from `id`. */
  function FirstOtherSheet(sheets: seq<DisbursementSheet>, id: Id): (r: Option<Id>)
    ensures r.Some? <==> exists j :: 0 <= j < |sheets| && sheets[j].id != id
    ensures r.Some? ==> r.value != id && exists j :: 0 <= j < |sheets| && sheets[j].id == r.value
    ensures r.Some? ==>
      exists k :: (0 <= k < |sheets| && sheets[k].id == r.value && forall j :: 0 <= j < k ==> sheets[j].id == id)
    decreases |sheets|
  {
    if sheets == [] then None
    else if sheets[0].id != id then Some(sheets[0].id)
    else
      var r := FirstOtherSheet(sheets[1..], id);
      assert forall j :: 0 < j < |sheets| ==> sheets[j] == sheets[1..][j - 1];
      if r.Some? then
        var k :| 0 <= k < |sheets[1..]| && sheets[1..][k].id == r.value &&
          forall j :: 0 <= j < k ==> sheets[1..][j].id == id;
        assert sheets[k + 1].id == r.value;
        r
      else r
  }

  /**
   * The active sheet after sheet `deleted` is deleted from `sheets` (the list
   * before the deletion): unchanged unless it was the deleted one; then the
   * first other sheet when there was more than one sheet, else none.
   */
  function NextActiveSheet(sheets: seq<DisbursementSheet>, active: Option<Id>, deleted: Id): (r: Option<Id>)
    requires UniqueKeys(sheets, SheetId)
    ensures active != Some(deleted) ==> r == active
    ensures active == Some(deleted) && |sheets| <= 1 ==> r == None
    ensures active == Some(deleted) && |sheets| > 1 ==>
      r.Some? && r.value != deleted && r.value in Keys(RemoveById(sheets, SheetId, deleted), SheetId)
    ensures active == Some(deleted) && |sheets| > 1 ==>
      (r.Some? && exists k :: (0 <= k < |sheets| && sheets[k].id == r.value && forall j :: 0 <= j < k ==> sheets[j].id == deleted))
  {
    if active == Some(deleted) then
      if |sheets| > 1 then
        assert sheets[0].id != deleted || sheets[1].id != deleted;
        var other := FirstOtherSheet(sheets, deleted);
        var j :| 0 <= j < |sheets| && sheets[j].id == other.value;
        var rest := RemoveById(sheets, SheetId, deleted);
        assert sheets[j] in rest;
        var k :| 0 <= k < |rest| && rest[k] == sheets[j];
        assert Keys(rest, SheetId)[k] == other.value;
        other
      else None
    else active
  }
}
