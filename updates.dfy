/**
 * The ledger's save and delete handlers as functions of the collections
 * they replace: the newest-first order of transactions, the transaction
 * modal's submission and the rate stamping of a save, recurring-expense
 * saves, disbursement sheets and their records, and projects.
 */
module Updates {
  import opened Wrappers
  import opened Dates
  import opened Types
  import opened Collections
  import opened Recurrence

  // ------------------------------------------------------ newest-first order

  /** No transaction is dated before a later one in the list. */
  predicate NewestFirst(ts: seq<Transaction>) {
    forall i, j :: 0 <= i < j < |ts| ==> !Before(ts[i].date, ts[j].date)
  }

  /**
   * One step of the stable sort by descending date: `t` goes after every
   * transaction dated strictly later and before the others.
   */
  function InsertNewestFirst(t: Transaction, s: seq<Transaction>): (r: seq<Transaction>)
    ensures |r| == |s| + 1
    ensures multiset(r) == multiset(s) + multiset{t}
    decreases |s|
  {
    if s == [] || !Before(t.date, s[0].date) then [t] + s
    else
      assert s == [s[0]] + s[1..];
      [s[0]] + InsertNewestFirst(t, s[1..])
  }

  lemma NewestFirstTail(s: seq<Transaction>)
    requires s != [] && NewestFirst(s)
    ensures NewestFirst(s[1..])
  {
    forall i, j | 0 <= i < j < |s[1..]| ensures !Before(s[1..][i].date, s[1..][j].date) {
      assert s[1..][i] == s[i + 1] && s[1..][j] == s[j + 1];
    }
  }

  /** Inserting into a newest-first list keeps it newest-first. */
  lemma {:induction false} InsertKeepsNewestFirst(t: Transaction, s: seq<Transaction>)
    requires NewestFirst(s)
    ensures NewestFirst(InsertNewestFirst(t, s))
    decreases |s|
  {
    if s != [] && Before(t.date, s[0].date) {
      NewestFirstTail(s);
      InsertKeepsNewestFirst(t, s[1..]);
      var rest := InsertNewestFirst(t, s[1..]);
      forall j | 0 <= j < |rest|
        ensures !Before(s[0].date, rest[j].date)
      {
        assert rest[j] in multiset(rest);
        if rest[j] != t {
          var q :| 0 <= q < |s[1..]| && s[1..][q] == rest[j];
          assert s[q + 1] == rest[j];
        }
      }
      ConsKeepsNewestFirst(s[0], rest);
    }
  }

  /** A transaction no older than every one of a newest-first list can go in front of it. */
  lemma ConsKeepsNewestFirst(x: Transaction, rest: seq<Transaction>)
    requires NewestFirst(rest)
    requires forall j :: 0 <= j < |rest| ==> !Before(x.date, rest[j].date)
    ensures NewestFirst([x] + rest)
  {
    var r := [x] + rest;
    forall i, j | 0 <= i < j < |r| ensures !Before(r[i].date, r[j].date) {
      assert r[j] == rest[j - 1];
      if i > 0 {
        assert r[i] == rest[i - 1];
      }
    }
  }

  /** `sort((a, b) => date(b) - date(a))`: a stable sort, newest date first. */
  function SortNewestFirst(ts: seq<Transaction>): (r: seq<Transaction>)
    ensures |r| == |ts|
    ensures multiset(r) == multiset(ts)
    ensures NewestFirst(r)
    decreases |ts|
  {
    if ts == [] then []
    else
      assert ts == [ts[0]] + ts[1..];
      InsertKeepsNewestFirst(ts[0], SortNewestFirst(ts[1..]));
      InsertNewestFirst(ts[0], SortNewestFirst(ts[1..]))
  }

  /** A list already newest-first is left exactly as it is. */
  lemma {:induction false} SortKeepsSortedList(ts: seq<Transaction>)
    requires NewestFirst(ts)
    ensures SortNewestFirst(ts) == ts
    decreases |ts|
  {
    if ts != [] {
      NewestFirstTail(ts);
      SortKeepsSortedList(ts[1..]);
      assert ts == [ts[0]] + ts[1..];
    }
  }

  lemma {:induction false} InsertKeepsUnique(t: Transaction, s: seq<Transaction>)
    requires UniqueKeys(s, TxId)
    requires forall i :: 0 <= i < |s| ==> s[i].id != t.id
    ensures UniqueKeys(InsertNewestFirst(t, s), TxId)
    decreases |s|
  {
    if s != [] && Before(t.date, s[0].date) {
      var rest := InsertNewestFirst(t, s[1..]);
      InsertKeepsUnique(t, s[1..]);
      forall j | 0 <= j < |rest|
        ensures rest[j].id != s[0].id
      {
        assert rest[j] in multiset(rest);
        if rest[j] != t {
          var q :| 0 <= q < |s[1..]| && s[1..][q] == rest[j];
          assert s[q + 1] == rest[j];
        }
      }
    }
  }

  /** Sorting neither drops nor duplicates an id. */
  lemma {:induction false} SortKeepsUnique(ts: seq<Transaction>)
    requires UniqueKeys(ts, TxId)
    ensures UniqueKeys(SortNewestFirst(ts), TxId)
    decreases |ts|
  {
    if ts != [] {
      var tail := ts[1..];
      assert UniqueKeys(tail, TxId) by {
        forall i, j | 0 <= i < j < |tail| ensures TxId(tail[i]) != TxId(tail[j]) {
          assert tail[i] == ts[i + 1] && tail[j] == ts[j + 1];
        }
      }
      SortKeepsUnique(tail);
      var sorted := SortNewestFirst(tail);
      forall i | 0 <= i < |sorted|
        ensures sorted[i].id != ts[0].id
      {
        assert sorted[i] in multiset(tail);
        var q :| 0 <= q < |tail| && tail[q] == sorted[i];
        assert ts[q + 1] == sorted[i];
      }
      InsertKeepsUnique(ts[0], sorted);
    }
  }

  // ---------------------------------------------------- saving transactions

  /**
   * The transaction modal's fields. `rate` is the rate field when it holds a
   * number; an empty field is `None`.
   */
  datatype TransactionForm = TransactionForm(
    kind: TransactionType,
    amount: real,
    currency: Currency,
    date: CalDate,
    description: string,
    category: Category,
    receiptImage: Option<string>,
    recipient: Option<string>,
    projectId: Option<Id>,
    rate: Option<real>)

  predicate IsEgpExpense(t: Transaction) {
    t.kind == Expense && t.currency == EGP
  }

  /**
   * The modal's submission. It starts from the transaction being edited, so
   * a rate that transaction carried is kept unless the form is an EGP
   * expense with a positive rate typed in; a new transaction has id "".
   */
  function SubmitForm(toEdit: Option<Transaction>, f: TransactionForm): (sub: Transaction)
    ensures sub.id == (if toEdit.Some? then toEdit.value.id else "")
    ensures sub.kind == f.kind && sub.amount == f.amount && sub.currency == f.currency && sub.date == f.date
    ensures sub.category == f.category && sub.projectId == f.projectId
    ensures f.kind == Expense && f.currency == EGP && f.rate.Some? && f.rate.value > 0.0 ==>
      sub.exchangeRate == Some(f.rate.value)
    ensures !(f.kind == Expense && f.currency == EGP && f.rate.Some? && f.rate.value > 0.0) ==>
      sub.exchangeRate == (if toEdit.Some? then toEdit.value.exchangeRate else None)
  {
    var carried: Option<Rate> := if toEdit.Some? then toEdit.value.exchangeRate else None;
    var rate: Option<Rate> :=
      if f.kind == Expense && f.currency == EGP && f.rate.Some? && f.rate.value > 0.0 then Some(f.rate.value)
      else carried;
    Transaction(if toEdit.Some? then toEdit.value.id else "", f.kind, f.amount, f.currency, f.date,
      f.description, f.category, f.receiptImage, f.recipient, rate, f.projectId)
  }

  /** The edit path: an EGP expense keeps a supplied rate or gets the global one; any other loses its rate. */
  function Edited(sub: Transaction, g: Rate): (t: Transaction)
    ensures t.(exchangeRate := sub.exchangeRate) == sub
    ensures IsEgpExpense(sub) ==> t.exchangeRate == (if sub.exchangeRate.Some? then sub.exchangeRate else Some(g))
    ensures !IsEgpExpense(sub) ==> t.exchangeRate == None
    ensures RateWellPlaced(t)
  {
    if IsEgpExpense(sub) then
      if sub.exchangeRate.None? then sub.(exchangeRate := Some(g)) else sub
    else sub.(exchangeRate := None)
  }

  /** The add path: a fresh id, and an EGP expense stamped with the global rate. */
  function Added(sub: Transaction, freshId: Id, g: Rate): (t: Transaction)
    ensures t.(id := sub.id, exchangeRate := sub.exchangeRate) == sub
    ensures t.id == freshId
    ensures IsEgpExpense(sub) ==> t.exchangeRate == Some(g)
    ensures !IsEgpExpense(sub) ==> t.exchangeRate == sub.exchangeRate
  {
    if IsEgpExpense(sub) then sub.(id := freshId, exchangeRate := Some(g))
    else sub.(id := freshId)
  }

  /**
   * `saveTransaction`: edit in place the transaction with the submission's
   * id (nothing when there is none), or append a new one, then sort newest
   * first.
   */
  function SavedTransactions(ts: seq<Transaction>, sub: Transaction, g: Rate, freshId: Id): (r: seq<Transaction>)
    ensures NewestFirst(r)
    ensures sub.id != "" ==> multiset(r) == multiset(Replace(ts, TxId, Edited(sub, g)))
    ensures sub.id != "" && IndexOf(ts, TxId, sub.id) == -1 ==> multiset(r) == multiset(ts)
    ensures sub.id == "" ==> multiset(r) == multiset(ts) + multiset{Added(sub, freshId, g)}
  {
    if sub.id != "" then SortNewestFirst(Replace(ts, TxId, Edited(sub, g)))
    else SortNewestFirst(ts + [Added(sub, freshId, g)])
  }

  /** A save keeps ids distinct when the fresh id is unused. */
  lemma SaveKeepsIdsUnique(ts: seq<Transaction>, sub: Transaction, g: Rate, freshId: Id)
    requires UniqueKeys(ts, TxId)
    requires sub.id == "" ==> freshId !in Keys(ts, TxId)
    ensures UniqueKeys(SavedTransactions(ts, sub, g, freshId), TxId)
  {
    if sub.id != "" {
      var edited := Replace(ts, TxId, Edited(sub, g));
      assert Keys(edited, TxId) == Keys(ts, TxId);
      assert UniqueKeys(edited, TxId) by {
        forall i, j | 0 <= i < j < |edited| ensures TxId(edited[i]) != TxId(edited[j]) {
          assert Keys(edited, TxId)[i] == Keys(ts, TxId)[i] && Keys(edited, TxId)[j] == Keys(ts, TxId)[j];
        }
      }
      SortKeepsUnique(edited);
    } else {
      AppendFreshKeepsUnique(ts, TxId, Added(sub, freshId, g));
      SortKeepsUnique(ts + [Added(sub, freshId, g)]);
    }
  }

  /**
   * A save keeps every rate snapshot on an EGP expense, provided a new
   * submission does not carry a misplaced one (the modal never does).
   */
  lemma SaveKeepsRatesWellPlaced(ts: seq<Transaction>, sub: Transaction, g: Rate, freshId: Id)
    requires forall i :: 0 <= i < |ts| ==> RateWellPlaced(ts[i])
    requires sub.id == "" ==> RateWellPlaced(sub)
    ensures forall i :: 0 <= i < |SavedTransactions(ts, sub, g, freshId)| ==> RateWellPlaced(SavedTransactions(ts, sub, g, freshId)[i])
  {
    var r := SavedTransactions(ts, sub, g, freshId);
    if sub.id != "" {
      ReplaceKeepsRatesWellPlaced(ts, Edited(sub, g));
      PermutationKeepsRatesWellPlaced(Replace(ts, TxId, Edited(sub, g)), r);
    } else {
      var before := ts + [Added(sub, freshId, g)];
      assert forall q :: 0 <= q < |before| ==> RateWellPlaced(before[q]);
      PermutationKeepsRatesWellPlaced(before, r);
    }
  }

  /** Overwriting one transaction by a well-placed one keeps every rate well placed. */
  lemma ReplaceKeepsRatesWellPlaced(ts: seq<Transaction>, x: Transaction)
    requires forall i :: 0 <= i < |ts| ==> RateWellPlaced(ts[i])
    requires RateWellPlaced(x)
    ensures forall q :: 0 <= q < |ts| ==> RateWellPlaced(Replace(ts, TxId, x)[q])
  {
  }

  /** Rearranging a list keeps every rate snapshot where it was. */
  lemma PermutationKeepsRatesWellPlaced(a: seq<Transaction>, b: seq<Transaction>)
    requires multiset(a) == multiset(b)
    requires forall q :: 0 <= q < |a| ==> RateWellPlaced(a[q])
    ensures forall i :: 0 <= i < |b| ==> RateWellPlaced(b[i])
  {
    forall i | 0 <= i < |b| ensures RateWellPlaced(b[i]) {
      assert b[i] in multiset(a);
      var q :| 0 <= q < |a| && a[q] == b[i];
    }
  }

  /** A new form never carries a misplaced rate. */
  lemma NewFormPlacesRate(f: TransactionForm)
    ensures RateWellPlaced(SubmitForm(None, f))
  {
  }

  /**
   * Editing an EGP expense that carried rate r0 and submitting the form with
   * the rate field cleared keeps r0: the modal's submission carries it, so
   * the save does not fall back to the global rate, whatever it is now.
   */
  lemma EditKeepsCarriedRate(ts: seq<Transaction>, stored: Transaction, f: TransactionForm, g: Rate, freshId: Id, r0: Rate)
    requires stored.id != "" && stored.exchangeRate == Some(r0)
    requires IndexOf(ts, TxId, stored.id) >= 0
    requires f.kind == Expense && f.currency == EGP && f.rate.None?
    ensures var saved := Edited(SubmitForm(Some(stored), f), g);
      saved.exchangeRate == Some(r0) && saved in SavedTransactions(ts, SubmitForm(Some(stored), f), g, freshId)
  {
    var sub := SubmitForm(Some(stored), f);
    var edited := Replace(ts, TxId, Edited(sub, g));
    assert Edited(sub, g) in multiset(edited);
  }

  /** A rate typed into the form of a new EGP expense is replaced by the global rate on save. */
  lemma NewEgpExpenseGetsGlobalRate(ts: seq<Transaction>, f: TransactionForm, g: Rate, freshId: Id)
    requires f.kind == Expense && f.currency == EGP
    ensures var saved := Added(SubmitForm(None, f), freshId, g);
      saved.exchangeRate == Some(g) && saved.id == freshId && saved in SavedTransactions(ts, SubmitForm(None, f), g, freshId)
  {
    var saved := Added(SubmitForm(None, f), freshId, g);
    assert saved in multiset(ts + [saved]);
  }

  /** Saving an edit whose id is unknown only re-sorts the list. */
  lemma SaveUnknownEditOnlySorts(ts: seq<Transaction>, sub: Transaction, g: Rate, freshId: Id)
    requires sub.id != "" && IndexOf(ts, TxId, sub.id) == -1
    ensures SavedTransactions(ts, sub, g, freshId) == SortNewestFirst(ts)
  {
  }

  // ------------------------------------------------------- recurring expenses

  /**
   * `saveRecurringExpense`: on edit the submission replaces the stored
   * expense (nothing when the id is unknown), on add it is appended with a
   * fresh id; either way the due date is recomputed from the start date.
   */
  function SavedRecurring(es: seq<RecurringExpense>, sub: RecurringExpense, freshId: Id, today: CalDate): (r: seq<RecurringExpense>)
    ensures sub.id != "" ==> Keys(r, ExpenseId) == Keys(es, ExpenseId)
    ensures sub.id == "" ==> Keys(r, ExpenseId) == Keys(es, ExpenseId) + [freshId]
    ensures var i := IndexOf(es, ExpenseId, sub.id);
      sub.id != "" && i >= 0 ==>
        && |r| == |es|
        && r[i] == sub.(nextDueDate := NextOnOrAfter(sub.startDate, sub.frequency, today))
        && forall j :: 0 <= j < |es| && j != i ==> r[j] == es[j]
    ensures sub.id != "" && IndexOf(es, ExpenseId, sub.id) == -1 ==> r == es
    ensures sub.id == "" ==>
      r == es + [sub.(id := freshId, nextDueDate := NextOnOrAfter(sub.startDate, sub.frequency, today))]
  {
    var due := NextOnOrAfter(sub.startDate, sub.frequency, today);
    if sub.id != "" then Replace(es, ExpenseId, sub.(nextDueDate := due))
    else
      var added := es + [sub.(id := freshId, nextDueDate := due)];
      assert Keys(added, ExpenseId) == Keys(es, ExpenseId) + [freshId];
      added
  }

  /**
   * The saved expense is found under its id with a due date on its start
   * date's chain and not before today, so a catch-up that same day books
   * nothing for it.
   */
  lemma SavedRecurringNotOverdue(es: seq<RecurringExpense>, sub: RecurringExpense, freshId: Id, today: CalDate, mintId: nat -> Id, base: nat)
    requires sub.id != "" ==> IndexOf(es, ExpenseId, sub.id) >= 0
    ensures var r := SavedRecurring(es, sub, freshId, today);
      var i := if sub.id != "" then IndexOf(es, ExpenseId, sub.id) else |es|;
      && 0 <= i < |r|
      && r[i].startDate == sub.startDate && r[i].frequency == sub.frequency && r[i].amount == sub.amount
      && r[i].nextDueDate == Iterate(sub.startDate, sub.frequency, |DueDatesBefore(sub.startDate, sub.frequency, today)|)
      && !Before(r[i].nextDueDate, today)
      && Advance(r[i], today, mintId, base).generated == []
  {
    NextDueIsFirstOnChain(sub.startDate, sub.frequency, today);
  }

  // ------------------------------------------------------------ disbursements

  /** `handleSaveDisbursementSheet`: rename in place, or append an empty sheet and report its id. */
  function SavedSheets(sheets: seq<DisbursementSheet>, sheet: DisbursementSheet, freshId: Id, createdAt: string)
    : (r: (seq<DisbursementSheet>, Option<Id>))
    ensures sheet.id != "" ==> r.1 == None && Keys(r.0, SheetId) == Keys(sheets, SheetId)
    ensures var i := IndexOf(sheets, SheetId, sheet.id);
      sheet.id != "" && i >= 0 ==>
        |r.0| == |sheets| && r.0[i] == sheet && forall j :: 0 <= j < |sheets| && j != i ==> r.0[j] == sheets[j]
    ensures sheet.id != "" && IndexOf(sheets, SheetId, sheet.id) == -1 ==> r.0 == sheets
    ensures sheet.id == "" ==> r.1 == Some(freshId) && r.0 == sheets + [DisbursementSheet(freshId, sheet.name, createdAt, [])]
  {
    if sheet.id != "" then (Replace(sheets, SheetId, sheet), None)
    else (sheets + [DisbursementSheet(freshId, sheet.name, createdAt, [])], Some(freshId))
  }

  /**
   * `handleSaveDisbursementRecord`: in the sheet with id `sheetId`, edit the
   * record in place or append it with a fresh id; an unknown sheet leaves
   * everything as it was, and no other sheet changes.
   */
  function SavedRecord(sheets: seq<DisbursementSheet>, sheetId: Id, rec: DisbursementRecord, freshId: Id): (r: seq<DisbursementSheet>)
    ensures |r| == |sheets|
    ensures IndexOf(sheets, SheetId, sheetId) == -1 ==> r == sheets
    ensures forall j :: 0 <= j < |sheets| && j != IndexOf(sheets, SheetId, sheetId) ==> r[j] == sheets[j]
    ensures var i := IndexOf(sheets, SheetId, sheetId);
      i >= 0 ==> (r[i].(records := sheets[i].records) == sheets[i] &&
                  r[i].records == (if rec.id != "" then Replace(sheets[i].records, RecordId, rec)
                                   else sheets[i].records + [rec.(id := freshId)]))
  {
    var i := IndexOf(sheets, SheetId, sheetId);
    if i == -1 then sheets
    else
      var records := if rec.id != "" then Replace(sheets[i].records, RecordId, rec)
                     else sheets[i].records + [rec.(id := freshId)];
      sheets[i := sheets[i].(records := records)]
  }

  /** `handleDeleteDisbursementRecord`: filter the record out of one sheet; an unknown sheet leaves everything as it was. */
  function DeletedRecord(sheets: seq<DisbursementSheet>, sheetId: Id, recordId: Id): (r: seq<DisbursementSheet>)
    ensures |r| == |sheets|
    ensures IndexOf(sheets, SheetId, sheetId) == -1 ==> r == sheets
    ensures forall j :: 0 <= j < |sheets| && j != IndexOf(sheets, SheetId, sheetId) ==> r[j] == sheets[j]
    ensures var i := IndexOf(sheets, SheetId, sheetId);
      i >= 0 ==> (r[i].(records := sheets[i].records) == sheets[i] &&
                  forall k :: 0 <= k < |r[i].records| ==> r[i].records[k].id != recordId)
    ensures var i := IndexOf(sheets, SheetId, sheetId);
      i >= 0 ==> r[i].records == RemoveById(sheets[i].records, RecordId, recordId)
  {
    var i := IndexOf(sheets, SheetId, sheetId);
    if i == -1 then sheets
    else sheets[i := sheets[i].(records := RemoveById(sheets[i].records, RecordId, recordId))]
  }

  /** Adding a record and then deleting it by its new id leaves the sheet's records as they were. */
  lemma AddThenDeleteRecord(sheets: seq<DisbursementSheet>, sheetId: Id, rec: DisbursementRecord, freshId: Id)
    requires rec.id == ""
    requires var i := IndexOf(sheets, SheetId, sheetId);
      i >= 0 ==> freshId !in Keys(sheets[i].records, RecordId)
    ensures DeletedRecord(SavedRecord(sheets, sheetId, rec, freshId), sheetId, freshId) == sheets
  {
    var i := IndexOf(sheets, SheetId, sheetId);
    if i >= 0 {
      var saved := SavedRecord(sheets, sheetId, rec, freshId);
      SavedRecordKeepsIndex(sheets, sheetId, rec, freshId);
      var recs := sheets[i].records;
      RemoveFreshAppended(recs, RecordId, rec.(id := freshId));
      var deleted := DeletedRecord(saved, sheetId, freshId);
      assert deleted[i] == sheets[i];
      assert forall j :: 0 <= j < |sheets| ==> deleted[j] == sheets[j];
    }
  }

  /** Saving a record leaves every sheet id in place, so the sheet is found where it was. */
  lemma SavedRecordKeepsIndex(sheets: seq<DisbursementSheet>, sheetId: Id, rec: DisbursementRecord, freshId: Id)
    ensures IndexOf(SavedRecord(sheets, sheetId, rec, freshId), SheetId, sheetId) == IndexOf(sheets, SheetId, sheetId)
  {
    var saved := SavedRecord(sheets, sheetId, rec, freshId);
    forall j | 0 <= j < |sheets| ensures saved[j].id == sheets[j].id {
    }
  }

  // ----------------------------------------------------------------- projects

  /** `handleDeleteProject`, first half: clear the link on exactly the transactions of that project. */
  function UnlinkProject(ts: seq<Transaction>, projectId: Id): (r: seq<Transaction>)
    ensures |r| == |ts|
    ensures Keys(r, TxId) == Keys(ts, TxId)
    ensures forall i :: 0 <= i < |ts| ==> r[i].(projectId := ts[i].projectId) == ts[i]
    ensures forall i :: 0 <= i < |ts| ==>
      r[i].projectId == (if ts[i].projectId == Some(projectId) then None else ts[i].projectId)
  {
    seq(|ts|, i requires 0 <= i < |ts| =>
      if ts[i].projectId == Some(projectId) then ts[i].(projectId := None) else ts[i])
  }

  /**
   * After the unlink no transaction refers to the project, a transaction
   * changes exactly when it referred to it, and the order is unchanged.
   */
  lemma UnlinkIsExact(ts: seq<Transaction>, projectId: Id)
    ensures forall i :: 0 <= i < |ts| ==> UnlinkProject(ts, projectId)[i].projectId != Some(projectId)
    ensures forall i :: 0 <= i < |ts| ==> (UnlinkProject(ts, projectId)[i] != ts[i] <==> ts[i].projectId == Some(projectId))
  {
  }

  /** `handleSaveProject`: replace in place, or append with a fresh id. */
  function SavedProjects(projects: seq<Project>, p: Project, freshId: Id): (r: seq<Project>)
    ensures p.id != "" ==> Keys(r, ProjectId) == Keys(projects, ProjectId)
    ensures var i := IndexOf(projects, ProjectId, p.id);
      p.id != "" && i >= 0 ==>
        |r| == |projects| && r[i] == p && forall j :: 0 <= j < |projects| && j != i ==> r[j] == projects[j]
    ensures p.id != "" && IndexOf(projects, ProjectId, p.id) == -1 ==> r == projects
    ensures p.id == "" ==> r == projects + [p.(id := freshId)]
  {
    if p.id != "" then Replace(projects, ProjectId, p) else projects + [p.(id := freshId)]
  }
}
