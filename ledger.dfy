/**
 * The treasury's state and its handlers. Each handler copies a collection,
 * overwrites one position or appends, and replaces the collection; the
 * persistence call that follows each replacement is not modelled. Fresh ids
 * are parameters, as is "today".
 */
module Store {
  import opened Wrappers
  import opened Dates
  import opened Types
  import opened Collections
  import opened Recurrence
  import opened Updates

  class Ledger {
    var transactions: seq<Transaction>
    var recurringExpenses: seq<RecurringExpense>
    var disbursementSheets: seq<DisbursementSheet>
    var projects: seq<Project>
    var budgets: seq<Budget>
    var settings: AppSettings

    /** Ids are unique within each collection, and within each sheet's records. */
    predicate Valid()
      reads this
    {
      && UniqueKeys(transactions, TxId)
      && UniqueKeys(recurringExpenses, ExpenseId)
      && UniqueKeys(disbursementSheets, SheetId)
      && UniqueKeys(projects, ProjectId)
      && (forall i :: 0 <= i < |disbursementSheets| ==> UniqueKeys(disbursementSheets[i].records, RecordId))
    }

    /** The state as loaded from storage. */
    constructor(ts: seq<Transaction>, es: seq<RecurringExpense>, sheets: seq<DisbursementSheet>,
                ps: seq<Project>, bs: seq<Budget>, s: AppSettings)
      ensures transactions == ts && recurringExpenses == es && disbursementSheets == sheets
      ensures projects == ps && budgets == bs && settings == s
      ensures Valid() <==>
        && UniqueKeys(ts, TxId) && UniqueKeys(es, ExpenseId) && UniqueKeys(sheets, SheetId) && UniqueKeys(ps, ProjectId)
        && (forall i :: 0 <= i < |sheets| ==> UniqueKeys(sheets[i].records, RecordId))
    {
      transactions := ts;
      recurringExpenses := es;
      disbursementSheets := sheets;
      projects := ps;
      budgets := bs;
      settings := s;
    }

    /**
     * `saveTransaction`: edit the transaction with the submission's id, or
     * add it under `freshId`, stamping rates, then sort newest first.
     */
    method SaveTransaction(sub: Transaction, freshId: Id)
      requires Valid()
      requires sub.id == "" ==> freshId !in Keys(transactions, TxId)
      modifies this
      ensures transactions == SavedTransactions(old(transactions), sub, old(settings.usdToEgpRate), freshId)
      ensures recurringExpenses == old(recurringExpenses) && disbursementSheets == old(disbursementSheets)
      ensures projects == old(projects) && budgets == old(budgets) && settings == old(settings)
      ensures Valid()
    {
      var updated := transactions;
      var g := settings.usdToEgpRate;
      if sub.id != "" {
        var index := IndexOf(updated, TxId, sub.id);
        if index > -1 {
          updated := updated[index := Edited(sub, g)];
        }
      } else {
        updated := updated + [Added(sub, freshId, g)];
      }
      SaveKeepsIdsUnique(transactions, sub, g, freshId);
      transactions := SortNewestFirst(updated);
    }

    /** `deleteTransaction`: drop the transaction with that id. */
    method DeleteTransaction(id: Id)
      requires Valid()
      modifies this
      ensures transactions == RemoveById(old(transactions), TxId, id)
      ensures recurringExpenses == old(recurringExpenses) && disbursementSheets == old(disbursementSheets)
      ensures projects == old(projects) && budgets == old(budgets) && settings == old(settings)
      ensures Valid()
    {
      RemoveKeepsUnique(transactions, TxId, id);
      transactions := RemoveById(transactions, TxId, id);
    }

    /**
     * `saveRecurringExpense`: replace or add the expense, its due date
     * recomputed from its start date in both cases.
     */
    method SaveRecurringExpense(sub: RecurringExpense, freshId: Id, today: CalDate)
      requires Valid()
      requires sub.id == "" ==> freshId !in Keys(recurringExpenses, ExpenseId)
      modifies this
      ensures recurringExpenses == SavedRecurring(old(recurringExpenses), sub, freshId, today)
      ensures transactions == old(transactions) && disbursementSheets == old(disbursementSheets)
      ensures projects == old(projects) && budgets == old(budgets) && settings == old(settings)
      ensures Valid()
    {
      var updatedExpenses := recurringExpenses;
      var next := CalculateNextDueDate(sub.startDate, sub.frequency, today);
      if sub.id != "" {
        var index := IndexOf(updatedExpenses, ExpenseId, sub.id);
        if index > -1 {
          OverwriteKeepsUnique(updatedExpenses, ExpenseId, index, sub.(nextDueDate := next));
          updatedExpenses := updatedExpenses[index := sub.(nextDueDate := next)];
        }
      } else {
        AppendFreshKeepsUnique(updatedExpenses, ExpenseId, sub.(id := freshId, nextDueDate := next));
        updatedExpenses := updatedExpenses + [sub.(id := freshId, nextDueDate := next)];
      }
      recurringExpenses := updatedExpenses;
    }

    /** `deleteRecurringExpense`: drop the expense with that id. */
    method DeleteRecurringExpense(id: Id)
      requires Valid()
      modifies this
      ensures recurringExpenses == RemoveById(old(recurringExpenses), ExpenseId, id)
      ensures transactions == old(transactions) && disbursementSheets == old(disbursementSheets)
      ensures projects == old(projects) && budgets == old(budgets) && settings == old(settings)
      ensures Valid()
    {
      RemoveKeepsUnique(recurringExpenses, ExpenseId, id);
      recurringExpenses := RemoveById(recurringExpenses, ExpenseId, id);
    }

    /**
     * `handleSaveDisbursementSheet`: replace a sheet, or add an empty one
     * under `freshId` and return that id.
     */
    method SaveSheet(sheet: DisbursementSheet, freshId: Id, createdAt: string) returns (newId: Option<Id>)
      requires Valid()
      requires sheet.id == "" ==> freshId !in Keys(disbursementSheets, SheetId)
      requires sheet.id != "" ==> UniqueKeys(sheet.records, RecordId)
      modifies this
      ensures (disbursementSheets, newId) == SavedSheets(old(disbursementSheets), sheet, freshId, createdAt)
      ensures transactions == old(transactions) && recurringExpenses == old(recurringExpenses)
      ensures projects == old(projects) && budgets == old(budgets) && settings == old(settings)
      ensures Valid()
    {
      var updatedSheets := disbursementSheets;
      newId := None;
      if sheet.id != "" {
        var index := IndexOf(updatedSheets, SheetId, sheet.id);
        if index > -1 {
          OverwriteKeepsUnique(updatedSheets, SheetId, index, sheet);
          updatedSheets := updatedSheets[index := sheet];
        }
      } else {
        var newSheet := DisbursementSheet(freshId, sheet.name, createdAt, []);
        AppendFreshKeepsUnique(updatedSheets, SheetId, newSheet);
        updatedSheets := updatedSheets + [newSheet];
        newId := Some(freshId);
      }
      disbursementSheets := updatedSheets;
    }

    /** `handleDeleteDisbursementSheet`: drop the sheet with that id. */
    method DeleteSheet(id: Id)
      requires Valid()
      modifies this
      ensures disbursementSheets == RemoveById(old(disbursementSheets), SheetId, id)
      ensures transactions == old(transactions) && recurringExpenses == old(recurringExpenses)
      ensures projects == old(projects) && budgets == old(budgets) && settings == old(settings)
      ensures Valid()
    {
      RemoveKeepsUnique(disbursementSheets, SheetId, id);
      var remaining := RemoveById(disbursementSheets, SheetId, id);
      forall i | 0 <= i < |remaining| ensures UniqueKeys(remaining[i].records, RecordId) {
        var q :| 0 <= q < |disbursementSheets| && disbursementSheets[q] == remaining[i];
      }
      disbursementSheets := remaining;
    }

    /**
     * `handleSaveDisbursementRecord`: edit or add a record of one sheet; an
     * unknown sheet changes nothing.
     */
    method SaveRecord(sheetId: Id, rec: DisbursementRecord, freshId: Id)
      requires Valid()
      requires var i := IndexOf(disbursementSheets, SheetId, sheetId);
        rec.id == "" && i >= 0 ==> freshId !in Keys(disbursementSheets[i].records, RecordId)
      modifies this
      ensures disbursementSheets == SavedRecord(old(disbursementSheets), sheetId, rec, freshId)
      ensures transactions == old(transactions) && recurringExpenses == old(recurringExpenses)
      ensures projects == old(projects) && budgets == old(budgets) && settings == old(settings)
      ensures Valid()
    {
      var updatedSheets := disbursementSheets;
      var sheetIndex := IndexOf(updatedSheets, SheetId, sheetId);
      if sheetIndex == -1 {
        return;
      }
      var sheet := updatedSheets[sheetIndex];
      var records := sheet.records;
      if rec.id != "" {
        var recordIndex := IndexOf(records, RecordId, rec.id);
        if recordIndex > -1 {
          OverwriteKeepsUnique(records, RecordId, recordIndex, rec);
          records := records[recordIndex := rec];
        }
      } else {
        AppendFreshKeepsUnique(records, RecordId, rec.(id := freshId));
        records := records + [rec.(id := freshId)];
      }
      OverwriteKeepsUnique(updatedSheets, SheetId, sheetIndex, sheet.(records := records));
      updatedSheets := updatedSheets[sheetIndex := sheet.(records := records)];
      disbursementSheets := updatedSheets;
    }

    /**
     * `handleDeleteDisbursementRecord`: drop a record of one sheet; an
     * unknown sheet changes nothing.
     */
    method DeleteRecord(sheetId: Id, recordId: Id)
      requires Valid()
      modifies this
      ensures disbursementSheets == DeletedRecord(old(disbursementSheets), sheetId, recordId)
      ensures transactions == old(transactions) && recurringExpenses == old(recurringExpenses)
      ensures projects == old(projects) && budgets == old(budgets) && settings == old(settings)
      ensures Valid()
    {
      var updatedSheets := disbursementSheets;
      var sheetIndex := IndexOf(updatedSheets, SheetId, sheetId);
      if sheetIndex == -1 {
        return;
      }
      var sheet := updatedSheets[sheetIndex];
      RemoveKeepsUnique(sheet.records, RecordId, recordId);
      var records := RemoveById(sheet.records, RecordId, recordId);
      OverwriteKeepsUnique(updatedSheets, SheetId, sheetIndex, sheet.(records := records));
      updatedSheets := updatedSheets[sheetIndex := sheet.(records := records)];
      disbursementSheets := updatedSheets;
    }

    /** `handleSaveSettings`: the new settings replace the old. */
    method SaveSettings(newSettings: AppSettings)
      requires Valid()
      modifies this
      ensures Valid()
      ensures settings == newSettings
      ensures transactions == old(transactions) && recurringExpenses == old(recurringExpenses)
      ensures disbursementSheets == old(disbursementSheets) && projects == old(projects) && budgets == old(budgets)
    {
      settings := newSettings;
    }

    /** `handleSaveBudgets`: the new budget list replaces the old. */
    method SaveBudgets(newBudgets: seq<Budget>)
      requires Valid()
      modifies this
      ensures Valid()
      ensures budgets == newBudgets
      ensures transactions == old(transactions) && recurringExpenses == old(recurringExpenses)
      ensures disbursementSheets == old(disbursementSheets) && projects == old(projects) && settings == old(settings)
    {
      budgets := newBudgets;
    }

    /** `handleSaveProject`: replace a project, or add it under `freshId`. */
    method SaveProject(p: Project, freshId: Id)
      requires Valid()
      requires p.id == "" ==> freshId !in Keys(projects, ProjectId)
      modifies this
      ensures projects == SavedProjects(old(projects), p, freshId)
      ensures transactions == old(transactions) && recurringExpenses == old(recurringExpenses)
      ensures disbursementSheets == old(disbursementSheets) && budgets == old(budgets) && settings == old(settings)
      ensures Valid()
    {
      var updatedProjects := projects;
      if p.id != "" {
        var index := IndexOf(updatedProjects, ProjectId, p.id);
        if index > -1 {
          OverwriteKeepsUnique(updatedProjects, ProjectId, index, p);
          updatedProjects := updatedProjects[index := p];
        }
      } else {
        AppendFreshKeepsUnique(updatedProjects, ProjectId, p.(id := freshId));
        updatedProjects := updatedProjects + [p.(id := freshId)];
      }
      projects := updatedProjects;
    }

    /**
     * `handleDeleteProject`: unlink the project's transactions, then drop
     * the project.
     */
    method DeleteProject(id: Id)
      requires Valid()
      modifies this
      ensures transactions == UnlinkProject(old(transactions), id)
      ensures projects == RemoveById(old(projects), ProjectId, id)
      ensures recurringExpenses == old(recurringExpenses) && disbursementSheets == old(disbursementSheets)
      ensures budgets == old(budgets) && settings == old(settings)
      ensures Valid()
    {
      var updatedTransactions := transactions;
      var i := 0;
      while i < |updatedTransactions|
        invariant 0 <= i <= |updatedTransactions| == |transactions|
        invariant forall j :: 0 <= j < |transactions| ==>
          updatedTransactions[j] == (if j < i then UnlinkProject(transactions, id)[j] else transactions[j])
      {
        if updatedTransactions[i].projectId == Some(id) {
          updatedTransactions := updatedTransactions[i := updatedTransactions[i].(projectId := None)];
        }
        i := i + 1;
      }
      assert updatedTransactions == UnlinkProject(transactions, id);
      SameKeysKeepUnique(transactions, updatedTransactions, TxId);
      transactions := updatedTransactions;
      RemoveKeepsUnique(projects, ProjectId, id);
      projects := RemoveById(projects, ProjectId, id);
    }

    /**
     * The start-up catch-up: advance every recurring expense past `today`,
     * booking one expense per missed due date and collecting the expenses
     * due tomorrow. The expenses and the appended bookings are kept only when
     * something was overdue; reminders are raised when anything was booked
     * or is due tomorrow.
     */
    method CatchUp(today: CalDate, mintId: nat -> Id) returns (reminders: Option<CatchUpResult>)
      requires Valid()
      requires forall k :: mintId(k) !in Keys(transactions, TxId)
      requires forall k, l :: k != l ==> mintId(k) != mintId(l)
      modifies this
      ensures var run := CatchUpRun(old(recurringExpenses), today, mintId);
        && recurringExpenses == (if run.generated != [] then run.expenses else old(recurringExpenses))
        && transactions == old(transactions) + run.generated
        && reminders == (if run.generated != [] || run.upcoming != [] then Some(run) else None)
      ensures disbursementSheets == old(disbursementSheets) && projects == old(projects)
      ensures budgets == old(budgets) && settings == old(settings)
      ensures Valid()
    {
      var run, updated := AdvanceAll(recurringExpenses, today, mintId);
      if updated {
        CatchUpKeepsUnique(recurringExpenses, transactions, today, mintId);
        recurringExpenses := run.expenses;
        transactions := transactions + run.generated;
      }
      if run.generated != [] || run.upcoming != [] {
        reminders := Some(run);
      } else {
        reminders := None;
      }
    }
  }

  /**
   * The loop of the catch-up: advance each expense in list order, collecting
   * the bookings and the expenses due tomorrow; `updated` records whether
   * any expense was overdue.
   */
  method AdvanceAll(expensesToUpdate: seq<RecurringExpense>, today: CalDate, mintId: nat -> Id)
      returns (run: CatchUpResult, updated: bool)
    ensures run == CatchUpRun(expensesToUpdate, today, mintId)
    ensures updated <==> run.generated != []
  {
    var advanced: seq<RecurringExpense> := [];
    var newTransactions: seq<Transaction> := [];
    var upcomingReminders: seq<RecurringExpense> := [];
    updated := false;
    var i := 0;
    while i < |expensesToUpdate|
      invariant 0 <= i <= |expensesToUpdate|
      invariant CatchUpResult(advanced, newTransactions, upcomingReminders) == CatchUpRun(expensesToUpdate[..i], today, mintId)
      invariant updated <==> newTransactions != []
    {
      var expense, booked := AdvanceExpense(expensesToUpdate[i], today, mintId, |newTransactions|);
      CatchUpRunPrefix(expensesToUpdate, i, today, mintId);
      if booked != [] {
        updated := true;
      }
      newTransactions := newTransactions + booked;
      advanced := advanced + [expense];
      if expense.nextDueDate == NextDay(today) {
        upcomingReminders := upcomingReminders + [expense];
      }
      i := i + 1;
    }
    assert expensesToUpdate[..i] == expensesToUpdate;
    run := CatchUpResult(advanced, newTransactions, upcomingReminders);
  }

  /** The catch-up keeps the expenses' ids unique, and its bookings add fresh ids to the transactions. */
  lemma CatchUpKeepsUnique(es: seq<RecurringExpense>, ts: seq<Transaction>, today: CalDate, mintId: nat -> Id)
    requires UniqueKeys(es, ExpenseId) && UniqueKeys(ts, TxId)
    requires forall k :: mintId(k) !in Keys(ts, TxId)
    requires forall k, l :: k != l ==> mintId(k) != mintId(l)
    ensures UniqueKeys(CatchUpRun(es, today, mintId).expenses, ExpenseId)
    ensures UniqueKeys(ts + CatchUpRun(es, today, mintId).generated, TxId)
  {
    var run := CatchUpRun(es, today, mintId);
    CatchUpKeepsIds(es, today, mintId);
    SameKeysKeepUnique(es, run.expenses, ExpenseId);
    CatchUpIds(es, today, mintId);
    AppendMintedKeepsUnique(ts, run.generated, mintId);
  }

  /** The run over one more expense of the list: the run so far, then that expense's catch-up. */
  lemma CatchUpRunPrefix(es: seq<RecurringExpense>, i: nat, today: CalDate, mintId: nat -> Id)
    requires i < |es|
    ensures var prev := CatchUpRun(es[..i], today, mintId);
      var a := Advance(es[i], today, mintId, |prev.generated|);
      CatchUpRun(es[..i + 1], today, mintId) == CatchUpResult(
        prev.expenses + [a.expense],
        prev.generated + a.generated,
        prev.upcoming + (if a.expense.nextDueDate == NextDay(today) then [a.expense] else []))
  {
    assert es[..i + 1][..i] == es[..i];
  }

  /** The catch-up moves due dates only, so the expenses keep their ids in order. */
  lemma CatchUpKeepsIds(es: seq<RecurringExpense>, today: CalDate, mintId: nat -> Id)
    ensures Keys(CatchUpRun(es, today, mintId).expenses, ExpenseId) == Keys(es, ExpenseId)
  {
    CatchUpAdvancesEach(es, today, mintId);
    var r := CatchUpRun(es, today, mintId).expenses;
    forall j | 0 <= j < |es| ensures Keys(r, ExpenseId)[j] == Keys(es, ExpenseId)[j] {
    }
  }

  /** Two collections with the same ids in the same order are alike in having unique ids. */
  lemma SameKeysKeepUnique<T>(s: seq<T>, r: seq<T>, key: T -> string)
    requires UniqueKeys(s, key)
    requires Keys(r, key) == Keys(s, key)
    ensures UniqueKeys(r, key)
  {
    forall i, j | 0 <= i < j < |r| ensures key(r[i]) != key(r[j]) {
      assert Keys(r, key)[i] == Keys(s, key)[i] && Keys(r, key)[j] == Keys(s, key)[j];
    }
  }

  /** Appending transactions numbered by distinct unused minted ids keeps ids unique. */
  lemma AppendMintedKeepsUnique(ts: seq<Transaction>, generated: seq<Transaction>, mintId: nat -> Id)
    requires UniqueKeys(ts, TxId)
    requires forall k :: mintId(k) !in Keys(ts, TxId)
    requires forall k, l :: k != l ==> mintId(k) != mintId(l)
    requires forall k :: 0 <= k < |generated| ==> generated[k].id == mintId(k)
    ensures UniqueKeys(ts + generated, TxId)
  {
    var all := ts + generated;
    forall i, j | 0 <= i < j < |all| ensures TxId(all[i]) != TxId(all[j]) {
      if j >= |ts| {
        if i < |ts| {
          assert Keys(ts, TxId)[i] == ts[i].id;
          assert all[j] == generated[j - |ts|];
        } else {
          assert all[i] == generated[i - |ts|] && all[j] == generated[j - |ts|];
        }
      }
    }
  }
}
