/**
 * The records and enumerations of the treasury: transactions in two
 * currencies, recurring expenses, disbursement rolls, settings, budgets and
 * projects. Fields the TypeScript interfaces mark optional are `Option`s.
 */
module Types {
  import opened Wrappers
  import opened Dates

  datatype TransactionType = Revenue | Expense

  datatype Currency = EGP | USD

  datatype RevenueCategory = General | Zakat | Sadaqa | ProjectA | EventRevenue | Grants

  datatype ExpenseCategory = Operational | Salaries | Utilities | ProjectCosts | ReliefAid | Rewards

  /**
   * A transaction's category is a revenue or an expense category; the source
   * types it as the union of the two string enumerations.
   */
  datatype Category = OfRevenue(revenue: RevenueCategory) | OfExpense(expense: ExpenseCategory)

  datatype Frequency = Monthly | Yearly

  datatype DisbursementMethod = Cash | BankTransfer | InKind

  /** An exchange rate in EGP per USD; every rate the core divides by is positive. */
  type Rate = r: real | r > 0.0 witness 1.0

  type Id = string

  datatype Transaction = Transaction(
    id: Id,
    kind: TransactionType,
    amount: real,
    currency: Currency,
    date: CalDate,
    description: string,
    category: Category,
    receiptImage: Option<string>,
    recipient: Option<string>,
    exchangeRate: Option<Rate>,
    projectId: Option<Id>)

  datatype RecurringExpense = RecurringExpense(
    id: Id,
    description: string,
    amount: real,
    currency: Currency,
    category: ExpenseCategory,
    frequency: Frequency,
    startDate: CalDate,
    nextDueDate: CalDate)

  datatype DisbursementRecord = DisbursementRecord(
    id: Id,
    name: string,
    nationalId: string,
    disbursementDate: string,
    payment: DisbursementMethod,  // `method` in the source
    phone: string,
    amount: real,
    currency: Currency)

  datatype DisbursementSheet = DisbursementSheet(
    id: Id,
    name: string,
    createdAt: string,
    records: seq<DisbursementRecord>)

  datatype AppSettings = AppSettings(usdToEgpRate: Rate)

  /** A monthly cap for one expense category; budgets are kept in USD. */
  datatype Budget = Budget(category: ExpenseCategory, amount: real, currency: Currency)

  datatype Project = Project(id: Id, name: string, description: string, budget: real)

  /** `Object.values(ExpenseCategory)`: the six categories in declaration order. */
  function ExpenseCategories(): (cs: seq<ExpenseCategory>)
    ensures |cs| == 6
    ensures forall i, j :: 0 <= i < j < |cs| ==> cs[i] != cs[j]
    ensures cs[0] == Operational && cs[5] == Rewards
  {
    [Operational, Salaries, Utilities, ProjectCosts, ReliefAid, Rewards]
  }

  /**
   * Every expense category appears in `ExpenseCategories()`; as its entries
   * are distinct, it appears there once.
   */
  lemma ExpenseCategoriesComplete(c: ExpenseCategory)
    ensures c in ExpenseCategories()
  {
    var cs := ExpenseCategories();
    match c
    case Operational => assert cs[0] == c;
    case Salaries => assert cs[1] == c;
    case Utilities => assert cs[2] == c;
    case ProjectCosts => assert cs[3] == c;
    case ReliefAid => assert cs[4] == c;
    case Rewards => assert cs[5] == c;
  }


  /** The string value each category has in the source, which is what it is keyed by. */
  function Label(c: Category): string {
    match c
    case OfRevenue(General) => "إيراد عام"
    case OfRevenue(Zakat) => "زكاة"
    case OfRevenue(Sadaqa) => "صدقة"
    case OfRevenue(ProjectA) => "دعم مشروع أ"
    case OfRevenue(EventRevenue) => "إيرادات فعاليات"
    case OfRevenue(Grants) => "منح ومساعدات"
    case OfExpense(Operational) => "تشغيلي"
    case OfExpense(Salaries) => "رواتب"
    case OfExpense(Utilities) => "خدمات ومرافق"
    case OfExpense(ProjectCosts) => "تكاليف مشاريع"
    case OfExpense(ReliefAid) => "مساعدات إغاثية"
    case OfExpense(Rewards) => "مكافآت"
  }

  /**
   * The twelve category strings are pairwise distinct, so keying a record by
   * the string (as the source does) is keying it by the category.
   */
  lemma LabelInjective(a: Category, b: Category)
    ensures Label(a) == Label(b) ==> a == b
  {
  }

  /** The exchange-rate invariant: only an EGP expense may carry a rate snapshot. */
  predicate RateWellPlaced(t: Transaction) {
    t.exchangeRate.Some? ==> t.kind == Expense && t.currency == EGP
  }

  /** Ids of a transaction list, in order. */
  function TransactionIds(ts: seq<Transaction>): (ids: seq<Id>)
    ensures |ids| == |ts|
    ensures forall i :: 0 <= i < |ts| ==> ids[i] == ts[i].id
  {
    seq(|ts|, i requires 0 <= i < |ts| => ts[i].id)
  }

  // The id of each kind of record, as the key the ledger's collections are searched by.
  function TxId(t: Transaction): Id { t.id }
  function ExpenseId(e: RecurringExpense): Id { e.id }
  function SheetId(s: DisbursementSheet): Id { s.id }
  function RecordId(r: DisbursementRecord): Id { r.id }
  function ProjectId(p: Project): Id { p.id }
}
