/** The entities of the ledger that the rest of the model looks inside. */
module Domain {
  import opened Calendar
  import opened Hlc

  datatype Option<+T> = None | Some(value: T)

  datatype TransactionKind = Income | Expense | Transfer

  /** `amount` is in minor units of `currency`; `rate` is what one unit of it bought. */
  datatype Transaction = Transaction(
    kind: TransactionKind,
    amount: int,
    currency: string,
    rate: Option<real>,
    accountId: string,
    counterAccountId: Option<string>,
    categoryId: Option<string>,
    date: Date,
    payee: string,
    note: string,
    tags: seq<string>,
    cleared: bool,
    createdAt: int)

  datatype Account = Account(id: string, currency: string, openingBalance: int, statementDay: Option<int>,
                             dueDay: Option<int>)

  datatype RecurrenceUnit = Day | Week | Month | Year

  datatype Schedule = Schedule(
    interval: int,
    every: RecurrenceUnit,
    startDate: Date,
    endDate: Option<Date>,
    maxOccurrences: Option<int>,
    skipped: seq<Date>)

  datatype RecurringRule = RecurringRule(
    id: string,
    name: string,
    kind: TransactionKind,
    amount: int,
    currency: string,
    accountId: string,
    counterAccountId: Option<string>,
    categoryId: Option<string>,
    payee: string,
    note: string,
    tags: seq<string>,
    schedule: Schedule,
    archived: bool)

  datatype EntityName =
    | AccountGroups | Accounts | Categories | Transactions | Budgets | RecurringRules | Rates | VaultSettings

  /** What a row holds besides its id and stamp; entities not looked into are text. */
  datatype Content =
    | TransactionContent(transaction: Transaction)
    | RuleContent(rule: RecurringRule)
    | OtherContent(text: string)

  datatype Row = Row(id: string, updatedAt: Stamp, content: Content)

  datatype Key = Key(entity: EntityName, id: string)
}
