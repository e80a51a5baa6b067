/**
 * The records of the cash-flow ledger: income entries, the singleton balance,
 * the fixed category enumeration and the ledger's error taxonomy.
 */
module CashFlowTypes {

  datatype Option<T> = None | Some(value: T)

  /** The outcome of a ledger operation: a value, or the error it throws. */
  datatype Result<T> = Success(value: T) | Failure(error: CashFlowError)

  /** The outcome of a check that only throws. */
  datatype Outcome = Pass | Fail(error: CashFlowError)

  /** Which field a ValidationError is about. */
  datatype Field = AmountField | DateField | DescriptionField | CategoryField

  /** Why a field was rejected (the human-readable message of the source). */
  datatype Reason =
    | NotPositive         // "Must be greater than 0"
    | TooManyDecimals     // "Maximum 2 decimal places allowed"
    | NotIsoFormat        // "Must be in YYYY-MM-DD format"
    | NotACalendarDate    // "Must be a valid date"
    | Blank               // "Cannot be empty"
    | TooLong             // "Maximum 200 characters allowed"
    | UnknownCategory     // "Must be one of: ..."

  datatype CashFlowError =
    | ValidationError(field: Field, reason: Reason)
    | NotFoundError(id: string)
    | BalanceNotInitializedError

  /** The nine income categories. */
  datatype Category = Salary | Freelance | Investment | Business | Rental | Gift | Refund | Bonus | Other

  /** A calendar date, as the YYYY-MM-DD string it was parsed from. */
  datatype Date = Date(year: int, month: int, day: int)

  /** One recorded inflow of money. `balanceAfter` is derived by the running-balance engine. */
  datatype Entry = Entry(
    id: string,
    amount: real,
    date: Date,
    description: string,
    category: Category,
    timestamp: int,
    balanceAfter: Option<real>,
    isRecurring: Option<bool>,
    recurringId: Option<string>)

  /** The singleton balance record. */
  datatype Balance = Balance(
    initialBalance: real,
    currentBalance: real,
    lastUpdated: int,
    lastEntryId: Option<string>,
    totalIncome: real,
    totalExpenses: real)

  /** The fields a caller supplies for a new entry, still unvalidated. */
  datatype EntryDraft = EntryDraft(
    amount: real,
    date: string,
    description: string,
    category: string,
    isRecurring: Option<bool>,
    recurringId: Option<string>)

  /** A partial update: `Some` marks a supplied field. */
  datatype EntryUpdate = EntryUpdate(
    amount: Option<real>,
    date: Option<string>,
    description: Option<string>,
    category: Option<string>,
    isRecurring: Option<bool>,
    recurringId: Option<string>)
}
