/**
 * The records and enumerations of the application: accounts, transactions
 * and categories. A record's `id` is not stored with it; the services add
 * it when they read the document back (Docs.Doc). The source's `type`
 * fields are called `kind` here, `type` being a keyword of Dafny.
 */
module Types {
  import opened Wrappers
  import opened Docs

  // ---------------------------------------------------------------- accounts

  datatype AccountType = Cash | Bank

  /** The string each `AccountType` member stands for at run time. */
  function AccountTypeValue(t: AccountType): string {
    match t
    case Cash => "cash"
    case Bank => "bank"
  }

  datatype Currency = PLN | EUR | USD

  /** Each `Currency` member is its own ISO code. */
  function CurrencyCode(c: Currency): string {
    match c
    case PLN => "PLN"
    case EUR => "EUR"
    case USD => "USD"
  }

  /** The `CurrencySymbols` table, total over `Currency`. */
  function CurrencySymbol(c: Currency): string {
    match c
    case PLN => "zł"
    case EUR => "€"
    case USD => "$"
  }

  /**
   * An account's stored fields. Balances are in minor units (grosze,
   * cents) and carry no sign constraint.
   */
  datatype AccountData = AccountData(name: string, balance: int, currency: Currency, kind: AccountType)

  type Account = Doc<AccountData>

  // ------------------------------------------------------------ transactions

  datatype TransactionType = Income | Expense

  function TransactionTypeValue(t: TransactionType): string {
    match t
    case Income => "income"
    case Expense => "expense"
  }

  /**
   * A calendar day as JavaScript's `Date` counts it: `month` runs from 0
   * (January) to 11 (December). The time of day is not modelled.
   */
  datatype Date = Date(year: int, month: nat, day: nat)

  predicate ValidDate(d: Date) {
    d.month < 12 && 1 <= d.day <= 31
  }

  /** Chronological order: `a` is not later than `b`. */
  predicate DateLe(a: Date, b: Date) {
    a.year < b.year || (a.year == b.year && (a.month < b.month || (a.month == b.month && a.day <= b.day)))
  }

  predicate DateLt(a: Date, b: Date) {
    !DateLe(b, a)
  }

  /**
   * A transaction's stored fields. `amount` has no sign constraint; the
   * direction of its effect comes from `kind`. `category` and `account` are
   * plain ids that nothing checks. `description` is the one optional field.
   */
  datatype TransactionData = TransactionData(
    kind: TransactionType,
    name: string,
    amount: int,
    date: Date,
    category: Id,
    account: Id,
    description: Option<string>)

  type Transaction = Doc<TransactionData>

  // -------------------------------------------------------------- categories

  /** The union `"expense" | "income"` of a category's `type`. */
  datatype CategoryType = ExpenseCategory | IncomeCategory

  function CategoryTypeValue(t: CategoryType): string {
    match t
    case ExpenseCategory => "expense"
    case IncomeCategory => "income"
  }

  /** A category's stored fields: six with the id, none of them an owner. */
  datatype CategoryData = CategoryData(name: string, kind: CategoryType, color: string, icon: string, isDefault: bool)

  type Category = Doc<CategoryData>

  // ------------------------------------------------------------------ lemmas

  lemma AccountTypeValueInjective(a: AccountType, b: AccountType)
    ensures AccountTypeValue(a) == AccountTypeValue(b) <==> a == b
  {
  }

  lemma CurrencyCodeInjective(a: Currency, b: Currency)
    ensures CurrencyCode(a) == CurrencyCode(b) <==> a == b
  {
  }

  lemma CurrencySymbolsDistinct(a: Currency, b: Currency)
    ensures CurrencySymbol(a) == CurrencySymbol(b) <==> a == b
  {
  }

  /** A category's type strings are exactly the `TransactionType` values. */
  lemma CategoryTypeIsTransactionType(k: CategoryType)
    ensures CategoryTypeValue(k) == TransactionTypeValue(if k == IncomeCategory then Income else Expense)
    ensures exists t :: CategoryTypeValue(k) == TransactionTypeValue(t)
  {
    assert CategoryTypeValue(k) == TransactionTypeValue(if k == IncomeCategory then Income else Expense);
  }

  lemma {:induction false} DateLeTotalPreorder(a: Date, b: Date, c: Date)
    ensures DateLe(a, b) || DateLe(b, a)
    ensures DateLe(a, b) && DateLe(b, c) ==> DateLe(a, c)
  {
  }
}
