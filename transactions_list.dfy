/**
 * The transaction list: each transaction is looked up against the
 * categories and accounts it names, with fallbacks when the lookup misses,
 * and the list is first sorted newest first, in place, in the array the
 * caller passed in.
 */
module TransactionsList {
  import opened Wrappers
  import opened Docs
  import opened Types
  import opened Sorting
  import AccountHelper
  import opened TransactionService

  const FallbackColor := "#FFFFFF"
  const UnknownAccount := "Nieznane konto"
  const NoTransactions := "Nie dodano jeszcze żadnych transakcji"

  /**
   * `getCategoryColor`: the color of the first category with that id;
   * white when there is none, and also when that color is the empty string.
   */
  function GetCategoryColor(categories: seq<Category>, categoryId: Id): (color: string)
    ensures forall k :: IsFirstWithId(categories, categoryId, k) && categories[k].data.color != "" ==>
      color == categories[k].data.color
    ensures forall k :: IsFirstWithId(categories, categoryId, k) && categories[k].data.color == "" ==>
      color == FallbackColor
    ensures (forall j :: 0 <= j < |categories| ==> categories[j].id != categoryId) ==> color == FallbackColor
    ensures color != ""
  {
    var k := FirstWithId(categories, categoryId);
    if k < |categories| && categories[k].data.color != "" then categories[k].data.color else FallbackColor
  }

  /** What the list knows of an account: a name, and a type unless it is the placeholder. */
  datatype ShownAccount = ShownAccount(name: string, kind: Option<AccountType>)

  /** `getAccount`: the first account with that id, else a placeholder with a name and no type. */
  function GetAccount(accounts: seq<Account>, accountId: Id): (a: ShownAccount)
    ensures forall k :: IsFirstWithId(accounts, accountId, k) ==>
      a == ShownAccount(accounts[k].data.name, Some(accounts[k].data.kind))
    ensures (forall j :: 0 <= j < |accounts| ==> accounts[j].id != accountId) ==>
      a == ShownAccount(UnknownAccount, None)
  {
    var k := FirstWithId(accounts, accountId);
    if k < |accounts| then ShownAccount(accounts[k].data.name, Some(accounts[k].data.kind))
    else ShownAccount(UnknownAccount, None)
  }

  /** The account line under a transaction: the name, a space, and the type label in parentheses if there is a type. */
  function AccountCaption(a: ShownAccount): (caption: string)
    ensures a.name + " " <= caption
    ensures a.kind.None? ==> caption == a.name + " "
    ensures a.kind.Some? ==> caption[|a.name| + 1..] == "(" + AccountHelper.GetAccountType(AccountTypeValue(a.kind.value)) + ")"
  {
    match a.kind
    case None => a.name + " "
    case Some(k) => a.name + " " + "(" + AccountHelper.GetAccountType(AccountTypeValue(k)) + ")"
  }

  /** A transaction whose account is not in the list is shown under the placeholder, with no type label. */
  lemma MissingAccountCaption(accounts: seq<Account>, accountId: Id)
    requires forall j :: 0 <= j < |accounts| ==> accounts[j].id != accountId
    ensures AccountCaption(GetAccount(accounts, accountId)) == UnknownAccount + " "
  {
  }

  /** The sign in front of the amount: "+" for income, "-" for every other type. */
  function SignOf(kind: string): (sign: string)
    ensures sign == "+" <==> kind == TransactionTypeValue(Income)
    ensures sign == "-" <==> kind != TransactionTypeValue(Income)
  {
    if kind == TransactionTypeValue(Income) then "+" else "-"
  }

  /** One rendered row. */
  datatype Row = Row(id: Id, name: string, color: string, account: string, sign: string, amount: int)

  function RowOf(t: Transaction, categories: seq<Category>, accounts: seq<Account>): (row: Row)
    ensures row.id == t.id && row.name == t.data.name && row.amount == t.data.amount
    ensures row.color == GetCategoryColor(categories, t.data.category)
    ensures row.account == AccountCaption(GetAccount(accounts, t.data.account))
    ensures row.sign == "+" <==> t.data.kind == Income
  {
    Row(t.id, t.data.name, GetCategoryColor(categories, t.data.category),
        AccountCaption(GetAccount(accounts, t.data.account)),
        SignOf(TransactionTypeValue(t.data.kind)), t.data.amount)
  }

  /** What the component renders: a notice for an empty list, else the rows. */
  datatype View = Empty(notice: string) | Rows(rows: seq<Row>)

  /** Every earlier element is at least as new as every later one. */
  ghost predicate NewestFirst(s: seq<Transaction>) {
    SortedBy(s, NewerFirst)
  }

  /**
   * `transactions.sort((a, b) => b.date - a.date)`: the caller's array, in
   * place, holds the stable newest-first order of its old contents.
   */
  method SortNewestFirst(a: array<Transaction>)
    modifies a
    ensures a[..] == SortBy(old(a[..]), NewerFirst)
    ensures NewestFirst(a[..])
    ensures multiset(a[..]) == multiset(old(a[..]))
  {
    SortInPlace(a, NewerFirst);
    NewerFirstIsTotalPreorder();
    SortBySorted(old(a[..]), NewerFirst);
  }

  /** `.map(...)` over the sorted list: one row per transaction, in order. */
  function RowsOf(s: seq<Transaction>, categories: seq<Category>, accounts: seq<Account>): (rows: seq<Row>)
    ensures |rows| == |s|
    ensures forall i :: 0 <= i < |s| ==> rows[i] == RowOf(s[i], categories, accounts)
  {
    seq(|s|, i requires 0 <= i < |s| => RowOf(s[i], categories, accounts))
  }

  /** The component: sort the caller's array in place, then render one row per transaction in that order. */
  method Render(transactions: array<Transaction>, categories: seq<Category>, accounts: seq<Account>) returns (view: View)
    modifies transactions
    ensures multiset(transactions[..]) == multiset(old(transactions[..]))
    ensures transactions.Length == 0 ==> view == Empty(NoTransactions)
    ensures transactions.Length > 0 ==>
      && transactions[..] == SortBy(old(transactions[..]), NewerFirst)
      && view == Rows(RowsOf(transactions[..], categories, accounts))
  {
    if transactions.Length == 0 {
      return Empty(NoTransactions);
    }
    SortNewestFirst(transactions);
    view := Rows(RowsOf(transactions[..], categories, accounts));
  }
}
