/**
 * The transaction gateway, scoped to `users/{uid}/transactions`, and
 * `addTransaction`, the one operation that touches two entities: it stores
 * the transaction, then reads the referenced account, then writes back its
 * balance plus or minus the amount. The three steps are separate remote
 * calls with no rollback. Editing or deleting a transaction never touches
 * a balance.
 */
module TransactionService {
  import opened Wrappers
  import opened Docs
  import opened Types
  import opened Store
  import opened Sorting
  import AccountService

  // ------------------------------------------------------------------ reads

  /** `getAllUserTransactions`: every transaction of the user, tagged with its id. */
  function GetAllUserTransactions(db: Db, uid: Uid): (r: seq<Transaction>)
    requires db.Valid()
    reads db
    ensures forall i :: 0 <= i < |r| ==> r[i].id in db.Transactions(uid) && db.Transactions(uid)[r[i].id] == r[i].data
    ensures forall id :: id in db.Transactions(uid) ==> Doc(id, db.Transactions(uid)[id]) in r
    ensures forall i, j :: 0 <= i < j < |r| ==> r[i].id != r[j].id
  {
    Listed(db.Transactions(uid), db.nextId)
  }

  /**
   * `new Date(year, month, 1)`: a month index past December carries into
   * the next year, so month 12 is January of `year + 1`.
   */
  function FirstOfMonth(year: int, month: int): (d: Date)
    ensures 0 <= month < 12 ==> d == Date(year, month, 1)
    ensures month == 12 ==> d == Date(year + 1, 0, 1)
    ensures ValidDate(d)
  {
    Date(year + month / 12, month % 12, 1)
  }

  /** `t` is dated in `[from, until)`. */
  predicate Within(t: Transaction, from: Date, until: Date) {
    DateLe(from, t.data.date) && DateLt(t.data.date, until)
  }

  /** The transactions of `s` dated in `[from, until)`, in their order in `s`, each as often as in `s`. */
  function DatedWithin(s: seq<Transaction>, from: Date, until: Date): (r: seq<Transaction>)
    ensures forall i :: 0 <= i < |r| ==> r[i] in s && DateLe(from, r[i].data.date) && DateLt(r[i].data.date, until)
    ensures forall t :: t in s && DateLe(from, t.data.date) && DateLt(t.data.date, until) ==> t in r
  {
    if s == [] then []
    else
      var rest := DatedWithin(s[1..], from, until);
      if Within(s[0], from, until) then [s[0]] + rest else rest
  }

  /** The filter keeps every copy of a transaction in the window and no other. */
  lemma {:induction false} DatedWithinCounts(s: seq<Transaction>, from: Date, until: Date)
    ensures forall t :: multiset(DatedWithin(s, from, until))[t] == if Within(t, from, until) then multiset(s)[t] else 0
  {
    if s != [] {
      DatedWithinCounts(s[1..], from, until);
      assert s == [s[0]] + s[1..];
    }
  }

  /** Filtering keeps ids distinct. */
  lemma {:induction false} DatedWithinIdsDistinct(s: seq<Transaction>, from: Date, until: Date)
    requires IdsDistinct(s)
    ensures IdsDistinct(DatedWithin(s, from, until))
  {
    if s != [] {
      var t := s[1..];
      assert IdsDistinct(t) by {
        assert forall k :: 0 <= k < |t| ==> t[k] == s[k + 1];
      }
      DatedWithinIdsDistinct(t, from, until);
      var rest := DatedWithin(t, from, until);
      if Within(s[0], from, until) {
        forall k | 0 <= k < |rest| ensures rest[k].id != s[0].id {
          var m :| 0 <= m < |t| && t[m] == rest[k];
          assert t[m] == s[m + 1];
        }
        ConsIdsDistinct(s[0], rest);
      }
    }
  }

  /** Putting a document with a new id in front keeps ids distinct. */
  lemma ConsIdsDistinct(d: Transaction, rest: seq<Transaction>)
    requires IdsDistinct(rest)
    requires forall k :: 0 <= k < |rest| ==> rest[k].id != d.id
    ensures IdsDistinct([d] + rest)
  {
    var r := [d] + rest;
    forall i, j | 0 <= i < j < |r| ensures r[i].id != r[j].id {
      assert r[j] == rest[j - 1];
      if i > 0 {
        assert r[i] == rest[i - 1];
      }
    }
  }

  /**
   * `getMonthUserTransactions`: the user's transactions dated on or after
   * the first of `today`'s month and before the first of the next month.
   * The clock reading `today` is a parameter.
   */
  function GetMonthUserTransactions(db: Db, uid: Uid, today: Date): (r: seq<Transaction>)
    requires db.Valid()
    requires today.month < 12
    reads db
    ensures forall i :: 0 <= i < |r| ==> r[i].id in db.Transactions(uid) && db.Transactions(uid)[r[i].id] == r[i].data
    ensures forall i :: 0 <= i < |r| ==> DateLe(Date(today.year, today.month, 1), r[i].data.date)
    ensures forall i :: 0 <= i < |r| ==> DateLt(r[i].data.date, FirstOfMonth(today.year, today.month + 1))
    ensures forall id :: id in db.Transactions(uid) && InMonth(db.Transactions(uid)[id].date, today) ==>
      Doc(id, db.Transactions(uid)[id]) in r
    ensures forall i, j :: 0 <= i < j < |r| ==> r[i].id != r[j].id
  {
    var all := GetAllUserTransactions(db, uid);
    DatedWithinIdsDistinct(all, FirstOfMonth(today.year, today.month), FirstOfMonth(today.year, today.month + 1));
    DatedWithin(all, FirstOfMonth(today.year, today.month), FirstOfMonth(today.year, today.month + 1))
  }

  /** The query's date window: `[first of this month, first of next month)`. */
  predicate InMonth(d: Date, today: Date) {
    DateLe(FirstOfMonth(today.year, today.month), d) && DateLt(d, FirstOfMonth(today.year, today.month + 1))
  }

  /** For a real calendar date the window is exactly `today`'s calendar month, December included. */
  lemma MonthWindowIsCalendarMonth(d: Date, today: Date)
    requires ValidDate(d) && today.month < 12
    ensures InMonth(d, today) <==> d.year == today.year && d.month == today.month
  {
    if today.month == 11 {
      assert FirstOfMonth(today.year, today.month + 1) == Date(today.year + 1, 0, 1);
    } else {
      assert FirstOfMonth(today.year, today.month + 1) == Date(today.year, today.month + 1, 1);
    }
  }

  /** `orderBy("date", "desc")`: `a` comes no later than `b` when it is not older. */
  predicate NewerFirst(a: Transaction, b: Transaction) {
    DateLe(b.data.date, a.data.date)
  }

  lemma NewerFirstIsTotalPreorder()
    ensures TotalPreorder(NewerFirst)
  {
    forall a: Transaction, b: Transaction ensures NewerFirst(a, b) || NewerFirst(b, a) {
      DateLeTotalPreorder(a.data.date, b.data.date, a.data.date);
    }
    forall a: Transaction, b: Transaction, c: Transaction | NewerFirst(a, b) && NewerFirst(b, c)
      ensures NewerFirst(a, c)
    {
      DateLeTotalPreorder(c.data.date, b.data.date, a.data.date);
    }
  }

  /** `limit(10)` of the latest-transactions query. */
  const LastLimit: nat := 10

  /**
   * `getLastUserTransactions`: at most ten of the user's transactions,
   * newest first, and no stored transaction left out is newer than one
   * returned. Fewer than ten come back only when the user has no more.
   */
  function GetLastUserTransactions(db: Db, uid: Uid): (r: seq<Transaction>)
    requires db.Valid()
    reads db
    ensures |r| <= LastLimit
    ensures SortedBy(r, NewerFirst)
    ensures forall i :: 0 <= i < |r| ==> r[i].id in db.Transactions(uid) && db.Transactions(uid)[r[i].id] == r[i].data
    ensures forall id :: id in db.Transactions(uid) && Doc(id, db.Transactions(uid)[id]) !in r ==>
      |r| == LastLimit && forall j :: 0 <= j < |r| ==> DateLe(db.Transactions(uid)[id].date, r[j].data.date)
    ensures forall i, j :: 0 <= i < j < |r| ==> r[i].id != r[j].id
  {
    var all := GetAllUserTransactions(db, uid);
    var sorted := SortBy(all, NewerFirst);
    var r := sorted[..if |sorted| < LastLimit then |sorted| else LastLimit];
    LatestFirst(all, r);
    PrefixIdsDistinct(all, r);
    r
  }

  /** A prefix of a sorted list of documents with distinct ids has distinct ids. */
  lemma PrefixIdsDistinct(all: seq<Transaction>, r: seq<Transaction>)
    requires forall i, j :: 0 <= i < j < |all| ==> all[i].id != all[j].id
    requires r == SortBy(all, NewerFirst)[..if |all| < LastLimit then |all| else LastLimit]
    ensures forall i, j :: 0 <= i < j < |r| ==> r[i].id != r[j].id
  {
    var sorted := SortBy(all, NewerFirst);
    assert KeysDistinct(all, IdOf) by {
      forall i, j | 0 <= i < j < |all| ensures IdOf(all[i]) != IdOf(all[j]) {
      }
    }
    SortByKeysDistinct(all, NewerFirst, IdOf);
    forall i, j | 0 <= i < j < |r| ensures r[i].id != r[j].id {
      assert r[i] == sorted[i] && r[j] == sorted[j];
      assert IdOf(sorted[i]) != IdOf(sorted[j]);
    }
  }

  lemma LatestFirst(all: seq<Transaction>, r: seq<Transaction>)
    requires r == SortBy(all, NewerFirst)[..if |all| < LastLimit then |all| else LastLimit]
    ensures SortedBy(r, NewerFirst)
    ensures forall t :: t in r ==> t in all
    ensures forall t :: t in all && t !in r ==> |r| == LastLimit && forall j :: 0 <= j < |r| ==> DateLe(t.data.date, r[j].data.date)
  {
    var sorted := SortBy(all, NewerFirst);
    NewerFirstIsTotalPreorder();
    SortBySorted(all, NewerFirst);
    SameMembers(sorted, all);
    TakeLatest(sorted, r);
  }

  /** A prefix of a newest-first list holds everything newer than what it leaves out. */
  lemma TakeLatest(sorted: seq<Transaction>, r: seq<Transaction>)
    requires SortedBy(sorted, NewerFirst)
    requires r == sorted[..if |sorted| < LastLimit then |sorted| else LastLimit]
    ensures SortedBy(r, NewerFirst)
    ensures forall t :: t in r ==> t in sorted
    ensures forall t :: t in sorted && t !in r ==> |r| == LastLimit && forall j :: 0 <= j < |r| ==> DateLe(t.data.date, r[j].data.date)
  {
    forall t | t in sorted && t !in r
      ensures |r| == LastLimit && forall j :: 0 <= j < |r| ==> DateLe(t.data.date, r[j].data.date)
    {
      var k :| 0 <= k < |sorted| && sorted[k] == t;
      assert k >= |r|;
      forall j | 0 <= j < |r| ensures DateLe(t.data.date, r[j].data.date) {
        assert NewerFirst(sorted[j], sorted[k]);
      }
    }
  }

  // --------------------------------------------------------- balance effect

  /** The change `addTransaction` makes to the balance: minus the amount for an expense, plus it for income. */
  function SignedAmount(t: TransactionData): (delta: int)
    ensures t.kind == Expense ==> delta == -t.amount
    ensures t.kind == Income ==> delta == t.amount
  {
    if t.kind == Expense then -t.amount else t.amount
  }

  /**
   * A user's accounts once the balance step of `addTransaction` has run for
   * `t`: only the balance of `t`'s account moves, by the signed amount.
   */
  function ApplyToBalance(accounts: map<Id, AccountData>, t: TransactionData): (r: map<Id, AccountData>)
    ensures r.Keys == accounts.Keys
    ensures t.account in accounts ==> r[t.account] == accounts[t.account].(balance := accounts[t.account].balance + SignedAmount(t))
    ensures forall id :: id in accounts && id != t.account ==> r[id] == accounts[id]
  {
    if t.account in accounts then
      var a := accounts[t.account];
      AccountService.BalancePatchOnlyBalance(a, a.balance + SignedAmount(t));
      accounts[t.account := AccountService.Merge(a, AccountService.BalancePatch(a.balance + SignedAmount(t)))]
    else accounts
  }

  /** The accounts after a run of `addTransaction`s that all succeeded, in order. */
  function ApplyAll(accounts: map<Id, AccountData>, ts: seq<TransactionData>): map<Id, AccountData> {
    if ts == [] then accounts else ApplyToBalance(ApplyAll(accounts, ts[..|ts| - 1]), ts[|ts| - 1])
  }

  /** The signed sum of the amounts of those transactions in `ts` that reference account `a`. */
  function NetFlow(ts: seq<TransactionData>, a: Id): int {
    if ts == [] then 0
    else NetFlow(ts[..|ts| - 1], a) + (if ts[|ts| - 1].account == a then SignedAmount(ts[|ts| - 1]) else 0)
  }

  /**
   * The intended invariant, for a run of successful adds: every account's
   * balance is its starting balance plus the signed sum of the transactions
   * that reference it, and nothing else about any account changes.
   */
  lemma {:induction false} BalanceAfterAdds(accounts: map<Id, AccountData>, ts: seq<TransactionData>)
    ensures ApplyAll(accounts, ts).Keys == accounts.Keys
    ensures forall a :: a in accounts ==>
      ApplyAll(accounts, ts)[a] == accounts[a].(balance := accounts[a].balance + NetFlow(ts, a))
  {
    if ts != [] {
      BalanceAfterAdds(accounts, ts[..|ts| - 1]);
    }
  }

  /** A run of adds that all reference one account moves its balance by the signed sum of the run. */
  lemma {:induction false} NetFlowOfOneAccount(ts: seq<TransactionData>, a: Id)
    requires forall i :: 0 <= i < |ts| ==> ts[i].account == a
    ensures NetFlow(ts, a) == SignedSum(ts)
  {
    if ts != [] {
      NetFlowOfOneAccount(ts[..|ts| - 1], a);
    }
  }

  /** The sum of the signed amounts of `ts`. */
  function SignedSum(ts: seq<TransactionData>): int {
    if ts == [] then 0 else SignedSum(ts[..|ts| - 1]) + SignedAmount(ts[|ts| - 1])
  }

  // ----------------------------------------------------------------- writes

  /** Which remote step of `addTransaction` is rejected, if any. */
  datatype Fault = NoFault | InsertRejected | ReadRejected | WriteRejected

  /** How `addTransaction` ended. */
  datatype AddOutcome =
    | Added(id: Id)                                 // all three steps succeeded
    | NotAdded(error: StoreError)                   // the insert failed; nothing changed
    | BalanceNotUpdated(id: Id, error: StoreError)  // stored, but the balance step failed; no rollback

  /** `addDoc` into `users/{uid}/transactions`. */
  method InsertTransaction(db: Db, uid: Uid, transaction: TransactionData) returns (id: Id)
    requires db.Valid()
    modifies db
    ensures db.Valid()
    ensures old(db.Fresh(id))
    ensures db.nextId == id + 1
    ensures db.transactions == old(db.transactions)[uid := old(db.Transactions(uid))[id := transaction]]
    ensures db.accounts == old(db.accounts) && db.categories == old(db.categories)
    ensures db.defaultCategories == old(db.defaultCategories)
  {
    db.NextIdIsFresh();
    id := db.nextId;
    db.transactions := db.transactions[uid := db.Transactions(uid)[id := transaction]];
    db.nextId := db.nextId + 1;
  }

  /**
   * `addTransaction`. The transaction is stored first; only then is the
   * account read and its balance written back as `balance ± amount`. A
   * failure after the insert leaves the transaction stored and the balance
   * as it was. An account id that names no account is read as a record
   * without a balance, and the write-back to it is refused as `NotFound`.
   */
  method AddTransaction(db: Db, uid: Uid, transaction: TransactionData, fault: Fault) returns (outcome: AddOutcome)
    requires db.Valid()
    modifies db
    ensures db.Valid()
    ensures outcome.NotAdded? <==> fault == InsertRejected
    ensures outcome.NotAdded? ==> outcome.error == Unavailable
    ensures outcome.NotAdded? ==> db.transactions == old(db.transactions) && db.nextId == old(db.nextId)
    ensures !outcome.NotAdded? ==>
      && old(db.Fresh(outcome.id))
      && db.nextId == outcome.id + 1
      && db.transactions == old(db.transactions)[uid := old(db.Transactions(uid))[outcome.id := transaction]]
    ensures outcome.Added? <==> fault == NoFault && transaction.account in old(db.Accounts(uid))
    ensures outcome.Added? ==> db.accounts == old(db.accounts)[uid := ApplyToBalance(old(db.Accounts(uid)), transaction)]
    ensures !outcome.Added? ==> db.accounts == old(db.accounts)
    ensures outcome.BalanceNotUpdated? ==> outcome.error == if fault == NoFault then NotFound else Unavailable
    ensures db.categories == old(db.categories) && db.defaultCategories == old(db.defaultCategories)
  {
    if fault == InsertRejected {
      return NotAdded(Unavailable);
    }
    var id := InsertTransaction(db, uid, transaction);

    if fault == ReadRejected {
      return BalanceNotUpdated(id, Unavailable);
    }
    var account := AccountService.GetUserAccount(db, uid, transaction.account);

    if fault == WriteRejected {
      return BalanceNotUpdated(id, Unavailable);
    }
    // With no stored account the sum is NaN in the source; the value never
    // reaches the store, because the update of a missing document is refused.
    var balance := if account.data.Some? then account.data.value.balance + SignedAmount(transaction) else 0;
    var status := AccountService.UpdateAccount(db, uid, transaction.account, AccountService.BalancePatch(balance));
    if status.Failed? {
      return BalanceNotUpdated(id, status.error);
    }
    outcome := Added(id);
  }

  /** A `Partial<Transaction>`: the fields an update supplies. */
  datatype TransactionPatch = TransactionPatch(
    kind: Option<TransactionType>,
    name: Option<string>,
    amount: Option<int>,
    date: Option<Date>,
    category: Option<Id>,
    account: Option<Id>,
    description: Option<string>)

  /** `updateDoc`'s merge for a transaction: each supplied field replaces the stored one, the others stay. */
  function MergeTransaction(d: TransactionData, p: TransactionPatch): (r: TransactionData)
    ensures p.kind.Some? ==> r.kind == p.kind.value
    ensures p.kind.None? ==> r.kind == d.kind
    ensures p.name.Some? ==> r.name == p.name.value
    ensures p.name.None? ==> r.name == d.name
    ensures p.amount.Some? ==> r.amount == p.amount.value
    ensures p.amount.None? ==> r.amount == d.amount
    ensures p.date.Some? ==> r.date == p.date.value
    ensures p.date.None? ==> r.date == d.date
    ensures p.category.Some? ==> r.category == p.category.value
    ensures p.category.None? ==> r.category == d.category
    ensures p.account.Some? ==> r.account == p.account.value
    ensures p.account.None? ==> r.account == d.account
    ensures p.description.Some? ==> r.description == p.description
    ensures p.description.None? ==> r.description == d.description
  {
    TransactionData(
      if p.kind.Some? then p.kind.value else d.kind,
      if p.name.Some? then p.name.value else d.name,
      if p.amount.Some? then p.amount.value else d.amount,
      if p.date.Some? then p.date.value else d.date,
      if p.category.Some? then p.category.value else d.category,
      if p.account.Some? then p.account.value else d.account,
      if p.description.Some? then p.description else d.description)
  }

  /** Applying the same patch twice is applying it once; the empty patch changes nothing. */
  lemma MergeTransactionIdempotent(d: TransactionData, p: TransactionPatch)
    ensures MergeTransaction(MergeTransaction(d, p), p) == MergeTransaction(d, p)
    ensures MergeTransaction(d, TransactionPatch(None, None, None, None, None, None, None)) == d
  {
  }

  /**
   * `updateTransaction`: merges the supplied fields into one transaction
   * (refused with `NotFound` when it does not exist). No balance changes,
   * even when the amount, type or account does.
   */
  method UpdateTransaction(db: Db, uid: Uid, transactionId: Id, patch: TransactionPatch) returns (status: Status)
    requires db.Valid()
    modifies db
    ensures db.Valid()
    ensures status == if transactionId in old(db.Transactions(uid)) then Done else Failed(NotFound)
    ensures status.Done? ==> db.transactions == old(db.transactions)[uid :=
      old(db.Transactions(uid))[transactionId := MergeTransaction(old(db.Transactions(uid))[transactionId], patch)]]
    ensures status.Failed? ==> db.transactions == old(db.transactions)
    ensures db.accounts == old(db.accounts) && db.categories == old(db.categories)
    ensures db.defaultCategories == old(db.defaultCategories) && db.nextId == old(db.nextId)
  {
    var c: map<Id, TransactionData> := db.Transactions(uid);
    if transactionId !in c {
      return Failed(NotFound);
    }
    db.transactions := db.transactions[uid := c[transactionId := MergeTransaction(c[transactionId], patch)]];
    status := Done;
  }

  /** `deleteTransaction`: removes one transaction; the balance it moved stays moved. */
  method DeleteTransaction(db: Db, uid: Uid, transactionId: Id)
    requires db.Valid()
    modifies db
    ensures db.Valid()
    ensures db.transactions == old(db.transactions)[uid := old(db.Transactions(uid)) - {transactionId}]
    ensures db.accounts == old(db.accounts) && db.categories == old(db.categories)
    ensures db.defaultCategories == old(db.defaultCategories) && db.nextId == old(db.nextId)
  {
    db.transactions := db.transactions[uid := db.Transactions(uid) - {transactionId}];
  }
}
