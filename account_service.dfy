/** The account gateway: every operation is scoped to `users/{uid}/accounts`. */
module AccountService {
  import opened Wrappers
  import opened Docs
  import opened Types
  import opened Store

  /** A `Partial<Account>`: the fields an update supplies. */
  datatype AccountPatch = AccountPatch(
    name: Option<string>,
    balance: Option<int>,
    currency: Option<Currency>,
    kind: Option<AccountType>)

  /** The patch that supplies only `balance`. */
  function BalancePatch(balance: int): AccountPatch {
    AccountPatch(None, Some(balance), None, None)
  }

  /** `updateDoc`'s merge: each supplied field replaces the stored one, the others stay. */
  function Merge(d: AccountData, p: AccountPatch): (r: AccountData)
    ensures p.name.Some? ==> r.name == p.name.value
    ensures p.name.None? ==> r.name == d.name
    ensures p.balance.Some? ==> r.balance == p.balance.value
    ensures p.balance.None? ==> r.balance == d.balance
    ensures p.currency.Some? ==> r.currency == p.currency.value
    ensures p.currency.None? ==> r.currency == d.currency
    ensures p.kind.Some? ==> r.kind == p.kind.value
    ensures p.kind.None? ==> r.kind == d.kind
  {
    AccountData(
      if p.name.Some? then p.name.value else d.name,
      if p.balance.Some? then p.balance.value else d.balance,
      if p.currency.Some? then p.currency.value else d.currency,
      if p.kind.Some? then p.kind.value else d.kind)
  }

  /** Applying the same patch twice is applying it once; the empty patch changes nothing. */
  lemma MergeIdempotent(d: AccountData, p: AccountPatch)
    ensures Merge(Merge(d, p), p) == Merge(d, p)
    ensures Merge(d, AccountPatch(None, None, None, None)) == d
  {
  }

  /** A balance-only patch rewrites the balance and keeps the other fields. */
  lemma BalancePatchOnlyBalance(d: AccountData, b: int)
    ensures Merge(d, BalancePatch(b)) == d.(balance := b)
  {
  }

  /**
   * `getUserAccount`: the stored fields together with the id. A missing
   * document does not fail; `data()` is undefined, so the record carries
   * only the id.
   */
  function GetUserAccount(db: Db, uid: Uid, accountId: Id): (r: Doc<Option<AccountData>>)
    reads db
    ensures r.id == accountId
    ensures r.data.Some? <==> accountId in db.Accounts(uid)
    ensures r.data.Some? ==> r.data.value == db.Accounts(uid)[accountId]
  {
    var c := db.Accounts(uid);
    Doc(accountId, if accountId in c then Some(c[accountId]) else None)
  }

  /** `getUserAccounts`: every account of that user, each tagged with its id, in id order. */
  function GetUserAccounts(db: Db, uid: Uid): (r: seq<Account>)
    requires db.Valid()
    reads db
    ensures forall i :: 0 <= i < |r| ==> r[i].id in db.Accounts(uid) && db.Accounts(uid)[r[i].id] == r[i].data
    ensures forall id :: id in db.Accounts(uid) ==> Doc(id, db.Accounts(uid)[id]) in r
    ensures forall i, j :: 0 <= i < j < |r| ==> r[i].id != r[j].id
  {
    Listed(db.Accounts(uid), db.nextId)
  }

  /** `addAccount`: stores the fields under a fresh id and returns it. */
  method AddAccount(db: Db, uid: Uid, account: AccountData) returns (id: Id)
    requires db.Valid()
    modifies db
    ensures db.Valid()
    ensures old(db.Fresh(id))
    ensures db.nextId == id + 1
    ensures db.accounts == old(db.accounts)[uid := old(db.Accounts(uid))[id := account]]
    ensures db.categories == old(db.categories) && db.transactions == old(db.transactions)
    ensures db.defaultCategories == old(db.defaultCategories)
    ensures GetUserAccount(db, uid, id) == Doc(id, Some(account))
  {
    db.NextIdIsFresh();
    id := db.nextId;
    db.accounts := db.accounts[uid := db.Accounts(uid)[id := account]];
    db.nextId := db.nextId + 1;
  }

  /**
   * `updateAccount`: merges the supplied fields into one account. Updating
   * a document that does not exist is refused with `NotFound`.
   */
  method UpdateAccount(db: Db, uid: Uid, accountId: Id, patch: AccountPatch) returns (status: Status)
    requires db.Valid()
    modifies db
    ensures db.Valid()
    ensures status == if accountId in old(db.Accounts(uid)) then Done else Failed(NotFound)
    ensures status.Done? ==> db.accounts == old(db.accounts)[uid := old(db.Accounts(uid))[accountId := Merge(old(db.Accounts(uid))[accountId], patch)]]
    ensures status.Failed? ==> db.accounts == old(db.accounts)
    ensures db.categories == old(db.categories) && db.transactions == old(db.transactions)
    ensures db.defaultCategories == old(db.defaultCategories) && db.nextId == old(db.nextId)
  {
    var c: map<Id, AccountData> := db.Accounts(uid);
    if accountId !in c {
      return Failed(NotFound);
    }
    db.accounts := db.accounts[uid := c[accountId := Merge(c[accountId], patch)]];
    status := Done;
  }

  /**
   * `deleteAccount`: removes that one account, whether or not it existed.
   * Transactions that reference it are left as they are.
   */
  method DeleteAccount(db: Db, uid: Uid, accountId: Id)
    requires db.Valid()
    modifies db
    ensures db.Valid()
    ensures db.accounts == old(db.accounts)[uid := old(db.Accounts(uid)) - {accountId}]
    ensures db.categories == old(db.categories) && db.transactions == old(db.transactions)
    ensures db.defaultCategories == old(db.defaultCategories) && db.nextId == old(db.nextId)
  {
    db.accounts := db.accounts[uid := db.Accounts(uid) - {accountId}];
  }
}
