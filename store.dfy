/**
 * The document store, in memory: the per-user collections
 * `users/{uid}/accounts`, `users/{uid}/categories` and
 * `users/{uid}/transactions`, and the shared `categories-default`. Each
 * collection maps a document id to its stored fields; fresh ids come from
 * one counter.
 */
module Store {
  import opened Docs
  import opened Types

  class Db {
    var accounts: map<Uid, map<Id, AccountData>>
    var categories: map<Uid, map<Id, CategoryData>>
    var transactions: map<Uid, map<Id, TransactionData>>
    var defaultCategories: map<Id, CategoryData>
    /** The next id `addDoc` hands out. */
    var nextId: nat

    /** `users/{uid}/accounts`; a user who never wrote one has an empty collection. */
    function Accounts(uid: Uid): map<Id, AccountData>
      reads this`accounts
    {
      if uid in accounts then accounts[uid] else map[]
    }

    /** `users/{uid}/categories`. */
    function Categories(uid: Uid): map<Id, CategoryData>
      reads this`categories
    {
      if uid in categories then categories[uid] else map[]
    }

    /** `users/{uid}/transactions`. */
    function Transactions(uid: Uid): map<Id, TransactionData>
      reads this`transactions
    {
      if uid in transactions then transactions[uid] else map[]
    }

    /** No collection holds a document with id `id`. */
    ghost predicate Fresh(id: Id)
      reads this
    {
      && id !in defaultCategories
      && (forall u :: id !in Accounts(u))
      && (forall u :: id !in Categories(u))
      && (forall u :: id !in Transactions(u))
    }

    /** Every id in use was handed out before, so `nextId` is fresh. */
    ghost predicate Valid()
      reads this
    {
      && (forall id :: id in defaultCategories ==> id < nextId)
      && (forall u, id :: u in accounts && id in accounts[u] ==> id < nextId)
      && (forall u, id :: u in categories && id in categories[u] ==> id < nextId)
      && (forall u, id :: u in transactions && id in transactions[u] ==> id < nextId)
    }

    lemma NextIdIsFresh()
      requires Valid()
      ensures Fresh(nextId)
    {
    }

    /** An empty store whose default categories were seeded ahead of time. */
    constructor (defaults: map<Id, CategoryData>, firstFreeId: nat)
      requires forall id :: id in defaults ==> id < firstFreeId
      ensures Valid()
      ensures defaultCategories == defaults && nextId == firstFreeId
      ensures accounts == map[] && categories == map[] && transactions == map[]
    {
      accounts, categories, transactions := map[], map[], map[];
      defaultCategories, nextId := defaults, firstFreeId;
    }
  }
}
