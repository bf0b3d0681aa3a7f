/**
 * The category gateway: the user's own `users/{uid}/categories`, and the
 * shared `categories-default`, which it only reads.
 */
module CategoryService {
  import opened Docs
  import opened Types
  import opened Store
  import opened Sorting

  /** `orderBy("name")`: categories in code-point order of their names. */
  predicate NameLe(a: Category, b: Category) {
    StrLe(a.data.name, b.data.name)
  }

  lemma NameLeIsTotalPreorder()
    ensures TotalPreorder(NameLe)
  {
    forall a: Category, b: Category ensures NameLe(a, b) || NameLe(b, a) {
      StrLeTotal(a.data.name, b.data.name);
    }
    forall a: Category, b: Category, c: Category | NameLe(a, b) && NameLe(b, c) ensures NameLe(a, c) {
      StrLeTransitive(a.data.name, b.data.name, c.data.name);
    }
  }

  /**
   * A name-ordered query over one collection: the collection's documents,
   * each once, sorted by name. Ties keep id order.
   */
  function ByName(c: map<Id, CategoryData>, n: nat): (r: seq<Category>)
    requires forall id :: id in c ==> id < n
    ensures SortedBy(r, NameLe)
    ensures multiset(r) == multiset(Listed(c, n))
    ensures forall i :: 0 <= i < |r| ==> r[i].id in c && c[r[i].id] == r[i].data
    ensures forall id :: id in c ==> Doc(id, c[id]) in r
  {
    ByNameFacts(c, n);
    SortBy(Listed(c, n), NameLe)
  }

  lemma ByNameFacts(c: map<Id, CategoryData>, n: nat)
    requires forall id :: id in c ==> id < n
    ensures SortedBy(SortBy(Listed(c, n), NameLe), NameLe)
    ensures forall i :: 0 <= i < |SortBy(Listed(c, n), NameLe)| ==>
      var d := SortBy(Listed(c, n), NameLe)[i]; d.id in c && c[d.id] == d.data
    ensures forall id :: id in c ==> Doc(id, c[id]) in SortBy(Listed(c, n), NameLe)
  {
    NameLeIsTotalPreorder();
    SortBySorted(Listed(c, n), NameLe);
    ByNameMembers(c, n, SortBy(Listed(c, n), NameLe));
  }

  /** Any reordering of the listed categories holds exactly the collection's documents. */
  lemma ByNameMembers(c: map<Id, CategoryData>, n: nat, r: seq<Category>)
    requires forall id :: id in c ==> id < n
    requires multiset(r) == multiset(Listed(c, n))
    ensures forall i :: 0 <= i < |r| ==> r[i].id in c && c[r[i].id] == r[i].data
    ensures forall id :: id in c ==> Doc(id, c[id]) in r
  {
    var listed := Listed(c, n);
    SameMembers(r, listed);
    forall i | 0 <= i < |r| ensures r[i].id in c && c[r[i].id] == r[i].data {
      assert r[i] in listed;
      var j :| 0 <= j < |listed| && listed[j] == r[i];
    }
    forall id | id in c ensures Doc(id, c[id]) in r {
      assert Doc(id, c[id]) in listed;
    }
  }

  /** `getDefaultCategories`: the shared collection, sorted by name. */
  function GetDefaultCategories(db: Db): (r: seq<Category>)
    requires db.Valid()
    reads db
    ensures SortedBy(r, NameLe)
    ensures forall i :: 0 <= i < |r| ==> r[i].id in db.defaultCategories && db.defaultCategories[r[i].id] == r[i].data
    ensures forall id :: id in db.defaultCategories ==> Doc(id, db.defaultCategories[id]) in r
    ensures multiset(r) == multiset(Listed(db.defaultCategories, db.nextId))
  {
    ByName(db.defaultCategories, db.nextId)
  }

  /** `getUserCategories`: the user's own collection, sorted by name. */
  function GetUserCategories(db: Db, uid: Uid): (r: seq<Category>)
    requires db.Valid()
    reads db
    ensures SortedBy(r, NameLe)
    ensures forall i :: 0 <= i < |r| ==> r[i].id in db.Categories(uid) && db.Categories(uid)[r[i].id] == r[i].data
    ensures forall id :: id in db.Categories(uid) ==> Doc(id, db.Categories(uid)[id]) in r
    ensures multiset(r) == multiset(Listed(db.Categories(uid), db.nextId))
  {
    ByName(db.Categories(uid), db.nextId)
  }

  /** What `addCategory` is given: a category without id and without `isDefault`. */
  datatype CategoryInput = CategoryInput(name: string, kind: CategoryType, color: string, icon: string)

  /** `addCategory`: stores the fields with `isDefault` forced to false, under a fresh id. */
  method AddCategory(db: Db, uid: Uid, category: CategoryInput) returns (id: Id)
    requires db.Valid()
    modifies db
    ensures db.Valid()
    ensures old(db.Fresh(id))
    ensures db.nextId == id + 1
    ensures db.categories == old(db.categories)[uid := old(db.Categories(uid))[id :=
      CategoryData(category.name, category.kind, category.color, category.icon, false)]]
    ensures db.Categories(uid)[id].isDefault == false
    ensures db.accounts == old(db.accounts) && db.transactions == old(db.transactions)
    ensures db.defaultCategories == old(db.defaultCategories)
  {
    db.NextIdIsFresh();
    id := db.nextId;
    var data := CategoryData(category.name, category.kind, category.color, category.icon, false);
    db.categories := db.categories[uid := db.Categories(uid)[id := data]];
    db.nextId := db.nextId + 1;
  }

  /**
   * `updateCategory`: overwrites name, type, color, icon and `isDefault`,
   * the last copied from the argument, so the update can mark a user's
   * category as default. A missing document is refused with `NotFound`.
   */
  method UpdateCategory(db: Db, uid: Uid, category: Category) returns (status: Status)
    requires db.Valid()
    modifies db
    ensures db.Valid()
    ensures status == if category.id in old(db.Categories(uid)) then Done else Failed(NotFound)
    ensures status.Done? ==> db.categories == old(db.categories)[uid := old(db.Categories(uid))[category.id := category.data]]
    ensures status.Done? ==> db.Categories(uid)[category.id].isDefault == category.data.isDefault
    ensures status.Failed? ==> db.categories == old(db.categories)
    ensures db.accounts == old(db.accounts) && db.transactions == old(db.transactions)
    ensures db.defaultCategories == old(db.defaultCategories) && db.nextId == old(db.nextId)
  {
    var c: map<Id, CategoryData> := db.Categories(uid);
    if category.id !in c {
      return Failed(NotFound);
    }
    var d := category.data;
    db.categories := db.categories[uid := c[category.id := CategoryData(d.name, d.kind, d.color, d.icon, d.isDefault)]];
    status := Done;
  }

  /** `deleteCategory`: removes one category of the user's; the shared collection is never written. */
  method DeleteCategory(db: Db, uid: Uid, categoryId: Id)
    requires db.Valid()
    modifies db
    ensures db.Valid()
    ensures db.categories == old(db.categories)[uid := old(db.Categories(uid)) - {categoryId}]
    ensures db.accounts == old(db.accounts) && db.transactions == old(db.transactions)
    ensures db.defaultCategories == old(db.defaultCategories) && db.nextId == old(db.nextId)
  {
    db.categories := db.categories[uid := db.Categories(uid) - {categoryId}];
  }
}
