/**
 * Primitives of the document store shared by the three services: ids,
 * documents read back together with their id, the outcome of a write, and
 * the two ways the services turn a collection into a list.
 */
module Docs {
  /** Document ids. The store hands them out from a counter (see Store.Db). */
  type Id = nat

  /** A user's id: the `{uid}` segment of `users/{uid}/...`. */
  type Uid = string

  /** A document as the services return it: `{ id: doc.id, ...doc.data() }`. */
  datatype Doc<T> = Doc(id: Id, data: T)

  /** Why a remote write was refused. */
  datatype StoreError =
    | NotFound     // `updateDoc` on a document that does not exist
    | Unavailable  // the request never succeeded (network, service, rules)

  /** The settled promise of a write: resolved, or rejected with an error. */
  datatype Status = Done | Failed(error: StoreError)

  /**
   * The documents of collection `c` whose id is below `n`, in ascending id
   * order, which is the order a query without `orderBy` returns them in.
   */
  function Listed<T>(c: map<Id, T>, n: nat): (r: seq<Doc<T>>)
    ensures forall i :: 0 <= i < |r| ==> r[i].id < n && r[i].id in c && c[r[i].id] == r[i].data
    ensures forall id :: id < n && id in c ==> Doc(id, c[id]) in r
    ensures forall i, j :: 0 <= i < j < |r| ==> r[i].id < r[j].id
  {
    if n == 0 then []
    else Listed(c, n - 1) + (if n - 1 in c then [Doc(n - 1, c[n - 1])] else [])
  }

  /** No two documents of `s` share an id. */
  predicate IdsDistinct<T>(s: seq<Doc<T>>) {
    forall i, j :: 0 <= i < j < |s| ==> s[i].id != s[j].id
  }

  /** A document's id, as a key for sorting lemmas. */
  function IdOf<T>(d: Doc<T>): Id { d.id }

  /** `k` is the index of the first document of `s` whose id is `id`. */
  ghost predicate IsFirstWithId<T>(s: seq<Doc<T>>, id: Id, k: int) {
    0 <= k < |s| && s[k].id == id && forall j :: 0 <= j < k ==> s[j].id != id
  }

  /**
   * The position `Array.prototype.find((x) => x.id === id)` stops at:
   * the first document with that id, or `|s|` when there is none.
   */
  function FirstWithId<T>(s: seq<Doc<T>>, id: Id): (k: nat)
    ensures k <= |s|
    ensures k < |s| ==> IsFirstWithId(s, id, k)
    ensures k == |s| <==> forall j :: 0 <= j < |s| ==> s[j].id != id
  {
    if s == [] then 0
    else if s[0].id == id then 0
    else 1 + FirstWithId(s[1..], id)
  }
}
