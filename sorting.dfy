/**
 * Stable sorting by a comparison, as the store does for `orderBy` and as
 * `Array.prototype.sort` does for a comparator, and the string order that
 * `orderBy("name")` uses.
 */
module Sorting {
  /** `le` is total and transitive: a key order that may tie. */
  ghost predicate TotalPreorder<T(!new)>(le: (T, T) -> bool) {
    && (forall a, b :: le(a, b) || le(b, a))
    && (forall a, b, c :: le(a, b) && le(b, c) ==> le(a, c))
  }

  predicate SortedBy<T>(s: seq<T>, le: (T, T) -> bool) {
    forall i, j :: 0 <= i < j < |s| ==> le(s[i], s[j])
  }

  /** Puts `x` in front of the first element of `s` it is not after. */
  function Insert<T>(x: T, s: seq<T>, le: (T, T) -> bool): (r: seq<T>)
    ensures multiset(r) == multiset(s) + multiset{x}
    ensures |r| == |s| + 1
  {
    if s == [] then [x]
    else if le(x, s[0]) then [x] + s
    else
      assert s == [s[0]] + s[1..];
      [s[0]] + Insert(x, s[1..], le)
  }

  /** Insertion sort: stable, since an element goes in front of its ties only when it came first. */
  function SortBy<T>(s: seq<T>, le: (T, T) -> bool): (r: seq<T>)
    ensures multiset(r) == multiset(s)
    ensures |r| == |s|
  {
    if s == [] then []
    else
      assert s == [s[0]] + s[1..];
      Insert(s[0], SortBy(s[1..], le), le)
  }

  lemma {:induction false} InsertSorted<T(!new)>(x: T, s: seq<T>, le: (T, T) -> bool)
    requires TotalPreorder(le)
    requires SortedBy(s, le)
    ensures SortedBy(Insert(x, s, le), le)
  {
    if s == [] {
    } else if le(x, s[0]) {
      var r := [x] + s;
      forall i, j | 0 <= i < j < |r| ensures le(r[i], r[j]) {
        if i == 0 && j > 1 {
          assert le(x, s[0]) && le(s[0], s[j - 1]);
        }
      }
    } else {
      assert le(s[0], x);
      var rest := Insert(x, s[1..], le);
      InsertSorted(x, s[1..], le);
      var r := [s[0]] + rest;
      forall j | 0 <= j < |rest| ensures le(s[0], rest[j]) {
        assert rest[j] in multiset(rest);
        assert rest[j] == x || rest[j] in multiset(s[1..]);
        if rest[j] != x {
          var k :| 0 <= k < |s[1..]| && s[1..][k] == rest[j];
          assert s[k + 1] == rest[j];
        }
      }
      assert Insert(x, s, le) == r;
      forall i, j | 0 <= i < j < |r| ensures le(r[i], r[j]) {
        if i > 0 {
          assert r[i] == rest[i - 1] && r[j] == rest[j - 1];
        } else {
          assert r[j] == rest[j - 1];
        }
      }
    }
  }

  lemma {:induction false} SortBySorted<T(!new)>(s: seq<T>, le: (T, T) -> bool)
    requires TotalPreorder(le)
    ensures SortedBy(SortBy(s, le), le)
  {
    if s != [] {
      SortBySorted(s[1..], le);
      InsertSorted(s[0], SortBy(s[1..], le), le);
    }
  }

  /** Where `x` stops: past every element it is not `le` to, in front of the first one it is. */
  lemma {:induction false} InsertAt<T>(x: T, s: seq<T>, m: nat, le: (T, T) -> bool)
    requires m <= |s|
    requires forall k :: 0 <= k < m ==> !le(x, s[k])
    requires m == |s| || le(x, s[m])
    ensures Insert(x, s, le) == s[..m] + [x] + s[m..]
  {
    if m == 0 {
      assert s[..0] + [x] + s[0..] == [x] + s;
    } else {
      var t := s[1..];
      forall k | 0 <= k < m - 1 ensures !le(x, t[k]) {
        assert t[k] == s[k + 1];
      }
      InsertAt(x, t, m - 1, le);
      ConsSplit(s, m, x);
    }
  }

  /** Putting the head back in front of a split tail. */
  lemma ConsSplit<T>(s: seq<T>, m: nat, x: T)
    requires 0 < m <= |s|
    ensures [s[0]] + (s[1..][..m - 1] + [x] + s[1..][m - 1..]) == s[..m] + [x] + s[m..]
  {
    assert s[1..][..m - 1] == s[1..m];
    assert s[1..][m - 1..] == s[m..];
    assert s[..m] == [s[0]] + s[1..m];
  }

  /**
   * `Array.prototype.sort` with a comparator: the array ends up holding what
   * `SortBy` makes of its old contents. Each element, from the last to the
   * first, is inserted into the sorted suffix after it.
   */
  method SortInPlace<T>(a: array<T>, le: (T, T) -> bool)
    modifies a
    ensures a[..] == SortBy(old(a[..]), le)
  {
    ghost var o := a[..];
    var i := a.Length;
    assert o[a.Length..] == [];
    while i > 0
      invariant 0 <= i <= a.Length
      invariant a[..i] == o[..i]
      invariant a[i..] == SortBy(o[i..], le)
    {
      i := i - 1;
      ghost var before := a[..];
      assert before[i] == o[i] by { assert before[..i + 1][i] == o[..i + 1][i]; }
      assert before[i + 1..] == SortBy(o[i + 1..], le);
      InsertFrom(a, i, le);
      SortStep(o, i, le);
      assert a[..i] == o[..i] by { assert a[..i] == before[..i]; }
    }
    assert a[..] == a[0..] && o == o[0..];
  }

  /** Sorting a suffix one element longer inserts that element into the sorted rest. */
  lemma SortStep<T>(o: seq<T>, i: nat, le: (T, T) -> bool)
    requires i < |o|
    ensures SortBy(o[i..], le) == Insert(o[i], SortBy(o[i + 1..], le), le)
  {
    assert o[i..][0] == o[i] && o[i..][1..] == o[i + 1..];
  }

  /** Moves `a[i]` right past the elements after it that it does not go in front of. */
  method InsertFrom<T>(a: array<T>, i: nat, le: (T, T) -> bool)
    requires i < a.Length
    modifies a
    ensures a[..i] == old(a[..i])
    ensures a[i..] == Insert(old(a[i]), old(a[i + 1..]), le)
  {
    ghost var s := a[i + 1..];
    ghost var x := a[i];
    var j := SiftRight(a, i, le, s, x);
    InsertAt(x, s, j - i, le);
    Assemble(a, i, j, s, x);
  }

  /**
   * The swap loop of `InsertFrom`: `x`, at `a[i]`, swaps with its right
   * neighbour `s[k]` for as long as it does not go in front of it, and stops
   * at `j`.
   */
  method SiftRight<T>(a: array<T>, i: nat, le: (T, T) -> bool, ghost s: seq<T>, ghost x: T) returns (j: nat)
    requires i < a.Length && a[i] == x && a[i + 1..] == s
    modifies a
    ensures i <= j < a.Length
    ensures a[..i] == old(a[..i])
    ensures forall k :: i <= k < j ==> a[k] == s[k - i]
    ensures forall k :: 0 <= k < j - i ==> !le(x, s[k])
    ensures a[j] == x
    ensures forall k :: j < k < a.Length ==> a[k] == s[k - i - 1]
    ensures j - i == |s| || le(x, s[j - i])
  {
    j := i;
    while j + 1 < a.Length && !le(a[j], a[j + 1])
      invariant i <= j < a.Length
      invariant a[..i] == old(a[..i])
      invariant forall k :: i <= k < j ==> a[k] == s[k - i]
      invariant forall k :: 0 <= k < j - i ==> !le(x, s[k])
      invariant a[j] == x
      invariant forall k :: j < k < a.Length ==> a[k] == s[k - i - 1]
    {
      a[j], a[j + 1] := a[j + 1], a[j];
      j := j + 1;
    }
  }

  /** An array suffix that agrees with `s` except for `x` put in at position `j`. */
  lemma Assemble<T>(a: array<T>, i: nat, j: nat, s: seq<T>, x: T)
    requires i <= j < a.Length && i + |s| + 1 == a.Length
    requires forall k :: i <= k < j ==> a[k] == s[k - i]
    requires a[j] == x
    requires forall k :: j < k < a.Length ==> a[k] == s[k - i - 1]
    ensures a[i..] == s[..j - i] + [x] + s[j - i..]
  {
    var r := s[..j - i] + [x] + s[j - i..];
    forall k | 0 <= k < |r| ensures a[i..][k] == r[k] {
      if k < j - i {
        assert r[k] == s[k];
      } else if k > j - i {
        assert r[k] == s[k - 1];
      }
    }
  }

  /** No two elements of `s` share a key. */
  predicate KeysDistinct<T, K(==)>(s: seq<T>, key: T -> K) {
    forall i, j :: 0 <= i < j < |s| ==> key(s[i]) != key(s[j])
  }

  /** Inserting an element whose key is new keeps the keys distinct. */
  lemma {:induction false} InsertKeysDistinct<T, K>(x: T, s: seq<T>, le: (T, T) -> bool, key: T -> K)
    requires KeysDistinct(s, key)
    requires forall k :: 0 <= k < |s| ==> key(s[k]) != key(x)
    ensures KeysDistinct(Insert(x, s, le), key)
  {
    if s != [] && !le(x, s[0]) {
      var t := s[1..];
      assert forall k :: 0 <= k < |t| ==> t[k] == s[k + 1];
      InsertKeysDistinct(x, t, le, key);
      var rest := Insert(x, t, le);
      forall j | 0 <= j < |rest| ensures key(rest[j]) != key(s[0]) {
        assert rest[j] in multiset(rest);
        if rest[j] != x {
          assert rest[j] in multiset(t);
          var k :| 0 <= k < |t| && t[k] == rest[j];
        }
      }
      var r := [s[0]] + rest;
      forall i, j | 0 <= i < j < |r| ensures key(r[i]) != key(r[j]) {
        assert r[j] == rest[j - 1];
        if i > 0 {
          assert r[i] == rest[i - 1];
        }
      }
    } else if s != [] {
      var r := [x] + s;
      forall i, j | 0 <= i < j < |r| ensures key(r[i]) != key(r[j]) {
        assert r[j] == s[j - 1];
        if i > 0 {
          assert r[i] == s[i - 1];
        }
      }
    }
  }

  /** Sorting keeps keys distinct: it only reorders. */
  lemma {:induction false} SortByKeysDistinct<T, K>(s: seq<T>, le: (T, T) -> bool, key: T -> K)
    requires KeysDistinct(s, key)
    ensures KeysDistinct(SortBy(s, le), key)
  {
    if s != [] {
      var t := s[1..];
      assert forall k :: 0 <= k < |t| ==> t[k] == s[k + 1];
      SortByKeysDistinct(t, le, key);
      var sorted := SortBy(t, le);
      forall k | 0 <= k < |sorted| ensures key(sorted[k]) != key(s[0]) {
        assert sorted[k] in multiset(t);
        var m :| 0 <= m < |t| && t[m] == sorted[k];
      }
      InsertKeysDistinct(s[0], sorted, le, key);
    }
  }

  /** Two sequences that are permutations of each other hold the same elements. */
  lemma SameMembers<T>(a: seq<T>, b: seq<T>)
    requires multiset(a) == multiset(b)
    ensures forall x :: x in a <==> x in b
  {
    forall x ensures x in a <==> x in b {
      assert x in a <==> x in multiset(a);
      assert x in b <==> x in multiset(b);
    }
  }

  /** Lexicographic order on strings by code point: `a` sorts no later than `b`. */
  predicate StrLe(a: string, b: string) {
    a == [] || (b != [] && (a[0] < b[0] || (a[0] == b[0] && StrLe(a[1..], b[1..]))))
  }

  lemma {:induction false} StrLeTotal(a: string, b: string)
    ensures StrLe(a, b) || StrLe(b, a)
  {
    if a != [] && b != [] && a[0] == b[0] {
      StrLeTotal(a[1..], b[1..]);
    }
  }

  lemma {:induction false} StrLeTransitive(a: string, b: string, c: string)
    requires StrLe(a, b) && StrLe(b, c)
    ensures StrLe(a, c)
  {
    if a != [] && b != [] && c != [] && a[0] == b[0] && b[0] == c[0] {
      StrLeTransitive(a[1..], b[1..], c[1..]);
    }
  }
}
