/**
 * The three figures on the dashboard: the month's income, the month's
 * expenses and the balance of all accounts, each a left-to-right `reduce`
 * that starts from 0.
 */
module Dashboard {
  import opened Docs
  import opened Types

  /** `s.reduce((sum, x) => sum + f(x), 0)`: the last element is added last. */
  function Sum<T>(s: seq<T>, f: T -> int): int
  {
    if |s| == 0 then 0 else Sum(s[..|s| - 1], f) + f(s[|s| - 1])
  }

  /** `s.filter((t) => t.type === kind)`, order kept. */
  function OfType(s: seq<Transaction>, kind: TransactionType): (r: seq<Transaction>)
    ensures forall i :: 0 <= i < |r| ==> r[i].data.kind == kind && r[i] in s
    ensures forall t :: t in s && t.data.kind == kind ==> t in r
    ensures |r| <= |s|
  {
    if |s| == 0 then []
    else
      var init := OfType(s[..|s| - 1], kind);
      assert forall t :: t in s ==> t in s[..|s| - 1] || t == s[|s| - 1];
      if s[|s| - 1].data.kind == kind then init + [s[|s| - 1]] else init
  }

  function Amount(t: Transaction): int { t.data.amount }

  function AccountBalance(a: Account): int { a.data.balance }

  /** A transaction's amount when it is of type `kind`, else 0. */
  function AmountIf(kind: TransactionType): Transaction -> int {
    (t: Transaction) => if t.data.kind == kind then t.data.amount else 0
  }

  /** The month's income: the sum over all transactions of the income amounts, expenses counting 0. */
  function TotalIncome(s: seq<Transaction>): (total: int)
    ensures total == Sum(s, AmountIf(Income))
  {
    OfTypeSum(s, Income);
    Sum(OfType(s, Income), Amount)
  }

  /** The month's expenses: the sum over all transactions of the expense amounts, income counting 0. */
  function TotalExpenses(s: seq<Transaction>): (total: int)
    ensures total == Sum(s, AmountIf(Expense))
  {
    OfTypeSum(s, Expense);
    Sum(OfType(s, Expense), Amount)
  }

  /** The balances added up as plain numbers, whatever their currency; never negative when no balance is. */
  function Balance(accounts: seq<Account>): (total: int)
    ensures (forall i :: 0 <= i < |accounts| ==> accounts[i].data.balance >= 0) ==> total >= 0
  {
    SumNonNegative(accounts, AccountBalance);
    Sum(accounts, AccountBalance)
  }

  /** Summing the filtered list is summing the whole list with the other type's amounts as 0. */
  lemma {:induction false} OfTypeSum(s: seq<Transaction>, kind: TransactionType)
    ensures Sum(OfType(s, kind), Amount) == Sum(s, AmountIf(kind))
  {
    if |s| > 0 {
      var init, last := s[..|s| - 1], s[|s| - 1];
      OfTypeSum(init, kind);
      if last.data.kind == kind {
        var f := OfType(init, kind) + [last];
        assert f[..|f| - 1] == OfType(init, kind);
      }
    }
  }

  /** A sum of terms that are never negative is never negative. */
  lemma {:induction false} SumNonNegative<T>(s: seq<T>, f: T -> int)
    ensures (forall i :: 0 <= i < |s| ==> f(s[i]) >= 0) ==> Sum(s, f) >= 0
  {
    if |s| > 0 {
      SumNonNegative(s[..|s| - 1], f);
    }
  }

  /** Summing a concatenation sums the two halves. */
  lemma {:induction false} SumAppend<T>(a: seq<T>, b: seq<T>, f: T -> int)
    ensures Sum(a + b, f) == Sum(a, f) + Sum(b, f)
  {
    if |b| == 0 {
      assert a + b == a;
    } else {
      assert (a + b)[..|a + b| - 1] == a + b[..|b| - 1];
      SumAppend(a, b[..|b| - 1], f);
    }
  }

  /** A sum does not depend on the order of its terms. */
  lemma {:induction false} SumPermutation<T>(a: seq<T>, b: seq<T>, f: T -> int)
    requires multiset(a) == multiset(b)
    ensures Sum(a, f) == Sum(b, f)
  {
    if |a| == 0 {
      assert |b| == |multiset(b)| == 0;
    } else {
      var x := a[|a| - 1];
      var init := a[..|a| - 1];
      assert a == init + [x];
      assert x in multiset(b);
      var i :| 0 <= i < |b| && b[i] == x;
      var rest := b[..i] + b[i + 1..];
      RemoveOne(a, b, i);
      SumPermutation(init, rest, f);
      SumRemove(b, i, f);
    }
  }

  /** Taking the last of `a` and any copy of it from `b` leaves two permutations of each other. */
  lemma RemoveOne<T>(a: seq<T>, b: seq<T>, i: nat)
    requires multiset(a) == multiset(b) && |a| > 0
    requires i < |b| && b[i] == a[|a| - 1]
    ensures multiset(a[..|a| - 1]) == multiset(b[..i] + b[i + 1..])
  {
    var x := b[i];
    assert a == a[..|a| - 1] + [x];
    assert b == b[..i] + [x] + b[i + 1..];
    calc {
      multiset(a[..|a| - 1]) + multiset{x};
      multiset(b);
      multiset(b[..i] + b[i + 1..]) + multiset{x};
    }
    assert multiset(a[..|a| - 1]) == multiset(a[..|a| - 1]) + multiset{x} - multiset{x};
  }

  /** The sum is the term at `i` plus the sum of the others. */
  lemma SumRemove<T>(b: seq<T>, i: nat, f: T -> int)
    requires i < |b|
    ensures Sum(b, f) == Sum(b[..i] + b[i + 1..], f) + f(b[i])
  {
    var front, back := b[..i], b[i + 1..];
    var upTo := front + [b[i]];
    assert b == upTo + back;
    assert upTo[..|upTo| - 1] == front;
    SumAppend(upTo, back, f);
    SumAppend(front, back, f);
  }

  /** With nothing listed, every total is 0. */
  lemma EmptyTotals()
    ensures TotalIncome([]) == 0 && TotalExpenses([]) == 0 && Balance([]) == 0
  {
  }

  /** Every transaction is income or expense, so the two totals add up to the sum of all amounts. */
  lemma {:induction false} IncomePlusExpenses(s: seq<Transaction>)
    ensures TotalIncome(s) + TotalExpenses(s) == Sum(s, Amount)
  {
    if |s| > 0 {
      IncomePlusExpenses(s[..|s| - 1]);
      var last := s[|s| - 1];
      if last.data.kind == Income {
        SumAppend(OfType(s[..|s| - 1], Income), [last], Amount);
      } else {
        SumAppend(OfType(s[..|s| - 1], Expense), [last], Amount);
      }
      assert Sum([last], Amount) == Amount(last) by {
        assert [last][..0] == [];
      }
    }
  }

  /** Filtering by type commutes with reordering. */
  lemma {:induction false} OfTypePermutation(a: seq<Transaction>, b: seq<Transaction>, kind: TransactionType)
    requires multiset(a) == multiset(b)
    ensures multiset(OfType(a, kind)) == multiset(OfType(b, kind))
  {
    OfTypeCounts(a, kind);
    OfTypeCounts(b, kind);
  }

  /** The filter keeps every copy of a matching transaction and no other. */
  lemma {:induction false} OfTypeCounts(s: seq<Transaction>, kind: TransactionType)
    ensures forall t :: multiset(OfType(s, kind))[t] == if t.data.kind == kind then multiset(s)[t] else 0
  {
    if |s| > 0 {
      OfTypeCounts(s[..|s| - 1], kind);
      assert s == s[..|s| - 1] + [s[|s| - 1]];
    }
  }

  /** No total depends on the order of the lists it is computed from. */
  lemma TotalsIgnoreOrder(s: seq<Transaction>, s': seq<Transaction>, accounts: seq<Account>, accounts': seq<Account>)
    requires multiset(s) == multiset(s') && multiset(accounts) == multiset(accounts')
    ensures TotalIncome(s) == TotalIncome(s')
    ensures TotalExpenses(s) == TotalExpenses(s')
    ensures Balance(accounts) == Balance(accounts')
  {
    OfTypePermutation(s, s', Income);
    SumPermutation(OfType(s, Income), OfType(s', Income), Amount);
    OfTypePermutation(s, s', Expense);
    SumPermutation(OfType(s, Expense), OfType(s', Expense), Amount);
    SumPermutation(accounts, accounts', AccountBalance);
  }
}
