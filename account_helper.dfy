/**
 * Labels for account types. They take the stored string, because a value
 * read from the store need not be one of the enumeration's members.
 */
module AccountHelper {
  import opened Types

  /** `getAccountType`: "Konto bankowe" for a bank account, "Gotówka" for anything else. */
  function GetAccountType(kind: string): (text: string)
    ensures kind == AccountTypeValue(Bank) <==> text == "Konto bankowe"
    ensures kind != AccountTypeValue(Bank) <==> text == "Gotówka"
  {
    if kind == AccountTypeValue(Bank) then "Konto bankowe" else "Gotówka"
  }

  /** `getAccountIcon`: a bank, a banknote, or a chart for a value outside the enumeration. */
  function GetAccountIcon(kind: string): (icon: string)
    ensures kind == AccountTypeValue(Bank) <==> icon == "🏦"
    ensures kind == AccountTypeValue(Cash) <==> icon == "💵"
    ensures (forall t :: kind != AccountTypeValue(t)) <==> icon == "📊"
  {
    if kind == AccountTypeValue(Bank) then "🏦"
    else if kind == AccountTypeValue(Cash) then "💵"
    else "📊"
  }

  /** Both helpers tell the two account types apart. */
  lemma LabelsDistinguishTypes(a: AccountType, b: AccountType)
    ensures GetAccountType(AccountTypeValue(a)) == GetAccountType(AccountTypeValue(b)) <==> a == b
    ensures GetAccountIcon(AccountTypeValue(a)) == GetAccountIcon(AccountTypeValue(b)) <==> a == b
  {
  }
}
