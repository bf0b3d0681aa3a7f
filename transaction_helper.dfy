/** The label of a transaction type (the number and date formatters are not modelled). */
module TransactionHelper {
  import opened Types

  /** `getTransactionType`: "Przychód" for income, "Wydatek" for any other value. */
  function GetTransactionType(kind: string): (text: string)
    ensures kind == TransactionTypeValue(Income) <==> text == "Przychód"
    ensures kind != TransactionTypeValue(Income) <==> text == "Wydatek"
  {
    if kind == TransactionTypeValue(Income) then "Przychód" else "Wydatek"
  }

  /** The label determines the type. */
  lemma LabelDeterminesType(a: TransactionType, b: TransactionType)
    ensures GetTransactionType(TransactionTypeValue(a)) == GetTransactionType(TransactionTypeValue(b)) <==> a == b
  {
  }
}
