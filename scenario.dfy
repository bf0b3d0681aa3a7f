/**
 * One run of the services end to end: a bank account opened with 1000
 * and an expense of 150 recorded against it.
 */
module Scenario {
  import opened Wrappers
  import opened Docs
  import opened Types
  import opened Store
  import AccountService
  import TransactionService

  /** The account's balance reads 850 afterwards, and the one transaction is stored under the user. */
  method CheckingAccountExpense() returns (balance: int, stored: nat)
    ensures balance == 850
    ensures stored == 1
  {
    var db := new Db(map[], 0);
    var uid := "user";
    var account := AccountService.AddAccount(db, uid, AccountData("Checking", 1000, PLN, Bank));
    var expense := TransactionData(Expense, "Zakupy", 150, Date(2024, 0, 1), 7, account, None);
    var outcome := TransactionService.AddTransaction(db, uid, expense, TransactionService.NoFault);
    var read := AccountService.GetUserAccount(db, uid, account);
    balance := if read.data.Some? then read.data.value.balance else 0;
    stored := |db.Transactions(uid).Keys|;
  }
}
