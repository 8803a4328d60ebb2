/**
  The `bankAccount` struct of the access-control lesson: a private balance
  that only `deposit(amount:)` and `withdraw(amount:)` may change.
 */
module StructPartTwo {

  class BankAccount {
    /** The private balance; a new account holds nothing. */
    var funds: int

    constructor ()
      ensures funds == 0
    {
      funds := 0;
    }

    /** `deposit(amount:)`: the balance grows by exactly `amount`. */
    method Deposit(amount: int)
      modifies this
      ensures funds == old(funds) + amount
    {
      funds := funds + amount;
    }

    /**
      `withdraw(amount:)`: succeeds exactly when the balance covers the amount,
      and only then takes the amount off; a guarded withdrawal never drives a
      non-negative balance below zero.
     */
    method Withdraw(amount: int) returns (success: bool)
      modifies this
      ensures success <==> old(funds) >= amount
      ensures success ==> funds == old(funds) - amount
      ensures !success ==> funds == old(funds)
      ensures old(funds) >= 0 ==> funds >= 0
    {
      if funds >= amount {
        funds := funds - amount;
        success := true;
      } else {
        success := false;
      }
    }
  }

  /** The worked example: deposit 300 into a new account, then withdraw 200. */
  method DepositThenWithdraw() returns (success: bool, remaining: int)
    ensures success
    ensures remaining == 100
  {
    var account := new BankAccount();
    account.Deposit(300);
    success := account.Withdraw(200);
    remaining := account.funds;
  }
}
