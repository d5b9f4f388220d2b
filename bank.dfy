/**
 * The bank's objects: an `Account` whose balance and history its own
 * deposit and withdraw methods update in place, and the `Bank` registry that
 * numbers, opens and logs in to accounts. Console prompts are replaced by
 * already-parsed arguments; printed success lines become returned flags.
 */
module BankSystem {
  import opened Wrappers
  import opened AccountLedger
  import opened AccountRegistry

  class Account {
    const name: string
    const accNo: int
    /** The variant (SavingsAccount or CurrentAccount). */
    const kind: Kind
    /** Set once at construction; only compared through VerifyPin. */
    const pin: string
    var balance: real
    var history: seq<Transaction>

    /** The balance never goes negative (an opening balance is at least 500). */
    ghost predicate Valid()
      reads this
    {
      balance >= 0.0
    }

    /** The part of the account that deposits and withdrawals change. */
    function State(): Ledger
      reads this
    {
      Ledger(balance, history)
    }

    constructor (name: string, accNo: int, pin: string, balance: real, kind: Kind)
      ensures this.name == name && this.accNo == accNo && this.pin == pin && this.kind == kind
      ensures this.balance == balance && history == []
    {
      this.name := name;
      this.accNo := accNo;
      this.pin := pin;
      this.kind := kind;
      this.balance := balance;
      history := [];
    }

    /** True exactly when `candidate` is the PIN fixed at construction. */
    function VerifyPin(candidate: string): (ok: bool)
      ensures ok <==> candidate == pin
    {
      pin == candidate
    }

    /** A pure read of the balance, which is non-negative on a valid account. */
    function GetBalance(): (b: real)
      reads this
      ensures Valid() ==> b >= 0.0
      ensures b == State().balance
    {
      balance
    }

    /** Accepted iff amount > 0; then the balance grows by amount and one Deposit entry is appended. */
    method Deposit(amount: real) returns (ok: bool)
      modifies this`balance, this`history
      ensures ok <==> amount > 0.0
      ensures ok ==> balance == old(balance) + amount && history == old(history) + [Transaction.Deposit(amount)]
      ensures !ok ==> balance == old(balance) && history == old(history)
      ensures State() == Apply(old(State()), DepositRequest(amount))
      ensures old(Valid()) ==> Valid()
    {
      ok := amount > 0.0;
      if ok {
        balance := balance + amount;
        history := history + [Transaction.Deposit(amount)];
      }
    }

    /** Accepted iff 0 < amount <= balance; then the balance drops by amount and one Withdraw entry is appended. */
    method Withdraw(amount: real) returns (ok: bool)
      modifies this`balance, this`history
      ensures ok <==> 0.0 < amount <= old(balance)
      ensures ok ==> balance == old(balance) - amount && history == old(history) + [Transaction.Withdraw(amount)]
      ensures !ok ==> balance == old(balance) && history == old(history)
      ensures State() == Apply(old(State()), WithdrawRequest(amount))
      ensures old(Valid()) ==> Valid()
    {
      ok := 0.0 < amount <= balance;
      if ok {
        balance := balance - amount;
        history := history + [Transaction.Withdraw(amount)];
      }
    }
  }

  class Bank {
    var accounts: map<int, Account>
    var nextAccNo: int

    /** The counter and registry are those of `Registry`, and each account is stored under its own number. */
    ghost predicate Valid()
      reads this
    {
      AccountRegistry.Valid(Abstract()) &&
      forall n :: n in accounts ==> accounts[n].accNo == n
    }

    /** The counter and the registered numbers. */
    function Abstract(): Registry
      reads this
    {
      Registry(nextAccNo, accounts.Keys)
    }

    constructor ()
      ensures Valid()
      ensures accounts == map[] && nextAccNo == FIRST_ACCOUNT_NUMBER
    {
      accounts := map[];
      nextAccNo := FIRST_ACCOUNT_NUMBER;
    }

    /** Returns the current counter and advances it by one. */
    method GenerateAccNo() returns (n: int)
      requires Valid()
      modifies this`nextAccNo
      ensures Valid()
      ensures n == old(nextAccNo) && nextAccNo == n + 1
      ensures n !in accounts
    {
      n := nextAccNo;
      nextAccNo := nextAccNo + 1;
    }

    /**
     * Checks the PIN, then the opening balance, then draws a number, then
     * checks the type choice; only when all pass is the new account stored,
     * under its own number.
     */
    method CreateAccount(name: string, pin: string, balance: real, choice: int)
      returns (r: Result<Account, CreateError>)
      requires Valid()
      modifies this
      ensures Valid()
      ensures Abstract() == Step(old(Abstract()), CreateRequest(pin, balance, choice))
      ensures nextAccNo == old(nextAccNo) + (if DrawsNumber(CreateRequest(pin, balance, choice)) then 1 else 0)
      ensures match Verdict(CreateRequest(pin, balance, choice))
        case Failure(e) => r == Failure(e) && accounts == old(accounts)
        case Success(k) =>
          && r.Success? && fresh(r.value)
          && accounts == old(accounts)[old(nextAccNo) := r.value]
          && r.value.accNo == old(nextAccNo) && r.value.kind == k
          && r.value.name == name && r.value.pin == pin
          && r.value.balance == balance && r.value.history == []
    {
      if !IsFourDigitPin(pin) {
        return Failure(InvalidPin);
      }
      if balance < MINIMUM_OPENING_BALANCE {
        return Failure(InsufficientInitialBalance);
      }
      var n := GenerateAccNo();
      var acc: Account;
      if choice == 1 {
        acc := new Account(name, n, pin, balance, Savings);
      } else if choice == 2 {
        acc := new Account(name, n, pin, balance, Current);
      } else {
        return Failure(InvalidAccountType);
      }
      accounts := accounts[n := acc];
      r := Success(acc);
    }

    /**
     * The account registered under `accNo` if its PIN is `pin`; otherwise
     * None, whether the number is unknown or the PIN is wrong.
     */
    method Login(accNo: int, pin: string) returns (r: Option<Account>)
      ensures r.Some? <==> accNo in accounts && accounts[accNo].pin == pin
      ensures r.Some? ==> r.value == accounts[accNo]
    {
      if accNo in accounts && accounts[accNo].VerifyPin(pin) {
        r := Some(accounts[accNo]);
      } else {
        r := None;
      }
    }
  }
}
