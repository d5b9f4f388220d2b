/**
 * The balance and transaction history of one bank account, as values.
 * `Apply` is what `Account.deposit` and `Account.withdraw` do to them;
 * `Run` is any session of such calls.
 */
module AccountLedger {

  /** One entry of the append-only transaction history. */
  datatype Transaction = Deposit(amount: real) | Withdraw(amount: real)

  /** A call the session makes on a logged-in account. */
  datatype Request = DepositRequest(amount: real) | WithdrawRequest(amount: real)

  /** The state that deposits and withdrawals change. */
  datatype Ledger = Ledger(balance: real, history: seq<Transaction>)

  /** Whether the account accepts `req` when it holds `balance`. */
  predicate Accepted(balance: real, req: Request) {
    match req
    case DepositRequest(a) => a > 0.0
    case WithdrawRequest(a) => 0.0 < a <= balance
  }

  /** The history entry an accepted request appends. */
  function Entry(req: Request): Transaction {
    match req
    case DepositRequest(a) => Deposit(a)
    case WithdrawRequest(a) => Withdraw(a)
  }

  /** The amount an entry adds to the balance (negative for a withdrawal). */
  function Signed(t: Transaction): real {
    match t
    case Deposit(a) => a
    case Withdraw(a) => -a
  }

  /** Sum of the signed amounts of a history. */
  function Net(h: seq<Transaction>): real {
    if h == [] then 0.0 else Net(h[..|h| - 1]) + Signed(h[|h| - 1])
  }

  /** One guarded update: either both fields change, or neither does. */
  function Apply(l: Ledger, req: Request): (r: Ledger)
    ensures l.history <= r.history && |r.history| <= |l.history| + 1
    ensures r.balance == l.balance + Net(r.history[|l.history|..])
    ensures l.balance >= 0.0 ==> r.balance >= 0.0
  {
    if Accepted(l.balance, req) then
      var r := Ledger(l.balance + Signed(Entry(req)), l.history + [Entry(req)]);
      assert r.history[|l.history|..] == [Entry(req)];
      r
    else
      assert l.history[|l.history|..] == [];
      l
  }

  /** A session of deposit and withdraw calls, in order. */
  function Run(l: Ledger, reqs: seq<Request>): Ledger
    decreases |reqs|
  {
    if reqs == [] then l else Run(Apply(l, reqs[0]), reqs[1..])
  }

  /** A request changes the ledger exactly when it is accepted, and then adds one entry. */
  lemma ApplyChangesIffAccepted(l: Ledger, req: Request)
    ensures Apply(l, req) != l <==> Accepted(l.balance, req)
    ensures |Apply(l, req).history| == |l.history| + (if Accepted(l.balance, req) then 1 else 0)
  {
  }

  /** A withdrawal goes through iff 0 < amount <= balance; then the balance drops by amount. */
  lemma WithdrawRule(l: Ledger, amount: real)
    ensures Apply(l, WithdrawRequest(amount)) != l <==> 0.0 < amount <= l.balance
    ensures 0.0 < amount <= l.balance ==>
      Apply(l, WithdrawRequest(amount)) == Ledger(l.balance - amount, l.history + [Withdraw(amount)])
  {
  }

  /** Starting from a non-negative balance, no session makes the balance negative. */
  lemma {:induction false} RunNeverNegative(l: Ledger, reqs: seq<Request>)
    requires l.balance >= 0.0
    ensures Run(l, reqs).balance >= 0.0
    decreases |reqs|
  {
    if reqs != [] {
      RunNeverNegative(Apply(l, reqs[0]), reqs[1..]);
    }
  }

  /** The history is append-only: a session only adds entries, at most one per call. */
  lemma {:induction false} RunAppendOnly(l: Ledger, reqs: seq<Request>)
    ensures l.history <= Run(l, reqs).history
    ensures |Run(l, reqs).history| <= |l.history| + |reqs|
    decreases |reqs|
  {
    if reqs != [] {
      var l' := Apply(l, reqs[0]);
      RunAppendOnly(l', reqs[1..]);
      assert l.history <= l'.history;
    }
  }

  /** The balance after a session is the opening balance plus the net of the entries it appended. */
  lemma {:induction false} RunBalanceIsNet(l: Ledger, reqs: seq<Request>)
    ensures l.history <= Run(l, reqs).history
    ensures Run(l, reqs).balance == l.balance + Net(Run(l, reqs).history[|l.history|..])
    decreases |reqs|
  {
    RunAppendOnly(l, reqs);
    if reqs == [] {
      assert Run(l, reqs).history[|l.history|..] == [];
    } else {
      var l' := Apply(l, reqs[0]);
      var h := Run(l, reqs).history;
      RunBalanceIsNet(l', reqs[1..]);
      RunAppendOnly(l', reqs[1..]);
      if Accepted(l.balance, reqs[0]) {
        var t := Entry(reqs[0]);
        var rest := h[|l'.history|..];
        assert h[|l.history|..] == [t] + rest;
        NetPrepend(t, rest);
      } else {
        assert l' == l;
      }
    }
  }

  lemma {:induction false} NetPrepend(t: Transaction, h: seq<Transaction>)
    ensures Net([t] + h) == Signed(t) + Net(h)
    decreases |h|
  {
    if h == [] {
      assert [t] + h == [] + [t];
    } else {
      var init := h[..|h| - 1];
      NetPrepend(t, init);
      assert ([t] + h)[..|h|] == [t] + init;
    }
  }

  /** A deposit of d followed by a withdrawal of w <= balance + d leaves balance + d - w and two entries, in that order. */
  lemma DepositThenWithdraw(l: Ledger, d: real, w: real)
    requires d > 0.0 && 0.0 < w <= l.balance + d
    ensures Run(l, [DepositRequest(d), WithdrawRequest(w)])
         == Ledger(l.balance + d - w, l.history + [Deposit(d), Withdraw(w)])
  {
    var reqs := [DepositRequest(d), WithdrawRequest(w)];
    var l1 := Apply(l, reqs[0]);
    assert reqs[1..] == [WithdrawRequest(w)];
    assert Run(l, reqs) == Run(l1, [WithdrawRequest(w)]);
    assert l1.history + [Withdraw(w)] == l.history + [Deposit(d), Withdraw(w)];
  }
}
