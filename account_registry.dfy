/**
 * The checks `Bank.create_account` makes and what they do to the bank's
 * account-number counter and registry, as values. `Replay` is any series of
 * account openings; the lemmas say which numbers they hand out.
 */
module AccountRegistry {
  import opened Wrappers

  /** The closed set of account variants. */
  datatype Kind = Savings | Current

  datatype CreateError = InvalidPin | InsufficientInitialBalance | InvalidAccountType

  /** The already-parsed arguments of one account opening (the name plays no part in the checks). */
  datatype CreateRequest = CreateRequest(pin: string, balance: real, choice: int)

  /** The counter and the set of registered account numbers. */
  datatype Registry = Registry(next: int, numbers: set<int>)

  const FIRST_ACCOUNT_NUMBER: int := 1001
  const MINIMUM_OPENING_BALANCE: real := 500.0

  predicate IsDigit(c: char) {
    '0' <= c <= '9'
  }

  /** Exactly four characters, each a decimal digit. */
  predicate IsFourDigitPin(pin: string): (ok: bool)
    ensures ok <==> |pin| == 4 && forall c :: c in pin ==> '0' <= c <= '9'
  {
    assert (forall i :: 0 <= i < |pin| ==> IsDigit(pin[i])) <==> (forall c :: c in pin ==> IsDigit(c)) by {
      if forall i :: 0 <= i < |pin| ==> IsDigit(pin[i]) {
        forall c | c in pin
          ensures IsDigit(c)
        {
          var i :| 0 <= i < |pin| && pin[i] == c;
        }
      }
    }
    |pin| == 4 && forall i :: 0 <= i < |pin| ==> IsDigit(pin[i])
  }

  /** The menu choice for the account type: 1 is Savings, 2 is Current. */
  function KindOfChoice(choice: int): (k: Option<Kind>)
    ensures k.Some? <==> 1 <= choice <= 2
    ensures k == Some(Savings) <==> choice == 1
  {
    if choice == 1 then Some(Savings)
    else if choice == 2 then Some(Current)
    else None
  }

  /** The PIN and balance checks passed, so an account number is drawn (before the type is checked). */
  predicate DrawsNumber(req: CreateRequest) {
    IsFourDigitPin(req.pin) && req.balance >= MINIMUM_OPENING_BALANCE
  }

  /** The verdict of create_account: the PIN is checked first, then the balance, then the type. */
  function Verdict(req: CreateRequest): (r: Result<Kind, CreateError>)
    ensures r == Failure(InvalidPin) <==> !IsFourDigitPin(req.pin)
    ensures r == Failure(InsufficientInitialBalance) <==>
      IsFourDigitPin(req.pin) && req.balance < MINIMUM_OPENING_BALANCE
    ensures r == Failure(InvalidAccountType) <==> DrawsNumber(req) && req.choice != 1 && req.choice != 2
    ensures r == Success(Savings) <==> DrawsNumber(req) && req.choice == 1
    ensures r == Success(Current) <==> DrawsNumber(req) && req.choice == 2
    ensures DrawsNumber(req) <==> r.Success? || r == Failure(InvalidAccountType)
  {
    if !IsFourDigitPin(req.pin) then Failure(InvalidPin)
    else if req.balance < MINIMUM_OPENING_BALANCE then Failure(InsufficientInitialBalance)
    else match KindOfChoice(req.choice)
      case None => Failure(InvalidAccountType)
      case Some(k) => Success(k)
  }

  /** The registry of a fresh bank. */
  function Fresh(): Registry {
    Registry(FIRST_ACCOUNT_NUMBER, {})
  }

  /** Every registered number was drawn from the counter, which never went below 1001. */
  ghost predicate Valid(g: Registry) {
    FIRST_ACCOUNT_NUMBER <= g.next &&
    forall n :: n in g.numbers ==> FIRST_ACCOUNT_NUMBER <= n < g.next
  }

  /** One account opening: a drawn number is consumed even when the type choice then fails. */
  function Step(g: Registry, req: CreateRequest): (r: Registry)
    ensures Valid(g) ==> Valid(r)
    ensures r.next == g.next + (if DrawsNumber(req) then 1 else 0)
    ensures g.numbers <= r.numbers && r.numbers - g.numbers <= {g.next}
    ensures Valid(g) ==> (g.next in r.numbers <==> Verdict(req).Success?)
  {
    if !DrawsNumber(req) then g
    else if Verdict(req).Success? then Registry(g.next + 1, g.numbers + {g.next})
    else Registry(g.next + 1, g.numbers)
  }

  /** A series of account openings. */
  function Replay(g: Registry, reqs: seq<CreateRequest>): Registry
    decreases |reqs|
  {
    if reqs == [] then g else Replay(Step(g, reqs[0]), reqs[1..])
  }

  /** The numbers under which the openings in `reqs` registered an account, in order. */
  function Issued(g: Registry, reqs: seq<CreateRequest>): seq<int>
    decreases |reqs|
  {
    if reqs == [] then []
    else (if Verdict(reqs[0]).Success? then [g.next] else []) + Issued(Step(g, reqs[0]), reqs[1..])
  }

  /** How many of the openings drew a number. */
  function Draws(reqs: seq<CreateRequest>): nat {
    if reqs == [] then 0 else (if DrawsNumber(reqs[0]) then 1 else 0) + Draws(reqs[1..])
  }

  predicate StrictlyIncreasing(s: seq<int>) {
    forall i, j :: 0 <= i < j < |s| ==> s[i] < s[j]
  }

  /** A failed check changes nothing before the draw; after it, only the counter moves. */
  lemma StepEffect(g: Registry, req: CreateRequest)
    ensures !DrawsNumber(req) ==> Step(g, req) == g
    ensures Verdict(req) == Failure(InvalidAccountType) ==> Step(g, req) == Registry(g.next + 1, g.numbers)
    ensures Verdict(req).Success? ==> Step(g, req) == Registry(g.next + 1, g.numbers + {g.next})
  {
  }

  /** The counter advances once per drawn number and the registry stays within the drawn range. */
  lemma {:induction false} ReplayCounter(g: Registry, reqs: seq<CreateRequest>)
    requires Valid(g)
    ensures Valid(Replay(g, reqs))
    ensures Replay(g, reqs).next == g.next + Draws(reqs)
    decreases |reqs|
  {
    if reqs != [] {
      ReplayCounter(Step(g, reqs[0]), reqs[1..]);
    }
  }

  /** Every issued number was drawn from the counter during the series. */
  lemma {:induction false} IssuedInDrawnRange(g: Registry, reqs: seq<CreateRequest>)
    ensures g.next <= Replay(g, reqs).next
    ensures forall n :: n in Issued(g, reqs) ==> g.next <= n < Replay(g, reqs).next
    decreases |reqs|
  {
    if reqs != [] {
      IssuedInDrawnRange(Step(g, reqs[0]), reqs[1..]);
    }
  }

  /** Issued numbers are strictly increasing, so none is handed out twice. */
  lemma {:induction false} IssuedIncreasing(g: Registry, reqs: seq<CreateRequest>)
    ensures StrictlyIncreasing(Issued(g, reqs))
    decreases |reqs|
  {
    if reqs != [] {
      var g' := Step(g, reqs[0]);
      var rest := Issued(g', reqs[1..]);
      IssuedIncreasing(g', reqs[1..]);
      if Verdict(reqs[0]).Success? {
        IssuedInDrawnRange(g', reqs[1..]);
        var s := Issued(g, reqs);
        assert s == [g.next] + rest;
        forall i, j | 0 <= i < j < |s|
          ensures s[i] < s[j]
        {
          assert s[j] == rest[j - 1] && rest[j - 1] in rest;
          if i > 0 {
            assert s[i] == rest[i - 1];
          }
        }
      } else {
        assert Issued(g, reqs) == rest;
      }
    }
  }

  /** The registry grows by exactly the issued numbers. */
  lemma {:induction false} ReplayRegistersIssued(g: Registry, reqs: seq<CreateRequest>)
    ensures Replay(g, reqs).numbers == g.numbers + set n | n in Issued(g, reqs)
    decreases |reqs|
  {
    if reqs != [] {
      var g' := Step(g, reqs[0]);
      ReplayRegistersIssued(g', reqs[1..]);
      if Verdict(reqs[0]).Success? {
        assert Issued(g, reqs) == [g.next] + Issued(g', reqs[1..]);
      } else {
        assert Issued(g, reqs) == Issued(g', reqs[1..]);
      }
    }
  }

  /**
   * Issued numbers are strictly increasing, drawn from the counter's range during the series,
   * never equal to a number registered before, and exactly the numbers the series added.
   */
  lemma IssuedNumbersFresh(g: Registry, reqs: seq<CreateRequest>)
    requires Valid(g)
    ensures StrictlyIncreasing(Issued(g, reqs))
    ensures forall n :: n in Issued(g, reqs) ==> g.next <= n < Replay(g, reqs).next && n !in g.numbers
    ensures Replay(g, reqs).numbers == g.numbers + set n | n in Issued(g, reqs)
  {
    IssuedIncreasing(g, reqs);
    IssuedInDrawnRange(g, reqs);
    ReplayRegistersIssued(g, reqs);
  }

  /** A fresh bank gives its first two accounts 1001 and 1002, whatever their kind. */
  lemma FirstTwoAccounts(a: CreateRequest, b: CreateRequest)
    requires Verdict(a).Success? && Verdict(b).Success?
    ensures Issued(Fresh(), [a, b]) == [1001, 1002]
    ensures Replay(Fresh(), [a, b]) == Registry(1003, {1001, 1002})
  {
    var g1 := Step(Fresh(), a);
    assert g1 == Registry(1002, {1001});
    assert [a, b][1..] == [b];
    assert Issued(g1, [b]) == [1002] + Issued(Step(g1, b), []);
    assert Replay(Fresh(), [a, b]) == Replay(g1, [b]) == Step(g1, b);
  }

  /** An opening rejected for its type still uses up 1001: the next account gets 1002. */
  lemma InvalidTypeConsumesNumber(a: CreateRequest, b: CreateRequest)
    requires Verdict(a) == Failure(InvalidAccountType) && Verdict(b).Success?
    ensures Issued(Fresh(), [a, b]) == [1002]
    ensures Replay(Fresh(), [a, b]) == Registry(1003, {1002})
  {
    var g1 := Step(Fresh(), a);
    assert g1 == Registry(1002, {});
    assert [a, b][1..] == [b];
    assert Issued(g1, [b]) == [1002] + Issued(Step(g1, b), []);
    assert Replay(Fresh(), [a, b]) == Replay(g1, [b]) == Step(g1, b);
  }

  /** An opening rejected for its PIN or balance draws no number: the next account still gets 1001. */
  lemma EarlyRejectionDrawsNothing(a: CreateRequest, b: CreateRequest)
    requires Verdict(a) == Failure(InvalidPin) || Verdict(a) == Failure(InsufficientInitialBalance)
    requires Verdict(b).Success?
    ensures Issued(Fresh(), [a, b]) == [1001]
  {
    var g1 := Step(Fresh(), a);
    assert g1 == Fresh();
    assert [a, b][1..] == [b];
    assert Issued(g1, [b]) == [1001] + Issued(Step(g1, b), []);
  }
}
