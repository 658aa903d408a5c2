/** A run of the program: the operations of the menu that change the store,
    applied one after the other, and what every such run preserves. */
module Session {
  import opened Maybe
  import opened BankAccount
  import opened Validation
  import opened Banking

  /** One store-changing menu choice, with the time stamp its history entry
      would carry.  Choices that only display are left out: they change
      nothing. */
  datatype Request =
    | CreateRequest(app: Application, stamp: string)
    | DepositRequest(number: string, amount: int, stamp: string)
    | WithdrawRequest(number: string, amount: int, stamp: string)
    | RemoteRequest(number: string, password: string, request: Option<int>, stamp: string)

  /** Accounts are only created from answers that passed every check. */
  predicate Admissible(rq: Request) {
    rq.CreateRequest? ==> Valid(rq.app)
  }

  function Apply(b: Bank, rq: Request): Bank
    requires Admissible(rq)
  {
    match rq
    case CreateRequest(app, stamp) => CreateAccount(b, app, stamp).0
    case DepositRequest(number, amount, stamp) => DepositMoney(b, number, amount, stamp).0
    case WithdrawRequest(number, amount, stamp) => WithdrawMoney(b, number, amount, stamp).0
    case RemoteRequest(number, password, request, stamp) => RemoteAccess(b, number, password, request, stamp).0
  }

  function Run(b: Bank, rqs: seq<Request>): Bank
    requires forall i :: 0 <= i < |rqs| ==> Admissible(rqs[i])
    decreases |rqs|
  {
    if rqs == [] then b else Run(Apply(b, rqs[0]), rqs[1..])
  }

  /** `b'` is a later state of `b`: no account is removed, reordered or
      renamed, each history only grew at its end, and the counter never went
      back. */
  predicate Extends(b: Bank, b': Bank) {
    && b.counter <= b'.counter
    && |b.accounts| <= |b'.accounts|
    && forall i :: 0 <= i < |b.accounts| ==>
         SameHolder(b.accounts[i], b'.accounts[i])
         && b.accounts[i].history <= b'.accounts[i].history
  }

  predicate AllAboveMinimum(b: Bank) {
    forall i :: 0 <= i < |b.accounts| ==> AboveMinimum(b.accounts[i])
  }

  /** One request extends the store. */
  lemma ApplyExtends(b: Bank, rq: Request)
    requires Admissible(rq)
    ensures Extends(b, Apply(b, rq))
  {
  }

  /** One request keeps every account at or above its minimum. */
  lemma ApplyKeepsMinimum(b: Bank, rq: Request)
    requires Admissible(rq) && AllAboveMinimum(b)
    ensures AllAboveMinimum(Apply(b, rq))
  {
  }

  /** Over any run, accounts are only added, histories only grow, and the
      counter only climbs. */
  lemma {:induction false} RunExtends(b: Bank, rqs: seq<Request>)
    requires forall i :: 0 <= i < |rqs| ==> Admissible(rqs[i])
    ensures Extends(b, Run(b, rqs))
    decreases |rqs|
  {
    if rqs != [] {
      ApplyExtends(b, rqs[0]);
      RunExtends(Apply(b, rqs[0]), rqs[1..]);
    }
  }

  /** If every account meets its type's minimum balance, it still does after
      any run: deposits only add, a withdrawal goes through only when the
      minimum is kept, and a new account starts at or above its minimum. */
  lemma {:induction false} RunKeepsMinimum(b: Bank, rqs: seq<Request>)
    requires forall i :: 0 <= i < |rqs| ==> Admissible(rqs[i])
    requires AllAboveMinimum(b)
    ensures AllAboveMinimum(Run(b, rqs))
    decreases |rqs|
  {
    if rqs != [] {
      ApplyKeepsMinimum(b, rqs[0]);
      RunKeepsMinimum(Apply(b, rqs[0]), rqs[1..]);
    }
  }

  /** While the counter stays ahead of the stored numbers, no run gives two
      accounts the same number. */
  lemma {:induction false} RunKeepsNumbersUnique(b: Bank, rqs: seq<Request>)
    requires forall i :: 0 <= i < |rqs| ==> Admissible(rqs[i])
    requires UniqueNumbers(b.accounts) && CounterAhead(b)
    ensures UniqueNumbers(Run(b, rqs).accounts) && CounterAhead(Run(b, rqs))
    decreases |rqs|
  {
    if rqs != [] {
      var b' := Apply(b, rqs[0]);
      if rqs[0].CreateRequest? {
        CreateKeepsNumbersUnique(b, rqs[0].app, rqs[0].stamp);
      }
      RunKeepsNumbersUnique(b', rqs[1..]);
    }
  }
}
