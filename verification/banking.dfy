/** The ledger store (`BankingSystem`): the accounts in creation and file
    order, and the counter account numbers are minted from. */
module Banking {
  import opened Maybe
  import opened Decimal
  import opened Lines
  import opened BankAccount
  import opened Storage
  import opened Validation

  const Prefix: string := "ACCT"
  /** The value the counter holds before the first number is minted. */
  const CounterSeed: nat := 1000

  datatype Bank = Bank(accounts: seq<Account>, counter: nat)

  /** The number minted for counter value `n`. */
  function AccountNumberFor(n: nat): string {
    Prefix + NatToString(n)
  }

  /** The numeric suffix of a number of the minted shape, if it has one. */
  function Suffix(number: string): Option<nat> {
    if |number| >= |Prefix| && number[..|Prefix|] == Prefix then ParseNat(number[|Prefix|..])
    else None
  }

  lemma SuffixOfAccountNumber(n: nat)
    ensures Suffix(AccountNumberFor(n)) == Some(n)
  {
    assert AccountNumberFor(n)[..|Prefix|] == Prefix;
    assert AccountNumberFor(n)[|Prefix|..] == NatToString(n);
    ParseNatToString(n);
  }

  /** `generateAccountNumber`: bump the counter, then mint its new value. */
  function GenerateAccountNumber(b: Bank): (r: (Bank, string))
    ensures r.0.accounts == b.accounts
    ensures r.0.counter == b.counter + 1
    ensures Suffix(r.1) == Some(r.0.counter)
  {
    var counter := b.counter + 1;
    SuffixOfAccountNumber(counter);
    (b.(counter := counter), AccountNumberFor(counter))
  }

  /** The first number a fresh store mints. */
  lemma FirstAccountNumber(accounts: seq<Account>)
    ensures GenerateAccountNumber(Bank(accounts, CounterSeed)).1 == "ACCT1001"
  {
    assert NatToString(1001) == "1001" by {
      assert NatToString(1) == "1";
      assert NatToString(10) == "10";
      assert NatToString(100) == "100";
    }
  }

  /** `k` numbers minted one after the other. */
  function MintMany(b: Bank, k: nat): (Bank, seq<string>)
    decreases k
  {
    if k == 0 then (b, [])
    else
      var (b1, id) := GenerateAccountNumber(b);
      var (b2, ids) := MintMany(b1, k - 1);
      (b2, [id] + ids)
  }

  /** Each number minted carries a suffix one above the previous one, so no
      number is minted twice in one run. */
  lemma {:induction false} MintedNumbersIncrease(b: Bank, k: nat)
    ensures MintMany(b, k).0.counter == b.counter + k
    ensures |MintMany(b, k).1| == k
    ensures forall i :: 0 <= i < k ==> Suffix(MintMany(b, k).1[i]) == Some(b.counter + 1 + i)
    ensures forall i, j :: 0 <= i < j < k ==> MintMany(b, k).1[i] != MintMany(b, k).1[j]
    decreases k
  {
    if k > 0 {
      var (b1, id) := GenerateAccountNumber(b);
      MintedNumbersIncrease(b1, k - 1);
      var ids := MintMany(b, k).1;
      assert ids == [id] + MintMany(b1, k - 1).1;
      forall i | 0 <= i < k
        ensures Suffix(ids[i]) == Some(b.counter + 1 + i)
      {
        if i > 0 {
          assert ids[i] == MintMany(b1, k - 1).1[i - 1];
        }
      }
      forall i, j | 0 <= i < j < k
        ensures ids[i] != ids[j]
      {
        assert Suffix(ids[i]) != Suffix(ids[j]);
      }
    }
  }

  /** `findAccount`: the position of the first account, in collection order,
      with the given number; None (`nullptr`) when there is none. */
  function FindAccount(accounts: seq<Account>, number: string): (r: Option<nat>)
    ensures r.Some? ==> r.value < |accounts| && accounts[r.value].number == number
    ensures r.Some? ==> forall j :: 0 <= j < r.value ==> accounts[j].number != number
    ensures r.None? <==> forall j :: 0 <= j < |accounts| ==> accounts[j].number != number
    decreases |accounts|
  {
    if accounts == [] then None
    else if accounts[0].number == number then Some(0)
    else
      match FindAccount(accounts[1..], number)
      case None => None
      case Some(i) => Some(i + 1)
  }

  /** No two accounts share a number. */
  predicate UniqueNumbers(accounts: seq<Account>) {
    forall i, j :: 0 <= i < j < |accounts| ==> accounts[i].number != accounts[j].number
  }

  /** With unique numbers the search finds the one account with the key. */
  lemma FindUnique(accounts: seq<Account>, i: nat)
    requires UniqueNumbers(accounts) && i < |accounts|
    ensures FindAccount(accounts, accounts[i].number) == Some(i)
  {
  }

  /** `createNewAccount` once every answer has passed its check: mint a
      number and append the new account at the end. */
  function CreateAccount(b: Bank, app: Application, stamp: string): (r: (Bank, string))
    requires Valid(app)
    ensures r.0.counter == b.counter + 1
    ensures Suffix(r.1) == Some(r.0.counter)
    ensures |r.0.accounts| == |b.accounts| + 1
    ensures r.0.accounts[..|b.accounts|] == b.accounts
    ensures r.0.accounts[|b.accounts|].number == r.1
    ensures r.0.accounts[|b.accounts|]
      == Open(r.1, app.name, app.address, app.phone, app.email, app.deposit, app.kind, app.password, stamp)
    ensures r.0.accounts[|b.accounts|].balance == app.deposit
    ensures AboveMinimum(r.0.accounts[|b.accounts|])
    ensures |r.0.accounts[|b.accounts|].history| == 1
  {
    var (b1, number) := GenerateAccountNumber(b);
    var a := Open(number, app.name, app.address, app.phone, app.email, app.deposit,
                  app.kind, app.password, stamp);
    (b1.(accounts := b1.accounts + [a]), number)
  }

  /** Every account's number sits at or below the counter, if it has the
      minted shape at all. */
  predicate CounterAhead(b: Bank) {
    forall i :: 0 <= i < |b.accounts| ==>
      Suffix(b.accounts[i].number).Some? ==> Suffix(b.accounts[i].number).value <= b.counter
  }

  /** While the counter is ahead of every stored number, opening an account
      keeps the numbers unique. */
  lemma CreateKeepsNumbersUnique(b: Bank, app: Application, stamp: string)
    requires Valid(app) && UniqueNumbers(b.accounts) && CounterAhead(b)
    ensures UniqueNumbers(CreateAccount(b, app, stamp).0.accounts)
    ensures CounterAhead(CreateAccount(b, app, stamp).0)
  {
  }

  /** The store the program starts with: `loadAccounts` on the accounts
      file (None when the file cannot be opened, which leaves the store
      empty), and the counter at its seed whatever was loaded.  None when
      the file cannot be read as records. */
  function Startup(file: Option<string>): (r: Option<Bank>)
    ensures r.Some? ==> r.value.counter == CounterSeed
    ensures file.None? ==> r == Some(Bank([], CounterSeed))
  {
    match file
    case None => Some(Bank([], CounterSeed))
    case Some(text) =>
      match LoadAccounts(Split(text))
      case None => None
      case Some(accounts) => Some(Bank(accounts, CounterSeed))
  }

  /** Saving and restarting restores every account, in order, but not the
      counter: it starts again from its seed. */
  lemma RestartRestoresAccounts(b: Bank)
    requires forall i :: 0 <= i < |b.accounts| ==> AccountLineSafe(b.accounts[i])
    ensures Startup(Some(FileText(b.accounts))) == Some(Bank(b.accounts, CounterSeed))
  {
    FileRoundTrip(b.accounts);
  }

  /** Because the counter restarts at its seed, the first account opened
      after a restart can take the number of one already on file; the
      search then only ever finds the older account. */
  lemma RestartCanDuplicateNumbers(saved: Account, app: Application, stamp: string)
    requires saved.number == "ACCT1001" && AccountLineSafe(saved)
    requires Valid(app)
    ensures var b := Startup(Some(FileText([saved])));
      && b.Some?
      && var b' := CreateAccount(b.value, app, stamp).0;
      && |b'.accounts| == 2
      && b'.accounts[0].number == b'.accounts[1].number == "ACCT1001"
      && !UniqueNumbers(b'.accounts)
      && FindAccount(b'.accounts, "ACCT1001") == Some(0)
  {
    FileRoundTrip([saved]);
    FirstAccountNumber([saved]);
  }

  /** The found account is replaced by `updated`; nothing else changes. */
  predicate UpdatedAt(b: Bank, b': Bank, i: nat, updated: Account)
    requires i < |b.accounts|
  {
    && b'.counter == b.counter
    && |b'.accounts| == |b.accounts|
    && b'.accounts[i] == updated
    && forall j :: 0 <= j < |b.accounts| && j != i ==> b'.accounts[j] == b.accounts[j]
  }

  /** `depositMoney`: find the account, then `deposit` into it. */
  function DepositMoney(b: Bank, number: string, amount: int, stamp: string): (r: (Bank, Option<DepositOutcome>))
    ensures r.1.None? <==> FindAccount(b.accounts, number).None?
    ensures r.1.None? ==> r.0 == b
    ensures r.1.Some? ==>
      var i := FindAccount(b.accounts, number).value;
      UpdatedAt(b, r.0, i, Deposit(b.accounts[i], amount, stamp).0)
      && r.1.value == Deposit(b.accounts[i], amount, stamp).1
  {
    match FindAccount(b.accounts, number)
    case None => (b, None)
    case Some(i) =>
      var (a, outcome) := Deposit(b.accounts[i], amount, stamp);
      (b.(accounts := b.accounts[i := a]), Some(outcome))
  }

  /** `withdrawMoney`: find the account, then `withdraw` from it.  No
      password is asked for on this path. */
  function WithdrawMoney(b: Bank, number: string, amount: int, stamp: string): (r: (Bank, Option<WithdrawOutcome>))
    ensures r.1.None? <==> FindAccount(b.accounts, number).None?
    ensures r.1.None? ==> r.0 == b
    ensures r.1.Some? ==>
      var i := FindAccount(b.accounts, number).value;
      UpdatedAt(b, r.0, i, Withdraw(b.accounts[i], amount, stamp).0)
      && r.1.value == Withdraw(b.accounts[i], amount, stamp).1
  {
    match FindAccount(b.accounts, number)
    case None => (b, None)
    case Some(i) =>
      var (a, outcome) := Withdraw(b.accounts[i], amount, stamp);
      (b.(accounts := b.accounts[i := a]), Some(outcome))
  }

  datatype RemoteOutcome =
    | RemoteNotFound
    | AccessDenied
    | Declined
    | RemoteWithdrawal(outcome: WithdrawOutcome)

  /** `remoteAccess`: the typed password must equal the stored one before a
      withdrawal is offered.  `request` is the amount asked for, or None when
      the holder declines. */
  function RemoteAccess(b: Bank, number: string, password: string, request: Option<int>,
                        stamp: string): (r: (Bank, RemoteOutcome))
    ensures r.1 == RemoteNotFound <==> FindAccount(b.accounts, number).None?
    ensures r.1 == AccessDenied <==>
      FindAccount(b.accounts, number).Some?
      && b.accounts[FindAccount(b.accounts, number).value].password != password
    ensures r.1.RemoteWithdrawal? ==> request.Some?
    ensures r.0 != b ==>
      && FindAccount(b.accounts, number).Some?
      && b.accounts[FindAccount(b.accounts, number).value].password == password
      && request.Some?
    ensures (FindAccount(b.accounts, number).Some?
             && b.accounts[FindAccount(b.accounts, number).value].password == password) ==>
      var i := FindAccount(b.accounts, number).value;
      && (request.Some? ==> r.1 == RemoteWithdrawal(Withdraw(b.accounts[i], request.value, stamp).1))
      && (request.None? ==> r == (b, Declined))
    ensures r.1.RemoteWithdrawal? ==>
      var i := FindAccount(b.accounts, number).value;
      UpdatedAt(b, r.0, i, Withdraw(b.accounts[i], request.value, stamp).0)
      && r.1.outcome == Withdraw(b.accounts[i], request.value, stamp).1
  {
    match FindAccount(b.accounts, number)
    case None => (b, RemoteNotFound)
    case Some(i) =>
      if password != b.accounts[i].password then (b, AccessDenied)
      else
        match request
        case None => (b, Declined)
        case Some(amount) =>
          var (b', outcome) := WithdrawMoney(b, number, amount, stamp);
          (b', RemoteWithdrawal(outcome.value))
  }
}
