/** One account record (`BankAccount`): its fields, its opening, and the
    deposit and withdrawal rules.  Balances are integer cents. */
module BankAccount {
  import opened Decimal

  /** Minimum balance of a "Savings" account: 100.00. */
  const SavingsMinBalance: nat := 10000
  /** Minimum balance of every other account type: 500.00. */
  const CurrentMinBalance: nat := 50000

  datatype Account = Account(
    number: string,
    holder: string,
    address: string,
    phone: string,
    email: string,
    balance: int,
    kind: string,
    password: string,
    history: seq<string>)

  /** The minimum balance a withdrawal must leave: only the exact string
      "Savings" gets the lower minimum. */
  function MinBalance(kind: string): (m: nat)
    ensures m == SavingsMinBalance <==> kind == "Savings"
    ensures m == CurrentMinBalance <==> kind != "Savings"
  {
    if kind == "Savings" then SavingsMinBalance else CurrentMinBalance
  }

  /** A history entry: the time stamp (`ctime` without its newline, taken
      as a parameter), " - ", and the description. */
  function Entry(stamp: string, description: string): (e: string)
    ensures |stamp| <= |e| && e[..|stamp|] == stamp
    ensures '\n' !in stamp && '\n' !in description ==> '\n' !in e
  {
    stamp + " - " + description
  }

  /** The captions of the opening, deposit and withdrawal narrations. */
  const OpeningLabel: string := "Account opened with initial deposit: $"
  const DepositLabel: string := "Deposit: +$"
  const WithdrawalLabel: string := "Withdrawal: -$"

  /** A narration: its caption followed by the amount as `std::to_string`
      prints it. */
  function AmountEntry(stamp: string, caption: string, amount: int): (e: string)
    ensures |stamp| <= |e| && e[..|stamp|] == stamp
    ensures '\n' !in stamp && '\n' !in caption ==> '\n' !in e
  {
    Entry(stamp, caption + SixDecimals(amount))
  }

  /** Everything but balance and history is the same in both records. */
  predicate SameHolder(a: Account, b: Account) {
    && a.number == b.number
    && a.holder == b.holder
    && a.address == b.address
    && a.phone == b.phone
    && a.email == b.email
    && a.kind == b.kind
    && a.password == b.password
  }

  /** The constructor: the balance is the initial deposit, whatever its
      sign or size, and an opening entry is recorded only for a positive
      deposit. */
  function Open(number: string, holder: string, address: string, phone: string,
                email: string, initialDeposit: int, kind: string, password: string,
                stamp: string): (a: Account)
    ensures a.number == number && a.holder == holder && a.address == address
    ensures a.phone == phone && a.email == email && a.kind == kind && a.password == password
    ensures a.balance == initialDeposit
    ensures |a.history| == (if initialDeposit > 0 then 1 else 0)
    ensures initialDeposit > 0 ==> a.history[0] == AmountEntry(stamp, OpeningLabel, initialDeposit)
  {
    var history := if initialDeposit > 0 then [AmountEntry(stamp, OpeningLabel, initialDeposit)] else [];
    Account(number, holder, address, phone, email, initialDeposit, kind, password, history)
  }

  datatype DepositOutcome = Deposited | InvalidDeposit

  /** `deposit`: a positive amount is added and narrated; anything else is
      refused and changes nothing. */
  function Deposit(a: Account, amount: int, stamp: string): (r: (Account, DepositOutcome))
    ensures r.1 == Deposited <==> amount > 0
    ensures SameHolder(a, r.0)
    ensures r.1 == Deposited ==> r.0.balance == a.balance + amount
    ensures r.1 == Deposited ==> r.0.history == a.history + [AmountEntry(stamp, DepositLabel, amount)]
    ensures r.1 == InvalidDeposit ==> r.0 == a
  {
    if amount > 0 then
      (a.(balance := a.balance + amount,
          history := a.history + [AmountEntry(stamp, DepositLabel, amount)]), Deposited)
    else
      (a, InvalidDeposit)
  }

  datatype WithdrawOutcome =
    | Withdrawn
    | InvalidAmount
    | BelowMinimum(required: nat)
    | InsufficientFunds

  /** `withdraw`: the amount must be positive, then the balance left must be
      at least the type's minimum, then the amount must not exceed the
      balance.  The last check can never fail once the second has passed,
      because every minimum is non-negative. */
  function Withdraw(a: Account, amount: int, stamp: string): (r: (Account, WithdrawOutcome))
    ensures r.1 == InvalidAmount <==> amount <= 0
    ensures r.1.BelowMinimum? <==> amount > 0 && a.balance - amount < MinBalance(a.kind)
    ensures r.1.BelowMinimum? ==> r.1.required == MinBalance(a.kind)
    ensures r.1 == Withdrawn <==> amount > 0 && a.balance - amount >= MinBalance(a.kind)
    ensures r.1 != InsufficientFunds
    ensures SameHolder(a, r.0)
    ensures r.1 == Withdrawn ==> r.0.balance == a.balance - amount
    ensures r.1 == Withdrawn ==> r.0.balance >= MinBalance(a.kind)
    ensures r.1 == Withdrawn ==> r.0.history == a.history + [AmountEntry(stamp, WithdrawalLabel, amount)]
    ensures r.1 != Withdrawn ==> r.0 == a
  {
    if amount <= 0 then
      (a, InvalidAmount)
    else
      var minBalance := MinBalance(a.kind);
      if a.balance - amount < minBalance then
        (a, BelowMinimum(minBalance))
      else if amount <= a.balance then
        (a.(balance := a.balance - amount,
            history := a.history + [AmountEntry(stamp, WithdrawalLabel, amount)]), Withdrawn)
      else
        (a, InsufficientFunds)
  }

  /** The balance rule the store keeps for accounts it opens. */
  predicate AboveMinimum(a: Account) {
    a.balance >= MinBalance(a.kind)
  }

  /** A Savings account opened with 100.00: withdrawing 50.00 would leave
      less than the minimum, withdrawing 0.00 is invalid, depositing 200.00
      gives 300.00 with one more entry, and withdrawing 150.00 then leaves
      150.00. */
  lemma SavingsScenario(number: string, password: string, t0: string, t1: string,
                        t2: string, t3: string, t4: string)
    ensures var a := Open(number, "H", "A", "1", "h@x.y", 10000, "Savings", password, t0);
      && Withdraw(a, 5000, t1) == (a, BelowMinimum(10000))
      && Withdraw(a, 0, t2) == (a, InvalidAmount)
      && var (a2, d) := Deposit(a, 20000, t3);
      && d == Deposited && a2.balance == 30000 && |a2.history| == 2
      && var (a3, w) := Withdraw(a2, 15000, t4);
      && w == Withdrawn && a3.balance == 15000 && |a3.history| == 3
  {
  }
}
