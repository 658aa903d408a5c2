/** The accounts file (`saveToFile`/`loadFromFile`, `saveAccounts`/
    `loadAccounts`): one value per line in a fixed order, then the history
    size and that many history lines; records follow each other with no
    separator. */
module Storage {
  import opened Maybe
  import opened Decimal
  import opened Lines
  import opened BankAccount

  /** Lines before the history: number, holder, address, phone, email,
      balance, type, password, history size. */
  const HeaderLines: nat := 9

  function SaveRecord(a: Account): (lines: seq<string>)
    ensures |lines| == HeaderLines + |a.history|
    ensures lines[HeaderLines..] == a.history
  {
    [a.number, a.holder, a.address, a.phone, a.email, FormatCents(a.balance),
     a.kind, a.password, NatToString(|a.history|)] + a.history
  }

  /** Reads one record from the front of `lines` and returns it with the
      lines that follow.  A negative history size reads no entries, as the
      counting loop does.  A missing line or an unreadable number is a
      failure. */
  function LoadRecord(lines: seq<string>): (r: Option<(Account, seq<string>)>)
    ensures r.Some? ==> |r.value.1| <= |lines| - HeaderLines
    ensures r.Some? ==> r.value.1 == lines[|lines| - |r.value.1|..]
    ensures r.Some? ==> lines[HeaderLines..|lines| - |r.value.1|] == r.value.0.history
  {
    if |lines| < HeaderLines then None
    else
      match (ParseCents(lines[5]), ParseInt(lines[8]))
      case (Some(balance), Some(count)) =>
        var n := if count < 0 then 0 else count;
        if |lines| - HeaderLines < n then None
        else
          var a := Account(lines[0], lines[1], lines[2], lines[3], lines[4], balance,
                           lines[6], lines[7], lines[HeaderLines..HeaderLines + n]);
          Some((a, lines[HeaderLines + n..]))
      case _ => None
  }

  /** Reading a saved record gives back every field and the whole history,
      in order, and leaves exactly what followed it. */
  lemma RecordRoundTrip(a: Account, rest: seq<string>)
    ensures LoadRecord(SaveRecord(a) + rest) == Some((a, rest))
  {
    var lines := SaveRecord(a) + rest;
    CentsRoundTrip(a.balance);
    ParseIntOfNatToString(|a.history|);
    assert lines[5] == FormatCents(a.balance) && lines[8] == NatToString(|a.history|);
    assert lines[HeaderLines..HeaderLines + |a.history|] == a.history;
    assert lines[HeaderLines + |a.history|..] == rest;
  }

  /** `saveAccounts`: every record, in collection order. */
  function SaveAccounts(accounts: seq<Account>): (lines: seq<string>)
    ensures accounts == [] <==> lines == []
  {
    if accounts == [] then [] else SaveRecord(accounts[0]) + SaveAccounts(accounts[1..])
  }

  /** `loadAccounts`: read records until the input is used up. */
  function LoadAccounts(lines: seq<string>): (r: Option<seq<Account>>)
    ensures lines == [] ==> r == Some([])
    decreases |lines|
  {
    if lines == [] then Some([])
    else
      match LoadRecord(lines)
      case None => None
      case Some((a, rest)) =>
        match LoadAccounts(rest)
        case None => None
        case Some(more) => Some([a] + more)
  }

  /** Loading a saved collection gives back the same accounts in the same
      order. */
  lemma {:induction false} AccountsRoundTrip(accounts: seq<Account>)
    ensures LoadAccounts(SaveAccounts(accounts)) == Some(accounts)
    decreases |accounts|
  {
    if accounts != [] {
      var rest := SaveAccounts(accounts[1..]);
      RecordRoundTrip(accounts[0], rest);
      AccountsRoundTrip(accounts[1..]);
      assert [accounts[0]] + accounts[1..] == accounts;
    }
  }

  /** No stored value of the account contains a newline. */
  predicate AccountLineSafe(a: Account) {
    && LineSafe(a.number) && LineSafe(a.holder) && LineSafe(a.address)
    && LineSafe(a.phone) && LineSafe(a.email) && LineSafe(a.kind)
    && LineSafe(a.password) && AllLineSafe(a.history)
  }

  /** An account opened from newline-free answers and time stamp has no
      newline in any field or entry. */
  lemma OpenLineSafe(number: string, holder: string, address: string, phone: string,
                     email: string, initialDeposit: int, kind: string, password: string,
                     stamp: string)
    requires LineSafe(number) && LineSafe(holder) && LineSafe(address) && LineSafe(phone)
    requires LineSafe(email) && LineSafe(kind) && LineSafe(password) && LineSafe(stamp)
    ensures AccountLineSafe(Open(number, holder, address, phone, email, initialDeposit,
                                 kind, password, stamp))
  {
  }

  /** Deposits and withdrawals with a newline-free time stamp keep an
      account free of newlines, so its record still reads back. */
  lemma OperationsKeepLineSafe(a: Account, amount: int, stamp: string)
    requires AccountLineSafe(a) && LineSafe(stamp)
    ensures AccountLineSafe(Deposit(a, amount, stamp).0)
    ensures AccountLineSafe(Withdraw(a, amount, stamp).0)
  {
  }

  lemma {:induction false} SavedLinesSafe(accounts: seq<Account>)
    requires forall i :: 0 <= i < |accounts| ==> AccountLineSafe(accounts[i])
    ensures AllLineSafe(SaveAccounts(accounts))
    decreases |accounts|
  {
    if accounts != [] {
      var a := accounts[0];
      var head := SaveRecord(a);
      assert AllLineSafe(head) by {
        forall i | 0 <= i < |head|
          ensures LineSafe(head[i])
        {
          if i == 8 {
            assert AllDigits(head[8]);
          } else if i >= HeaderLines {
            assert head[i] == a.history[i - HeaderLines];
          }
        }
      }
      SavedLinesSafe(accounts[1..]);
    }
  }

  /** The accounts file as text. */
  function FileText(accounts: seq<Account>): string {
    Render(SaveAccounts(accounts))
  }

  /** The text written for a collection reads back as that collection, as
      long as no field or history entry contains a newline. */
  lemma FileRoundTrip(accounts: seq<Account>)
    requires forall i :: 0 <= i < |accounts| ==> AccountLineSafe(accounts[i])
    ensures LoadAccounts(Split(FileText(accounts))) == Some(accounts)
  {
    SavedLinesSafe(accounts);
    SplitRender(SaveAccounts(accounts));
    AccountsRoundTrip(accounts);
  }
}
