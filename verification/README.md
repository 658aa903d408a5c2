# Bank ledger model

A Dafny model of the ledger logic of a console banking program (`test1.cpp`):
the account record with its deposit and withdrawal rules, the store that mints
account numbers and finds accounts, the line-oriented accounts file, and the
checks applied to the answers given when an account is opened.

Money is an integer number of cents, so the two-decimal balance line of the
accounts file is exact: a balance written and read back is the balance that was
written. Time stamps of history entries are parameters.

Modules, following the program's structure:

- `Maybe`: the optional value (the `nullptr` of `findAccount`, a failed read).
- `Decimal`: `std::to_string` of counters, the two-decimal balance line, and the
  whole-line reads of an `int` and of a balance.
- `Lines`: what `endl` writes and `getline` reads back.
- `BankAccount`: the `BankAccount` record, its constructor, `deposit`, `withdraw`.
- `Storage`: `saveToFile`/`loadFromFile` and `saveAccounts`/`loadAccounts` on lines.
- `Validation`: the checks inside `createNewAccount`, one predicate each.
- `Banking`: `BankingSystem`: number minting, `findAccount`, account creation,
  the deposit and withdrawal menu paths, and the password gate of `remoteAccess`.
- `Session`: any sequence of store-changing requests, and what it preserves.

Behaviour of the code that the model keeps as written:

- The counter starts at 1000 in every run and is not raised past the numbers
  read from the accounts file. After a restart the first new account gets
  "ACCT1001" again, even if that number is already on file, and `findAccount`
  then only ever finds the older account (`Banking.RestartCanDuplicateNumbers`).
  Number uniqueness is proved only while the counter is ahead of every stored
  number (`Banking.CreateKeepsNumbersUnique`, `Session.RunKeepsNumbersUnique`).
- The withdrawal menu path asks for no password. Only remote access compares
  the typed password with the stored one.
- Any account type other than the exact string "Savings" gets the 500.00
  minimum.
- Opening an account does not check the minimum balance. Only the answer check
  done before opening does.

## Model

| member | source | states |
|---|---|---|
| `Decimal.NatToString` | test1.cpp:166 | `to_string` of a counter is a non-empty string of digits only |
| `Decimal.SixDecimals` | test1.cpp:58 | the amount in a narration is the two-decimal amount followed by four zeros, and has no newline |
| `Decimal.ParseNatToString` | test1.cpp:166 | the decimal text of a counter reads back as the same number |
| `Decimal.NatToStringInjective` | test1.cpp:166 | two counters give the same text exactly when they are equal |
| `Decimal.ParseIntOfNatToString` | test1.cpp:141 | the history size written as text reads back as the same `int` |
| `Decimal.CentsRoundTrip` | test1.cpp:134 | a balance written with two decimals reads back as exactly that balance, negative ones included |
| `Decimal.FormatCents` | test1.cpp:116 | the balance line never contains a newline |
| `Lines.SplitRender` | test1.cpp:129-147 | reading with `getline` the lines written with `endl` gives the same lines, when none contains a newline |
| `Lines.RenderSplit` | test1.cpp:111-124 | a file made of newline-terminated lines is exactly the rendering of the lines read from it |
| `Lines.SplitFrom` | test1.cpp:129 | no line `getline` returns contains a newline |
| `BankAccount.Entry` | test1.cpp:152-157 | a history entry starts with its time stamp, and has no newline when neither stamp nor description has one |
| `BankAccount.AmountEntry` | test1.cpp:81 | an opening, deposit or withdrawal narration (lines 42, 58, 81) starts with its time stamp and has no newline when neither stamp nor caption has one |
| `BankAccount.Open` | test1.cpp:35-44 | balance equals the initial deposit; one opening entry if the deposit is positive, none otherwise; other fields as given |
| `BankAccount.Deposit` | test1.cpp:55-63 | a positive amount is added and exactly one entry appended; any other amount changes nothing; the identity fields never change |
| `BankAccount.Withdraw` | test1.cpp:65-86 | non-positive amount: invalid; balance left under the type minimum: refused, reporting the minimum; otherwise the balance drops by the amount, stays at or above the minimum, and one entry is appended; the insufficient-funds outcome never happens; a refusal changes nothing |
| `BankAccount.SavingsScenario` | test1.cpp:65-86 | a Savings account opened with 100.00 refuses 50.00 and 0.00, takes a 200.00 deposit to 300.00, then allows 150.00 out |
| `Storage.SaveRecord` | test1.cpp:110-125 | a record is nine lines followed by the history, in order |
| `Storage.LoadRecord` | test1.cpp:128-149 | a read record consumes a prefix of at least nine lines, its history being the lines after the ninth, and returns the rest |
| `Storage.RecordRoundTrip` | test1.cpp:110-149 | reading a saved record gives back every field and the whole history in order, and exactly the lines after it |
| `Storage.SaveAccounts` | test1.cpp:190-200 | an empty store writes no lines, and a non-empty one writes some |
| `Storage.LoadAccounts` | test1.cpp:178-188 | an empty file loads as an empty store |
| `Storage.AccountsRoundTrip` | test1.cpp:178-200 | loading the saved lines of a collection gives the same accounts in the same order |
| `Storage.OpenLineSafe` | test1.cpp:35-44 | an account opened from newline-free answers and stamp has no newline in any field or entry |
| `Storage.OperationsKeepLineSafe` | test1.cpp:55-86 | deposits and withdrawals with a newline-free stamp keep an account newline-free, so it still reads back |
| `Storage.SavedLinesSafe` | test1.cpp:110-125 | when no field or entry has a newline, no written line has one |
| `Storage.FileRoundTrip` | test1.cpp:178-200 | the text of the accounts file reads back as the same collection, when no field or entry has a newline |
| `Validation.ScanDigits` | test1.cpp:274 | the left-to-right digit scan accepts exactly the all-digit strings |
| `Validation.Find` | test1.cpp:282 | the search returns the first position of the character, and nothing exactly when it is absent |
| `Validation.PhoneOk` | test1.cpp:274 | a phone number is accepted exactly when every character is a digit, so the empty one is accepted |
| `Validation.EmailOk` | test1.cpp:282 | an email is accepted exactly when it contains both '@' and '.' |
| `Validation.PasswordOk` | test1.cpp:316 | a password is accepted exactly when it is four characters, all digits |
| `Validation.FirstInvalid` | test1.cpp:254-319 | no question fails exactly when every check passes |
| `Validation.ValidDepositAboveMinimum` | test1.cpp:297-301 | an accepted initial deposit is positive and meets the type minimum |
| `Banking.SuffixOfAccountNumber` | test1.cpp:166 | the numeric suffix of a minted number is the counter value it was minted from |
| `Banking.GenerateAccountNumber` | test1.cpp:164-167 | the counter goes up by one and the number minted carries the new counter value; the accounts are untouched |
| `Banking.FirstAccountNumber` | test1.cpp:165-166 | the first number minted from the seed is "ACCT1001" |
| `Banking.MintedNumbersIncrease` | test1.cpp:164-167 | successive numbers carry suffixes one apart, strictly increasing, so none is minted twice |
| `Banking.FindAccount` | test1.cpp:169-176 | the result is the first account in order with the number, and nothing exactly when no account has it |
| `Banking.FindUnique` | test1.cpp:169-176 | with unique numbers, searching an account's number finds that account |
| `Banking.CreateAccount` | test1.cpp:321-322 | a freshly minted number; the new account is appended at the end and is exactly the account opened from the answers (name, address, phone, email, deposit, type, password) with that number, at or above its minimum, with its one opening entry; earlier accounts unchanged |
| `Banking.CreateKeepsNumbersUnique` | test1.cpp:321-322 | while the counter is ahead of every stored number, opening an account keeps numbers unique and the counter ahead |
| `Banking.Startup` | test1.cpp:237-239 | the counter starts at its seed whatever is loaded; a missing file gives an empty store |
| `Banking.RestartRestoresAccounts` | test1.cpp:178-188 | saving and restarting restores every account in order, with the counter back at its seed |
| `Banking.RestartCanDuplicateNumbers` | test1.cpp:165 | after a restart the first new account can repeat a number on file, and the search then only finds the older account |
| `Banking.DepositMoney` | test1.cpp:343-353 | unknown number: nothing changes; otherwise the first account with the number gets the deposit and no other account or the counter changes |
| `Banking.WithdrawMoney` | test1.cpp:375-383 | unknown number: nothing changes; otherwise the first account with the number gets the withdrawal and no other account or the counter changes |
| `Banking.RemoteAccess` | test1.cpp:458-477 | unknown number: not found; wrong password: denied and nothing changes; matching password with an amount: the first account with the number gets that withdrawal and nothing else changes; matching password without an amount: declined and nothing changes |
| `Session.ApplyExtends` | test1.cpp:55-86 | one request never removes, reorders or renames an account, only appends to histories and never lowers the counter |
| `Session.ApplyKeepsMinimum` | test1.cpp:71-85 | one request keeps every account at or above its type minimum |
| `Session.RunExtends` | test1.cpp:152-156 | over any run, histories only grow at their end, accounts are only added, and the counter only climbs |
| `Session.RunKeepsMinimum` | test1.cpp:71-85 | over any run, every account stays at or above its type minimum if it started there |
| `Session.RunKeepsNumbersUnique` | test1.cpp:164-167 | over any run, numbers stay unique while the counter starts ahead of them |

## Left out

- Console input and output: prompts, re-prompt loops, `displayMenu`, `main`, the display functions, `checkBalance`, `displayAccountDetails` and `viewTransactionHistory` (they read and print, changing nothing).
- `clearScreen` and `getHiddenInput`: terminal control and password masking.
- Time stamps: `ctime` of the current time is a parameter of every operation that appends an entry.
- `logTransaction` and the transaction log file: append-only output never read back.
- Opening, closing and error reporting of the accounts file; the save in the destructor and after each change. The model covers the lines written and read.
- Floating point: balances and amounts are integer cents, so `double` rounding and `setprecision(2)` rounding do not arise; narration amounts are rendered with six decimals from cents.
- The condition after a withdrawal that decides whether to log and save (test1.cpp:384 and test1.cpp:478): it triggers I/O only.
- The remote path's yes/no question and an unreadable amount are both a `None` request: neither changes the store.
- `Storage.LoadRecord`: reads a balance only as an optional '-', digits and optionally '.' plus two digits, and a count only as an optional '-' and digits, each filling the whole line; `>>` also skips blanks, accepts other number forms and leaves trailing characters for the next read.
- `Storage.LoadAccounts`: a file with a missing line or an unreadable number is a failure, where the stream would push a partly filled record and stop.
- `Banking.Startup`: a malformed file gives no store, where the program would start with the partly read records.
- `Banking.GenerateAccountNumber`: the counter is unbounded; the 32-bit `int` would overflow after about two billion accounts. The counter is a field of the store, where the source keeps one function-level static for the whole process.
- `Validation.PhoneOk`: a digit is '0' to '9'; `isdigit` on characters outside ASCII depends on the locale.
- bank management.cpp, the other edition of the program (counter file, admin view), is not part of this model.
