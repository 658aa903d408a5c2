/** The input checks `createNewAccount` applies before it opens an account,
    each lifted out as a predicate.  The prompt loop repeats a question until
    its check passes; the model only states which inputs pass. */
module Validation {
  import opened Maybe
  import opened Decimal
  import opened BankAccount

  /** The password length: `MIN_PASSWORD_LENGTH`. */
  const PasswordLength: nat := 4

  datatype Application = Application(
    name: string,
    address: string,
    phone: string,
    email: string,
    kind: string,
    deposit: int,
    password: string)

  /** The questions, in the order they are asked. */
  datatype Field = Name | Address | Phone | Email | Kind | InitialDeposit | Password

  /** The left-to-right `all_of(..., ::isdigit)` scan. */
  function ScanDigits(s: string): (ok: bool)
    ensures ok <==> AllDigits(s)
    decreases |s|
  {
    if s == [] then true else IsDigit(s[0]) && ScanDigits(s[1..])
  }

  /** `string::find`: the first position of `c` in `s`, if any. */
  function Find(s: string, c: char): (r: Option<nat>)
    ensures r.Some? ==> r.value < |s| && s[r.value] == c
    ensures r.Some? ==> forall j :: 0 <= j < r.value ==> s[j] != c
    ensures r.None? <==> c !in s
    decreases |s|
  {
    if s == [] then None
    else if s[0] == c then Some(0)
    else
      match Find(s[1..], c)
      case None => None
      case Some(i) => Some(i + 1)
  }

  /** The check on the name and on the address: anything but the empty
      line. */
  function NonEmpty(answer: string): (ok: bool)
    ensures ok <==> answer != ""
  {
    |answer| > 0
  }

  /** Only digits; so the empty phone number passes. */
  function PhoneOk(phone: string): (ok: bool)
    ensures ok <==> AllDigits(phone)
    ensures phone == "" ==> ok
  {
    ScanDigits(phone)
  }

  /** Both an '@' and a '.' occur, anywhere and in either order. */
  function EmailOk(email: string): (ok: bool)
    ensures ok <==> '@' in email && '.' in email
  {
    Find(email, '@').Some? && Find(email, '.').Some?
  }

  function KindOk(kind: string): (ok: bool)
    ensures ok <==> kind in {"Savings", "Current"}
  {
    kind == "Savings" || kind == "Current"
  }

  /** The initial deposit must reach the type's minimum balance. */
  function DepositOk(kind: string, deposit: int): (ok: bool)
    ensures ok <==> deposit >= (if kind == "Savings" then 10000 else 50000)
  {
    deposit >= MinBalance(kind)
  }

  /** Exactly four characters, all digits. */
  function PasswordOk(password: string): (ok: bool)
    ensures ok <==> |password| == PasswordLength && AllDigits(password)
  {
    |password| == PasswordLength && ScanDigits(password)
  }

  /** The first question whose answer fails its check, in the order the
      questions are asked. */
  function FirstInvalid(app: Application): (r: Option<Field>)
    ensures r == None <==>
      && NonEmpty(app.name) && NonEmpty(app.address) && PhoneOk(app.phone)
      && EmailOk(app.email) && KindOk(app.kind) && DepositOk(app.kind, app.deposit)
      && PasswordOk(app.password)
    ensures r == Some(Password) ==> !PasswordOk(app.password)
  {
    if !NonEmpty(app.name) then Some(Name)
    else if !NonEmpty(app.address) then Some(Address)
    else if !PhoneOk(app.phone) then Some(Phone)
    else if !EmailOk(app.email) then Some(Email)
    else if !KindOk(app.kind) then Some(Kind)
    else if !DepositOk(app.kind, app.deposit) then Some(InitialDeposit)
    else if !PasswordOk(app.password) then Some(Password)
    else None
  }

  /** An application every check accepts: the only kind that reaches the
      point where the account is created. */
  predicate Valid(app: Application) {
    FirstInvalid(app) == None
  }

  /** A valid application opens an account that already meets its minimum
      balance, with a strictly positive deposit. */
  lemma ValidDepositAboveMinimum(app: Application)
    requires Valid(app)
    ensures app.deposit >= MinBalance(app.kind) > 0
  {
  }
}
