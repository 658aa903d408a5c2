/** Decimal text as the ledger writes and reads it: `std::to_string` of a
    counter, the two-decimal balance written with `fixed << setprecision(2)`,
    and the `>>` reads of an `int` and of a balance.  Money is kept as an
    integer number of cents, so the two-decimal form is exact. */
module Decimal {
  import opened Maybe

  predicate IsDigit(c: char) {
    '0' <= c <= '9'
  }

  /** Every character is a decimal digit (`all_of(..., ::isdigit)`); true of "". */
  predicate AllDigits(s: string) {
    forall i :: 0 <= i < |s| ==> IsDigit(s[i])
  }

  function DigitValue(c: char): (d: nat)
    requires IsDigit(c)
    ensures d < 10
  {
    c as int - '0' as int
  }

  function DigitChar(d: nat): (c: char)
    requires d < 10
    ensures IsDigit(c) && DigitValue(c) == d
  {
    ('0' as int + d) as char
  }

  /** `std::to_string` of a non-negative integer. */
  function NatToString(n: nat): (s: string)
    ensures |s| > 0 && AllDigits(s)
    decreases n
  {
    if n < 10 then [DigitChar(n)] else NatToString(n / 10) + [DigitChar(n % 10)]
  }

  /** The value of a digit string, most significant digit first. */
  function DigitsValue(s: string): nat
    requires AllDigits(s)
    decreases |s|
  {
    if s == [] then 0 else 10 * DigitsValue(s[..|s| - 1]) + DigitValue(s[|s| - 1])
  }

  /** An unsigned decimal: one or more digits and nothing else. */
  function ParseNat(s: string): (r: Option<nat>)
    ensures r.Some? <==> |s| > 0 && AllDigits(s)
  {
    if |s| > 0 && AllDigits(s) then Some(DigitsValue(s)) else None
  }

  /** The `>> int` read of a whole line: an optional minus sign, then digits. */
  function ParseInt(s: string): (r: Option<int>)
    ensures r.Some? && r.value < 0 ==> |s| > 0 && s[0] == '-'
  {
    if |s| > 0 && s[0] == '-' then
      match ParseNat(s[1..])
      case None => None
      case Some(m) => Some(-(m as int))
    else
      match ParseNat(s)
      case None => None
      case Some(m) => Some(m)
  }

  lemma {:induction false} DigitsValueOfNatToString(n: nat)
    ensures DigitsValue(NatToString(n)) == n
    decreases n
  {
    if n >= 10 {
      var s := NatToString(n);
      assert s[..|s| - 1] == NatToString(n / 10);
      DigitsValueOfNatToString(n / 10);
    }
  }

  /** Reading back what `std::to_string` wrote gives the same number. */
  lemma ParseNatToString(n: nat)
    ensures ParseNat(NatToString(n)) == Some(n)
  {
    DigitsValueOfNatToString(n);
  }

  lemma ParseIntOfNatToString(n: nat)
    ensures ParseInt(NatToString(n)) == Some(n)
  {
    ParseNatToString(n);
  }

  /** Different numbers are rendered as different strings. */
  lemma NatToStringInjective(m: nat, n: nat)
    ensures NatToString(m) == NatToString(n) <==> m == n
  {
    ParseNatToString(m);
    ParseNatToString(n);
  }

  /** The two fractional digits of a cent count below 100. */
  function TwoDigits(c: nat): string
    requires c < 100
  {
    [DigitChar(c / 10), DigitChar(c % 10)]
  }

  /** The balance line: `fixed << setprecision(2)` of a cent amount, with a
      leading '-' for a negative amount. */
  function FormatCents(c: int): (s: string)
    ensures '\n' !in s
  {
    var m := if c < 0 then -c else c;
    (if c < 0 then "-" else "") + NatToString(m / 100) + "." + TwoDigits(m % 100)
  }

  /** `std::to_string` of a double, as in the narrations: six decimals,
      the last four of which are zero for a whole number of cents. */
  function SixDecimals(c: int): (s: string)
    ensures |s| == |FormatCents(c)| + 4
    ensures s[..|FormatCents(c)|] == FormatCents(c) && s[|s| - 4..] == "0000"
    ensures '\n' !in s
  {
    FormatCents(c) + "0000"
  }

  /** An unsigned amount: digits, optionally followed by '.' and exactly two
      digits. */
  function ParseUnsignedCents(u: string): Option<nat> {
    if |u| >= 4 && u[|u| - 3] == '.' && IsDigit(u[|u| - 2]) && IsDigit(u[|u| - 1]) then
      match ParseNat(u[..|u| - 3])
      case None => None
      case Some(w) => Some(100 * w + 10 * DigitValue(u[|u| - 2]) + DigitValue(u[|u| - 1]))
    else
      match ParseNat(u)
      case None => None
      case Some(w) => Some(100 * w)
  }

  /** The `>> balance` read of a whole line, in cents. */
  function ParseCents(s: string): (r: Option<int>)
    ensures r.Some? && r.value < 0 ==> |s| > 0 && s[0] == '-'
  {
    if |s| > 0 && s[0] == '-' then
      match ParseUnsignedCents(s[1..])
      case None => None
      case Some(m) => Some(-(m as int))
    else
      match ParseUnsignedCents(s)
      case None => None
      case Some(m) => Some(m)
  }

  lemma ParseUnsignedCentsOf(u: string)
    requires |u| >= 4 && u[|u| - 3] == '.' && IsDigit(u[|u| - 2]) && IsDigit(u[|u| - 1])
    requires AllDigits(u[..|u| - 3])
    ensures ParseUnsignedCents(u)
      == Some(100 * DigitsValue(u[..|u| - 3]) + 10 * DigitValue(u[|u| - 2]) + DigitValue(u[|u| - 1]))
  {
  }

  lemma CentsTextValue(q: nat, r: nat)
    requires r < 100
    ensures ParseUnsignedCents(NatToString(q) + "." + TwoDigits(r)) == Some(100 * q + r)
  {
    var w := NatToString(q);
    var u := w + "." + TwoDigits(r);
    assert u[..|u| - 3] == w;
    assert DigitValue(u[|u| - 2]) == r / 10 && DigitValue(u[|u| - 1]) == r % 10;
    ParseUnsignedCentsOf(u);
    DigitsValueOfNatToString(q);
  }

  /** The balance line reads back as exactly the balance that was written. */
  lemma CentsRoundTrip(c: int)
    ensures ParseCents(FormatCents(c)) == Some(c)
  {
    var m := if c < 0 then -c else c;
    var u := NatToString(m / 100) + "." + TwoDigits(m % 100);
    CentsTextValue(m / 100, m % 100);
    if c < 0 {
      assert FormatCents(c)[1..] == u;
    } else {
      assert FormatCents(c) == u;
      assert IsDigit(u[0]);
    }
  }
}
