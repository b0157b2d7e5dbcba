// Natural numbers in decimal, as String(n) prints them and Number(s) reads them back.
module Decimal {
  import opened Options

  const DIGITS := "0123456789"

  function Dec(n: nat): (s: string)
    ensures s != "" && forall i :: 0 <= i < |s| ==> '0' <= s[i] <= '9'
  {
    if n < 10 then [DIGITS[n]] else Dec(n / 10) + [DIGITS[n % 10]]
  }

  predicate AllDigits(s: string) {
    forall i :: 0 <= i < |s| ==> '0' <= s[i] <= '9'
  }

  function Digits(s: string): nat
    requires AllDigits(s)
  {
    if s == "" then 0 else 10 * Digits(s[..|s| - 1]) + (s[|s| - 1] as int - '0' as int)
  }

  // Number(s) where s is a plain decimal numeral; the other spellings give None here.
  function Number(s: string): Option<nat> {
    if s != "" && AllDigits(s) then Some(Digits(s)) else None
  }

  lemma {:induction false} DigitsOfDec(n: nat)
    ensures Digits(Dec(n)) == n
  {
    if n >= 10 {
      var front, last := Dec(n / 10), [DIGITS[n % 10]];
      assert (front + last)[..|front + last| - 1] == front;
      DigitsOfDec(n / 10);
    } else {
      assert Dec(n)[..0] == "";
    }
  }

  lemma NumberReadsDec(n: nat)
    ensures Number(Dec(n)) == Some(n)
  {
    DigitsOfDec(n);
  }
}
