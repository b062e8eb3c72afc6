// Numbers in decimal notation.
module Decimals {

  predicate IsDigit(c: char) {
    '0' <= c <= '9'
  }

  predicate AllDigits(s: string) {
    forall i :: 0 <= i < |s| ==> IsDigit(s[i])
  }

  function Digit(d: nat): (c: char)
    requires d < 10
    ensures IsDigit(c) && c as int == '0' as int + d
  {
    ('0' as int + d) as char
  }

  // std::to_string of a non-negative number.
  function Decimal(n: nat): (s: string)
    ensures s != "" && AllDigits(s)
  {
    if n < 10 then [Digit(n)] else Decimal(n / 10) + [Digit(n % 10)]
  }

  // The number written by the digits at the start of s, behind digits worth acc.
  function DigitsPrefix(s: string, acc: nat): (v: nat)
    decreases |s|
  {
    if s == "" || !IsDigit(s[0]) then acc else DigitsPrefix(s[1..], 10 * acc + (s[0] as int - '0' as int))
  }

  lemma {:induction false} PrefixAppend(s: string, d: char, acc: nat)
    requires AllDigits(s) && IsDigit(d)
    ensures DigitsPrefix(s + [d], acc) == 10 * DigitsPrefix(s, acc) + (d as int - '0' as int)
    decreases |s|
  {
    if s == "" {
      assert (s + [d])[1..] == "";
    } else {
      assert (s + [d])[1..] == s[1..] + [d];
      PrefixAppend(s[1..], d, 10 * acc + (s[0] as int - '0' as int));
    }
  }

  // Reading a printed number gives the number back.
  lemma {:induction false} ReadDecimal(n: nat)
    ensures DigitsPrefix(Decimal(n), 0) == n
  {
    if n >= 10 {
      ReadDecimal(n / 10);
      PrefixAppend(Decimal(n / 10), Digit(n % 10), 0);
    } else {
      assert [Digit(n)][1..] == "";
    }
  }
}
