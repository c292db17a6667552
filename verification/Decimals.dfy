/** Decimal digits, and strconv.Itoa and Atoi on them. */
module Decimals {
  import opened Basics

  predicate IsDigit(c: char) { '0' <= c <= '9' }

  predicate AllDigits(s: string) { forall i | 0 <= i < |s| :: IsDigit(s[i]) }

  function Digit(c: char): (d: nat)
    requires IsDigit(c)
    ensures d <= 9
  {
    c as int - '0' as int
  }

  function Natural(s: string): nat
    requires AllDigits(s)
  {
    if s == "" then 0 else 10 * Natural(s[..|s| - 1]) + Digit(s[|s| - 1])
  }

  function Numeral(n: nat): char
    requires n < 10
  {
    '0' + n as char
  }

  function Itoa(n: nat): string { if n < 10 then [Numeral(n)] else Itoa(n / 10) + [Numeral(n % 10)] }

  lemma {:induction false} ItoaParses(n: nat)
    ensures Itoa(n) != "" && AllDigits(Itoa(n)) && Natural(Itoa(n)) == n
  {
    if n >= 10 {
      ItoaParses(n / 10);
      assert Itoa(n)[..|Itoa(n)| - 1] == Itoa(n / 10);
    }
  }

  const MAX_INT: nat := 0x7fff_ffff_ffff_ffff

  /** Atoi on 64-bit integers. */
  function Atoi(s: string): Option<int> {
    var negative := s != "" && s[0] == '-';
    var digits := if s != "" && (s[0] == '-' || s[0] == '+') then s[1..] else s;
    if digits == "" || !AllDigits(digits) then None
    else
      var n: int := Natural(digits);
      if n > MAX_INT + (if negative then 1 else 0) then None else if negative then Some(-n) else Some(n)
  }
}
