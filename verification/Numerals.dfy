/** Decimal numerals as strconv.Itoa writes them. */
module Numerals {

  function Digit(d: nat): char
    requires d < 10
  {
    '0' + (d as char)
  }

  predicate IsDigit(c: char) {
    '0' <= c <= '9'
  }

  function Itoa(n: nat): string {
    if n < 10 then [Digit(n)] else Itoa(n / 10) + [Digit(n % 10)]
  }

  /** The number a numeral stands for. */
  function Value(s: string): nat {
    if s == "" then 0
    else Value(s[..|s| - 1]) * 10 + if IsDigit(s[|s| - 1]) then (s[|s| - 1] - '0') as nat else 0
  }

  lemma {:induction false} NumeralReads(n: nat)
    ensures Itoa(n) != "" && forall i :: 0 <= i < |Itoa(n)| ==> IsDigit(Itoa(n)[i])
    ensures Value(Itoa(n)) == n
  {
    if n < 10 {
      assert Itoa(n)[..0] == "";
    } else {
      NumeralReads(n / 10);
      assert Itoa(n)[..|Itoa(n)| - 1] == Itoa(n / 10);
    }
  }

  lemma NumeralsDiffer(a: nat, b: nat)
    ensures Itoa(a) == Itoa(b) <==> a == b
  {
    NumeralReads(a);
    NumeralReads(b);
  }
}
