/** Decimal numerals, printed and read. */
module Numerals {
  predicate IsDigit(c: char) {
    '0' <= c <= '9'
  }

  predicate AllDigits(d: string) {
    forall k :: 0 <= k < |d| ==> IsDigit(d[k])
  }

  function Digit(c: char): nat {
    if IsDigit(c) then c as int - '0' as int else 0
  }

  /** The value of a run of digits. */
  function Value(d: string): nat {
    if d == "" then 0 else 10 * Value(d[..|d| - 1]) + Digit(d[|d| - 1])
  }

  function Decimal(n: nat): (r: string)
    ensures r != "" && AllDigits(r) && Value(r) == n
  {
    var d := [(n % 10 + '0' as int) as char];
    if n < 10 then
      assert d[..0] == "" && Value("") == 0;
      d
    else
      var r := Decimal(n / 10) + d;
      assert r[..|r| - 1] == Decimal(n / 10);
      r
  }

  /** %d. */
  function PrintInt(n: int): string {
    if n < 0 then "-" + Decimal(-n) else Decimal(n)
  }
}
