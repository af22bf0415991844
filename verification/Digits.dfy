/** Decimal digits. */
module Digits {
  predicate IsDigit(c: char) {
    '0' <= c <= '9'
  }

  /** What a digit counts; other characters count nothing. */
  function DigitValue(c: char): (n: nat)
    ensures n < 10
  {
    if IsDigit(c) then c as int - '0' as int else 0
  }
}
