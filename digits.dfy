/**
 * The character class `[0-9]`, shared by the ticket-prefix matcher and by
 * the decimal rendering of the counts.
 */
module Digits {
  /** The class `[0-9]`. */
  predicate IsDigit(c: char) {
    '0' <= c <= '9'
  }

  /** The length of the longest run of digits in `s` starting at index `from`. */
  function DigitRun(s: string, from: nat): (n: nat)
    requires from <= |s|
    ensures from + n <= |s|
    ensures forall i :: from <= i < from + n ==> IsDigit(s[i])
    ensures from + n == |s| || !IsDigit(s[from + n])
    decreases |s| - from
  {
    if from < |s| && IsDigit(s[from]) then 1 + DigitRun(s, from + 1) else 0
  }

  /** Digits at `from .. from + k` lie within the digit run that starts at `from`. */
  lemma DigitRunCovers(s: string, from: nat, k: nat)
    requires from + k <= |s|
    requires forall i :: from <= i < from + k ==> IsDigit(s[i])
    ensures k <= DigitRun(s, from)
  {
  }

  /** The digit run length is pinned down by its two defining facts. */
  lemma DigitRunIs(s: string, from: nat, n: nat)
    requires from + n < |s| && !IsDigit(s[from + n])
    requires forall i :: from <= i < from + n ==> IsDigit(s[i])
    ensures DigitRun(s, from) == n
  {
    DigitRunCovers(s, from, n);
  }
}
