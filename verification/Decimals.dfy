/** Runs of ASCII decimal digits and their values. */
module Decimals {

  predicate Digit(c: char) { '0' <= c <= '9' }

  /** Length of the leading run of digits. */
  function Digits(s: string): (n: nat)
    ensures n <= |s| && (forall i | 0 <= i < n :: Digit(s[i])) && (n < |s| ==> !Digit(s[n]))
  {
    if s != "" && Digit(s[0]) then 1 + Digits(s[1..]) else 0
  }

  function DigitValue(c: char): nat { if Digit(c) then c as int - '0' as int else 0 }

  /** Reads every character as a digit. */
  function Value(s: string): nat {
    if s == "" then 0 else 10 * Value(s[..|s| - 1]) + DigitValue(s[|s| - 1])
  }

  lemma DigitsSplit(s: string, n: nat)
    requires n < |s| && (forall i | 0 <= i < n :: Digit(s[i])) && !Digit(s[n])
    ensures Digits(s) == n
  {
  }

  lemma {:induction false} PrefixIsSmaller(s: string, n: nat)
    requires n <= |s|
    ensures Value(s[..n]) <= Value(s)
    decreases |s|
  {
    if n < |s| {
      var front := s[..|s| - 1];
      PrefixIsSmaller(front, n);
      assert front[..n] == s[..n];
    } else {
      assert s[..n] == s;
    }
  }
}
