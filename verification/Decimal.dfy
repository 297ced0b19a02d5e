/** Decimal rendering of sequence numbers, as strconv.Itoa gives it. */
module Decimal {
  const DIGITS := "0123456789"

  function Itoa(n: nat): (s: string)
    ensures s != []
  {
    if n < 10 then [DIGITS[n]] else Itoa(n / 10) + [DIGITS[n % 10]]
  }

  predicate AllDigits(s: string) {
    forall i | 0 <= i < |s| :: '0' <= s[i] <= '9'
  }

  /** Reads a rendering back. */
  function Value(s: string): int {
    if s == [] then 0 else Value(s[..|s| - 1]) * 10 + (s[|s| - 1] as int - '0' as int)
  }

  /** Digits only, none of them a leading zero, and the number they stand for. */
  lemma {:induction false} ItoaReadsBack(n: nat)
    ensures Value(Itoa(n)) == n
    ensures AllDigits(Itoa(n))
    ensures Itoa(n)[0] == '0' ==> n == 0 && |Itoa(n)| == 1
  {
    if n >= 10 {
      ItoaReadsBack(n / 10);
      var s := Itoa(n);
      assert s[..|s| - 1] == Itoa(n / 10);
    } else {
      var s := Itoa(n);
      assert s[..|s| - 1] == [];
      assert Value([]) == 0;
    }
  }

  lemma ItoaInjective(m: nat, n: nat)
    requires Itoa(m) == Itoa(n)
    ensures m == n
  {
    ItoaReadsBack(m);
    ItoaReadsBack(n);
  }

  /** A larger number never renders shorter: the reason a too-long suffix ends the search. */
  lemma {:induction false} ItoaLengthMonotone(m: nat, n: nat)
    requires m <= n
    ensures |Itoa(m)| <= |Itoa(n)|
  {
    if m >= 10 {
      ItoaLengthMonotone(m / 10, n / 10);
    }
  }
}
