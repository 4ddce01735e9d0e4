/** Decimal notation, as digits from 0 to 9: shared by all that prints or parses a number. */
module Decimals {

  predicate AreDigits(ds: seq<int>) {
    forall i | 0 <= i < |ds| :: 0 <= ds[i] < 10
  }

  function DigitsOf(n: nat): seq<int> {
    (if n < 10 then [] else DigitsOf(n / 10)) + [n % 10]
  }

  function ValueOf(ds: seq<int>): int {
    if ds == [] then 0 else 10 * ValueOf(ds[..|ds| - 1]) + ds[|ds| - 1]
  }

  lemma ValueSnoc(ds: seq<int>, d: int)
    ensures ValueOf(ds + [d]) == 10 * ValueOf(ds) + d
  {
    assert (ds + [d])[..|ds|] == ds;
  }

  /** The digits of a number denote it. */
  lemma {:induction false} DigitsDenote(n: nat)
    ensures DigitsOf(n) != [] && AreDigits(DigitsOf(n)) && ValueOf(DigitsOf(n)) == n
  {
    if n >= 10 {
      DigitsDenote(n / 10);
    }
    ValueSnoc(if n < 10 then [] else DigitsOf(n / 10), n % 10);
  }
}
