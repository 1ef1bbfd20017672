/** Decimal digits of natural numbers. */
module Decimals {

  type Digit = d: nat | d < 10

  function Digits(n: nat): (ds: seq<Digit>)
    ensures ds != []
  {
    if n < 10 then [n] else Digits(n / 10) + [n % 10]
  }

  function Value(ds: seq<Digit>): nat {
    if ds == [] then 0 else 10 * Value(ds[..|ds| - 1]) + ds[|ds| - 1]
  }

  lemma {:induction false} DigitsRoundTrip(n: nat)
    ensures Value(Digits(n)) == n && (Digits(n)[0] == 0 ==> n == 0)
  {
    if n >= 10 {
      DigitsRoundTrip(n / 10);
      assert Digits(n)[..|Digits(n)| - 1] == Digits(n / 10);
    } else {
      assert Digits(n)[..0] == [];
    }
  }

  // Digits without leading zeros are those of their value.
  lemma {:induction false} DigitsAreCanonical(ds: seq<Digit>)
    requires ds != [] && (ds[0] == 0 ==> |ds| == 1)
    ensures ds == Digits(Value(ds))
  {
    var k := |ds| - 1;
    if k > 0 {
      var front, last := ds[..k], ds[k];
      DigitsAreCanonical(front);
      var n := Value(front);
      assert Digits(0) == [0];
      assert n > 0;
      assert (10 * n + last) / 10 == n && (10 * n + last) % 10 == last;
      assert ds == front + [last];
    } else {
      assert Value(ds[..0]) == 0;
    }
  }
}
