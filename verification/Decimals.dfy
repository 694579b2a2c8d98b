/** `String(n)` for a natural number, and back. */
module Decimals {
  predicate IsDigit(c: char) { '0' <= c <= '9' }

  function Digit(n: nat): (c: char)
    requires n < 10
    ensures IsDigit(c)
  {
    "0123456789"[n]
  }

  function Decimal(n: nat): (r: string)
    ensures r != "" && forall i :: 0 <= i < |r| ==> IsDigit(r[i])
  {
    if n < 10 then [Digit(n)] else Decimal(n / 10) + [Digit(n % 10)]
  }

  function DigitValue(c: char): nat
    requires IsDigit(c)
  {
    c as int - '0' as int
  }

  function Value(digits: string): nat
    requires forall i :: 0 <= i < |digits| ==> IsDigit(digits[i])
  {
    if digits == "" then 0 else Value(digits[..|digits| - 1]) * 10 + DigitValue(digits[|digits| - 1])
  }

  lemma {:induction false} ValueOfDecimal(n: nat)
    ensures Value(Decimal(n)) == n
  {
    var d := Decimal(n);
    if n < 10 {
      assert d[..0] == "";
    } else {
      ValueOfDecimal(n / 10);
      assert d[..|d| - 1] == Decimal(n / 10);
    }
  }

  lemma DigitOfValue(c: char)
    requires IsDigit(c)
    ensures Digit(DigitValue(c)) == c && (c != '0' ==> DigitValue(c) > 0)
  {
  }

  lemma DecimalOfMore(n: nat, d: nat)
    requires n > 0 && d < 10
    ensures Decimal(n * 10 + d) == Decimal(n) + [Digit(d)]
  {
  }

  lemma ValueOfMore(init: string, c: char)
    requires IsDigit(c) && forall i :: 0 <= i < |init| ==> IsDigit(init[i])
    ensures Value(init + [c]) == Value(init) * 10 + DigitValue(c)
  {
    assert (init + [c])[..|init|] == init;
  }

  lemma OneMoreDigit(init: string, c: char)
    requires IsDigit(c) && forall i :: 0 <= i < |init| ==> IsDigit(init[i])
    requires Value(init) > 0 && Decimal(Value(init)) == init
    ensures Value(init + [c]) > 0 && Decimal(Value(init + [c])) == init + [c]
  {
    ValueOfMore(init, c);
    DecimalOfMore(Value(init), DigitValue(c));
    DigitOfValue(c);
  }

  lemma {:induction false} DecimalOfValue(digits: string)
    requires digits != "" && digits[0] != '0' && forall i :: 0 <= i < |digits| ==> IsDigit(digits[i])
    ensures Value(digits) > 0 && Decimal(Value(digits)) == digits
  {
    if |digits| == 1 {
      assert digits == [digits[0]];
      DigitOfValue(digits[0]);
    } else {
      var init, last := digits[..|digits| - 1], digits[|digits| - 1];
      DecimalOfValue(init);
      OneMoreDigit(init, last);
      assert digits == init + [last];
    }
  }
}
