/**
 * Decimal notation of non-negative integers: the digit sequence, the text
 * `int.ToString()` produces, and the digit-based quantities the controllers
 * compute from it (digit sum, sum of digit powers, the Armstrong test).
 */
module Decimal {

  import opened Sums

  /** A well-formed numeral: at least one digit, every digit below ten, no leading zero. */
  predicate IsNumeral(ds: seq<nat>) {
    && |ds| >= 1
    && (forall k :: 0 <= k < |ds| ==> ds[k] < 10)
    && (|ds| > 1 ==> ds[0] != 0)
  }

  /** The decimal digits of `n`, most significant first; zero is the single digit 0. */
  function Digits(n: nat): (ds: seq<nat>)
    ensures IsNumeral(ds)
  {
    if n < 10 then [n] else Digits(n / 10) + [n % 10]
  }

  /** The number a digit sequence denotes (positional value, base ten). */
  function Value(ds: seq<nat>): nat {
    if |ds| == 0 then 0 else Value(ds[..|ds| - 1]) * 10 + ds[|ds| - 1]
  }

  /** Reading back the digits of `n` gives `n`. */
  lemma {:induction false} ValueOfDigits(n: nat)
    ensures Value(Digits(n)) == n
  {
    if n >= 10 {
      var ds := Digits(n);
      assert ds[..|ds| - 1] == Digits(n / 10);
      ValueOfDigits(n / 10);
    }
  }

  /** A numeral with a non-zero leading digit denotes a positive number. */
  lemma {:induction false} LeadingDigitPositive(ds: seq<nat>)
    requires |ds| >= 1 && ds[0] != 0
    ensures Value(ds) >= 1
  {
    if |ds| > 1 {
      LeadingDigitPositive(ds[..|ds| - 1]);
    }
  }

  /** Every well-formed numeral is the digit sequence of the number it denotes. */
  lemma {:induction false} DigitsOfValue(ds: seq<nat>)
    requires IsNumeral(ds)
    ensures Digits(Value(ds)) == ds
  {
    if |ds| > 1 {
      var init, last := ds[..|ds| - 1], ds[|ds| - 1];
      assert IsNumeral(init) by {
        assert forall k :: 0 <= k < |init| ==> init[k] == ds[k];
      }
      LeadingDigitPositive(init);
      DigitsOfValue(init);
      var v := Value(ds);
      assert v == Value(init) * 10 + last;
      assert v / 10 == Value(init) && v % 10 == last;
      assert ds == init + [last];
    }
  }

  /** The character for a decimal digit. */
  function DigitChar(d: nat): char
    requires d < 10
  {
    ('0' as int + d) as char
  }

  /** C#'s `c - '0'`: the code distance from the character '0'. */
  function CharValue(c: char): int {
    c as int - '0' as int
  }

  /** `n.ToString()` for a non-negative `n`: its digits as characters. */
  function DecimalString(n: nat): (s: string)
    ensures |s| == |Digits(n)|
    ensures forall k :: 0 <= k < |s| ==> '0' <= s[k] <= '9' && CharValue(s[k]) == Digits(n)[k]
  {
    var ds := Digits(n);
    seq(|ds|, k requires 0 <= k < |ds| => DigitChar(ds[k]))
  }

  /** The digit count of `n`, as `n.ToString().Length` reports it. */
  function DigitCount(n: nat): (c: nat)
    ensures c == |Digits(n)|
    ensures c >= 1
    ensures n < 10 <==> c == 1
  {
    |DecimalString(n)|
  }

  /** The sum of the decimal digits of `n`. */
  function DigitSum(n: nat): int {
    SumOf(Digits(n))
  }

  /** Integer power, standing for `Math.Pow` on small whole arguments. */
  function Pow(b: int, e: nat): int {
    if e == 0 then 1 else b * Pow(b, e - 1)
  }

  /** The sum of each element of `ds` raised to the power `e`. */
  function SumOfPowers(ds: seq<nat>, e: nat): int {
    if |ds| == 0 then 0 else SumOfPowers(ds[..|ds| - 1], e) + Pow(ds[|ds| - 1], e)
  }

  /**
   * Armstrong (narcissistic) number: the sum of its digits, each raised to the
   * number of digits, is the number itself.
   */
  predicate IsArmstrongSpec(n: nat) {
    SumOfPowers(Digits(n), |Digits(n)|) == n
  }

  /**
   * Removing the last digit of a positive number: the arithmetic step
   * `n % 10`, `n / 10` of the controllers' loops, seen on the digit sequence.
   */
  lemma PeelLastDigit(n: nat, e: nat)
    requires n > 0 && e >= 1
    ensures DigitSum(n) == DigitSum(n / 10) + n % 10
    ensures SumOfPowers(Digits(n), e) == SumOfPowers(Digits(n / 10), e) + Pow(n % 10, e)
  {
    var ds := Digits(n);
    if n >= 10 {
      assert ds[..|ds| - 1] == Digits(n / 10);
    } else {
      assert Digits(n / 10) == [0];
      assert Pow(0, e) == 0;
    }
  }

  /** The digit sum is never negative. */
  lemma DigitSumNonNegative(n: nat)
    ensures DigitSum(n) >= 0
  {
    SumOfNonNegative(Digits(n));
  }
}
