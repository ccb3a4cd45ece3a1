/** Worked values of the reference definitions. */
module Examples {

  import Sums
  import opened Decimal
  import opened Divisors
  import Tags

  /**
   * 371 = 3^3 + 7^3 + 1^3 is Armstrong with digit sum 11; so is 370 = 3^3 + 7^3 + 0^3;
   * 372 is not; single digits, 0 included, are.
   */
  lemma ArmstrongValues()
    ensures IsArmstrongSpec(371) && DigitSum(371) == 11
    ensures IsArmstrongSpec(370) && !IsArmstrongSpec(372)
    ensures IsArmstrongSpec(9) && IsArmstrongSpec(0)
  {
    assert Digits(37) == [3, 7];
    assert Digits(371) == [3, 7, 1];
    assert Digits(370) == [3, 7, 0];
    assert Digits(372) == [3, 7, 2];
    assert Pow(3, 3) == 27 && Pow(7, 3) == 343 && Pow(1, 3) == 1 && Pow(0, 3) == 0 && Pow(2, 3) == 8;
    var d3, d37, d371: seq<nat> := [3], [3, 7], [3, 7, 1];
    assert d371[..2] == d37 && d37[..1] == d3 && d3[..0] == [];
    assert SumOfPowers(d3, 3) == 27;
    assert SumOfPowers(d37, 3) == 370;
    assert SumOfPowers(d371, 3) == 371;
    assert Sums.SumOf(d3) == 3 && Sums.SumOf(d37) == 10 && Sums.SumOf(d371) == 11;
  }

  /** 6 and 28 are perfect; 0, 1 and 12 are not. */
  lemma PerfectValues()
    ensures IsPerfectSpec(6) && IsPerfectSpec(28)
    ensures !IsPerfectSpec(0) && !IsPerfectSpec(1) && !IsPerfectSpec(12)
  {
    assert DivisorSum(28, 1, 8) == 14;
    assert DivisorSum(28, 8, 15) == 14;
    DivisorSumNone(28, 15, 28);
    DivisorSumSplit(28, 1, 8, 15);
    DivisorSumSplit(28, 1, 15, 28);
  }

  /** 2 and 17 are prime; 0, 1 and 18 are not. */
  lemma PrimeValues()
    ensures IsPrimeSpec(2) && IsPrimeSpec(17)
    ensures !IsPrimeSpec(0) && !IsPrimeSpec(1) && !IsPrimeSpec(18)
  {
    assert Divides(2, 18);
  }

  /** 371 is tagged ["armstrong", "odd"]. */
  lemma TagValues()
    ensures Tags.Build(true, 371) == ["armstrong", "odd"]
    ensures Tags.Build(false, 10) == ["even"]
  {
  }
}
