/**
 * The two controllers implement the same tests by different algorithms; on
 * every input both accept, they return the same answers.
 */
module Agreement {

  import ClassificationController
  import NumberClassificationController

  /** Both trial divisions agree on every integer. */
  method PrimeTestsAgree(n: int) returns (classify: bool, numberClassify: bool)
    ensures classify == numberClassify
  {
    classify := ClassificationController.IsPrime(n);
    numberClassify := NumberClassificationController.IsPrime(n);
  }

  /** The divisor-pair loop and the divisors-up-to-n/2 sum agree on every integer, 1 included. */
  method PerfectTestsAgree(n: int) returns (pairs: bool, halfRange: bool)
    ensures pairs == halfRange
    ensures n == 1 ==> !pairs
  {
    pairs := ClassificationController.IsPerfect(n);
    halfRange := NumberClassificationController.IsPerfect(n);
  }

  /** The arithmetic digit sum and the character-wise one agree on every non-negative integer. */
  method DigitSumsAgree(n: nat) returns (arithmetic: int, textual: int)
    ensures arithmetic == textual
  {
    arithmetic := ClassificationController.GetDigitSum(n);
    textual := NumberClassificationController.DigitSumOfText(n);
  }

  /** The arithmetic Armstrong loop and the string-based one agree on every non-negative integer. */
  method ArmstrongTestsAgree(n: nat) returns (arithmetic: bool, textual: bool)
    ensures arithmetic == textual
  {
    arithmetic := ClassificationController.IsArmstrong(n);
    textual := NumberClassificationController.IsArmstrong(n);
  }

  /** The first controller's digit sum ignores the sign: GetDigitSum(-n) == GetDigitSum(n). */
  method DigitSumIgnoresSign(n: int) returns (forN: int, forMinusN: int)
    ensures forN == forMinusN
  {
    forN := ClassificationController.GetDigitSum(n);
    forMinusN := ClassificationController.GetDigitSum(-n);
  }

  /** The first controller's Armstrong test ignores the sign: IsArmstrong(-n) == IsArmstrong(n). */
  method ArmstrongIgnoresSign(n: int) returns (forN: bool, forMinusN: bool)
    ensures forN == forMinusN
  {
    forN := ClassificationController.IsArmstrong(n);
    forMinusN := ClassificationController.IsArmstrong(-n);
  }
}
