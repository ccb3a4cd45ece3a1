/**
 * The `api/classify-number` controller: takes the number as a query string,
 * rejects blank or non-integer tokens, and classifies negative numbers by
 * their absolute value (parity and primality aside).
 */
module ClassificationController {

  import opened Wrappers
  import opened DotNet
  import opened Decimal
  import opened Divisors
  import Tags
  import opened Responses

  /** The numbers service's reply as deserialised: an object whose `text` may be null. */
  datatype FunFactResponse = FunFactResponse(text: Option<string>)

  /**
   * The outcome of fetching and deserialising a fun fact: an exception (network
   * failure, error status, malformed JSON), or the deserialised value, which is
   * null for the JSON literal `null`.
   */
  datatype FetchOutcome = Threw | Deserialized(reply: Option<FunFactResponse>)

  const NoFactAvailable := "No fact available"

  /** `GetFunFact`: an exception is replaced by a reply carrying the fallback text. */
  function GetFunFact(fetch: FetchOutcome): Option<FunFactResponse> {
    match fetch
    case Threw => Some(FunFactResponse(Some(NoFactAvailable)))
    case Deserialized(reply) => reply
  }

  /** The service supplied a text. */
  predicate HasText(fetch: FetchOutcome) {
    fetch.Deserialized? && fetch.reply.Some? && fetch.reply.value.text.Some?
  }

  /** `funFactResponse?.text ?? "No fact available"`: the service's text, or the fallback. */
  function FunFact(fetch: FetchOutcome): (fact: string)
    ensures HasText(fetch) ==> fact == fetch.reply.value.text.value
    ensures !HasText(fetch) ==> fact == NoFactAvailable
  {
    match GetFunFact(fetch)
    case Some(FunFactResponse(Some(text))) => text
    case _ => NoFactAvailable
  }

  /** Sum of the digits of |num|, each raised to the digit count, compared with |num|. */
  method IsArmstrong(num: int) returns (r: bool)
    ensures r <==> IsArmstrongSpec(Abs(num))
    ensures num == 0 ==> r
  {
    var absNum := Abs(num);
    var sum := 0;
    var nDigits := DigitCount(absNum);
    var temp := absNum;
    while temp > 0
      invariant 0 <= temp
      invariant sum + SumOfPowers(Digits(temp), nDigits) == SumOfPowers(Digits(absNum), nDigits)
    {
      var digit := temp % 10;
      PeelLastDigit(temp, nDigits);
      sum := sum + Pow(digit, nDigits);
      temp := temp / 10;
    }
    assert Pow(0, nDigits) == 0;
    r := sum == absNum;
  }

  /** Trial division by every `i` with i * i <= |num| (the `i <= Math.Sqrt(absNum)` bound). */
  method IsPrime(num: int) returns (r: bool)
    ensures r <==> PassesTrialDivision(num)
    ensures r <==> IsPrimeSpec(num)
  {
    TrialDivisionCorrect(num);
    if num <= 1 {
      return false;
    }
    var absNum := Abs(num);
    var i := 2;
    while i * i <= absNum
      invariant 2 <= i
      invariant forall d :: 2 <= d < i ==> !Divides(d, absNum)
    {
      if absNum % i == 0 {
        Arith.MulMono(1, i, i);
        assert Divides(i, num);
        return false;
      }
      i := i + 1;
    }
    forall d | 2 <= d <= num && d * d <= num
      ensures !Divides(d, num)
    {
      if d >= i {
        Arith.MulMono(i, d, i);
        Arith.MulMono(i, d, d);
      }
    }
    return true;
  }

  /**
   * Divisor pairs up to the square root: 1 is counted up front, each divisor
   * `i` adds itself and its co-factor `num / i`, a square root only once.
   */
  method IsPerfect(num: int) returns (r: bool)
    ensures r <==> IsPerfectSpec(num)
    ensures num <= 1 ==> !r
  {
    if num <= 0 {
      return false;
    }
    var sum := 1;
    var i := 2;
    if num > 1 {
      PairStart(num);
    }
    while i * i <= num
      invariant 2 <= i
      invariant (i - 1) * (i - 1) <= num
      invariant num > 1 ==> sum == PairCoverage(num, i)
      invariant num == 1 ==> sum == 1
    {
      PairStep(num, i);
      if num % i == 0 {
        sum := sum + i;
        if i != num / i {
          sum := sum + num / i;
        }
      }
      i := i + 1;
    }
    if num > 1 {
      PairExit(num, i);
    }
    r := sum == num && num != 1;
  }

  /** Adds up the decimal digits of |num|, least significant first. */
  method GetDigitSum(num: int) returns (sum: int)
    ensures sum >= 0
    ensures sum == DigitSum(Abs(num))
  {
    var absNum := Abs(num);
    sum := 0;
    while absNum > 0
      invariant absNum >= 0 && sum >= 0
      invariant sum + DigitSum(absNum) == DigitSum(Abs(num))
    {
      PeelLastDigit(absNum, 1);
      sum := sum + absNum % 10;
      absNum := absNum / 10;
    }
  }

  /**
   * `GET api/classify-number?number=...`. `number` is the query token (absent
   * when missing); `parsed` is what `int.TryParse` makes of it; `fetch` is the
   * outcome of the fun-fact request.
   */
  method Get(number: Option<string>, parsed: Option<int>, fetch: FetchOutcome) returns (resp: Response)
    ensures resp.BadRequest? <==> number.None? || IsBlank(number.value) || parsed.None?
    ensures resp.BadRequest? ==> resp.err == ErrorBody(true, number, None)
    ensures !resp.ServerError?
    ensures resp.Ok? ==> Describes(resp.body, parsed.value) && resp.body.funFact == FunFact(fetch)
  {
    if number.None? || IsBlank(number.value) || parsed.None? {
      return BadRequest(ErrorBody(true, number, None));
    }
    var num := parsed.value;
    var isPrime := IsPrime(num);
    var isPerfect := IsPerfect(num);
    var digitSum := GetDigitSum(num);
    var isArmstrong := IsArmstrong(num);
    var properties := Tags.Build(isArmstrong, num);
    var funFact := FunFact(fetch);
    resp := Ok(Classification(num, isPrime, isPerfect, properties, digitSum, funFact));
  }
}
