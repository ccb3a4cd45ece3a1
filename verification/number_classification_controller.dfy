/**
 * The `api/NumberClassification` controller: takes the number as a bound
 * integer, rejects negative numbers, and computes the digit-based tests on the
 * text of the number through LINQ.
 */
module NumberClassificationController {

  import opened Wrappers
  import opened DotNet
  import opened Sums
  import opened Decimal
  import opened Divisors
  import Tags
  import opened Responses

  const InvalidNumber := "Invalid number"

  /** Trial division by every `i` with i * i <= n (the `i <= Math.Sqrt(n)` bound). */
  method IsPrime(n: int) returns (r: bool)
    ensures r <==> PassesTrialDivision(n)
    ensures r <==> IsPrimeSpec(n)
  {
    TrialDivisionCorrect(n);
    if n <= 1 {
      return false;
    }
    var i := 2;
    while i * i <= n
      invariant 2 <= i
      invariant forall d :: 2 <= d < i ==> !Divides(d, n)
    {
      if n % i == 0 {
        Arith.MulMono(1, i, i);
        assert Divides(i, n);
        return false;
      }
      i := i + 1;
    }
    forall d | 2 <= d <= n && d * d <= n
      ensures !Divides(d, n)
    {
      if d >= i {
        Arith.MulMono(i, d, i);
        Arith.MulMono(i, d, d);
      }
    }
    return true;
  }

  /** `s.Select(c => int.Parse(c.ToString()))` on a string of decimal digits. */
  function ParseDigits(s: string): seq<int> {
    seq(|s|, k requires 0 <= k < |s| => CharValue(s[k]))
  }

  /** `digits.Sum(d => Math.Pow(d, e))`. */
  function PowerSum(digits: seq<int>, e: nat): int {
    SumOf(seq(|digits|, k requires 0 <= k < |digits| => Pow(digits[k], e)))
  }

  /** The characters of `n.ToString()` parse back to the decimal digits of `n`. */
  lemma ParseDecimalString(n: nat)
    ensures ParseDigits(DecimalString(n)) == Digits(n)
  {
  }

  /** Mapping the power over the digits and summing is the reference sum of digit powers. */
  lemma {:induction false} PowerSumIsSumOfPowers(ds: seq<nat>, e: nat)
    ensures PowerSum(ds, e) == SumOfPowers(ds, e)
  {
    if |ds| > 0 {
      var init := ds[..|ds| - 1];
      PowerSumIsSumOfPowers(init, e);
      var mapped := seq(|ds|, k requires 0 <= k < |ds| => Pow(ds[k], e));
      assert mapped[..|ds| - 1] == seq(|init|, k requires 0 <= k < |init| => Pow(init[k], e));
    }
  }

  /** Digits of `n.ToString()`, each raised to the digit count, summed and compared with `n`. */
  function IsArmstrong(n: nat): (r: bool)
    ensures r <==> IsArmstrongSpec(n)
  {
    var digits := ParseDigits(DecimalString(n));
    var numDigits := |digits|;
    ParseDecimalString(n);
    PowerSumIsSumOfPowers(Digits(n), numDigits);
    PowerSum(digits, numDigits) == n
  }

  /** `number.ToString().Sum(c => c - '0')`: the digit sum taken character by character. */
  function DigitSumOfText(n: nat): (sum: int)
    ensures sum >= 0
    ensures sum == DigitSum(n)
  {
    var s := DecimalString(n);
    var values := seq(|s|, k requires 0 <= k < |s| => CharValue(s[k]));
    assert values == Digits(n);
    DigitSumNonNegative(n);
    SumOf(values)
  }

  /** `Enumerable.Range(start, count)`: `count` consecutive integers from `start`. */
  function Range(start: int, count: nat): seq<int> {
    seq(count, k => start + k)
  }

  /** `.Where(i => n % i == 0)`: the elements of `xs` that divide `n`, in order. */
  function WhereDivides(xs: seq<int>, n: int): seq<int> {
    if |xs| == 0 then []
    else WhereDivides(xs[..|xs| - 1], n) + (if Divides(xs[|xs| - 1], n) then [xs[|xs| - 1]] else [])
  }

  /** The LINQ pipeline sums exactly the divisors of `n` in [1, count]. */
  lemma {:induction false} RangeDivisorSum(n: int, count: nat)
    ensures SumOf(WhereDivides(Range(1, count), n)) == DivisorSum(n, 1, count + 1)
  {
    if count > 0 {
      var xs := Range(1, count);
      assert xs[..count - 1] == Range(1, count - 1);
      RangeDivisorSum(n, count - 1);
      SumOfAppend(WhereDivides(Range(1, count - 1), n), if Divides(count, n) then [count] else []);
    }
  }

  /** `n > 0` and the divisors of `n` in [1, n/2] sum to `n`. */
  function IsPerfect(n: int): (r: bool)
    ensures r <==> IsPerfectSpec(n)
  {
    if n <= 0 then false
    else
      var sum := SumOf(WhereDivides(Range(1, n / 2), n));
      RangeDivisorSum(n, n / 2);
      HalfRangeIsProper(n);
      sum == n
  }

  /**
   * What `FetchFunFactAsync` obtains: an exception, or the body text of the
   * numbers service's reply.
   */
  datatype FetchOutcome = Failed | Received(body: string)

  /** `FetchFunFactAsync`: the reply body, or a fallback sentence naming the number. */
  function FetchFunFact(n: nat, fetch: FetchOutcome): string {
    match fetch
    case Received(body) => body
    case Failed => "Could not fetch fun fact for " + DecimalString(n) + "."
  }

  /**
   * The characters at which Newtonsoft's JSON reader can begin a value:
   * objects, arrays, strings in either quote, numbers (including NaN and
   * Infinity), the literals true/false/null/undefined, and comments.
   */
  predicate CanStartJsonValue(c: char) {
    c in "{[\"'-./tfnNIu" || '0' <= c <= '9'
  }

  /**
   * `JsonConvert.DeserializeObject` throws on a text whose first non-blank
   * character cannot begin a JSON value. (Text that can begin one is taken to
   * deserialise; the rest of the JSON grammar is not modelled.)
   */
  predicate DeserializeThrows(s: string) {
    if |s| == 0 then false
    else if IsWhiteSpace(s[0]) then DeserializeThrows(s[1..])
    else !CanStartJsonValue(s[0])
  }

  /** The fallback sentence for a failed fetch cannot be deserialised. */
  lemma FallbackSentenceThrows(n: nat)
    ensures DeserializeThrows(FetchFunFact(n, Failed))
  {
    var s := FetchFunFact(n, Failed);
    assert s[0] == 'C';
  }

  /** The classification of a non-negative `n`, fun fact aside. */
  method Classify(number: int, funFact: string) returns (body: Classification)
    requires number >= 0
    ensures Describes(body, number) && body.funFact == funFact
  {
    var properties := Tags.Build(IsArmstrong(number), number);
    var isPrime := IsPrime(number);
    body := Classification(number, isPrime, IsPerfect(number), properties, DigitSumOfText(number), funFact);
  }

  /**
   * `GET api/NumberClassification?number=...` as written: the fun-fact string,
   * the fallback sentence included, is deserialised as JSON before the reply.
   */
  method Get(number: int, fetch: FetchOutcome) returns (resp: Response)
    ensures resp.BadRequest? <==> number < 0
    ensures resp.BadRequest? ==> resp.err == ErrorBody(true, None, Some(InvalidNumber))
    ensures resp.ServerError? <==> number >= 0 && DeserializeThrows(FetchFunFact(number, fetch))
    ensures number >= 0 && fetch.Failed? ==> resp.ServerError?
    ensures resp.Ok? ==> Describes(resp.body, number) && resp.body.funFact == fetch.body
  {
    if number < 0 {
      return BadRequest(ErrorBody(true, None, Some(InvalidNumber)));
    }
    var funFact := FetchFunFact(number, fetch);
    FallbackSentenceThrows(number);
    var body := Classify(number, funFact);
    if DeserializeThrows(funFact) {
      return ServerError;
    }
    resp := Ok(body);
  }

  /**
   * The evidently intended `Get`: a reply that cannot be deserialised counts as
   * a failed fetch, and the fallback sentence is returned as plain text, so a
   * non-negative number is always classified.
   */
  method GetWithFallback(number: int, fetch: FetchOutcome) returns (resp: Response)
    ensures resp.BadRequest? <==> number < 0
    ensures resp.BadRequest? ==> resp.err == ErrorBody(true, None, Some(InvalidNumber))
    ensures resp.Ok? <==> number >= 0
    ensures resp.Ok? ==> Describes(resp.body, number)
    ensures resp.Ok? && fetch.Received? && !DeserializeThrows(fetch.body) ==> resp.body.funFact == fetch.body
    ensures resp.Ok? && (fetch.Failed? || DeserializeThrows(fetch.body)) ==> resp.body.funFact == FetchFunFact(number, Failed)
  {
    if number < 0 {
      return BadRequest(ErrorBody(true, None, Some(InvalidNumber)));
    }
    var funFact := FetchFunFact(number, fetch);
    if DeserializeThrows(funFact) {
      funFact := FetchFunFact(number, Failed);
    }
    var body := Classify(number, funFact);
    resp := Ok(body);
  }
}
