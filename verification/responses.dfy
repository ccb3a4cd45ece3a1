/** The JSON bodies the classification endpoints answer with. */
module Responses {

  import opened Wrappers
  import DotNet
  import Decimal
  import Divisors
  import Tags

  /** `{ error = true, ... }`: echoes the offending token and/or carries a message. */
  datatype ErrorBody = ErrorBody(error: bool, number: Option<string>, message: Option<string>)

  /** The success body: `number`, `is_prime`, `is_perfect`, `properties`, `digit_sum`, `fun_fact`. */
  datatype Classification = Classification(
    number: int,
    isPrime: bool,
    isPerfect: bool,
    properties: seq<string>,
    digitSum: int,
    funFact: string)

  /** HTTP 400 with an error body, HTTP 200 with a classification, or an exception escaping the action (HTTP 500). */
  datatype Response = BadRequest(err: ErrorBody) | Ok(body: Classification) | ServerError

  /** The body classifies `n` according to the reference definitions. */
  predicate Describes(body: Classification, n: int) {
    && body.number == n
    && (body.isPrime <==> Divisors.IsPrimeSpec(n))
    && (body.isPerfect <==> Divisors.IsPerfectSpec(n))
    && body.digitSum == Decimal.DigitSum(DotNet.Abs(n))
    && body.properties == Tags.Build(Decimal.IsArmstrongSpec(DotNet.Abs(n)), n)
  }
}
