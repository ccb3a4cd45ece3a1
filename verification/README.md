# Number classifier — a Dafny model

The repository is a small ASP.NET service. It takes an integer and answers with
JSON that says whether the integer is prime, whether it is perfect, its digit
sum, a `properties` tag list (`"armstrong"` when it is an Armstrong number,
then `"even"` or `"odd"`), and a "fun fact" fetched from a public numbers
service. Two controllers implement this in two different ways:

- `ClassificationController` (`api/classify-number`) takes the number as a
  query-string token. It rejects missing, blank or non-integer tokens, and
  classifies negative numbers. Its tests are loops: trial division, a
  divisor-pair sum up to the square root, and digit loops using `% 10` and `/ 10`.
- `NumberClassificationController` (`api/NumberClassification`) takes a bound
  `int` and rejects negative numbers. It computes the perfect test with LINQ
  (`Range(1, n/2).Where(...).Sum()`). Its digit sum and Armstrong test work
  on the characters of `n.ToString()`.

The model defines every quantity once, as a reference definition:

- `Decimal.Digits` and `Decimal.DigitSum` for decimal digits and the digit sum.
- `Decimal.IsArmstrongSpec` for the Armstrong test.
- `Divisors.IsPrimeSpec` for primality: no divisor in [2, n-1].
- `Divisors.IsPerfectSpec` for perfection: the proper divisors sum to n.

Each controller operation is then proved equal to its reference. Loops become
methods verified by loop invariants. LINQ pipelines become functions proved
through lemmas. The `Agreement` module runs both controllers' versions of
each test and proves that they return the same answer.

Modules:

- `Wrappers`: Option.
- `DotNet`: `Math.Abs`, C#'s truncating `%`, `char.IsWhiteSpace`, `string.IsNullOrWhiteSpace`.
- `Arith`: multiplication and division facts.
- `Sums`: `SumOf`.
- `Decimal`: digits, `ToString`, powers, the Armstrong test.
- `Divisors`: primality, perfection, and the lemmas behind the square-root and n/2 shortcuts.
- `Tags`: the `properties` list.
- `Responses`: the JSON bodies.
- `ClassificationController` and `NumberClassificationController`: one module per controller.
- `Agreement`: the two controllers agree.
- `Examples`: worked values.

Behaviour of the code worth knowing:

- **Negative numbers.** `ClassificationController` classifies them: the digit sum and the Armstrong test use |n|, and primality and perfection are false. `NumberClassificationController` rejects them with HTTP 400.
- **The number 370.** It is an Armstrong number, because 3³ + 7³ + 0³ = 370, and both controllers report it as one (`Examples.ArmstrongValues`).
- **Empty fun fact.** `ClassificationController` replaces only a missing text or a failed fetch with "No fact available". An empty `text` from the service is passed through.
- **Fun-fact category.** Both controllers always request the `math` category. The request itself is a parameter of the model.
- **Shape of `fun_fact`.** In `NumberClassificationController`, `fun_fact` is the whole deserialised reply of the service, not its `text` field. The model carries it as the reply's text.

## Model

| member | source | states |
|---|---|---|
| ClassificationController.Get | Controller/ClassificationController.cs:28-64 | a missing or blank token, or one `int.TryParse` rejects, gives HTTP 400 echoing the token with `error = true`; otherwise HTTP 200 (never an exception) whose prime, perfect and digit-sum fields and `properties` list are the reference classifications of the parsed number, and whose fun fact is `FunFact` of the fetch |
| ClassificationController.FunFact | Controller/ClassificationController.cs:129-140 | the fun fact is the service's `text` when the fetch and deserialisation produced one; after an exception, a null reply or a missing `text`, it is "No fact available" (also the `??` at line 52) |
| ClassificationController.IsArmstrong | Controller/ClassificationController.cs:66-80 | true iff the digits of \|num\|, each raised to the digit count, sum to \|num\|; true for 0, where the loop does not run |
| ClassificationController.IsPrime | Controller/ClassificationController.cs:82-94 | true iff num >= 2 and no i with 2 <= i and i*i <= num divides it, which is also iff num has no divisor in [2, num-1]; false for every num <= 1 |
| ClassificationController.IsPerfect | Controller/ClassificationController.cs:96-115 | true iff num > 0 and the proper divisors of num sum to num: the pair loop counts each proper divisor once; false for num <= 1 |
| ClassificationController.GetDigitSum | Controller/ClassificationController.cs:117-127 | the result is non-negative and equals the sum of the decimal digits of \|num\| |
| NumberClassificationController.Get | Controller/NumberClassificationController.cs:24-63 | a negative number gives HTTP 400 `{error = true, message = "Invalid number"}`. Otherwise the response is an exception (HTTP 500) exactly when the fun-fact string cannot be deserialised, which always happens after a failed fetch; else HTTP 200 with the reference classification and the fetched body |
| NumberClassificationController.GetWithFallback | Controller/NumberClassificationController.cs:24-63 | corrected handler: every non-negative number gets HTTP 200 with the reference classification. The fun fact is the fetched body when it deserialises, else the fallback sentence |
| NumberClassificationController.Classify | Controller/NumberClassificationController.cs:31-46 | the tag list, prime, perfect and digit-sum fields built for n >= 0 are the reference classification of n |
| NumberClassificationController.IsPrime | Controller/NumberClassificationController.cs:65-73 | true iff n >= 2 and no i with 2 <= i and i*i <= n divides n, which is also iff n has no divisor in [2, n-1] |
| NumberClassificationController.IsArmstrong | Controller/NumberClassificationController.cs:75-81 | for n >= 0: the digits parsed from `n.ToString()`, each raised to their count and summed, equal n iff n is an Armstrong number |
| NumberClassificationController.IsPerfect | Controller/NumberClassificationController.cs:83-88 | true iff n > 0 and the proper divisors of n sum to n; false for n <= 0 and for 1 |
| NumberClassificationController.DigitSumOfText | Controller/NumberClassificationController.cs:46 | `number.ToString().Sum(c => c - '0')` is non-negative and equals the decimal digit sum of n |
| NumberClassificationController.RangeDivisorSum | Controller/NumberClassificationController.cs:86 | `Range(1, count).Where(i => n % i == 0).Sum()` is the sum of the divisors of n in [1, count] |
| NumberClassificationController.ParseDecimalString | Controller/NumberClassificationController.cs:77 | parsing each character of `n.ToString()` gives the decimal digits of n, most significant first |
| NumberClassificationController.PowerSumIsSumOfPowers | Controller/NumberClassificationController.cs:79 | `digits.Sum(d => Math.Pow(d, e))` is the sum of each digit raised to e |
| NumberClassificationController.FallbackSentenceThrows | Controller/NumberClassificationController.cs:97-100 | the fallback "Could not fetch fun fact for {n}." starts with a character no JSON value can start with, so deserialising it throws |
| Agreement.PrimeTestsAgree | Controller/NumberClassificationController.cs:65-73 | the two controllers' trial divisions return the same answer on every integer |
| Agreement.PerfectTestsAgree | Controller/NumberClassificationController.cs:83-88 | the divisors-up-to-n/2 test agrees with the divisor-pair test on every integer, and both say 1 is not perfect |
| Agreement.DigitSumsAgree | Controller/NumberClassificationController.cs:46 | for n >= 0 the character-wise digit sum equals the arithmetic digit sum of the other controller |
| Agreement.ArmstrongTestsAgree | Controller/NumberClassificationController.cs:75-81 | for n >= 0 the string-based Armstrong test agrees with the arithmetic one of the other controller |
| Agreement.DigitSumIgnoresSign | Controller/ClassificationController.cs:117-127 | `GetDigitSum(-n) == GetDigitSum(n)` |
| Agreement.ArmstrongIgnoresSign | Controller/ClassificationController.cs:66-80 | `IsArmstrong(-n) == IsArmstrong(n)`: the test depends only on \|n\| |
| Tags.Build | Controller/ClassificationController.cs:42-48 | the list has one or two tags; the last is "even" when n % 2 == 0 and "odd" otherwise; "armstrong" is present iff the number is Armstrong, and only in first position |
| Tags.ReadBuild | Controller/NumberClassificationController.cs:31-38 | reading a built list back recovers exactly the Armstrong flag and the parity |
| Tags.BuildRead | Controller/NumberClassificationController.cs:31-38 | every list that reads back is the list built from what it says, so the list holds nothing else |
| DotNet.CsRemZero | Controller/ClassificationController.cs:48 | C#'s truncating `n % 2` is zero exactly when the Euclidean remainder is, so negative numbers get the right parity tag |
| DotNet.CsRem | Controller/NumberClassificationController.cs:38 | C#'s remainder has the sign of the dividend and is smaller in magnitude than the divisor |
| Divisors.TrialDivisionCorrect | Controller/ClassificationController.cs:88-93 | testing divisors only up to the square root decides primality: no factor i with i*i <= n iff no factor in [2, n-1] |
| Divisors.HalfRangeIsProper | Controller/NumberClassificationController.cs:86 | for n >= 1 the divisors of n in [1, n/2] sum to the same as its proper divisors, because none lies strictly between n/2 and n |
| Divisors.CofactorInterval | Controller/ClassificationController.cs:104-111 | the only divisor of n in (n/(i+1), n/i] is the co-factor n/i, and it is one only when i divides n |
| Divisors.PairStart | Controller/ClassificationController.cs:101 | starting the sum at 1 accounts for divisor 1 and its co-factor n, which is not proper |
| Divisors.PairStep | Controller/ClassificationController.cs:102-112 | one step of the pair loop adds i and, unless i is the square root, n/i: exactly the new divisors below i+1 and their new co-factors |
| Divisors.PairExit | Controller/ClassificationController.cs:102-114 | when the loop stops at the first i with i*i > n, the sum is the sum of the proper divisors, each counted once, a square root not twice |
| Decimal.Digits | Controller/NumberClassificationController.cs:77 | the digit sequence of n is a well-formed numeral: non-empty, digits below ten, no leading zero |
| Decimal.ValueOfDigits | Controller/NumberClassificationController.cs:77 | the digit sequence of n denotes n |
| Decimal.DigitsOfValue | Controller/NumberClassificationController.cs:77 | every well-formed numeral is the digit sequence of the number it denotes |
| Decimal.DecimalString | Controller/NumberClassificationController.cs:77 | `n.ToString()` has one character per digit, each between '0' and '9' and worth that digit |
| Decimal.DigitCount | Controller/ClassificationController.cs:71 | the length of `n.ToString()` is the number of decimal digits of n: at least one, and exactly one iff n < 10 |
| Decimal.PeelLastDigit | Controller/ClassificationController.cs:121-125 | taking `n % 10` and continuing with `n / 10` splits the digit sum and the sum of digit powers of a positive n |
| Examples.ArmstrongValues | Controller/ClassificationController.cs:66-80 | 371 is Armstrong with digit sum 11. 370, 9 and 0 are Armstrong. 372 is not |
| Examples.PerfectValues | Controller/ClassificationController.cs:96-115 | 6 and 28 are perfect; 0, 1 and 12 are not |
| Examples.PrimeValues | Controller/ClassificationController.cs:82-94 | 2 and 17 are prime; 0, 1 and 18 are not |
| Examples.TagValues | Controller/ClassificationController.cs:42-48 | 371 is tagged ["armstrong", "odd"] and 10 is tagged ["even"] |

## Left out

- Program.cs (hosting, HTTPS/HSTS, routing, dependency injection) is not part of this model: it holds no logic.
- The network call to the numbers service is a parameter of each handler (`FetchOutcome`), not modelled I/O. Async/await, timeouts and concurrent requests are left out.
- JSON (de)serialisation is abstract. `ClassificationController` receives the deserialised reply directly. For `NumberClassificationController`, only the first-character check described below is modelled.
- `int.TryParse` (culture, sign and whitespace rules) is an oracle parameter `parsed: Option<int>`.
- ASP.NET model binding is left out for both controllers. `ClassificationController.Get` starts at line 31 with the raw query token. Binding `[FromQuery] string number` with nullable reference types on can refuse a missing token before line 31 runs, with a different 400 body; that path is not modelled. `NumberClassificationController.Get` receives the bound integer.
- `Math.Sqrt` in the loop bound `i <= Math.Sqrt(n)` is written `i * i <= n`. The two are equal for every 32-bit n because the square root is correctly rounded. Floating-point rounding is not modelled.
- `Math.Pow` is written as integer power. It is exact for digit powers, whose sums stay below 2^53.
- 32-bit overflow is not modelled; integers are unbounded. This leaves out `Math.Abs(int.MinValue)` throwing, the `(int)Math.Pow` cast and Armstrong sums overflowing for ten-digit inputs, and divisor sums passing `int.MaxValue` for very large n.
- The `response ?? $"No fact found for {n}"` branch in `FetchFunFactAsync` is left out. `GetStringAsync` never returns null, so the branch cannot run.
- NumberClassificationController.Get: only a text whose first non-blank character cannot start a JSON value is treated as making `JsonConvert.DeserializeObject` throw. A text that starts like JSON is taken to deserialise, so malformed JSON later in a reply is not modelled.
- ClassificationController.FunFact: an empty `text` from the service is returned as it is. The contract promises a string, not a non-empty one, because the code substitutes the fallback only for a missing value.
- `NumberClassificationController.IsArmstrong` is modelled only for n >= 0. `int.Parse` would throw on the '-' of a negative number, but `Get` rejects negative numbers before calling it.

## Findings

| source | as written | input that shows it | evidently intended | confidence | as-written member | corrected member |
|---|---|---|---|---|---|---|
| Controller/NumberClassificationController.cs:47-61 | after a failed fetch, the fallback sentence "Could not fetch fun fact for {n}." is passed to `JsonConvert.DeserializeObject`. 'C' cannot start a JSON value, so the call throws and the request fails with HTTP 500 | number = 5 with the numbers service unreachable | classify the number and return HTTP 200 with the fallback sentence as the fun fact | medium, not executed | NumberClassificationController.Get (with NumberClassificationController.FallbackSentenceThrows) | NumberClassificationController.GetWithFallback |
