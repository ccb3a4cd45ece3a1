/** The few .NET primitives whose meaning differs from Dafny's built-ins. */
module DotNet {

  import Arith

  /** `Math.Abs` on an unbounded integer (the `int.MinValue` overflow is not modelled). */
  function Abs(n: int): (r: nat)
    ensures r == n || r == -n
  {
    if n < 0 then -n else n
  }

  /** C#'s `%` by a positive divisor: the remainder takes the sign of the dividend. */
  function CsRem(a: int, b: int): (r: int)
    requires b > 0
    ensures a >= 0 ==> 0 <= r < b
    ensures a < 0 ==> -b < r <= 0
  {
    if a >= 0 then a % b else -((-a) % b)
  }

  /** A C# remainder is zero exactly when Dafny's Euclidean remainder is. */
  lemma CsRemZero(a: int, b: int)
    requires b > 0
    ensures CsRem(a, b) == 0 <==> a % b == 0
  {
    if a < 0 {
      if (-a) % b == 0 {
        Arith.DivModUnique(a, b, -((-a) / b), 0);
      }
      if a % b == 0 {
        Arith.DivModUnique(-a, b, -(a / b), 0);
      }
    }
  }

  /** `char.IsWhiteSpace`: the Unicode separators plus the ASCII and Latin-1 control blanks. */
  predicate IsWhiteSpace(c: char) {
    || ('\U{9}' <= c <= '\U{D}')
    || c == ' ' || c == '\U{85}' || c == '\U{A0}' || c == '\U{1680}'
    || ('\U{2000}' <= c <= '\U{200A}')
    || c == '\U{2028}' || c == '\U{2029}' || c == '\U{202F}' || c == '\U{205F}' || c == '\U{3000}'
  }

  /** `string.IsNullOrWhiteSpace`, with `null` written as an absent string. */
  predicate IsBlank(s: string) {
    forall k :: 0 <= k < |s| ==> IsWhiteSpace(s[k])
  }
}
