/** Facts about multiplication, division and remainder that the solver does not find alone. */
module Arith {

  /** Multiplying by a positive factor preserves strict order. */
  lemma MulStrict(a: int, b: int, c: int)
    requires c > 0 && a < b
    ensures a * c < b * c
  {
    assert b * c - a * c == (b - a) * c;
  }

  /** Multiplying by a non-negative factor preserves order. */
  lemma MulMono(a: int, b: int, c: int)
    requires c >= 0 && a <= b
    ensures a * c <= b * c
  {
    assert b * c - a * c == (b - a) * c;
  }

  /** Quotient and remainder are determined by the Euclidean equation. */
  lemma DivModUnique(x: int, b: int, q: int, r: int)
    requires b > 0 && 0 <= r < b && x == b * q + r
    ensures x / b == q && x % b == r
  {
    var q', r' := x / b, x % b;
    assert x == b * q' + r';
    if q < q' {
      MulMono(q + 1, q', b);
      assert false;
    } else if q' < q {
      MulMono(q' + 1, q, b);
      assert false;
    }
  }

  /** `x / b` is the largest `q` with `b * q <= x`. */
  lemma DivBounds(x: int, b: int)
    requires b > 0
    ensures b * (x / b) <= x < b * (x / b) + b
  {
  }

  /** A multiple of `b` is recognised by its remainder. */
  lemma MultipleMod(b: int, q: int)
    requires b > 0
    ensures (b * q) % b == 0 && (b * q) / b == q
  {
    DivModUnique(b * q, b, q, 0);
  }
}
