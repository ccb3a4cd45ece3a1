/**
 * Divisibility: the reference definitions of prime and perfect numbers, and
 * the facts that justify the two controllers' shortcuts (trial division up
 * to the square root, divisor pairs up to the square root, divisors up to n/2).
 */
module Divisors {

  import opened Arith

  /** `d` divides `n` (C#'s `n % d == 0` for a positive `d`). */
  predicate Divides(d: int, n: int) {
    d != 0 && n % d == 0
  }

  /** The sum of the divisors of `n` in the half-open range [lo, hi). */
  function DivisorSum(n: int, lo: int, hi: int): int
    decreases hi - lo
  {
    if hi <= lo then 0
    else DivisorSum(n, lo, hi - 1) + (if Divides(hi - 1, n) then hi - 1 else 0)
  }

  /** The sum of the proper divisors of `n`: those in [1, n - 1]. */
  function ProperDivisorSum(n: int): int {
    DivisorSum(n, 1, n)
  }

  /** A perfect number is a positive integer equal to the sum of its proper divisors. */
  predicate IsPerfectSpec(n: int) {
    n > 0 && ProperDivisorSum(n) == n
  }

  /** A prime is an integer of at least 2 with no divisor strictly between 1 and itself. */
  predicate IsPrimeSpec(n: int) {
    n >= 2 && forall d :: 2 <= d < n ==> !Divides(d, n)
  }

  /** What trial division up to the square root checks: no factor `d` with `d * d <= n`. */
  predicate PassesTrialDivision(n: int) {
    n >= 2 && forall d :: 2 <= d <= n && d * d <= n ==> !Divides(d, n)
  }

  /** A factor above the square root has a co-factor below it. */
  lemma SmallCofactor(n: int, d: int, i: int)
    requires 2 <= d < n && Divides(d, n) && i >= 2 && d >= i && i * i > n
    ensures 2 <= n / d < i && Divides(n / d, n)
  {
    var e := n / d;
    assert n == d * e;
    if e <= 1 {
      MulMono(e, 1, d);
      assert false;
    }
    if e >= i {
      MulMono(i, d, i);
      MulMono(i, e, d);
      assert false;
    }
    MultipleMod(e, d);
    assert e * d == n;
  }

  /** Trial division up to the square root decides primality. */
  lemma TrialDivisionCorrect(n: int)
    ensures PassesTrialDivision(n) <==> IsPrimeSpec(n)
  {
    if PassesTrialDivision(n) {
      forall d | 2 <= d < n
        ensures !Divides(d, n)
      {
        if Divides(d, n) {
          if d * d <= n {
            assert false;
          } else {
            var e := n / d;
            SmallCofactor(n, d, d);
            assert n == d * e;
            MulStrict(e, d, e);
            assert false;
          }
        }
      }
    }
    if IsPrimeSpec(n) {
      forall d | 2 <= d && d * d <= n
        ensures !Divides(d, n)
      {
        MulStrict(1, d, d);
      }
    }
  }

  /** Sums over adjacent ranges add up. */
  lemma {:induction false} DivisorSumSplit(n: int, lo: int, mid: int, hi: int)
    requires lo <= mid <= hi
    ensures DivisorSum(n, lo, mid) + DivisorSum(n, mid, hi) == DivisorSum(n, lo, hi)
    decreases hi - mid
  {
    if mid < hi {
      DivisorSumSplit(n, lo, mid, hi - 1);
    }
  }

  /** A range holding no divisor of `n` contributes nothing. */
  lemma {:induction false} DivisorSumNone(n: int, lo: int, hi: int)
    requires forall d :: lo <= d < hi ==> !Divides(d, n)
    ensures DivisorSum(n, lo, hi) == 0
    decreases hi - lo
  {
    if lo < hi {
      DivisorSumNone(n, lo, hi - 1);
    }
  }

  /** No divisor of a positive `n` lies strictly between n/2 and n. */
  lemma NoDivisorAboveHalf(n: int, d: int)
    requires n >= 1 && n / 2 < d < n
    ensures !Divides(d, n)
  {
    if Divides(d, n) {
      var e := n / d;
      assert n == d * e;
      if e <= 1 {
        MulMono(e, 1, d);
      } else {
        MulMono(2, e, d);
      }
    }
  }

  /** The divisors of `n` in [1, n/2] are exactly its proper divisors. */
  lemma HalfRangeIsProper(n: int)
    requires n >= 1
    ensures DivisorSum(n, 1, n / 2 + 1) == ProperDivisorSum(n)
  {
    if n >= 2 {
      forall d | n / 2 + 1 <= d < n
        ensures !Divides(d, n)
      {
        NoDivisorAboveHalf(n, d);
      }
      DivisorSumNone(n, n / 2 + 1, n);
      DivisorSumSplit(n, 1, n / 2 + 1, n);
    }
  }

  /**
   * For i >= 1 the only divisor of `n` in (n/(i+1), n/i] is the co-factor
   * n/i, and only when `i` divides `n`.
   */
  lemma CofactorOnly(n: int, i: int, d: int)
    requires n >= 1 && i >= 1 && n / (i + 1) < d <= n / i && Divides(d, n)
    ensures Divides(i, n) && d == n / i
  {
    var j := n / d;
    assert n == d * j;
    DivBounds(n, i + 1);
    DivBounds(n, i);
    MulMono(n / (i + 1) + 1, d, i + 1);
    MulMono(d, n / i, i);
    // d * (i + 1) > n = d * j >= d * i
    if j > i {
      MulMono(i + 1, j, d);
      assert false;
    }
    if j < i {
      MulMono(j + 1, i, d);
      assert false;
    }
    MultipleMod(i, d);
    assert i * d == n;
  }

  /** Divisor intervals shrink as the divisor grows: n/(i+1) <= n/i. */
  lemma DivAntitone(n: int, i: int)
    requires n >= 0 && i >= 1
    ensures 0 <= n / (i + 1) <= n / i <= n
  {
    DivBounds(n, i + 1);
    DivBounds(n, i);
    MulMono(1, i, n / i);
    if n / (i + 1) > n / i {
      MulMono(n / i + 1, n / (i + 1), i);
      MulMono(i, i + 1, n / (i + 1));
      assert false;
    }
  }

  /** When `i` divides `n`, so does its co-factor, and the co-factor exceeds n/(i+1). */
  lemma CofactorDivides(n: int, i: int)
    requires n >= 1 && i >= 1 && Divides(i, n)
    ensures n / i >= 1 && Divides(n / i, n) && n / (i + 1) < n / i
  {
    var q := n / i;
    assert n == i * q;
    MulStrict(0, q, i);
    MultipleMod(q, i);
    assert q * i == n;
    assert q * (i + 1) == n + q;
    DivBounds(n, i + 1);
    if n / (i + 1) >= q {
      MulMono(q, n / (i + 1), i + 1);
      assert false;
    }
  }

  /** The divisors of `n` in (n/(i+1), n/i] sum to the co-factor n/i when i divides n, else to 0. */
  lemma CofactorInterval(n: int, i: int)
    requires n >= 1 && i >= 1
    ensures DivisorSum(n, n / (i + 1) + 1, n / i + 1) == if Divides(i, n) then n / i else 0
  {
    var lo, hi := n / (i + 1) + 1, n / i + 1;
    DivAntitone(n, i);
    if Divides(i, n) {
      var q := hi - 1;
      CofactorDivides(n, i);
      forall d | lo <= d < q
        ensures !Divides(d, n)
      {
        if Divides(d, n) {
          CofactorOnly(n, i, d);
        }
      }
      DivisorSumNone(n, lo, q);
      DivisorSumSplit(n, lo, q, hi);
      assert DivisorSum(n, q, hi) == q;
    } else {
      forall d | lo <= d < hi
        ensures !Divides(d, n)
      {
        if Divides(d, n) {
          CofactorOnly(n, i, d);
        }
      }
      DivisorSumNone(n, lo, hi);
    }
  }

  /**
   * The amount the pair loop must not count twice once it has passed `i - 1`:
   * the square root, when `n` is a perfect square whose root is `i - 1`.
   */
  function Overlap(n: int, i: int): int {
    if (i - 1) * (i - 1) == n then i - 1 else 0
  }

  /**
   * The pair loop's state, described by divisors: after trying every `i` below
   * `k`, it holds the divisors below `k`, plus their co-factors (the divisors
   * above n/k, `n` itself excluded), minus a square root counted twice.
   */
  function PairCoverage(n: int, k: int): int
    requires k >= 1
  {
    DivisorSum(n, 1, k) + DivisorSum(n, n / k + 1, n + 1) - Overlap(n, k) - n
  }

  /** Before the loop: divisor 1 with its co-factor `n`, which is not proper. */
  lemma PairStart(n: int)
    requires n > 1
    ensures PairCoverage(n, 2) == 1
  {
    CofactorInterval(n, 1);
  }

  /** Below the square root, `i - 1` is not a root; a divisor `i` is its own co-factor only as the root. */
  lemma RootFacts(n: int, i: int)
    requires n > 1 && i >= 2 && i * i <= n
    ensures (i - 1) * (i - 1) != n
    ensures Divides(i, n) ==> (i == n / i <==> i * i == n)
    ensures i * i == n ==> Divides(i, n)
  {
    MulStrict(i - 1, i, i - 1);
    MulStrict(i - 1, i, i);
    if i * i == n {
      MultipleMod(i, i);
    }
    if Divides(i, n) {
      assert n == i * (n / i);
    }
  }

  /** One loop step: trying `i` adds `i` and, unless it is the square root, `n / i`. */
  lemma PairStep(n: int, i: int)
    requires n > 1 && i >= 2 && i * i <= n
    ensures PairCoverage(n, i + 1) == PairCoverage(n, i)
      + (if Divides(i, n) then i + (if i != n / i then n / i else 0) else 0)
  {
    var q, q' := n / i, n / (i + 1);
    var divides := Divides(i, n);
    var low, low' := DivisorSum(n, 1, i), DivisorSum(n, 1, i + 1);
    var high, high' := DivisorSum(n, q + 1, n + 1), DivisorSum(n, q' + 1, n + 1);
    CofactorInterval(n, i);
    DivAntitone(n, i);
    DivisorSumSplit(n, q' + 1, q + 1, n + 1);
    assert high' == (if divides then q else 0) + high;
    assert low' == low + (if divides then i else 0);
    RootFacts(n, i);
    assert PairCoverage(n, i) == low + high - n;
    if divides && i * i == n {
      assert PairCoverage(n, i + 1) == low' + high' - i - n;
    } else {
      assert i * i != n;
      assert Overlap(n, i + 1) == 0;
      assert PairCoverage(n, i + 1) == low' + high' - n;
    }
  }

  /** Between r * r and r * r + r, only r * r itself is a multiple of `r`. */
  lemma RootOnlyDivisor(n: int, r: int)
    requires r >= 1 && r * r <= n < r * r + r && Divides(r, n)
    ensures n == r * r
  {
    var q := n / r;
    assert n == r * q;
    if q > r {
      MulMono(r + 1, q, r);
      assert false;
    }
    if q < r {
      MulMono(q + 1, r, r);
      assert false;
    }
  }

  /** At loop exit the quotient n / k is k - 1 or k - 2, and k - 2 exactly when n < (k-1)^2 + (k-1). */
  lemma ExitQuotient(n: int, k: int)
    requires n > 1 && k >= 2 && (k - 1) * (k - 1) <= n < k * k
    ensures k - 2 <= n / k < k
    ensures n / k == k - 2 ==> n < (k - 1) * (k - 1) + (k - 1)
    ensures (k - 1) * (k - 1) == n ==> n / k == k - 2
  {
    DivBounds(n, k);
    assert (k - 1) * (k - 1) == k * (k - 2) + 1;
    if n / k >= k {
      MulMono(k, n / k, k);
      assert false;
    }
    if n / k < k - 2 {
      MulMono(n / k + 1, k - 2, k);
      assert false;
    }
    if n / k == k - 2 {
      assert k * (n / k) + k == (k - 1) * (k - 1) + (k - 1);
    }
    if (k - 1) * (k - 1) == n {
      DivModUnique(n, k, k - 2, 1);
    }
  }

  /** When the loop stops at the first `k` with k * k > n, all proper divisors are counted once. */
  lemma PairExit(n: int, k: int)
    requires n > 1 && k >= 2 && (k - 1) * (k - 1) <= n < k * k
    ensures PairCoverage(n, k) == ProperDivisorSum(n)
  {
    var r := k - 1;
    ExitQuotient(n, k);
    var m := n / k + 1;
    var total := DivisorSum(n, 1, n + 1);
    assert total == ProperDivisorSum(n) + n;
    if m == k {
      DivisorSumSplit(n, 1, k, n + 1);
      assert Overlap(n, k) == 0;
    } else {
      DivisorSumSplit(n, 1, r, n + 1);
      assert DivisorSum(n, 1, k) == DivisorSum(n, 1, r) + (if Divides(r, n) then r else 0);
      if Divides(r, n) {
        RootOnlyDivisor(n, r);
      }
      if r * r == n {
        MultipleMod(r, r);
      }
      assert Overlap(n, k) == if Divides(r, n) then r else 0;
    }
  }
}
