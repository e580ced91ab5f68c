/** The prime tables of the samples: trial division, a sieve, and the table that combines them.
    Integers are unbounded. */
module Primes {

  ghost predicate Prime(n: int) {
    n >= 2 && forall d {:trigger n % d} | 2 <= d < n :: n % d != 0
  }

  /** `r` is the least prime greater than `p`. */
  ghost predicate NextPrime(p: int, r: int) {
    p < r && Prime(r) && forall k | p < k < r :: !Prime(k)
  }

  // ---- Divisors ----

  predicate Divides(d: int, n: int)
    requires d > 0
  {
    n % d == 0
  }

  lemma {:induction false} Multiple(d: int, q: int)
    requires d > 0
    ensures d * q % d == 0
  {
    var r := d * q % d;
    var e := q - d * q / d;
    assert d * e == r;
    assert e >= 1 ==> d * e >= d;
    assert e <= -1 ==> d * e <= -d;
  }

  lemma {:induction false} Quotient(d: int, n: int) returns (q: int)
    requires d > 0 && Divides(d, n)
    ensures n == d * q && q == n / d
  {
    q := n / d;
  }

  lemma {:induction false} DividesTransitively(a: int, b: int, c: int)
    requires a > 0 && b > 0 && Divides(a, b) && Divides(b, c)
    ensures Divides(a, c)
  {
    var q := Quotient(a, b);
    var r := Quotient(b, c);
    assert c == a * (q * r);
    Multiple(a, q * r);
  }

  lemma {:induction false} DividesSum(d: int, a: int, b: int)
    requires d > 0 && Divides(d, a) && Divides(d, a + b)
    ensures Divides(d, b)
  {
    var q := Quotient(d, a);
    var r := Quotient(d, a + b);
    assert b == d * (r - q);
    Multiple(d, r - q);
  }

  lemma {:induction false} Cofactor(n: int, d: int, e: int)
    requires n == d * e && 2 <= d < n && d * d > n
    ensures 2 <= e && e * e <= n && Divides(e, n)
  {
    assert e >= d ==> d * e >= d * d;
    assert e <= 1 ==> d * e <= d;
    assert e * e <= d * e;
    Multiple(e, d);
  }

  /** A composite number has a divisor that is not greater than its cofactor. */
  lemma {:induction false} SmallDivisor(n: int) returns (d: int)
    requires n >= 2 && !Prime(n)
    ensures 2 <= d && d * d <= n && Divides(d, n)
  {
    d :| 2 <= d < n && n % d == 0;
    var e := Quotient(d, n);
    if d * d > n {
      Cofactor(n, d, e);
      d := e;
    }
  }

  lemma {:induction false} SquareOrder(a: nat, b: nat, n: nat)
    requires a * a <= n < b * b
    ensures a < b
  {
    assert a >= b ==> a * a >= b * b;
  }

  lemma {:induction false} CompositeHasDivisorBelow(n: int, i: int)
    requires n >= 2 && i >= 2 && i * i > n
    ensures !Prime(n) ==> exists d {:trigger n % d} :: 2 <= d < i && n % d == 0
  {
    if !Prime(n) {
      var d := SmallDivisor(n);
      SquareOrder(d, i, n);
      assert n % d == 0;
    }
  }

  lemma {:induction false} PrimeDivisor(n: int) returns (q: int)
    requires n >= 2
    ensures Prime(q) && Divides(q, n)
    decreases n
  {
    if Prime(n) {
      q := n;
    } else {
      var d :| 2 <= d < n && n % d == 0;
      q := PrimeDivisor(d);
      DividesTransitively(q, d, n);
    }
  }

  function Factorial(n: nat): nat {
    if n == 0 then 1 else n * Factorial(n - 1)
  }

  lemma {:induction false} DividesFactorial(d: int, n: nat)
    requires 1 <= d <= n
    ensures Factorial(n) >= 1 && Divides(d, Factorial(n))
    decreases n
  {
    if d == n {
      FactorialPositive(n);
      Multiple(n, Factorial(n - 1));
    } else {
      DividesFactorial(d, n - 1);
      var q := Quotient(d, Factorial(n - 1));
      assert Factorial(n) == d * (n * q);
      Multiple(d, n * q);
      FactorialPositive(n);
    }
  }

  lemma {:induction false} FactorialPositive(n: nat)
    ensures Factorial(n) >= 1
  {
    if n > 0 {
      FactorialPositive(n - 1);
      assert n * Factorial(n - 1) >= n;
    }
  }

  /** There is always a larger prime. */
  lemma {:induction false} LargerPrime(p: nat) returns (q: int)
    ensures Prime(q) && q > p
  {
    FactorialPositive(p);
    q := PrimeDivisor(Factorial(p) + 1);
    if q <= p {
      DividesFactorial(q, p);
      DividesSum(q, Factorial(p), 1);
    }
  }

  // ---- Trial division ----

  /** No number from 2 up to `i` divides `n`. */
  ghost predicate NoDivisorBelow(n: int, i: int) {
    forall d {:trigger n % d} | 2 <= d < i :: n % d != 0
  }

  class OnTheFlyPrimeTable {
    constructor () {}

    method IsPrime(n: int) returns (prime: bool)
      ensures prime <==> Prime(n)
    {
      if n <= 1 {
        return false;
      }
      var i := 2;
      while i * i <= n
        invariant 2 <= i && NoDivisorBelow(n, i)
        decreases n - i
      {
        if n % i == 0 {
          assert i < n by {
            assert 2 * i <= i * i;
          }
          return false;
        }
        assert i <= i * i;
        i := i + 1;
      }
      CompositeHasDivisorBelow(n, i);
      return true;
    }

    /** For `p` from 0 on this is the least prime above `p`; for smaller `p` the loop does not start. */
    method GetNextPrime(p: int) returns (next: int)
      ensures p >= 0 ==> NextPrime(p, next)
      ensures p < 0 ==> next == -1
    {
      var n := p + 1;
      ghost var bound := n;
      if p >= 0 {
        bound := LargerPrime(p);
      }
      while n > 0
        invariant p >= 0 ==> p < n <= bound && Prime(bound)
        invariant p < 0 ==> n == p + 1
        invariant forall k | p < k < n :: !Prime(k)
        decreases bound - n
      {
        var prime := IsPrime(n);
        if prime {
          return n;
        }
        n := n + 1;
      }
      return -1;
    }
  }

  /** `IsPrime` of sample 1: even numbers first, then odd divisors up to the cofactor. */
  method IsPrime(n: int) returns (prime: bool)
    ensures prime <==> Prime(n)
  {
    if n <= 1 {
      return false;
    }
    if n % 2 == 0 {
      return n == 2;
    }
    var i := 3;
    while true
      invariant i >= 3 && i % 2 == 1 && NoDivisorBelow(n, i)
      decreases n - i
    {
      if i > n / i {
        break;
      }
      if n % i == 0 {
        OddDivisor(n, i);
        return false;
      }
      SkipEven(n, i);
      i := i + 2;
    }
    CofactorReached(n, i);
    CompositeHasDivisorBelow(n, i);
    return true;
  }

  lemma {:induction false} OddDivisor(n: int, i: int)
    requires i >= 3 && i <= n / i
    ensures i < n
  {
    QuotientBound(n, i);
    Monotone(i, 3, n / i);
  }

  lemma {:induction false} SkipEven(n: int, i: int)
    requires n % 2 == 1 && i >= 3 && i % 2 == 1 && NoDivisorBelow(n, i) && n % i != 0
    ensures NoDivisorBelow(n, i + 2)
  {
    NoEvenDivisor(n, i + 1);
  }

  lemma {:induction false} NoEvenDivisor(n: int, d: int)
    requires n % 2 == 1 && d > 0 && d % 2 == 0
    ensures n % d != 0
  {
    if n % d == 0 {
      DividesTransitively(2, d, n);
    }
  }

  lemma {:induction false} CofactorReached(n: int, i: int)
    requires n >= 2 && i >= 3 && i > n / i
    ensures i * i > n
  {
    QuotientBound(n, i);
    Monotone(i, n / i + 1, i);
  }

  lemma {:induction false} QuotientBound(n: int, d: int)
    requires d > 0
    ensures d * (n / d) <= n < d * (n / d + 1)
  {
    var q := n / d;
    assert n == d * q + n % d;
  }

  lemma {:induction false} Monotone(a: int, b: int, c: int)
    requires a >= 0 && b <= c
    ensures a * b <= a * c
  {
    var d := c - b;
    assert a * c == a * b + a * d;
  }

  // ---- The sieve ----

  /** `k` has not been crossed out by the multiples of the numbers from 2 up to `i`. */
  ghost predicate Left(k: int, i: int) {
    k >= 2 && forall d {:trigger k % d} | 2 <= d < i && d < k :: k % d != 0
  }

  lemma {:induction false} LeftIsPrime(k: int, i: int)
    requires k < i
    ensures Left(k, i) <==> Prime(k)
  {
  }

  /** Crossing out the multiples of `i`, except `i` itself. */
  lemma {:induction false} CrossOut(k: int, i: int)
    requires i >= 2
    ensures Left(k, i + 1) <==> Left(k, i) && !(k > i && k % i == 0)
  {
  }

  /** The multiples of a number that has been crossed out have been crossed out with it. */
  lemma {:induction false} CrossedOutBefore(k: int, i: int)
    requires 2 <= i < k && !Left(i, i) && k % i == 0
    ensures !Left(k, i)
  {
    var d :| 2 <= d < i && i % d == 0;
    DividesTransitively(d, i, k);
    assert k % d == 0;
  }

  class PreCalculatedPrimeTable {
    const max: int
    const isPrime: array<bool>

    ghost predicate Valid()
      reads isPrime
    {
      max >= 1 && isPrime.Length == max + 1 && forall n | 0 <= n <= max :: isPrime[n] <==> Prime(n)
    }

    constructor (max: int)
      requires max >= 1
      ensures this.max == max && fresh(isPrime) && Valid()
    {
      this.max := max;
      isPrime := new bool[max + 1];
      new;
      CalculatePrimesUpTo();
    }

    method CalculatePrimesUpTo()
      requires max >= 1 && isPrime.Length == max + 1
      modifies isPrime
      ensures Valid()
    {
      forall n | 0 <= n < isPrime.Length {
        isPrime[n] := true;
      }
      isPrime[0] := false;
      isPrime[1] := false;
      var i := 2;
      while i <= max
        invariant 2 <= i <= max + 1
        invariant forall k | 0 <= k <= max :: isPrime[k] <==> Left(k, i)
      {
        if isPrime[i] {
          CrossOutMultiples(i);
        }
        forall k | 0 <= k <= max ensures isPrime[k] <==> Left(k, i + 1) {
          CrossOut(k, i);
          if k > i && k % i == 0 && !Left(i, i) {
            CrossedOutBefore(k, i);
          }
        }
        i := i + 1;
      }
      forall n | 0 <= n <= max ensures isPrime[n] <==> Prime(n) {
        LeftIsPrime(n, i);
      }
    }

    /** The inner loop. */
    method CrossOutMultiples(i: int)
      requires 2 <= i <= max && isPrime.Length == max + 1
      modifies isPrime
      ensures forall k | 0 <= k <= max :: isPrime[k] <==> old(isPrime[k]) && !(k > i && k % i == 0)
    {
      var j := 2 * i;
      while j <= max
        invariant j >= 2 * i && j % i == 0
        invariant forall k | 0 <= k <= max :: isPrime[k] <==> old(isPrime[k]) && !(i < k < j && k % i == 0)
        decreases max - j
      {
        isPrime[j] := false;
        NextMultiple(j, i);
        j := j + i;
      }
    }

    method IsPrime(n: int) returns (prime: bool)
      requires Valid()
      ensures prime <==> n <= max && Prime(n)
    {
      prime := 0 <= n < isPrime.Length && isPrime[n];
    }

    /** The table is read from `p + 1` on, so `p` must not be smaller than -1. */
    method GetNextPrime(p: int) returns (next: int)
      requires Valid() && p >= -1
      ensures if exists q :: p < q <= max && Prime(q) then NextPrime(p, next) && next <= max else next == -1
    {
      var n := p + 1;
      while n < isPrime.Length
        invariant n > p && forall k | p < k < n :: !Prime(k)
      {
        if isPrime[n] {
          return n;
        }
        n := n + 1;
      }
      return -1;
    }
  }

  /** Between two multiples of `i` there is no other. */
  lemma {:induction false} NextMultiple(j: int, i: int)
    requires i > 0 && j % i == 0
    ensures (j + i) % i == 0
    ensures forall k {:trigger k % i} | j < k < j + i :: k % i != 0
  {
    var q := Quotient(i, j);
    Multiple(i, q + 1);
    assert i * (q + 1) == j + i;
    forall k {:trigger k % i} | j < k < j + i ensures k % i != 0 {
      NoMultipleBetween(k, i, q);
    }
  }

  lemma {:induction false} NoMultipleBetween(k: int, i: int, q: int)
    requires i > 0 && i * q < k < i * q + i
    ensures k % i != 0
  {
    var r := k / i - q;
    assert i * r == k - k % i - i * q;
    assert r >= 1 ==> i * r >= i;
    assert r <= 0 ==> i * r <= 0;
  }

  /** The least prime above -1 is 2, but the table that calculates on the fly does not find it. */
  method NoPrimeAboveMinusOneExample() returns (next: int)
    ensures next == -1 && NextPrime(-1, 2)
  {
    var table := new OnTheFlyPrimeTable();
    next := table.GetNextPrime(-1);
    assert Prime(2);
  }

  // ---- The hybrid table ----

  class HybridPrimeTable {
    const onTheFly: OnTheFlyPrimeTable
    const precalc: PreCalculatedPrimeTable?
    const maxPrecalculated: int

    ghost predicate Valid()
      reads precalc, if precalc == null then {} else {precalc.isPrime}
    {
      precalc != null ==> precalc.Valid() && precalc.max == maxPrecalculated
    }

    constructor (forceOnTheFly: bool, maxPrecalculated: int)
      requires forceOnTheFly || maxPrecalculated >= 1
      ensures Valid() && (precalc == null <==> forceOnTheFly) && this.maxPrecalculated == maxPrecalculated
    {
      onTheFly := new OnTheFlyPrimeTable();
      if forceOnTheFly {
        precalc := null;
      } else {
        precalc := new PreCalculatedPrimeTable(maxPrecalculated);
      }
      this.maxPrecalculated := maxPrecalculated;
    }

    method IsPrime(n: int) returns (prime: bool)
      requires Valid()
      ensures prime <==> Prime(n)
    {
      if precalc != null && n < maxPrecalculated {
        prime := precalc.IsPrime(n);
      } else {
        prime := onTheFly.IsPrime(n);
      }
    }

    /** The least prime above `p` for `p` from 0 on, and for -1 if the table holds a prime. */
    method GetNextPrime(p: int) returns (next: int)
      requires Valid() && (precalc != null ==> p >= -1)
      ensures NextPrime(p, next) <==> p >= 0 || (precalc != null && p == -1 && maxPrecalculated >= 2)
      ensures !NextPrime(p, next) ==> next == -1
    {
      next := -1;
      if precalc != null && p < maxPrecalculated {
        next := precalc.GetNextPrime(p);
      }
      if next == -1 {
        next := onTheFly.GetNextPrime(p);
      }
      assert Prime(2);
    }
  }
}
