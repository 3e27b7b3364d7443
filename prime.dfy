/** Trial-division primality and the list of primes up to 200 (prime.py). */
module Prime {

  /** The mathematical meaning of "prime": at least 2, and no divisor strictly between 1 and n. */
  predicate IsPrimeNumber(n: int) {
    n >= 2 && forall d :: 2 <= d < n ==> n % d != 0
  }

  /** A product of naturals is a natural. */
  lemma MulNonNegative(a: int, b: int)
    requires a >= 0 && b >= 0
    ensures a * b >= 0
  {
  }

  /** Multiplying by a natural keeps the order. */
  lemma MulMonotone(k: int, x: int, y: int)
    requires k >= 0 && x <= y
    ensures k * x <= k * y
  {
    MulNonNegative(k, y - x);
    assert k * y - k * x == k * (y - x);
  }

  /** Squaring is monotone on naturals. */
  lemma SquareMonotone(a: int, b: int)
    requires 0 <= a <= b
    ensures a * a <= b * b
  {
    MulMonotone(a, a, b);
    MulMonotone(b, a, b);
  }

  /**
   * The integer square root: the largest r with r * r <= n. It stands for
   * `int(number ** 0.5)`, which agrees with it wherever the float square root is exact.
   */
  function Isqrt(n: nat): (r: nat)
    ensures r * r <= n < (r + 1) * (r + 1)
  {
    if n == 0 then 0
    else
      var s := Isqrt(n - 1);
      if (s + 1) * (s + 1) <= n then
        SquareMonotone(s + 1, s + 2);
        s + 1
      else s
  }

  /** Isqrt(n) is the largest number whose square does not exceed n. */
  lemma IsqrtIsLargest(n: nat, i: int)
    requires 0 <= i && i * i <= n
    ensures i <= Isqrt(n)
  {
    var r := Isqrt(n);
    if i > r {
      SquareMonotone(r + 1, i);
    }
  }

  /** Euclidean division is unique: a quotient and remainder in range are the ones `/` and `%` give. */
  lemma RemainderUnique(x: int, a: int, q: int, m: int)
    requires a > 0 && x == a * q + m && 0 <= m < a
    ensures x % a == m
  {
    var q2, m2 := x / a, x % a;
    assert a * (q - q2) == m2 - m;
    if q - q2 >= 1 {
      assert a * (q - q2) == a * (q - q2 - 1) + a;
      MulNonNegative(a, q - q2 - 1);
    } else if q - q2 <= -1 {
      assert a * (q2 - q) == a * (q2 - q - 1) + a;
      MulNonNegative(a, q2 - q - 1);
    }
  }

  /** The integer square root of n >= 2 lies in 1 .. n-1. */
  lemma IsqrtBounds(n: int)
    requires n >= 2
    ensures 1 <= Isqrt(n) < n
  {
    var r := Isqrt(n);
    if r >= n {
      SquareMonotone(n, r);
      MulMonotone(n, 2, n);
    }
  }

  /** A divisor d of n with 2 <= d < n has a cofactor e >= 2 that divides n too. */
  lemma Cofactor(n: int, d: int) returns (e: int)
    requires 2 <= d < n && n % d == 0
    ensures 2 <= e && d * e == n && n % e == 0
  {
    e := n / d;
    assert n == d * e;
    if e <= 1 {
      MulMonotone(d, e, 1);
    }
    RemainderUnique(n, e, d, 0);
  }

  /** Two factors of n cannot both exceed Isqrt(n). */
  lemma FactorBelowRoot(n: nat, d: int, e: int)
    requires d >= 0 && e >= 0 && d * e == n
    ensures d <= Isqrt(n) || e <= Isqrt(n)
  {
    var r := Isqrt(n);
    if d > r && e > r {
      MulMonotone(e, r + 1, d);
      MulMonotone(r + 1, r + 1, e);
    }
  }

  /**
   * Soundness of the square-root cut-off: for n >= 2, trying the candidates
   * 2 .. Isqrt(n) finds a divisor exactly when n has one in 2 .. n-1.
   */
  lemma {:induction false} SqrtCutoff(n: int)
    requires n >= 2
    ensures IsPrimeNumber(n) <==> forall i :: 2 <= i <= Isqrt(n) ==> n % i != 0
  {
    IsqrtBounds(n);
    if !IsPrimeNumber(n) {
      var d :| 2 <= d < n && n % d == 0;
      var e := Cofactor(n, d);
      FactorBelowRoot(n, d, e);
      if d > Isqrt(n) {
        assert 2 <= e <= Isqrt(n) && n % e == 0;
      } else {
        assert 2 <= d <= Isqrt(n) && n % d == 0;
      }
    }
  }

  /**
   * is_prime(number): numbers below 2 are not prime; otherwise every candidate
   * from 2 up to the integer square root is tried, and the first one that
   * divides the number ends the search with false.
   */
  method IsPrime(number: int) returns (b: bool)
    ensures number < 2 ==> !b
    ensures b <==> number >= 2 && forall i :: 2 <= i <= Isqrt(number) ==> number % i != 0
    ensures forall i :: 2 <= i && i * i <= number && number % i == 0 ==> !b
    ensures b <==> IsPrimeNumber(number)
  {
    if number < 2 {
      return false;
    }
    SqrtCutoff(number);
    var bound := Isqrt(number);
    forall i | 2 <= i && i * i <= number
      ensures i <= bound
    {
      IsqrtIsLargest(number, i);
    }
    var i := 2;
    while i <= bound
      invariant 2 <= i <= bound + 1
      invariant forall j :: 2 <= j < i ==> number % j != 0
    {
      if number % i == 0 {
        return false;
      }
      i := i + 1;
    }
    return true;
  }

  /**
   * The primes in lo .. hi-1, in increasing order: the comprehension
   * `[num for num in range(lo, hi) if is_prime(num)]`, where is_prime is
   * IsPrimeNumber by the contract of IsPrime.
   */
  function PrimesIn(lo: int, hi: int): (ps: seq<int>)
    decreases hi - lo
    ensures forall k :: k in ps <==> lo <= k < hi && IsPrimeNumber(k)
    ensures forall i, j :: 0 <= i < j < |ps| ==> ps[i] < ps[j]
  {
    if hi <= lo then []
    else
      var front := PrimesIn(lo, hi - 1);
      assert forall k :: 0 <= k < |front| ==> front[k] in front;
      front + (if IsPrimeNumber(hi - 1) then [hi - 1] else [])
  }

  /** The module-level list `primes`: range(1, 201) filtered by is_prime. */
  function Primes(): (ps: seq<int>)
    ensures forall k :: k in ps <==> 1 <= k <= 200 && IsPrimeNumber(k)
  {
    PrimesIn(1, 201)
  }

  /** The integer square root of 199 is 14. */
  lemma Isqrt199()
    ensures Isqrt(199) == 14
  {
    var r := Isqrt(199);
    if r <= 13 {
      SquareMonotone(r + 1, 14);
    } else if r >= 15 {
      SquareMonotone(15, r);
    }
  }

  /** No number from 2 to 14 divides 199. */
  lemma NoDivisorOf199(i: int)
    requires 2 <= i <= 14
    ensures 199 % i != 0
  {
    // The empty branches split i into its thirteen values; each remainder is then a constant.
    if i <= 7 {
      if i == 2 {} else if i == 3 {} else if i == 4 {} else if i == 5 {} else if i == 6 {} else {}
    } else {
      if i == 8 {} else if i == 9 {} else if i == 10 {} else if i == 11 {} else if i == 12 {} else if i == 13 {} else {}
    }
  }

  /** 199 is prime: no candidate up to its integer square root 14 divides it. */
  lemma Prime199()
    ensures IsPrimeNumber(199)
  {
    Isqrt199();
    forall i | 2 <= i <= Isqrt(199)
      ensures 199 % i != 0
    {
      NoDivisorOf199(i);
    }
    SqrtCutoff(199);
  }

  /** A filtered range whose bounds enclose 2 starts with 2, the least prime. */
  lemma PrimesInStartsWithTwo(lo: int, hi: int)
    requires lo <= 2 < hi
    ensures |PrimesIn(lo, hi)| > 0 && PrimesIn(lo, hi)[0] == 2
  {
    var s := PrimesIn(lo, hi);
    assert IsPrimeNumber(2);
    assert 2 in s;
    var j :| 0 <= j < |s| && s[j] == 2;
    assert s[0] in s;
  }

  /**
   * `primes` holds exactly the primes in 1..200 (so not 1), strictly increasing,
   * from 2 to 199.
   */
  lemma PrimesFacts()
    ensures forall k :: k in Primes() <==> 1 <= k <= 200 && IsPrimeNumber(k)
    ensures 1 !in Primes()
    ensures forall k :: k in Primes() ==> 1 <= k <= 200
    ensures forall i, j :: 0 <= i < j < |Primes()| ==> Primes()[i] < Primes()[j]
    ensures |Primes()| > 0 && Primes()[0] == 2 && Primes()[|Primes()| - 1] == 199
  {
    PrimesInStartsWithTwo(1, 201);
    Prime199();
    assert !IsPrimeNumber(200) by {
      assert 200 % 2 == 0;
    }
    assert Primes() == PrimesIn(1, 199) + [199];
  }
}
