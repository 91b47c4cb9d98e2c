/** Grid sizes without prime factors above seven (python/solver.py:864-880). */
module SmoothGrid {
  import opened Integers
  import opened Options

  function Pow(b: nat, e: nat): nat { if e == 0 then 1 else b * Pow(b, e - 1) }

  /** 2^a * 3^b * 5^c * 7^d. */
  function Smooth(a: nat, b: nat, c: nat, d: nat): nat { Pow(2, a) * Pow(3, b) * Pow(5, c) * Pow(7, d) }

  ghost predicate IsSmooth(n: nat) { exists a, b, c, d :: n == Smooth(a, b, c, d) }

  /** One call of divby returns its argument or calls divby again. */
  datatype Division = Returns(n: int) | Calls(n: int)

  function DivStep(n: int, p: nat): Division
    requires p >= 1
  {
    if n % p == 0 then Calls(n / p) else Returns(n)
  }

  /** Where a call of divby stands after at most k further calls. */
  function DivSteps(n: int, p: nat, k: nat): Division
    requires p >= 1
    decreases k
  {
    if k == 0 then Calls(n)
    else
      var d := DivStep(n, p);
      if d.Calls? then DivSteps(d.n, p, k - 1) else d
  }

  /** What divby returns: all factors p are taken out. */
  function DivBy(n: int, p: nat): (r: int)
    requires n != 0 && p >= 2
    ensures n >= 1 ==> 1 <= r <= n
    ensures n <= -1 ==> n <= r <= -1
    decreases Magnitude(n)
  {
    if n % p == 0 then
      QuotientSmaller(n, p);
      DivBy(n / p, p)
    else n
  }

  function Magnitude(n: int): nat { if n < 0 then -n else n }

  lemma QuotientSmaller(n: int, p: nat)
    requires n != 0 && p >= 2 && n % p == 0
    ensures n == p * (n / p)
    ensures n >= 1 ==> 1 <= n / p < n
    ensures n <= -1 ==> n < n / p <= -1
  {
    var q := n / p;
    MultipleGrows(p, q, n);
    MultipleGrows(p, -q, -n);
  }

  lemma MultipleGrows(p: nat, q: int, n: int)
    requires p >= 2 && n == p * q
    ensures n >= 1 ==> 1 <= q < n
  {
    if q >= 1 {
      NonNegativeProduct(p - 2, q);
      assert (p - 2) * q == n - 2 * q;
    } else {
      NonNegativeProduct(p, -q);
      assert p * (-q) == -n;
    }
  }

  /** divby(0, p) calls itself with the same arguments, so it never returns. */
  lemma {:induction false} ZeroCallsAgain(p: nat, k: nat)
    requires p >= 1
    ensures DivSteps(0, p, k) == Calls(0)
  {
    ZeroDivided(p);
    if k > 0 {
      ZeroCallsAgain(p, k - 1);
    }
  }

  lemma ZeroDivided(p: nat)
    requires p >= 1
    ensures DivStep(0, p) == Calls(0)
  {
    DivisionIsUnique(p, 0, 0, 0);
  }

  lemma {:induction false} ReturnsDivBy(n: int, p: nat) returns (k: nat)
    requires n != 0 && p >= 2
    ensures DivSteps(n, p, k) == Returns(DivBy(n, p))
    decreases Magnitude(n)
  {
    if n % p == 0 {
      QuotientSmaller(n, p);
      k := ReturnsDivBy(n / p, p);
      k := k + 1;
    } else {
      k := 1;
      assert DivSteps(n, p, 1) == DivStep(n, p);
    }
  }

  /** divby returns exactly for arguments other than zero, and then what DivBy says. */
  lemma ReturnsIff(n: int, p: nat)
    requires p >= 2
    ensures (exists k: nat :: DivSteps(n, p, k).Returns?) <==> n != 0
    ensures n != 0 ==> exists k: nat :: DivSteps(n, p, k) == Returns(DivBy(n, p))
  {
    hide DivSteps, DivBy;
    if n == 0 {
      forall k: nat ensures !DivSteps(n, p, k).Returns? {
        ZeroCallsAgain(p, k);
      }
    } else {
      var k := ReturnsDivBy(n, p);
      assert DivSteps(n, p, k).Returns?;
    }
  }

  predicate IsFactor2357(n: int)
    requires n != 0
  {
    DivBy(DivBy(DivBy(DivBy(n, 2), 3), 5), 7) == 1
  }

  // ----- the chain of divisions

  /** What DivBy takes out is a power of p, and nothing divisible is left. */
  lemma {:induction false} DivByIs(n: nat, p: nat) returns (e: nat)
    requires n >= 1 && p >= 2
    ensures n == Pow(p, e) * DivBy(n, p) && DivBy(n, p) % p != 0
    decreases n
  {
    if n % p == 0 {
      QuotientSmaller(n, p);
      var k := DivByIs(n / p, p);
      e := k + 1;
      Regroup(p, Pow(p, k), DivBy(n / p, p));
    } else {
      e := 0;
    }
  }

  lemma Regroup(p: nat, q: nat, r: nat)
    ensures p * (q * r) == (p * q) * r
  {
  }

  lemma {:induction false} PowPositive(b: nat, e: nat)
    requires b >= 1
    ensures Pow(b, e) >= 1
  {
    if e > 0 {
      PowPositive(b, e - 1);
    }
  }

  /** Taking out p undoes multiplying with a power of p. */
  lemma {:induction false} DivByPower(p: nat, e: nat, m: nat)
    requires p >= 2 && m >= 1 && m % p != 0
    ensures Pow(p, e) * m >= 1 && DivBy(Pow(p, e) * m, p) == m
  {
    hide DivBy;
    if e == 0 {
      Indivisible(m, p);
    } else {
      DivByPower(p, e - 1, m);
      var q := Pow(p, e - 1);
      assert Pow(p, e) == p * q;
      hide Pow;
      Regroup(p, q, m);
      DivByMultiple(p, q * m, Pow(p, e) * m);
    }
  }

  lemma Indivisible(m: nat, p: nat)
    requires p >= 2 && m >= 1 && m % p != 0
    ensures DivBy(m, p) == m
  {
  }

  lemma DivByMultiple(p: nat, k: nat, n: nat)
    requires p >= 2 && k >= 1 && n == p * k
    ensures n >= 1 && DivBy(n, p) == DivBy(k, p)
  {
    MultipleQuotient(p, k);
  }

  lemma MultipleQuotient(p: nat, k: nat)
    requires p >= 2 && k >= 1
    ensures p * k >= 1 && (p * k) % p == 0 && (p * k) / p == k
  {
    assert p * k >= 2 * k;
    DivisionIsUnique(p, k, 0, p * k);
  }

  // ----- exactly the numbers of the form 2^a * 3^b * 5^c * 7^d

  predicate Divisible(n: nat, p: nat)
    requires p >= 1
  {
    n % p == 0
  }

  /** Different primes up to seven. */
  predicate Pair(p: nat, b: nat) { (p == 2 && b in {3, 5, 7}) || (p == 3 && b in {5, 7}) || (p == 5 && b == 7) }

  /** The part of the exponents that is left when 2, then 3, then 5 are taken out. */
  lemma {:induction false} StaysIndivisible(p: nat, b: nat, e: nat, m: nat)
    requires p >= 1 && Pair(p, b) && !Divisible(m, p)
    ensures !Divisible(Pow(b, e) * m, p)
  {
    hide Pair, Divisible;
    if e > 0 {
      StaysIndivisible(p, b, e - 1, m);
      Regroup(b, Pow(b, e - 1), m);
      TimesCoprime(p, b, Pow(b, e - 1) * m);
    }
  }

  lemma TimesCoprime(p: nat, b: nat, k: nat)
    requires p >= 1 && Pair(p, b) && !Divisible(k, p)
    ensures !Divisible(b * k, p)
  {
    TimesRemainder(p, b, k);
    assert k % p in {1, 2, 3, 4};
  }

  lemma TimesRemainder(p: nat, b: nat, k: nat)
    requires p >= 1
    ensures (b * k) % p == (b * (k % p)) % p
  {
    var q, r := k / p, b * (k % p);
    assert b * k == b * (q * p + k % p) == (b * q) * p + r;
    assert b * k == (b * q + r / p) * p + r % p;
    DivisionIsUnique(p, b * q + r / p, r % p, b * k);
  }

  lemma SmoothNested(a: nat, b: nat, c: nat, d: nat)
    ensures Smooth(a, b, c, d) == Pow(2, a) * (Pow(3, b) * (Pow(5, c) * (Pow(7, d) * 1)))
  {
    Regroup(Pow(2, a), Pow(3, b), Pow(5, c) * Pow(7, d));
    Regroup(Pow(2, a) * Pow(3, b), Pow(5, c), Pow(7, d));
  }

  lemma SmoothPasses(a: nat, b: nat, c: nat, d: nat)
    ensures Smooth(a, b, c, d) >= 1 && IsFactor2357(Smooth(a, b, c, d))
  {
    hide Pow, DivBy;
    SmoothNested(a, b, c, d);
    PowPositive(7, d);
    var m7 := Pow(7, d) * 1;
    var m5 := Pow(5, c) * m7;
    var m3 := Pow(3, b) * m5;
    DivByPower(7, d, 1);
    StaysIndivisible(5, 7, d, 1);
    DivByPower(5, c, m7);
    StaysIndivisible(3, 7, d, 1);
    StaysIndivisible(3, 5, c, m7);
    DivByPower(3, b, m5);
    StaysIndivisible(2, 7, d, 1);
    StaysIndivisible(2, 5, c, m7);
    StaysIndivisible(2, 3, b, m5);
    DivByPower(2, a, m3);
  }

  /** The chain of divisions ends in 1 exactly for these numbers. */
  lemma ChainIsSmooth(n: nat)
    requires n >= 1
    ensures IsFactor2357(n) <==> IsSmooth(n)
  {
    hide Pow, DivBy, Smooth;
    if IsFactor2357(n) {
      var m2 := DivBy(n, 2);
      var m3 := DivBy(m2, 3);
      var m5 := DivBy(m3, 5);
      var a := DivByIs(n, 2);
      var b := DivByIs(m2, 3);
      var c := DivByIs(m3, 5);
      var d := DivByIs(m5, 7);
      SmoothNested(a, b, c, d);
    } else if a, b, c, d :| n == Smooth(a, b, c, d) {
      SmoothPasses(a, b, c, d);
    }
  }

  // ----- termination of the search

  /** Exponent of the least power of two at or above n. */
  ghost function Log(n: nat): (e: nat)
    requires n >= 1
    ensures Pow(2, e) >= n
    decreases n
  {
    if n == 1 then 0 else 1 + Log((n + 1) / 2)
  }

  lemma {:induction false} LogIsLeast(n: nat, e: nat)
    requires n >= 1 && Pow(2, e) >= n
    ensures Log(n) <= e
    decreases n
  {
    if n > 1 {
      LogIsLeast((n + 1) / 2, e - 1);
    }
  }

  lemma {:induction false} PowMonotone(e: nat, f: nat)
    requires e <= f
    ensures Pow(2, e) <= Pow(2, f)
  {
    if e < f {
      PowMonotone(e, f - 1);
    }
  }

  /** Distance to that power of two. */
  ghost function Distance(n: nat): nat
    requires n >= 1
  {
    Pow(2, Log(n)) - n
  }

  lemma PowerPasses(e: nat)
    ensures Pow(2, e) >= 1 && IsFactor2357(Pow(2, e))
  {
    SmoothPasses(e, 0, 0, 0);
    assert Pow(3, 0) == Pow(5, 0) == Pow(7, 0) == 1;
    assert Smooth(e, 0, 0, 0) == Pow(2, e);
  }

  lemma DistanceShrinks(n: nat)
    requires n >= 1 && !IsFactor2357(n)
    ensures Distance(n + 1) < Distance(n)
  {
    hide IsFactor2357;
    PowerPasses(Log(n));
    LogIsLeast(n + 1, Log(n));
    PowMonotone(Log(n + 1), Log(n));
  }

  lemma NegativeFails(n: int)
    requires n <= -1
    ensures !IsFactor2357(n)
  {
    hide DivBy;
  }

  /** How far next_factor2357 can still climb. */
  ghost function Climb(n: int): nat { if n <= 0 then -n else Distance(n) }

  /** next_factor2357: the least size at or above n that passes. Negative numbers climb to zero, where
      divby does not return: None. */
  function NextFactor2357(n: int): (r: Option<nat>)
    ensures r.None? <==> n <= 0
    ensures r.Some? ==> n <= r.value && IsFactor2357(r.value) && forall k :: n <= k < r.value ==> !IsFactor2357(k)
    decreases n <= 0, Climb(n)
  {
    if n == 0 then None
    else if IsFactor2357(n) then
      assert n >= 1 by {
        if n <= -1 {
          NegativeFails(n);
        }
      }
      Some(n)
    else
      assert n >= 1 ==> Climb(n + 1) < Climb(n) by {
        if n >= 1 {
          DistanceShrinks(n);
        }
      }
      NextFactor2357(n + 1)
  }

  /** The least number at or above n of the form 2^a * 3^b * 5^c * 7^d, at most the next power of two. */
  lemma NextIsLeastSmooth(n: nat, k: nat)
    requires n >= 1
    ensures var r := NextFactor2357(n);
            && r.Some? && n <= r.value && IsSmooth(r.value)
            && (n <= k && IsSmooth(k) ==> r.value <= k)
            && r.value <= Pow(2, Log(n)) < 2 * n
  {
    hide IsFactor2357, IsSmooth;
    ChainIsSmooth(NextFactor2357(n).value);
    if k >= 1 {
      ChainIsSmooth(k);
    }
    PowerPasses(Log(n));
    LogBelow(n);
  }

  lemma {:induction false} LogBelow(n: nat)
    requires n >= 1
    ensures Pow(2, Log(n)) < 2 * n
    decreases n
  {
    if n > 1 {
      var half := (n + 1) / 2;
      LogBelow(half);
      DoublePow(Log(half), half, n);
    }
  }

  lemma DoublePow(e: nat, half: nat, n: nat)
    requires n > 1 && half == (n + 1) / 2 && Pow(2, e) < 2 * half
    ensures Pow(2, e + 1) < 2 * n
  {
    BelowHalf(Pow(2, e), if e > 0 then Pow(2, e - 1) else 0, half, n);
  }

  /** One or an even number below n + 1 rounded up to an even number is below n. */
  lemma BelowHalf(p: nat, k: nat, half: nat, n: nat)
    requires n > 1 && n <= 2 * half <= n + 1 && p < 2 * half
    requires p == 1 || p == 2 * k
    ensures p < n
  {
  }
}
