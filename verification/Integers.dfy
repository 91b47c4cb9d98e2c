/** Facts about quotients and remainders. */
module Integers {

  function Max(a: nat, b: nat): nat { if a >= b then a else b }

  lemma NextModulo(i: int, n: nat)
    requires 0 <= i < n
    ensures (i + 1) % n == if i + 1 >= n then i + 1 - n else i + 1
  {
    if i + 1 < n {
      SmallModulo(i + 1, n);
    } else {
      assert i + 1 == n;
    }
  }

  lemma SmallModulo(i: int, n: nat)
    requires 0 <= i < n
    ensures i % n == i
  {
  }

  lemma SmallMultiple(k: int, n: nat)
    ensures k != 0 ==> !(-(n as int) < k * n < n)
  {
    if k >= 1 {
      assert k * n >= n;
    } else if k <= -1 {
      assert (-k) * n >= n;
    }
  }

  lemma NonNegativeProduct(a: int, b: int)
    requires a >= 0 && b >= 0
    ensures a * b >= 0
  {
  }

  /** Column c of row i lies within n rows of width p. */
  lemma PositionInRange(i: int, n: int, c: int, p: int)
    requires 0 <= i < n && 0 <= c < p
    ensures 0 <= i * p + c < n * p
  {
    NonNegativeProduct(i, p);
    NonNegativeProduct(n - 1 - i, p);
    assert (n - 1 - i) * p == n * p - p - i * p;
  }

  lemma DivisionIsUnique(n: nat, q: int, r: int, v: int)
    requires n >= 1 && v == q * n + r && 0 <= r < n
    ensures v / n == q && v % n == r
  {
    var q', r' := v / n, v % n;
    assert (q - q') * n == r' - r;
    SmallMultiple(q - q', n);
  }

  lemma AddToModulo(q: int, n: nat)
    requires n >= 1
    ensures (q % n + 1) % n == (q + 1) % n
  {
    var r := (q % n + 1) % n;
    var k := (q % n + 1) / n;
    assert q + 1 == (q / n + k) * n + r;
    DivisionIsUnique(n, q / n + k, r, q + 1);
  }

  lemma ShiftCells(i: int, n: nat, h: int)
    requires n >= 1
    ensures i - n * h == (i / n - h) * n + i % n
  {
  }
}
