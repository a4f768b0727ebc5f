/** Division and remainder facts shared by the ring buffer and the byte encodings. */
module Arith {

  lemma MulAtLeast(q: int, c: nat)
    requires q >= 1
    ensures q * c >= c
  {
    assert q * c == c + (q - 1) * c;
    assert (q - 1) * c >= 0;
  }

  lemma DivModUnique(x: int, q: int, r: int, c: nat)
    requires c > 0 && x == q * c + r && 0 <= r < c
    ensures x / c == q && x % c == r
  {
    var q', r' := x / c, x % c;
    assert x == q' * c + r';
    assert (q - q') * c == r' - r;
    if q > q' {
      MulAtLeast(q - q', c);
    } else if q < q' {
      MulAtLeast(q' - q, c);
    }
  }

  lemma ModShift(x: int, q: int, c: nat)
    requires c > 0
    ensures (x + q * c) % c == x % c
  {
    assert x + q * c == (x / c + q) * c + x % c;
    DivModUnique(x + q * c, x / c + q, x % c, c);
  }

  /** Different numbers with the same remainder are at least the modulus apart. */
  lemma SameRemainderGap(a: int, b: int, c: nat)
    requires c > 0 && a % c == b % c && a < b
    ensures a + c <= b
  {
    var qa, qb := a / c, b / c;
    assert a == qa * c + a % c && b == qb * c + b % c;
    assert b - a == (qb - qa) * c;
    if qb > qa {
      MulAtLeast(qb - qa, c);
    }
  }

  /** Every remainder occurs in every window of `c` consecutive numbers. */
  lemma InWindow(x: int, lo: int, c: nat) returns (k: int)
    requires c > 0
    ensures lo <= k < lo + c && k % c == x % c
  {
    k := lo + (x - lo) % c;
    var q := (x - lo) / c;
    assert x - lo == q * c + (x - lo) % c;
    assert x == k + q * c;
    ModShift(k, q, c);
  }

  lemma SmallMod(k: nat, n: nat)
    requires k < n
    ensures k % n == k
  {
  }
}
