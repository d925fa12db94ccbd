/** Counters that wrap, and the ring slots they name. */
module Wrapping {

  lemma SmallMultiple(m: int, k: int)
    requires m > 0 && -m < m * k < m
    ensures k == 0
  {
    assert k >= 1 ==> m * k >= m;
    assert k <= -1 ==> m * k <= -m;
  }

  /** The remainder is the only number below m that is off by a multiple of m. */
  lemma OnlyRemainder(n: int, m: int, k: int, r: int)
    requires m > 0 && 0 <= r < m && n == m * k + r
    ensures n % m == r
  {
    var q := n / m;
    assert n == m * q + n % m;
    assert m * (k - q) == n % m - r;
    SmallMultiple(m, k - q);
  }

  /** A counter that wraps at m names the slot of the count, if the ring size d divides m. */
  lemma KeepsSlot(n: nat, m: nat, d: nat)
    requires m > 0 && d > 0 && m % d == 0
    ensures n % m % d == n % d
  {
    var r, e := n % m, m / d;
    assert m == d * e;
    assert n == m * (n / m) + r;
    assert r == d * (r / d) + r % d;
    assert n == d * (e * (n / m) + r / d) + r % d by {
      assert m * (n / m) == d * (e * (n / m));
    }
    OnlyRemainder(n, d, e * (n / m) + r / d, r % d);
  }

  /** Counting on from the wrapped value. */
  lemma Adds(n: nat, x: nat, m: nat)
    requires m > 0
    ensures (n % m + x) % m == (n + x) % m
  {
    var y := n % m + x;
    assert n == m * (n / m) + n % m;
    assert n + x == m * (n / m + y / m) + y % m by {
      assert y == m * (y / m) + y % m;
      assert m * (n / m) + m * (y / m) == m * (n / m + y / m);
    }
    OnlyRemainder(n + x, m, n / m + y / m, y % m);
  }

  /** Less than m apart, wrapped counters are equal exactly when the counts are. */
  lemma Tells(a: nat, b: nat, m: nat)
    requires m > 0 && a <= b < a + m
    ensures a % m == b % m <==> a == b
  {
    if a % m == b % m {
      assert b - a == m * (b / m) - m * (a / m);
      assert m * (b / m - a / m) == b - a;
      SmallMultiple(m, b / m - a / m);
    }
  }
}
