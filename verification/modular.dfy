/** Facts about Euclidean remainder with a symbolic divisor, shared by the
    rotation index law and the round-robin instance selector. */
module Modular {

  /** A value one turn below the range wraps up by one turn. */
  lemma ModBelow(x: int, n: int)
    requires n > 0 && -n <= x < 0
    ensures x % n == x + n
  {
  }

  /** A value one turn above the range wraps down by one turn. */
  lemma ModAbove(x: int, n: int)
    requires n > 0 && n <= x < 2 * n
    ensures x % n == x - n
  {
  }

  /** A value in range is its own remainder. */
  lemma ModWithin(x: int, n: int)
    requires 0 <= x < n
    ensures x % n == x
  {
  }

  /** Stepping a round-robin index once more is the next index modulo the count. */
  lemma NextIndex(m: int, k: int)
    requires k > 0 && m >= 1
    ensures ((m - 1) % k + 1) % k == m % k
  {
    var q := (m - 1) / k;
    var r := (m - 1) % k;
    assert m - 1 == q * k + r;
    if r + 1 < k {
      ModUnique(m, k, q, r + 1);
    } else {
      assert m == (q + 1) * k;
      ModUnique(m, k, q + 1, 0);
    }
  }

  /** Euclidean remainder is determined by any decomposition with an
      in-range remainder. */
  lemma ModUnique(x: int, k: int, q: int, r: int)
    requires k > 0 && 0 <= r < k && x == q * k + r
    ensures x % k == r
  {
    var q' := x / k;
    var r' := x % k;
    assert x == q' * k + r';
    var d := q - q';
    assert d * k == q * k - q' * k;
    assert d * k == r' - r;
    if d > 0 {
      MulAtLeast(d, k);
    } else if d < 0 {
      MulAtLeast(-d, k);
    }
  }

  lemma MulAtLeast(a: int, k: int)
    requires a >= 1 && k > 0
    ensures a * k >= k
  {
  }
}
