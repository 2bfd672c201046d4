/** Facts about integer division that the other modules share. */
module Arithmetic {

  lemma MultipleAtLeast(n: int, d: int)
    requires n >= 0
    ensures d >= 1 ==> n * d >= n
    ensures d <= -1 ==> n * d <= -n
  {
    if d >= 1 { assert n * d == n + n * (d - 1); } else if d <= -1 { assert n * d == -n - n * (-d - 1); }
  }

  /** Division is determined by its equation. */
  lemma Divides(x: int, n: int, q: int, r: int)
    requires 0 <= r < n && x == n * q + r
    ensures x / n == q && x % n == r
  {
    var d := x / n - q;
    assert n * d == r - x % n by { assert x == n * (x / n) + x % n; assert n * d == n * (x / n) - n * q; }
    MultipleAtLeast(n, d);
  }
}
