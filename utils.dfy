/** Integer helpers: `Math.max`, `Math.min` and `clamp` from the utilities file. */
module Utils {

  function Max(a: int, b: int): int {
    if a < b then b else a
  }

  function Min(a: int, b: int): int {
    if a < b then a else b
  }

  /** `clamp(n, min = 0, max = 1)`, on integers. */
  function Clamp(n: int, lo: int := 0, hi: int := 1): (r: int)
    ensures lo <= hi ==> lo <= r <= hi
    ensures lo <= n <= hi ==> r == n
    ensures n < lo ==> r == lo
    ensures lo <= hi < n ==> r == hi
    ensures hi < lo ==> r == lo
  {
    Max(lo, Min(hi, n))
  }

  /** Clamping a clamped value changes nothing. */
  lemma ClampIdempotent(n: int, lo: int, hi: int)
    ensures Clamp(Clamp(n, lo, hi), lo, hi) == Clamp(n, lo, hi)
  {
  }

  /** A subset is no larger than its superset. */
  lemma SubsetSize(a: set<int>, b: set<int>)
    requires a <= b
    ensures |a| <= |b|
  {
    assert b == a + (b - a);
    assert a * (b - a) == {};
  }
}
