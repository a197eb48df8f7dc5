/** Small shared vocabulary: an option type, Go's integer division, powers of two and set sizes. */
module Prelude {
  datatype Option<+T> = None | Some(value: T)

  function Min(a: int, b: int): int { if a < b then a else b }

  function Max(a: int, b: int): int { if a < b then b else a }

  /** Go's `/` on integers: truncates toward zero. */
  function TruncDiv(a: int, b: int): int
    requires b != 0
  {
    if a >= 0 then a / b else -((-a) / b)
  }

  /** For a positive divisor, how many whole multiples fit below the dividend. */
  lemma TruncDivBounds(a: int, b: int, k: int)
    requires b > 0
    ensures k >= 1 ==> (k <= TruncDiv(a, b) <==> k * b <= a)
    ensures a < 0 ==> TruncDiv(a, b) <= 0
  {
    var q := TruncDiv(a, b);
    if k >= 1 {
      MulMonotone(1, k, b);
      if a < 0 {
        assert q <= 0;
      } else {
        assert q * b <= a < q * b + b;
        if k <= q {
          MulMonotone(k, q, b);
        } else {
          MulMonotone(q + 1, k, b);
        }
      }
    }
  }

  lemma MulMonotone(a: int, b: int, m: int)
    requires a <= b && m >= 0
    ensures a * m <= b * m
  {}

  lemma MulDistributes(a: int, b: int, m: int)
    ensures (a - b) * m == a * m - b * m
    ensures (a + b) * m == a * m + b * m
  {}

  function Pow2(n: nat): (p: nat)
    ensures p >= 1
  {
    if n == 0 then 1 else 2 * Pow2(n - 1)
  }

  ghost predicate Distinct<T>(xs: seq<T>) { forall i, j :: 0 <= i < j < |xs| ==> xs[i] != xs[j] }

  lemma SubsetCard<T>(a: set<T>, b: set<T>)
    requires a <= b
    ensures |a| <= |b|
  {
    assert b == a + (b - a);
  }

  lemma SplitCard<T>(a: set<T>, b: set<T>, c: set<T>)
    requires a == b + c && b !! c
    ensures |a| == |b| + |c|
  {}
}
