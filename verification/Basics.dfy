/** What several modules share: optional values, minimum and maximum, small lemmas. */
module Basics {

  datatype Option<T> = None | Some(value: T)

  function Min(a: int, b: int): int
  {
    if a <= b then a else b
  }

  function Max(a: int, b: int): int
  {
    if a <= b then b else a
  }

  /** A subset is no larger, and only as large if it is the whole set. */
  lemma SubsetSize<T>(a: set<T>, b: set<T>)
    requires a <= b
    ensures |a| <= |b|
    ensures |a| == |b| ==> a == b
  {
    assert b == a + (b - a);
  }

  /** Multiples of `d` are at least `d` apart. */
  lemma {:induction false} MultipleGap(d: nat, p: nat, q: nat)
    requires p < q
    ensures d * p + d <= d * q
    decreases q
  {
    assert d * (q - 1) + d == d * q;
    if p + 1 < q {
      MultipleGap(d, p, q - 1);
    }
  }
}
