/** Facts about products and about indexing into a concatenation that the
    models of counts, rounding and grouped lists share. */
module Arith {

  lemma MulCancel(a: int, b: int, c: int)
    requires c > 0 && a * c < b * c
    ensures a < b
  {
    assert (b - a) * c == b * c - a * c;
  }

  lemma MulMonotone(a: int, b: int, c: nat)
    requires a <= b
    ensures a * c <= b * c
  {
    assert (b - a) * c == b * c - a * c;
  }

  /** Position `k + j` of `a + b` is position `j` of `b`, when `k == |a|`. */
  lemma ConcatAt<T>(a: seq<T>, b: seq<T>, k: nat, j: nat)
    requires k == |a| && j < |b|
    ensures k + j < |a + b| && (a + b)[k + j] == b[j]
  {
  }
}
