/** Facts about multiples and quotients by a positive chunk size. */
module Arithmetic {
  lemma MulMono(p: int, q: int, d: int)
    requires p <= q && d > 0
    ensures p * d <= q * d
  {
    assert (q - p) * d >= 0;
  }

  lemma QuotientUnique(x: int, d: int, q: int, r: int)
    requires d > 0 && x == q * d + r && 0 <= r < d
    ensures x / d == q && x % d == r
  {
    var p := x / d;
    if p < q { MulMono(p + 1, q, d); }
    if p > q { MulMono(q + 1, p, d); }
  }

  lemma DivMono(a: int, b: int, d: int)
    requires a <= b && d > 0
    ensures a / d <= b / d
  {
    if a / d > b / d { MulMono(b / d + 1, a / d, d); }
  }

  /** The byte before a position is in the same chunk exactly if the position is not the first of its chunk. */
  lemma PreviousPlace(x: int, d: int)
    requires d > 0
    ensures (x - 1) / d == (if x % d != 0 then x / d else x / d - 1)
  {
    var q, r := x / d, x % d;
    assert x == q * d + r;
    if r != 0 {
      QuotientUnique(x - 1, d, q, r - 1);
    } else {
      assert x - 1 == (q - 1) * d + (d - 1);
      QuotientUnique(x - 1, d, q - 1, d - 1);
    }
  }

  lemma DivShift(x: int, d: int)
    requires d > 0
    ensures (x - d) / d == x / d - 1
  {
    var q, r := x / d, x % d;
    assert x - d == (q - 1) * d + r;
    QuotientUnique(x - d, d, q - 1, r);
  }
}
