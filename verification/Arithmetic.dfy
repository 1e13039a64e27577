/** Division facts the solver needs spelled out. */
module Arithmetic {

  lemma SmallMultiple(k: int, w: int)
    requires w > 0 && -w < k * w < w
    ensures k == 0
  {
    if k >= 1 {
      MultipleGrows(k - 1, w);
    } else if k <= -1 {
      MultipleGrows(-k - 1, w);
      Negated(k, w);
    }
  }

  lemma Negated(k: int, w: int)
    ensures (-k) * w == -(k * w)
  {
  }

  lemma MultipleGrows(k: int, w: int)
    requires k >= 0 && w > 0
    ensures (k + 1) * w == k * w + w && k * w >= 0
  {
  }

  /** Quotient and remainder are determined by x == q * w + r. */
  lemma DivModUnique(x: int, q: int, r: int, w: int)
    requires w > 0 && 0 <= r < w && x == q * w + r
    ensures x / w == q && x % w == r
  {
    var q', r' := x / w, x % w;
    DivMod(x, w);
    assert (q' - q) * w == r - r' by { assert (q' - q) * w == q' * w - q * w; }
    SmallMultiple(q' - q, w);
  }

  lemma DivMod(x: int, w: int)
    requires w > 0
    ensures x == (x / w) * w + x % w && 0 <= x % w < w
  {
  }
}
