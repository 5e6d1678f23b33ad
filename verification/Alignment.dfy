/** Multiples of a block or granule size. */
module Alignment {

  /** `x` is a multiple of `bs`. */
  predicate Aligned(bs: nat, x: nat) {
    bs > 0 && (x == 0 || (x >= bs && Aligned(bs, x - bs)))
  }

  lemma {:induction false} AlignedGap(bs: nat, a: nat, b: nat)
    requires Aligned(bs, a) && Aligned(bs, b) && a < b
    ensures a + bs <= b
  {
    if a > 0 { AlignedGap(bs, a - bs, b - bs); }
  }

  lemma {:induction false} AlignedSum(bs: nat, a: nat, b: nat)
    requires Aligned(bs, a)
    ensures Aligned(bs, a + b) <==> Aligned(bs, b)
  {
    if a > 0 { AlignedSum(bs, a - bs, b); }
  }

  lemma {:induction false} AlignedTrans(g: nat, bs: nat, x: nat)
    requires Aligned(g, bs) && Aligned(bs, x)
    ensures Aligned(g, x)
  {
    if x > 0 {
      AlignedTrans(g, bs, x - bs);
      AlignedSum(g, bs, x - bs);
    }
  }

  /** The greatest multiple of `bs` that is not above `x`. */
  function Floor(x: nat, bs: nat): (r: nat)
    requires bs > 0
    ensures Aligned(bs, r) && r <= x < r + bs
  {
    if x < bs then 0 else Floor(x - bs, bs) + bs
  }
}
