/** Integer facts shared by the index arithmetic of the dataset bundles and the heatmap cells. */
module Arith {
  /** Multiplying by the same natural number keeps `<=`. */
  lemma MulMonotone(p: nat, q: nat, w: nat)
    requires p <= q
    ensures p * w <= q * w
  {
  }
}
