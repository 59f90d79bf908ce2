/** Induction over the natural numbers as a lemma, for the block-by-block facts: a
    property of block 0 that every block passes on to the next holds after any number
    of blocks. */
module Induction {
  lemma {:induction false} NatInduction(p: nat -> bool, n: nat)
    requires p(0) && forall k: nat :: p(k) ==> p(k + 1)
    ensures p(n)
  {
    if n > 0 {
      NatInduction(p, n - 1);
    }
  }
}
