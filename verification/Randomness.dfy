/** The random number generator, as its caller sees it. */
module Randomness {

  /** `rand(n)` is what a draw below `n` gives. No two draws of one call have the same bound, so any
      outcome of them is one such function. */
  ghost predicate InBounds(rand: nat -> nat) {
    forall n: nat :: n > 0 ==> rand(n) < n
  }
}
