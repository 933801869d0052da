/** Lists without repetition, and loops over them that may be told to stop. */
module Loops {

  predicate Unique<T(==)>(xs: seq<T>) {
    forall i, j :: 0 <= i < j < |xs| ==> xs[i] != xs[j]
  }

  /** A loop over `all` turns that did `n` of them went on as long as it was alive. */
  ghost predicate StopsWell(alive: nat -> bool, n: nat, all: nat) {
    n <= all && WentOn(alive, n) && (n < all ==> !alive(n))
  }

  ghost predicate WentOn(alive: nat -> bool, n: nat) {
    forall i :: 0 <= i < n ==> alive(i)
  }

  lemma GoesOn(alive: nat -> bool, n: nat)
    ensures WentOn(alive, 0)
    ensures WentOn(alive, n) && alive(n) ==> WentOn(alive, n + 1)
  {
  }
}
