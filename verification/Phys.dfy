/** The PHYs of the A-Link engine, and selections among them. */
module Phys {
  const PHYS := 5

  /** PHY k only; with k == PHYS none. */
  function Only(k: nat): (s: seq<bool>)
    ensures |s| == PHYS
  {
    seq(PHYS, j => j == k)
  }

  predicate Any(sel: seq<bool>) { exists k :: 0 <= k < |sel| && sel[k] }

  predicate AtMostOne(sel: seq<bool>) {
    forall j, k :: 0 <= j < |sel| && 0 <= k < |sel| && sel[j] && sel[k] ==> j == k
  }

  lemma NoneChosen()
    ensures AtMostOne(Only(PHYS)) && !Any(Only(PHYS))
  {}
}
