/** The production tier of an item, ordered as the enum declares it
    (`#[derive(Ord)]`): R0 < P1 < P2 < P3 < P4. */
module Tiers {

  datatype Tier = R0 | P1 | P2 | P3 | P4

  /** Position of the variant in the declaration, which is what the derived order compares. */
  function Rank(t: Tier): (r: nat)
    ensures r <= 4
    ensures t == R0 <==> r == 0
    ensures t == P4 <==> r == 4
  {
    match t
    case R0 => 0
    case P1 => 1
    case P2 => 2
    case P3 => 3
    case P4 => 4
  }

  predicate Le(a: Tier, b: Tier) { Rank(a) <= Rank(b) }

  predicate Lt(a: Tier, b: Tier) { Rank(a) < Rank(b) }

  /** The derived order is total and strict, and the variants come in declaration order. */
  lemma TierOrderIsTotal(a: Tier, b: Tier, c: Tier)
    ensures Lt(R0, P1) && Lt(P1, P2) && Lt(P2, P3) && Lt(P3, P4)
    ensures Le(R0, a) && Le(a, P4)
    ensures Le(a, b) || Le(b, a)
    ensures Le(a, b) && Le(b, a) ==> a == b
    ensures Le(a, b) && Le(b, c) ==> Le(a, c)
    ensures Lt(a, b) <==> Le(a, b) && a != b
  {
  }
}
