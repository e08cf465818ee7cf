/** The production closure that `solve_cycles` computes, as a reference
    definition over the catalog, and the facts the solver's results rest on:
    bounds, the fixed point, leastness, monotonicity and recipe soundness.
    Item sets are sets of ids (items compare by id). */
module Closures {
  import opened Tiers
  import opened Errors
  import opened Items

  /** Item `p` comes out of one production cycle over the available ids `s`:
      it has a recipe with at least one input (so some available item lists it
      as a consumer), all its inputs are available, and its tier is at most `t`. */
  predicate Producible(m: ItemManager, s: set<Id>, t: Tier, p: Id)
  {
    && p in m.items
    && m.items[p].production.Some?
    && Recipe(m, p) != {}
    && Recipe(m, p) <= s
    && Le(m.items[p].tier, t)
  }

  /** The outputs of `solve_cycle` over `s`. */
  function Cycle(m: ItemManager, s: set<Id>, t: Tier): set<Id>
  {
    set p | p in m.items.Keys && Producible(m, s, t, p)
  }

  /** Catalog item `p` passes the tier test of `solve_cycles`: R0 < tier <= t. */
  predicate InRange(m: ItemManager, p: Id, t: Tier)
  {
    p in m.items && Lt(R0, m.items[p].tier) && Le(m.items[p].tier, t)
  }

  /** The members of `s` that pass the tier test. */
  function Allowed(m: ItemManager, s: set<Id>, t: Tier): set<Id>
  {
    set p | p in s && InRange(m, p, t)
  }

  /** What one pass of `solve_cycles` adds: the cycle's outputs that pass the tier test. */
  function Step(m: ItemManager, t: Tier, s: set<Id>): (r: set<Id>)
    ensures r <= m.items.Keys
  {
    Allowed(m, Cycle(m, s, t), t)
  }

  /** The later passes of `solve_cycles`: each cycle runs on the products alone. */
  function Iterate(m: ItemManager, t: Tier, p: set<Id>): set<Id>
    requires p <= m.items.Keys
    decreases |m.items.Keys - p|
  {
    var next := Step(m, t, p);
    if next <= p then p
    else
      GrowthShrinksRest(m.items.Keys, p, next);
      Iterate(m, t, p + next)
  }

  /** `solve_cycles(initial, max_tier)` as the code computes it: the first cycle runs on
      the initial inputs, every later cycle on the products found so far. */
  function Closure(m: ItemManager, initial: set<Id>, t: Tier): set<Id>
  {
    Iterate(m, t, Step(m, t, initial))
  }

  /** Adding a new element of `keys` to `p` leaves fewer elements of `keys` outside it. */
  lemma GrowthShrinksRest(keys: set<Id>, p: set<Id>, next: set<Id>)
    requires next <= keys && !(next <= p)
    ensures |keys - (p + next)| < |keys - p|
  {
    var x :| x in next && x !in p;
    var rest := keys - (p + next);
    assert keys - p == rest + {x} + (keys - p - rest - {x});
  }

  // ---------------------------------------------------------------------------
  // One cycle

  /** `Cycle` grows with the available set and with the tier ceiling. */
  lemma CycleMonotone(m: ItemManager, s1: set<Id>, s2: set<Id>, t1: Tier, t2: Tier)
    requires s1 <= s2 && Le(t1, t2)
    ensures Cycle(m, s1, t1) <= Cycle(m, s2, t2)
    ensures Step(m, t1, s1) <= Step(m, t2, s2)
  {
  }

  /** Nothing is producible from nothing: every cycle output has a non-empty recipe. */
  lemma StepEmpty(m: ItemManager, t: Tier)
    ensures Step(m, t, {}) == {}
  {
    forall p | p in m.items ensures !Producible(m, {}, t, p) {
      if Recipe(m, p) <= {} {
        assert Recipe(m, p) == {};
      }
    }
  }

  // ---------------------------------------------------------------------------
  // The later passes

  /** `Iterate` only adds catalog items that pass the tier test, and stops at a set
      one more cycle does not enlarge. Every item it adds was produced from the
      products of an earlier pass. */
  lemma {:induction false} IterateFacts(m: ItemManager, t: Tier, p: set<Id>)
    requires p <= m.items.Keys
    ensures p <= Iterate(m, t, p) <= m.items.Keys
    ensures Step(m, t, Iterate(m, t, p)) <= Iterate(m, t, p)
    ensures Iterate(m, t, p) <= p + Step(m, t, Iterate(m, t, p))
    decreases |m.items.Keys - p|
  {
    var next := Step(m, t, p);
    if !(next <= p) {
      GrowthShrinksRest(m.items.Keys, p, next);
      IterateFacts(m, t, p + next);
      CycleMonotone(m, p, Iterate(m, t, p), t, t);
    }
  }

  /** What membership in one pass's additions tells about an item. */
  lemma StepMember(m: ItemManager, t: Tier, s: set<Id>, q: Id)
    requires q in Step(m, t, s)
    ensures InRange(m, q, t) && m.items[q].production.Some?
    ensures Recipe(m, q) != {} && Recipe(m, q) <= s
  {
  }

  /** `Iterate` stops at the least set above its start that one more cycle does not enlarge. */
  lemma {:induction false} IterateLeast(m: ItemManager, t: Tier, p: set<Id>, q: set<Id>)
    requires p <= m.items.Keys
    requires p <= q && Step(m, t, q) <= q
    ensures Iterate(m, t, p) <= q
    decreases |m.items.Keys - p|
  {
    var next := Step(m, t, p);
    if !(next <= p) {
      CycleMonotone(m, p, q, t, t);
      GrowthShrinksRest(m.items.Keys, p, next);
      IterateLeast(m, t, p + next, q);
    }
  }

  // ---------------------------------------------------------------------------
  // The closure

  /** Every product is a catalog item with a recipe and R0 < tier <= t. */
  lemma ClosureBounds(m: ItemManager, initial: set<Id>, t: Tier)
    ensures Closure(m, initial, t) <= m.items.Keys
    ensures forall p :: p in Closure(m, initial, t) ==> InRange(m, p, t) && m.items[p].production.Some?
  {
    var c := Closure(m, initial, t);
    IterateFacts(m, t, Step(m, t, initial));
    forall p | p in c ensures InRange(m, p, t) && m.items[p].production.Some? {
      if p in Step(m, t, initial) {
        StepMember(m, t, initial, p);
      } else {
        StepMember(m, t, c, p);
      }
    }
  }

  /** The products hold everything the first cycle yields, and one more cycle over
      them adds nothing (the exit test of `solve_cycles`). */
  lemma ClosureFixpoint(m: ItemManager, initial: set<Id>, t: Tier)
    ensures Step(m, t, initial) <= Closure(m, initial, t)
    ensures Step(m, t, Closure(m, initial, t)) <= Closure(m, initial, t)
  {
    IterateFacts(m, t, Step(m, t, initial));
  }

  /** The products are the least such set. */
  lemma ClosureLeast(m: ItemManager, initial: set<Id>, t: Tier, q: set<Id>)
    requires Step(m, t, initial) <= q && Step(m, t, q) <= q
    ensures Closure(m, initial, t) <= q
  {
    IterateLeast(m, t, Step(m, t, initial), q);
  }

  /** Every product can be made: either all of its recipe inputs are initial
      inputs, or all of them are products. */
  lemma ClosureSound(m: ItemManager, initial: set<Id>, t: Tier)
    ensures Closure(m, initial, t) <= m.items.Keys
    ensures forall p :: p in Closure(m, initial, t) ==> Recipe(m, p) <= initial || Recipe(m, p) <= Closure(m, initial, t)
  {
    var c := Closure(m, initial, t);
    IterateFacts(m, t, Step(m, t, initial));
    forall p | p in c ensures Recipe(m, p) <= initial || Recipe(m, p) <= c {
      if p in Step(m, t, initial) {
        StepMember(m, t, initial, p);
      } else {
        StepMember(m, t, c, p);
      }
    }
  }

  /** Raising the tier ceiling never loses a product. */
  lemma ClosureMonotoneInTier(m: ItemManager, initial: set<Id>, t1: Tier, t2: Tier)
    requires Le(t1, t2)
    ensures Closure(m, initial, t1) <= Closure(m, initial, t2)
  {
    var c2 := Closure(m, initial, t2);
    ClosureFixpoint(m, initial, t2);
    CycleMonotone(m, initial, initial, t1, t2);
    CycleMonotone(m, c2, c2, t1, t2);
    ClosureLeast(m, initial, t1, c2);
  }

  /** More initial inputs never lose a product. */
  lemma ClosureMonotoneInInputs(m: ItemManager, i1: set<Id>, i2: set<Id>, t: Tier)
    requires i1 <= i2
    ensures Closure(m, i1, t) <= Closure(m, i2, t)
  {
    var c2 := Closure(m, i2, t);
    ClosureFixpoint(m, i2, t);
    CycleMonotone(m, i1, i2, t, t);
    ClosureLeast(m, i1, t, c2);
  }

  /** A planet without resources produces nothing. */
  lemma ClosureEmpty(m: ItemManager, t: Tier)
    ensures Closure(m, {}, t) == {}
  {
    StepEmpty(m, t);
    ClosureLeast(m, {}, t, {});
  }

  // ---------------------------------------------------------------------------
  // The closure over initial inputs and products together

  /** The passes of the evidently intended loop: every cycle runs on the initial
      inputs together with the products found so far. */
  function FullIterate(m: ItemManager, initial: set<Id>, t: Tier, p: set<Id>): set<Id>
    requires p <= m.items.Keys
    decreases |m.items.Keys - p|
  {
    var next := Step(m, t, initial + p);
    if next <= p then p
    else
      GrowthShrinksRest(m.items.Keys, p, next);
      FullIterate(m, initial, t, p + next)
  }

  function FullClosure(m: ItemManager, initial: set<Id>, t: Tier): set<Id>
  {
    FullIterate(m, initial, t, {})
  }

  lemma {:induction false} FullIterateFacts(m: ItemManager, initial: set<Id>, t: Tier, p: set<Id>)
    requires p <= m.items.Keys
    ensures p <= FullIterate(m, initial, t, p) <= m.items.Keys
    ensures Step(m, t, initial + FullIterate(m, initial, t, p)) <= FullIterate(m, initial, t, p)
    decreases |m.items.Keys - p|
  {
    var next := Step(m, t, initial + p);
    if !(next <= p) {
      GrowthShrinksRest(m.items.Keys, p, next);
      FullIterateFacts(m, initial, t, p + next);
    }
  }

  lemma {:induction false} FullIterateLeast(m: ItemManager, initial: set<Id>, t: Tier, p: set<Id>, q: set<Id>)
    requires p <= m.items.Keys
    requires p <= q && Step(m, t, initial + q) <= q
    ensures FullIterate(m, initial, t, p) <= q
    decreases |m.items.Keys - p|
  {
    var next := Step(m, t, initial + p);
    if !(next <= p) {
      CycleMonotone(m, initial + p, initial + q, t, t);
      GrowthShrinksRest(m.items.Keys, p, next);
      FullIterateLeast(m, initial, t, p + next, q);
    }
  }

  /** The corrected closure is the least set of products that one more cycle over
      initial inputs and products does not enlarge. */
  lemma FullClosureIsLeastFixpoint(m: ItemManager, initial: set<Id>, t: Tier, q: set<Id>)
    ensures Step(m, t, initial + FullClosure(m, initial, t)) <= FullClosure(m, initial, t)
    ensures Step(m, t, initial + q) <= q ==> FullClosure(m, initial, t) <= q
  {
    FullIterateFacts(m, initial, t, {});
    if Step(m, t, initial + q) <= q {
      FullIterateLeast(m, initial, t, {}, q);
    }
  }

  /** The corrected closure is idempotent: feeding its products back in as initial
      inputs yields the same products. */
  lemma FullClosureIdempotent(m: ItemManager, initial: set<Id>, t: Tier)
    ensures FullClosure(m, initial + FullClosure(m, initial, t), t) == FullClosure(m, initial, t)
  {
    var f := FullClosure(m, initial, t);
    var g := FullClosure(m, initial + f, t);
    FullClosureIsLeastFixpoint(m, initial, t, g);
    FullClosureIsLeastFixpoint(m, initial + f, t, f);
    assert initial + f + f == initial + f;
    CycleMonotone(m, initial + g, initial + f + g, t, t);
    assert g <= f;
    assert f <= g;
  }

  /** The code's closure never finds more than the corrected one. */
  lemma ClosureWithinFullClosure(m: ItemManager, initial: set<Id>, t: Tier)
    ensures Closure(m, initial, t) <= FullClosure(m, initial, t)
  {
    var f := FullClosure(m, initial, t);
    FullClosureIsLeastFixpoint(m, initial, t, f);
    CycleMonotone(m, initial, initial + f, t, t);
    CycleMonotone(m, f, initial + f, t, t);
    ClosureLeast(m, initial, t, f);
  }

  // ---------------------------------------------------------------------------
  // A catalog on which the two differ

  /** Two P1 items (`chip`, `metal`), a P2 made from `chip`, a P3 made from the P2,
      and a P4 made from the P3 and `metal`: the shape of a P4 recipe that takes a P1. */
  function MixedCatalog(): ItemManager
  {
    var chip := RawItem("chip", "Chip", P1, None, false);
    var metal := RawItem("metal", "Metal", P1, None, true);
    var board := RawItem("board", "Board", P2, Some(RawProduction(1, map["chip" := 40])), false);
    var unit := RawItem("unit", "Unit", P3, Some(RawProduction(1, map["board" := 10])), false);
    var core := RawItem("core", "Core", P4, Some(RawProduction(1, map["unit" := 6, "metal" := 40])), false);
    ItemManager(
      map["chip" := chip, "metal" := metal, "board" := board, "unit" := unit, "core" := core],
      map["chip" := {"board"}, "board" := {"unit"}, "unit" := {"core"}, "metal" := {"core"}])
  }

  /** The recipes of the mixed catalog, read off its definition. */
  lemma MixedRecipes(m: ItemManager)
    requires m == MixedCatalog()
    ensures m.items.Keys == {"chip", "metal", "board", "unit", "core"}
    ensures Recipe(m, "chip") == {} && Recipe(m, "metal") == {}
    ensures Recipe(m, "board") == {"chip"} && Recipe(m, "unit") == {"board"}
    ensures Recipe(m, "core") == {"unit", "metal"}
  {
  }

  /** From the two P1 items the code's closure stays inside {board, unit}. */
  lemma MixedCodeClosure(m: ItemManager, i: set<Id>)
    requires m == MixedCatalog() && i == {"chip", "metal"}
    ensures Closure(m, i, P4) <= {"board", "unit"}
  {
    MixedRecipes(m);
    var q: set<Id> := {"board", "unit"};
    assert Step(m, P4, i) <= q by {
      forall p | p in Cycle(m, i, P4) ensures p in q {
      }
    }
    assert Step(m, P4, q) <= q by {
      forall p | p in Cycle(m, q, P4) ensures p in q {
      }
    }
    ClosureLeast(m, i, P4, q);
  }

  /** A product set that holds the first cycle's outputs and that one more cycle
      does not enlarge holds board and unit, and with the two P1 items added it makes core. */
  lemma MixedReachesCore(m: ItemManager, i: set<Id>, c: set<Id>)
    requires m == MixedCatalog() && i == {"chip", "metal"}
    requires Step(m, P4, i) <= c && Step(m, P4, c) <= c
    ensures "board" in c && "unit" in c
    ensures "core" in Step(m, P4, i + c)
  {
    MixedRecipes(m);
    assert "board" in Cycle(m, i, P4);
    assert "unit" in Cycle(m, c, P4);
    assert "core" in Cycle(m, i + c, P4);
  }

  /** With the code's closure, the P4 item is out of reach from the two P1 items,
      although feeding the products back in reaches it: the closure is not
      idempotent. The corrected closure reaches it. */
  lemma ClosureNotIdempotent()
    ensures var m := MixedCatalog();
      && "core" !in Closure(m, {"chip", "metal"}, P4)
      && "core" in Closure(m, {"chip", "metal"} + Closure(m, {"chip", "metal"}, P4), P4)
      && "core" in FullClosure(m, {"chip", "metal"}, P4)
  {
    var m := MixedCatalog();
    var i: set<Id> := {"chip", "metal"};
    MixedCodeClosure(m, i);
    var c := Closure(m, i, P4);
    ClosureFixpoint(m, i, P4);
    MixedReachesCore(m, i, c);
    ClosureFixpoint(m, i + c, P4);
    var f := FullClosure(m, i, P4);
    FullClosureIsLeastFixpoint(m, i, P4, f);
    CycleMonotone(m, i, i + f, P4, P4);
    CycleMonotone(m, f, i + f, P4, P4);
    MixedReachesCore(m, i, f);
    CycleMonotone(m, i + f, i + f, P4, P4);
  }
}
