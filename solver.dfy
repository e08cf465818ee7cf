/** The solver: configuration defaults, one production cycle, the cycle loop,
    and the driver that solves every planet and every factory combination. */
module Solvers {
  import opened Errors
  import opened Tiers
  import opened Collections
  import opened Items
  import opened Systems
  import opened Closures
  import opened Combinatorics

  const USIZE_MAX: int := 0xFFFF_FFFF_FFFF_FFFF

  newtype usize = x: int | 0 <= x <= USIZE_MAX

  // ---------------------------------------------------------------------------
  // Configuration

  /** The solver builder; every setting starts unset (`Builder::default`). */
  datatype Builder = Builder(
    useFactoryPlanet: Option<bool>,
    maxPlanets: Option<usize>,
    productionMaxTier: Option<Tier>,
    factoryMaxTier: Option<Tier>)
  {
    /** The setters replace one setting and keep the others. */
    function WithUseFactoryPlanet(v: Option<bool>): Builder { this.(useFactoryPlanet := v) }
    function WithMaxPlanets(v: Option<usize>): Builder { this.(maxPlanets := v) }
    function WithProductionMaxTier(v: Option<Tier>): Builder { this.(productionMaxTier := v) }
    function WithFactoryMaxTier(v: Option<Tier>): Builder { this.(factoryMaxTier := v) }
  }

  datatype Solver = Solver(
    productionMaxTier: Tier,
    factoryMaxTier: Tier,
    useFactoryPlanet: bool,
    maxPlanets: usize)

  /** `Solver::builder`. */
  function NewBuilder(): Builder
  {
    Builder(None, None, None, None)
  }

  /** `max_planets - 1` on a `usize` as a release build computes it: 0 wraps to `usize::MAX`. */
  function WrappingDecrement(x: usize): (r: usize)
    ensures (r as int + 1) % (USIZE_MAX + 1) == x as int
  {
    if x == 0 then USIZE_MAX as usize else x - 1
  }

  /** `Builder::build`: unset values take their defaults (factory on, 6 planets,
      factory tier P4, production tier P1 with the factory and P4 without it), and
      with the factory on one planet slot is given to the factory. */
  function Build(b: Builder): (s: Solver)
    ensures s.useFactoryPlanet <==> b.useFactoryPlanet != Some(false)
    ensures s.factoryMaxTier == (if b.factoryMaxTier.Some? then b.factoryMaxTier.value else P4)
    ensures b.productionMaxTier.Some? ==> s.productionMaxTier == b.productionMaxTier.value
    ensures b.productionMaxTier.None? ==> (s.productionMaxTier == P1 <==> s.useFactoryPlanet)
    ensures b.productionMaxTier.None? ==> s.productionMaxTier in {P1, P4}
    ensures s.useFactoryPlanet ==> (s.maxPlanets as int + 1) % (USIZE_MAX + 1) == b.maxPlanets.GetOr(6) as int
    ensures !s.useFactoryPlanet ==> s.maxPlanets == b.maxPlanets.GetOr(6)
  {
    var useFactoryPlanet := b.useFactoryPlanet.GetOr(true);
    var maxPlanets := b.maxPlanets.GetOr(6);
    var maxPlanets := if useFactoryPlanet then WrappingDecrement(maxPlanets) else maxPlanets;
    var productionMaxTier := b.productionMaxTier.GetOr(if useFactoryPlanet then P1 else P4);
    Solver(productionMaxTier, b.factoryMaxTier.GetOr(P4), useFactoryPlanet, maxPlanets)
  }

  /** With nothing set: the factory is used, five production planets, P1 production, P4 factory. */
  lemma BuildDefaults()
    ensures Build(NewBuilder()) == Solver(P1, P4, true, 5)
  {
  }

  /** Without the factory the planet count is not decremented and production may go up to P4. */
  lemma BuildWithoutFactory(n: usize)
    ensures Build(NewBuilder().WithUseFactoryPlanet(Some(false))) == Solver(P4, P4, false, 6)
    ensures Build(NewBuilder().WithUseFactoryPlanet(Some(false)).WithMaxPlanets(Some(n))).maxPlanets == n
  {
  }

  /** Asking for no planets with the factory on wraps around to `usize::MAX`. */
  lemma BuildUnderflow()
    ensures Build(NewBuilder().WithMaxPlanets(Some(0))).maxPlanets as int == USIZE_MAX
  {
  }

  // ---------------------------------------------------------------------------
  // Results

  /** The products a planet can make on its own. */
  datatype Solution = Solution(planet: Planet, products: set<Id>)

  /** The products a factory can make from the products of a set of planets. */
  datatype FactorySolution = FactorySolution(planets: seq<Solution>, products: set<Id>)

  datatype Simulation = Simulation(planetSolutions: seq<Solution>, factorySolutions: seq<FactorySolution>)

  // ---------------------------------------------------------------------------
  // One cycle

  /** Every producible consumer of input `x` is among `outputs`. */
  ghost predicate ConsumersIn(m: ItemManager, inputs: set<Id>, t: Tier, x: Id, outputs: set<Id>)
  {
    forall p :: Producible(m, inputs, t, p) && Uses(m.items[p], x) ==> p in outputs
  }

  /** What a resolved consumer of `x` tells about the catalog: its tier, and that
      `can_be_made_using` tests exactly its recipe. */
  lemma ConsumerFacts(m: ItemManager, x: Id, inputs: set<Id>, t: Tier, product: Item)
    requires Valid(m)
    requires x in m.usedIn && product.id in m.usedIn[x] && ResolvedConsumer(m, product)
    ensures product.tier == m.items[product.id].tier
    ensures Le(product.tier, t) && CanBeMadeUsing(product.production.value, inputs) <==> Producible(m, inputs, t, product.id)
  {
    assert x in Recipe(m, product.id);
    assert ProductionResolved(m, m.items[product.id].production.value, product.production.value);
  }

  /** Consumer `p` has been dealt with: if it is producible, it is among `outputs`. */
  ghost predicate Checked(m: ItemManager, inputs: set<Id>, t: Tier, p: Id, outputs: set<Id>)
  {
    Producible(m, inputs, t, p) ==> p in outputs
  }

  /** One step of the inner loop of `solve_cycle`: keeps `product` when its tier is
      within `t` and it can be made from `inputs`. */
  method CheckConsumer(m: ItemManager, inputs: set<Id>, t: Tier, x: Id, product: Item, ghost start: set<Id>, outputs: set<Id>)
    returns (result: set<Id>)
    requires Valid(m)
    requires x in m.usedIn && product.id in m.usedIn[x] && ResolvedConsumer(m, product)
    requires outputs <= Cycle(m, inputs, t)
    requires OnlyConsumers(m, x, start, outputs)
    ensures outputs <= result <= Cycle(m, inputs, t)
    ensures result <= outputs + {product.id}
    ensures OnlyConsumers(m, x, start, result)
    ensures Checked(m, inputs, t, product.id, result)
  {
    ConsumerFacts(m, x, inputs, t, product);
    result := outputs;
    if Lt(t, product.tier) {
      return;
    }
    if CanBeMadeUsing(product.production.value, inputs) {
      result := result + {product.id};
    }
  }

  /** The inner loop of `solve_cycle`: checks every consumer of input `x`. */
  method CheckConsumers(m: ItemManager, ghost depth: map<Id, nat>, inputs: set<Id>, t: Tier, x: Id, outputs: set<Id>)
    returns (result: set<Id>)
    requires Valid(m) && Layered(m, depth) && Closed(m)
    requires outputs <= Cycle(m, inputs, t)
    ensures outputs <= result <= Cycle(m, inputs, t)
    ensures OnlyConsumers(m, x, outputs, result)
    ensures ConsumersIn(m, inputs, t, x, result)
  {
    ConsumersResolve(m, depth, x);
    var products := GetProducts(m, depth, x);
    var consumers := products.GetOr([]);
    result := outputs;
    for k := 0 to |consumers|
      invariant outputs <= result <= Cycle(m, inputs, t)
      invariant OnlyConsumers(m, x, outputs, result)
      invariant forall j :: 0 <= j < k ==> Checked(m, inputs, t, consumers[j].id, result)
    {
      ghost var before := result;
      result := CheckConsumer(m, inputs, t, x, consumers[k], outputs, result);
      CheckedStep(m, inputs, t, consumers, k, before, result);
    }
    forall p | Producible(m, inputs, t, p) && Uses(m.items[p], x) ensures p in result {
      assert p in m.usedIn[x];
      var j :| 0 <= j < |consumers| && consumers[j].id == p;
      assert Checked(m, inputs, t, consumers[j].id, result);
    }
  }

  /** Whatever `result` holds beyond `outputs` is a catalog item whose recipe uses `x`. */
  ghost predicate OnlyConsumers(m: ItemManager, x: Id, outputs: set<Id>, result: set<Id>)
  {
    forall p :: p in result && p !in outputs ==> p in m.items && Uses(m.items[p], x)
  }

  lemma CheckedStep(m: ItemManager, inputs: set<Id>, t: Tier, consumers: seq<Item>, k: nat, before: set<Id>, after: set<Id>)
    requires k < |consumers| && before <= after
    requires forall j :: 0 <= j < k ==> Checked(m, inputs, t, consumers[j].id, before)
    requires Checked(m, inputs, t, consumers[k].id, after)
    ensures forall j :: 0 <= j < k + 1 ==> Checked(m, inputs, t, consumers[j].id, after)
  {
  }

  /** `solve_cycle`: the items one production cycle over `inputs` yields. */
  method SolveCycle(m: ItemManager, ghost depth: map<Id, nat>, inputs: set<Id>, t: Tier) returns (outputs: set<Id>)
    requires Valid(m) && Layered(m, depth) && Closed(m)
    ensures outputs == Cycle(m, inputs, t)
  {
    outputs := {};
    var rest := inputs;
    while rest != {}
      invariant rest <= inputs
      invariant outputs <= Cycle(m, inputs, t)
      invariant forall x :: x in inputs && x !in rest ==> ConsumersIn(m, inputs, t, x, outputs)
      decreases rest
    {
      var x :| x in rest;
      ghost var before := outputs;
      outputs := CheckConsumers(m, depth, inputs, t, x, outputs);
      forall y | y in inputs && y !in rest ensures ConsumersIn(m, inputs, t, y, outputs) {
        assert ConsumersIn(m, inputs, t, y, before);
      }
      rest := rest - {x};
    }
    forall p | p in Cycle(m, inputs, t) ensures p in outputs {
      var x :| x in Recipe(m, p);
      assert ConsumersIn(m, inputs, t, x, outputs);
    }
  }

  /** The characterisation of one cycle: exactly the catalog items with a non-empty
      recipe whose inputs are all available and whose tier is at most `t`. */
  lemma CycleIsExact(m: ItemManager, inputs: set<Id>, t: Tier, p: Id)
    ensures p in Cycle(m, inputs, t) <==>
      && p in m.items && m.items[p].production.Some?
      && (exists x :: x in inputs && Uses(m.items[p], x))
      && Recipe(m, p) <= inputs
      && Le(m.items[p].tier, t)
  {
    if p in m.items && Recipe(m, p) != {} {
      var x :| x in Recipe(m, p);
      assert Uses(m.items[p], x);
    }
  }

  // ---------------------------------------------------------------------------
  // The cycle loop

  /** The inner loop of `solve_cycles`: inserts the outputs that pass the tier test
      and counts the ones that were new. */
  method InsertOutputs(m: ItemManager, t: Tier, products: set<Id>, outputs: set<Id>)
    returns (result: set<Id>, inserted: nat)
    requires outputs <= m.items.Keys
    ensures result == products + Allowed(m, outputs, t)
    ensures inserted == |result| - |products|
  {
    result := products;
    inserted := 0;
    var rest := outputs;
    ghost var seen: set<Id> := {};
    while rest != {}
      invariant seen + rest == outputs
      invariant result == products + Allowed(m, seen, t)
      invariant inserted == |result| - |products|
      decreases rest
    {
      var output :| output in rest;
      var isTierAllowed := Lt(R0, m.items[output].tier) && Le(m.items[output].tier, t);
      InsertStep(m, t, products, seen, result, output, isTierAllowed);
      if isTierAllowed && output !in result {
        result := result + {output};
        inserted := inserted + 1;
      }
      rest := rest - {output};
      seen := seen + {output};
    }
  }

  /** One insertion keeps `result` equal to the initial products plus the allowed outputs seen. */
  lemma InsertStep(m: ItemManager, t: Tier, products: set<Id>, seen: set<Id>, result: set<Id>, x: Id, allowed: bool)
    requires x in m.items && result == products + Allowed(m, seen, t)
    requires allowed <==> Lt(R0, m.items[x].tier) && Le(m.items[x].tier, t)
    ensures (if allowed && x !in result then result + {x} else result) == products + Allowed(m, seen + {x}, t)
  {
    assert allowed <==> InRange(m, x, t);
    if allowed {
      assert Allowed(m, seen + {x}, t) == Allowed(m, seen, t) + {x};
    } else {
      assert Allowed(m, seen + {x}, t) == Allowed(m, seen, t);
    }
  }

  /** The next pass of `Iterate` leads to the same result as this one. */
  lemma IterateUnfold(m: ItemManager, t: Tier, p: set<Id>)
    requires p <= m.items.Keys
    ensures Iterate(m, t, p + Step(m, t, p)) == Iterate(m, t, p)
  {
    if Step(m, t, p) <= p {
      assert p + Step(m, t, p) == p;
    }
  }

  /** The invariant of the `solve_cycles` loop: inserting `next` and iterating on
      from there gives the closure, and `next` is the cycle over the products
      (or, before the first insertion, over the initial inputs). */
  ghost predicate Pending(m: ItemManager, initial: set<Id>, t: Tier, products: set<Id>, next: set<Id>)
  {
    && products <= m.items.Keys
    && next <= m.items.Keys
    && Iterate(m, t, products + Allowed(m, next, t)) == Closure(m, initial, t)
    && (products == {} || next == Cycle(m, products, t))
  }

  lemma PendingAtStart(m: ItemManager, initial: set<Id>, t: Tier)
    ensures Pending(m, initial, t, {}, Cycle(m, initial, t))
  {
    assert {} + Allowed(m, Cycle(m, initial, t), t) == Step(m, t, initial);
  }

  /** A pass that inserts nothing leaves the closure in `products`. */
  lemma PendingAtExit(m: ItemManager, initial: set<Id>, t: Tier, products: set<Id>, next: set<Id>)
    requires Pending(m, initial, t, products, next)
    requires products + Allowed(m, next, t) == products
    ensures products == Closure(m, initial, t)
  {
    if products == {} {
      StepEmpty(m, t);
    }
  }

  /** A pass that inserts something strictly enlarges `products` and keeps the invariant
      once the next cycle runs on the enlarged set. */
  lemma PendingAdvance(m: ItemManager, initial: set<Id>, t: Tier, products: set<Id>, next: set<Id>, grown: set<Id>)
    requires Pending(m, initial, t, products, next)
    requires grown == products + Allowed(m, next, t) && grown != products
    ensures Pending(m, initial, t, grown, Cycle(m, grown, t))
    ensures |grown| > |products|
    ensures |m.items.Keys - grown| < |m.items.Keys - products|
  {
    AllowedWithin(m, next, t);
    GrowthShrinksRest(m.items.Keys, products, grown);
    IterateUnfold(m, t, grown);
    var x :| x in grown && x !in products;
    SubsetSize(products, grown - {x});
  }

  /** `solve_cycles`: products are added cycle by cycle until a cycle inserts nothing.
      The first cycle runs on the initial inputs, later ones on the products. */
  method SolveCycles(m: ItemManager, ghost depth: map<Id, nat>, initial: set<Id>, t: Tier)
    returns (products: set<Id>, ghost cycles: nat)
    requires Valid(m) && Layered(m, depth) && Closed(m)
    ensures products == Closure(m, initial, t)
    ensures cycles <= |m.items.Keys| + 1
  {
    products := {};
    var next := SolveCycle(m, depth, initial, t);
    cycles := 1;
    PendingAtStart(m, initial, t);
    while true
      invariant Pending(m, initial, t, products, next)
      invariant cycles <= |products| + 1
      decreases |m.items.Keys - products|
    {
      var grown, inserted := InsertOutputs(m, t, products, next);
      if inserted == 0 {
        SameSize(products, grown);
        PendingAtExit(m, initial, t, products, next);
        break;
      }
      PendingAdvance(m, initial, t, products, next, grown);
      products := grown;
      next := SolveCycle(m, depth, products, t);
      cycles := cycles + 1;
    }
    SubsetSize(products, m.items.Keys);
  }

  /** The loop of `solve_cycles` as evidently intended: every cycle after the first runs
      on the initial inputs together with the products, so that items whose recipe
      mixes an initial input with a product are found. */
  method SolveCyclesCorrected(m: ItemManager, ghost depth: map<Id, nat>, initial: set<Id>, t: Tier)
    returns (products: set<Id>)
    requires Valid(m) && Layered(m, depth) && Closed(m)
    ensures products == FullClosure(m, initial, t)
  {
    products := {};
    var next := SolveCycle(m, depth, initial, t);
    FullPendingAtStart(m, initial, t);
    while true
      invariant FullPending(m, initial, t, products, next)
      decreases |m.items.Keys - products|
    {
      var grown, inserted := InsertOutputs(m, t, products, next);
      if inserted == 0 {
        SameSize(products, grown);
        FullPendingAtExit(m, initial, t, products, next);
        break;
      }
      FullPendingAdvance(m, initial, t, products, next, grown);
      products := grown;
      next := SolveCycle(m, depth, initial + products, t);
    }
  }

  /** The invariant of the corrected loop: inserting `next` and iterating on from
      there gives the corrected closure, and `next` is the cycle over the initial
      inputs and the products. */
  ghost predicate FullPending(m: ItemManager, initial: set<Id>, t: Tier, products: set<Id>, next: set<Id>)
  {
    && products <= m.items.Keys
    && next == Cycle(m, initial + products, t)
    && FullIterate(m, initial, t, products + Allowed(m, next, t)) == FullClosure(m, initial, t)
  }

  /** The next pass of `FullIterate` leads to the same result as this one. */
  lemma FullIterateUnfold(m: ItemManager, initial: set<Id>, t: Tier, p: set<Id>)
    requires p <= m.items.Keys
    ensures FullIterate(m, initial, t, p + Step(m, t, initial + p)) == FullIterate(m, initial, t, p)
  {
    if Step(m, t, initial + p) <= p {
      assert p + Step(m, t, initial + p) == p;
    }
  }

  lemma FullPendingAtStart(m: ItemManager, initial: set<Id>, t: Tier)
    ensures FullPending(m, initial, t, {}, Cycle(m, initial, t))
  {
    assert initial + {} == initial;
    FullIterateUnfold(m, initial, t, {});
    assert {} + Step(m, t, initial + {}) == {} + Allowed(m, Cycle(m, initial, t), t);
  }

  lemma FullPendingAtExit(m: ItemManager, initial: set<Id>, t: Tier, products: set<Id>, next: set<Id>)
    requires FullPending(m, initial, t, products, next)
    requires products + Allowed(m, next, t) == products
    ensures products == FullClosure(m, initial, t)
  {
    assert Step(m, t, initial + products) <= products;
  }

  lemma FullPendingAdvance(m: ItemManager, initial: set<Id>, t: Tier, products: set<Id>, next: set<Id>, grown: set<Id>)
    requires FullPending(m, initial, t, products, next)
    requires grown == products + Allowed(m, next, t) && grown != products
    ensures FullPending(m, initial, t, grown, Cycle(m, initial + grown, t))
    ensures |m.items.Keys - grown| < |m.items.Keys - products|
  {
    AllowedWithin(m, next, t);
    GrowthShrinksRest(m.items.Keys, products, grown);
    FullIterateUnfold(m, initial, t, grown);
  }

  lemma AllowedWithin(m: ItemManager, s: set<Id>, t: Tier)
    ensures Allowed(m, s, t) <= s
  {
  }

  lemma SameSize(a: set<Id>, b: set<Id>)
    requires a <= b && |b| - |a| == 0
    ensures a == b
  {
    if a != b {
      var x :| x in b && x !in a;
      SubsetSize(a, b - {x});
    }
  }

  lemma SubsetSize(a: set<Id>, b: set<Id>)
    requires a <= b
    ensures |a| <= |b|
  {
    assert b == a + (b - a);
  }

  // ---------------------------------------------------------------------------
  // The driver

  /** The members of `sols` at the indices of `c`, in that order (a combination's planets). */
  function Pick(sols: seq<Solution>, c: seq<nat>): (r: seq<Solution>)
    ensures (forall i :: 0 <= i < |c| ==> c[i] < |sols|) ==> |r| == |c| && forall i :: 0 <= i < |c| ==> r[i] == sols[c[i]]
    decreases |c|
  {
    if c == [] then []
    else (if c[0] < |sols| then [sols[c[0]]] else []) + Pick(sols, c[1..])
  }

  /** The items made by any of the given solutions (`flat_map` of the products into one set). */
  function UnionProducts(sols: seq<Solution>): (u: set<Id>)
    ensures forall x :: x in u <==> exists i :: 0 <= i < |sols| && x in sols[i].products
    decreases |sols|
  {
    if sols == [] then {}
    else
      var rest := UnionProducts(sols[1..]);
      assert forall i :: 1 <= i < |sols| ==> sols[i] == sols[1..][i - 1];
      sols[0].products + rest
  }

  /** The factory solution for the planets at the indices of `c`. */
  ghost function FactoryFor(m: ItemManager, sols: seq<Solution>, c: seq<nat>, t: Tier): FactorySolution
  {
    FactorySolution(Pick(sols, c), Closure(m, UnionProducts(Pick(sols, c)), t))
  }

  /** The planet loop of `solve`: one solution per planet, in order. */
  method SolvePlanets(s: Solver, m: ItemManager, ghost depth: map<Id, nat>, planets: seq<Planet>)
    returns (solutions: seq<Solution>)
    requires Valid(m) && Layered(m, depth) && Closed(m)
    ensures |solutions| == |planets|
    ensures forall i :: 0 <= i < |planets| ==>
      solutions[i] == Solution(planets[i], Closure(m, CollectResources(planets[i]), s.productionMaxTier))
  {
    solutions := [];
    for i := 0 to |planets|
      invariant |solutions| == i
      invariant forall j :: 0 <= j < i ==>
        solutions[j] == Solution(planets[j], Closure(m, CollectResources(planets[j]), s.productionMaxTier))
    {
      var products, cycles := SolveCycles(m, depth, CollectResources(planets[i]), s.productionMaxTier);
      solutions := solutions + [Solution(planets[i], products)];
    }
  }

  /** The factory loop of `solve`: one solution per `max_planets`-combination of the planet
      solutions, in the order of the combinations. */
  method SolveFactories(s: Solver, m: ItemManager, ghost depth: map<Id, nat>, sols: seq<Solution>)
    returns (factories: seq<FactorySolution>)
    requires Valid(m) && Layered(m, depth) && Closed(m)
    ensures |factories| == |Combinations(|sols|, s.maxPlanets as nat)|
    ensures forall j :: 0 <= j < |factories| ==>
      factories[j] == FactoryFor(m, sols, Combinations(|sols|, s.maxPlanets as nat)[j], s.factoryMaxTier)
  {
    var combos := Combinations(|sols|, s.maxPlanets as nat);
    factories := [];
    for j := 0 to |combos|
      invariant |factories| == j
      invariant forall i :: 0 <= i < j ==> factories[i] == FactoryFor(m, sols, combos[i], s.factoryMaxTier)
    {
      var planetSet := Pick(sols, combos[j]);
      var inputs := UnionProducts(planetSet);
      var products, cycles := SolveCycles(m, depth, inputs, s.factoryMaxTier);
      factories := factories + [FactorySolution(planetSet, products)];
    }
  }

  /** `Solver::solve`: every planet's solution, then (with the factory on) one factory
      solution per combination of `max_planets` planet solutions: C(n, k) of them,
      none when k exceeds the number of planets. */
  method Solve(s: Solver, m: ItemManager, ghost depth: map<Id, nat>, planets: seq<Planet>)
    returns (sim: Simulation)
    requires Valid(m) && Layered(m, depth) && Closed(m)
    ensures |sim.planetSolutions| == |planets|
    ensures forall i :: 0 <= i < |planets| ==>
      sim.planetSolutions[i] == Solution(planets[i], Closure(m, CollectResources(planets[i]), s.productionMaxTier))
    ensures !s.useFactoryPlanet ==> sim.factorySolutions == []
    ensures s.useFactoryPlanet ==> |sim.factorySolutions| == |Combinations(|planets|, s.maxPlanets as nat)|
    ensures s.useFactoryPlanet ==> |sim.factorySolutions| == Binomial(|planets|, s.maxPlanets as nat)
    ensures s.useFactoryPlanet ==> forall j :: 0 <= j < |sim.factorySolutions| ==>
      sim.factorySolutions[j] == FactoryFor(m, sim.planetSolutions, Combinations(|planets|, s.maxPlanets as nat)[j], s.factoryMaxTier)
  {
    var planetSolutions := SolvePlanets(s, m, depth, planets);
    var factorySolutions := [];
    if s.useFactoryPlanet {
      factorySolutions := SolveFactories(s, m, depth, planetSolutions);
      CombinationsCount(|planets|, s.maxPlanets as nat);
    }
    sim := Simulation(planetSolutions, factorySolutions);
  }

  /** A factory solution's planets are the planet solutions at the increasing indices
      of its combination, and its inputs are exactly the union of their products. */
  lemma FactoryInputs(m: ItemManager, sols: seq<Solution>, k: nat, c: seq<nat>, t: Tier)
    requires c in Combinations(|sols|, k)
    ensures IsCombo(c, 0, |sols|, k)
    ensures |FactoryFor(m, sols, c, t).planets| == k
    ensures forall a :: 0 <= a < k ==> FactoryFor(m, sols, c, t).planets[a] == sols[c[a]]
    ensures forall x :: x in UnionProducts(FactoryFor(m, sols, c, t).planets) <==> exists a :: 0 <= a < k && x in sols[c[a]].products
  {
    CombinationsShape(|sols|, k);
  }
}
