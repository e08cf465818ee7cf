/** What the command line front end makes of a simulation: the planet
    include-filter, and the product lists it prints, filtered by a minimum tier
    and ordered by tier. Printing itself is replaced by returning the lists. */
module Listing {
  import opened Errors
  import opened Tiers
  import opened Collections
  import opened Items
  import opened Systems
  import opened Solvers

  // ---------------------------------------------------------------------------
  // Planet selection

  /** The planets whose name is in `wanted`, in their original order. */
  function KeepListed(planets: seq<Planet>, wanted: seq<string>): (r: seq<Planet>)
    ensures forall p :: p in r <==> p in planets && p.name in wanted
    ensures |r| <= |planets|
  {
    if planets == [] then []
    else (if planets[0].name in wanted then [planets[0]] else []) + KeepListed(planets[1..], wanted)
  }

  /** The planet selection of the front end: all planets when no planet is
      named, otherwise exactly the named ones. */
  function SelectPlanets(planets: seq<Planet>, wanted: seq<string>): (r: seq<Planet>)
    ensures wanted == [] ==> r == planets
    ensures wanted != [] ==> forall p :: p in r <==> p in planets && p.name in wanted
  {
    if wanted == [] then planets else KeepListed(planets, wanted)
  }

  /** The selection keeps the original order: selecting from two runs of planets
      gives the selection from the first followed by that from the second. */
  lemma {:induction false} KeepListedAppend(a: seq<Planet>, b: seq<Planet>, wanted: seq<string>)
    ensures KeepListed(a + b, wanted) == KeepListed(a, wanted) + KeepListed(b, wanted)
    decreases |a|
  {
    if a == [] {
      assert a + b == b;
    } else {
      assert (a + b)[0] == a[0] && (a + b)[1..] == a[1..] + b;
      KeepListedAppend(a[1..], b, wanted);
    }
  }

  // ---------------------------------------------------------------------------
  // Ordering products by tier

  function TierOf(m: ItemManager, p: Id): Tier
    requires p in m.items
  {
    m.items[p].tier
  }

  ghost predicate Known(m: ItemManager, ps: seq<Id>)
  {
    forall i :: 0 <= i < |ps| ==> ps[i] in m.items
  }

  /** Non-decreasing tiers. */
  ghost predicate Ascending(m: ItemManager, ps: seq<Id>)
    requires Known(m, ps)
  {
    forall i, j :: 0 <= i < j < |ps| ==> Le(TierOf(m, ps[i]), TierOf(m, ps[j]))
  }

  /** Non-increasing tiers. */
  ghost predicate Descending(m: ItemManager, ps: seq<Id>)
    requires Known(m, ps)
  {
    forall i, j :: 0 <= i < j < |ps| ==> Le(TierOf(m, ps[j]), TierOf(m, ps[i]))
  }

  /** Inserts `x` before the first element whose tier is not below its own, so
      that items of equal tier keep their relative order. */
  function InsertByTier(m: ItemManager, x: Id, s: seq<Id>): (r: seq<Id>)
    requires x in m.items && Known(m, s) && Ascending(m, s)
    ensures Known(m, r) && Ascending(m, r)
    ensures multiset(r) == multiset(s) + multiset{x}
  {
    if s == [] || Le(TierOf(m, x), TierOf(m, s[0])) then [x] + s
    else
      var tail := InsertByTier(m, x, s[1..]);
      assert s == [s[0]] + s[1..];
      forall y | y in tail ensures Le(TierOf(m, s[0]), TierOf(m, y)) {
        assert y in multiset(tail);
        if y != x {
          var j :| 0 <= j < |s[1..]| && s[1..][j] == y;
          assert s[j + 1] == y;
        }
      }
      AscendingCons(m, s[0], tail);
      [s[0]] + tail
  }

  lemma AscendingCons(m: ItemManager, h: Id, t: seq<Id>)
    requires h in m.items && Known(m, t) && Ascending(m, t)
    requires forall y :: y in t ==> Le(TierOf(m, h), TierOf(m, y))
    ensures Known(m, [h] + t) && Ascending(m, [h] + t)
  {
    var r := [h] + t;
    forall i, j | 0 <= i < j < |r| ensures Le(TierOf(m, r[i]), TierOf(m, r[j])) {
      assert r[j] == t[j - 1];
      if i > 0 {
        assert r[i] == t[i - 1];
      }
    }
  }

  /** `sorted_by_key(|p| p.tier)`: a stable sort by tier. */
  function SortByTier(m: ItemManager, s: seq<Id>): (r: seq<Id>)
    requires Known(m, s)
    ensures Known(m, r) && Ascending(m, r)
    ensures multiset(r) == multiset(s)
  {
    if s == [] then []
    else
      assert s == [s[0]] + s[1..];
      InsertByTier(m, s[0], SortByTier(m, s[1..]))
  }

  /** `rev()`. */
  function Reverse(s: seq<Id>): (r: seq<Id>)
    ensures |r| == |s|
    ensures forall i :: 0 <= i < |s| ==> r[i] == s[|s| - 1 - i]
    ensures multiset(r) == multiset(s)
  {
    if s == [] then []
    else
      assert s == [s[0]] + s[1..];
      Reverse(s[1..]) + [s[0]]
  }

  /** The products whose tier is at least `minTier`, in their order. */
  function AtLeast(m: ItemManager, s: seq<Id>, minTier: Tier): (r: seq<Id>)
    requires Known(m, s)
    ensures Known(m, r)
    ensures forall p :: multiset(r)[p] == if p in m.items && Le(minTier, TierOf(m, p)) then multiset(s)[p] else 0
  {
    if s == [] then []
    else
      assert s == [s[0]] + s[1..];
      (if Le(minTier, TierOf(m, s[0])) then [s[0]] else []) + AtLeast(m, s[1..], minTier)
  }

  /** The tier floor of the factory listing: `factory_min_tier`, R0 when absent. */
  function MinTier(minTier: Option<Tier>): (t: Tier)
    ensures minTier.None? ==> forall u :: Le(t, u)
    ensures minTier.Some? ==> t == minTier.value
  {
    minTier.GetOr(R0)
  }

  /** The products of one factory solution as the front end lists them, given the
      order in which its product set is iterated: those with tier at least the
      floor, highest tier first. */
  function ListFactoryProducts(m: ItemManager, order: seq<Id>, minTier: Option<Tier>): (r: seq<Id>)
    requires Known(m, order)
    ensures Known(m, r) && Descending(m, r)
    ensures forall i :: 0 <= i < |r| ==> Le(MinTier(minTier), TierOf(m, r[i]))
    ensures forall p :: multiset(r)[p] == if p in m.items && Le(MinTier(minTier), TierOf(m, p)) then multiset(order)[p] else 0
  {
    var kept := AtLeast(m, order, MinTier(minTier));
    var sorted := SortByTier(m, kept);
    ReverseAscending(m, sorted);
    AboveFloor(m, kept, Reverse(sorted), MinTier(minTier));
    Reverse(sorted)
  }

  /** Reversing an ascending sequence gives a descending one. */
  lemma ReverseAscending(m: ItemManager, s: seq<Id>)
    requires Known(m, s) && Ascending(m, s)
    ensures Known(m, Reverse(s)) && Descending(m, Reverse(s))
  {
    var r := Reverse(s);
    forall i | 0 <= i < |r| ensures r[i] in m.items {
      assert r[i] == s[|s| - 1 - i];
    }
    forall i, j | 0 <= i < j < |r| ensures Le(TierOf(m, r[j]), TierOf(m, r[i])) {
      assert r[i] == s[|s| - 1 - i] && r[j] == s[|s| - 1 - j];
    }
  }

  /** A rearrangement of products at or above the floor stays at or above it. */
  lemma AboveFloor(m: ItemManager, kept: seq<Id>, r: seq<Id>, floor: Tier)
    requires Known(m, kept) && multiset(r) == multiset(kept)
    requires forall p :: multiset(kept)[p] == if p in m.items && Le(floor, TierOf(m, p)) then multiset(kept)[p] else 0
    ensures forall i :: 0 <= i < |r| ==> r[i] in m.items && Le(floor, TierOf(m, r[i]))
  {
    forall i | 0 <= i < |r| ensures r[i] in m.items && Le(floor, TierOf(m, r[i])) {
      assert r[i] in multiset(kept);
    }
  }

  /** The check that skips products below the floor while printing never skips
      anything: the listing already excludes them. */
  lemma SecondFilterKeepsAll(m: ItemManager, order: seq<Id>, minTier: Option<Tier>)
    requires Known(m, order)
    ensures AtLeast(m, ListFactoryProducts(m, order, minTier), MinTier(minTier)) == ListFactoryProducts(m, order, minTier)
  {
    AllAtLeast(m, ListFactoryProducts(m, order, minTier), MinTier(minTier));
  }

  lemma {:induction false} AllAtLeast(m: ItemManager, s: seq<Id>, minTier: Tier)
    requires Known(m, s)
    requires forall i :: 0 <= i < |s| ==> Le(minTier, TierOf(m, s[i]))
    ensures AtLeast(m, s, minTier) == s
  {
    if s != [] {
      AllAtLeast(m, s[1..], minTier);
    }
  }

  /** The products of one planet solution as listed: all of them, lowest tier first. */
  function ListPlanetProducts(m: ItemManager, order: seq<Id>): (r: seq<Id>)
    requires Known(m, order)
    ensures Known(m, r) && Ascending(m, r)
    ensures multiset(r) == multiset(order)
  {
    SortByTier(m, order)
  }

  // ---------------------------------------------------------------------------
  // The report

  /** One printed block: the planet labels it is about, then its products. */
  datatype Block = Block(planets: seq<string>, products: seq<Id>)

  function Names(sols: seq<Solution>): (r: seq<string>)
    ensures |r| == |sols|
    ensures forall i :: 0 <= i < |sols| ==> r[i] == sols[i].planet.name
  {
    seq(|sols|, i requires 0 <= i < |sols| => sols[i].planet.name)
  }

  /** Every product of the simulation is a catalog item. */
  ghost predicate KnownProducts(m: ItemManager, sim: Simulation)
  {
    && (forall i :: 0 <= i < |sim.planetSolutions| ==> sim.planetSolutions[i].products <= m.items.Keys)
    && (forall i :: 0 <= i < |sim.factorySolutions| ==> sim.factorySolutions[i].products <= m.items.Keys)
  }

  /** `b` lists the products of `s`, each once, from the highest tier down to
      the floor `minTier`. */
  ghost predicate FactoryBlock(m: ItemManager, s: FactorySolution, minTier: Tier, b: Block)
    requires s.products <= m.items.Keys
  {
    && b.planets == Names(s.planets)
    && Known(m, b.products) && Descending(m, b.products) && Distinct(b.products)
    && (forall p :: p in b.products <==> p in s.products && Le(minTier, TierOf(m, p)))
  }

  /** `b` lists the products of `s`, each once, from the lowest tier up. */
  ghost predicate PlanetBlock(m: ItemManager, s: Solution, b: Block)
    requires s.products <= m.items.Keys
  {
    && b.planets == [s.planet.name]
    && Known(m, b.products) && Ascending(m, b.products) && Distinct(b.products)
    && (forall p :: p in b.products <==> p in s.products)
  }

  /** Some product of `s` reaches the floor, so the front end prints a block for it. */
  ghost predicate Listed(m: ItemManager, s: FactorySolution, minTier: Tier)
    requires s.products <= m.items.Keys
  {
    exists p :: p in s.products && Le(minTier, TierOf(m, p))
  }

  /** `blocks` are the blocks of the factory solutions `from` lists, in order,
      and none of them is empty. */
  ghost predicate FactoryBlocks(m: ItemManager, sols: seq<FactorySolution>, minTier: Tier, blocks: seq<Block>, from: seq<nat>)
    requires forall i :: 0 <= i < |sols| ==> sols[i].products <= m.items.Keys
  {
    && |from| == |blocks|
    && (forall k, l :: 0 <= k < l < |from| ==> from[k] < from[l])
    && (forall k :: 0 <= k < |from| ==> from[k] < |sols|)
    && (forall k :: 0 <= k < |from| ==> blocks[k].products != [] && FactoryBlock(m, sols[from[k]], minTier, blocks[k]))
  }

  /** The factory part of the front end's output: one block per factory
      solution that has a product at or above the floor, in the order of the
      solutions; `from` tells which solution each block shows. */
  method FactoryReport(m: ItemManager, sols: seq<FactorySolution>, minTier: Option<Tier>)
    returns (blocks: seq<Block>, ghost from: seq<nat>)
    requires forall i :: 0 <= i < |sols| ==> sols[i].products <= m.items.Keys
    ensures FactoryBlocks(m, sols, MinTier(minTier), blocks, from)
    ensures forall i :: 0 <= i < |sols| ==> (i in from <==> Listed(m, sols[i], MinTier(minTier)))
    ensures |blocks| <= |sols|
  {
    blocks, from := [], [];
    ghost var floor := MinTier(minTier);
    for i := 0 to |sols|
      invariant ReportedUpTo(m, sols, floor, blocks, from, i)
    {
      var b := FactoryBlockFor(m, sols[i], minTier);
      if b.None? {
        SkipStep(m, sols, floor, blocks, from, i);
        continue;
      }
      BlockStep(m, sols, floor, blocks, from, i, b.value);
      blocks, from := blocks + [b.value], from + [i];
    }
  }

  /** The block printed for one factory solution, if any: `None` when no
      product reaches the floor, so the front end skips the solution. */
  method FactoryBlockFor(m: ItemManager, s: FactorySolution, minTier: Option<Tier>) returns (b: Option<Block>)
    requires s.products <= m.items.Keys
    ensures b.None? <==> !Listed(m, s, MinTier(minTier))
    ensures b.Some? ==> b.value.products != [] && FactoryBlock(m, s, MinTier(minTier), b.value)
  {
    var order := Enumerate(s.products);
    var products := ListFactoryProducts(m, order, minTier);
    if products == [] {
      NothingListed(m, s, minTier, order);
      return None;
    }
    var block := Block(Names(s.planets), products);
    FactoryBlockOf(m, s, minTier, order, block);
    assert Listed(m, s, MinTier(minTier)) by {
      assert products[0] in products;
    }
    return Some(block);
  }

  /** The loop state of `FactoryReport` after the first `i` solutions. */
  ghost predicate ReportedUpTo(m: ItemManager, sols: seq<FactorySolution>, floor: Tier, blocks: seq<Block>, from: seq<nat>, i: nat)
    requires forall i :: 0 <= i < |sols| ==> sols[i].products <= m.items.Keys
  {
    && i <= |sols|
    && FactoryBlocks(m, sols, floor, blocks, from)
    && (forall k :: 0 <= k < |from| ==> from[k] < i)
    && (forall j :: 0 <= j < i ==> (j in from <==> Listed(m, sols[j], floor)))
    && |blocks| <= i
  }

  lemma SkipStep(m: ItemManager, sols: seq<FactorySolution>, floor: Tier, blocks: seq<Block>, from: seq<nat>, i: nat)
    requires forall i :: 0 <= i < |sols| ==> sols[i].products <= m.items.Keys
    requires i < |sols| && ReportedUpTo(m, sols, floor, blocks, from, i)
    requires !Listed(m, sols[i], floor)
    ensures ReportedUpTo(m, sols, floor, blocks, from, i + 1)
  {
  }

  lemma BlockStep(m: ItemManager, sols: seq<FactorySolution>, floor: Tier, blocks: seq<Block>, from: seq<nat>, i: nat, b: Block)
    requires forall i :: 0 <= i < |sols| ==> sols[i].products <= m.items.Keys
    requires i < |sols| && ReportedUpTo(m, sols, floor, blocks, from, i)
    requires Listed(m, sols[i], floor)
    requires b.products != [] && FactoryBlock(m, sols[i], floor, b)
    ensures ReportedUpTo(m, sols, floor, blocks + [b], from + [i], i + 1)
  {
    var from', blocks' := from + [i], blocks + [b];
    forall k | 0 <= k < |from'| ensures blocks'[k].products != [] && FactoryBlock(m, sols[from'[k]], floor, blocks'[k]) {
      if k < |from| {
        assert blocks'[k] == blocks[k] && from'[k] == from[k];
      }
    }
  }

  /** The planet part of the front end's output: one block per planet solution, in order. */
  method PlanetReport(m: ItemManager, sols: seq<Solution>) returns (blocks: seq<Block>)
    requires forall i :: 0 <= i < |sols| ==> sols[i].products <= m.items.Keys
    ensures |blocks| == |sols|
    ensures forall i :: 0 <= i < |sols| ==> PlanetBlock(m, sols[i], blocks[i])
  {
    blocks := [];
    for i := 0 to |sols|
      invariant |blocks| == i
      invariant forall j :: 0 <= j < i ==> PlanetBlock(m, sols[j], blocks[j])
    {
      var b := PlanetBlockFor(m, sols[i]);
      blocks := blocks + [b];
    }
  }

  /** The block printed for one planet solution. */
  method PlanetBlockFor(m: ItemManager, s: Solution) returns (b: Block)
    requires s.products <= m.items.Keys
    ensures PlanetBlock(m, s, b)
  {
    var order := Enumerate(s.products);
    b := Block([s.planet.name], ListPlanetProducts(m, order));
    PlanetBlockOf(m, s, order, b);
  }

  /** The front end's output after solving: the factory blocks when there are
      factory solutions, and the planet blocks only when there are none. Set
      iteration order is left open, as it is for a hash set. */
  method Report(m: ItemManager, sim: Simulation, minTier: Option<Tier>) returns (blocks: seq<Block>, ghost from: seq<nat>)
    requires KnownProducts(m, sim)
    ensures sim.factorySolutions != [] ==> FactoryBlocks(m, sim.factorySolutions, MinTier(minTier), blocks, from)
    ensures sim.factorySolutions != [] ==>
      forall i :: 0 <= i < |sim.factorySolutions| ==> (i in from <==> Listed(m, sim.factorySolutions[i], MinTier(minTier)))
    ensures sim.factorySolutions == [] ==> |blocks| == |sim.planetSolutions|
    ensures sim.factorySolutions == [] ==> forall i :: 0 <= i < |blocks| ==> PlanetBlock(m, sim.planetSolutions[i], blocks[i])
  {
    if sim.factorySolutions != [] {
      blocks, from := FactoryReport(m, sim.factorySolutions, minTier);
    } else {
      blocks := PlanetReport(m, sim.planetSolutions);
      from := [];
    }
  }

  /** A sequence in which no element occurs twice is distinct. */
  lemma {:induction false} AtMostOnce(b: seq<Id>)
    requires forall x :: multiset(b)[x] <= 1
    ensures Distinct(b)
  {
    if b != [] {
      assert b == [b[0]] + b[1..];
      assert multiset(b) == multiset{b[0]} + multiset(b[1..]);
      assert multiset(b)[b[0]] == 1 + multiset(b[1..])[b[0]];
      forall x ensures multiset(b[1..])[x] <= 1 {
        assert multiset(b)[x] >= multiset(b[1..])[x];
      }
      AtMostOnce(b[1..]);
      forall j | 0 < j < |b| ensures b[0] != b[j] {
        assert b[j] == b[1..][j - 1];
        assert b[j] in multiset(b[1..]);
      }
    }
  }

  /** In a distinct sequence no element occurs twice. */
  lemma {:induction false} OccursOnce(a: seq<Id>)
    requires Distinct(a)
    ensures forall x :: multiset(a)[x] <= 1
  {
    if a != [] {
      assert a == [a[0]] + a[1..];
      assert multiset(a) == multiset{a[0]} + multiset(a[1..]);
      assert Distinct(a[1..]) by {
        forall i, j | 0 <= i < j < |a[1..]| ensures a[1..][i] != a[1..][j] {
          assert a[1..][i] == a[i + 1] && a[1..][j] == a[j + 1];
        }
      }
      OccursOnce(a[1..]);
      assert a[0] !in a[1..] by {
        forall j | 0 <= j < |a[1..]| ensures a[1..][j] != a[0] {
          assert a[1..][j] == a[j + 1];
        }
      }
    }
  }

  /** A sequence with the multiset of a distinct sequence is distinct. */
  lemma DistinctByMultiset(a: seq<Id>, b: seq<Id>)
    requires Distinct(a) && multiset(b) <= multiset(a)
    ensures Distinct(b)
  {
    OccursOnce(a);
    forall x ensures multiset(b)[x] <= 1 {
      assert multiset(b)[x] <= multiset(a)[x];
    }
    AtMostOnce(b);
  }

  lemma FactoryBlockOf(m: ItemManager, s: FactorySolution, minTier: Option<Tier>, order: seq<Id>, b: Block)
    requires s.products <= m.items.Keys
    requires Distinct(order) && forall x :: x in order <==> x in s.products
    requires Known(m, order)
    requires b == Block(Names(s.planets), ListFactoryProducts(m, order, minTier))
    ensures FactoryBlock(m, s, MinTier(minTier), b)
  {
    ListedMembers(m, order, minTier);
    DistinctByMultiset(order, b.products);
  }

  /** What the listing holds, element by element: the products of `order` at or
      above the floor, and no more often than in `order`. */
  lemma ListedMembers(m: ItemManager, order: seq<Id>, minTier: Option<Tier>)
    requires Known(m, order)
    ensures multiset(ListFactoryProducts(m, order, minTier)) <= multiset(order)
    ensures forall p :: p in ListFactoryProducts(m, order, minTier) <==> p in order && Le(MinTier(minTier), TierOf(m, p))
  {
    var r := ListFactoryProducts(m, order, minTier);
    forall p ensures p in r <==> p in order && Le(MinTier(minTier), TierOf(m, p)) {
      assert p in r <==> p in multiset(r);
      assert p in order <==> p in multiset(order);
    }
  }

  /** An empty listing means no product of the solution reaches the floor. */
  lemma NothingListed(m: ItemManager, s: FactorySolution, minTier: Option<Tier>, order: seq<Id>)
    requires s.products <= m.items.Keys
    requires forall x :: x in order <==> x in s.products
    requires Known(m, order)
    requires ListFactoryProducts(m, order, minTier) == []
    ensures !Listed(m, s, MinTier(minTier))
  {
  }

  lemma PlanetBlockOf(m: ItemManager, s: Solution, order: seq<Id>, b: Block)
    requires s.products <= m.items.Keys
    requires Distinct(order) && forall x :: x in order <==> x in s.products
    requires Known(m, order)
    requires b == Block([s.planet.name], ListPlanetProducts(m, order))
    ensures PlanetBlock(m, s, b)
  {
    DistinctByMultiset(order, b.products);
    forall p ensures p in b.products <==> p in s.products {
      assert p in b.products <==> p in multiset(b.products);
      assert p in order <==> p in multiset(order);
    }
  }
}
