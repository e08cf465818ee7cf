# eve-pi planetary production solver, modelled in Dafny

eve-pi works out what an EVE Online planetary-interaction setup can produce. An item catalog lists every item with its tier and, optionally, a production recipe. The tiers run R0 (raw resource), P1, P2, P3, P4. A star system lists its planets, and each planet has raw resources at some density.

For every planet the solver runs production cycles on the planet's resources up to a tier ceiling, until a cycle adds nothing new. With the factory planet on, it then takes every combination of `max_planets` planet solutions. It pools their products and runs the cycles again up to the factory ceiling. The command line front end selects planets by name and prints the products of each solution, ordered by tier.

The model covers:

- **The catalog** (`items.dfy`, module `Items`):
  - item identity by id;
  - `can_be_made_using`;
  - the construction of the reverse "used in" index;
  - resolution of an item and, recursively, its recipe inputs (`get`, `Item::from_raw`, `Production::from_raw`);
  - `get_products`.
- **Systems** (`systems.dfy`, module `Systems`):
  - `Planet::from_raw`;
  - the all-or-nothing loading of a system's planets;
  - `collect_resources`;
  - planet identity by label.
- **The solver** (`solver.dfy`, module `Solvers`):
  - the builder defaults;
  - one production cycle (`solve_cycle`);
  - the cycle loop (`solve_cycles`);
  - the driver (`solve`).

  `solve_cycle`, `solve_cycles` and `solve` are imperative methods, each proved against a specification function. `Build`, the builder defaults, is a pure function; its `ensures` give every field of the solver it returns.
- **The reference definitions** (`closure.dfy`, module `Closures`):
  - `Cycle` is what one cycle yields.
  - `Closure` is what `solve_cycles` computes.
  - `FullClosure` is the closure `solve_cycles` was evidently meant to compute (see Findings).
- **`combinations`** (`combinatorics.dfy`, module `Combinatorics`): the k-combinations the driver iterates over, with their count, shape, completeness and lexicographic order.
- **The front end** (`listing.dfy`, module `Listing`):
  - the planet include-filter;
  - the factory product filter, sort and reverse;
  - the choice between factory and planet output.

  Printing is replaced by returning the blocks that would be printed.
- **Support modules:**
  - `tiers.dfy` (`Tiers`): the tier order.
  - `ordering.dfy` (`Ordering`): string comparison as `Ord` on `str` does it.
  - `collections.dfy` (`Collections`): iteration over a hash set or map, in an order the model leaves open.
  - `errors.dfy` (`Errors`): `Option`, `Result` and the missing-item error.

Items are identified by their id throughout. Every `HashSet<Item>` of the source is a `set<Id>`, because `Item` equality and hashing look at the id alone. A tier or recipe is read from the catalog when it is needed.

## Model

| member | source | states |
|---|---|---|
| Tiers.Rank | src/main.rs:87-95 | R0 is the lowest rank and P4 the highest |
| Tiers.TierOrderIsTotal | src/main.rs:87-95 | the derived order is total, antisymmetric and transitive, with R0 < P1 < P2 < P3 < P4 |
| Ordering.Compare | src/item.rs:41-45 | string comparison gives Equal exactly when the strings are equal |
| Ordering.CompareIsTotalOrder | src/item.rs:41-45 | string comparison is a strict total order: asymmetric, total on distinct strings, and transitive |
| Items.CompareItems | src/item.rs:35-45 | item comparison gives Equal exactly when the ids are equal |
| Items.ItemOrderIsById | src/item.rs:21-45 | item order is a total order decided by id alone; items with equal ids compare alike against every third item |
| Items.CanBeMadeUsing | src/item.rs:111-115 | true exactly when every input id of the recipe is in the available set; a recipe without inputs can always be made |
| Items.NewItemManager | src/item.rs:134-164 | every entry gets its key as id and nothing else changes; the used-in index has an entry exactly for the ids some recipe uses, and that entry lists exactly the items whose recipe uses the id |
| Items.IndexRecipe | src/item.rs:144-151 | recording one item adds it under each of its recipe inputs and changes nothing else in the index |
| Items.ProductionFromRaw | src/item.rs:88-109 | succeeds exactly when every input resolves; on success it has the quantity and one resolved input per map entry with its amount; on failure it names an input of the recipe that does not resolve |
| Items.ItemFromRaw | src/item.rs:47-60 | succeeds exactly when the recipe tree resolves; copies id, label, tier and flag, and resolves the recipe when there is one |
| Items.Get | src/item.rs:166-176 | `Some` exactly when the id is known and its whole recipe tree resolves, and then the catalog entry with that id, fully resolved |
| Items.ClosedResolves | src/item.rs:166-176 | in a catalog whose recipe inputs are all known and that has no recipe cycle, every known id resolves |
| Items.GetConsumer | src/item.rs:183 | the `get(id).unwrap()` of a listed consumer yields the item with that id and its resolved recipe |
| Items.GetProducts | src/item.rs:178-184 | `None` exactly when nothing uses the id; otherwise one resolved consumer for each item listed under the id, and no others |
| Systems.PlanetFromRaw | src/system.rs:72-90 | succeeds exactly when every resource id resolves; keeps the label and one resolved resource per entry with its density; on failure it names a resource that does not resolve |
| Systems.NewSystem | src/system.rs:18-31 | succeeds exactly when every planet loads; keeps the label and the planets in order; on failure the error comes from the first planet that fails |
| Systems.CollectResources | src/system.rs:92-94 | the set of ids of the planet's resource items, with no more ids than there are resources |
| Systems.ComparePlanets | src/system.rs:103-115 | planet comparison gives Equal exactly when the labels are equal |
| Systems.PlanetOrderIsByName | src/system.rs:97-121 | planet order is a total order decided by label alone |
| Combinatorics.CombinationsCount | src/solver.rs:106-112 | there are C(n, k) combinations: none when k > n, and just the empty one when k = 0 |
| Combinatorics.CombinationsShape | src/solver.rs:106-112 | every combination is a strictly increasing sequence of k indices below n |
| Combinatorics.CombinationsComplete | src/solver.rs:106-112 | every strictly increasing sequence of k indices below n is a combination |
| Combinatorics.CombinationsOrder | src/solver.rs:106-112 | the combinations come in strictly increasing lexicographic order, so none repeats |
| Closures.Step | src/solver.rs:142-148 | what one pass of the cycle loop inserts is made of catalog items |
| Closures.CycleMonotone | src/solver.rs:160-190 | a cycle yields no fewer items from more inputs or under a higher tier ceiling |
| Closures.StepEmpty | src/solver.rs:168-186 | a cycle over no inputs yields nothing |
| Closures.ClosureBounds | src/solver.rs:130-158 | every product is a catalog item with a recipe and R0 < tier <= the ceiling |
| Closures.ClosureFixpoint | src/solver.rs:137-155 | the products hold the first cycle's output, and one more cycle over the products adds nothing |
| Closures.ClosureLeast | src/solver.rs:137-155 | the products are the least set with those two properties |
| Closures.ClosureSound | src/solver.rs:137-155 | each product's recipe inputs are all initial inputs, or all products |
| Closures.ClosureMonotoneInTier | src/solver.rs:130-158 | raising the tier ceiling never loses a product |
| Closures.ClosureMonotoneInInputs | src/solver.rs:130-158 | more initial inputs never lose a product |
| Closures.ClosureEmpty | src/solver.rs:130-158 | no initial inputs give no products |
| Closures.FullClosureIsLeastFixpoint | src/solver.rs:137-154 | the corrected closure is the least product set that a cycle over the initial inputs and the products does not enlarge |
| Closures.FullClosureIdempotent | src/solver.rs:137-154 | feeding the corrected closure's products back in as inputs gives the same products |
| Closures.ClosureWithinFullClosure | src/solver.rs:137-154 | the loop as written never finds more than the corrected one |
| Closures.ClosureNotIdempotent | src/solver.rs:137-154 | for a catalog with a P4 recipe that mixes a P3 and a P1, the loop as written misses the P4 from the P1 items; run again on its own output it finds the P4, and so does the corrected closure |
| Solvers.WrappingDecrement | src/solver.rs:55 | `x - 1` modulo 2^64, so 0 becomes `usize::MAX` |
| Solvers.Build | src/solver.rs:50-72 | the factory is used unless switched off; factory ceiling P4 by default; production ceiling as set, otherwise P1 with the factory and P4 without; the planet count defaults to 6 and is one less (modulo 2^64) with the factory |
| Solvers.BuildDefaults | src/solver.rs:50-72 | with nothing set: production P1, factory P4, factory on, 5 planets |
| Solvers.BuildWithoutFactory | src/solver.rs:50-72 | without the factory: production P4, 6 planets by default, and a given planet count passes through unchanged |
| Solvers.BuildUnderflow | src/solver.rs:53-58 | `max_planets(0)` with the factory on gives `usize::MAX` planets |
| Solvers.ConsumerFacts | src/solver.rs:169-180 | for a listed consumer, the tier test and `can_be_made_using` together decide exactly whether the cycle can produce it |
| Solvers.CheckConsumer | src/solver.rs:170-185 | keeps the consumer exactly when the cycle can produce it; adds at most that consumer, and nothing the cycle cannot produce |
| Solvers.CheckConsumers | src/solver.rs:169-186 | afterwards, every consumer of the input that the cycle can produce is an output; everything added is a catalog item whose recipe uses the input, and is produced by the cycle |
| Solvers.SolveCycle | src/solver.rs:160-190 | the outputs are exactly the cycle over the inputs |
| Solvers.CycleIsExact | src/solver.rs:160-190 | an item is a cycle output exactly when it has a recipe that uses some input, all of its recipe inputs are available, and its tier is at most the ceiling |
| Solvers.InsertOutputs | src/solver.rs:140-148 | the products gain exactly the outputs with R0 < tier <= ceiling, and the count is the number of new ones |
| Solvers.SolveCycles | src/solver.rs:130-158 | the products are exactly the closure as written, after at most one cycle per catalog item plus one |
| Solvers.SolveCyclesCorrected | src/solver.rs:130-158 | the loop with later cycles over the initial inputs and the products computes exactly the corrected closure |
| Solvers.Pick | src/solver.rs:107-111 | for valid indices, the picked solutions are the solutions at those indices, in order |
| Solvers.UnionProducts | src/solver.rs:113-116 | an id is in the union exactly when some of the solutions has it among its products |
| Solvers.SolvePlanets | src/solver.rs:94-104 | one solution per planet, in order, holding the closure of the planet's resources under the production ceiling |
| Solvers.SolveFactories | src/solver.rs:106-125 | one factory solution per combination, in combination order, holding the closure of the pooled products under the factory ceiling |
| Solvers.Solve | src/solver.rs:88-128 | the planet solutions as above; no factory solutions without the factory; with it, C(n, max_planets) factory solutions, one per combination |
| Solvers.FactoryInputs | src/solver.rs:106-117 | a factory solution has max_planets planet solutions at strictly increasing indices, and its inputs are exactly their pooled products |
| Listing.KeepListed | src/main.rs:26-30 | keeps exactly the planets whose label is listed |
| Listing.SelectPlanets | src/main.rs:23-31 | all planets when none is named; otherwise exactly the named ones |
| Listing.KeepListedAppend | src/main.rs:26-30 | the filter keeps the original order: filtering a concatenation concatenates the filtered parts |
| Listing.SortByTier | src/main.rs:49 | the result is in non-decreasing tier order and is a permutation of the input |
| Listing.Reverse | src/main.rs:50 | the input backwards, with the same elements |
| Listing.AtLeast | src/main.rs:48 | keeps each product with tier at least the floor as often as it occurs, and no other |
| Listing.MinTier | src/main.rs:42 | the given minimum tier, or, when none is given, a tier no tier is below |
| Listing.ListFactoryProducts | src/main.rs:45-51 | non-increasing tiers, all at least the floor, and exactly the products at or above the floor, each as often as it occurs |
| Listing.SecondFilterKeepsAll | src/main.rs:62-65 | the tier check inside the printing loop never skips a product |
| Listing.ListPlanetProducts | src/main.rs:76 | all the solution's products, in non-decreasing tier order |
| Listing.NothingListed | src/main.rs:53-55 | an empty listing means that no product of the solution reaches the floor |
| Listing.FactoryBlockFor | src/main.rs:44-60 | no block exactly when no product reaches the floor; otherwise a block with the solution's planet labels and a non-empty listing of its products at or above the floor, each once, highest tier first |
| Listing.FactoryReport | src/main.rs:44-71 | one block per factory solution with a product at or above the floor, in solution order, and none for the others |
| Listing.PlanetBlockFor | src/main.rs:73-81 | the planet's label and all the solution's products, each once, lowest tier first |
| Listing.PlanetReport | src/main.rs:73-82 | one block per planet solution, in order |
| Listing.Report | src/main.rs:41-82 | factory blocks when there are factory solutions; planet blocks, one per planet solution, only when there are none |

## Left out

- Reading and parsing the YAML item and system files, the command line (`Cli::parse`), `env_logger` and the `trace!`/`debug!`/`warn!` logging. These are I/O. The model starts from the parsed maps (`RawItem`, `RawPlanet`, `RawSystem`), and the file and parse errors of `error.rs` are not modelled.
- `Display` implementations and `println!`. These are presentation only. The front end returns the blocks it would print.
- The `Display` of `Solution` (src/solver.rs:210-224) skips R0 products. The front end does not use it.
- Hash-map and hash-set iteration order is left open. `Collections.Enumerate` returns the elements in an order the caller cannot rely on. The results are therefore stated as sets, or stated for every possible order.
- Resource density is an `f32`. It is carried as a `real` and never computed with.
- The `label` of an item and the `label` of a planet are both called `name`, because `label` is a Dafny keyword.
- The `Cycle` record becomes its `outputs` set. `iter_planets` becomes the planet sequence itself. The builder setters are datatype updates, with no contract of their own.
- A `Solution` holds the `Planet` rather than a reference to it. Sharing is not modelled.
- `get`, `Item::from_raw` and `Production::from_raw` take a ghost layering `depth` that shows the catalog has no recipe cycle (`Items.Layered`). On a cyclic catalog the source recurses without end, and the model does not cover it.
- Solvers.SolveCycles, Solvers.SolveCycle, Solvers.Solve: they require a closed catalog (`Items.Closed`: every recipe input names a catalog item). This is stronger than the source needs. The source only needs every consumer of an input to resolve, because `get_products` unwraps `get`. On a catalog where that fails the source panics.
- Solvers.Build: for `max_planets(0)` with the factory on, the subtraction is modelled with release-build wrap-around (0 becomes `usize::MAX`, for a 64-bit `usize`). A debug build panics on that subtraction instead. Either way the program does not finish: see the next line.
- Solvers.Solve, Solvers.SolveFactories: `combinations(k)` allocates its k indices before it yields anything. A k too large to allocate, `usize::MAX` included, makes the program panic or abort, and the model does not cover that. For such a k the model instead promises C(n, k) factory solutions, which is 0 for k > n.
- Listing.SortByTier: the order among items of equal tier is not stated. The sort is stable, but the input comes from hash-set iteration, whose order is already left open.
- Listing.Report and the other listing members need every product to be a catalog item (`KnownProducts`), because tiers are read from the catalog by id. The solver's products always are (`Closures.ClosureBounds`).

## Findings

| source | as written | input that shows it | evidently intended | confidence | as-written member | corrected member |
|---|---|---|---|---|---|---|
| src/solver.rs:154 | every cycle after the first runs on the products found so far, without the initial inputs, so a recipe that mixes an initial input with a product is never found; running the solver again on its own output finds more, so the result is not a closure | catalog: `chip` and `metal` (P1), `board` (P2) from `chip`, `unit` (P3) from `board`, `core` (P4) from `unit` and `metal`; initial inputs {chip, metal}, ceiling P4: the loop yields {board, unit} and never `core` | later cycles run on the initial inputs together with the products, so the result is idempotent | not executed | Closures.ClosureNotIdempotent | Closures.FullClosureIdempotent |

The driver (`Solvers.Solve`) keeps the loop as written, so that it states what the code computes. `Solvers.SolveCyclesCorrected` is the corrected loop, proved to compute `Closures.FullClosure`. `Closures.ClosureWithinFullClosure` shows that the corrected loop never finds less than the loop as written.
