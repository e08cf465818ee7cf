/** The item catalog: item records with identity by id, production recipes,
    and the `ItemManager` with its reverse "used in" index. */
module Items {
  import opened Errors
  import opened Tiers
  import opened Ordering
  import opened Collections

  type Id = string

  newtype u16 = x: int | 0 <= x < 0x1_0000

  /** A recipe as it is read from the item file: output quantity and input id -> amount. */
  datatype RawProduction = RawProduction(quantity: u16, inputs: map<Id, u16>)

  /** An item as it is read from the item file; `id` is filled in from the map key. */
  datatype RawItem = RawItem(id: Id, name: string, tier: Tier, production: Option<RawProduction>, isP4Input: bool)

  /** A resolved recipe input: the input item itself, resolved through the catalog. */
  datatype Input = Input(item: Item, amount: u16)

  datatype Production = Production(quantity: u16, inputs: seq<Input>)

  datatype Item = Item(id: Id, name: string, tier: Tier, isP4Input: bool, production: Option<Production>)

  datatype ItemManager = ItemManager(items: map<Id, RawItem>, usedIn: map<Id, set<Id>>)

  // ---------------------------------------------------------------------------
  // Identity of items

  /** `PartialEq`/`Hash` for items: only the id takes part. */
  predicate SameItem(a: Item, b: Item) { a.id == b.id }

  /** `Ord` for items: the ids are compared. */
  function CompareItems(a: Item, b: Item): (r: Ordering)
    ensures r == Equal <==> SameItem(a, b)
  {
    Compare(a.id, b.id)
  }

  /** Items form a total order in which name, tier, flag and recipe play no part. */
  lemma ItemOrderIsById(a: Item, b: Item, c: Item)
    ensures CompareItems(a, b) == Less <==> CompareItems(b, a) == Greater
    ensures CompareItems(a, b) == Less && CompareItems(b, c) == Less ==> CompareItems(a, c) == Less
    ensures !SameItem(a, b) ==> CompareItems(a, b) == Less || CompareItems(b, a) == Less
    ensures SameItem(a, b) ==> CompareItems(a, c) == CompareItems(b, c) && SameItem(a, c) == SameItem(b, c)
  {
    CompareFlip(a.id, b.id);
    CompareIsTotalOrder(a.id, b.id, c.id);
  }

  // ---------------------------------------------------------------------------
  // Recipes

  function InputIds(inputs: seq<Input>): set<Id>
  {
    set i | i in inputs :: i.item.id
  }

  /** `Production::can_be_made_using`: every input of the recipe is available. */
  function CanBeMadeUsing(p: Production, available: set<Id>): (r: bool)
    ensures r <==> InputIds(p.inputs) <= available
    ensures p.inputs == [] ==> r
    decreases |p.inputs|
  {
    if p.inputs == [] then true
    else
      var rest := Production(p.quantity, p.inputs[1..]);
      assert InputIds(p.inputs) == {p.inputs[0].item.id} + InputIds(rest.inputs) by {
        assert p.inputs == [p.inputs[0]] + rest.inputs;
      }
      p.inputs[0].item.id in available && CanBeMadeUsing(rest, available)
  }

  // ---------------------------------------------------------------------------
  // The catalog

  /** Item `raw` lists `x` among its recipe inputs. */
  predicate Uses(raw: RawItem, x: Id)
  {
    raw.production.Some? && x in raw.production.value.inputs
  }

  /** The recipe input ids of catalog item `p` (empty when it has no recipe). */
  function Recipe(m: ItemManager, p: Id): set<Id>
    requires p in m.items
  {
    if m.items[p].production.Some? then m.items[p].production.value.inputs.Keys else {}
  }

  /** `usedIn` is the reverse index of `items`: an entry exists exactly for the ids
      some recipe uses, and lists exactly the items whose recipe uses that id. */
  ghost predicate IndexOf(usedIn: map<Id, set<Id>>, items: map<Id, RawItem>)
  {
    && NoEmptyEntries(usedIn)
    && (forall x, p :: x in usedIn && p in usedIn[x] <==> p in items && Uses(items[p], x))
  }

  /** Each catalog entry carries its own key as id (`item.id = id.clone()`). */
  ghost predicate KeyedById(m: ItemManager)
  {
    forall id :: id in m.items ==> m.items[id].id == id
  }

  /** What `ItemManager::new` establishes: each item's id is its key, and the
      used-in index lists exactly the consumers of every item that has one. */
  ghost predicate Valid(m: ItemManager)
  {
    && KeyedById(m)
    && IndexOf(m.usedIn, m.items)
  }

  /** Every recipe input of the catalog names a catalog item. */
  ghost predicate Closed(m: ItemManager)
  {
    forall p, x :: p in m.items && Uses(m.items[p], x) ==> x in m.items
  }

  /** The used-in index `usedIn` lists, for every input id, the items of `done`
      that use it, plus item `id` for the inputs in `added`, and nothing else.
      Between two items nothing is in progress: `added` is `{}`, so the `id`
      argument, written `""`, plays no part. */
  ghost predicate Indexes(usedIn: map<Id, set<Id>>, raw: map<Id, RawItem>, done: set<Id>, id: Id, added: set<Id>)
  {
    forall x, p :: x in usedIn && p in usedIn[x] <==> p in raw && ((p in done && Uses(raw[p], x)) || (p == id && x in added))
  }

  ghost predicate NoEmptyEntries(usedIn: map<Id, set<Id>>)
  {
    forall x :: x in usedIn ==> usedIn[x] != {}
  }

  /** Item records of `items` whose id field has been filled in: those in `done`. */
  ghost predicate IdsFilled(items: map<Id, RawItem>, raw: map<Id, RawItem>, done: set<Id>)
  {
    && items.Keys == raw.Keys
    && forall id :: id in raw ==> items[id] == if id in done then raw[id].(id := id) else raw[id]
  }

  lemma IdsFilledStep(items: map<Id, RawItem>, raw: map<Id, RawItem>, done: set<Id>, id: Id)
    requires id in raw && IdsFilled(items, raw, done)
    ensures IdsFilled(items[id := items[id].(id := id)], raw, done + {id})
  {
  }

  /** An item without a recipe adds nothing to the index. */
  lemma IndexesNoRecipe(usedIn: map<Id, set<Id>>, raw: map<Id, RawItem>, done: set<Id>, id: Id)
    requires id in raw && raw[id].production.None?
    requires Indexes(usedIn, raw, done, "", {})
    ensures Indexes(usedIn, raw, done + {id}, "", {})
  {
  }

  /** Once all inputs of `id` are recorded, `id` counts as done. */
  lemma IndexesRecipeDone(usedIn: map<Id, set<Id>>, raw: map<Id, RawItem>, done: set<Id>, id: Id)
    requires id in raw && raw[id].production.Some?
    requires Indexes(usedIn, raw, done, id, raw[id].production.value.inputs.Keys)
    ensures Indexes(usedIn, raw, done + {id}, "", {})
  {
  }

  /** One insertion `used_in.entry(x).or_default().insert(id)`. */
  lemma IndexesInsert(usedIn: map<Id, set<Id>>, raw: map<Id, RawItem>, done: set<Id>, id: Id, added: set<Id>, x: Id)
    requires id in raw
    requires Indexes(usedIn, raw, done, id, added)
    ensures Indexes(usedIn[x := (if x in usedIn then usedIn[x] else {}) + {id}], raw, done, id, added + {x})
  {
  }

  /** `ItemManager::new` after the file has been parsed into `raw`. */
  method NewItemManager(raw: map<Id, RawItem>) returns (m: ItemManager)
    ensures m.items.Keys == raw.Keys
    ensures forall id :: id in raw ==> m.items[id] == raw[id].(id := id)
    ensures IndexOf(m.usedIn, raw)
    ensures Valid(m)
  {
    var items := raw;
    var usedIn: map<Id, set<Id>> := map[];
    var todo := raw.Keys;
    while todo != {}
      invariant todo <= raw.Keys
      invariant IdsFilled(items, raw, raw.Keys - todo)
      invariant NoEmptyEntries(usedIn)
      invariant Indexes(usedIn, raw, raw.Keys - todo, "", {})
      decreases todo
    {
      var id :| id in todo;
      ghost var done := raw.Keys - todo;
      IdsFilledStep(items, raw, done, id);
      items := items[id := items[id].(id := id)];
      if items[id].production.Some? {
        usedIn := IndexRecipe(usedIn, raw, done, id);
      } else {
        IndexesNoRecipe(usedIn, raw, done, id);
      }
      todo := todo - {id};
      assert raw.Keys - todo == done + {id};
    }
    assert raw.Keys - todo == raw.Keys;
    IndexesAll(usedIn, raw);
    m := ItemManager(items, usedIn);
    ValidByConstruction(m, raw);
  }

  lemma IndexesAll(usedIn: map<Id, set<Id>>, raw: map<Id, RawItem>)
    requires NoEmptyEntries(usedIn)
    requires Indexes(usedIn, raw, raw.Keys, "", {})
    ensures IndexOf(usedIn, raw)
  {
    forall x, p ensures x in usedIn && p in usedIn[x] <==> p in raw && Uses(raw[p], x) {
      assert x !in {};
    }
  }

  lemma ValidByConstruction(m: ItemManager, raw: map<Id, RawItem>)
    requires m.items.Keys == raw.Keys
    requires forall id :: id in raw ==> m.items[id] == raw[id].(id := id)
    requires IndexOf(m.usedIn, raw)
    ensures Valid(m)
  {
    forall x, p ensures x in m.usedIn && p in m.usedIn[x] <==> p in m.items && Uses(m.items[p], x) {
      if p in raw {
        assert Uses(m.items[p], x) == Uses(raw[p], x);
      }
    }
  }

  /** The inner loop of `ItemManager::new`: records item `id` as a consumer of each of its inputs. */
  method IndexRecipe(usedIn: map<Id, set<Id>>, raw: map<Id, RawItem>, ghost done: set<Id>, id: Id)
    returns (index: map<Id, set<Id>>)
    requires id in raw && raw[id].production.Some?
    requires NoEmptyEntries(usedIn)
    requires Indexes(usedIn, raw, done, "", {})
    ensures NoEmptyEntries(index)
    ensures Indexes(index, raw, done + {id}, "", {})
  {
    index := usedIn;
    var recipe := raw[id].production.value.inputs.Keys;
    var inputs := recipe;
    while inputs != {}
      invariant inputs <= recipe
      invariant NoEmptyEntries(index)
      invariant Indexes(index, raw, done, id, recipe - inputs)
      decreases inputs
    {
      var x :| x in inputs;
      IndexesInsert(index, raw, done, id, recipe - inputs, x);
      var consumers := if x in index then index[x] else {};
      index := index[x := consumers + {id}];
      inputs := inputs - {x};
      assert recipe - inputs == (recipe - (inputs + {x})) + {x};
    }
    IndexesRecipeDone(index, raw, done, id);
  }

  // ---------------------------------------------------------------------------
  // Resolution (`get` and the `from_raw` constructors)

  /** `depth` layers the catalog: every known recipe input lies on a lower layer
      than the item that uses it. Exactly the catalogs without a recipe cycle have
      such a layering; on a cycle `get` would call itself without end. */
  ghost predicate Layered(m: ItemManager, depth: map<Id, nat>)
  {
    && m.items.Keys <= depth.Keys
    && forall p, x :: p in m.items && Uses(m.items[p], x) && x in m.items ==> depth[x] < depth[p]
  }

  /** The layer of `id`, one above its depth; 0 for an unknown id. */
  ghost function Height(m: ItemManager, depth: map<Id, nat>, id: Id): (h: nat)
    requires Layered(m, depth)
    ensures h == 0 <==> id !in m.items
  {
    if id in m.items then depth[id] + 1 else 0
  }

  /** `get(id)` succeeds: the id is known and, recursively, so is every input of its recipe. */
  ghost predicate Resolves(m: ItemManager, depth: map<Id, nat>, id: Id)
    requires Layered(m, depth)
    decreases Height(m, depth, id)
  {
    id in m.items && forall x :: Uses(m.items[id], x) ==> Resolves(m, depth, x)
  }

  /** `item` is what `get(item.id)` builds: the catalog entry's fields, with its
      recipe resolved input by input. */
  ghost predicate Resolved(m: ItemManager, item: Item)
    decreases item
  {
    && item.id in m.items
    && item.name == m.items[item.id].name
    && item.tier == m.items[item.id].tier
    && item.isP4Input == m.items[item.id].isP4Input
    && item.production.Some? == m.items[item.id].production.Some?
    && (item.production.Some? ==> ProductionResolved(m, m.items[item.id].production.value, item.production.value))
  }

  /** `p` is what `Production::from_raw` builds from `raw`: the same quantity and
      one resolved input per entry of the input map, with its amount. */
  ghost predicate ProductionResolved(m: ItemManager, raw: RawProduction, p: Production)
    decreases p
  {
    && p.quantity == raw.quantity
    && |p.inputs| == |raw.inputs|
    && InputIds(p.inputs) == raw.inputs.Keys
    && forall k :: 0 <= k < |p.inputs| ==> InputResolved(m, raw, p.inputs[k])
  }

  ghost predicate InputResolved(m: ItemManager, raw: RawProduction, input: Input)
    decreases input
  {
    && input.item.id in raw.inputs
    && input.amount == raw.inputs[input.item.id]
    && Resolved(m, input.item)
  }

  /** `Production::from_raw`: resolves each recipe input through `get`, failing with
      the first input whose resolution fails. */
  method ProductionFromRaw(m: ItemManager, ghost depth: map<Id, nat>, id: Id) returns (r: Result<Production>)
    requires KeyedById(m) && Layered(m, depth)
    requires id in m.items && m.items[id].production.Some?
    ensures r.Ok? <==> Resolves(m, depth, id)
    ensures r.Err? ==> Uses(m.items[id], r.error.id) && !Resolves(m, depth, r.error.id)
    ensures r.Ok? ==> ProductionResolved(m, m.items[id].production.value, r.value)
    decreases Height(m, depth, id), 0
  {
    var raw := m.items[id].production.value;
    var ids := Enumerate(raw.inputs.Keys);
    var inputs: seq<Input> := [];
    for k := 0 to |ids|
      invariant |inputs| == k
      invariant forall j :: 0 <= j < k ==> inputs[j].item.id == ids[j] && InputResolved(m, raw, inputs[j])
      invariant forall j :: 0 <= j < k ==> Resolves(m, depth, ids[j])
    {
      var item := Get(m, depth, ids[k]);
      if item.None? {
        return Err(MissingItem(ids[k]));
      }
      inputs := inputs + [Input(item.value, raw.inputs[ids[k]])];
    }
    InputsCover(raw, ids, inputs);
    assert |raw.inputs| == |raw.inputs.Keys|;
    return Ok(Production(raw.quantity, inputs));
  }

  lemma InputsCover(raw: RawProduction, ids: seq<Id>, inputs: seq<Input>)
    requires |ids| == |raw.inputs.Keys| && |inputs| == |ids|
    requires forall x :: x in ids <==> x in raw.inputs.Keys
    requires forall j :: 0 <= j < |ids| ==> inputs[j].item.id == ids[j]
    ensures InputIds(inputs) == raw.inputs.Keys
  {
    forall x | x in raw.inputs.Keys ensures x in InputIds(inputs) {
      var j :| 0 <= j < |ids| && ids[j] == x;
      assert inputs[j] in inputs;
    }
  }

  /** `Item::from_raw` for the catalog entry `id`: copies its fields and resolves its recipe, if any. */
  method ItemFromRaw(m: ItemManager, ghost depth: map<Id, nat>, id: Id) returns (r: Result<Item>)
    requires KeyedById(m) && Layered(m, depth)
    requires id in m.items
    ensures r.Ok? <==> Resolves(m, depth, id)
    ensures r.Err? ==> Uses(m.items[id], r.error.id) && !Resolves(m, depth, r.error.id)
    ensures r.Ok? ==> r.value.id == id && Resolved(m, r.value)
    decreases Height(m, depth, id), 1
  {
    var raw := m.items[id];
    var production: Option<Production> := None;
    if raw.production.Some? {
      var p := ProductionFromRaw(m, depth, id);
      if p.Err? {
        return Err(p.error);
      }
      production := Some(p.value);
    }
    return Ok(Item(raw.id, raw.name, raw.tier, raw.isP4Input, production));
  }

  /** `ItemManager::get`: `None` for an unknown id and for an item some input of
      whose recipe tree does not resolve. */
  method Get(m: ItemManager, ghost depth: map<Id, nat>, id: Id) returns (r: Option<Item>)
    requires KeyedById(m) && Layered(m, depth)
    ensures r.Some? <==> Resolves(m, depth, id)
    ensures r.Some? ==> r.value.id == id && Resolved(m, r.value)
    decreases Height(m, depth, id), 2
  {
    if id !in m.items {
      return None;
    }
    var item := ItemFromRaw(m, depth, id);
    if item.Err? {
      return None;
    }
    return Some(item.value);
  }

  /** In a closed catalog without recipe cycles every known item resolves. */
  lemma {:induction false} ClosedResolves(m: ItemManager, depth: map<Id, nat>, id: Id)
    requires Closed(m) && Layered(m, depth)
    requires id in m.items
    ensures Resolves(m, depth, id)
    decreases Height(m, depth, id)
  {
    forall x | Uses(m.items[id], x) ensures Resolves(m, depth, x) {
      ClosedResolves(m, depth, x);
    }
  }

  /** In a closed catalog without recipe cycles, `get_products` never meets a consumer that fails to resolve. */
  lemma ConsumersResolve(m: ItemManager, depth: map<Id, nat>, id: Id)
    requires Closed(m) && Layered(m, depth)
    ensures forall p :: p in m.items && Uses(m.items[p], id) ==> Resolves(m, depth, p)
  {
    forall p | p in m.items && Uses(m.items[p], id) ensures Resolves(m, depth, p) {
      ClosedResolves(m, depth, p);
    }
  }

  /** `item` is the resolved catalog entry of a consumer: an item with a recipe. */
  ghost predicate ResolvedConsumer(m: ItemManager, item: Item)
  {
    && Resolved(m, item)
    && item.production.Some?
  }

  method GetConsumer(m: ItemManager, ghost depth: map<Id, nat>, p: Id) returns (item: Item)
    requires KeyedById(m) && Layered(m, depth)
    requires Resolves(m, depth, p) && m.items[p].production.Some?
    ensures item.id == p && ResolvedConsumer(m, item)
  {
    var found := Get(m, depth, p);
    item := found.value;
  }

  /** Every item listed under `id` in a valid catalog is a consumer with a recipe. */
  lemma ListedConsumer(m: ItemManager, depth: map<Id, nat>, id: Id, p: Id)
    requires Valid(m) && Layered(m, depth)
    requires forall q :: q in m.items && Uses(m.items[q], id) ==> Resolves(m, depth, q)
    requires id in m.usedIn && p in m.usedIn[id]
    ensures Resolves(m, depth, p) && m.items[p].production.Some?
  {
  }

  /** `ItemManager::get_products`: the resolved consumers of `id`, or `None` when
      nothing uses it. Each consumer must resolve (the source unwraps `get`). */
  method GetProducts(m: ItemManager, ghost depth: map<Id, nat>, id: Id) returns (r: Option<seq<Item>>)
    requires Valid(m) && Layered(m, depth)
    requires forall p :: p in m.items && Uses(m.items[p], id) ==> Resolves(m, depth, p)
    ensures r.None? <==> id !in m.usedIn
    ensures r.Some? ==> |r.value| == |m.usedIn[id]|
    ensures r.Some? ==> forall k :: 0 <= k < |r.value| ==> r.value[k].id in m.usedIn[id] && ResolvedConsumer(m, r.value[k])
    ensures r.Some? ==> forall p :: p in m.usedIn[id] ==> exists k :: 0 <= k < |r.value| && r.value[k].id == p
  {
    if id !in m.usedIn {
      return None;
    }
    var ids := Enumerate(m.usedIn[id]);
    var products: seq<Item> := [];
    for k := 0 to |ids|
      invariant |products| == k
      invariant forall j :: 0 <= j < k ==> products[j].id == ids[j] && ResolvedConsumer(m, products[j])
    {
      ListedConsumer(m, depth, id, ids[k]);
      var product := GetConsumer(m, depth, ids[k]);
      products := products + [product];
    }
    assert forall p :: p in m.usedIn[id] ==> exists k :: 0 <= k < |ids| && ids[k] == p;
    return Some(products);
  }
}
