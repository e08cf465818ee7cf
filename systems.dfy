/** Star systems: planets with their resolved resources, planet identity by
    name, and the all-or-nothing loading of a system's planets. */
module Systems {
  import opened Errors
  import opened Ordering
  import opened Collections
  import opened Items

  /** A planet resource: the resolved item and its density. The density is an
      `f32` that the core only carries along; it is kept here as a `real`. */
  datatype Resource = Resource(item: Item, density: real)

  /** A planet. Its `label` is called `name` here (`label` is a Dafny keyword). */
  datatype Planet = Planet(name: string, resources: seq<Resource>)

  /** A planet as it is read from the system file: resource id -> density. */
  datatype RawPlanet = RawPlanet(name: string, resources: map<Id, real>)

  datatype RawSystem = RawSystem(name: string, planets: seq<RawPlanet>)

  datatype System = System(name: string, planets: seq<Planet>)

  // ---------------------------------------------------------------------------
  // Loading

  /** Every resource of `raw` resolves through `get`. */
  ghost predicate ResourcesResolve(m: ItemManager, depth: map<Id, nat>, raw: RawPlanet)
    requires Layered(m, depth)
  {
    forall x :: x in raw.resources ==> Resolves(m, depth, x)
  }

  /** `p` is what `Planet::from_raw` builds from `raw`: the same name and one
      resolved resource per entry of the resource map, with its density. */
  ghost predicate PlanetResolved(m: ItemManager, raw: RawPlanet, p: Planet)
  {
    && p.name == raw.name
    && |p.resources| == |raw.resources|
    && (forall x :: x in raw.resources <==> HasResource(p, x))
    && forall k :: 0 <= k < |p.resources| ==> ResourceResolved(m, raw, p.resources[k])
  }

  ghost predicate ResourceResolved(m: ItemManager, raw: RawPlanet, r: Resource)
  {
    && r.item.id in raw.resources
    && r.density == raw.resources[r.item.id]
    && Resolved(m, r.item)
  }

  /** Some resource of `p` is the item `x`. */
  ghost predicate HasResource(p: Planet, x: Id)
  {
    exists k :: 0 <= k < |p.resources| && p.resources[k].item.id == x
  }

  /** `Planet::from_raw`: resolves every resource id, failing with the first one
      that does not resolve. */
  method PlanetFromRaw(m: ItemManager, ghost depth: map<Id, nat>, raw: RawPlanet) returns (r: Result<Planet>)
    requires KeyedById(m) && Layered(m, depth)
    ensures r.Ok? <==> ResourcesResolve(m, depth, raw)
    ensures r.Err? ==> r.error.id in raw.resources && !Resolves(m, depth, r.error.id)
    ensures r.Ok? ==> PlanetResolved(m, raw, r.value)
  {
    var ids := Enumerate(raw.resources.Keys);
    var resources: seq<Resource> := [];
    for k := 0 to |ids|
      invariant |resources| == k
      invariant forall j :: 0 <= j < k ==> resources[j].item.id == ids[j] && ResourceResolved(m, raw, resources[j])
      invariant forall j :: 0 <= j < k ==> Resolves(m, depth, ids[j])
    {
      var item := Get(m, depth, ids[k]);
      if item.None? {
        return Err(MissingItem(ids[k]));
      }
      resources := resources + [Resource(item.value, raw.resources[ids[k]])];
    }
    r := Ok(Planet(raw.name, resources));
    ResourcesCover(raw, ids, r.value);
  }

  lemma ResourcesCover(raw: RawPlanet, ids: seq<Id>, p: Planet)
    requires |ids| == |raw.resources.Keys| && |p.resources| == |ids|
    requires forall x :: x in ids <==> x in raw.resources.Keys
    requires forall j :: 0 <= j < |ids| ==> p.resources[j].item.id == ids[j]
    ensures |p.resources| == |raw.resources|
    ensures forall x :: x in raw.resources <==> HasResource(p, x)
  {
    assert |raw.resources| == |raw.resources.Keys|;
    forall x ensures x in raw.resources <==> HasResource(p, x) {
      if x in raw.resources {
        var j :| 0 <= j < |ids| && ids[j] == x;
        assert p.resources[j].item.id == x;
      }
    }
  }

  /** `System::new` after the file has been parsed into `raw`: all planets load,
      in order, or the first planet that fails decides the error. */
  method NewSystem(m: ItemManager, ghost depth: map<Id, nat>, raw: RawSystem) returns (r: Result<System>)
    requires KeyedById(m) && Layered(m, depth)
    ensures r.Ok? <==> forall i :: 0 <= i < |raw.planets| ==> ResourcesResolve(m, depth, raw.planets[i])
    ensures r.Ok? ==> r.value.name == raw.name && |r.value.planets| == |raw.planets|
    ensures r.Ok? ==> forall i :: 0 <= i < |raw.planets| ==> PlanetResolved(m, raw.planets[i], r.value.planets[i])
    ensures r.Err? ==> exists i :: 0 <= i < |raw.planets| && FirstFailure(m, depth, raw, i, r.error)
  {
    var planets: seq<Planet> := [];
    for i := 0 to |raw.planets|
      invariant |planets| == i
      invariant forall j :: 0 <= j < i ==> ResourcesResolve(m, depth, raw.planets[j])
      invariant forall j :: 0 <= j < i ==> PlanetResolved(m, raw.planets[j], planets[j])
    {
      var planet := PlanetFromRaw(m, depth, raw.planets[i]);
      if planet.Err? {
        assert FirstFailure(m, depth, raw, i, planet.error);
        return Err(planet.error);
      }
      planets := planets + [planet.value];
    }
    return Ok(System(raw.name, planets));
  }

  /** Planet `i` is the first whose resources do not all resolve, and `e` names one of them. */
  ghost predicate FirstFailure(m: ItemManager, depth: map<Id, nat>, raw: RawSystem, i: nat, e: Error)
    requires Layered(m, depth)
    requires i < |raw.planets|
  {
    && (forall j :: 0 <= j < i ==> ResourcesResolve(m, depth, raw.planets[j]))
    && e.id in raw.planets[i].resources
    && !Resolves(m, depth, e.id)
  }

  // ---------------------------------------------------------------------------
  // Resources and identity

  /** `Planet::collect_resources`: the set of the planet's resource items (item
      sets compare by id). */
  function CollectResources(p: Planet): (s: set<Id>)
    ensures forall x :: x in s <==> HasResource(p, x)
    ensures |s| <= |p.resources|
    decreases |p.resources|
  {
    if p.resources == [] then {}
    else
      var rest := Planet(p.name, p.resources[1..]);
      var s := {p.resources[0].item.id} + CollectResources(rest);
      assert forall x :: HasResource(p, x) <==> x == p.resources[0].item.id || HasResource(rest, x) by {
        forall x ensures HasResource(p, x) <==> x == p.resources[0].item.id || HasResource(rest, x) {
          if HasResource(rest, x) {
            var k :| 0 <= k < |rest.resources| && rest.resources[k].item.id == x;
            assert p.resources[k + 1].item.id == x;
          }
          if HasResource(p, x) && x != p.resources[0].item.id {
            var k :| 0 <= k < |p.resources| && p.resources[k].item.id == x;
            assert rest.resources[k - 1].item.id == x;
          }
        }
      }
      s
  }

  /** `PartialEq`/`Hash` for planets: only the name takes part. */
  predicate SamePlanet(a: Planet, b: Planet) { a.name == b.name }

  /** `Ord` for planets: the names are compared. */
  function ComparePlanets(a: Planet, b: Planet): (r: Ordering)
    ensures r == Equal <==> SamePlanet(a, b)
  {
    Compare(a.name, b.name)
  }

  /** Planets form a total order in which the resources play no part. */
  lemma PlanetOrderIsByName(a: Planet, b: Planet, c: Planet)
    ensures ComparePlanets(a, b) == Less <==> ComparePlanets(b, a) == Greater
    ensures ComparePlanets(a, b) == Less && ComparePlanets(b, c) == Less ==> ComparePlanets(a, c) == Less
    ensures !SamePlanet(a, b) ==> ComparePlanets(a, b) == Less || ComparePlanets(b, a) == Less
    ensures SamePlanet(a, b) ==> ComparePlanets(a, c) == ComparePlanets(b, c) && SamePlanet(a, c) == SamePlanet(b, c)
  {
    CompareFlip(a.name, b.name);
    CompareIsTotalOrder(a.name, b.name, c.name);
  }
}
