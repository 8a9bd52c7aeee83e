/**
 * The drones store of src/store/drones.js as an object: the drone dictionary, the
 * UI-intent fields and the ingest switch, with the actions that replace them.
 */
module DroneStore {
  import opened Wrappers
  import opened Telemetry
  import opened Identity
  import opened Compliance
  import opened Tracks

  /** The filter modes in the order `cycleFilterMode` walks them. */
  const FilterOrder: seq<string> := ["red", "green", "all"]

  /** `order.indexOf(mode)`: the position of `mode`, or -1 when it is none of them. */
  function ModeIndex(mode: string): (i: int)
    ensures -1 <= i < |FilterOrder|
    ensures i >= 0 ==> FilterOrder[i] == mode
    ensures i == -1 ==> mode !in FilterOrder
  {
    if mode == "red" then 0 else if mode == "green" then 1 else if mode == "all" then 2 else -1
  }

  /** The mode after `cycleFilterMode`: red, green, all, red again; an unknown mode goes to red. */
  function NextFilterMode(mode: string): (next: string)
    ensures next in FilterOrder
    ensures mode == "red" ==> next == "green"
    ensures mode == "green" ==> next == "all"
    ensures mode == "all" ==> next == "red"
    ensures mode !in FilterOrder ==> next == "red"
  {
    FilterOrder[(ModeIndex(mode) + 1) % |FilterOrder|]
  }

  /** Three steps of the cycle return every known mode to itself. */
  lemma FilterCycleReturns(mode: string)
    requires mode in FilterOrder
    ensures NextFilterMode(NextFilterMode(NextFilterMode(mode))) == mode
  {
  }

  /** The keys of the drones `getCounters` counts as red: those whose registration is not allowed. */
  function BlockedKeys(r: Registry): set<string> {
    set k | k in r.byKey && !IsAllowed(r.byKey[k].registration)
  }

  /** The keys among `keys` whose drone is red. */
  function BlockedAmong(r: Registry, keys: seq<string>): set<string> {
    set k | k in keys && k in r.byKey && !IsAllowed(r.byKey[k].registration)
  }

  /** The body of the loop of `upsertFromFeatureCollection` for one feature `f`. */
  method ApplyFeatureStep(next: Registry, f: Feature, now: int, geo: Geo, freshId: string) returns (next': Registry)
    ensures next' == ApplyFeature(next, f, now, geo, freshId)
  {
    var serialKey := StableId(f.properties);
    if serialKey == "" && f.geometry.Coords? && IsPair(f.geometry.coords) {
      serialKey := QuantisedKey(f.geometry.coords[0], f.geometry.coords[1], geo.toFixed3);
    }
    if serialKey == "" {
      serialKey := FindNearestDroneId(f.geometry, next, NearestRadius, geo);
    }
    if serialKey == "" {
      return next;
    }
    if serialKey in next.byKey {
      var prev := next.byKey[serialKey];
      next' := Put(next, serialKey, Merge(prev, f, serialKey, now));
    } else {
      var d := MakeDrone(f, serialKey, freshId, now);
      next' := Put(next, d.serial, d);
    }
  }

  /** Counting one more key adds it to the red set exactly when its drone is red. */
  lemma BlockedAmongSnoc(r: Registry, keys: seq<string>, k: string)
    ensures BlockedAmong(r, keys + [k]) ==
      BlockedAmong(r, keys) + (if k in r.byKey && !IsAllowed(r.byKey[k].registration) then {k} else {})
  {
  }

  class Store {
    var drones: Registry
    var selectedId: Option<string>
    var selectedAt: int
    var hoveredId: Option<string>
    var filterMode: string
    var ingestEnabled: bool

    /** The dictionary is always well formed. */
    ghost predicate Valid()
      reads this
    {
      WellFormed(drones)
    }

    /** The initial state: no drones, nothing selected, filter "all", ingest off. */
    constructor ()
      ensures Valid()
      ensures drones == Empty
      ensures selectedId == None && selectedAt == 0 && hoveredId == None
      ensures filterMode == "all" && !ingestEnabled
    {
      drones := Empty;
      selectedId := None;
      selectedAt := 0;
      hoveredId := None;
      filterMode := "all";
      ingestEnabled := false;
    }

    /**
     * `upsertFromFeatureCollection`: with ingest on and a `features` array, every feature is
     * resolved and merged into a working copy of the dictionary, which then replaces it;
     * otherwise nothing changes. `now` is `Date.now()`, `freshId` stands for `nanoid()`.
     */
    method UpsertFromFeatureCollection(fc: Payload, now: int, geo: Geo, freshId: string)
      requires Valid()
      modifies this`drones
      ensures Valid()
      ensures !old(ingestEnabled) || fc.NotACollection? ==> drones == old(drones)
      ensures old(ingestEnabled) && fc.Collection? ==>
        drones == ApplyAll(old(drones), fc.features, now, geo, freshId)
    {
      if !ingestEnabled || fc.NotACollection? {
        return;
      }
      var fs := fc.features;
      var start := drones;
      var next := start;
      for i := 0 to |fs|
        invariant next == ApplyAll(start, fs[..i], now, geo, freshId)
      {
        assert fs[..i + 1][..i] == fs[..i];
        next := ApplyFeatureStep(next, fs[i], now, geo, freshId);
      }
      assert fs[..|fs|] == fs;
      ApplyAllWellFormed(start, fs, now, geo, freshId);
      drones := next;
    }

    /** `select(id)`: the selection and the time it was made. */
    method Select(id: Option<string>, now: int)
      modifies this`selectedId, this`selectedAt
      ensures selectedId == id && selectedAt == now
    {
      selectedId, selectedAt := id, now;
    }

    /** `hover(id)`. */
    method Hover(id: Option<string>)
      modifies this`hoveredId
      ensures hoveredId == id
    {
      hoveredId := id;
    }

    /** `clearUI()`: selection and hover cleared; filter mode and everything else kept. */
    method ClearUI()
      modifies this`selectedId, this`hoveredId
      ensures selectedId == None && hoveredId == None
    {
      selectedId, hoveredId := None, None;
    }

    /** `setFilterMode(mode)`: any value is accepted. */
    method SetFilterMode(mode: string)
      modifies this`filterMode
      ensures filterMode == mode
    {
      filterMode := mode;
    }

    /** `enableIngest()`. */
    method EnableIngest()
      modifies this`ingestEnabled
      ensures ingestEnabled
    {
      ingestEnabled := true;
    }

    /** `disableIngest()`. */
    method DisableIngest()
      modifies this`ingestEnabled
      ensures !ingestEnabled
    {
      ingestEnabled := false;
    }

    /** `cycleFilterMode()`. */
    method CycleFilterMode()
      modifies this`filterMode
      ensures filterMode == NextFilterMode(old(filterMode))
    {
      var idx := ModeIndex(filterMode);
      filterMode := FilterOrder[(idx + 1) % |FilterOrder|];
    }

    /**
     * `getCounters()`: `total` drones, `red` of them not allowed, `green` the rest
     * (`Math.max(0, total - red)`, which never clips since red <= total).
     */
    method GetCounters() returns (red: nat, green: nat, total: nat)
      requires Valid()
      ensures total == |drones.byKey|
      ensures red == |BlockedKeys(drones)|
      ensures red <= total && green == total - red
    {
      var all := drones.order;
      red := 0;
      for i := 0 to |all|
        invariant red == |BlockedAmong(drones, all[..i])|
        invariant red <= i
      {
        var k := all[i];
        assert all[..i + 1] == all[..i] + [k];
        BlockedAmongSnoc(drones, all[..i], k);
        assert k !in all[..i];
        if !IsAllowed(drones.byKey[k].registration) {
          red := red + 1;
        }
      }
      assert all[..|all|] == all;
      assert BlockedAmong(drones, all) == BlockedKeys(drones);
      total := |all|;
      CountIsOrderLength(drones);
      green := if total - red > 0 then total - red else 0;
    }
  }
}
