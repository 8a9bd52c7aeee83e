/**
 * Identity resolution of src/store/drones.js: the ordered list of identity properties,
 * the quantised-coordinate key and the nearest-neighbour fallback.
 */
module Identity {
  import opened Wrappers
  import opened Telemetry

  /**
   * The two floating-point pieces the resolver depends on, left uninterpreted:
   * `Number(x).toFixed(3)` and the haversine distance in metres.
   */
  datatype Geo = Geo(toFixed3: int -> string, haversine: (Coord, Coord) -> real)

  /** The radius, in metres, within which the nearest known drone is reused. */
  const NearestRadius: real := 800.0

  /** The identity properties, in the order they are consulted. */
  function IdentityFields(p: Props): seq<string> {
    [p.registration, p.serial, p.Registration, p.Name, p.name, p.id, p.droneId]
  }

  /** `getStableId`: the first non-empty identity property, or "" (null) when all are empty. */
  function StableId(p: Props): (id: string)
    ensures id == "" <==> forall i :: 0 <= i < |IdentityFields(p)| ==> IdentityFields(p)[i] == ""
    ensures forall i ::
      (0 <= i < |IdentityFields(p)| && IdentityFields(p)[i] != "" &&
       (forall j :: 0 <= j < i ==> IdentityFields(p)[j] == "")) ==> id == IdentityFields(p)[i]
  {
    var fields := IdentityFields(p);
    assert fields[0] == p.registration && fields[1] == p.serial && fields[2] == p.Registration;
    assert fields[3] == p.Name && fields[4] == p.name && fields[5] == p.id && fields[6] == p.droneId;
    if p.registration != "" then p.registration
    else if p.serial != "" then p.serial
    else if p.Registration != "" then p.Registration
    else if p.Name != "" then p.Name
    else if p.name != "" then p.name
    else if p.id != "" then p.id
    else if p.droneId != "" then p.droneId
    else ""
  }

  /** The key `${lng.toFixed(3)},${lat.toFixed(3)}`; it always holds the comma, so it is never empty. */
  function QuantisedKey(lng: int, lat: int, toFixed3: int -> string): (key: string)
    ensures |key| > 0 && ',' in key
  {
    assert (toFixed3(lng) + "," + toFixed3(lat))[|toFixed3(lng)|] == ',';
    toFixed3(lng) + "," + toFixed3(lat)
  }

  /**
   * Two positions share a coordinate key exactly when both of their coordinates round to
   * the same three-decimal text (the formatted numbers never contain a comma).
   */
  lemma QuantisedKeySameSpot(a: int, b: int, c: int, d: int, toFixed3: int -> string)
    requires forall x :: ',' !in toFixed3(x)
    ensures QuantisedKey(a, b, toFixed3) == QuantisedKey(c, d, toFixed3) <==>
      toFixed3(a) == toFixed3(c) && toFixed3(b) == toFixed3(d)
  {
    var k1, k2 := QuantisedKey(a, b, toFixed3), QuantisedKey(c, d, toFixed3);
    var ta, tc := toFixed3(a), toFixed3(c);
    if k1 == k2 {
      if |ta| != |tc| {
        assert false;
      }
      assert ta == k1[..|ta|] && tc == k2[..|tc|];
      assert toFixed3(b) == k1[|ta| + 1..] && toFixed3(d) == k2[|tc| + 1..];
    }
  }

  /** The last known position of a drone: the end of its path, else its feature's coordinates. */
  function LastKnown(d: Drone): Option<Coord> {
    if |d.path| > 0 then Some(d.path[|d.path| - 1])
    else if d.feature.geometry.Coords? then Some(d.feature.geometry.coords)
    else None
  }

  /** Distance from `c` to a drone with a known position. */
  function DistanceTo(c: Coord, d: Drone, geo: Geo): real
    requires LastKnown(d).Some?
  {
    geo.haversine(c, LastKnown(d).value)
  }

  /** A drone that takes part in the nearest-neighbour scan. */
  predicate Located(r: Registry, k: string) {
    k in r.byKey && LastKnown(r.byKey[k]).Some?
  }

  /**
   * The running best of the scan over `keys`: the serial and distance of the first drone
   * at the strictly smallest distance, or None when no drone has a known position.
   */
  function BestMatch(c: Coord, r: Registry, keys: seq<string>, geo: Geo): Option<(string, real)> {
    if |keys| == 0 then None
    else
      var best := BestMatch(c, r, keys[..|keys| - 1], geo);
      var k := keys[|keys| - 1];
      if Located(r, k) then
        var dist := DistanceTo(c, r.byKey[k], geo);
        if best.None? || dist < best.value.1 then Some((r.byKey[k].serial, dist)) else best
      else best
  }

  /** `findNearestDroneId`: the best match if it lies within `maxMeters`, else "" (null). */
  function Nearest(g: Geometry, r: Registry, maxMeters: real, geo: Geo): string {
    if g.NoCoords? then ""
    else
      match BestMatch(g.coords, r, r.order, geo)
      case None => ""
      case Some(best) => if best.1 <= maxMeters then best.0 else ""
  }

  /**
   * The scan finds an argmin: the chosen entry is located at index i, no located key is
   * closer, and every located key before i is strictly farther (first one wins a tie).
   */
  lemma {:induction false} BestMatchIsArgmin(c: Coord, r: Registry, keys: seq<string>, geo: Geo)
    ensures BestMatch(c, r, keys, geo).None? <==> forall i :: 0 <= i < |keys| ==> !Located(r, keys[i])
    ensures BestMatch(c, r, keys, geo).Some? ==>
      var best := BestMatch(c, r, keys, geo).value;
      exists i :: 0 <= i < |keys| && Located(r, keys[i])
        && best.0 == r.byKey[keys[i]].serial && best.1 == DistanceTo(c, r.byKey[keys[i]], geo)
        && (forall j :: 0 <= j < |keys| && Located(r, keys[j]) ==> best.1 <= DistanceTo(c, r.byKey[keys[j]], geo))
        && (forall j :: 0 <= j < i && Located(r, keys[j]) ==> best.1 < DistanceTo(c, r.byKey[keys[j]], geo))
  {
    if |keys| > 0 {
      var init := keys[..|keys| - 1];
      var n := |keys| - 1;
      BestMatchIsArgmin(c, r, init, geo);
      assert forall j :: 0 <= j < n ==> keys[j] == init[j];
      var prior := BestMatch(c, r, init, geo);
      var k := keys[n];
      if Located(r, k) {
        var dist := DistanceTo(c, r.byKey[k], geo);
        if prior.None? || dist < prior.value.1 {
          assert forall j :: 0 <= j < n ==> !Located(r, keys[j]) || dist < DistanceTo(c, r.byKey[keys[j]], geo) by {
            if prior.Some? {
              var i :| 0 <= i < n && Located(r, init[i])
                && prior.value.1 == DistanceTo(c, r.byKey[init[i]], geo)
                && (forall j :: 0 <= j < n && Located(r, init[j]) ==> prior.value.1 <= DistanceTo(c, r.byKey[init[j]], geo));
            }
          }
          assert Located(r, keys[n]);
        } else {
          var i :| 0 <= i < n && Located(r, init[i])
            && prior.value.0 == r.byKey[init[i]].serial && prior.value.1 == DistanceTo(c, r.byKey[init[i]], geo)
            && (forall j :: 0 <= j < n && Located(r, init[j]) ==> prior.value.1 <= DistanceTo(c, r.byKey[init[j]], geo))
            && (forall j :: 0 <= j < i && Located(r, init[j]) ==> prior.value.1 < DistanceTo(c, r.byKey[init[j]], geo));
          assert keys[i] == init[i];
        }
      } else {
        if prior.Some? {
          var i :| 0 <= i < n && Located(r, init[i])
            && prior.value.0 == r.byKey[init[i]].serial && prior.value.1 == DistanceTo(c, r.byKey[init[i]], geo)
            && (forall j :: 0 <= j < n && Located(r, init[j]) ==> prior.value.1 <= DistanceTo(c, r.byKey[init[j]], geo))
            && (forall j :: 0 <= j < i && Located(r, init[j]) ==> prior.value.1 < DistanceTo(c, r.byKey[init[j]], geo));
          assert keys[i] == init[i];
        }
      }
    }
  }

  /**
   * Nearest-neighbour fallback: in a well-formed dictionary the answer is the key of a
   * drone within the radius that no other drone beats (the tie-break, first among equals,
   * is stated by `BestMatchIsArgmin`); "" means there are no coordinates, or every located
   * drone lies beyond the radius.
   */
  lemma NearestSpec(g: Geometry, r: Registry, maxMeters: real, geo: Geo)
    requires WellFormed(r)
    ensures var k := Nearest(g, r, maxMeters, geo);
      k != "" ==>
        && g.Coords? && Located(r, k)
        && DistanceTo(g.coords, r.byKey[k], geo) <= maxMeters
        && (forall k' :: Located(r, k') ==> DistanceTo(g.coords, r.byKey[k], geo) <= DistanceTo(g.coords, r.byKey[k'], geo))
    ensures Nearest(g, r, maxMeters, geo) == "" && g.Coords? ==>
      forall k' :: Located(r, k') ==> DistanceTo(g.coords, r.byKey[k'], geo) > maxMeters
  {
    if g.Coords? {
      BestMatchIsArgmin(g.coords, r, r.order, geo);
      forall k' | Located(r, k') ensures exists j :: 0 <= j < |r.order| && r.order[j] == k' {
        assert k' in r.order;
      }
    }
  }

  /** The loop of `findNearestDroneId`, visiting the drones in the dictionary's order. */
  method FindNearestDroneId(g: Geometry, r: Registry, maxMeters: real, geo: Geo) returns (id: string)
    ensures id == Nearest(g, r, maxMeters, geo)
  {
    if g.NoCoords? {
      return "";
    }
    var best: Option<(string, real)> := None;
    for i := 0 to |r.order|
      invariant best == BestMatch(g.coords, r, r.order[..i], geo)
    {
      assert r.order[..i + 1][..i] == r.order[..i];
      var k := r.order[i];
      if k in r.byKey {
        var d := r.byKey[k];
        var last := LastKnown(d);
        if last.Some? {
          var dist := geo.haversine(g.coords, last.value);
          if best.None? || dist < best.value.1 {
            best := Some((d.serial, dist));
          }
        }
      }
    }
    assert r.order[..|r.order|] == r.order;
    id := if best.Some? && best.value.1 <= maxMeters then best.value.0 else "";
  }

  /**
   * The key an update resolves to (drones.js lines 96-112): an identity property, else the
   * quantised coordinates of a coordinate pair, else the nearest drone; "" means dropped.
   */
  function ResolveKey(f: Feature, r: Registry, geo: Geo): string {
    var id := StableId(f.properties);
    if id != "" then id
    else if f.geometry.Coords? && IsPair(f.geometry.coords) then
      QuantisedKey(f.geometry.coords[0], f.geometry.coords[1], geo.toFixed3)
    else Nearest(f.geometry, r, NearestRadius, geo)
  }

  /**
   * Any update carrying a coordinate pair gets a key without the nearest-neighbour search,
   * and a key found by that search names a drone that already exists.
   */
  lemma ResolveKeyCases(f: Feature, r: Registry, geo: Geo)
    requires WellFormed(r)
    ensures f.geometry.Coords? && IsPair(f.geometry.coords) ==> ResolveKey(f, r, geo) != ""
    ensures StableId(f.properties) != "" ==> ResolveKey(f, r, geo) == StableId(f.properties)
    ensures var k := ResolveKey(f, r, geo);
      k != "" && StableId(f.properties) == "" && !(f.geometry.Coords? && IsPair(f.geometry.coords)) ==> k in r.byKey
  {
    var c := f.geometry;
    if c.Coords? && IsPair(c.coords) {
      var key := QuantisedKey(c.coords[0], c.coords[1], geo.toFixed3);
    }
    NearestSpec(f.geometry, r, NearestRadius, geo);
  }
}
