/**
 * The data the track store works on: incoming GeoJSON-like features, the per-drone
 * record and the drone dictionary itself (src/store/drones.js).
 *
 * Conventions:
 *  - a textual property that is absent, null or empty is the empty string; the source
 *    only ever tests such properties for truthiness (`||`), so the three coincide;
 *  - numbers are integers, so the exact comparisons of coordinates stay exact;
 *  - a coordinate is the raw coordinate array of a feature (normally `[lng, lat]`).
 */
module Telemetry {
  import opened Wrappers

  /** A coordinate array as found in `geometry.coordinates`; `[lng, lat]` when well formed. */
  type Coord = seq<int>

  /** The guard `Array.isArray(c) && c.length === 2` of the store. */
  predicate IsPair(c: Coord) {
    |c| == 2
  }

  /** The `properties` object of a feature, restricted to the fields the core reads. */
  datatype Props = Props(
    registration: string,
    serial: string,
    Registration: string,
    Name: string,
    name: string,
    id: string,
    droneId: string,
    altitude: Option<int>,
    yaw: Option<int>,
    organization: string,
    pilot: string)

  /** `geometry.coordinates`: either missing or an array. */
  datatype Geometry = NoCoords | Coords(coords: Coord)

  datatype Feature = Feature(properties: Props, geometry: Geometry)

  /** A message from the backend: a feature collection, or anything without a `features` array. */
  datatype Payload = NotACollection | Collection(features: seq<Feature>)

  /** The per-drone record built by `makeDrone` and replaced on every merge. */
  datatype Drone = Drone(
    serial: string,
    name: string,
    registration: string,
    altitude: int,
    yaw: int,
    organization: string,
    pilot: string,
    currentSerial: string,   // "" stands for null
    startedAt: int,
    lastUpdated: int,
    feature: Feature,
    paths: seq<seq<Coord>>,
    path: seq<Coord>)

  /**
   * The `drones` object: its keys in insertion order (the order `Object.values` visits
   * them) and the key-to-record mapping.
   */
  datatype Registry = Registry(order: seq<string>, byKey: map<string, Drone>)

  /** The empty dictionary the store starts with. */
  const Empty := Registry([], map[])

  /** `[].concat(...paths)`: every segment, in order. */
  function Flatten(paths: seq<seq<Coord>>): seq<Coord> {
    if |paths| == 0 then [] else Flatten(paths[..|paths| - 1]) + paths[|paths| - 1]
  }

  /** Sum of the segment lengths. */
  function TotalLength(paths: seq<seq<Coord>>): nat {
    if |paths| == 0 then 0 else TotalLength(paths[..|paths| - 1]) + |paths[|paths| - 1]|
  }

  /** The flattened path is exactly as long as all the segments together. */
  lemma {:induction false} FlattenLength(paths: seq<seq<Coord>>)
    ensures |Flatten(paths)| == TotalLength(paths)
  {
    if |paths| > 0 {
      FlattenLength(paths[..|paths| - 1]);
    }
  }

  /** Adding a segment at the end adds its points at the end of the flattened path. */
  lemma FlattenSnoc(paths: seq<seq<Coord>>, seg: seq<Coord>)
    ensures Flatten(paths + [seg]) == Flatten(paths) + seg
  {
    assert (paths + [seg])[..|paths|] == paths;
  }

  /**
   * JavaScript property assignment `next[k] = d`: `k` now holds `d`, every other key keeps
   * its record, a key is added to the end of the order only when it is new, and an order
   * that listed every key once still does.
   */
  function Put(r: Registry, k: string, d: Drone): (r': Registry)
    ensures k in r'.byKey && r'.byKey[k] == d
    ensures r'.byKey.Keys == r.byKey.Keys + {k}
    ensures forall x :: x in r.byKey && x != k ==> r'.byKey[x] == r.byKey[x]
    ensures |r'.order| == |r.order| + (if k in r.byKey then 0 else 1) && r'.order[..|r.order|] == r.order
    ensures k !in r.byKey ==> r'.order == r.order + [k]
    ensures Distinct(r.order) && (forall x :: x in r.byKey <==> x in r.order) ==>
      Distinct(r'.order) && (forall x :: x in r'.byKey <==> x in r'.order)
  {
    Registry(if k in r.byKey then r.order else r.order + [k], r.byKey[k := d])
  }

  /** A record whose track is well formed: at least one segment, no empty segment, path flattened. */
  predicate Tracked(d: Drone) {
    && |d.paths| > 0
    && (forall i :: 0 <= i < |d.paths| ==> |d.paths[i]| > 0)
    && d.path == Flatten(d.paths)
  }

  /** No key appears twice in `s`. */
  predicate Distinct(s: seq<string>) {
    forall i, j :: 0 <= i < j < |s| ==> s[i] != s[j]
  }

  /**
   * What the store keeps true of its dictionary: the order lists every key once,
   * every record is stored under its own non-empty serial, and every track is well formed.
   */
  ghost predicate WellFormed(r: Registry) {
    && Distinct(r.order)
    && (forall k :: k in r.byKey <==> k in r.order)
    && (forall k :: k in r.byKey ==> k != "" && r.byKey[k].serial == k && Tracked(r.byKey[k]))
  }

  /** The number of drones (`Object.values(drones).length`) is the number of keys. */
  lemma {:induction false} DistinctCount(s: seq<string>)
    requires Distinct(s)
    ensures |set k | k in s| == |s|
  {
    if |s| > 0 {
      var init := s[..|s| - 1];
      DistinctCount(init);
      assert (set k | k in s) == (set k | k in init) + {s[|s| - 1]};
      assert s[|s| - 1] !in (set k | k in init);
    }
  }

  /** In a well-formed dictionary, the drone count is the length of the key order. */
  lemma CountIsOrderLength(r: Registry)
    requires WellFormed(r)
    ensures |r.byKey| == |r.order|
  {
    DistinctCount(r.order);
    assert r.byKey.Keys == (set k | k in r.order);
  }
}
