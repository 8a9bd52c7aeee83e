/**
 * Track reconstruction of src/store/drones.js: creating a record, merging an update into
 * an existing one, and applying a whole list of features to the dictionary.
 */
module Tracks {
  import opened Telemetry
  import opened Identity

  /** The point a new record starts with: the feature's coordinates, or `[0, 0]`. */
  function StartPoint(f: Feature): Coord {
    if f.geometry.Coords? then f.geometry.coords else [0, 0]
  }

  /**
   * `makeDrone(feature, forcedSerial)`: a record with one single-point segment.
   * `freshId` stands for `nanoid()`, consulted only when every other identity is empty.
   */
  function MakeDrone(f: Feature, forcedSerial: string, freshId: string, now: int): (d: Drone)
    ensures forcedSerial != "" ==> d.serial == forcedSerial
    ensures d.name != ""
    ensures d.startedAt == now && d.lastUpdated == now
    ensures Tracked(d) && |d.paths| == 1 && d.path == [StartPoint(f)]
  {
    var p := f.properties;
    var pt := StartPoint(f);
    assert Flatten([[pt]]) == Flatten([]) + [pt];
    Drone(
      serial := if forcedSerial != "" then forcedSerial
                else if p.registration != "" then p.registration
                else if p.serial != "" then p.serial
                else freshId,
      name := if p.Name != "" then p.Name else "Drone",
      registration := p.registration,
      altitude := p.altitude.GetOr(0),
      yaw := p.yaw.GetOr(0),
      organization := p.organization,
      pilot := p.pilot,
      currentSerial := p.serial,
      startedAt := now,
      lastUpdated := now,
      feature := f,
      paths := [[pt]],
      path := [pt])
  }

  /** The exact comparison `last[0] === c[0] && last[1] === c[1]` (a missing component never matches). */
  predicate SameSpot(last: Coord, c: Coord) {
    |last| >= 2 && |c| >= 2 && last[0] == c[0] && last[1] == c[1]
  }

  /**
   * Append `c` to the last segment unless that segment already ends at the same spot.
   * With no segment at all the source assigns to index -1, which leaves the elements alone.
   */
  function AppendIfMoved(paths: seq<seq<Coord>>, c: Coord): seq<seq<Coord>> {
    if |paths| == 0 then paths
    else
      var lastSeg := paths[|paths| - 1];
      if |lastSeg| > 0 && SameSpot(lastSeg[|lastSeg| - 1], c) then paths
      else paths[..|paths| - 1] + [lastSeg + [c]]
  }

  /** True when the update reports a backend serial other than the drone's current one. */
  predicate SerialChanged(prev: Drone, f: Feature) {
    f.properties.serial != "" && f.properties.serial != prev.currentSerial
  }

  /** The coordinates of an update that carries a coordinate pair. */
  predicate HasPair(f: Feature) {
    f.geometry.Coords? && IsPair(f.geometry.coords)
  }

  /** The segments after merging `f` into `prev` (drones.js lines 116-130). */
  function NextPaths(prev: Drone, f: Feature): seq<seq<Coord>> {
    if HasPair(f) then
      if SerialChanged(prev, f) then prev.paths + [[f.geometry.coords]]
      else AppendIfMoved(prev.paths, f.geometry.coords)
    else prev.paths
  }

  /** The record stored after merging update `f`, resolved to `key`, into `prev` (lines 131-144). */
  function Merge(prev: Drone, f: Feature, key: string, now: int): Drone {
    var p := f.properties;
    var paths := NextPaths(prev, f);
    prev.(
      altitude := p.altitude.GetOr(prev.altitude),
      yaw := p.yaw.GetOr(prev.yaw),
      registration := if prev.registration != "" then prev.registration
                      else if p.registration != "" then p.registration
                      else prev.registration,
      serial := if prev.serial != "" then prev.serial else key,
      currentSerial := if p.serial != "" then p.serial else prev.currentSerial,
      feature := f,
      lastUpdated := now,
      paths := paths,
      path := Flatten(paths))
  }

  /** One iteration of the loop of `upsertFromFeatureCollection` over the working copy `r`. */
  function ApplyFeature(r: Registry, f: Feature, now: int, geo: Geo, freshId: string): Registry {
    var key := ResolveKey(f, r, geo);
    if key == "" then r
    else if key in r.byKey then Put(r, key, Merge(r.byKey[key], f, key, now))
    else
      var d := MakeDrone(f, key, freshId, now);
      Put(r, d.serial, d)
  }

  /** The whole loop: every feature, in order. */
  function ApplyAll(r: Registry, fs: seq<Feature>, now: int, geo: Geo, freshId: string): Registry {
    if |fs| == 0 then r
    else ApplyFeature(ApplyAll(r, fs[..|fs| - 1], now, geo, freshId), fs[|fs| - 1], now, geo, freshId)
  }

  // ---------------------------------------------------------------------------------------
  // Properties of a single merge

  /** Merging keeps every segment non-empty and at least one segment. */
  lemma NextPathsTracked(prev: Drone, f: Feature)
    requires Tracked(prev)
    ensures var paths := NextPaths(prev, f);
      |paths| > 0 && forall i :: 0 <= i < |paths| ==> |paths[i]| > 0
  {
  }

  /**
   * A coordinate pair with a new backend serial opens exactly one new segment, `[coords]`,
   * after the unchanged old ones; the flattened path grows by that one point.
   */
  lemma MergeNewSegment(prev: Drone, f: Feature, key: string, now: int)
    requires Tracked(prev) && HasPair(f) && SerialChanged(prev, f)
    ensures var d := Merge(prev, f, key, now);
      && |d.paths| == |prev.paths| + 1
      && d.paths[..|prev.paths|] == prev.paths
      && d.paths[|prev.paths|] == [f.geometry.coords]
      && d.path == prev.path + [f.geometry.coords]
      && d.currentSerial == f.properties.serial
  {
    FlattenSnoc(prev.paths, [f.geometry.coords]);
  }

  /**
   * Otherwise a coordinate pair is appended to the last segment, unless it is exactly the
   * last point already there; the number of segments never changes.
   */
  lemma MergeAppend(prev: Drone, f: Feature, key: string, now: int)
    requires Tracked(prev) && HasPair(f) && !SerialChanged(prev, f)
    ensures var d := Merge(prev, f, key, now);
      var n := |prev.paths|;
      var lastSeg := prev.paths[n - 1];
      var c := f.geometry.coords;
      && |d.paths| == n
      && d.paths[..n - 1] == prev.paths[..n - 1]
      && (SameSpot(lastSeg[|lastSeg| - 1], c) ==> d.paths == prev.paths && d.path == prev.path)
      && (!SameSpot(lastSeg[|lastSeg| - 1], c) ==>
            d.paths[n - 1] == lastSeg + [c] && d.path == prev.path + [c])
  {
    var n := |prev.paths|;
    var lastSeg := prev.paths[n - 1];
    var c := f.geometry.coords;
    if !SameSpot(lastSeg[|lastSeg| - 1], c) {
      var init := prev.paths[..n - 1];
      assert prev.paths == init + [lastSeg];
      FlattenSnoc(init, lastSeg);
      FlattenSnoc(init, lastSeg + [c]);
    }
  }

  /** An update without a coordinate pair never touches the track. */
  lemma MergeWithoutPair(prev: Drone, f: Feature, key: string, now: int)
    requires !HasPair(f)
    ensures Merge(prev, f, key, now).paths == prev.paths
  {
  }

  /**
   * The field rules of a merge: the serial stays, a non-empty registration stays, name,
   * pilot, organization and start time keep their creation values, the current backend
   * serial follows the update when it has one, altitude and yaw take the update's value when
   * it has one, the stored feature becomes the update, and the path is the flattened segments.
   */
  lemma MergeFields(prev: Drone, f: Feature, key: string, now: int)
    requires prev.serial != ""
    ensures var d := Merge(prev, f, key, now);
      && d.serial == prev.serial
      && (prev.registration != "" ==> d.registration == prev.registration)
      && (prev.registration == "" ==> d.registration == f.properties.registration)
      && d.name == prev.name && d.pilot == prev.pilot && d.organization == prev.organization
      && d.startedAt == prev.startedAt && d.lastUpdated == now
      && d.currentSerial == (if f.properties.serial != "" then f.properties.serial else prev.currentSerial)
      && d.altitude == (if f.properties.altitude.Some? then f.properties.altitude.value else prev.altitude)
      && d.yaw == (if f.properties.yaw.Some? then f.properties.yaw.value else prev.yaw)
      && d.feature == f
      && d.path == Flatten(d.paths)
  {
  }

  /**
   * Re-applying an update right after it was merged changes no segment: either it opened
   * a segment ending at its point and its serial is now current, or the last segment already
   * ends at that point.
   */
  lemma {:induction false} MergeIdempotent(prev: Drone, f: Feature, key: string, now: int)
    requires Tracked(prev)
    ensures var once := Merge(prev, f, key, now);
      Merge(once, f, key, now).paths == once.paths
  {
    var once := Merge(prev, f, key, now);
    if HasPair(f) {
      var c := f.geometry.coords;
      assert !SerialChanged(once, f);
      var lastSeg := once.paths[|once.paths| - 1];
      if SerialChanged(prev, f) {
        assert lastSeg == [c];
      } else if SameSpot(prev.paths[|prev.paths| - 1][|prev.paths[|prev.paths| - 1]| - 1], c) {
        assert once.paths == prev.paths;
      } else {
        assert lastSeg == prev.paths[|prev.paths| - 1] + [c];
      }
      assert SameSpot(lastSeg[|lastSeg| - 1], c);
    }
  }

  // ---------------------------------------------------------------------------------------
  // Properties of a loop iteration and of the loop

  /** The record made for a new key is stored under that key and keeps a well-formed track. */
  lemma CreatedRecord(f: Feature, key: string, freshId: string, now: int)
    requires key != ""
    ensures var d := MakeDrone(f, key, freshId, now);
      && d.serial == key && Tracked(d)
      && d.paths == [[StartPoint(f)]] && d.path == [StartPoint(f)]
      && d.startedAt == d.lastUpdated
  {
  }

  /**
   * A loop iteration resolves a key K and touches only K: a new K is appended to the order
   * with a fresh single-point record; an existing K keeps its place; no key is removed.
   */
  lemma ApplyFeatureEffect(r: Registry, f: Feature, now: int, geo: Geo, freshId: string)
    ensures var r' := ApplyFeature(r, f, now, geo, freshId);
      var key := ResolveKey(f, r, geo);
      && (key == "" ==> r' == r)
      && (key != "" && key in r.byKey ==>
            r'.order == r.order && r'.byKey == r.byKey[key := Merge(r.byKey[key], f, key, now)])
      && (key != "" && key !in r.byKey ==>
            && r'.order == r.order + [key]
            && r'.byKey == r.byKey[key := MakeDrone(f, key, freshId, now)]
            && r'.byKey[key].serial == key
            && r'.byKey[key].paths == [[StartPoint(f)]]
            && r'.byKey[key].startedAt == r'.byKey[key].lastUpdated == now)
      && (forall k :: k in r.byKey && k != key ==> k in r'.byKey && r'.byKey[k] == r.byKey[k])
  {
  }

  /** A loop iteration keeps the dictionary well formed. */
  lemma ApplyFeatureWellFormed(r: Registry, f: Feature, now: int, geo: Geo, freshId: string)
    requires WellFormed(r)
    ensures WellFormed(ApplyFeature(r, f, now, geo, freshId))
  {
    var key := ResolveKey(f, r, geo);
    var r' := ApplyFeature(r, f, now, geo, freshId);
    if key != "" {
      if key in r.byKey {
        var prev := r.byKey[key];
        NextPathsTracked(prev, f);
        assert Tracked(r'.byKey[key]);
      }
    }
  }

  /** The whole loop keeps the dictionary well formed. */
  lemma {:induction false} ApplyAllWellFormed(r: Registry, fs: seq<Feature>, now: int, geo: Geo, freshId: string)
    requires WellFormed(r)
    ensures WellFormed(ApplyAll(r, fs, now, geo, freshId))
  {
    if |fs| > 0 {
      ApplyAllWellFormed(r, fs[..|fs| - 1], now, geo, freshId);
      ApplyFeatureWellFormed(ApplyAll(r, fs[..|fs| - 1], now, geo, freshId), fs[|fs| - 1], now, geo, freshId);
    }
  }

  /**
   * Drones are never removed: the old key order is a prefix of the new one, every old key
   * is still present, and the number of drones can only grow.
   */
  lemma {:induction false} ApplyAllGrows(r: Registry, fs: seq<Feature>, now: int, geo: Geo, freshId: string)
    ensures var r' := ApplyAll(r, fs, now, geo, freshId);
      && |r.order| <= |r'.order| && r'.order[..|r.order|] == r.order
      && r.byKey.Keys <= r'.byKey.Keys
  {
    if |fs| > 0 {
      var mid := ApplyAll(r, fs[..|fs| - 1], now, geo, freshId);
      ApplyAllGrows(r, fs[..|fs| - 1], now, geo, freshId);
      ApplyFeatureEffect(mid, fs[|fs| - 1], now, geo, freshId);
      var r' := ApplyFeature(mid, fs[|fs| - 1], now, geo, freshId);
      assert r'.order[..|mid.order|] == mid.order;
      assert r'.order[..|r.order|] == mid.order[..|mid.order|][..|r.order|];
    }
  }

  /** Identity stability: once stored under K, a record keeps serial K through any later updates. */
  lemma {:induction false} SerialStable(r: Registry, fs: seq<Feature>, now: int, geo: Geo, freshId: string, k: string)
    requires WellFormed(r) && k in r.byKey
    ensures var r' := ApplyAll(r, fs, now, geo, freshId);
      k in r'.byKey && r'.byKey[k].serial == k
  {
    ApplyAllWellFormed(r, fs, now, geo, freshId);
    ApplyAllGrows(r, fs, now, geo, freshId);
  }

  /** Applying two lists one after the other is applying their concatenation. */
  lemma {:induction false} ApplyAllConcat(r: Registry, a: seq<Feature>, b: seq<Feature>, now: int, geo: Geo, freshId: string)
    ensures ApplyAll(r, a + b, now, geo, freshId) == ApplyAll(ApplyAll(r, a, now, geo, freshId), b, now, geo, freshId)
    decreases |b|
  {
    if |b| == 0 {
      assert a + b == a;
    } else {
      var b' := b[..|b| - 1];
      assert (a + b)[..|a + b| - 1] == a + b';
      ApplyAllConcat(r, a, b', now, geo, freshId);
    }
  }

  /** A freshly made record absorbs the update it was made from without changing its track. */
  lemma MakeDroneAbsorbs(f: Feature, key: string, freshId: string, now: int)
    requires key != ""
    ensures var d := MakeDrone(f, key, freshId, now);
      Merge(d, f, key, now).paths == d.paths
  {
    var d := MakeDrone(f, key, freshId, now);
    if HasPair(f) {
      assert d.paths == [[f.geometry.coords]];
      assert !SerialChanged(d, f);
      assert SameSpot(d.paths[0][0], f.geometry.coords);
    }
  }

  /** An iteration whose merge leaves the resolved record's track alone changes no track at all. */
  lemma ApplyFeatureKeepsTracks(r: Registry, f: Feature, now: int, geo: Geo, freshId: string)
    requires var key := ResolveKey(f, r, geo);
      key != "" ==> key in r.byKey && Merge(r.byKey[key], f, key, now).paths == r.byKey[key].paths
    ensures var r' := ApplyFeature(r, f, now, geo, freshId);
      && r'.order == r.order
      && r'.byKey.Keys == r.byKey.Keys
      && forall k :: k in r.byKey ==> r'.byKey[k].paths == r.byKey[k].paths
  {
    ApplyFeatureEffect(r, f, now, geo, freshId);
  }

  /**
   * Idempotence of an update: applying the same feature twice in a row leaves the second
   * application without effect on any track and creates no further drone.
   */
  lemma ApplyFeatureIdempotent(r: Registry, f: Feature, now: int, geo: Geo, freshId: string)
    requires WellFormed(r)
    ensures var once := ApplyFeature(r, f, now, geo, freshId);
      var twice := ApplyFeature(once, f, now, geo, freshId);
      && twice.order == once.order
      && twice.byKey.Keys == once.byKey.Keys
      && forall k :: k in once.byKey ==> twice.byKey[k].paths == once.byKey[k].paths
  {
    var once := ApplyFeature(r, f, now, geo, freshId);
    ApplyFeatureWellFormed(r, f, now, geo, freshId);
    ApplyFeatureEffect(r, f, now, geo, freshId);
    ResolveKeyCases(f, r, geo);
    ResolveKeyCases(f, once, geo);
    var k1 := ResolveKey(f, r, geo);
    var k2 := ResolveKey(f, once, geo);
    if k2 != "" {
      if HasPair(f) || StableId(f.properties) != "" {
        assert k1 == k2;
        if k1 in r.byKey {
          MergeIdempotent(r.byKey[k1], f, k1, now);
        } else {
          MakeDroneAbsorbs(f, k1, freshId, now);
        }
      } else {
        MergeWithoutPair(once.byKey[k2], f, k2, now);
      }
    }
    ApplyFeatureKeepsTracks(once, f, now, geo, freshId);
  }
}
