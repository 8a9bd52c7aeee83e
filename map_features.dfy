/**
 * `toFeatures` of src/components/MapView.jsx: the point and line features drawn on the
 * map for the drones of the store, under the current filter mode.
 */
module MapFeatures {
  import opened Telemetry
  import opened Compliance

  /** A point feature: the drone's current coordinates and the properties shown in its popup. */
  datatype PointFeature = PointFeature(
    coordinates: Coord,
    serial: string,
    name: string,
    registration: string,
    altitude: int,
    yaw: int,
    allowed: int)

  /** A line feature: the drone's whole flattened path. */
  datatype LineFeature = LineFeature(coordinates: seq<Coord>, serial: string, allowed: int)

  /** 1 for a compliant registration, 0 otherwise. */
  function AllowedFlag(registration: string): int {
    if IsAllowed(registration) then 1 else 0
  }

  /** The drone passes the filter: it has coordinates and the mode does not hide its colour. */
  predicate Shown(d: Drone, mode: string) {
    && d.feature.geometry.Coords?
    && !(mode == "red" && IsAllowed(d.registration))
    && !(mode == "green" && !IsAllowed(d.registration))
  }

  function PointOf(d: Drone): PointFeature
    requires d.feature.geometry.Coords?
  {
    PointFeature(d.feature.geometry.coords, d.serial, d.name, d.registration, d.altitude, d.yaw,
                 AllowedFlag(d.registration))
  }

  function LineOf(d: Drone): LineFeature {
    LineFeature(d.path, d.serial, AllowedFlag(d.registration))
  }

  /** The points for the drones under `keys`, visited in order. */
  function PointsOf(r: Registry, keys: seq<string>, mode: string): seq<PointFeature> {
    if |keys| == 0 then []
    else
      var k := keys[|keys| - 1];
      PointsOf(r, keys[..|keys| - 1], mode)
        + (if k in r.byKey && Shown(r.byKey[k], mode) then [PointOf(r.byKey[k])] else [])
  }

  /** The lines for the drones under `keys`: shown drones whose path has more than one point. */
  function LinesOf(r: Registry, keys: seq<string>, mode: string): seq<LineFeature> {
    if |keys| == 0 then []
    else
      var k := keys[|keys| - 1];
      LinesOf(r, keys[..|keys| - 1], mode)
        + (if k in r.byKey && Shown(r.byKey[k], mode) && |r.byKey[k].path| > 1 then [LineOf(r.byKey[k])] else [])
  }

  /** How many drones under `keys` have coordinates at all. */
  function CountWithCoords(r: Registry, keys: seq<string>): nat {
    if |keys| == 0 then 0
    else
      var k := keys[|keys| - 1];
      CountWithCoords(r, keys[..|keys| - 1]) + (if k in r.byKey && r.byKey[k].feature.geometry.Coords? then 1 else 0)
  }

  /** Point `p` is the point of a shown drone listed in `keys`. */
  ghost predicate PointFromShown(r: Registry, keys: seq<string>, mode: string, p: PointFeature) {
    exists j :: 0 <= j < |keys| && keys[j] in r.byKey && Shown(r.byKey[keys[j]], mode) && p == PointOf(r.byKey[keys[j]])
  }

  /** `coords` is the path of a shown drone listed in `keys`. */
  ghost predicate PathOfShown(r: Registry, keys: seq<string>, mode: string, coords: seq<Coord>) {
    exists j :: 0 <= j < |keys| && keys[j] in r.byKey && Shown(r.byKey[keys[j]], mode) && coords == r.byKey[keys[j]].path
  }

  /**
   * Every point comes from a drone under `keys` that has coordinates and passes the filter,
   * and is flagged allowed exactly when its registration is compliant; conversely every shown
   * drone gets its point. Mode "red" yields only blocked drones, "green" only allowed ones, and
   * any other mode every drone with coordinates.
   */
  lemma {:induction false} PointsSpec(r: Registry, keys: seq<string>, mode: string)
    ensures forall p :: p in PointsOf(r, keys, mode) ==> p.allowed == AllowedFlag(p.registration)
    ensures mode == "red" ==> forall p :: p in PointsOf(r, keys, mode) ==> p.allowed == 0
    ensures mode == "green" ==> forall p :: p in PointsOf(r, keys, mode) ==> p.allowed == 1
    ensures forall p :: p in PointsOf(r, keys, mode) ==> PointFromShown(r, keys, mode, p)
    ensures mode != "red" && mode != "green" ==> |PointsOf(r, keys, mode)| == CountWithCoords(r, keys)
    ensures forall j :: 0 <= j < |keys| && keys[j] in r.byKey && Shown(r.byKey[keys[j]], mode) ==>
      PointOf(r.byKey[keys[j]]) in PointsOf(r, keys, mode)
  {
    if |keys| > 0 {
      var init := keys[..|keys| - 1];
      var last := |keys| - 1;
      PointsSpec(r, init, mode);
      forall p | p in PointsOf(r, keys, mode) ensures PointFromShown(r, keys, mode, p) {
        if p in PointsOf(r, init, mode) {
          var j :| 0 <= j < |init| && init[j] in r.byKey && Shown(r.byKey[init[j]], mode) && p == PointOf(r.byKey[init[j]]);
          assert keys[j] == init[j];
        } else {
          assert keys[last] in r.byKey && p == PointOf(r.byKey[keys[last]]);
        }
      }
      forall j | 0 <= j < |keys| && keys[j] in r.byKey && Shown(r.byKey[keys[j]], mode)
        ensures PointOf(r.byKey[keys[j]]) in PointsOf(r, keys, mode)
      {
        if j < last {
          assert keys[j] == init[j];
        }
      }
    }
  }

  /**
   * A line is drawn only for a drone that also gets a point: there are never more lines
   * than points, each line's serial and flag are those of an emitted point, and each line is
   * the full path, of more than one point, of a shown drone; conversely every shown drone
   * whose path has more than one point gets its line.
   */
  lemma {:induction false} LinesSpec(r: Registry, keys: seq<string>, mode: string)
    ensures |LinesOf(r, keys, mode)| <= |PointsOf(r, keys, mode)|
    ensures forall l :: l in LinesOf(r, keys, mode) ==> |l.coordinates| > 1
    ensures forall l :: l in LinesOf(r, keys, mode) ==>
      exists p :: p in PointsOf(r, keys, mode) && p.serial == l.serial && p.allowed == l.allowed
    ensures forall l :: l in LinesOf(r, keys, mode) ==> PathOfShown(r, keys, mode, l.coordinates)
    ensures forall j :: (0 <= j < |keys| && keys[j] in r.byKey && Shown(r.byKey[keys[j]], mode)
      && |r.byKey[keys[j]].path| > 1) ==> LineOf(r.byKey[keys[j]]) in LinesOf(r, keys, mode)
  {
    if |keys| > 0 {
      var init := keys[..|keys| - 1];
      var last := |keys| - 1;
      LinesSpec(r, init, mode);
      var pts := PointsOf(r, keys, mode);
      forall l | l in LinesOf(r, keys, mode)
        ensures exists p :: p in pts && p.serial == l.serial && p.allowed == l.allowed
        ensures PathOfShown(r, keys, mode, l.coordinates)
      {
        if l in LinesOf(r, init, mode) {
          var p :| p in PointsOf(r, init, mode) && p.serial == l.serial && p.allowed == l.allowed;
          assert p in pts;
          var j :| 0 <= j < |init| && init[j] in r.byKey && Shown(r.byKey[init[j]], mode)
            && l.coordinates == r.byKey[init[j]].path;
          assert keys[j] == init[j];
        } else {
          assert PointOf(r.byKey[keys[last]]) in pts;
          assert l == LineOf(r.byKey[keys[last]]);
        }
      }
      forall j | 0 <= j < |keys| && keys[j] in r.byKey && Shown(r.byKey[keys[j]], mode) && |r.byKey[keys[j]].path| > 1
        ensures LineOf(r.byKey[keys[j]]) in LinesOf(r, keys, mode)
      {
        if j < last {
          assert keys[j] == init[j];
        }
      }
    }
  }

  /** The loop of `toFeatures`, with its `continue`-based filtering. */
  method ToFeatures(r: Registry, mode: string) returns (points: seq<PointFeature>, lines: seq<LineFeature>)
    ensures points == PointsOf(r, r.order, mode)
    ensures lines == LinesOf(r, r.order, mode)
  {
    points, lines := [], [];
    var keys := r.order;
    for i := 0 to |keys|
      invariant points == PointsOf(r, keys[..i], mode)
      invariant lines == LinesOf(r, keys[..i], mode)
    {
      assert keys[..i + 1][..i] == keys[..i];
      var k := keys[i];
      if k !in r.byKey {
        continue;
      }
      var d := r.byKey[k];
      if d.feature.geometry.NoCoords? {
        continue;
      }
      var allowed := IsAllowed(d.registration);
      if mode == "red" && allowed {
        continue;
      }
      if mode == "green" && !allowed {
        continue;
      }
      points := points + [PointFeature(d.feature.geometry.coords, d.serial, d.name, d.registration,
                                       d.altitude, d.yaw, if allowed then 1 else 0)];
      if |d.path| > 1 {
        lines := lines + [LineFeature(d.path, d.serial, if allowed then 1 else 0)];
      }
    }
    assert keys[..|keys|] == keys;
  }
}
