# Drone telemetry track store — a Dafny model

This project models the core of a drone-monitoring web client. The client receives
GeoJSON feature collections from a backend over a socket. It coalesces bursts of them
into one update every 80 ms. Each update goes to a store that keeps one record per drone:
a stable identity, a compliance classification, and a travel path made of segments.

The model covers three source files:

- `src/store/drones.js` is the track store. The model covers identity resolution
  (identity properties, then a quantised-coordinate key, then the nearest drone within
  800 m), record creation, and merging with path segments. It also covers the
  compliance rule `isAllowed`, the UI-intent setters and the counters.
- `src/socket.js` holds the candidate server URLs, the `attemptNext` walk through them,
  and the batch/timer/flush coalescer.
- `src/components/MapView.jsx` holds `toFeatures`, the filter that turns drones into map
  points and lines.

Modules:

| file | module | models |
|---|---|---|
| `wrappers.dfy` | `Wrappers` | `null`/`undefined` as `Option` |
| `telemetry.dfy` | `Telemetry` | features, payloads, the drone record, the drone dictionary with its key order, flattening |
| `compliance.dfy` | `Compliance` | `split("-")` and `isAllowed` |
| `identity.dfy` | `Identity` | `getStableId`, the quantised key, `findNearestDroneId`, key resolution |
| `tracks.dfy` | `Tracks` | `makeDrone`, the merge of one update, one iteration and the whole loop of `upsertFromFeatureCollection` |
| `store.dfy` | `DroneStore` | the store object: upsert, the UI-intent actions, `cycleFilterMode`, `getCounters` |
| `socket.dfy` | `Socket` | candidate list, `attemptNext`, the message handler and `flush` |
| `map_features.dfy` | `MapFeatures` | `toFeatures` |

Modelling conventions:

- A JavaScript object is a value with two parts. `Registry.order` is its key order, and
  `Registry.byKey` maps keys to records.
- A text property that is absent, `null` or empty is the empty string. The source only
  tests such properties for truthiness.
- Altitude and yaw are `Option<int>`, because the source uses `??` on them, and `??`
  tells `null` from `0`.
- Numbers are integers, so the source's exact coordinate comparisons stay exact.
- `Number(x).toFixed(3)` and the haversine distance are function-valued parameters
  (`Identity.Geo`). Only `Identity.QuantisedKeySameSpot` assumes anything of them: that a
  formatted number holds no comma.
- `Date.now()` is the parameter `now`. `nanoid()` is the parameter `freshId`.
- The store and the batcher are classes whose methods replace fields. Every loop of the
  source is a method with a loop. Each such method is proved equal to a specification
  function, and the lemmas state the source's promises about that function.

Merge details that the model follows exactly:

- `pilot` and `organization` are set by `makeDrone` and never updated by a merge: the
  merged record copies them through `...prev` (src/store/drones.js:132-144).
- `name` is never updated by a merge either: `prev.name ?? …` keeps the old value, and a
  record's `name` is never null, since `makeDrone` falls back to "Drone"
  (src/store/drones.js:137).
- A record created without a backend serial has `currentSerial` null. The first update
  that carries both a serial and a coordinate pair then opens a new segment
  (src/store/drones.js:118-121). An update with a serial but no pair only sets
  `currentSerial` (src/store/drones.js:139), so a later pair under that serial is appended
  to the last segment.

## Model

| member | source | states |
|---|---|---|
| `Identity.StableId` | src/store/drones.js:7-19 | the key is "" exactly when all seven identity properties are empty; otherwise it is the first non-empty one in the order registration, serial, Registration, Name, name, id, droneId |
| `Identity.QuantisedKey` | src/store/drones.js:100-107 | the coordinate key always contains the comma, so it is never empty and a pair always yields a key |
| `Identity.QuantisedKeySameSpot` | src/store/drones.js:104 | when formatted numbers hold no comma, two positions get the same key exactly when both coordinates format to the same three-decimal text |
| `Identity.LastKnown` | src/store/drones.js:61 | the last point of the path, else the feature's coordinates; specified by `Identity.BestMatchIsArgmin` |
| `Identity.BestMatch` | src/store/drones.js:59-64 | the scan with strict `<` over the drones; specified by `Identity.BestMatchIsArgmin` |
| `Identity.Nearest` | src/store/drones.js:57-66 | the scan's answer if within the radius, else none; specified by `Identity.NearestSpec` |
| `Identity.ResolveKey` | src/store/drones.js:96-113 | identity property, then coordinate key, then nearest neighbour; specified by `Identity.ResolveKeyCases` |
| `Identity.BestMatchIsArgmin` | src/store/drones.js:57-66 | the scan finds no drone only when none has a known position; otherwise it picks a located drone that no other beats, and every earlier drone is strictly farther (first wins a tie) |
| `Identity.NearestSpec` | src/store/drones.js:57-66 | in a well-formed dictionary a non-empty answer is the key of a drone within the radius that is nearest of all; an empty answer with coordinates means every located drone is beyond the radius |
| `Identity.FindNearestDroneId` | src/store/drones.js:57-66 | the loop returns the nearest-within-radius answer defined by the scan |
| `Identity.ResolveKeyCases` | src/store/drones.js:96-113 | an update with a coordinate pair always gets a key; an identity property wins; a key from the nearest-neighbour fallback names an existing drone |
| `Compliance.IndexOf` | src/store/drones.js:70 | position of the first separator, or the length when there is none |
| `Compliance.Split` | src/store/drones.js:70 | `split("-")`; specified by `Compliance.SplitJoin` |
| `Compliance.JudgedPart` | src/store/drones.js:70-71 | `parts[1]` when there are several parts, else `parts[0]`; specified by `Compliance.JudgedPartHead` |
| `Compliance.SplitJoin` | src/store/drones.js:70 | splitting on "-" loses nothing: joining the parts with "-" gives back the code, and no part contains "-" |
| `Compliance.JudgedPartHead` | src/store/drones.js:71-72 | the inspected part starts with 'B' exactly when the character after the first "-" (or the first character, without "-") is 'B' |
| `Compliance.IsAllowed` | src/store/drones.js:68-73 | allowed iff the code is non-empty and the character after its first "-" is 'B', or, with no "-", its first character is 'B' |
| `Compliance.IsAllowedExamples` | src/store/drones.js:68-73 | "SG-BA" and "B123" are allowed; "SD-CA", "" and "X-Y" are not |
| `Telemetry.Flatten` | src/store/drones.js:131 | `[].concat(...paths)`; specified by `Telemetry.FlattenLength` and `Telemetry.FlattenSnoc` |
| `Telemetry.FlattenLength` | src/store/drones.js:131 | the flattened path is exactly as long as all segments together |
| `Telemetry.Put` | src/store/drones.js:152 | assignment to the dictionary: the key now holds the record and every other key keeps its record; the old key order is a prefix of the new one, which grows by one exactly when the key is new; an order listing every key once still does |
| `Telemetry.CountIsOrderLength` | src/store/drones.js:176-179 | in a well-formed dictionary the number of values iterated equals the number of drones |
| `Tracks.MakeDrone` | src/store/drones.js:21-40 | a new record is stored under the forced serial when there is one; it has a non-empty name, one segment whose one point is also the whole path, and equal start and update times |
| `Tracks.CreatedRecord` | src/store/drones.js:145-153 | a record created for key K has serial K, segments `[[point]]`, path `[point]` (the coordinates, or `[0,0]`), and startedAt equal to lastUpdated |
| `Tracks.AppendIfMoved` | src/store/drones.js:122-129 | append to the last segment unless it already ends at the same spot; specified by `Tracks.MergeAppend` and `Tracks.MergeIdempotent` |
| `Tracks.NextPaths` | src/store/drones.js:116-130 | the segments after a merge; specified by `Tracks.NextPathsTracked`, `Tracks.MergeNewSegment`, `Tracks.MergeAppend` and `Tracks.MergeWithoutPair` |
| `Tracks.Merge` | src/store/drones.js:116-144 | the merged record; specified by `Tracks.MergeFields` and the segment lemmas |
| `Tracks.ApplyFeature` | src/store/drones.js:96-153 | one loop iteration; specified by `Tracks.ApplyFeatureEffect`, `Tracks.ApplyFeatureWellFormed` and `Tracks.ApplyFeatureIdempotent` |
| `Tracks.ApplyAll` | src/store/drones.js:90-154 | the whole loop; specified by `Tracks.ApplyAllWellFormed`, `Tracks.ApplyAllGrows`, `Tracks.SerialStable` and `Tracks.ApplyAllConcat` |
| `Tracks.NextPathsTracked` | src/store/drones.js:116-130 | merging never leaves the record without a segment or with an empty segment |
| `Tracks.MergeNewSegment` | src/store/drones.js:116-121 | a coordinate pair with a new backend serial adds exactly one segment, `[coords]`, leaves the earlier segments unchanged, extends the path by that point and makes the serial current |
| `Tracks.MergeAppend` | src/store/drones.js:122-129 | otherwise the segment count is unchanged; the pair is appended to the last segment (and path) unless it exactly equals that segment's last point, in which case nothing changes |
| `Tracks.MergeWithoutPair` | src/store/drones.js:118 | an update without a coordinate pair leaves the segments untouched |
| `Tracks.MergeFields` | src/store/drones.js:131-144 | serial never changes; a non-empty registration is kept, an empty one is filled from the update; name, pilot, organization and startedAt keep their values; currentSerial follows the update's serial when present; altitude and yaw take the update's value when present and stay otherwise; the stored feature is the update; the path is the flattened segments |
| `Tracks.MergeIdempotent` | src/store/drones.js:116-129 | merging the same update a second time changes no segment |
| `Tracks.MakeDroneAbsorbs` | src/store/drones.js:122-129 | a freshly created record absorbs a repeat of its own update without a change to its segments |
| `Tracks.ApplyFeatureEffect` | src/store/drones.js:95-154 | one iteration touches only the resolved key: dropped when none, merged in place when known, created and appended to the key order when new; every other key keeps its record |
| `Tracks.ApplyFeatureWellFormed` | src/store/drones.js:95-154 | one iteration keeps the dictionary well formed: distinct keys, each record stored under its own non-empty serial, segments non-empty, path flattened |
| `Tracks.ApplyAllWellFormed` | src/store/drones.js:90-159 | the whole loop keeps the dictionary well formed |
| `Tracks.ApplyAllGrows` | src/store/drones.js:90-159 | no drone is ever removed: the old key order is a prefix of the new one and the drone count never decreases |
| `Tracks.SerialStable` | src/store/drones.js:138 | once a drone is stored under K, every later sequence of updates keeps it stored under K with serial K |
| `Tracks.ApplyAllConcat` | src/store/drones.js:95 | applying two feature lists one after another equals applying their concatenation |
| `Tracks.ApplyFeatureIdempotent` | src/store/drones.js:114-129 | applying the same update twice in a row: the second application creates no drone and changes no track |
| `DroneStore.ApplyFeatureStep` | src/store/drones.js:96-153 | the loop body computes exactly one iteration of the specification |
| `DroneStore.Store.constructor` | src/store/drones.js:76-83 | the initial state: no drones, nothing selected or hovered, filter "all", ingest disabled |
| `DroneStore.Store.UpsertFromFeatureCollection` | src/store/drones.js:85-160 | with ingest disabled or without a features array the dictionary is unchanged; otherwise it becomes the result of applying every feature in order; it stays well formed and no other field changes |
| `DroneStore.Store.Select` | src/store/drones.js:162 | selection and selection time replaced, nothing else |
| `DroneStore.Store.Hover` | src/store/drones.js:163 | hovered id replaced, nothing else |
| `DroneStore.Store.ClearUI` | src/store/drones.js:164 | selection and hover cleared; filter mode and everything else untouched |
| `DroneStore.Store.SetFilterMode` | src/store/drones.js:165 | filter mode replaced by any value |
| `DroneStore.Store.EnableIngest` | src/store/drones.js:166 | ingest switched on, nothing else |
| `DroneStore.Store.DisableIngest` | src/store/drones.js:167 | ingest switched off, nothing else |
| `DroneStore.ModeIndex` | src/store/drones.js:170 | the index of the mode in red, green, all, or -1 for any other mode |
| `DroneStore.NextFilterMode` | src/store/drones.js:168-173 | red goes to green, green to all, all to red, and any unknown mode to red |
| `DroneStore.FilterCycleReturns` | src/store/drones.js:168-173 | three cycles bring every known mode back to itself |
| `DroneStore.Store.CycleFilterMode` | src/store/drones.js:168-173 | the filter mode advances one step of the cycle |
| `DroneStore.Store.GetCounters` | src/store/drones.js:175-182 | total is the number of drones, red the number whose registration is not allowed, green the rest; red never exceeds total, so the clamp at 0 never applies |
| `Socket.InitialCandidates` | src/socket.js:15-22 | remote first in production, localhost first in development; specified by `Socket.CandidatesSpec` |
| `Socket.WithoutLocalHttp` | src/socket.js:25-27 | the https filter; specified by `Socket.WithoutLocalHttpMembers` |
| `Socket.NonEmpty` | src/socket.js:30 | the falsy filter; specified by `Socket.NonEmptyMembers` |
| `Socket.Dedup` | src/socket.js:30 | `Array.from(new Set(…))`; specified by `Socket.DedupSpec` and `Socket.DedupHead` |
| `Socket.Candidates` | src/socket.js:15-30 | the whole candidate list; specified by `Socket.CandidatesSpec` |
| `Socket.WithoutLocalHttpMembers` | src/socket.js:25-27 | the https filter keeps exactly the URLs that do not start with http://localhost in any letter case |
| `Socket.NonEmptyMembers` | src/socket.js:30 | the falsy filter keeps exactly the non-empty URLs |
| `Socket.FirstIndex` | src/socket.js:30 | position of the first occurrence of a value |
| `Socket.DedupSpec` | src/socket.js:30 | de-duplication leaves no repeats, drops no value, and keeps values in order of first occurrence |
| `Socket.DedupHead` | src/socket.js:30 | de-duplication keeps the first entry first |
| `Socket.CandidatesSpec` | src/socket.js:15-30 | on an https page no http://localhost URL remains; no entry is empty or repeated; exactly the surviving URLs appear; on other pages the remote URL comes first in production and localhost first in development |
| `Socket.DropLocalHttp` | src/socket.js:25-27 | the filter loop computes the https filter |
| `Socket.DropEmpty` | src/socket.js:30 | the filter loop computes the falsy filter |
| `Socket.DropRepeats` | src/socket.js:30 | the set-building loop computes first-occurrence de-duplication |
| `Socket.BuildCandidates` | src/socket.js:15-30 | the step-by-step construction yields the candidate list, with the properties listed above |
| `Socket.Connector.constructor` | src/socket.js:60 | the walk starts at index 0 with nothing tried |
| `Socket.Connector.AttemptNext` | src/socket.js:61-66 | the next untried candidate is handed out and the index advances by one; once the index reaches the list length nothing is handed out; the URLs handed out are always a prefix of the list, each at most once |
| `Socket.MergedFeatures` | src/socket.js:40-43 | the features of every buffered collection, in order, skipping other payloads; specified by `Socket.CoalescingIsTransparent` |
| `Socket.CoalescingIsTransparent` | src/socket.js:37-49 | at the same time stamp, one store update with the merged features gives the same dictionary as applying the buffered messages one after another |
| `Socket.Batcher.constructor` | src/socket.js:34-35 | empty buffer, no timer pending |
| `Socket.Batcher.OnMessage` | src/socket.js:53-56 | the payload is appended to the buffer; a timer is scheduled exactly when none was pending; a timer is pending exactly while the buffer is non-empty |
| `Socket.Batcher.Flush` | src/socket.js:37-49 | on an empty buffer nothing happens; otherwise the store's upsert runs once on the features of all buffered collections in arrival order, skipping other payloads, and the buffer and timer are reset |
| `MapFeatures.PointsOf` | src/components/MapView.jsx:14-31 | the points of the shown drones in key order; specified by `MapFeatures.PointsSpec` |
| `MapFeatures.LinesOf` | src/components/MapView.jsx:32-42 | the lines of the shown drones with a path of more than one point; specified by `MapFeatures.LinesSpec` |
| `MapFeatures.PointsSpec` | src/components/MapView.jsx:14-31 | every point comes from a drone with coordinates that passes the filter and is flagged 1 iff its registration is allowed; "red" emits only blocked drones and "green" only allowed ones; any other mode emits every drone with coordinates; conversely every shown drone gets its point |
| `MapFeatures.LinesSpec` | src/components/MapView.jsx:32-42 | every line is the full path, of more than one point, of a shown drone; its serial and flag match an emitted point; there are never more lines than points; conversely every shown drone whose path has more than one point gets its line |
| `MapFeatures.ToFeatures` | src/components/MapView.jsx:11-47 | the loop emits the points and lines of the shown drones in the dictionary's iteration order |

## Left out

- `SINGLE_FLIGHT_MODE` and the `SIM-` pool: the constant is `false`, so that branch never runs. The `simPoolSize` and `simIndex` fields exist only for it.
- Haversine distance and `toFixed(3)` formatting are floating-point. They are uninterpreted parameters, and NaN distances are not modelled.
- JavaScript object details: integer-like keys iterate first in numeric order, and keys such as "toString" or "__proto__" hit `Object.prototype`. The model treats every key as an ordinary key in insertion order.
- Property values are strings or optional integers. A numeric `id`, a `null` feature inside `features`, and coordinates that are truthy but not an array are not modelled.
- `Array.isArray(prev.paths) ? … : [prev.path.slice()]`: a record always has `paths` here, so the fallback is not modelled.
- `Tracks.MakeDrone`: makeDrone reads its own `Date.now()`. The model uses the batch's `now` for it.
- `Tracks.MakeDrone`: `nanoid()` is the single parameter `freshId`. The store only calls makeDrone with a non-empty key, so the parameter is never used.
- Exceptions: in the model, `flush`'s `finally` is the plain reset after the upsert. An upsert that throws is not modelled.
- Timers and networking: `setTimeout`, the 80 ms and 4.5 s delays, Socket.IO connection events, `disconnectSocket` and logging. `attemptNext` is modelled as the index walk alone.
- Rendering: Mapbox layers, popups, React components, and the counters re-implemented in `Dashboard.jsx` and `App.js`.
- Zustand's `create`/`set`/`get`: the store is a class whose methods assign its fields.
