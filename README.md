# Parking occupancy monitor — Dafny model

The app shows two parking zones as two coloured boxes. It listens to the
`sensorData` node of a realtime database. Each time the node changes, the
listener gets a snapshot of its children. Each child is a sensor key
(`A1_1` … `A2_3`) with an integer value. The listener counts the zone-1 keys
(`A1_1`, `A1_2`, `A1_3`) that read 0, and the zone-2 keys (`A2_1`, `A2_2`,
`A2_3`) that read 0. A zone is *terisi* (occupied) when its count is 3. Its box
is then painted red; otherwise it is painted green. A cancelled read leaves
both boxes as they were.

The model has three modules. Together they cover the `onDataChange` callback
(lines 51-100 of `MainActivity.kt`) and the `onCancelled` callback
(lines 103-111):

- `SensorData` (`sensor_data.dfy`) models the counting rule of lines 53-73.
  It holds a snapshot as a sequence of
  `Child(key: Option<string>, value: Option<int>)`, the zone table `ZoneKeys`,
  the per-child test `IsZeroIn` (the `key in listOf(...) && value == 0`
  condition of lines 62 and 67, whose consequences `UnrecognisedKeyIgnored`
  and `NonZeroValueIgnored` state), and the specification `ZeroCount` of the
  counters. Its lemmas cover
  additivity, ignored children, zone independence and order independence.
- `Occupancy` (`occupancy.dfy`) models the decision and colour choice of
  lines 75-93. It holds `Occupied(count)`, `ZoneColour` (the colour choice itself, whose
  meaning `ZoneColourRule` and `Indicators.OnDataChange` state), and the rule that,
  with distinct keys, a zone is occupied exactly when all three of its
  sensors are present and read 0.
- `MainActivity` (`main_activity.dfy`) models the code that changes state:
  the counting loop of lines 53-73 as the method `CountZones`, proved against
  `ZoneCount`, and the view writes of lines 82-94 and `onCancelled` as the
  class `Indicators`. The class's fields are the two box colours and its
  methods are the two listener callbacks. A ghost log `painted` records every
  background write, so the model can state that each box is painted exactly
  once per snapshot, left first.

The code counts a duplicated key twice, because nothing in it checks that
keys are unique. The database never delivers two children with the same
key, so the lemmas that tie the count to "all three sensors read 0" take
`DistinctKeys` as a precondition. `Occupancy.DuplicateKeysCanFillZone` shows
that this precondition is needed.

## Model

| member | source | states |
|---|---|---|
| `SensorData.ZoneKeys` | app/src/main/java/com/project/iot/MainActivity.kt:62-67 | each zone has three distinct sensor keys (the two `listOf(...)` literals) |
| `SensorData.ZonesDisjoint` | app/src/main/java/com/project/iot/MainActivity.kt:62-67 | no key is in both zones' key lists |
| `SensorData.IsZeroIn` | app/src/main/java/com/project/iot/MainActivity.kt:62-69 | the per-child test of lines 62 and 67 (key in the zone's list and value `== 0`), stated as the definition of the source's own condition; its consequences are proved by `UnrecognisedKeyIgnored`, `NonZeroValueIgnored` and `ChildCountsForOneZoneAtMost` |
| `SensorData.ChildCountsForOneZoneAtMost` | app/src/main/java/com/project/iot/MainActivity.kt:62-69 | no child passes both the zone-1 test and the zone-2 test, so one child adds to at most one counter |
| `SensorData.ZoneCount` | app/src/main/java/com/project/iot/MainActivity.kt:53-69 | a zone's counter is at most the number of children that carry one of the zone's keys |
| `SensorData.ZeroCount` | app/src/main/java/com/project/iot/MainActivity.kt:53-73 | the counter never exceeds the number of children, and it is 0 if and only if no child is a listed key reading 0 |
| `SensorData.ZeroCountAppend` | app/src/main/java/com/project/iot/MainActivity.kt:57-73 | the count of a concatenation is the sum of the counts of its parts |
| `SensorData.ZeroCountCons` | app/src/main/java/com/project/iot/MainActivity.kt:57-73 | counting from the front gives the same counter as the iteration order: the first child adds 1 exactly when it is a zone key reading 0 |
| `SensorData.NonCountingChildInvisible` | app/src/main/java/com/project/iot/MainActivity.kt:62-69 | inserting a child that is not a zone key reading 0 anywhere in a snapshot leaves that counter unchanged |
| `SensorData.UnrecognisedKeyIgnored` | app/src/main/java/com/project/iot/MainActivity.kt:58-69 | a child with a null key, or a key outside the six sensor keys, changes neither counter |
| `SensorData.NonZeroValueIgnored` | app/src/main/java/com/project/iot/MainActivity.kt:59-69 | a child whose value is null or a non-zero integer changes neither counter |
| `SensorData.ZeroCountRestrict` | app/src/main/java/com/project/iot/MainActivity.kt:62-69 | a counter is unchanged when the snapshot is cut down to the children whose key is in that counter's key list |
| `SensorData.ZonesIndependent` | app/src/main/java/com/project/iot/MainActivity.kt:62-69 | two snapshots that agree on a zone's children give that zone the same counter, whatever their other children |
| `SensorData.RestrictMultiset` | app/src/main/java/com/project/iot/MainActivity.kt:62-69 | cutting a snapshot down to a zone keeps each of the zone's children as often as it occurs and drops every other child |
| `SensorData.RestrictPermutation` | app/src/main/java/com/project/iot/MainActivity.kt:57-69 | reordering a snapshot reorders the children of each zone |
| `SensorData.ZeroCountPermutation` | app/src/main/java/com/project/iot/MainActivity.kt:57-73 | any permutation of the children gives the same counter |
| `Occupancy.Occupied` | app/src/main/java/com/project/iot/MainActivity.kt:75-79 | the threshold `== 3` is "every sensor of the zone counted": it equals the size of each zone's key list |
| `Occupancy.ZoneColour` | app/src/main/java/com/project/iot/MainActivity.kt:75-93 | the red/green choice of lines 83-93 applied to the `== 3` test of lines 76 and 79; its first clause (red if and only if the counter is 3) is this definition itself, and what it adds is that fewer than three children of the zone always give green; what the colour means in terms of the sensors is stated by `ZoneColourRule` |
| `Occupancy.ZeroCountDistinct` | app/src/main/java/com/project/iot/MainActivity.kt:62-69 | with distinct keys, the counter equals the number of distinct key names that read 0 |
| `Occupancy.SensorNotZeroMeansFree` | app/src/main/java/com/project/iot/MainActivity.kt:75-79 | with distinct keys, if one sensor of a zone is absent or does not read 0, that zone's counter is at most 2 |
| `Occupancy.AllZeroMeansFull` | app/src/main/java/com/project/iot/MainActivity.kt:75-79 | with distinct keys, if all three sensors of a zone read 0, that zone's counter is exactly 3 |
| `Occupancy.OccupiedIffAllZero` | app/src/main/java/com/project/iot/MainActivity.kt:75-79 | with distinct keys, a zone is occupied if and only if all three of its sensors are present and read 0 |
| `Occupancy.MissingSensorMeansFree` | app/src/main/java/com/project/iot/MainActivity.kt:75-93 | with distinct keys, a snapshot without one of a zone's keys gives that zone a counter of at most 2 and a green box |
| `Occupancy.ZoneColourRule` | app/src/main/java/com/project/iot/MainActivity.kt:75-93 | with distinct keys, a zone's box is red if and only if all its sensors read 0, and green if and only if they do not |
| `Occupancy.ZoneColourStable` | app/src/main/java/com/project/iot/MainActivity.kt:57-93 | two snapshots whose children of a zone agree up to reordering give that zone the same colour, whatever their other children |
| `Occupancy.ReorderKeepsColours` | app/src/main/java/com/project/iot/MainActivity.kt:57-93 | reordering the whole snapshot keeps both colours |
| `Occupancy.DuplicateKeysCanFillZone` | app/src/main/java/com/project/iot/MainActivity.kt:62-79 | a snapshot with a repeated `A1_1` and no `A1_3` still reaches count 3, so the distinct-keys precondition is necessary |
| `MainActivity.CountZones` | app/src/main/java/com/project/iot/MainActivity.kt:53-73 | the loop leaves each counter equal to its zone's count over the whole snapshot, and at most the number of children |
| `MainActivity.Indicators.constructor` | app/src/main/java/com/project/iot/MainActivity.kt:20-35 | the two boxes start with the colours they are given, and nothing has been painted |
| `MainActivity.Indicators.SetBackground` | app/src/main/java/com/project/iot/MainActivity.kt:84-92 | painting one box sets its colour, keeps the other box's colour and logs one write |
| `MainActivity.Indicators.OnDataChange` | app/src/main/java/com/project/iot/MainActivity.kt:51-94 | after a snapshot, the left box has zone 1's colour and the right box has zone 2's colour. Both depend on this snapshot only. Exactly two writes are logged, left then right |
| `MainActivity.Indicators.OnCancelled` | app/src/main/java/com/project/iot/MainActivity.kt:103-111 | a cancelled read leaves both colours and the write log unchanged |
| `MainActivity.ZoneOneReadingsCount` | app/src/main/java/com/project/iot/MainActivity.kt:53-69 | the three zone-1 readings at 0 give counters 3 and 0 |
| `MainActivity.ZoneTwoReadingsCount` | app/src/main/java/com/project/iot/MainActivity.kt:53-69 | the zone-2 readings `A2_1:1, A2_2:0, A2_3:0` give counters 0 and 2 |
| `MainActivity.Scenarios` | app/src/main/java/com/project/iot/MainActivity.kt:53-93 | `{A1_1:0, A1_2:0, A1_3:0, A2_1:1, A2_2:0, A2_3:0}` gives counts 3 and 2, a red left box and a green right box; an empty snapshot gives two green boxes |

## Left out

- Subscribing to `sensorData` through the database client (lines 38 and 50) is not modelled. The client is foreign code, so a snapshot arrives as a plain sequence parameter.
- The conversion done by `getValue(Int::class.java)` is not modelled. The model receives its outcome as `Option<int>`, which is `None` only when the node holds no value. A stored value the client cannot convert to `Int` (a string, an out-of-range number) makes the client throw, so `onDataChange` stops at line 59 without painting either box; the model has no such path: the nearest input it accepts is a `None` value, which it ignores before painting both boxes. A fractional number is truncated by the client, so 0.5 reads as 0 and counts; the model only sees the converted integer.
- Coroutines, `withContext(Dispatchers.IO)`, `runOnUiThread` and `mainScope.cancel()` are concurrency and lifecycle. `OnDataChange` is modelled as one atomic step. Callbacks that arrive after the screen is destroyed are not modelled, and neither is the listener that is never removed.
- `Toast` and `Log` calls are not modelled: they are presentation and diagnostics. So `OnCancelled` has no visible effect in the model.
- Window insets, `enableEdgeToEdge`, `setContentView` and `findViewById` are UI set-up. The boxes' initial colours come from the layout, which is not part of this model, so they are constructor parameters.
- Platform colour integers (`holo_red_light`, `holo_green_light`) become the enum `Colour`.
- `MainActivity.CountZones`: the counters are unbounded `nat`s rather than 32-bit `Int`s. They can only wrap after more than 2^31 children, which a snapshot cannot hold.
