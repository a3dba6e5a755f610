# UWB station simulator: a Dafny model of its core

The simulator keeps a collection of ultra-wideband stations. Each station is an
*anchor* with a fixed position, or a *tag* that moves across a rectangular plane
towards a target point. Once a tag has moved, its distances to every anchor are
recomputed. Every change to a station marks the changed field as *dirty* (pending).
Each tick of the simulation loop writes every dirty station to SQLite and publishes
it over MQTT. Publishing clears the published fields.

This project models that core in Dafny and proves what each part promises:

- The station entity (`models/station.py`) is the class `Stations.Station`. Each setter
  is a method that keeps the dirty list free of duplicates. Construction, `move` and
  `add_distance_to_anchor` are each a method tied to a function on a value view of the
  station (`StationView`).
- The simulation service (`services/simulation_service.py`) is the class
  `Simulation.SimulationService`. It holds the station collection, the role filters,
  the distance computation, peer refresh, the ranging update and the lookups.
- MQTT publishing (`publish_station`, `publish_status`) is the class `Mqtt.MqttService`.
  It has a log of sent messages and a faithful model of the loop that removes fields
  while it iterates over them.
- The row conversions of the SQLite backend (`_station_to_db_format`,
  `_db_to_station`), `update_station`, `save_stations` and `get_storage_instance` live
  in module `Storage`. The database is a log of the rows it was handed.
- `prepare_stations` and one pass of the `run_simulation` loop are in module
  `Orchestration`. They come with their failure paths: a `randint` over an empty range
  raises `ValueError`.

Randomness, the clock, `math.sqrt` and the `atan2`/`cos`/`sin` heading are parameters
of the operations that use them. The model holds for every choice of them. The square
root is constrained only by what a square root satisfies (`Simulation.IsSqrt`).

Modules, in dependency order:

- `Seqs` (`seqs.dfy`): sequence lemmas.
- `Wrappers` (`wrappers.dfy`).
- `Text` (`text.dfy`): string helpers.
- `DirtyFields` (`dirty.dfy`).
- `Stations` (`station.dfy`).
- `Simulation` (`simulation.dfy`).
- `Storage` (`storage.dfy`).
- `Mqtt` (`mqtt.dfy`).
- `Orchestration` (`main.dfy`).

The model follows the code as written:

- A flush sweep does not clear every published field. `publish_station` removes each
  visited field from the list it iterates over, so the field that moves into the freed
  slot is never visited and stays dirty. `Mqtt.Survivors` is the closed form of what
  stays, and `Mqtt.SurvivorsOfKnown` gives its exact shape.
- The snapshot and stamp topics are not sent on every publish. They are sent only for
  a dirty station with a connection and a client (`Mqtt.PublishGuard`).
- The topic segment is not the name with whitespace and colons stripped. Each space
  becomes `_` and each colon is removed (`Mqtt.TopicSegment`).

## Model

| member | source | states |
|---|---|---|
| DirtyFields.Mark | models/station.py:197-278 | after a setter the field is pending; no other field joins; the list grows by one only when the field was absent; a list without repeats keeps none |
| DirtyFields.RemoveFirst | models/station.py:280-282 | `list.remove` when present: the field is gone from a list without repeats, the length drops by one, every other field keeps its presence; absent is a no-op |
| DirtyFields.RemoveFirstAt | models/station.py:280-282 | removal drops exactly the first occurrence, at its index |
| DirtyFields.MarkTwice | models/station.py:197-278 | a second identical setter call adds nothing: marking is idempotent |
| DirtyFields.MarkKeepsOrder | models/station.py:197-278 | marking keeps the pending fields in their order, so fields stay in first-mutation order |
| DirtyFields.RemoveThenMark | models/station.py:238-250 | a field removed and then set again goes to the end of the list |
| DirtyFields.RemoveFirstTwice | models/station.py:280-282 | clearing an already-cleared field changes nothing |
| DirtyFields.NamesInjective | models/station.py:197-282 | two well-formed entries (no `Other` carrying a named field's name) with the same name string are the same entry, so the list of entries is the source's list of names |
| Text.Split | models/station.py:86-97 | splitting gives at least one part, and exactly one when the separator is absent |
| Text.SplitJoinWith | models/station.py:80-97 | splitting a `:`-joined MAC gives back its parts |
| Text.Upper | models/station.py:40-48 | `.upper()` on ASCII: each `a`-`z` becomes its capital, every other character is kept, and the length is kept |
| Text.Lower | services/storage_service.py:212 | `.lower()` on ASCII: each `A`-`Z` becomes its small letter, every other character is kept, and the length is kept |
| Text.LowerUpper | services/storage_service.py:212 | with the ASCII mapping, `.lower()` after `.upper()` is the same as `.lower()` alone |
| Text.Hex2 | models/station.py:80-97 | `format(b, "02x")` gives two lower-case hex digits whose value, high digit first, is `b` |
| Text.LowerOfLowerHex | models/station.py:95 | `.lower()` leaves a string of lower-case hex digits unchanged |
| Text.ReplaceChar | services/mqtt_service.py:109 | `.replace(' ', '_')` rewrites exactly the spaces and keeps the length |
| Text.RemoveCharSpec | services/mqtt_service.py:109 | `.replace(':', '')` removes every colon, keeps every other character's presence and never lengthens |
| Text.RemoveCharCounts | services/mqtt_service.py:109 | `.replace(':', '')` drops every colon and keeps every other character exactly as often as it occurs; the length falls by the number of colons |
| Text.RemoveAppend | services/mqtt_service.py:109 | removing colons distributes over concatenation, so the kept characters stay in their order |
| Text.RemoveAbsent | services/mqtt_service.py:109 | a name without colons is left as it is |
| Stations.TypeNamed | models/station.py:8-11 | a key names a device type exactly when it is ANCHOR, TAG or NONE, and that type's name is the key |
| Stations.ParseTypeArg | models/station.py:40-48 | a string is accepted exactly when its upper-case form names a type, else ValueError with the message; a member is taken as given; no argument gives NONE |
| Stations.Clamp | models/station.py:311-312 | `max(0, min(size, v))`: in range for a non-negative size, the identity inside it, the edge above it, 0 below it |
| Stations.KeysIndex | models/station.py:344-347 | a MAC is a key of the ranging table exactly when some entry has that MAC |
| Stations.Upsert | models/station.py:342-349 | an existing MAC is updated in place with the length kept, a new MAC is appended, other entries are untouched, keys stay unique and the keyed entry holds the new distance |
| Stations.UpsertAt | models/station.py:344-349 | the loop's first matching index is updated; with no match the entry is appended |
| Stations.UpsertAll | services/simulation_service.py:51-58 | a run of upserts adds exactly the new MACs to the keys and keeps them unique |
| Stations.UpsertAllHolds | services/simulation_service.py:51-58 | with unique keys on both sides, every distance record of the run ends in the table |
| Stations.UpsertAllKeeps | services/simulation_service.py:51-58 | an entry whose MAC the run does not touch survives the run |
| Stations.UpsertAllPresent | services/simulation_service.py:51-58 | re-ranging against anchors that all have entries does not grow the table |
| Stations.UpsertAllTwice | services/simulation_service.py:51-58 | ranging twice against the same anchors does not grow the table again |
| Stations.AsDictIgnoresDirtyList | models/station.py:122-139 | the `as_dict` snapshot does not depend on the dirty list |
| Stations.AsDict | models/station.py:123-139 | the `as_dict` snapshot: MAC, name, type name, cluster name and MACs, position, target, randomizer and both stamps |
| Stations.MacsOfSpec | models/station.py:165-167 | the foreign MAC list has one MAC per peer, in peer order |
| Stations.GeneratedMacParts | models/station.py:80-84 | a generated MAC has the `ab:cd:ef` prefix followed by the three drawn octets in hex |
| Stations.GenerateMac | models/station.py:80-84 | `_generate_mac`: the fixed `ab:cd:ef` prefix and three drawn octets in two-digit hex, joined by colons |
| Stations.GenerateName | models/station.py:86-97 | `_generate_name`: the name prefix and, for a MAC of six or more colon-separated parts, every part from the fourth on, joined and lower-cased; otherwise three fresh octets in hex |
| Stations.NameOfGeneratedMac | models/station.py:86-97 | the name of a generated MAC is the prefix plus its last three octets |
| Stations.ConstructErrors | models/station.py:15-78 | the constructor raises exactly for an unknown type string (checked first) or a randomizer outside [0, 1]; with a valid type and no randomizer argument it cannot raise |
| Stations.Construct | models/station.py:15-78 | `Station(...)` on values: the type is parsed first, each truthy argument goes through its setter in the constructor's order, and an unknown type or a randomizer outside [0, 1] raises; its properties are the four `Stations.Construct...` lemmas |
| Stations.ConstructIdentity | models/station.py:50-58 | a truthy MAC or name is kept; with neither, the MAC is generated and the name derived from it |
| Stations.ConstructFields | models/station.py:40-78 | each passed position, target, truthy cluster name and creation time is taken, otherwise the default; the randomizer is the argument or the draw; no stamp, peers or distances |
| Stations.ConstructDirtyFields | models/station.py:50-78 | a new station's pending list is MAC, name, then each passed field in setter order, once each |
| Stations.MoveSkips | models/station.py:298-302 | `move` returns False and changes nothing exactly for a non-tag, or under realistic movement when the draw exceeds the randomizer |
| Stations.MoveStep | models/station.py:290-325 | `move` on a value: a non-tag, or a realistic move whose chance draw exceeds the randomizer, is skipped with False; otherwise one clamped step with the position pending, and on arrival a new target drawn per axis, which raises for a negative plane size; its properties are `Stations.MoveSkips`, `Stations.MoveInPlane` and `Stations.StepStopsAtEdge` |
| Stations.MoveInPlane | models/station.py:304-325 | a step that is not skipped returns True, lands in the plane, marks the position pending, and re-targets to the drawn point exactly on arrival, with `target_point` then pending; nothing but the position, the target and the pending list changes |
| Stations.StepStopsAtEdge | models/station.py:308-312 | a step that overshoots an edge ends on that edge, on the x axis and on the y axis |
| Stations.AddDistanceUpserts | models/station.py:336-352 | on a tag the anchor's entry is upserted and `ranging_data` becomes pending; any other station is unchanged |
| Stations.Station.Init | models/station.py:15-61 | the object holds the parsed fields, with MAC and name (and a passed position) pending |
| Stations.Station.Create | models/station.py:15-78 | a construction fails exactly when the value model fails, with its error; otherwise the new object holds the constructed state |
| Stations.Station.SetDeviceType | models/station.py:219-229 | an unknown string raises a KeyError and a missing value raises a ValueError, both with no change; otherwise the type is set and marked pending |
| Stations.Station.SetRandomizer | models/station.py:209-217 | a value outside [0, 1] raises with no change; otherwise it is set and marked pending |
| Stations.Station.SetUpdatedAt | models/station.py:231-236 | sets the stamp and marks it pending; nothing else changes |
| Stations.Station.GetCreatedAt | models/station.py:238-243 | the getter returns the creation time and takes `created_at` out of the pending list |
| Stations.Station.SetCreatedAt | models/station.py:245-250 | sets the creation time and marks it pending |
| Stations.Station.SetClusterName | models/station.py:252-257 | sets the cluster name and marks it pending |
| Stations.Station.SetPosition | models/station.py:259-264 | sets the position and marks it pending |
| Stations.Station.SetTargetPoint | models/station.py:266-271 | sets the target and marks it pending |
| Stations.Station.SetClusterStations | models/station.py:273-278 | sets the peers (and so their MACs) and marks them pending |
| Stations.Station.RemoveFromUpdatedFields | models/station.py:280-282 | the field is no longer pending and nothing else changes |
| Stations.Station.SetRandomPosition | models/station.py:99-100 | the position becomes the drawn integer point, which lies in the plane, and is pending |
| Stations.Station.SetRandomTargetPoint | models/station.py:102-120 | the target is the position shifted by the drawn offsets, clamped per axis into the plane, and pending |
| Stations.Station.Move | models/station.py:290-325 | the object's result and new state are those of the step on its old state |
| Stations.Station.AddDistanceToAnchor | models/station.py:336-352 | the new state is the upsert of the anchor's distance on the old state |
| Simulation.WithRoleMembers | services/simulation_service.py:17-23 | the anchors (tags) are exactly the stations with that role |
| Simulation.WithRoleAppend | services/simulation_service.py:17-23 | filtering a concatenation is concatenating the filters: appended stations come last |
| Simulation.WithRoleUniform | services/simulation_service.py:17-23 | filtering stations that all have one role keeps all of them or none |
| Simulation.RolesDisjoint | services/simulation_service.py:17-23 | no station is both an anchor and a tag; an unassigned station is neither |
| Simulation.OthersMembers | services/simulation_service.py:33-38 | a station's peers are exactly the stations with another MAC |
| Simulation.OthersAppend | services/simulation_service.py:33-38 | the peer filter distributes over concatenation |
| Simulation.WithPeersTwice | services/simulation_service.py:33-38 | refreshing the peers twice equals refreshing them once |
| Simulation.DistanceUpdates | services/simulation_service.py:51-58 | one record per anchor, in anchor order, holding the Euclidean distance and its scaled value |
| Simulation.TagDistancesHold | services/simulation_service.py:51-58 | after ranging, the tag's table holds every new record and its keys gain exactly the anchors' MACs |
| Simulation.TagDistances | services/simulation_service.py:51-58 | `update_tag_distances` on a view: a non-tag is unchanged; a tag gets one upsert per anchor, and its table becomes pending when there is an anchor |
| Simulation.TagDistancesTwice | services/simulation_service.py:51-58 | ranging twice does not grow the table again |
| Simulation.TagDistancesSnoc | services/simulation_service.py:55-58 | one more `add_distance_to_anchor` extends the run by one record |
| Simulation.UpsertAllSnoc | services/simulation_service.py:55-58 | one more upsert extends the run by one record |
| Simulation.DistanceFacts | services/simulation_service.py:40-49 | the distance is non-negative and symmetric, and zero between equal points |
| Simulation.SquareFacts | services/simulation_service.py:40-49 | a squared difference is symmetric and non-negative, and zero for equal values |
| Simulation.SimulationService.constructor | services/simulation_service.py:8-12 | an empty collection with the given plane and scaling factor |
| Simulation.SimulationService.AddStation | services/simulation_service.py:14-15 | the station is appended |
| Simulation.SimulationService.SetStations | services/simulation_service.py:30-31 | the collection is replaced |
| Simulation.SimulationService.CalculateDistance | services/simulation_service.py:40-49 | the raw value is the Euclidean distance between the positions, and the scaled value is it times the factor |
| Simulation.SimulationService.UpdateDeviceKnowledge | services/simulation_service.py:33-38 | every station's peers become all stations with another MAC, pending, and nothing else changes |
| Simulation.SimulationService.KnowNext | services/simulation_service.py:33-38 | one pass of that loop gives the next station its peers and leaves the stations not yet reached as they were |
| Simulation.SimulationService.UpdateTagDistances | services/simulation_service.py:51-58 | the tag's new table is the old one with a record for each anchor, in anchor order; the anchors and their views stay as they were |
| Simulation.SimulationService.UpsertAnchors | services/simulation_service.py:55-58 | the loop over the anchors performs exactly the run of upserts |
| Simulation.SimulationService.UpsertAnchor | services/simulation_service.py:56-58 | one iteration extends the run by one record |
| Simulation.SimulationService.GetStationByMac | services/simulation_service.py:60-64 | None exactly when no station has the MAC; otherwise the first station that has it |
| Simulation.SimulationService.GetStationByName | services/simulation_service.py:66-70 | None exactly when no station has the name; otherwise the first station that has it |
| Storage.Values | services/storage_service.py:58-74 | the tuple has one cell per column |
| Storage.RowOf | services/storage_service.py:58-74 | `_station_to_db_format`: the stored columns of a station, its type as the type name |
| Storage.RowInColumnOrder | services/storage_service.py:58-74 | the row's k-th cell stores the value of the table's k-th column |
| Storage.RowOfIgnoresDirtyList | services/storage_service.py:58-74 | the row does not depend on the dirty list |
| Storage.HydrateErrors | services/storage_service.py:76-104 | reading a row raises exactly for a type string that names no type in any case (checked first) or a randomizer outside [0, 1] |
| Storage.Hydrate | services/storage_service.py:76-104 | `_db_to_station`: the constructor on the row's columns, then the `updated_at` and `created_at` setters; the constructor's exceptions propagate |
| Storage.HydratedDirtyFields | services/storage_service.py:91-102 | a loaded station's pending list is MAC, name, position, randomizer, (cluster name), target, then both stamps |
| Storage.HydratedValues | services/storage_service.py:76-104 | a loaded station holds each stored column; a zero (falsy) randomizer is redrawn; an empty MAC, name or cluster name is replaced |
| Storage.RoundTrip | services/storage_service.py:58-104 | a station written and read back has the same type, position, target, stamps and (non-zero) randomizer, and the same non-empty MAC, name and cluster; peers and distances are not stored |
| Storage.RowHydrates | services/storage_service.py:58-104 | the row of a station with a randomizer in [0, 1] is read back without a raise |
| Storage.RowRoundTrip | services/storage_service.py:58-104 | reading a row and writing it again gives back the row, once each column holds a value the constructor keeps |
| Storage.TypeNameInjective | models/station.py:8-11 | the stored type string determines the device type |
| Storage.RowsOf | services/storage_service.py:163-176 | one row per station, in order |
| Storage.RowsOfSnoc | services/storage_service.py:168-176 | the batch grows by one row per loop iteration |
| Storage.SqliteStorage.constructor | services/storage_service.py:22-25 | a backend for the path with nothing written |
| Storage.SqliteStorage.StationToDbFormat | services/storage_service.py:58-74 | the row of the station's state; reading it takes `created_at` out of the pending list |
| Storage.SqliteStorage.DbToStation | services/storage_service.py:76-104 | the loaded object exists exactly when hydration succeeds, holds its state, and otherwise carries its error |
| Storage.SqliteStorage.UpdateStation | services/storage_service.py:186-208 | one row, the station's state, is appended to the log |
| Storage.SqliteStorage.SaveStations | services/storage_service.py:163-184 | one batch of every station's row, in order, is appended, and each station only loses `created_at` from its pending list |
| Storage.StorageChoice | services/storage_service.py:211-219 | `sqlite` in any letter case selects SQLite at the database path; anything else raises with the message |
| Storage.StorageChoiceIgnoresCase | services/storage_service.py:212 | upper-casing the ASCII letters of the type does not change the choice |
| Storage.GetStorageInstance | services/storage_service.py:211-219 | a fresh empty backend at the path exactly when the choice succeeds, else its error |
| Mqtt.FieldMessages | services/mqtt_service.py:120-184 | every topic lies under the station's prefix; nothing is sent exactly for an unknown field, or for the target of a non-tag |
| Mqtt.TopicPrefix | services/mqtt_service.py:109 | the per-station topic root: the base, `/devices/`, and the name with spaces as `_` and colons removed |
| Mqtt.TopicSegment | services/mqtt_service.py:109 | the topic is `<base>/devices/` plus the name with spaces as `_` and colons removed; no space or colon remains, and other characters are kept |
| Mqtt.TopicOfGeneratedShape | services/mqtt_service.py:109 | a name of the form `x:y z` gets the segment `xy_z` |
| Mqtt.TopicPrefixExample | services/mqtt_service.py:109 | a generated name `GPS:No Station-123456` publishes under `<base>/devices/GPSNo_Station-123456` |
| Mqtt.SweepSpec | services/mqtt_service.py:116-187 | the loop that removes while iterating leaves exactly the survivors and visits exactly the fields in their order |
| Mqtt.Visit | services/mqtt_service.py:171-187 | one visit: a known field leaves the pending list (`created_at` through its getter and then the removal), an unknown one stays |
| Mqtt.Remaining | services/mqtt_service.py:116-187 | the pending list when Python's list iterator, whose position advances over a list that shrinks under it, stops |
| Mqtt.Survivors | services/mqtt_service.py:116-187 | the closed form of what one sweep leaves pending: an unknown field stays, and a known field goes while the entry after it is skipped and stays |
| Mqtt.Visited | services/mqtt_service.py:116-187 | the closed form of the fields one sweep visits, in order |
| Mqtt.SurvivorsSpec | services/mqtt_service.py:116-187 | survivors were pending before; an unknown field always survives; a leading known field makes the list strictly shorter |
| Mqtt.VisitedSub | services/mqtt_service.py:116-187 | every visited field was pending |
| Mqtt.VisitedKnownGone | services/mqtt_service.py:116-187 | in a list without repeats, a known field the sweep visits does not stay pending |
| Mqtt.KnownSurvivorSkipped | services/mqtt_service.py:116-187 | a known field stays pending only when it came right after a visited known field, whose removal moved it into the visited slot |
| Mqtt.SurvivorsOfKnown | services/mqtt_service.py:116-187 | with only known fields, exactly every second one survives, so half of them stay pending |
| Mqtt.SkipExample | services/mqtt_service.py:116-187 | position, target, stamp: the target survives the sweep |
| Mqtt.NoDupSurvivors | services/mqtt_service.py:116-187 | the survivors of a list without repeats have none |
| Mqtt.SentForTopics | services/mqtt_service.py:116-184 | every field message lies under the prefix |
| Mqtt.PublishGuard | services/mqtt_service.py:101-192 | nothing is sent and nothing changes exactly without a connection, without a client, or for a clean station; otherwise the last two messages are the snapshot and the stamp |
| Mqtt.Publish | services/mqtt_service.py:101-192 | `publish_station` on values: nothing without a connection or a client or for a clean station; otherwise the stamp, the sweep's messages, then the snapshot and the stamp |
| Mqtt.PublishSpec | services/mqtt_service.py:108-192 | a publish stamps `updated_at` first, leaves the survivors pending, sends the visited fields' messages then the snapshot and stamp, all under the prefix, and keeps the pending list without repeats |
| Mqtt.CleanAfterStampOnly | services/mqtt_service.py:111-187 | a station whose only pending field is the stamp comes out clean |
| Mqtt.OneFieldLeavesStamp | services/mqtt_service.py:111-187 | one pending known field: the stamp appended after it is skipped and stays pending |
| Mqtt.FieldMessagesIgnoreDirty | services/mqtt_service.py:120-178 | a field's message does not depend on the pending list |
| Mqtt.NothingSent | services/mqtt_service.py:194-199 | without a connection or a client, `publish_status` sends nothing |
| Mqtt.MqttService.constructor | services/mqtt_service.py:19-36 | a service with the given topic root and connection state, with nothing sent |
| Mqtt.MqttService.PublishField | services/mqtt_service.py:120-187 | one field's messages are sent and the field is visited |
| Mqtt.MqttService.Sweep | services/mqtt_service.py:116-187 | the loop leaves the pending list as the modelled iteration does and sends the visited fields' messages in order |
| Mqtt.MqttService.PublishStation | services/mqtt_service.py:101-192 | the new station state and the sent messages are those of the publish on the old state |
| Mqtt.MqttService.PublishStatus | services/mqtt_service.py:194-203 | each station is published in order, the k-th at stamp `clock(k)`; without a connection or a client nothing happens |
| Mqtt.MqttService.PublishEach | services/mqtt_service.py:201-203 | the loop publishes each station as it is when reached |
| Mqtt.MqttService.PublishNext | services/mqtt_service.py:202 | one iteration adds one station's messages |
| Orchestration.DistinctSnoc | main.py:45 | appending a new object keeps the collection free of repeats |
| Orchestration.TurnOutcome | main.py:95-105 | a turn's outcome is `move`'s, only an empty `randint` range raises, and the turn of a non-tag changes nothing |
| Orchestration.TagTurn | main.py:96-104 | one tag's turn: `move`, then the distances to the anchors only when it returned True |
| Orchestration.DistancesOnlyWhenMoved | main.py:96-104 | distances are recomputed exactly for a tag that moved; its keys then gain exactly the anchors' MACs, and `ranging_data` becomes pending when there is an anchor |
| Orchestration.KeysOfUpdates | main.py:104 | the distance records name exactly the anchors' MACs |
| Simulation.TypesOf | services/simulation_service.py:17-23 | the device types read off the objects, one per station |
| Simulation.RolesByTypes | services/simulation_service.py:17-23 | the role filters depend on the objects only through their types |
| Orchestration.WithRoleDistinct | main.py:95 | filtering a collection without repeats gives one without repeats |
| Orchestration.TakeTurn | main.py:96-105 | one tag's turn on the objects has the value-level outcome and leaves the tag as its turn does; the anchors keep their state |
| Orchestration.MoveTag | main.py:96-102 | `move` inside the service keeps the anchors and the other stations |
| Orchestration.RangeTag | main.py:104 | `update_tag_distances` inside the service keeps the anchors |
| Orchestration.TurnNext | main.py:95-105 | one iteration of the tag loop advances the set of tags that have had their turn by one |
| Orchestration.AllTurned | main.py:95-105 | once every tag has had its turn, every station is as its turn leaves it |
| Orchestration.OutsideNotTags | main.py:95-105 | a station the tag filter leaves out is not a tag, so the first loop does not touch it |
| Orchestration.MoveTags | main.py:95-105 | the loop passes exactly when no turn raises, and then every station is as its turn leaves it; after a raise each station is as it was or as its turn left it |
| Orchestration.TurnLoop | main.py:95-105 | the loop over the fixed list of tags, stopping at the first raise |
| Orchestration.FlushGuard | main.py:107-110 | a station is written exactly when it is dirty, and only a written station is published; it is published exactly when the service is connected, has a client, and something besides `created_at` is pending, and then it carries the new stamp |
| Orchestration.FlushTurn | main.py:107-110 | one station in the second loop: a dirty station is written with `update_station` and then published; a clean one is skipped |
| Orchestration.QuietFlush | main.py:107-110 | with nothing dirty nothing is written or sent; without a client nothing is sent |
| Orchestration.FlushEach | main.py:107-110 | every station ends as its flush leaves it, and the writes and messages are those of the flushes, in station order |
| Orchestration.FlushTurned | main.py:107-110 | once every tag has taken its turn, the second loop leaves each station, the writes and the messages as the flushes of the turned stations say |
| Orchestration.FlushNext | main.py:108-110 | one iteration writes and publishes one station |
| Orchestration.FlushOne | main.py:108-110 | a dirty station is written and published, leaving it, the log and the messages as its flush says; a clean one is left alone |
| Orchestration.Tick | main.py:93-116 | a tick passes exactly when no turn raises; it then writes and publishes the turned stations as the flush promises; after a raise nothing more is sent and the stations, as the raise left them, are saved as one batch |
| Orchestration.TickFrom | main.py:93-116 | the same tick, stated on the stations' views and the turns fixed at its start |
| Orchestration.SaveAfterRaise | main.py:114-116 | the `except` branch saves the partly-turned collection once |
| Orchestration.Needed | main.py:34-35 | `max(0, wanted - present)`: enough to reach the target, exact when positive, and positive exactly when short |
| Orchestration.RandInt | models/station.py:100 | `randint(lo, hi)` lies in [lo, hi] |
| Orchestration.NewStationBuilds | main.py:39-41 | `Station(device_type=t, cluster_name=c)` cannot raise and gives a blank station at the origin |
| Orchestration.Placed | main.py:43 | a placed station lies in the plane, has its position pending, and is otherwise unchanged |
| Orchestration.CreateAnchors | main.py:37-45 | raises exactly when anchors are needed and the plane size is negative, with no change; otherwise appends that many fresh blank anchors in the plane |
| Orchestration.CreateAnchor | main.py:39-43 | a fresh blank anchor, placed |
| Orchestration.CreateTags | main.py:47-53 | appends that many fresh blank tags at the origin |
| Orchestration.CreateTag | main.py:50-52 | a fresh blank tag at the origin |
| Orchestration.UpdatesSnoc | main.py:55-59 | the writes grow by one row per iteration |
| Orchestration.UpdatesAppend | main.py:55-69 | the writes of two runs are the writes of the first then the second |
| Orchestration.RegensShape | main.py:55-57 | regeneration keeps the role and places a regenerated anchor in the plane; without regeneration the anchor stays where it was |
| Orchestration.Written | main.py:55-69 | the views a loop leaves once it has written each station: the row read of `update_station` takes `created_at` out of every pending list |
| Orchestration.WrittenViews | main.py:55-69 | stations that each look as written from a list of views have exactly the written views |
| Orchestration.RegensKeep | main.py:55-59 | an anchor written by the anchor loop keeps everything except its position and pending list, cluster MACs and distances included; without regeneration (or on a negative plane) it only loses `created_at` from the pending list; with regeneration it is the placed anchor, as written back |
| Orchestration.ResetAnchors | main.py:55-59 | raises exactly for regeneration with anchors and a negative plane, with nothing written or changed; otherwise the anchors' views are their regenerated views as written back, each anchor is written in order, no station but an anchor changes, no role changes, and without regeneration no position changes |
| Orchestration.AnchorsReset | main.py:55-59 | with a usable plane, the anchors' views are their regenerated views as written back, each anchor is written in order, stations that are not anchors and every role stay as they were, regenerated anchors lie in the plane, and without regeneration every anchor keeps its position |
| Orchestration.AnchorLoop | main.py:55-59 | the anchors are regenerated and written in order; without regeneration they keep their positions |
| Orchestration.ResetAnchor | main.py:56-59 | one anchor regenerated and written |
| Orchestration.ResetShape | main.py:61-67 | a reset tag is at the origin, with its target in the plane within the radius and pending, and is otherwise unchanged |
| Orchestration.ResetsShape | main.py:61-67 | every reset keeps the role and puts the tag at the origin with its target in the plane |
| Orchestration.ResetsKeep | main.py:61-69 | a tag written by the tag loop keeps everything except its position, target and pending list, cluster MACs and distances included, and sits at the origin |
| Orchestration.ResetTags | main.py:61-69 | raises exactly for tags with a negative radius, after moving the first tag to the origin and before any write; otherwise the tags' views are their reset views as written back, each tag is written in order, and no station but a tag changes |
| Orchestration.MoveFirst | main.py:62 | the first tag is moved to the origin before the raise |
| Orchestration.TagsReset | main.py:61-69 | the tag loop with a usable radius, stated on the whole collection |
| Orchestration.TagLoop | main.py:61-69 | the tags are reset and written in order |
| Orchestration.ResetTag | main.py:62-69 | one tag reset and written |
| Orchestration.ResetPoints | main.py:62-69 | one tag's reset and its write |
| Orchestration.RoleViewsMembers | services/simulation_service.py:17-23 | the filtered views are exactly those with the role |
| Orchestration.RoleViewsOf | services/simulation_service.py:17-23 | the views of the role's stations are the role filter of the views |
| Orchestration.RefreshCovers | main.py:74-77 | after the refresh every tag holds a distance for every anchor |
| Orchestration.RefreshShape | main.py:74-77 | every station's peers are the stations with another MAC, pending, and nothing else but its table and pending list changes |
| Orchestration.RangedViewKeeps | main.py:77 | ranging changes only the table and the pending list, and keeps what was pending |
| Orchestration.RangedViewKeys | main.py:77 | ranging adds exactly the anchors' MACs to a tag's keys |
| Orchestration.RangeAll | main.py:76-77 | the ranging loop ranges every tag against the anchors and keeps the peers |
| Orchestration.RangeLoop | main.py:76-77 | the loop over the tags ranges each one |
| Orchestration.RangeNext | main.py:77 | one tag ranged |
| Orchestration.Refresh | main.py:74-79 | peers and distances are refreshed and the whole collection is saved once as refreshed |
| Orchestration.PeerAndRange | main.py:74-77 | the collection after peers and ranging is the refreshed one |
| Orchestration.Peer | main.py:74 | every station's peers refreshed |
| Orchestration.SaveAll | main.py:79 | one batch of the collection's rows is saved, and the peers are kept |
| Orchestration.SameRows | main.py:55-79 | views with the same rows give the same writes |
| Orchestration.Prepare | main.py:21-79 | loaded stations are appended; the call raises exactly when a `randint` range is empty on the path taken; otherwise each role reaches its target, tags are at the origin with targets in the plane, regenerated anchors are in the plane, every anchor then every tag is written once, and after a creation every tag ranges every anchor, every station knows the others, and the collection is saved; every created anchor lies in the plane, with or without regeneration; when nothing has to be created no station is appended, each anchor and each tag ends as the reset loops write it back (see `Orchestration.RegensKeep` and `Orchestration.ResetsKeep` for what that keeps), and unassigned stations are untouched; whether or not anything is created, without regeneration every loaded anchor keeps its position and its stored row, and on success every loaded anchor and tag keeps its stored columns other than coordinates (MAC, name, type, randomizer, cluster name, timestamps) |
| Orchestration.Loaded | main.py:34-79 | the promises of `Orchestration.Prepare`, stated on the collection as loaded; every created anchor lies in the plane; when nothing has to be created nothing is appended, the anchors' and tags' views are those the reset loops write back, and unassigned stations are untouched; with or without a creation, loaded anchors keep position and row when there is no regeneration, and every loaded anchor and tag keeps its non-coordinate columns on success |
| Orchestration.Finish | main.py:55-79 | the reset loops and, after a creation, the refresh: roles kept, a raise exactly on an empty range; without a creation the anchors' and tags' views are exactly those the reset loops write back and unassigned stations are untouched; without regeneration no anchor moves |
| Orchestration.CreatePhase | main.py:34-53 | raises exactly when anchors are needed on a negative plane; otherwise each role grows by what is needed, the collection by exactly that many fresh objects, and every created anchor lies in the plane |
| Orchestration.RoleCounts | main.py:34-53 | appending anchors then tags grows each role by its own count |
| Orchestration.Appended | main.py:34-53 | anchors in the plane and then tags appended to a collection grow each role by its own count, and every appended anchor lies in the plane |
| Orchestration.ResetPhase | main.py:55-69 | the two reset loops keep every role and leave unassigned stations alone; they raise exactly on an empty range; otherwise they write the anchors then the tags, the anchors' views are their regenerated views and the tags' views their reset views, each as written back; without regeneration no anchor moves |
| Orchestration.AnchorPhase | main.py:55-59 | the anchor loop keeps every role and the tags' views and changes no station but an anchor; it raises exactly for regeneration with anchors on a negative plane, writing nothing; otherwise the anchors' views are their regenerated views as written back and every anchor is written; without regeneration no position changes |
| Orchestration.TagPhase | main.py:61-69 | the tag loop keeps every role and every station but a tag; it raises exactly for tags with a negative radius, writing nothing; otherwise the tags' views are their reset views as written back, every tag is written, and each tag is at the origin with its target in the plane |
| Orchestration.RolesKept | main.py:55-69 | while the device types stay, the role filters pick the same stations, and a role's views stay when only stations of another role changed |
| Orchestration.RefreshPhase | main.py:71-79 | the refresh keeps roles, positions and targets, covers all anchors, and saves the collection |
| Orchestration.ResetRefresh | main.py:55-79 | the two reset loops followed by the refresh: roles kept, a raise exactly on an empty range; on success tags at the origin with targets in the plane, every tag ranges every anchor, every station knows the others, the collection is saved once, and the stored columns other than coordinates are unchanged; without regeneration no anchor moves |
| Orchestration.FixedOf | services/storage_service.py:58-74 | the stored columns of each view other than its coordinates, one per view in order |
| Orchestration.UpdatesFixed | main.py:55-79 | two lists of views written alike have the same non-coordinate columns |
| Orchestration.FixedPrefix | main.py:34-79 | appending stations after the loaded ones leaves the loaded stations' non-coordinate columns at the front |
| Orchestration.RefreshViews | main.py:74-79 | the refresh, stated on the views before and after |
| Orchestration.RefreshKeeps | main.py:74-79 | the refresh keeps each station's role, position, target and row |
| Orchestration.RoleRows | main.py:55-79 | two collections with the same roles and rows give the same writes for a role |
| Orchestration.RoleViewsKeep | main.py:61-69 | changing only stations of other roles keeps a role's views |

## Left out

- Database and network I/O: SQL, connections, commits and rollbacks, `load_stations`, `load_stations_by_device_type`, and broker connect and disconnect. The backend is a log of the rows it was handed, the broker a log of messages, and the stations `prepare_stations` loads are parameters of `Orchestration.Prepare`.
- The two logs are separate, so the model does not show how writes and publishes interleave.
- Floating point: positions and distances are reals. `math.sqrt`, `atan2`, `cos` and `sin` are function parameters.
- Randomness, the clock and `time.sleep` are parameters of the operations that use them.
- `json.dumps` and `str` rendering: each payload carries the value it would render.
- Configuration loading, logging, signal handling, the endless `while True` loop, `main` and setup, `to_dict`, and `print`.
- The constructor's `cluster_stations` argument: no caller passes it.
- Text.Upper, Text.Lower: ASCII case mapping only. A non-ASCII letter is kept as it is, while Python's `str.upper` and `str.lower` map all of Unicode and can change a string's length (`ß` becomes `SS`).
- Stations.Station: MAC and name are fixed at construction, because only the constructor calls their setters.
- Orchestration.Prepare, Orchestration.Tick, Orchestration.MoveTags, Orchestration.FlushEach and Mqtt.MqttService.PublishStatus: require a collection without repeated objects. The source never puts one object in twice.
- Exceptions: only `randint` over an empty range is modelled as raising in the tick and in `prepare_stations`. Failures of I/O are not modelled.
- Orchestration.Prepare: on failure it states only the error, that the loaded stations stay a prefix and that writes were only appended; which stations changed before the raise is not stated.
- Orchestration.Tick: on failure it states only that the saved batch is of some partly-turned collection; which tags had turned is not stated.
- Stations.MoveStep and Stations.Station.Move: the two `randint` draws of the re-target are plain integers. The model does not require them to lie in the plane, as `randint(0, size)` would give. Stations.MoveInPlane states the in-plane target under that range as its precondition.
- Stations.Station.SetRandomPosition and Stations.Station.SetRandomTargetPoint: take the drawn integers as arguments in range. The raise on an empty range is modelled by their callers (`Orchestration.CreateAnchors`, `Orchestration.ResetAnchors` and `Orchestration.ResetTags`, and `Stations.MoveStep` for `move`).
- The initial `publish_status` call of `run_simulation` is `Mqtt.MqttService.PublishStatus`. It is not repeated inside `Orchestration.Tick`.
- The `time.sleep(0.1)` between the publishes of `publish_status` is left out.
