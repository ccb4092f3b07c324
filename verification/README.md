# Weather-box unit store, modelled in Dafny

The weather-box backend (`server.py`) receives readings that sensor boxes publish on
topics of the form `weather/<box id>/readings` and keeps, in process memory, three maps:
the latest reading of every box (`latest_readings`), the configured location of every box
(`box_locations`) and a bounded history of compact samples per box (`historical_data`,
at most `MAX_HISTORY_POINTS` = 288 entries, oldest dropped first). HTTP handlers inject
readings by hand, set locations and query all three maps.

This project models that unit store:

- `json.dfy` — decoded JSON values, `dict.get` and truthiness.
- `topic.dfy` — `str.split('/')` and the box id as the second topic segment, with the
  split/join round trip in both directions.
- `history.dfy` — the bounded history buffer: append, trim to the newest 288, and what a
  run of N appends leaves behind.
- `readings.dfy` — the record shapes (reading, sample, location), message parsing, the
  online-box set the status summary counts, and the location-request check.
- `store.dfy` — class `UnitStore` with the three maps as fields. The writing handlers
  (`OnMessage`, `MockData`, `SetLocation`) are methods that state the whole new state.
  The readers are functions, and the status count is a loop. `Valid()` is the store
  invariant. It says every history is non-empty and at most 288 long, and every box with
  a history has a latest reading. It also says every latest reading is filed under its
  own box id and carries exactly that box's configured location, or none.
- `scenarios.dfy` — two client runs that use only the handlers' contracts.

History samples have their own type, `Sample`, which has no status, location or raw
payload field, so a history entry never carries them. Every handler is modelled as one
atomic step.

Two behaviours of the code are worth knowing:

- A hand-injected reading has no `status` key (server.py:133-143), unlike a received
  one. So a box whose latest reading was injected by hand counts as offline, and the
  offline count is not always zero.
- The coordinate check at server.py:154 tests truthiness, so a latitude or longitude of
  0 is rejected; see Findings.

## Model

| member | source | states |
|---|---|---|
| `Json.GetOr` | server.py:160 | `data.get(key, default)` is the entry when the key is present and the default otherwise |
| `Json.Truthy` | server.py:154 | Python's truth test: falsy exactly for null, `false`, 0, the empty string, the empty array and the empty object |
| `Json.Get` | server.py:49-54 | `payload.get(key)` is the entry when the key is present (a stored null included), and None (Null), never zero, when it is missing |
| `Topic.Split` | server.py:42 | `split('/')` never returns an empty list, no segment holds the separator, and there is a single segment exactly when the topic has no separator |
| `Topic.JoinSplit` | server.py:42 | joining the segments of a split with `/` gives back the topic |
| `Topic.SplitJoin` | server.py:42 | splitting the join of separator-free segments gives back the segments |
| `Topic.SplitAfterPrefix` | server.py:42 | a separator after a separator-free prefix ends the first segment |
| `Topic.BoxId` | server.py:42 | element 1 of the split exists exactly when the topic contains `/`, and it contains no `/` |
| `Topic.BoxIdOfTopic` | server.py:42 | for every topic `prefix/id` or `prefix/id/...` with separator-free `prefix` and `id`, the box id is `id` |
| `Topic.BoxIdExample` | server.py:29-42 | `weather/box7/readings` gives box id `box7` |
| `History.Trim` | server.py:83-84 | the trim keeps the newest min(n, 288) entries, in their original order |
| `History.Record` | server.py:69-84 | after one append the history is non-empty and at most 288 long. The new sample is last. Below the bound it is the old history plus the sample; at the bound the oldest entry is dropped and the rest keep their order |
| `History.RecordAll` | server.py:69-84 | recording no samples leaves the history as it was; recording some leaves it non-empty and at most 288 long, with the last sample recorded at the end |
| `History.TrimAppendTrim` | server.py:83-84 | trimming, appending more and trimming again equals a single trim of everything |
| `History.RecordAllKeepsNewest` | server.py:69-84 | recording samples one by one onto a history within the bound leaves exactly the newest 288 of everything recorded, in arrival order |
| `History.HistoryAfterN` | server.py:69-84 | after N samples a new box's history has min(N, 288) entries: the last min(N, 288) samples, in arrival order |
| `Readings.Measure` | server.py:49-54 | each of the six measurements is the payload's entry for its key (`temperature`, `humidity`, `pressure`, `wind_speed`, `wind_direction`, `rainfall`), and null when the payload lacks that key |
| `Readings.MeasureIgnoresOtherKeys` | server.py:49-54 | payload keys other than the six measurement keys never affect a reading's measurements |
| `Readings.MeasureTemperatureOnly` | server.py:49-54 | a payload with only a temperature gives that temperature and five unset (Null) measurements |
| `Readings.Parse` | server.py:40-49 | a message is accepted exactly when the payload decoded, the topic contains `/` and the payload is a key-value object. Its box id is then the topic's box id and its data the decoded object |
| `Readings.ToSample` | server.py:72-80 | a history entry holds the message time and the six measurements projected from the payload, and no status, location or raw payload |
| `Readings.Normalize` | server.py:47-62 | a received reading is filed under its box, has status `online`, keeps the whole payload as raw data, carries the location passed in, and has the same time and measurements as the history entry recorded for it |
| `Readings.MockReading` | server.py:133-146 | a hand-injected reading is the reading the same payload would give as a received message, except that it has no status, so it is never online |
| `Readings.OnlineIn` | server.py:205 | the online boxes are among the boxes with a latest reading |
| `Readings.CountStep` | server.py:205 | visiting one more reading adds one to the online count exactly when its status is `online` |
| `Readings.OfflineCount` | server.py:204-210 | the offline count, total minus online, is the number of boxes whose status is not `online` |
| `Readings.StoreOnline` | server.py:56-66 | storing a reading with status `online` makes that box online and no other box changes |
| `Readings.StoreNotOnline` | server.py:133-143 | storing a reading without status `online` makes that box offline and no other box changes |
| `Readings.RelocateKeepsOnline` | server.py:164-165 | replacing the location on a latest reading does not change which boxes are online |
| `Readings.LocationRequest` | server.py:152-161 | corrected check: a request is rejected exactly when `lat` or `lon` is missing or null. Otherwise the location holds them and the given name, defaulting to `Box <id>` |
| `Readings.LocationRequestAsWritten` | server.py:154-155 | check as written: a request is rejected exactly when `lat` or `lon` is falsy |
| `Readings.AsWrittenRejectsPresentFalsyCoordinates` | server.py:154-161 | the two checks agree on every request the written one accepts. They differ exactly on requests whose `lat` and `lon` are both present and not null while at least one of them is falsy |
| `Readings.EquatorRejectedAsWritten` | server.py:154-155 | the written check rejects `{"lat": 0, "lon": -97.3}` |
| `Readings.EquatorAccepted` | server.py:154-161 | the corrected check accepts `{"lat": 0, "lon": -97.3}` with the name `Box box1` |
| `Store.UnitStore.constructor` | server.py:13-22 | the store starts with three empty maps and satisfies the invariant |
| `Store.UnitStore.OnMessage` | server.py:39-88 | a message that does not parse is dropped and changes nothing. Otherwise: the box's latest reading becomes the normalised online reading with the box's location; one sample is recorded into its bounded history; every other box and all locations are unchanged; the box joins the online set; the history grows by one up to 288. The invariant is kept |
| `Store.UnitStore.RecordReading` | server.py:47-84 | only the box's latest reading and history change: the reading is the online reading with the configured location, and the history is the old one with the sample recorded. Locations are unchanged |
| `Store.RecordKeepsBounded` | server.py:74-84 | recording a sample for a box that also gets a latest reading keeps every history non-empty, at most 288 samples long, and belonging to a box with a latest reading |
| `Store.StoreKeepsConsistent` | server.py:60-66 | storing a reading filed under its own box and carrying that box's configured location keeps every latest reading consistent with the locations |
| `Store.UnitStore.MockData` | server.py:130-147 | a non-object body fails and changes nothing. Otherwise the box's latest reading becomes one with no status and the configured location, and the box leaves the online set. History and locations are unchanged |
| `Store.UnitStore.SetLocation` | server.py:150-171 | a non-object body fails and a request without coordinates is a bad request; neither changes anything. Otherwise the location is upserted and returned, and an existing latest reading gets it. History is untouched and no box's online status changes |
| `Store.UnitStore.GetLatestById` | server.py:122-127 | found exactly when the box has a latest reading, otherwise not-found. The reading found is filed under that id and carries the box's configured location |
| `Store.UnitStore.GetAllLatest` | server.py:117-120 | the stored latest readings themselves, keyed by box; each is filed under its own id and carries that box's location |
| `Store.UnitStore.GetLocation` | server.py:173-178 | found exactly when the box has a location, otherwise not-found. A found location is also the one on the box's latest reading, if it has one |
| `Store.UnitStore.GetAllLocations` | server.py:180-183 | the configured locations themselves, keyed by box; each also equals the location on that box's latest reading, if any |
| `Store.UnitStore.GetHistory` | server.py:185-199 | found exactly when the box has a history, otherwise not-found. The point count is the length of the returned history, which is between 1 and 288, and the box also has a latest reading |
| `Store.UnitStore.Health` | server.py:107-115 | the active boxes are the boxes with a latest reading, and the count is their number. Every box with a history, and every online box, is among them |
| `Store.UnitStore.SystemStatus` | server.py:201-212 | total is the number of boxes; online is the number whose latest status is `online`; offline is the number of the rest; total = online + offline |
| `Scenarios.DefaultName` | server.py:160 | a request without a name for `box7` gets the name `Box box7` |
| `Scenarios.ParseBox7` | server.py:40-49 | a key-value payload on `weather/box7/readings` is accepted for box `box7` with that payload |
| `Scenarios.LocationThenReading` | server.py:39-66 | after a location is set and then a message arrives for the box, its latest reading is online, has the payload's temperature and carries that location |
| `Scenarios.UnknownBoxNotFound` | server.py:122-199 | latest, location and history queries for an unknown box answer not-found |

## Left out

- The MQTT client, `on_connect`, `start_mqtt` and the broker connection (server.py:26-37, 90-104) are network I/O. The model starts where a message has arrived.
- The background thread (server.py:103-104) is left out. The code takes no lock, so a query can interleave with a half-done `on_message`. The model treats every handler as one atomic step and does not capture those interleavings.
- Flask setup, routing, `jsonify` and status codes (server.py:1-11 and the route decorators) are left out. Handlers return a `Response`: `NotFound` stands for 404, `BadRequest` for 400, and `ServerError` for the 500 an `AttributeError` on a non-object body produces. Bodies that `request.get_json()` refuses (server.py:132, 152) are not modelled; that refusal happens inside the handler before any state changes.
- `json.loads` and the UTF-8 decode (server.py:41) are not modelled. The handler receives `Option<Value>`, where None is a failed decode.
- `datetime.now()` (server.py:44, 141, 211) is a `Timestamp` parameter.
- Printing and logging (server.py:86, 88, 100-101, 215-229) are left out. An error raised while printing line 86 would come after every state change, so it cannot undo any.
- The `hours` query parameter (server.py:192) is left out: it is read but has no effect on the answer.
- `MAX_HISTORY_HOURS` (server.py:23) is left out because nothing uses it.
- Numbers are opaque reals. The model has no int/float distinction, and the truthiness test is the only operation on them.
- The location dict is shared between `box_locations` and the readings, but it is never changed after creation. The model therefore uses values, not shared objects.
- `Store.UnitStore.Health`: the active boxes are a set, not a list in insertion order. The constant `status` and `mqtt_broker` fields of the answer are left out.
- `Store.UnitStore.SetLocation`: it uses the corrected presence check, not the truthiness test at server.py:154 (see Findings). The code as written is modelled by `Readings.LocationRequestAsWritten`.
- server_placeholder.py is not part of this model. It is an echo endpoint with no state.

## Findings

| source | as written | input that shows it | evidently intended | confidence | as-written member | corrected member |
|---|---|---|---|---|---|---|
| server.py:154 | `not data.get("lat") or not data.get("lon")` rejects every falsy coordinate, so latitude or longitude 0 gets a 400 | `{"lat": 0, "lon": -97.3}` (a box on the equator) is rejected (`Readings.EquatorRejectedAsWritten`) but accepted by the presence check (`Readings.EquatorAccepted`) | reject only a missing or null coordinate, as the error text "Latitude and longitude are required" says | high; not executed | `Readings.LocationRequestAsWritten` | `Readings.LocationRequest` |
