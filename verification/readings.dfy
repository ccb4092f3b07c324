/**
 * The record shapes the server stores: a box's latest Reading, the compact Sample kept in
 * its history, and its Location; how an inbound message is turned into them; and the
 * validation of a location request.
 */
module Readings {
  import opened Wrappers
  import opened Json
  import opened Topic

  /** The instant a message or request was handled (`datetime.now().isoformat()`), passed in. */
  type Timestamp = string

  /** The status stamped on every reading that arrives from a box. */
  const ONLINE: string := "online"

  /** The six measurements projected from a payload; a key missing from the payload reads as Null. */
  datatype Measurements = Measurements(
    temperature: Value,
    humidity: Value,
    pressure: Value,
    windSpeed: Value,
    windDirection: Value,
    rainfall: Value)

  /** A box's configured position and display name. */
  datatype Location = Location(lat: Value, lon: Value, name: Value)

  /**
   * A box's latest reading. `status` is None when the reading was injected by hand, and
   * `location` is None when the box has no configured location.
   */
  datatype Reading = Reading(
    boxId: string,
    measurements: Measurements,
    timestamp: Timestamp,
    status: Option<string>,
    rawData: map<string, Value>,
    location: Option<Location>)

  /** One history entry: the measurements and their time, with no status, location or raw payload. */
  datatype Sample = Sample(timestamp: Timestamp, measurements: Measurements)

  /** A message that got past decoding and topic parsing: its box id and its key-value payload. */
  datatype Message = Message(boxId: string, data: map<string, Value>)

  /** The six keys the server reads from a payload. */
  const FIELD_KEYS: set<string> := {"temperature", "humidity", "pressure", "wind_speed", "wind_direction", "rainfall"}

  /** The measurement a payload key feeds; Null for a key that is not one of the six. */
  function Field(m: Measurements, key: string): Value {
    if key == "temperature" then m.temperature
    else if key == "humidity" then m.humidity
    else if key == "pressure" then m.pressure
    else if key == "wind_speed" then m.windSpeed
    else if key == "wind_direction" then m.windDirection
    else if key == "rainfall" then m.rainfall
    else Null
  }

  /**
   * `payload.get(k)` for each of the six measurement keys: every measurement is the
   * payload's entry for its key, and Null when the payload lacks that key.
   */
  function Measure(payload: map<string, Value>): (m: Measurements)
    ensures forall k :: k in FIELD_KEYS && k in payload ==> Field(m, k) == payload[k]
    ensures forall k :: k in FIELD_KEYS && k !in payload ==> Field(m, k) == Null
  {
    Measurements(
      Get(payload, "temperature"),
      Get(payload, "humidity"),
      Get(payload, "pressure"),
      Get(payload, "wind_speed"),
      Get(payload, "wind_direction"),
      Get(payload, "rainfall"))
  }

  /** Keys other than the six measurement keys never reach the measurements. */
  lemma MeasureIgnoresOtherKeys(p: map<string, Value>, q: map<string, Value>)
    requires forall k :: k in FIELD_KEYS ==> Get(p, k) == Get(q, k)
    ensures Measure(p) == Measure(q)
  {
  }

  /** A payload carrying only a temperature leaves the other five measurements unset, not zero. */
  lemma MeasureTemperatureOnly()
    ensures Measure(map["temperature" := Number(72.5)])
         == Measurements(Number(72.5), Null, Null, Null, Null, Null)
  {
  }

  /**
   * Decoding and topic parsing of an inbound message: the payload must have decoded, the
   * topic must have a second segment and the payload must be a key-value object;
   * otherwise the message is dropped.
   */
  function Parse(topic: string, payload: Option<Value>): (m: Option<Message>)
    ensures m.Some? <==> SEP in topic && payload.Some? && payload.value.Object?
    ensures m.Some? ==> BoxId(topic) == Some(m.value.boxId) && payload == Some(Object(m.value.data))
  {
    if payload.None? then None
    else
      match BoxId(topic)
      case None => None
      case Some(boxId) =>
        if payload.value.Object? then Some(Message(boxId, payload.value.fields)) else None
  }

  /**
   * The compact history entry of a message: its time and its six measurements, with no
   * status, location or raw payload.
   */
  function ToSample(data: map<string, Value>, now: Timestamp): (s: Sample)
    ensures s.timestamp == now
    ensures forall k :: k in FIELD_KEYS && k in data ==> Field(s.measurements, k) == data[k]
    ensures forall k :: k in FIELD_KEYS && k !in data ==> Field(s.measurements, k) == Null
  {
    Sample(now, Measure(data))
  }

  /**
   * The reading an inbound message produces: filed under its box, status online, the
   * payload kept whole as raw data, the box's location attached if it has one, and the
   * same time and measurements as the history entry recorded for the message.
   */
  function Normalize(boxId: string, data: map<string, Value>, now: Timestamp, location: Option<Location>): (r: Reading)
    ensures r.boxId == boxId && r.status == Some(ONLINE)
    ensures r.rawData == data && r.location == location
    ensures ToSample(data, now) == Sample(r.timestamp, r.measurements)
  {
    Reading(boxId, Measure(data), now, Some(ONLINE), data, location)
  }

  /**
   * The reading a hand-injected request produces: the reading the same payload would give
   * as an inbound message, except that it has no status.
   */
  function MockReading(boxId: string, data: map<string, Value>, now: Timestamp, location: Option<Location>): (r: Reading)
    ensures r == Normalize(boxId, data, now, location).(status := None)
    ensures r.status != Some(ONLINE)
  {
    Reading(boxId, Measure(data), now, None, data, location)
  }

  /** The boxes whose latest reading has status online. */
  function OnlineIn(latest: map<string, Reading>): (online: set<string>)
    ensures online <= latest.Keys
  {
    set b | b in latest && latest[b].status == Some(ONLINE)
  }

  /**
   * Counting step: moving one more box out of the not-yet-visited set adds one to the
   * number of visited online boxes exactly when that box is online.
   */
  lemma CountStep(latest: map<string, Reading>, remaining: set<string>, b: string)
    requires b in remaining && b in latest
    ensures |OnlineIn(latest) - (remaining - {b})|
         == |OnlineIn(latest) - remaining| + (if latest[b].status == Some(ONLINE) then 1 else 0)
  {
    var counted := OnlineIn(latest) - remaining;
    if latest[b].status == Some(ONLINE) {
      assert OnlineIn(latest) - (remaining - {b}) == counted + {b};
    } else {
      assert OnlineIn(latest) - (remaining - {b}) == counted;
    }
  }

  /** Every box is either online or offline, so the offline boxes number the total minus the online ones. */
  lemma OfflineCount(latest: map<string, Reading>)
    ensures |latest.Keys - OnlineIn(latest)| == |latest| - |OnlineIn(latest)|
  {
    var keys := latest.Keys;
    assert keys == (keys - OnlineIn(latest)) + OnlineIn(latest);
  }

  /** Storing an online reading for a box makes it online and leaves every other box as it was. */
  lemma StoreOnline(latest: map<string, Reading>, b: string, r: Reading)
    requires r.status == Some(ONLINE)
    ensures OnlineIn(latest[b := r]) == OnlineIn(latest) + {b}
  {
  }

  /** Storing a reading without status online for a box makes it offline, other boxes unaffected. */
  lemma StoreNotOnline(latest: map<string, Reading>, b: string, r: Reading)
    requires r.status != Some(ONLINE)
    ensures OnlineIn(latest[b := r]) == OnlineIn(latest) - {b}
  {
  }

  /** Replacing a reading's location does not change which boxes are online. */
  lemma RelocateKeepsOnline(latest: map<string, Reading>, b: string, loc: Location)
    requires b in latest
    ensures OnlineIn(latest[b := latest[b].(location := Some(loc))]) == OnlineIn(latest)
  {
  }

  /**
   * The location a request asks for, or None when it must be rejected: latitude and
   * longitude must both be given (present and not null); the name defaults to "Box <id>".
   */
  function LocationRequest(boxId: string, data: map<string, Value>): (r: Option<Location>)
    ensures r.None? <==> Get(data, "lat") == Null || Get(data, "lon") == Null
    ensures r.Some? ==> r.value.lat == data["lat"] && r.value.lon == data["lon"]
    ensures r.Some? ==> r.value.name == GetOr(data, "name", Text("Box " + boxId))
  {
    if Get(data, "lat") == Null || Get(data, "lon") == Null then None
    else Some(Location(Get(data, "lat"), Get(data, "lon"), GetOr(data, "name", Text("Box " + boxId))))
  }

  /**
   * The same validation as written in the server: `not data.get("lat") or not data.get("lon")`,
   * a truthiness test that also rejects a coordinate of 0 (or false, "" and empty containers).
   */
  function LocationRequestAsWritten(boxId: string, data: map<string, Value>): (r: Option<Location>)
    ensures r.None? <==> !Truthy(Get(data, "lat")) || !Truthy(Get(data, "lon"))
  {
    if !Truthy(Get(data, "lat")) || !Truthy(Get(data, "lon")) then None
    else Some(Location(Get(data, "lat"), Get(data, "lon"), GetOr(data, "name", Text("Box " + boxId))))
  }

  /**
   * The two validations agree on every request the written one accepts, and differ exactly
   * on requests whose latitude and longitude are both present and not null while at least
   * one of them is falsy.
   */
  lemma AsWrittenRejectsPresentFalsyCoordinates(boxId: string, data: map<string, Value>)
    ensures LocationRequestAsWritten(boxId, data).Some? ==>
              LocationRequest(boxId, data) == LocationRequestAsWritten(boxId, data)
    ensures LocationRequest(boxId, data).Some? && LocationRequestAsWritten(boxId, data).None?
        <==> LocationRequest(boxId, data).Some? && (!Truthy(data["lat"]) || !Truthy(data["lon"]))
  {
  }

  /** A box on the equator: the written check rejects latitude 0 ... */
  lemma EquatorRejectedAsWritten()
    ensures LocationRequestAsWritten("box1", map["lat" := Number(0.0), "lon" := Number(-97.3)]).None?
  {
  }

  /** ... while the presence check accepts it, with the default name. */
  lemma EquatorAccepted()
    ensures LocationRequest("box1", map["lat" := Number(0.0), "lon" := Number(-97.3)])
         == Some(Location(Number(0.0), Number(-97.3), Text("Box box1")))
  {
    assert "Box " + "box1" == "Box box1";
  }
}
