/**
 * The in-memory unit store of the weather-box server: the latest reading, the configured
 * location and the bounded history of every box, and the handlers that change and query
 * them. Every handler runs as one atomic step.
 */
module Store {
  import opened Wrappers
  import opened Json
  import opened Topic
  import opened History
  import opened Readings

  /** What a request handler answers: a value, or one of the error statuses. */
  datatype Response<T> = Ok(value: T) | NotFound | BadRequest | ServerError

  /** What became of an inbound message: stored for a box, or dropped with no state change. */
  datatype Ingested = Stored(boxId: string) | Dropped

  /** The answer to a history query. */
  datatype HistoryView = HistoryView(boxId: string, dataPoints: nat, samples: seq<Sample>)

  /** The answer to a status query. */
  datatype StatusSummary = StatusSummary(totalBoxes: nat, onlineBoxes: nat, offlineBoxes: nat, lastUpdate: Timestamp)

  /** The answer to a health query. */
  datatype HealthView = HealthView(activeBoxes: set<string>, totalReadings: nat)

  /** A box's history, empty when it has none yet. */
  function HistoryOf(history: map<string, seq<Sample>>, b: string): seq<Sample> {
    if b in history then history[b] else []
  }

  /** Every history is non-empty, within the bound, and belongs to a box with a latest reading. */
  ghost predicate HistoriesBounded(history: map<string, seq<Sample>>, latest: map<string, Reading>) {
    forall b :: b in history ==> 0 < |history[b]| <= MAX_HISTORY_POINTS && b in latest
  }

  /** Every latest reading is filed under its own box id and carries exactly that box's location. */
  ghost predicate ReadingsConsistent(latest: map<string, Reading>, locations: map<string, Location>) {
    forall b :: b in latest ==> latest[b].boxId == b && latest[b].location == Find(locations, b)
  }

  /** Recording a sample for a box with a latest reading keeps every history within the bound. */
  lemma RecordKeepsBounded(history: map<string, seq<Sample>>, latest: map<string, Reading>, b: string, r: Reading, x: Sample)
    requires HistoriesBounded(history, latest)
    ensures HistoriesBounded(history[b := Record(HistoryOf(history, b), x)], latest[b := r])
  {
    var updated := history[b := Record(HistoryOf(history, b), x)];
    forall c | c in updated
      ensures 0 < |updated[c]| <= MAX_HISTORY_POINTS && c in latest[b := r]
    {
      if c != b {
        assert updated[c] == history[c];
      }
    }
  }

  /** Storing a reading filed under its box and carrying that box's location keeps readings consistent. */
  lemma StoreKeepsConsistent(latest: map<string, Reading>, locations: map<string, Location>, b: string, r: Reading)
    requires ReadingsConsistent(latest, locations)
    requires r.boxId == b && r.location == Find(locations, b)
    ensures ReadingsConsistent(latest[b := r], locations)
  {
  }

  class UnitStore {
    /** `latest_readings`: the newest reading of each box. */
    var latest: map<string, Reading>
    /** `box_locations`: the configured location of each box. */
    var locations: map<string, Location>
    /** `historical_data`: the recent samples of each box, oldest first. */
    var history: map<string, seq<Sample>>

    /**
     * The store's invariant: every history is non-empty and within the bound, every box
     * with a history has a latest reading, and every latest reading is filed under its own
     * box id and carries exactly that box's configured location.
     */
    ghost predicate Valid()
      reads this
    {
      HistoriesBounded(history, latest) && ReadingsConsistent(latest, locations)
    }

    /** The store at process start: three empty maps. */
    constructor ()
      ensures Valid()
      ensures latest == map[] && locations == map[] && history == map[]
    {
      latest := map[];
      locations := map[];
      history := map[];
    }

    /**
     * The subscriber's message handler. A message whose payload did not decode, whose topic
     * has no second segment, or whose payload is not a key-value object is dropped and
     * changes nothing. Otherwise the box's latest reading is replaced by an online reading
     * carrying the box's location, and a sample is recorded in its bounded history; no
     * other box and no location changes.
     */
    method OnMessage(topic: string, payload: Option<Value>, now: Timestamp) returns (r: Ingested)
      requires Valid()
      modifies this
      ensures Valid()
      ensures Parse(topic, payload).None? ==>
        r == Dropped && latest == old(latest) && locations == old(locations) && history == old(history)
      ensures Parse(topic, payload).Some? ==>
        var m := Parse(topic, payload).value;
        && r == Stored(m.boxId)
        && latest == old(latest)[m.boxId := Normalize(m.boxId, m.data, now, Find(locations, m.boxId))]
        && history == old(history)[m.boxId := Record(HistoryOf(old(history), m.boxId), ToSample(m.data, now))]
        && locations == old(locations)
      ensures r.Stored? ==> OnlineIn(latest) == OnlineIn(old(latest)) + {r.boxId}
      ensures r.Stored? ==> |history[r.boxId]| == Min(|HistoryOf(old(history), r.boxId)| + 1, MAX_HISTORY_POINTS)
    {
      if payload.None? {
        return Dropped;
      }
      var parts := Split(topic, SEP);
      if |parts| < 2 {
        return Dropped;
      }
      var boxId := parts[1];
      if !payload.value.Object? {
        return Dropped;
      }
      var data := payload.value.fields;
      assert Parse(topic, payload) == Some(Message(boxId, data));
      RecordReading(boxId, data, now);
      StoreOnline(old(latest), boxId, latest[boxId]);
      r := Stored(boxId);
    }

    /**
     * The store half of the message handler (server.py:47-84): the box's latest reading
     * becomes an online reading carrying the box's location, and a sample is appended to
     * its history.
     */
    method RecordReading(boxId: string, data: map<string, Value>, now: Timestamp)
      requires Valid()
      modifies this
      ensures Valid()
      ensures latest == old(latest)[boxId := Normalize(boxId, data, now, Find(locations, boxId))]
      ensures history == old(history)[boxId := Record(HistoryOf(old(history), boxId), ToSample(data, now))]
      ensures locations == old(locations)
    {
      var reading := Reading(boxId, Measure(data), now, Some(ONLINE), data, None);
      if boxId in locations {
        reading := reading.(location := Some(locations[boxId]));
      }
      assert reading == Normalize(boxId, data, now, Find(locations, boxId));
      // a box without a history starts from an empty one; the append may push it one
      // entry past the bound, and the slice keeps the newest MAX_HISTORY_POINTS
      var prior, sample := HistoryOf(history, boxId), ToSample(data, now);
      var h := prior + [sample];
      if |h| > MAX_HISTORY_POINTS {
        h := h[|h| - MAX_HISTORY_POINTS..];
      }
      AppendThenSlice(prior, sample);
      assert h == Record(prior, sample);
      RecordKeepsBounded(history, latest, boxId, reading, ToSample(data, now));
      StoreKeepsConsistent(latest, locations, boxId, reading);
      latest := latest[boxId := reading];
      history := history[boxId := h];
    }

    /**
     * The manual-injection handler. A body that is not a key-value object fails and changes
     * nothing. Otherwise the box's latest reading is replaced by one without a status,
     * carrying the box's location; history and locations are untouched.
     */
    method MockData(boxId: string, body: Value, now: Timestamp) returns (r: Response<string>)
      requires Valid()
      modifies this
      ensures Valid()
      ensures !body.Object? ==>
        r == ServerError && latest == old(latest) && locations == old(locations) && history == old(history)
      ensures body.Object? ==>
        && r == Ok(boxId)
        && latest == old(latest)[boxId := MockReading(boxId, body.fields, now, Find(locations, boxId))]
        && locations == old(locations)
        && history == old(history)
      ensures body.Object? ==> OnlineIn(latest) == OnlineIn(old(latest)) - {boxId}
    {
      if !body.Object? {
        return ServerError;
      }
      var data := body.fields;
      var reading := Reading(boxId, Measure(data), now, None, data, None);
      latest := latest[boxId := reading];
      if boxId in locations {
        latest := latest[boxId := latest[boxId].(location := Some(locations[boxId]))];
      }
      StoreNotOnline(old(latest), boxId, latest[boxId]);
      r := Ok(boxId);
    }

    /**
     * The location handler. A body that is not a key-value object fails, and one without
     * latitude or longitude is a bad request; both change nothing. Otherwise the location
     * is upserted and, when the box has a latest reading, that reading's location is
     * refreshed; history is untouched.
     */
    method SetLocation(boxId: string, body: Value) returns (r: Response<Location>)
      requires Valid()
      modifies this
      ensures Valid()
      ensures !body.Object? ==>
        r == ServerError && latest == old(latest) && locations == old(locations) && history == old(history)
      ensures body.Object? && LocationRequest(boxId, body.fields).None? ==>
        r == BadRequest && latest == old(latest) && locations == old(locations) && history == old(history)
      ensures body.Object? && LocationRequest(boxId, body.fields).Some? ==>
        var loc := LocationRequest(boxId, body.fields).value;
        && r == Ok(loc)
        && locations == old(locations)[boxId := loc]
        && latest == (if boxId in old(latest)
                      then old(latest)[boxId := old(latest)[boxId].(location := Some(loc))]
                      else old(latest))
        && history == old(history)
      ensures OnlineIn(latest) == OnlineIn(old(latest))
    {
      if !body.Object? {
        return ServerError;
      }
      var data := body.fields;
      if Get(data, "lat") == Null || Get(data, "lon") == Null {
        return BadRequest;
      }
      var loc := Location(Get(data, "lat"), Get(data, "lon"), GetOr(data, "name", Text("Box " + boxId)));
      locations := locations[boxId := loc];
      if boxId in latest {
        RelocateKeepsOnline(latest, boxId, loc);
        latest := latest[boxId := latest[boxId].(location := Some(loc))];
      }
      r := Ok(loc);
    }

    /** A box's latest reading, which carries the box's configured location; not-found for an unknown box. */
    function GetLatestById(boxId: string): (r: Response<Reading>)
      reads this
      requires Valid()
      ensures r.Ok? || r.NotFound?
      ensures r.Ok? <==> boxId in latest
      ensures r.Ok? ==> r.value == latest[boxId]
      ensures r.Ok? ==> r.value.boxId == boxId && r.value.location == Find(locations, boxId)
    {
      if boxId in latest then Ok(latest[boxId]) else NotFound
    }

    /** Every box's latest reading, each filed under its own id and carrying that box's location. */
    function GetAllLatest(): (r: map<string, Reading>)
      reads this
      requires Valid()
      ensures r.Keys == latest.Keys
      ensures forall b :: b in r ==> r[b] == latest[b]
      ensures forall b :: b in r ==> r[b].boxId == b && r[b].location == Find(locations, b)
    {
      latest
    }

    /** A box's configured location; not-found for a box without one. */
    function GetLocation(boxId: string): (r: Response<Location>)
      reads this
      requires Valid()
      ensures r.Ok? || r.NotFound?
      ensures r.Ok? <==> boxId in locations
      ensures r.Ok? ==> r.value == locations[boxId]
      ensures r.Ok? && boxId in latest ==> latest[boxId].location == Some(r.value)
    {
      if boxId in locations then Ok(locations[boxId]) else NotFound
    }

    /** Every configured location; each agrees with the location on that box's latest reading. */
    function GetAllLocations(): (r: map<string, Location>)
      reads this
      requires Valid()
      ensures r.Keys == locations.Keys
      ensures forall b :: b in r ==> r[b] == locations[b]
      ensures forall b :: b in r && b in latest ==> latest[b].location == Some(r[b])
    {
      locations
    }

    /**
     * A box's whole retained history with its length; not-found for a box that never
     * published. A box with a history also has a latest reading.
     */
    function GetHistory(boxId: string): (r: Response<HistoryView>)
      reads this
      requires Valid()
      ensures r.Ok? || r.NotFound?
      ensures r.Ok? <==> boxId in history
      ensures r.Ok? ==> r.value.boxId == boxId && r.value.samples == history[boxId]
      ensures r.Ok? ==> r.value.dataPoints == |r.value.samples| && 0 < r.value.dataPoints <= MAX_HISTORY_POINTS
      ensures r.Ok? ==> boxId in latest
    {
      if boxId !in history then NotFound
      else Ok(HistoryView(boxId, |history[boxId]|, history[boxId]))
    }

    /** The health report: the boxes that have a latest reading, and how many there are. */
    function Health(): (h: HealthView)
      reads this
      requires Valid()
      ensures h.activeBoxes == latest.Keys
      ensures history.Keys <= h.activeBoxes && OnlineIn(latest) <= h.activeBoxes
      ensures h.totalReadings == |h.activeBoxes|
    {
      HealthView(latest.Keys, |latest|)
    }

    /**
     * The status summary. Counting visits every latest reading once; a box is online when
     * its reading's status is "online", so a box whose latest reading was injected by hand
     * counts as offline.
     */
    method SystemStatus(now: Timestamp) returns (s: StatusSummary)
      ensures s.totalBoxes == |latest|
      ensures s.onlineBoxes == |OnlineIn(latest)|
      ensures s.offlineBoxes == |latest.Keys - OnlineIn(latest)|
      ensures s.totalBoxes == s.onlineBoxes + s.offlineBoxes
      ensures s.lastUpdate == now
    {
      var readings := latest;
      var online := 0;
      var remaining := readings.Keys;
      assert OnlineIn(readings) - remaining == {};
      while remaining != {}
        invariant remaining <= readings.Keys
        invariant online == |OnlineIn(readings) - remaining|
        decreases |remaining|
      {
        var b :| b in remaining;
        CountStep(readings, remaining, b);
        if readings[b].status == Some(ONLINE) {
          online := online + 1;
        }
        remaining := remaining - {b};
      }
      assert OnlineIn(readings) - remaining == OnlineIn(readings);
      OfflineCount(readings);
      s := StatusSummary(|latest|, online, |latest| - online, now);
    }
  }
}
