/**
 * Short client runs of the store, as a caller sees it through the handlers' contracts
 * alone: a location set before the first reading shows up on that reading, and queries
 * for an unknown box answer not-found.
 */
module Scenarios {
  import opened Wrappers
  import opened Json
  import opened Readings
  import opened Store

  /** A request with coordinates and no name gets the default name. */
  lemma DefaultName()
    ensures LocationRequest("box7", map["lat" := Number(32.755), "lon" := Number(-97.33)])
            == Some(Location(Number(32.755), Number(-97.33), Text("Box box7")))
  {
    var request := map["lat" := Number(32.755), "lon" := Number(-97.33)];
    assert "name" !in request;
    assert "Box " + "box7" == "Box box7";
  }

  /** A message on box7's topic with a key-value payload is accepted for box7. */
  lemma ParseBox7(data: map<string, Value>)
    ensures Parse("weather/box7/readings", Some(Object(data))) == Some(Message("box7", data))
  {
    Topic.BoxIdExample();
  }

  /** A location set first is attached to the reading that arrives afterwards. */
  method LocationThenReading() returns (r: Response<Reading>)
    ensures r.Ok?
    ensures r.value.boxId == "box7" && r.value.status == Some(ONLINE)
    ensures r.value.location == Some(Location(Number(32.755), Number(-97.33), Text("Box box7")))
    ensures r.value.measurements == Measurements(Number(72.5), Null, Null, Null, Null, Null)
  {
    var store := new UnitStore();
    var request := map["lat" := Number(32.755), "lon" := Number(-97.33)];
    var stored := store.SetLocation("box7", Object(request));
    DefaultName();
    var payload := map["temperature" := Number(72.5)];
    ParseBox7(payload);
    var got := store.OnMessage("weather/box7/readings", Some(Object(payload)), "12:00");
    r := store.GetLatestById("box7");
  }

  /** Queries about a box never heard of answer not-found and leave the store empty. */
  method UnknownBoxNotFound() returns (latest: Response<Reading>, location: Response<Location>, history: Response<HistoryView>)
    ensures latest == NotFound && location == NotFound && history == NotFound
  {
    var store := new UnitStore();
    latest := store.GetLatestById("box9");
    location := store.GetLocation("box9");
    history := store.GetHistory("box9");
    assert store.latest == map[] && store.locations == map[] && store.history == map[];
  }
}
