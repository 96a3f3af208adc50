/** `/api/pg-structure/floors`: add a floor to a PG, and list a PG's floors. */
module FloorsRoute {
  import opened Base
  import opened Calendar
  import opened Tables
  import opened Records
  import opened Stores

  const MissingFields := "PG ID and Floor Number are required."
  const MissingPg := "PG ID is required."

  function FloorExists(floorNumber: JsonValue): string
  {
    "Floor " + JsonText(floorNumber) + " already exists for this PG."
  }

  function FloorAdded(floorNumber: JsonValue): string
  {
    "Floor " + JsonText(floorNumber) + " added successfully!"
  }

  /** The query `{ floorNumber }` uses the value exactly as sent, and MongoDB compares
      by type: only a JSON number can equal a stored number. */
  predicate SameNumber(stored: JsNumber, sent: JsonValue)
  {
    sent.JNum? && stored == Finite(sent.n)
  }

  /** `findOne({ pgId, floorNumber })` finds something. */
  predicate Clash(floors: seq<Floor>, pgId: Id, floorNumber: JsonValue)
    ensures Clash(floors, pgId, floorNumber) ==> floorNumber.JNum?
    ensures floorNumber.JNum? ==> (Clash(floors, pgId, floorNumber) <==>
      exists f :: f in floors && f.pgId == pgId && f.floorNumber == ToNumber(floorNumber))
  {
    exists j :: 0 <= j < |floors| && floors[j].pgId == pgId && SameNumber(floors[j].floorNumber, floorNumber)
  }

  /** Within a PG, no two floors carry the same number. */
  predicate FloorNumbersUnique(floors: seq<Floor>)
  {
    forall i, j :: 0 <= i < j < |floors| && floors[i].pgId == floors[j].pgId ==> floors[i].floorNumber != floors[j].floorNumber
  }

  /** POST: 400 without a PG id or with no floor number at all (0 is accepted), 409 when the
      PG already has this number, else one floor appended with `Number(floorNumber)` (201).
      A numeric floor number keeps floor numbers unique within the PG. */
  method Post(db: PgDatabase, pgId: Id, floorNumber: JsonValue, newId: Id, now: Date) returns (resp: Response)
    requires db.Valid() && KeyAbsent(db.floors, FloorKey, newId)
    modifies db`floors
    ensures db.Valid()
    ensures old(FloorNumbersUnique(db.floors)) && floorNumber.JNum? ==> FloorNumbersUnique(db.floors)
    ensures pgId == "" || floorNumber.Undefined? ==> resp == Response(400, MissingFields) && db.floors == old(db.floors)
    ensures !(pgId == "" || floorNumber.Undefined?) && old(Clash(db.floors, pgId, floorNumber)) ==>
      resp == Response(409, FloorExists(floorNumber)) && db.floors == old(db.floors)
    ensures !(pgId == "" || floorNumber.Undefined?) && !old(Clash(db.floors, pgId, floorNumber)) ==>
      resp == Response(201, FloorAdded(floorNumber))
      && db.floors == old(db.floors) + [Floor(newId, pgId, ToNumber(floorNumber), now)]
  {
    if pgId == "" || floorNumber.Undefined? {
      return Response(400, MissingFields);
    }
    if Clash(db.floors, pgId, floorNumber) {
      return Response(409, FloorExists(floorNumber));
    }
    var f := Floor(newId, pgId, ToNumber(floorNumber), now);
    UniqueAfterAppend(db.floors, FloorKey, f);
    db.floors := db.floors + [f];
    return Response(201, FloorAdded(floorNumber));
  }

  function OfPg(floors: seq<Floor>, pgId: Id): (r: seq<Floor>)
    ensures forall f :: f in r <==> f in floors && f.pgId == pgId
  {
    Filter(floors, (f: Floor) => f.pgId == pgId)
  }

  /** GET: 400 without a PG id, else exactly the floors of that PG. */
  function Get(floors: seq<Floor>, pgId: Id): (r: Reply<seq<Floor>>)
    ensures r.Err? <==> pgId == ""
    ensures r.Err? ==> r.status == 400 && r.message == MissingPg
    ensures r.Ok? ==> forall f :: f in r.body <==> f in floors && f.pgId == pgId
  {
    if pgId == "" then Err(400, MissingPg) else Ok(OfPg(floors, pgId))
  }

  /** A floor number sent as the text "1" is not matched by the stored number 1, yet is
      stored as the number 1: uniqueness holds only for numeric input. */
  lemma TextFloorNumberIsNotMatched(floors: seq<Floor>, pgId: Id, now: Date, newId: Id)
    requires floors == [Floor("floor-1", pgId, Finite(1), now)]
    ensures !Clash(floors, pgId, JStr("1"))
    ensures !FloorNumbersUnique(floors + [Floor(newId, pgId, ToNumber(JStr("1")), now)])
  {
    assert DigitsValue("1") == 1 by {
      assert "1"[..0] == [];
    }
    var after := floors + [Floor(newId, pgId, ToNumber(JStr("1")), now)];
    assert after[0].floorNumber == after[1].floorNumber;
  }
}
