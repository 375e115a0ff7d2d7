/** `property.flat`: everything a flat shows is derived from its rooms (the
    rooms whose `flat` is the flat), plus the flat-number uniqueness
    constraint. */
module Flats {
  import opened Common
  import opened Schema
  import opened Rooms

  datatype FlatState = Available | PartiallyOccupied | FullyOccupied | Maintenance

  /** `_compute_name`: "<property name> - Flat <flat number>"; the property is
      required, so only an empty flat number gives "New Flat". */
  function FlatName(propertyName: string, flatNumber: string): (name: string)
    ensures flatNumber == "" ==> name == "New Flat"
    ensures flatNumber != "" ==> name == propertyName + " - Flat " + flatNumber
  {
    if flatNumber != "" then propertyName + " - Flat " + flatNumber else "New Flat"
  }

  /** `room_ids`: the rooms of flat `f`, in table order. */
  function RoomsOf(rooms: seq<Room>, f: nat): (rs: seq<Room>)
    ensures |rs| <= |rooms|
    ensures forall i :: 0 <= i < |rs| ==> rs[i].flat == f
    ensures forall r :: r in rs <==> r in rooms && r.flat == f
  {
    if rooms == [] then []
    else
      var last := rooms[|rooms| - 1];
      RoomsOf(rooms[..|rooms| - 1], f) + (if last.flat == f then [last] else [])
  }

  /** `_compute_rooms_count`. */
  function RoomsCount(rooms: seq<Room>, f: nat): nat
  {
    |RoomsOf(rooms, f)|
  }

  /** `_compute_room_stats`. */
  function OccupiedRooms(rooms: seq<Room>, f: nat): nat
  {
    CountStatus(RoomsOf(rooms, f), RoomStatus.Occupied)
  }

  function VacantRooms(rooms: seq<Room>, f: nat): nat
  {
    CountStatus(RoomsOf(rooms, f), RoomStatus.Vacant)
  }

  /** Occupied and vacant rooms are counted apart, so together they never
      exceed the number of rooms; booked, maintenance and unavailable rooms
      are in neither figure. */
  lemma RoomStatsBound(rooms: seq<Room>, f: nat)
    ensures OccupiedRooms(rooms, f) + VacantRooms(rooms, f) <= RoomsCount(rooms, f)
  {
    CountTwoStatuses(RoomsOf(rooms, f), RoomStatus.Occupied, RoomStatus.Vacant);
  }

  /** `_compute_financial`: rent of the occupied rooms only. */
  function TotalRent(rooms: seq<Room>, f: nat): Money
  {
    OccupiedRent(RoomsOf(rooms, f))
  }

  /** `_compute_state` on the flat's room list. */
  function StateOf(rs: seq<Room>): (s: FlatState)
    ensures s != FlatState.Maintenance
    ensures s == FlatState.Available <==> forall i :: 0 <= i < |rs| ==> rs[i].status == RoomStatus.Vacant
    ensures s == FlatState.FullyOccupied <==>
              |rs| > 0 && forall i :: 0 <= i < |rs| ==> rs[i].status == RoomStatus.Occupied
  {
    if rs == [] then FlatState.Available
    else if forall i :: 0 <= i < |rs| ==> rs[i].status == RoomStatus.Vacant then
      assert rs[0].status != RoomStatus.Occupied;
      FlatState.Available
    else if forall i :: 0 <= i < |rs| ==> rs[i].status == RoomStatus.Occupied then FlatState.FullyOccupied
    else FlatState.PartiallyOccupied
  }

  function FlatStateOf(rooms: seq<Room>, f: nat): FlatState
  {
    StateOf(RoomsOf(rooms, f))
  }

  /** The state read against the stored counters: available exactly when every
      room is vacant (a flat without rooms included), fully occupied exactly
      when it has rooms and all are occupied, partially occupied otherwise. */
  lemma FlatStateByCounts(rooms: seq<Room>, f: nat)
    ensures FlatStateOf(rooms, f) == FlatState.Available <==> VacantRooms(rooms, f) == RoomsCount(rooms, f)
    ensures FlatStateOf(rooms, f) == FlatState.FullyOccupied <==>
              RoomsCount(rooms, f) > 0 && OccupiedRooms(rooms, f) == RoomsCount(rooms, f)
    ensures FlatStateOf(rooms, f) == FlatState.PartiallyOccupied <==>
              VacantRooms(rooms, f) < RoomsCount(rooms, f) && OccupiedRooms(rooms, f) < RoomsCount(rooms, f)
  {
    var rs := RoomsOf(rooms, f);
    if |rs| > 0 {
      if forall i :: 0 <= i < |rs| ==> rs[i].status == RoomStatus.Vacant {
        assert rs[0].status != RoomStatus.Occupied;
      }
    }
  }

  // Uniqueness of the flat number within a property.

  predicate FlatNumberClash(flats: seq<Flat>, i: nat, j: nat)
    requires i < |flats| && j < |flats|
  {
    i != j && flats[i].flatNumber != "" && flats[j].property == flats[i].property &&
    flats[j].flatNumber == flats[i].flatNumber
  }

  /** `_check_flat_number_unique` for record `id`. */
  function CheckFlatNumberUnique(flats: seq<Flat>, id: nat): (o: Outcome)
    requires id < |flats|
    ensures o.Fail? <==> exists j :: 0 <= j < |flats| && FlatNumberClash(flats, id, j)
    ensures o.Fail? ==> o.error == ValidationError("Flat number must be unique within a property!")
  {
    if exists j :: 0 <= j < |flats| && FlatNumberClash(flats, id, j) then
      Fail(ValidationError("Flat number must be unique within a property!"))
    else Pass
  }

  predicate FlatNumbersUnique(flats: seq<Flat>)
  {
    forall i, j :: 0 <= i < j < |flats| && flats[i].property == flats[j].property && flats[i].flatNumber != "" ==>
      flats[i].flatNumber != flats[j].flatNumber
  }

  lemma CheckFlatNumberUniqueSpec(flats: seq<Flat>)
    ensures (forall id :: 0 <= id < |flats| ==> CheckFlatNumberUnique(flats, id).Pass?) <==> FlatNumbersUnique(flats)
  {
    if forall id :: 0 <= id < |flats| ==> CheckFlatNumberUnique(flats, id).Pass? {
      forall i, j | 0 <= i < j < |flats| && flats[i].property == flats[j].property && flats[i].flatNumber != ""
        ensures flats[i].flatNumber != flats[j].flatNumber
      {
        assert CheckFlatNumberUnique(flats, i).Pass?;
        assert !FlatNumberClash(flats, i, j);
      }
    }
    if FlatNumbersUnique(flats) {
      forall id | 0 <= id < |flats| ensures CheckFlatNumberUnique(flats, id).Pass?
      {
        forall j | 0 <= j < |flats| ensures !FlatNumberClash(flats, id, j)
        {
          if id < j && flats[id].property == flats[j].property && flats[id].flatNumber != "" {
            assert flats[id].flatNumber != flats[j].flatNumber;
          } else if j < id && flats[id].property == flats[j].property && flats[j].flatNumber != "" {
            assert flats[j].flatNumber != flats[id].flatNumber;
          }
        }
      }
    }
  }
}
