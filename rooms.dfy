/** `property.room`: a room's derived name, availability and vacancy figures,
    the room-number uniqueness constraint, the onchanges, and the room table
    whose status actions write records in place. The counting helpers over a
    list of rooms are shared by the flat, property and dashboard roll-ups. */
module Rooms {
  import opened Common
  import opened Calendar
  import opened Schema

  /** `_compute_name`: "<property code>-<flat number>-<room number>"; property
      and flat are required, so only an empty room number gives "New Room". */
  function RoomName(propertyCode: string, flatNumber: string, roomNumber: string): (name: string)
    ensures roomNumber == "" ==> name == "New Room"
    ensures roomNumber != "" ==> name == propertyCode + "-" + flatNumber + "-" + roomNumber
  {
    if roomNumber != "" then propertyCode + "-" + flatNumber + "-" + roomNumber else "New Room"
  }

  /** Within one flat of one property, distinct room numbers give distinct names. */
  lemma RoomNameInjective(code: string, flatNumber: string, a: string, b: string)
    requires a != "" && b != "" && a != b
    ensures RoomName(code, flatNumber, a) != RoomName(code, flatNumber, b)
  {
    var p := code + "-" + flatNumber + "-";
    assert RoomName(code, flatNumber, a) == p + a;
    assert RoomName(code, flatNumber, b) == p + b;
    assert (p + a)[|p|..] == a && (p + b)[|p|..] == b;
  }

  /** `_compute_availability`. */
  predicate IsAvailable(r: Room)
  {
    r.status == RoomStatus.Vacant || r.status == RoomStatus.Booked
  }

  /** `_compute_days_vacant`: days since the current agreement ended, for a
      vacant room that still points at an agreement; 0 otherwise (negative
      when that agreement ends in the future). */
  function DaysVacant(r: Room, agreements: seq<Agreement>, today: Date): (n: int)
    requires r.currentAgreement.Some? ==> r.currentAgreement.value < |agreements|
    ensures n != 0 ==> r.status == RoomStatus.Vacant && r.currentAgreement.Some?
    ensures r.status == RoomStatus.Vacant && r.currentAgreement.Some? ==>
              n == today - agreements[r.currentAgreement.value].endDate
  {
    if r.status == RoomStatus.Vacant && r.currentAgreement.Some? then
      today - agreements[r.currentAgreement.value].endDate
    else 0
  }

  /** The occupancy links agree with the status: a room is occupied exactly
      when it has a current tenant, exactly when it has a current agreement. */
  predicate LinksAgree(r: Room)
  {
    (r.status == RoomStatus.Occupied <==> r.currentTenant.Some?) &&
    (r.currentTenant.Some? <==> r.currentAgreement.Some?)
  }

  /** A vacant room points at no agreement; every status action keeps this. */
  predicate VacantIsFree(r: Room)
  {
    r.status == RoomStatus.Vacant ==> r.currentAgreement.None?
  }

  /** Under `VacantIsFree`, `days_vacant` is always 0. */
  lemma DaysVacantOfFreeRoom(r: Room, agreements: seq<Agreement>, today: Date)
    requires r.currentAgreement.Some? ==> r.currentAgreement.value < |agreements|
    requires VacantIsFree(r)
    ensures DaysVacant(r, agreements, today) == 0
  {
  }

  /** The three status-only actions and the vacate action, as record updates. */
  function WithStatus(r: Room, s: RoomStatus): (q: Room)
    ensures q.status == s
    ensures q == r.(status := s)
  {
    r.(status := s)
  }

  function Vacated(r: Room): (q: Room)
    ensures q.status == RoomStatus.Vacant && q.currentTenant.None? && q.currentAgreement.None?
    ensures q == r.(status := RoomStatus.Vacant, currentTenant := None, currentAgreement := None)
  {
    r.(status := RoomStatus.Vacant, currentTenant := None, currentAgreement := None)
  }

  /** Vacating leaves a free, available room whose links agree with its status. */
  lemma VacatedIsConsistent(r: Room, agreements: seq<Agreement>, today: Date)
    ensures LinksAgree(Vacated(r)) && VacantIsFree(Vacated(r)) && IsAvailable(Vacated(r))
    ensures DaysVacant(Vacated(r), agreements, today) == 0
  {
  }

  /** Book, occupy and maintenance leave a room `VacantIsFree`, because none of
      them sets the status to vacant; they keep the links as they are. */
  lemma StatusActionsKeepVacantFree(r: Room, s: RoomStatus)
    requires s == RoomStatus.Booked || s == RoomStatus.Occupied || s == RoomStatus.Maintenance
    ensures VacantIsFree(WithStatus(r, s))
    ensures WithStatus(r, s).currentTenant == r.currentTenant
    ensures WithStatus(r, s).currentAgreement == r.currentAgreement
    ensures IsAvailable(WithStatus(r, s)) <==> s == RoomStatus.Booked
  {
  }

  /** `action_occupy_room` does not set the links, so it breaks `LinksAgree`
      for a room that was vacant and consistent. */
  lemma OccupyBreaksLinks()
    ensures var r := Room("101", 0, 0, 0, "P-1-101", None, None, 1000.0, 1000.0, RoomStatus.Vacant, false);
            LinksAgree(r) && !LinksAgree(WithStatus(r, RoomStatus.Occupied))
  {
  }

  /** `action_book_room` keeps the links, so it breaks `LinksAgree` for a
      room that was occupied and consistent. */
  lemma BookBreaksLinks()
    ensures var r := Room("101", 0, 0, 0, "P-1-101", Some(0), Some(0), 1000.0, 1000.0, RoomStatus.Occupied, false);
            LinksAgree(r) && !LinksAgree(WithStatus(r, RoomStatus.Booked))
  {
  }

  /** `_onchange_room_type_id`: the type's defaults are copied onto the room. */
  function OnchangeRoomType(r: Room, t: RoomType): (q: Room)
    ensures q.rentAmount == t.defaultRent && q.depositAmount == t.defaultDeposit
    ensures q.hasPrivateBathroom == t.hasPrivateBathroom
    ensures q.(rentAmount := r.rentAmount, depositAmount := r.depositAmount,
               hasPrivateBathroom := r.hasPrivateBathroom) == r
  {
    r.(rentAmount := t.defaultRent, depositAmount := t.defaultDeposit,
       hasPrivateBathroom := t.hasPrivateBathroom)
  }

  /** `_onchange_flat_id`: the property follows the chosen flat. */
  function OnchangeFlat(r: Room, flats: seq<Flat>): (q: Room)
    requires r.flat < |flats|
    ensures q.property == flats[r.flat].property
    ensures q.(property := r.property) == r
  {
    r.(property := flats[r.flat].property)
  }

  // Uniqueness of the room number within a flat.

  /** Two distinct records the constraint treats as clashing. */
  predicate RoomNumberClash(rows: seq<Room>, i: nat, j: nat)
    requires i < |rows| && j < |rows|
  {
    i != j && rows[i].roomNumber != "" && rows[j].flat == rows[i].flat && rows[j].roomNumber == rows[i].roomNumber
  }

  /** `_check_room_number_unique` for record `id`. */
  function CheckRoomNumberUnique(rows: seq<Room>, id: nat): (o: Outcome)
    requires id < |rows|
    ensures o.Fail? <==> exists j :: 0 <= j < |rows| && RoomNumberClash(rows, id, j)
    ensures o.Fail? ==> o.error == ValidationError("Room number must be unique within a flat!")
  {
    if exists j :: 0 <= j < |rows| && RoomNumberClash(rows, id, j) then
      Fail(ValidationError("Room number must be unique within a flat!"))
    else Pass
  }

  /** No two rooms of one flat share a non-empty room number. */
  predicate RoomNumbersUnique(rows: seq<Room>)
  {
    forall i, j :: 0 <= i < j < |rows| && rows[i].flat == rows[j].flat && rows[i].roomNumber != "" ==>
      rows[i].roomNumber != rows[j].roomNumber
  }

  /** The constraint passes on every record exactly when the table is unique. */
  lemma CheckRoomNumberUniqueSpec(rows: seq<Room>)
    ensures (forall id :: 0 <= id < |rows| ==> CheckRoomNumberUnique(rows, id).Pass?) <==> RoomNumbersUnique(rows)
  {
    if forall id :: 0 <= id < |rows| ==> CheckRoomNumberUnique(rows, id).Pass? {
      forall i, j | 0 <= i < j < |rows| && rows[i].flat == rows[j].flat && rows[i].roomNumber != ""
        ensures rows[i].roomNumber != rows[j].roomNumber
      {
        assert CheckRoomNumberUnique(rows, i).Pass?;
        assert !RoomNumberClash(rows, i, j);
      }
    }
    if RoomNumbersUnique(rows) {
      forall id | 0 <= id < |rows| ensures CheckRoomNumberUnique(rows, id).Pass?
      {
        forall j | 0 <= j < |rows| ensures !RoomNumberClash(rows, id, j)
        {
          if id < j && rows[id].flat == rows[j].flat && rows[id].roomNumber != "" {
            assert rows[id].roomNumber != rows[j].roomNumber;
          } else if j < id && rows[id].flat == rows[j].flat && rows[j].roomNumber != "" {
            assert rows[j].roomNumber != rows[id].roomNumber;
          }
        }
      }
    }
  }

  // Counting helpers over a list of rooms.

  /** `len(rooms.filtered(lambda r: r.status == s))`. */
  function CountStatus(rooms: seq<Room>, s: RoomStatus): (n: nat)
    ensures n <= |rooms|
    ensures n == |rooms| <==> forall i :: 0 <= i < |rooms| ==> rooms[i].status == s
    ensures n == 0 <==> forall i :: 0 <= i < |rooms| ==> rooms[i].status != s
  {
    if rooms == [] then 0
    else CountStatus(rooms[..|rooms| - 1], s) + (if rooms[|rooms| - 1].status == s then 1 else 0)
  }

  /** Counting one more room of a prefix adds one exactly when it has the status. */
  lemma CountStatusSnoc(rooms: seq<Room>, i: nat, s: RoomStatus)
    requires i < |rooms|
    ensures CountStatus(rooms[..i + 1], s) == CountStatus(rooms[..i], s) + (if rooms[i].status == s then 1 else 0)
  {
    assert rooms[..i + 1][..i] == rooms[..i];
  }

  /** Rooms of two different statuses are never counted twice. */
  lemma {:induction false} CountTwoStatuses(rooms: seq<Room>, s: RoomStatus, t: RoomStatus)
    requires s != t
    ensures CountStatus(rooms, s) + CountStatus(rooms, t) <= |rooms|
  {
    if rooms != [] {
      CountTwoStatuses(rooms[..|rooms| - 1], s, t);
    }
  }

  /** `sum(rooms.filtered(occupied).mapped('rent_amount'))`. */
  function OccupiedRent(rooms: seq<Room>): Money
  {
    if rooms == [] then 0.0
    else OccupiedRent(rooms[..|rooms| - 1]) +
         (if rooms[|rooms| - 1].status == RoomStatus.Occupied then rooms[|rooms| - 1].rentAmount else 0.0)
  }

  /** Rent income lies between 0 and the total rent of the occupied rooms, and
      is 0 when no room is occupied. */
  lemma {:induction false} OccupiedRentBounds(rooms: seq<Room>)
    requires forall i :: 0 <= i < |rooms| ==> rooms[i].rentAmount >= 0.0
    ensures OccupiedRent(rooms) >= 0.0
    ensures CountStatus(rooms, RoomStatus.Occupied) == 0 ==> OccupiedRent(rooms) == 0.0
  {
    if rooms != [] {
      OccupiedRentBounds(rooms[..|rooms| - 1]);
    }
  }

  /** The room table, with the status actions that write it. */
  class RoomTable {
    var rows: seq<Room>

    constructor (rows0: seq<Room>)
      ensures rows == rows0
    {
      rows := rows0;
    }

    /** Every room of the table satisfies `VacantIsFree`. */
    predicate AllVacantFree()
      reads this
    {
      forall i :: 0 <= i < |rows| ==> VacantIsFree(rows[i])
    }

    /** `action_book_room`: status only. */
    method Book(id: nat)
      requires id < |rows|
      modifies this`rows
      ensures rows == old(rows)[id := WithStatus(old(rows)[id], RoomStatus.Booked)]
      ensures IsAvailable(rows[id])
      ensures old(AllVacantFree()) ==> AllVacantFree()
    {
      rows := rows[id := WithStatus(rows[id], RoomStatus.Booked)];
    }

    /** `action_occupy_room`: status only; the links are not set. */
    method Occupy(id: nat)
      requires id < |rows|
      modifies this`rows
      ensures rows == old(rows)[id := WithStatus(old(rows)[id], RoomStatus.Occupied)]
      ensures !IsAvailable(rows[id])
      ensures old(AllVacantFree()) ==> AllVacantFree()
    {
      rows := rows[id := WithStatus(rows[id], RoomStatus.Occupied)];
    }

    /** `action_vacate_room`: vacant, with both links cleared. */
    method Vacate(id: nat)
      requires id < |rows|
      modifies this`rows
      ensures rows == old(rows)[id := Vacated(old(rows)[id])]
      ensures IsAvailable(rows[id]) && LinksAgree(rows[id])
      ensures old(AllVacantFree()) ==> AllVacantFree()
    {
      rows := rows[id := Vacated(rows[id])];
    }

    /** `action_maintenance`: status only. */
    method Maintenance(id: nat)
      requires id < |rows|
      modifies this`rows
      ensures rows == old(rows)[id := WithStatus(old(rows)[id], RoomStatus.Maintenance)]
      ensures !IsAvailable(rows[id])
      ensures old(AllVacantFree()) ==> AllVacantFree()
    {
      rows := rows[id := WithStatus(rows[id], RoomStatus.Maintenance)];
    }
  }
}
