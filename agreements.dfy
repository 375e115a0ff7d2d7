/** `property.agreement`: the two save constraints (dates and room overlap),
    activation and termination, which write the room, the tenant and the
    agreement, the renewal defaults, the derived durations and payment
    figures, and the selection of expiring agreements. */
module Agreements {
  import opened Common
  import opened Calendar
  import opened Schema
  import opened Rooms
  import opened Collections
  import opened Tenants

  /** `_compute_name`: "AGR/<tenant name>/<room name>/<yyyymmdd>"; tenant, room
      and start date are required, so the "New Agreement" fallback is never
      taken by a saved record. */
  function AgreementName(tenantName: string, roomName: string, start: Date): (s: string)
    ensures var t, r := |tenantName|, |roomName|;
            |s| == 4 + t + 1 + r + 1 + |YmdText(start)| && |YmdText(start)| >= 8 &&
            s[..4] == "AGR/" && s[4..4 + t] == tenantName && s[4 + t] == '/' &&
            s[5 + t..5 + t + r] == roomName && s[5 + t + r] == '/' && s[6 + t + r..] == YmdText(start)
  {
    AgreementText(tenantName, roomName, YmdText(start))
  }

  /** The name built from the tenant and room names and an already formatted date. */
  function AgreementText(tenantName: string, roomName: string, ymd: string): (s: string)
    ensures var t, r := |tenantName|, |roomName|;
            |s| == 4 + t + 1 + r + 1 + |ymd| &&
            s[..4] == "AGR/" && s[4..4 + t] == tenantName && s[4 + t] == '/' &&
            s[5 + t..5 + t + r] == roomName && s[5 + t + r] == '/' && s[6 + t + r..] == ymd
  {
    var head := "AGR/" + tenantName + "/";
    assert head[..4] == "AGR/" && head[4..4 + |tenantName|] == tenantName && head[4 + |tenantName|] == '/';
    var mid := roomName + "/";
    assert mid[..|roomName|] == roomName;
    head + mid + ymd
  }

  /** `_check_dates`. */
  function CheckDates(a: Agreement): (o: Outcome)
    ensures o.Fail? <==> a.endDate <= a.startDate
    ensures o.Fail? ==> o.error == ValidationError("End date must be after start date!")
  {
    if a.endDate <= a.startDate then Fail(ValidationError("End date must be after start date!")) else Pass
  }

  /** The overlap test of `_check_room_availability` as written: the new start
      or the new end lies inside the existing interval (bounds included). */
  predicate Overlaps(ex: Agreement, s: Date, e: Date)
  {
    (ex.startDate <= s && s <= ex.endDate) || (ex.startDate <= e && e <= ex.endDate)
  }

  /** The states the check counts as holding the room. */
  predicate HoldsRoom(a: Agreement)
  {
    a.state == AgreementState.Draft || a.state == AgreementState.Active
  }

  /** Record `j` makes the check of record `id` fail. */
  predicate Blocks(rows: seq<Agreement>, id: nat, j: nat)
    requires id < |rows| && j < |rows|
  {
    j != id && rows[j].room == rows[id].room && HoldsRoom(rows[j]) &&
    Overlaps(rows[j], rows[id].startDate, rows[id].endDate)
  }

  /** `_check_room_availability` for record `id`; the record's own state does
      not matter. */
  function CheckRoomAvailability(rows: seq<Agreement>, id: nat): (o: Outcome)
    requires id < |rows|
    ensures o.Fail? <==> exists j :: 0 <= j < |rows| && Blocks(rows, id, j)
    ensures o.Fail? ==> o.error == ValidationError("Room is already rented during this period!")
  {
    if exists j :: 0 <= j < |rows| && Blocks(rows, id, j) then
      Fail(ValidationError("Room is already rented during this period!"))
    else Pass
  }

  /** Closed intervals [s1, e1] and [s2, e2] share a day. */
  predicate Intersect(s1: int, e1: int, s2: int, e2: int)
  {
    s1 <= e2 && s2 <= e1
  }

  /** For well-formed intervals the coded test is interval intersection minus
      one case: the new interval strictly containing the existing one. */
  lemma OverlapsSpec(ex: Agreement, s: Date, e: Date)
    requires ex.startDate <= ex.endDate && s <= e
    ensures Overlaps(ex, s, e) <==>
              Intersect(ex.startDate, ex.endDate, s, e) && !(s < ex.startDate && ex.endDate < e)
  {
  }

  /** The test as written misses containment: an agreement for days 5 to 30
      passes against a draft agreement for days 10 to 20 on the same room. */
  lemma ContainmentNotFlagged()
    ensures var ex := Agreement(0, 7, 10, 20, 1000.0, 0.0, 0.0, 0.0, PaymentMethod.Cash, Frequency.Monthly,
                                1, 30, true, false, 1, 5, AgreementState.Draft);
            var nw := ex.(tenant := 1, startDate := 5, endDate := 30);
            CheckRoomAvailability([ex, nw], 1).Pass? && CheckDates(nw).Pass? &&
            Intersect(ex.startDate, ex.endDate, nw.startDate, nw.endDate)
  {
    var ex := Agreement(0, 7, 10, 20, 1000.0, 0.0, 0.0, 0.0, PaymentMethod.Cash, Frequency.Monthly,
                        1, 30, true, false, 1, 5, AgreementState.Draft);
    var nw := ex.(tenant := 1, startDate := 5, endDate := 30);
    assert !Blocks([ex, nw], 1, 0);
  }

  /** Were the check run for every record, no two agreements holding the same
      room could share a day: the containment the test misses in one
      direction it catches in the other. */
  lemma {:induction false} AllChecksPassImpliesDisjoint(rows: seq<Agreement>, i: nat, j: nat)
    requires forall id :: 0 <= id < |rows| ==> CheckDates(rows[id]).Pass? && CheckRoomAvailability(rows, id).Pass?
    requires i < |rows| && j < |rows| && i != j
    requires rows[i].room == rows[j].room && HoldsRoom(rows[i]) && HoldsRoom(rows[j])
    ensures !Intersect(rows[i].startDate, rows[i].endDate, rows[j].startDate, rows[j].endDate)
  {
    assert CheckRoomAvailability(rows, i).Pass? && CheckRoomAvailability(rows, j).Pass?;
    assert CheckDates(rows[i]).Pass? && CheckDates(rows[j]).Pass?;
    assert !Blocks(rows, i, j) && !Blocks(rows, j, i);
    OverlapsSpec(rows[j], rows[i].startDate, rows[i].endDate);
    OverlapsSpec(rows[i], rows[j].startDate, rows[j].endDate);
  }

  /** The defaults `action_renew` puts into the renewal form. */
  datatype Renewal = Renewal(tenant: nat, room: nat, rentAmount: Money, depositAmount: Money,
                             startDate: Date, endDate: Date)

  function RenewalDefaults(a: Agreement): (r: Renewal)
    ensures r.tenant == a.tenant && r.room == a.room
    ensures r.rentAmount == a.rentAmount && r.depositAmount == a.depositAmount
    ensures r.startDate - a.endDate == 1 && r.endDate - a.endDate == 365
  {
    Renewal(a.tenant, a.room, a.rentAmount, a.depositAmount, a.endDate + 1, a.endDate + 365)
  }

  /** The renewal form as an agreement: the remaining fields keep the renewed
      agreement's values and the state starts as draft. */
  function RenewalAgreement(a: Agreement): (b: Agreement)
  {
    var r := RenewalDefaults(a);
    a.(tenant := r.tenant, room := r.room, rentAmount := r.rentAmount, depositAmount := r.depositAmount,
       startDate := r.startDate, endDate := r.endDate, state := AgreementState.Draft)
  }

  /** The renewal passes the date check and never conflicts with the agreement
      it renews, in either direction of the overlap test. */
  lemma RenewalIsValid(a: Agreement)
    requires CheckDates(a).Pass?
    ensures CheckDates(RenewalAgreement(a)).Pass?
    ensures !Overlaps(a, RenewalAgreement(a).startDate, RenewalAgreement(a).endDate)
    ensures !Overlaps(RenewalAgreement(a), a.startDate, a.endDate)
    ensures !Intersect(a.startDate, a.endDate, RenewalAgreement(a).startDate, RenewalAgreement(a).endDate)
  {
  }

  /** Python's `round(days / 30)`: to the nearest integer, ties to even. */
  function DurationMonths(a: Agreement): (m: int)
  {
    var days := a.endDate - a.startDate;
    var q := days / 30;
    var r := days % 30;
    if 2 * r < 30 then q
    else if 2 * r > 30 then q + 1
    else if q % 2 == 0 then q else q + 1
  }

  /** `duration_months` is the integer nearest to days / 30, the even one on a
      tie, and no other integer is as near. */
  lemma DurationMonthsSpec(a: Agreement, k: int)
    ensures var days := a.endDate - a.startDate; var m := DurationMonths(a);
            -15 <= days - 30 * m <= 15 &&
            ((days - 30 * m == 15 || days - 30 * m == -15) ==> m % 2 == 0) &&
            (-15 < days - 30 * k < 15 ==> k == m)
  {
  }

  /** `_compute_days_remaining`. */
  function DaysRemaining(a: Agreement, today: Date): (n: int)
    ensures a.state != AgreementState.Active ==> n == 0
    ensures a.state == AgreementState.Active ==> today + n == a.endDate
  {
    if a.state == AgreementState.Active then a.endDate - today else 0
  }

  /** `total_collected` of agreement `id`: all its collections, any status. */
  function AgreementTotalCollected(cs: seq<Collection>, id: nat): Money
  {
    TotalCollected(OfAgreement(cs, id))
  }

  /** `last_payment_date` of agreement `id`. */
  function AgreementLastPayment(cs: seq<Collection>, id: nat): (r: Option<Date>)
    ensures r.None? <==> forall i :: 0 <= i < |cs| ==> cs[i].agreement != Some(id)
    ensures r.Some? ==> (exists i :: 0 <= i < |cs| && cs[i].agreement == Some(id) && cs[i].date == r.value)
    ensures r.Some? ==> forall i :: 0 <= i < |cs| && cs[i].agreement == Some(id) ==> cs[i].date <= r.value
  {
    var mine := OfAgreement(cs, id);
    var r := LatestDate(mine);
    assert forall i :: 0 <= i < |cs| && cs[i].agreement == Some(id) ==> cs[i] in mine;
    assert r.Some? ==> exists k :: 0 <= k < |mine| && mine[k].date == r.value && mine[k] in cs;
    r
  }

  /** The search of `_cron_check_expiring_agreements`. */
  predicate IsExpiring(a: Agreement, today: Date)
  {
    a.state == AgreementState.Active && a.endDate <= today + 30
  }

  /** The expiring agreements among the first `n`, in table order. */
  function Expiring(rows: seq<Agreement>, today: Date, n: nat): (r: seq<nat>)
    requires n <= |rows|
  {
    if n == 0 then [] else Expiring(rows, today, n - 1) + (if IsExpiring(rows[n - 1], today) then [n - 1] else [])
  }

  /** Each agreement appears once, in increasing order, exactly when it is
      active and ends within thirty days (or already has). */
  lemma {:induction false} ExpiringSpec(rows: seq<Agreement>, today: Date, n: nat)
    requires n <= |rows|
    ensures forall k: nat :: k in Expiring(rows, today, n) <==> k < n && IsExpiring(rows[k], today)
    ensures forall i, j :: 0 <= i < j < |Expiring(rows, today, n)| ==> Expiring(rows, today, n)[i] < Expiring(rows, today, n)[j]
  {
    if n > 0 {
      ExpiringSpec(rows, today, n - 1);
      var prev := Expiring(rows, today, n - 1);
      forall i | 0 <= i < |prev| ensures prev[i] < n - 1
      {
        assert prev[i] in prev;
      }
    }
  }

  /** The agreement table and the actions that write across tables. */
  class AgreementTable {
    var rows: seq<Agreement>

    constructor (rows0: seq<Agreement>)
      ensures rows == rows0
    {
      rows := rows0;
    }

    /** Saving a new agreement: it is kept only when both constraints pass on
        the table that includes it. */
    method Create(a: Agreement) returns (o: Outcome)
      modifies this`rows
      ensures o.Pass? <==> CheckDates(a).Pass? && CheckRoomAvailability(old(rows) + [a], |old(rows)|).Pass?
      ensures o.Pass? ==> rows == old(rows) + [a]
      ensures o.Fail? ==> rows == old(rows)
      ensures o.Pass? ==> forall j :: 0 <= j < |old(rows)| && old(rows)[j].room == a.room && HoldsRoom(old(rows)[j]) ==>
                !Overlaps(old(rows)[j], a.startDate, a.endDate)
    {
      var saved := rows + [a];
      o := CheckDates(a);
      if o.Pass? {
        o := CheckRoomAvailability(saved, |rows|);
      }
      if o.Pass? {
        assert forall j :: 0 <= j < |rows| ==> saved[j] == rows[j] && !Blocks(saved, |rows|, j);
        rows := saved;
      }
    }

    /** `action_activate`: the room becomes occupied by this tenant under this
        agreement, the tenant becomes active in this room, the agreement
        becomes active. Nothing checks that the room was free. */
    method Activate(id: nat, rooms: RoomTable, tenants: TenantRegistry)
      requires id < |rows| && rows[id].room < |rooms.rows| && rows[id].tenant < |tenants.tenants|
      requires tenants.Valid()
      modifies this`rows, rooms`rows, tenants`tenants, tenants`partners
      ensures tenants.Valid()
      ensures var a := old(rows)[id];
              rooms.rows == old(rooms.rows)[a.room := old(rooms.rows)[a.room].(status := RoomStatus.Occupied,
                             currentTenant := Some(a.tenant), currentAgreement := Some(id))]
      ensures var a := old(rows)[id];
              tenants.tenants == old(tenants.tenants)[a.tenant := old(tenants.tenants)[a.tenant].(
                                   status := TenantStatus.Active, currentRoom := Some(a.room))]
      ensures tenants.partners == old(tenants.partners)
      ensures rows == old(rows)[id := old(rows)[id].(state := AgreementState.Active)]
      ensures LinksAgree(rooms.rows[rows[id].room]) && !IsAvailable(rooms.rows[rows[id].room])
      ensures old(rooms.AllVacantFree()) ==> rooms.AllVacantFree()
    {
      var a := rows[id];
      rooms.rows := rooms.rows[a.room := rooms.rows[a.room].(status := RoomStatus.Occupied,
                      currentTenant := Some(a.tenant), currentAgreement := Some(id))];
      tenants.Write(a.tenant, TenantVals(None, None, None, None, None, Some(TenantStatus.Active), Some(Some(a.room))));
      rows := rows[id := a.(state := AgreementState.Active)];
    }

    /** `action_terminate`: the room is vacated with both links cleared, the
        tenant loses its current room but keeps its status, the agreement is
        terminated. */
    method Terminate(id: nat, rooms: RoomTable, tenants: TenantRegistry)
      requires id < |rows| && rows[id].room < |rooms.rows| && rows[id].tenant < |tenants.tenants|
      requires tenants.Valid()
      modifies this`rows, rooms`rows, tenants`tenants, tenants`partners
      ensures tenants.Valid()
      ensures var a := old(rows)[id];
              rooms.rows == old(rooms.rows)[a.room := Vacated(old(rooms.rows)[a.room])]
      ensures var a := old(rows)[id];
              tenants.tenants == old(tenants.tenants)[a.tenant := old(tenants.tenants)[a.tenant].(currentRoom := None)]
      ensures tenants.partners == old(tenants.partners)
      ensures rows == old(rows)[id := old(rows)[id].(state := AgreementState.Terminated)]
      ensures LinksAgree(rooms.rows[rows[id].room]) && IsAvailable(rooms.rows[rows[id].room])
      ensures old(rooms.AllVacantFree()) ==> rooms.AllVacantFree()
    {
      var a := rows[id];
      rooms.rows := rooms.rows[a.room := Vacated(rooms.rows[a.room])];
      tenants.Write(a.tenant, RoomVals(None));
      rows := rows[id := a.(state := AgreementState.Terminated)];
    }
  }

  /** Activating and then terminating an agreement leaves its room vacant and
      free, its tenant active without a room, and the agreement terminated,
      whatever the room and tenant were before. */
  method ActivateThenTerminate(t: AgreementTable, id: nat, rooms: RoomTable, tenants: TenantRegistry)
    requires id < |t.rows| && t.rows[id].room < |rooms.rows| && t.rows[id].tenant < |tenants.tenants|
    requires tenants.Valid()
    modifies t`rows, rooms`rows, tenants`tenants, tenants`partners
    ensures |t.rows| == |old(t.rows)| && |rooms.rows| == |old(rooms.rows)| && |tenants.tenants| == |old(tenants.tenants)|
    ensures var a := old(t.rows)[id];
            rooms.rows[a.room] == Vacated(old(rooms.rows)[a.room]) &&
            tenants.tenants[a.tenant].status == TenantStatus.Active && tenants.tenants[a.tenant].currentRoom.None? &&
            t.rows[id].state == AgreementState.Terminated
    ensures tenants.partners == old(tenants.partners)
  {
    t.Activate(id, rooms, tenants);
    t.Terminate(id, rooms, tenants);
  }
}
