/** `property.property`: the roll-ups over a property's flats and their rooms,
    the financial summary, the code constraint and the state actions. The
    property's rooms are the rooms of its flats (`flat_ids.mapped('room_ids')`),
    whatever their own property field says. */
module Properties {
  import opened Common
  import opened Calendar
  import opened Schema
  import opened Rooms
  import opened Flats
  import opened Expenses

  /** Every room points at an existing flat (`flat_id` is required). */
  predicate RoomFlatsExist(rooms: seq<Room>, flats: seq<Flat>)
  {
    forall i :: 0 <= i < |rooms| ==> rooms[i].flat < |flats|
  }

  /** `_compute_total_flats`: flats among the first `n` whose property is `p`. */
  function FlatCount(flats: seq<Flat>, p: nat, n: nat): (c: nat)
    requires n <= |flats|
    ensures c <= n
  {
    if n == 0 then 0 else FlatCount(flats, p, n - 1) + (if flats[n - 1].property == p then 1 else 0)
  }

  function TotalFlats(flats: seq<Flat>, p: nat): nat
  {
    FlatCount(flats, p, |flats|)
  }

  /** The ids among the first `n` of the flats of property `p` (`flat_ids`). */
  function FlatIds(flats: seq<Flat>, p: nat, n: nat): set<nat>
    requires n <= |flats|
  {
    set i: nat | i < n && flats[i].property == p
  }

  /** `total_flats` is the number of the property's flats. */
  lemma {:induction false} FlatCountIsFlatIds(flats: seq<Flat>, p: nat, n: nat)
    requires n <= |flats|
    ensures FlatCount(flats, p, n) == |FlatIds(flats, p, n)|
  {
    if n > 0 {
      FlatCountIsFlatIds(flats, p, n - 1);
      var before := FlatIds(flats, p, n - 1);
      if flats[n - 1].property == p {
        assert FlatIds(flats, p, n) == before + {n - 1};
        assert n - 1 !in before;
      } else {
        assert FlatIds(flats, p, n) == before;
      }
    }
  }

  /** `sum(len(flat.room_ids) for flat in flat_ids)`, over the first `n` flats. */
  function RoomsOverFlats(rooms: seq<Room>, flats: seq<Flat>, p: nat, n: nat): nat
    requires n <= |flats|
  {
    if n == 0 then 0
    else RoomsOverFlats(rooms, flats, p, n - 1) + (if flats[n - 1].property == p then RoomsCount(rooms, n - 1) else 0)
  }

  /** `_compute_total_rooms`. */
  function TotalRooms(rooms: seq<Room>, flats: seq<Flat>, p: nat): nat
  {
    RoomsOverFlats(rooms, flats, p, |flats|)
  }

  /** `flat_ids.mapped('room_ids')`: the rooms whose flat belongs to `p`. */
  function PropertyRooms(rooms: seq<Room>, flats: seq<Flat>, p: nat): (rs: seq<Room>)
    ensures |rs| <= |rooms|
    ensures forall r :: r in rs <==> r in rooms && r.flat < |flats| && flats[r.flat].property == p
  {
    if rooms == [] then []
    else
      var last := rooms[|rooms| - 1];
      PropertyRooms(rooms[..|rooms| - 1], flats, p) +
        (if last.flat < |flats| && flats[last.flat].property == p then [last] else [])
  }

  /** One more room adds one to the per-flat sum exactly when its flat is
      among the first `n` and belongs to `p`. */
  lemma {:induction false} RoomsOverFlatsSnoc(rooms: seq<Room>, x: Room, flats: seq<Flat>, p: nat, n: nat)
    requires n <= |flats|
    ensures RoomsOverFlats(rooms + [x], flats, p, n) ==
            RoomsOverFlats(rooms, flats, p, n) + (if x.flat < n && flats[x.flat].property == p then 1 else 0)
  {
    if n > 0 {
      RoomsOverFlatsSnoc(rooms, x, flats, p, n - 1);
      assert (rooms + [x])[..|rooms + [x]| - 1] == rooms;
      assert RoomsCount(rooms + [x], n - 1) == RoomsCount(rooms, n - 1) + (if x.flat == n - 1 then 1 else 0);
    }
  }

  /** `total_rooms` (summed flat by flat) counts exactly the property's rooms:
      every room is counted once, under its own flat. */
  lemma {:induction false} TotalRoomsIsPropertyRooms(rooms: seq<Room>, flats: seq<Flat>, p: nat)
    requires RoomFlatsExist(rooms, flats)
    ensures TotalRooms(rooms, flats, p) == |PropertyRooms(rooms, flats, p)|
  {
    if rooms == [] {
      RoomsOverFlatsEmpty(flats, p, |flats|);
    } else {
      var init := rooms[..|rooms| - 1];
      var x := rooms[|rooms| - 1];
      assert rooms == init + [x];
      TotalRoomsIsPropertyRooms(init, flats, p);
      RoomsOverFlatsSnoc(init, x, flats, p, |flats|);
    }
  }

  lemma {:induction false} RoomsOverFlatsEmpty(flats: seq<Flat>, p: nat, n: nat)
    requires n <= |flats|
    ensures RoomsOverFlats([], flats, p, n) == 0
  {
    if n > 0 {
      RoomsOverFlatsEmpty(flats, p, n - 1);
    }
  }

  /** `_compute_room_stats`. */
  function OccupiedRooms(rooms: seq<Room>, flats: seq<Flat>, p: nat): nat
  {
    CountStatus(PropertyRooms(rooms, flats, p), RoomStatus.Occupied)
  }

  function VacantRooms(rooms: seq<Room>, flats: seq<Flat>, p: nat): nat
  {
    CountStatus(PropertyRooms(rooms, flats, p), RoomStatus.Vacant)
  }

  /** `occupancy_rate`: occupied rooms over `total_rooms`, a ratio (the view
      shows it as a percentage), 0 for a property without rooms. */
  function OccupancyRate(rooms: seq<Room>, flats: seq<Flat>, p: nat): real
  {
    var total := TotalRooms(rooms, flats, p);
    if total > 0 then OccupiedRooms(rooms, flats, p) as real / total as real else 0.0
  }

  /** The ratio lies in [0, 1]; it is 1 exactly when the property has rooms and
      every one is occupied, and 0 when none is. */
  lemma OccupancyRateBounds(rooms: seq<Room>, flats: seq<Flat>, p: nat)
    requires RoomFlatsExist(rooms, flats)
    ensures 0.0 <= OccupancyRate(rooms, flats, p) <= 1.0
    ensures OccupancyRate(rooms, flats, p) == 1.0 <==>
              TotalRooms(rooms, flats, p) > 0 && OccupiedRooms(rooms, flats, p) == TotalRooms(rooms, flats, p)
    ensures OccupiedRooms(rooms, flats, p) == 0 ==> OccupancyRate(rooms, flats, p) == 0.0
  {
    TotalRoomsIsPropertyRooms(rooms, flats, p);
    var total := TotalRooms(rooms, flats, p);
    if total > 0 {
      RatioBounds(OccupiedRooms(rooms, flats, p), total);
    }
  }

  lemma RatioBounds(a: nat, b: nat)
    requires 0 < b && a <= b
    ensures 0.0 <= a as real / b as real <= 1.0
    ensures a as real / b as real == 1.0 <==> a == b
    ensures a == 0 ==> a as real / b as real == 0.0
  {
    var q := a as real / b as real;
    assert q * b as real == a as real;
  }

  /** Occupied and vacant rooms of the property together never exceed its total. */
  lemma PropertyRoomStatsBound(rooms: seq<Room>, flats: seq<Flat>, p: nat)
    requires RoomFlatsExist(rooms, flats)
    ensures OccupiedRooms(rooms, flats, p) + VacantRooms(rooms, flats, p) <= TotalRooms(rooms, flats, p)
  {
    TotalRoomsIsPropertyRooms(rooms, flats, p);
    CountTwoStatuses(PropertyRooms(rooms, flats, p), RoomStatus.Occupied, RoomStatus.Vacant);
  }

  /** `monthly_rent_income`. */
  function MonthlyRentIncome(rooms: seq<Room>, flats: seq<Flat>, p: nat): Money
  {
    OccupiedRent(PropertyRooms(rooms, flats, p))
  }

  /** `expense_ids` dated on or after `cutoff`, in table order. */
  function RecentExpenses(expenses: seq<Expense>, p: nat, cutoff: int): (es: seq<Expense>)
    ensures forall e :: e in es <==> e in expenses && e.property == Some(p) && e.date >= cutoff
  {
    if expenses == [] then []
    else
      var last := expenses[|expenses| - 1];
      RecentExpenses(expenses[..|expenses| - 1], p, cutoff) +
        (if last.property == Some(p) && last.date >= cutoff then [last] else [])
  }

  /** The cut-off of the twelve-month average: the 1st of this month less 365 days. */
  function ExpenseCutoff(today: Date): int
  {
    FirstOfMonth(today) - 365
  }

  /** `monthly_expenses`: the expenses (any state) since the cut-off, divided by 12. */
  function MonthlyExpenses(expenses: seq<Expense>, p: nat, today: Date): Money
  {
    AverageSince(expenses, p, ExpenseCutoff(today))
  }

  /** The expenses dated on or after `cutoff`, summed and divided by 12. */
  function AverageSince(expenses: seq<Expense>, p: nat, cutoff: int): Money
  {
    var es := RecentExpenses(expenses, p, cutoff);
    if es != [] then TotalAmount(es) / 12.0 else 0.0
  }

  datatype FinancialSummary = FinancialSummary(income: Money, expenses: Money, profit: Money)

  /** `_compute_financial_summary`. */
  function Financials(rooms: seq<Room>, flats: seq<Flat>, expenses: seq<Expense>, p: nat, today: Date): (s: FinancialSummary)
    ensures s.income == MonthlyRentIncome(rooms, flats, p)
    ensures s.expenses == MonthlyExpenses(expenses, p, today)
    ensures s.profit == s.income - s.expenses
  {
    var income := MonthlyRentIncome(rooms, flats, p);
    var exp := MonthlyExpenses(expenses, p, today);
    FinancialSummary(income, exp, income - exp)
  }

  /** With saved (positive) expenses, the monthly average is positive exactly
      when some expense of the property falls in the window, so the profit is
      at most the rent income, and equal to it only when none does. */
  lemma MonthlyExpensesSign(rooms: seq<Room>, flats: seq<Flat>, expenses: seq<Expense>, p: nat, today: Date)
    requires forall i :: 0 <= i < |expenses| ==> CheckAmountPositive(expenses[i]).Pass?
    ensures MonthlyExpenses(expenses, p, today) >= 0.0
    ensures MonthlyExpenses(expenses, p, today) > 0.0 <==>
              exists i :: 0 <= i < |expenses| && expenses[i].property == Some(p) && expenses[i].date >= ExpenseCutoff(today)
    ensures Financials(rooms, flats, expenses, p, today).profit <= MonthlyRentIncome(rooms, flats, p)
  {
    AverageSinceSign(expenses, p, ExpenseCutoff(today));
  }

  /** The average over saved expenses is not negative, and positive exactly
      when some expense of the property is dated on or after the cut-off. */
  lemma AverageSinceSign(expenses: seq<Expense>, p: nat, cutoff: int)
    requires forall i :: 0 <= i < |expenses| ==> CheckAmountPositive(expenses[i]).Pass?
    ensures AverageSince(expenses, p, cutoff) >= 0.0
    ensures AverageSince(expenses, p, cutoff) > 0.0 <==>
              exists i :: 0 <= i < |expenses| && expenses[i].property == Some(p) && expenses[i].date >= cutoff
  {
    var es := RecentExpenses(expenses, p, cutoff);
    RecentExpensesPositive(expenses, p, cutoff);
    TotalAmountPositive(es);
    assert es != [] <==> exists i :: 0 <= i < |expenses| && expenses[i].property == Some(p) && expenses[i].date >= cutoff by {
      if exists i :: 0 <= i < |expenses| && expenses[i].property == Some(p) && expenses[i].date >= cutoff {
        var i :| 0 <= i < |expenses| && expenses[i].property == Some(p) && expenses[i].date >= cutoff;
        assert expenses[i] in es;
      }
      if es != [] {
        assert es[0] in es;
      }
    }
  }

  lemma RecentExpensesPositive(expenses: seq<Expense>, p: nat, cutoff: int)
    requires forall i :: 0 <= i < |expenses| ==> CheckAmountPositive(expenses[i]).Pass?
    ensures forall i :: 0 <= i < |RecentExpenses(expenses, p, cutoff)| ==> CheckAmountPositive(RecentExpenses(expenses, p, cutoff)[i]).Pass?
  {
    var es := RecentExpenses(expenses, p, cutoff);
    forall i | 0 <= i < |es| ensures CheckAmountPositive(es[i]).Pass?
    {
      assert es[i] in es;
    }
  }

  // Uniqueness of the property code.

  /** `_check_code_unique` for record `id`: no other record may carry the same
      code (the empty code included). The search skips archived records
      (`active` false), so only an unarchived namesake counts. */
  function CheckCodeUnique(props: seq<Property>, id: nat): (o: Outcome)
    requires id < |props|
    ensures o.Fail? <==> exists j :: 0 <= j < |props| && j != id && props[j].active && props[j].code == props[id].code
    ensures o.Fail? ==> o.error == ValidationError("Property code must be unique!")
  {
    if exists j :: 0 <= j < |props| && j != id && props[j].active && props[j].code == props[id].code then
      Fail(ValidationError("Property code must be unique!"))
    else Pass
  }

  /** Two properties share a code only when both are archived. */
  predicate CodesUnique(props: seq<Property>)
  {
    forall i, j :: 0 <= i < j < |props| && (props[i].active || props[j].active) ==> props[i].code != props[j].code
  }

  lemma CheckCodeUniqueSpec(props: seq<Property>)
    ensures (forall id :: 0 <= id < |props| ==> CheckCodeUnique(props, id).Pass?) <==> CodesUnique(props)
  {
    if forall id :: 0 <= id < |props| ==> CheckCodeUnique(props, id).Pass? {
      forall i, j | 0 <= i < j < |props| && (props[i].active || props[j].active) ensures props[i].code != props[j].code
      {
        assert CheckCodeUnique(props, i).Pass? && CheckCodeUnique(props, j).Pass?;
      }
    }
  }

  /** An archived property does not stop a new one from taking its code. */
  lemma ArchivedCodeReusable(code: string)
    ensures var props := [Property("A", code, false, PropertyState.Inactive), Property("B", code, true, PropertyState.Draft)];
            CheckCodeUnique(props, 1).Pass? && CheckCodeUnique(props, 0).Fail?
  {
    var props := [Property("A", code, false, PropertyState.Inactive), Property("B", code, true, PropertyState.Draft)];
    assert props[1].active && props[1].code == props[0].code;
  }

  /** `search_count([])` on the properties: the unarchived ones. */
  function ActiveProperties(props: seq<Property>): (n: nat)
    ensures n <= |props|
    ensures n == 0 <==> forall i :: 0 <= i < |props| ==> !props[i].active
    ensures n == |props| <==> forall i :: 0 <= i < |props| ==> props[i].active
  {
    if props == [] then 0
    else ActiveProperties(props[..|props| - 1]) + (if props[|props| - 1].active then 1 else 0)
  }

  /** The property table and its state actions. */
  class PropertyTable {
    var rows: seq<Property>

    constructor (rows0: seq<Property>)
      ensures rows == rows0
    {
      rows := rows0;
    }

    /** `action_activate`. */
    method Activate(id: nat)
      requires id < |rows|
      modifies this`rows
      ensures rows == old(rows)[id := old(rows)[id].(state := PropertyState.Active)]
    {
      rows := rows[id := rows[id].(state := PropertyState.Active)];
    }

    /** `action_maintenance`. */
    method SetMaintenance(id: nat)
      requires id < |rows|
      modifies this`rows
      ensures rows == old(rows)[id := old(rows)[id].(state := PropertyState.Maintenance)]
    {
      rows := rows[id := rows[id].(state := PropertyState.Maintenance)];
    }

    /** `action_deactivate`. */
    method Deactivate(id: nat)
      requires id < |rows|
      modifies this`rows
      ensures rows == old(rows)[id := old(rows)[id].(state := PropertyState.Inactive)]
    {
      rows := rows[id := rows[id].(state := PropertyState.Inactive)];
    }
  }
}
