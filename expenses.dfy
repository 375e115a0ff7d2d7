/** `property.expense`: the amount constraint, the approval workflow, the bill
    reference and the two onchanges that fill in the location. */
module Expenses {
  import opened Common
  import opened Calendar
  import opened Schema

  /** `_check_amount_positive`. */
  function CheckAmountPositive(e: Expense): (o: Outcome)
    ensures o.Pass? <==> e.amount > 0.0
    ensures o.Fail? ==> o.error == ValidationError("Expense amount must be positive!")
  {
    if e.amount <= 0.0 then Fail(ValidationError("Expense amount must be positive!")) else Pass
  }

  /** `sum(expenses.mapped('amount'))`. */
  function TotalAmount(es: seq<Expense>): Money
  {
    if es == [] then 0.0 else TotalAmount(es[..|es| - 1]) + es[|es| - 1].amount
  }

  /** A list of saved expenses, each of which passed the amount constraint,
      has a positive total unless it is empty. */
  lemma {:induction false} TotalAmountPositive(es: seq<Expense>)
    requires forall i :: 0 <= i < |es| ==> CheckAmountPositive(es[i]).Pass?
    ensures TotalAmount(es) >= 0.0
    ensures TotalAmount(es) == 0.0 <==> es == []
  {
    if es != [] {
      TotalAmountPositive(es[..|es| - 1]);
      assert CheckAmountPositive(es[|es| - 1]).Pass?;
    }
  }

  /** `BILL/<first 10 characters of the vendor's name>/<yyyymmdd>`. */
  function BillReference(vendorName: string, date: Date): (r: string)
    ensures var v := Prefix(vendorName, 10);
            |r| == 5 + |v| + 1 + |YmdText(date)| && |YmdText(date)| >= 8 &&
            r[..5] == "BILL/" && r[5..5 + |v|] == v && r[5 + |v|] == '/' && r[6 + |v|..] == YmdText(date)
  {
    BillText(Prefix(vendorName, 10), YmdText(date))
  }

  /** The reference built from the shortened vendor name and an already
      formatted date. */
  function BillText(vendorPart: string, ymd: string): (r: string)
    ensures |r| == 5 + |vendorPart| + 1 + |ymd|
    ensures r[..5] == "BILL/" && r[5..5 + |vendorPart|] == vendorPart
    ensures r[5 + |vendorPart|] == '/' && r[6 + |vendorPart|..] == ymd
  {
    var head := "BILL/" + vendorPart;
    assert head[5..] == vendorPart;
    head + ("/" + ymd)
  }

  /** Only ten characters of the vendor name enter the reference, so two
      vendors whose names share their first ten characters get the same
      reference for expenses of the same day. */
  lemma BillReferenceIgnoresNameTail(a: string, b: string, date: Date)
    requires |a| >= 10 && |b| >= 10 && a[..10] == b[..10]
    ensures BillReference(a, date) == BillReference(b, date)
  {
    assert Prefix(a, 10) == a[..10] == b[..10] == Prefix(b, 10);
  }

  /** `_onchange_flat_id`: the property follows the flat. */
  function OnchangeFlat(e: Expense, flats: seq<Flat>): (q: Expense)
    requires e.flat.Some? ==> e.flat.value < |flats|
    ensures e.flat.Some? ==> q.property == Some(flats[e.flat.value].property)
    ensures q.(property := e.property) == e
  {
    if e.flat.Some? then e.(property := Some(flats[e.flat.value].property)) else e
  }

  /** `_onchange_room_id`: flat and property follow the room (the room's own
      property field, not its flat's). */
  function OnchangeRoom(e: Expense, rooms: seq<Room>): (q: Expense)
    requires e.room.Some? ==> e.room.value < |rooms|
    ensures e.room.Some? ==> q.flat == Some(rooms[e.room.value].flat) && q.property == Some(rooms[e.room.value].property)
    ensures q.(flat := e.flat, property := e.property) == e
  {
    if e.room.Some? then
      var r := rooms[e.room.value];
      e.(flat := Some(r.flat), property := Some(r.property))
    else e
  }

  /** The expense table and its workflow actions. None of the actions checks
      the state it starts from. */
  class ExpenseTable {
    var rows: seq<Expense>

    constructor (rows0: seq<Expense>)
      ensures rows == rows0
    {
      rows := rows0;
    }

    /** `action_submit`. */
    method Submit(id: nat)
      requires id < |rows|
      modifies this`rows
      ensures rows == old(rows)[id := old(rows)[id].(state := ExpenseState.Submitted)]
    {
      rows := rows[id := rows[id].(state := ExpenseState.Submitted)];
    }

    /** `action_approve`: also records who approved and when (`env.user`, `Datetime.now()`). */
    method Approve(id: nat, user: nat, now: int)
      requires id < |rows|
      modifies this`rows
      ensures rows == old(rows)[id := old(rows)[id].(state := ExpenseState.Approved,
                                                    approvedBy := Some(user), approvalTime := Some(now))]
    {
      rows := rows[id := rows[id].(state := ExpenseState.Approved, approvedBy := Some(user), approvalTime := Some(now))];
    }

    /** `action_pay`. */
    method Pay(id: nat)
      requires id < |rows|
      modifies this`rows
      ensures rows == old(rows)[id := old(rows)[id].(state := ExpenseState.Paid)]
    {
      rows := rows[id := rows[id].(state := ExpenseState.Paid)];
    }

    /** `action_reject`. */
    method Reject(id: nat)
      requires id < |rows|
      modifies this`rows
      ensures rows == old(rows)[id := old(rows)[id].(state := ExpenseState.Rejected)]
    {
      rows := rows[id := rows[id].(state := ExpenseState.Rejected)];
    }

    /** `action_create_bill_reference`: refused without a vendor; otherwise the
        reference is written and nothing else changes. */
    method CreateBillReference(id: nat, partners: seq<Partner>) returns (o: Outcome)
      requires id < |rows|
      requires rows[id].vendor.Some? ==> rows[id].vendor.value < |partners|
      modifies this`rows
      ensures o.Fail? <==> old(rows)[id].vendor.None?
      ensures o.Fail? ==> o.error == ValidationError("Vendor is required to create a bill reference!") && rows == old(rows)
      ensures o.Pass? ==> rows == old(rows)[id := old(rows)[id].(billReference :=
                BillReference(partners[old(rows)[id].vendor.value].name, old(rows)[id].date))]
    {
      var e := rows[id];
      if e.vendor.None? {
        return Fail(ValidationError("Vendor is required to create a bill reference!"));
      }
      rows := rows[id := e.(billReference := BillReference(partners[e.vendor.value].name, e.date))];
      return Pass;
    }
  }
}
