/** `property.due.tracker`: what a tenant owes and when. The priority-ordered
    status, the outstanding amount and days overdue, the three actions, and
    the monthly due sweep with its exact-date existence check. */
module Dues {
  import opened Common
  import opened Calendar
  import opened Schema
  import opened AgreementOrder

  /** `_compute_status`, evaluated on `today`: the first rule that matches
      wins, so paid beats partially paid beats overdue beats pending. The
      compute never yields `waived`; only `action_waive` writes that. */
  function ComputeStatus(amountDue: Money, amountPaid: Money, dueDate: Date, today: Date): (s: DueStatus)
    ensures s != DueStatus.Waived
    ensures s == DueStatus.Paid <==> amountPaid >= amountDue
    ensures s == DueStatus.PartiallyPaid <==> 0.0 < amountPaid < amountDue
    ensures s == DueStatus.Overdue <==> amountPaid <= 0.0 && amountPaid < amountDue && dueDate < today
    ensures s == DueStatus.Pending <==> amountPaid <= 0.0 && amountPaid < amountDue && today <= dueDate
  {
    if amountPaid >= amountDue then DueStatus.Paid
    else if amountPaid > 0.0 then DueStatus.PartiallyPaid
    else if dueDate < today then DueStatus.Overdue
    else DueStatus.Pending
  }

  /** With the amounts fixed, the passing of time only moves a due from
      pending to overdue, never back. */
  lemma OverdueIsPermanent(amountDue: Money, amountPaid: Money, dueDate: Date, t1: Date, t2: Date)
    requires t1 <= t2 && ComputeStatus(amountDue, amountPaid, dueDate, t1) == DueStatus.Overdue
    ensures ComputeStatus(amountDue, amountPaid, dueDate, t2) == DueStatus.Overdue
  {
  }

  /** `_compute_outstanding`; negative when the tenant overpaid. */
  function Outstanding(d: Due): (r: Money)
    ensures r + d.amountPaid == d.amountDue
  {
    d.amountDue - d.amountPaid
  }

  /** The outstanding amount and the computed status tell the same story: no
      balance exactly when paid, a balance below the whole amount when
      partially paid, the whole amount or more otherwise. */
  lemma OutstandingMatchesStatus(d: Due, today: Date)
    ensures var s := ComputeStatus(d.amountDue, d.amountPaid, d.dueDate, today);
            (Outstanding(d) <= 0.0 <==> s == DueStatus.Paid) &&
            (Outstanding(d) < 0.0 <==> d.amountPaid > d.amountDue) &&
            (s == DueStatus.PartiallyPaid ==> 0.0 < Outstanding(d) < d.amountDue) &&
            (s == DueStatus.Overdue || s == DueStatus.Pending ==> Outstanding(d) >= d.amountDue)
  {
  }

  /** `_compute_days_overdue` on `today`, from the stored status. */
  function DaysOverdue(d: Due, today: Date): (n: int)
    ensures n >= 0
    ensures n > 0 <==> d.dueDate < today && d.status != DueStatus.Paid
    ensures n > 0 ==> d.dueDate + n == today
  {
    if d.dueDate < today && d.status != DueStatus.Paid then today - d.dueDate else 0
  }

  /** `due_type.title()` of the selection key. */
  function DueTypeTitle(t: DueType): (s: string)
    ensures |s| >= 4
  {
    match t
    case Rent => "Rent"
    case Deposit => "Deposit"
    case Penalty => "Penalty"
    case Utility => "Utility"
    case Maintenance => "Maintenance"
    case Other => "Other"
  }

  /** `_compute_name` of a saved due (tenant, type and date are required):
      `<Type> - <tenant name> - <YYYY-MM-DD>`. */
  function DueName(t: DueType, tenantName: string, dueDate: Date): (s: string)
    ensures var h, n := |DueTypeTitle(t)|, |tenantName|;
            |s| == h + 3 + n + 3 + |IsoText(dueDate)| && |IsoText(dueDate)| >= 10 &&
            s[..h] == DueTypeTitle(t) && s[h..h + 3] == " - " && s[h + 3..h + 3 + n] == tenantName &&
            s[h + 3 + n..h + 6 + n] == " - " && s[h + 6 + n..] == IsoText(dueDate)
  {
    DueText(DueTypeTitle(t), tenantName, IsoText(dueDate))
  }

  /** The name built from the titled type, the tenant name and an already
      formatted date, joined by " - ". */
  function DueText(title: string, tenantName: string, iso: string): (s: string)
    ensures var h, n := |title|, |tenantName|;
            |s| == h + 3 + n + 3 + |iso| &&
            s[..h] == title && s[h..h + 3] == " - " && s[h + 3..h + 3 + n] == tenantName &&
            s[h + 3 + n..h + 6 + n] == " - " && s[h + 6 + n..] == iso
  {
    var head := title + " - " + tenantName;
    assert head[..|title|] == title && head[|title|..|title| + 3] == " - " && head[|title| + 3..] == tenantName;
    head + (" - " + iso)
  }

  /** The name tells the due type: the six titles start with six different letters. */
  lemma DueNameDeterminesType(t1: DueType, n1: string, d1: Date, t2: DueType, n2: string, d2: Date)
    requires DueName(t1, n1, d1) == DueName(t2, n2, d2)
    ensures t1 == t2
  {
    assert DueName(t1, n1, d1)[0] == DueTypeTitle(t1)[0];
    assert DueName(t2, n2, d2)[0] == DueTypeTitle(t2)[0];
  }

  /** `action_send_reminder`, the counter part: one more reminder, sent today. */
  function Reminded(d: Due, today: Date): (r: Due)
    ensures r.reminderCount == d.reminderCount + 1 && r.lastReminderDate == Some(today)
    ensures r.(reminderCount := d.reminderCount, lastReminderDate := d.lastReminderDate) == d
  {
    d.(reminderCount := d.reminderCount + 1, lastReminderDate := Some(today))
  }

  /** `action_mark_paid`: the whole amount paid, status `paid`. */
  function MarkedPaid(d: Due): (r: Due)
    ensures r.amountPaid == r.amountDue == d.amountDue && r.status == DueStatus.Paid
    ensures r.(amountPaid := d.amountPaid, status := d.status) == d
  {
    d.(amountPaid := d.amountDue, status := DueStatus.Paid)
  }

  /** The status `action_mark_paid` writes is the one the compute would give,
      and nothing is left outstanding or overdue, whatever the day. */
  lemma MarkPaidSettles(d: Due, today: Date)
    ensures var r := MarkedPaid(d);
            ComputeStatus(r.amountDue, r.amountPaid, r.dueDate, today) == r.status &&
            Outstanding(r) == 0.0 && DaysOverdue(r, today) == 0
  {
  }

  /** `action_waive`: only the status changes. */
  function WaivedDue(d: Due): (r: Due)
    ensures r.status == DueStatus.Waived
    ensures r.(status := d.status) == d
  {
    d.(status := DueStatus.Waived)
  }

  /** Waiving forgives nothing in the figures: the outstanding amount stays,
      and an unpaid due past its date still counts its days overdue. */
  lemma WaiveKeepsFigures(d: Due, today: Date)
    requires d.status != DueStatus.Paid
    ensures Outstanding(WaivedDue(d)) == Outstanding(d)
    ensures DaysOverdue(WaivedDue(d), today) == DaysOverdue(d, today)
  {
  }

  // The monthly sweep.

  /** What `create_monthly_dues` reads off the clock: today, the first of
      today's month and the number of days in it. */
  datatype DueMonth = DueMonth(today: Date, first: Date, length: int)

  function DueMonthOf(today: Date): (m: DueMonth)
    ensures m.today == today && m.first <= today < m.first + m.length
    ensures m.first == today - DayOf(today) + 1 && m.length == DaysInMonth(YearOf(today), MonthOf(today))
  {
    var c := FromOrdinal(today);
    DueMonth(today, FirstOfMonth(today), DaysInMonth(c.year, c.month))
  }

  /** `today.replace(day=k)` within the month `m`. */
  function Target(m: DueMonth, k: int): (r: Option<Date>)
    ensures r.Some? <==> 1 <= k <= m.length
    ensures r.Some? ==> r.value - m.first == k - 1
  {
    if 1 <= k <= m.length then Some(m.first + k - 1) else None
  }

  /** `Target` is Python's `date.replace(day=k)` on today: the same day when
      month has one, the same ValueError when it has not. */
  lemma TargetIsReplaceDay(today: Date, k: int)
    ensures Target(DueMonthOf(today), k) == ReplaceDay(today, k)
  {
    TargetFrom(DueMonthOf(today), today, DayOf(today), k, ReplaceDay(today, k));
  }

  lemma TargetFrom(m: DueMonth, today: int, day: int, k: int, r: Option<Day>)
    requires m.first == today - day + 1
    requires r.Some? <==> 1 <= k <= m.length
    requires r.Some? ==> r.value == today - day + k
    ensures Target(m, k) == r
  {
  }

  /** A due that satisfies the sweep's search for agreement `aid` on `date`
      (any status, waived included). */
  predicate BlocksDue(d: Due, aid: nat, date: Date)
  {
    d.agreement == Some(aid) && d.dueType == DueType.Rent && d.dueDate == date
  }

  predicate HasDue(dues: seq<Due>, aid: nat, date: Date)
  {
    exists j :: 0 <= j < |dues| && BlocksDue(dues[j], aid, date)
  }

  lemma HasDueGrows(a: seq<Due>, b: seq<Due>, aid: nat, date: Date)
    requires |a| <= |b| && b[..|a|] == a && HasDue(a, aid, date)
    ensures HasDue(b, aid, date)
  {
    var j :| 0 <= j < |a| && BlocksDue(a[j], aid, date);
    assert b[j] == a[j];
  }

  lemma HasDueShrinks(a: seq<Due>, b: seq<Due>, aid: nat, date: Date)
    requires |a| <= |b| && b[..|a|] == a && !HasDue(b, aid, date)
    ensures !HasDue(a, aid, date)
  {
    forall j | 0 <= j < |a| ensures !BlocksDue(a[j], aid, date)
    {
      assert b[j] == a[j];
    }
  }

  /** The record the sweep creates: a rent due of the rent amount, nothing
      paid yet, its status computed on the run day. */
  function RentDue(a: Agreement, aid: nat, date: Date, today: Date): (d: Due)
    ensures BlocksDue(d, aid, date)
    ensures d.tenant == a.tenant && d.room == a.room && d.amountDue == a.rentAmount && d.amountPaid == 0.0
    ensures d.status == ComputeStatus(a.rentAmount, 0.0, date, today)
    ensures d.reminderCount == 0 && d.lastReminderDate.None?
  {
    Due(a.tenant, a.room, Some(aid), date, a.rentAmount, DueType.Rent,
        ComputeStatus(a.rentAmount, 0.0, date, today), 0.0, None, 0)
  }

  /** An active agreement whose payment day the current month does not have:
      `replace` raises for it. */
  predicate BadDay(a: Agreement, m: DueMonth)
  {
    a.state == AgreementState.Active && Target(m, a.paymentDay).None?
  }

  /** The sweep over the first `n` agreements of the search `order`; `None`
      when `replace` raises, which undoes the whole run. Frequency is not
      consulted. */
  function DueSweep(dues: seq<Due>, agreements: seq<Agreement>, order: seq<nat>, m: DueMonth, n: nat): Option<seq<Due>>
    requires n <= |order| && IdsOf(agreements, order)
  {
    if n == 0 then Some(dues)
    else
      match DueSweep(dues, agreements, order, m, n - 1)
      case None => None
      case Some(s) =>
        var aid := order[n - 1];
        var a := agreements[aid];
        if a.state != AgreementState.Active then Some(s)
        else
          match Target(m, a.paymentDay)
          case None => None
          case Some(date) =>
            if HasDue(s, aid, date) then Some(s) else Some(s + [RentDue(a, aid, date, m.today)])
  }

  /** The run fails exactly when some active agreement visited has a payment
      day the month lacks; over a whole search, when some active agreement of
      the table has one. */
  lemma {:induction false} DueSweepFailsIff(dues: seq<Due>, agreements: seq<Agreement>, order: seq<nat>,
                                            m: DueMonth, n: nat)
    requires n <= |order| && IdsOf(agreements, order)
    ensures DueSweep(dues, agreements, order, m, n).None? <==> exists k :: 0 <= k < n && BadDay(agreements[order[k]], m)
    ensures n == |order| && HasAllIds(agreements, order) ==>
              (DueSweep(dues, agreements, order, m, n).None? <==> exists id :: 0 <= id < |agreements| && BadDay(agreements[id], m))
  {
    if n > 0 {
      DueSweepFailsIff(dues, agreements, order, m, n - 1);
      if DueSweep(dues, agreements, order, m, n - 1).None? {
        var k :| 0 <= k < n - 1 && BadDay(agreements[order[k]], m);
        assert 0 <= k < n && BadDay(agreements[order[k]], m);
      } else if BadDay(agreements[order[n - 1]], m) {
        assert 0 <= n - 1 < n && BadDay(agreements[order[n - 1]], m);
      } else {
        forall k | 0 <= k < n ensures !BadDay(agreements[order[k]], m)
        {
        }
      }
    }
    if n == |order| && HasAllIds(agreements, order) {
      if exists id :: 0 <= id < |agreements| && BadDay(agreements[id], m) {
        var id :| 0 <= id < |agreements| && BadDay(agreements[id], m);
        assert id in order;
        var k :| 0 <= k < |order| && order[k] == id;
      }
    }
  }

  /** A run only appends dues. */
  lemma {:induction false} DueSweepExtends(dues: seq<Due>, agreements: seq<Agreement>, order: seq<nat>, m: DueMonth, n: nat)
    requires n <= |order| && IdsOf(agreements, order) && DueSweep(dues, agreements, order, m, n).Some?
    ensures var s := DueSweep(dues, agreements, order, m, n).value;
            |dues| <= |s| && s[..|dues|] == dues
  {
    if n > 0 {
      DueSweepExtends(dues, agreements, order, m, n - 1);
      var s := DueSweep(dues, agreements, order, m, n - 1).value;
      var t := DueSweep(dues, agreements, order, m, n).value;
      if t != s {
        assert t[..|s|] == s;
        assert t[..|dues|] == s[..|dues|];
      }
    }
  }

  /** After a successful run every active agreement visited has its rent due
      on this month's payment day. */
  lemma {:induction false} DueSweepCovers(dues: seq<Due>, agreements: seq<Agreement>, order: seq<nat>, m: DueMonth, n: nat)
    requires n <= |order| && IdsOf(agreements, order) && DueSweep(dues, agreements, order, m, n).Some?
    ensures var s := DueSweep(dues, agreements, order, m, n).value;
            forall k :: 0 <= k < n && agreements[order[k]].state == AgreementState.Active ==>
              Target(m, agreements[order[k]].paymentDay).Some? &&
              HasDue(s, order[k], Target(m, agreements[order[k]].paymentDay).value)
  {
    if n > 0 {
      DueSweepCovers(dues, agreements, order, m, n - 1);
      var s := DueSweep(dues, agreements, order, m, n - 1).value;
      var t := DueSweep(dues, agreements, order, m, n).value;
      assert |s| <= |t| && t[..|s|] == s;
      forall k | 0 <= k < n && agreements[order[k]].state == AgreementState.Active
        ensures Target(m, agreements[order[k]].paymentDay).Some? &&
                HasDue(t, order[k], Target(m, agreements[order[k]].paymentDay).value)
      {
        var date := Target(m, agreements[order[k]].paymentDay).value;
        if k < n - 1 {
          HasDueGrows(s, t, order[k], date);
        } else if !HasDue(s, order[k], date) {
          assert BlocksDue(t[|s|], order[k], date);
        }
      }
    }
  }

  /** A run over a whole search order leaves every active agreement of the
      table with its rent due on this month's payment day. */
  lemma DueSweepCoversAll(dues: seq<Due>, agreements: seq<Agreement>, order: seq<nat>, m: DueMonth)
    requires StartDateOrder(agreements, order) && DueSweep(dues, agreements, order, m, |order|).Some?
    ensures var s := DueSweep(dues, agreements, order, m, |order|).value;
            forall id :: 0 <= id < |agreements| && agreements[id].state == AgreementState.Active ==>
              Target(m, agreements[id].paymentDay).Some? &&
              HasDue(s, id, Target(m, agreements[id].paymentDay).value)
  {
    DueSweepCovers(dues, agreements, order, m, |order|);
    forall id | 0 <= id < |agreements| && agreements[id].state == AgreementState.Active
      ensures Target(m, agreements[id].paymentDay).Some? &&
              HasDue(DueSweep(dues, agreements, order, m, |order|).value, id, Target(m, agreements[id].paymentDay).value)
    {
      assert id in order;
      var k :| 0 <= k < |order| && order[k] == id;
    }
  }

  /** Each due a run creates is the rent due of an active agreement of the
      search that had none on its payment day before the run; on a search in
      `start_date desc` order they are for distinct agreements, latest start
      first. */
  lemma {:induction false} DueSweepCreatesOnlyMissing(dues: seq<Due>, agreements: seq<Agreement>, order: seq<nat>,
                                                      m: DueMonth, n: nat)
    requires n <= |order| && IdsOf(agreements, order) && LatestStartFirst(agreements, order)
    requires DueSweep(dues, agreements, order, m, n).Some?
    ensures var s := DueSweep(dues, agreements, order, m, n).value;
            |dues| <= |s| &&
            (forall j :: |dues| <= j < |s| ==>
               s[j].agreement.Some? &&
               var k := s[j].agreement.value;
               k in order[..n] && agreements[k].state == AgreementState.Active &&
               Target(m, agreements[k].paymentDay) == Some(s[j].dueDate) &&
               s[j] == RentDue(agreements[k], k, s[j].dueDate, m.today) &&
               !HasDue(dues, k, s[j].dueDate)) &&
            (forall j1, j2 :: |dues| <= j1 < j2 < |s| ==>
               s[j1].agreement.value != s[j2].agreement.value &&
               agreements[s[j1].agreement.value].startDate >= agreements[s[j2].agreement.value].startDate)
  {
    DueSweepExtends(dues, agreements, order, m, n);
    if n > 0 {
      DueSweepCreatesOnlyMissing(dues, agreements, order, m, n - 1);
      DueSweepExtends(dues, agreements, order, m, n - 1);
      var s := DueSweep(dues, agreements, order, m, n - 1).value;
      var t := DueSweep(dues, agreements, order, m, n).value;
      assert order[..n] == order[..n - 1] + [order[n - 1]];
      if t != s {
        var aid := order[n - 1];
        var a := agreements[aid];
        var date := Target(m, a.paymentDay).value;
        assert t == s + [RentDue(a, aid, date, m.today)];
        HasDueShrinks(dues, s, aid, date);
        forall j | |dues| <= j < |s|
          ensures s[j].agreement.value != aid && agreements[s[j].agreement.value].startDate >= a.startDate
        {
          var p :| 0 <= p < n - 1 && order[..n - 1][p] == s[j].agreement.value;
          assert order[p] == s[j].agreement.value;
        }
      }
    }
  }

  /** With every active agreement's due already present, a run changes nothing. */
  lemma {:induction false} DueSweepNoop(dues: seq<Due>, agreements: seq<Agreement>, order: seq<nat>, m: DueMonth, n: nat)
    requires n <= |order| && IdsOf(agreements, order)
    requires forall k :: 0 <= k < n && agreements[order[k]].state == AgreementState.Active ==>
               Target(m, agreements[order[k]].paymentDay).Some? &&
               HasDue(dues, order[k], Target(m, agreements[order[k]].paymentDay).value)
    ensures DueSweep(dues, agreements, order, m, n) == Some(dues)
  {
    if n > 0 {
      DueSweepNoop(dues, agreements, order, m, n - 1);
    }
  }

  /** A second run in the same month creates nothing. */
  lemma DueSweepIdempotent(dues: seq<Due>, agreements: seq<Agreement>, order: seq<nat>, m: DueMonth)
    requires IdsOf(agreements, order) && DueSweep(dues, agreements, order, m, |order|).Some?
    ensures var s := DueSweep(dues, agreements, order, m, |order|).value;
            DueSweep(s, agreements, order, m, |order|) == Some(s)
  {
    var s := DueSweep(dues, agreements, order, m, |order|).value;
    DueSweepCovers(dues, agreements, order, m, |order|);
    DueSweepNoop(s, agreements, order, m, |order|);
  }

  /** The due table. */
  class DueTable {
    var rows: seq<Due>

    constructor (rows0: seq<Due>)
      ensures rows == rows0
    {
      rows := rows0;
    }

    method SendReminder(id: nat, today: Date)
      requires id < |rows|
      modifies this`rows
      ensures rows == old(rows)[id := Reminded(old(rows)[id], today)]
    {
      rows := rows[id := Reminded(rows[id], today)];
    }

    method MarkPaid(id: nat)
      requires id < |rows|
      modifies this`rows
      ensures rows == old(rows)[id := MarkedPaid(old(rows)[id])]
      ensures Outstanding(rows[id]) == 0.0 && rows[id].status == DueStatus.Paid
    {
      rows := rows[id := MarkedPaid(rows[id])];
    }

    method Waive(id: nat)
      requires id < |rows|
      modifies this`rows
      ensures rows == old(rows)[id := WaivedDue(old(rows)[id])]
    {
      rows := rows[id := WaivedDue(rows[id])];
    }

    /** `create_monthly_dues` run on `today` (the clock is a parameter), over
        the agreements in the order the search returns them. */
    method CreateMonthlyDues(agreements: seq<Agreement>, order: seq<nat>, today: Date) returns (ok: bool)
      requires StartDateOrder(agreements, order)
      modifies this`rows
      ensures var r := DueSweep(old(rows), agreements, order, DueMonthOf(today), |order|);
              (ok <==> r.Some?) && (ok ==> rows == r.value) && (!ok ==> rows == old(rows))
    {
      ok := RunDues(agreements, order, DueMonthOf(today));
    }

    /** The loop of `create_monthly_dues` over the agreements, in search order. */
    method RunDues(agreements: seq<Agreement>, order: seq<nat>, m: DueMonth) returns (ok: bool)
      requires IdsOf(agreements, order)
      modifies this`rows
      ensures var r := DueSweep(old(rows), agreements, order, m, |order|);
              (ok <==> r.Some?) && (ok ==> rows == r.value) && (!ok ==> rows == old(rows))
    {
      var rows0 := rows;
      var i := 0;
      while i < |order|
        invariant 0 <= i <= |order|
        invariant DueSweep(rows0, agreements, order, m, i) == Some(rows)
      {
        var aid := order[i];
        var a := agreements[aid];
        if a.state == AgreementState.Active {
          var date := Target(m, a.paymentDay);
          if date.None? {
            DueSweepFailsIff(rows0, agreements, order, m, |order|);
            assert BadDay(agreements[order[i]], m);
            rows := rows0;
            return false;
          }
          if !HasDue(rows, aid, date.value) {
            rows := rows + [RentDue(a, aid, date.value, m.today)];
          }
        }
        i := i + 1;
      }
      return true;
    }
  }
}
