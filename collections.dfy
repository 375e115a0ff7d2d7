/** `property.collection`: rent and other money received from tenants. The
    derived figures, the amount constraint, the type onchange, the status
    actions with the receipt-number rule, and the decision of the daily
    reminder job. */
module Collections {
  import opened Common
  import opened Calendar
  import opened Schema

  /** `_compute_name` of a saved collection (tenant, room and date are
      required): `COL/<yyyymmdd>/<first 10 characters of the tenant name>/<room number>`. */
  function CollectionName(date: Date, tenantName: string, roomNumber: string): (name: string)
    ensures var d, t := |YmdText(date)|, Prefix(tenantName, 10);
            |name| == 4 + d + 1 + |t| + 1 + |roomNumber| && d >= 8 &&
            name[..4] == "COL/" && name[4..4 + d] == YmdText(date) && name[4 + d] == '/' &&
            name[5 + d..5 + d + |t|] == t && name[5 + d + |t|] == '/' && name[6 + d + |t|..] == roomNumber
  {
    CollectionText(YmdText(date), Prefix(tenantName, 10), roomNumber)
  }

  /** The name built from an already formatted date and the shortened tenant name. */
  function CollectionText(ymd: string, tenantPart: string, roomNumber: string): (name: string)
    ensures var d, t := |ymd|, |tenantPart|;
            |name| == 4 + d + 1 + t + 1 + |roomNumber| &&
            name[..4] == "COL/" && name[4..4 + d] == ymd && name[4 + d] == '/' &&
            name[5 + d..5 + d + t] == tenantPart && name[5 + d + t] == '/' && name[6 + d + t..] == roomNumber
  {
    var head := "COL/" + ymd + "/";
    assert head[..4] == "COL/" && head[4..4 + |ymd|] == ymd && head[4 + |ymd|] == '/';
    var mid := tenantPart + "/";
    assert mid[..|tenantPart|] == tenantPart;
    head + mid + roomNumber
  }

  /** `_compute_days_late`. */
  function DaysLate(c: Collection): (n: int)
    ensures n >= 0
    ensures n > 0 <==> c.dueDate.Some? && c.date > c.dueDate.value
    ensures n > 0 ==> n == c.date - c.dueDate.value
  {
    if c.dueDate.Some? then (if c.date - c.dueDate.value > 0 then c.date - c.dueDate.value else 0) else 0
  }

  /** `_check_amount_positive`. */
  function CheckAmountPositive(c: Collection): (o: Outcome)
    ensures o.Pass? <==> c.amountCollected > 0.0
    ensures o.Fail? ==> o.error == ValidationError("Collection amount must be positive!")
  {
    if c.amountCollected <= 0.0 then Fail(ValidationError("Collection amount must be positive!")) else Pass
  }

  /** `_onchange_collection_type`: with an agreement, rent, deposit and extra
      take the agreement's figure; other types keep the amount. */
  function OnchangeCollectionType(c: Collection, agreements: seq<Agreement>): (q: Collection)
    requires c.agreement.Some? ==> c.agreement.value < |agreements|
    ensures q.(amountCollected := c.amountCollected) == c
    ensures c.agreement.None? ==> q == c
    ensures c.agreement.Some? ==>
      var a := agreements[c.agreement.value];
      q.amountCollected == match c.collectionType
        case Rent => a.rentAmount
        case Deposit => a.depositAmount
        case Extra => a.extraCharges
        case _ => c.amountCollected
  {
    if c.agreement.None? then c
    else
      var a := agreements[c.agreement.value];
      if c.collectionType == CollectionType.Rent then c.(amountCollected := a.rentAmount)
      else if c.collectionType == CollectionType.Deposit then c.(amountCollected := a.depositAmount)
      else if c.collectionType == CollectionType.Extra then c.(amountCollected := a.extraCharges)
      else c
  }

  // Sums and latest dates over linked collections (`collection_ids`).

  /** `sum(collections.mapped('amount_collected'))`, whatever their status. */
  function TotalCollected(cs: seq<Collection>): Money
  {
    if cs == [] then 0.0 else TotalCollected(cs[..|cs| - 1]) + cs[|cs| - 1].amountCollected
  }

  /** `max(collections.mapped('date')) if collections else False`. */
  function LatestDate(cs: seq<Collection>): (r: Option<Date>)
    ensures r.None? <==> cs == []
    ensures r.Some? ==> (exists i :: 0 <= i < |cs| && cs[i].date == r.value)
    ensures r.Some? ==> forall i :: 0 <= i < |cs| ==> cs[i].date <= r.value
  {
    if cs == [] then None
    else
      var d := cs[|cs| - 1].date;
      match LatestDate(cs[..|cs| - 1])
      case None => Some(d)
      case Some(e) => if e >= d then Some(e) else Some(d)
  }

  /** The collections of agreement `a` (`agreement.collection_ids`). */
  function OfAgreement(cs: seq<Collection>, a: nat): (r: seq<Collection>)
    ensures forall c :: c in r <==> c in cs && c.agreement == Some(a)
  {
    if cs == [] then []
    else OfAgreement(cs[..|cs| - 1], a) + (if cs[|cs| - 1].agreement == Some(a) then [cs[|cs| - 1]] else [])
  }

  /** The collections of tenant `t` (`tenant.collection_ids`). */
  function OfTenant(cs: seq<Collection>, t: nat): (r: seq<Collection>)
    ensures forall c :: c in r <==> c in cs && c.tenant == t
  {
    if cs == [] then []
    else OfTenant(cs[..|cs| - 1], t) + (if cs[|cs| - 1].tenant == t then [cs[|cs| - 1]] else [])
  }

  /** Saved collections all have positive amounts, so a non-empty list has a
      positive total. */
  lemma {:induction false} TotalCollectedPositive(cs: seq<Collection>)
    requires forall i :: 0 <= i < |cs| ==> CheckAmountPositive(cs[i]).Pass?
    ensures TotalCollected(cs) >= 0.0
    ensures TotalCollected(cs) > 0.0 <==> cs != []
  {
    if cs != [] {
      TotalCollectedPositive(cs[..|cs| - 1]);
      assert CheckAmountPositive(cs[|cs| - 1]).Pass?;
    }
  }

  // The daily reminder job.

  /** A collection the job accepts as paid rent for agreement `a`. */
  predicate IsPaidRent(c: Collection, a: nat)
  {
    c.agreement == Some(a) && c.collectionType == CollectionType.Rent &&
    (c.status == CollectionStatus.Collected || c.status == CollectionStatus.Verified ||
     c.status == CollectionStatus.Deposited)
  }

  /** The `last_collection` search: the paid rent collections of `a`. */
  function PaidRent(cs: seq<Collection>, a: nat): (r: seq<Collection>)
    ensures forall c :: c in r <==> c in cs && IsPaidRent(c, a)
  {
    if cs == [] then []
    else PaidRent(cs[..|cs| - 1], a) + (if IsPaidRent(cs[|cs| - 1], a) then [cs[|cs| - 1]] else [])
  }

  /** Whether `create_daily_collections_reminder` schedules a reminder for the
      active agreement `a`: monthly agreements on their payment day, daily
      agreements when the latest paid rent collection is missing or older than
      today, never for the other frequencies. */
  function ReminderDue(agreements: seq<Agreement>, cs: seq<Collection>, a: nat, today: Date): bool
    requires a < |agreements|
  {
    var ag := agreements[a];
    match ag.paymentFrequency
    case Monthly => DayOf(today) == ag.paymentDay
    case Daily =>
      var last := LatestDate(PaidRent(cs, a));
      last.None? || last.value < today
    case _ => false
  }

  /** For a daily agreement the rule reads: no paid rent collection is dated
      today or later. */
  lemma DailyReminderRule(agreements: seq<Agreement>, cs: seq<Collection>, a: nat, today: Date)
    requires a < |agreements| && agreements[a].paymentFrequency == Frequency.Daily
    ensures ReminderDue(agreements, cs, a, today) <==>
              forall i :: 0 <= i < |cs| && IsPaidRent(cs[i], a) ==> cs[i].date < today
  {
    var paid := PaidRent(cs, a);
    forall i | 0 <= i < |cs| && IsPaidRent(cs[i], a) ensures cs[i] in paid
    {
    }
    var last := LatestDate(paid);
    if last.Some? {
      var k :| 0 <= k < |paid| && paid[k].date == last.value;
      assert paid[k] in cs && IsPaidRent(paid[k], a);
      if last.value < today {
        forall i | 0 <= i < |cs| && IsPaidRent(cs[i], a) ensures cs[i].date < today
        {
          var j :| 0 <= j < |paid| && paid[j] == cs[i];
        }
      }
    }
  }

  /** The agreements among the first `n` the job reminds about, in table order. */
  function Reminded(agreements: seq<Agreement>, cs: seq<Collection>, today: Date, n: nat): (r: seq<nat>)
    requires n <= |agreements|
  {
    if n == 0 then []
    else Reminded(agreements, cs, today, n - 1) +
         (if agreements[n - 1].state == AgreementState.Active && ReminderDue(agreements, cs, n - 1, today)
          then [n - 1] else [])
  }

  /** Each agreement appears once, in increasing order, exactly when it is
      active and its reminder is due. */
  lemma {:induction false} RemindedSpec(agreements: seq<Agreement>, cs: seq<Collection>, today: Date, n: nat)
    requires n <= |agreements|
    ensures forall k: nat :: k in Reminded(agreements, cs, today, n) <==>
              k < n && agreements[k].state == AgreementState.Active && ReminderDue(agreements, cs, k, today)
    ensures forall i, j :: 0 <= i < j < |Reminded(agreements, cs, today, n)| ==>
              Reminded(agreements, cs, today, n)[i] < Reminded(agreements, cs, today, n)[j]
  {
    if n > 0 {
      RemindedSpec(agreements, cs, today, n - 1);
      var prev := Reminded(agreements, cs, today, n - 1);
      forall i | 0 <= i < |prev| ensures prev[i] < n - 1 {
        assert prev[i] in prev;
      }
    }
  }

  /** `create_daily_collections_reminder`: the loop over the active agreements,
      returning the agreements it schedules a reminder activity for. */
  method DailyReminders(agreements: seq<Agreement>, cs: seq<Collection>, today: Date) returns (reminded: seq<nat>)
    ensures reminded == Reminded(agreements, cs, today, |agreements|)
    ensures forall k: nat :: k in reminded <==>
              k < |agreements| && agreements[k].state == AgreementState.Active && ReminderDue(agreements, cs, k, today)
  {
    reminded := [];
    var i := 0;
    while i < |agreements|
      invariant 0 <= i <= |agreements|
      invariant reminded == Reminded(agreements, cs, today, i)
    {
      if agreements[i].state == AgreementState.Active && ReminderDue(agreements, cs, i, today) {
        reminded := reminded + [i];
      }
      i := i + 1;
    }
    RemindedSpec(agreements, cs, today, |agreements|);
  }

  /** The collection table, with the status actions and the receipt sequence. */
  class CollectionTable {
    var rows: seq<Collection>
    var nextReceipt: nat        // the next value of the `property.collection` sequence

    constructor (rows0: seq<Collection>, next0: nat)
      ensures rows == rows0 && nextReceipt == next0
    {
      rows := rows0;
      nextReceipt := next0;
    }

    /** `create`: the record is saved only if it passes the amount constraint. */
    method Create(c: Collection) returns (o: Outcome)
      modifies this`rows
      ensures o == CheckAmountPositive(c)
      ensures o.Pass? ==> rows == old(rows) + [c]
      ensures o.Fail? ==> rows == old(rows)
    {
      o := CheckAmountPositive(c);
      if o.Pass? {
        rows := rows + [c];
      }
    }

    /** `action_collect`: status collected; a receipt number is drawn only when
        the record has none, so an existing number is kept. */
    method Collect(id: nat)
      requires id < |rows|
      modifies this`rows, this`nextReceipt
      ensures IsBlank(old(rows)[id].receiptNumber) ==>
                rows == old(rows)[id := old(rows)[id].(status := CollectionStatus.Collected,
                                                      receiptNumber := Numbered(old(nextReceipt)))] &&
                nextReceipt == old(nextReceipt) + 1
      ensures !IsBlank(old(rows)[id].receiptNumber) ==>
                rows == old(rows)[id := old(rows)[id].(status := CollectionStatus.Collected)] &&
                nextReceipt == old(nextReceipt)
      ensures !IsBlank(rows[id].receiptNumber)
    {
      rows := rows[id := rows[id].(status := CollectionStatus.Collected)];
      if IsBlank(rows[id].receiptNumber) {
        rows := rows[id := rows[id].(receiptNumber := Numbered(nextReceipt))];
        nextReceipt := nextReceipt + 1;
      }
    }

    /** `action_verify`: records the verifier (`env.user`) and the time. */
    method Verify(id: nat, user: nat, now: int)
      requires id < |rows|
      modifies this`rows
      ensures rows == old(rows)[id := old(rows)[id].(status := CollectionStatus.Verified,
                                                    verifiedBy := Some(user), verificationTime := Some(now))]
    {
      rows := rows[id := rows[id].(status := CollectionStatus.Verified, verifiedBy := Some(user), verificationTime := Some(now))];
    }

    /** `action_deposit`: status only. */
    method Deposit(id: nat)
      requires id < |rows|
      modifies this`rows
      ensures rows == old(rows)[id := old(rows)[id].(status := CollectionStatus.Deposited)]
    {
      rows := rows[id := rows[id].(status := CollectionStatus.Deposited)];
    }

    /** `action_cancel`: status only. */
    method Cancel(id: nat)
      requires id < |rows|
      modifies this`rows
      ensures rows == old(rows)[id := old(rows)[id].(status := CollectionStatus.Cancelled)]
    {
      rows := rows[id := rows[id].(status := CollectionStatus.Cancelled)];
    }
  }

  /** Collecting twice draws one receipt number only: the second call keeps
      the number the first one assigned. */
  method CollectTwice(t: CollectionTable, id: nat)
    requires id < |t.rows|
    modifies t`rows, t`nextReceipt
    ensures |t.rows| == |old(t.rows)|
    ensures t.nextReceipt <= old(t.nextReceipt) + 1
    ensures t.rows[id].status == CollectionStatus.Collected
    ensures !IsBlank(old(t.rows)[id].receiptNumber) ==> t.rows[id].receiptNumber == old(t.rows)[id].receiptNumber
    ensures IsBlank(old(t.rows)[id].receiptNumber) ==> t.rows[id].receiptNumber == Numbered(old(t.nextReceipt))
  {
    t.Collect(id);
    var after := t.rows[id].receiptNumber;
    t.Collect(id);
    assert t.rows[id].receiptNumber == after;
  }
}
