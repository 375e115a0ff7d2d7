/** `property.invoice`, `property.invoice.line`, `property.payment` and the
    payment wizard: line and invoice amounts, the payment state, the invoice
    and payment actions, the monthly rent-invoice sweep and the registration
    of a payment together with its collection. */
module Invoices {
  import opened Common
  import opened Calendar
  import opened Schema
  import opened Collections
  import opened AgreementOrder

  // Lines and amounts.

  /** `PropertyInvoiceLine._compute_amounts`: no tax, so subtotal and total
      are both unit price times quantity. */
  function LineAmounts(l: InvoiceLine): (q: InvoiceLine)
    ensures q.priceSubtotal == l.priceUnit * l.quantity && q.priceTotal == l.priceUnit * l.quantity
    ensures q.(priceSubtotal := l.priceSubtotal, priceTotal := l.priceTotal) == l
  {
    var price := l.priceUnit * l.quantity;
    l.(priceSubtotal := price, priceTotal := price)
  }

  /** A line created from its description, quantity and unit price. */
  function NewLine(name: string, quantity: real, priceUnit: Money): (l: InvoiceLine)
    ensures l.name == name && l.quantity == quantity && l.priceUnit == priceUnit
    ensures l.priceSubtotal == priceUnit * quantity && l.priceTotal == l.priceSubtotal
  {
    LineAmounts(InvoiceLine(name, quantity, priceUnit, 0.0, 0.0))
  }

  /** Every line of a list with its amounts computed. */
  function ComputedLines(lines: seq<InvoiceLine>): (r: seq<InvoiceLine>)
    ensures |r| == |lines| && forall k :: 0 <= k < |lines| ==> r[k] == LineAmounts(lines[k])
  {
    seq(|lines|, k requires 0 <= k < |lines| => LineAmounts(lines[k]))
  }

  function SumSubtotals(lines: seq<InvoiceLine>): Money
  {
    if lines == [] then 0.0 else SumSubtotals(lines[..|lines| - 1]) + lines[|lines| - 1].priceSubtotal
  }

  /** The total of a concatenation of line lists is the sum of their totals. */
  lemma {:induction false} SumSubtotalsAppend(a: seq<InvoiceLine>, b: seq<InvoiceLine>)
    ensures SumSubtotals(a + b) == SumSubtotals(a) + SumSubtotals(b)
  {
    if b == [] {
      assert a + b == a;
    } else {
      assert (a + b)[..|a + b| - 1] == a + b[..|b| - 1];
      SumSubtotalsAppend(a, b[..|b| - 1]);
    }
  }

  /** `_compute_payment_state`, checked in the source's order; the selection
      values `in_payment` and `reversed` are never produced. */
  function PaymentStateOf(paid: Money, total: Money): (s: PaymentState)
    ensures s != PaymentState.InPayment && s != PaymentState.Reversed
    ensures s == PaymentState.NotPaid <==> paid == 0.0
    ensures s == PaymentState.Paid <==> paid != 0.0 && paid >= total
    ensures s == PaymentState.Partial <==> paid != 0.0 && paid < total
  {
    if paid == 0.0 then PaymentState.NotPaid
    else if paid >= total then PaymentState.Paid
    else PaymentState.Partial
  }

  /** The stored computes that follow a change of lines: `_compute_amounts`
      and then `_compute_payment_state`, which depends on the total. */
  function Recomputed(inv: Invoice): (r: Invoice)
    ensures r.amountUntaxed == SumSubtotals(inv.lines) && r.amountTotal == SumSubtotals(inv.lines)
    ensures r.amountTax == 0.0 && r.amountResidual == r.amountTotal - r.amountPaid
    ensures r.paymentState == PaymentStateOf(r.amountPaid, r.amountTotal)
    ensures r.(amountUntaxed := inv.amountUntaxed, amountTax := inv.amountTax, amountTotal := inv.amountTotal,
               amountResidual := inv.amountResidual, paymentState := inv.paymentState) == inv
  {
    var total := SumSubtotals(inv.lines);
    inv.(amountUntaxed := total, amountTax := 0.0, amountTotal := total, amountResidual := total - inv.amountPaid,
         paymentState := PaymentStateOf(inv.amountPaid, total))
  }

  /** The stored amounts of an invoice agree with its lines and with `paid`,
      the sum of its posted payments. */
  predicate InvoiceConsistent(inv: Invoice, paid: Money)
  {
    inv.amountTotal == SumSubtotals(inv.lines) && inv.amountUntaxed == inv.amountTotal && inv.amountTax == 0.0 &&
    inv.amountPaid == paid && inv.amountResidual == inv.amountTotal - paid &&
    inv.paymentState == PaymentStateOf(paid, inv.amountTotal)
  }

  // Payments.

  /** What payment `p` adds to the `amount_paid` of invoice `i`. */
  function Contribution(p: Payment, i: nat): Money
  {
    if p.invoice == i && p.state == PaymentRecordState.Posted then p.amount else 0.0
  }

  /** `sum(invoice.payment_ids.filtered(lambda p: p.state == 'posted').mapped('amount'))`. */
  function PostedTotal(payments: seq<Payment>, i: nat): Money
  {
    if payments == [] then 0.0
    else PostedTotal(payments[..|payments| - 1], i) + Contribution(payments[|payments| - 1], i)
  }

  lemma PostedTotalAppend(payments: seq<Payment>, q: Payment, i: nat)
    ensures PostedTotal(payments + [q], i) == PostedTotal(payments, i) + Contribution(q, i)
  {
    assert (payments + [q])[..|payments|] == payments;
  }

  /** Changing one payment changes the posted total of an invoice by the
      difference of that payment's contributions, and nothing for the other
      invoices. */
  lemma {:induction false} PostedTotalUpdate(payments: seq<Payment>, pid: nat, q: Payment, i: nat)
    requires pid < |payments|
    ensures PostedTotal(payments[pid := q], i) ==
              PostedTotal(payments, i) - Contribution(payments[pid], i) + Contribution(q, i)
  {
    var n := |payments| - 1;
    var updated := payments[pid := q];
    if pid == n {
      assert updated[..n] == payments[..n];
    } else {
      assert updated[..n] == payments[..n][pid := q];
      PostedTotalUpdate(payments[..n], pid, q, i);
    }
  }

  /** An invoice no payment points to has nothing paid. */
  lemma {:induction false} PostedTotalUnreferenced(payments: seq<Payment>, i: nat)
    requires forall p :: 0 <= p < |payments| ==> payments[p].invoice != i
    ensures PostedTotal(payments, i) == 0.0
  {
    if payments != [] {
      PostedTotalUnreferenced(payments[..|payments| - 1], i);
    }
  }

  /** Appending an invoice nobody has paid yet keeps every invoice in step
      with its posted payments. */
  lemma AppendConsistent(invoices: seq<Invoice>, payments: seq<Payment>, x: Invoice)
    requires forall p :: 0 <= p < |payments| ==> payments[p].invoice < |invoices|
    requires forall i :: 0 <= i < |invoices| ==> InvoiceConsistent(invoices[i], PostedTotal(payments, i))
    requires InvoiceConsistent(x, 0.0)
    ensures forall i :: 0 <= i < |invoices + [x]| ==> InvoiceConsistent((invoices + [x])[i], PostedTotal(payments, i))
  {
    PostedTotalUnreferenced(payments, |invoices|);
  }

  /** The invoice after `PropertyPayment.action_post` has written the new
      `amount_paid` and the state, with the residual recomputed from it. */
  function Settle(inv: Invoice, paid: Money): (r: Invoice)
  {
    var state := if paid >= inv.amountTotal then InvoiceState.Paid
                 else if paid > 0.0 then InvoiceState.Partial else inv.state;
    inv.(amountPaid := paid, amountResidual := inv.amountTotal - paid,
         paymentState := PaymentStateOf(paid, inv.amountTotal), state := state)
  }

  /** The invoice after `PropertyPayment.action_cancel`: paid amount,
      residual and payment state follow the new sum; the state is not
      touched. */
  function Resettle(inv: Invoice, paid: Money): (r: Invoice)
  {
    inv.(amountPaid := paid, amountResidual := inv.amountTotal - paid,
         paymentState := PaymentStateOf(paid, inv.amountTotal))
  }

  /** After a post the invoice's amounts agree with the new sum; once
      something is paid, state and payment state tell the same story;
      the state falls back to the old one only when nothing positive is paid
      and the total is not covered. */
  lemma SettleSpec(inv: Invoice, paid: Money)
    requires InvoiceConsistent(inv, inv.amountPaid)
    ensures InvoiceConsistent(Settle(inv, paid), paid)
    ensures paid > 0.0 ==> (Settle(inv, paid).state == InvoiceState.Paid <==>
                            Settle(inv, paid).paymentState == PaymentState.Paid)
    ensures paid > 0.0 && paid < inv.amountTotal ==> Settle(inv, paid).state == InvoiceState.Partial
    ensures paid <= 0.0 && paid < inv.amountTotal ==> Settle(inv, paid).state == inv.state
    ensures Resettle(inv, paid) == Settle(inv, paid).(state := inv.state)
  {
  }

  /** `amount_residual` as the source leaves it after a payment: the payment
      actions write `amount_paid`, but `_compute_amounts` depends on the
      lines only, so the residual is not recomputed. */
  function SettleAsWritten(inv: Invoice, paid: Money): (r: Invoice)
    ensures r.amountResidual == inv.amountResidual
  {
    var state := if paid >= inv.amountTotal then InvoiceState.Paid
                 else if paid > 0.0 then InvoiceState.Partial else inv.state;
    inv.(amountPaid := paid, paymentState := PaymentStateOf(paid, inv.amountTotal), state := state)
  }

  /** A posted rent invoice of 1000 with nothing paid: after a payment of 400
      is posted the invoice shows 400 paid and still 1000 due. */
  function SampleInvoice(): (inv: Invoice)
    ensures InvoiceConsistent(inv, 0.0)
  {
    Invoice(Numbered(1), 100, 130, 0, 0, Some(0), [NewLine("Monthly Rent - P-1-101", 1.0, 1000.0)],
            1000.0, 0.0, 1000.0, 0.0, 1000.0, InvoiceState.Posted, PaymentState.NotPaid,
            InvoiceType.Rent, None, None, "")
  }

  lemma StaleResidual()
    ensures var after := SettleAsWritten(SampleInvoice(), 400.0);
            after.amountPaid == 400.0 && after.amountResidual == 1000.0 &&
            after.amountResidual != after.amountTotal - after.amountPaid &&
            !InvoiceConsistent(after, 400.0)
    ensures InvoiceConsistent(Settle(SampleInvoice(), 400.0), 400.0)
  {
  }

  /** Posting a draft payment and cancelling it again restores the paid
      amount, the residual and the payment state of a consistent invoice, but
      not its state, which keeps what the post set. */
  lemma {:induction false} PostThenCancel(payments: seq<Payment>, pid: nat, inv: Invoice)
    requires pid < |payments| && payments[pid].state == PaymentRecordState.Draft
    requires InvoiceConsistent(inv, PostedTotal(payments, payments[pid].invoice))
    ensures var i := payments[pid].invoice;
            var p1 := payments[pid := payments[pid].(state := PaymentRecordState.Posted)];
            var inv1 := Settle(inv, PostedTotal(p1, i));
            var p2 := p1[pid := p1[pid].(state := PaymentRecordState.Cancelled)];
            var inv2 := Resettle(inv1, PostedTotal(p2, i));
            inv2.amountPaid == inv.amountPaid && inv2.amountResidual == inv.amountResidual &&
            inv2.paymentState == inv.paymentState && inv2.state == inv1.state &&
            InvoiceConsistent(inv2, PostedTotal(p2, i))
  {
    var i := payments[pid].invoice;
    var p1 := payments[pid := payments[pid].(state := PaymentRecordState.Posted)];
    var p2 := p1[pid := p1[pid].(state := PaymentRecordState.Cancelled)];
    PostedTotalUpdate(payments, pid, p1[pid], i);
    PostedTotalUpdate(p1, pid, p2[pid], i);
  }

  /** The counterpart: the sample invoice goes to partial on the post and stays
      partial after the cancel, although nothing is paid any more. */
  lemma PostThenCancelKeepsState()
    ensures var p := Payment(Numbered(1), 110, 400.0, 0, PaymentMethod.Cash, "", PaymentRecordState.Draft);
            var p1 := [p.(state := PaymentRecordState.Posted)];
            var inv1 := Settle(SampleInvoice(), PostedTotal(p1, 0));
            var p2 := [p.(state := PaymentRecordState.Cancelled)];
            var inv2 := Resettle(inv1, PostedTotal(p2, 0));
            inv1.state == InvoiceState.Partial && inv2.state == InvoiceState.Partial &&
            inv2.amountPaid == 0.0 && SampleInvoice().state == InvoiceState.Posted
  {
    var p := Payment(Numbered(1), 110, 400.0, 0, PaymentMethod.Cash, "", PaymentRecordState.Draft);
    assert PostedTotal([p.(state := PaymentRecordState.Posted)], 0) == 400.0;
    assert PostedTotal([p.(state := PaymentRecordState.Cancelled)], 0) == 0.0;
  }

  // Onchange and the payment wizard.

  /** `payment_terms or 30`. */
  function DueTerms(a: Agreement): (n: int)
    ensures n != 0
    ensures a.paymentTerms != 0 ==> n == a.paymentTerms
  {
    if a.paymentTerms == 0 then 30 else a.paymentTerms
  }

  /** `_onchange_agreement_id`: with an agreement, the due date moves to the
      invoice date plus the terms and the lines are replaced by one line for
      the rent or the deposit of the invoice's own room (no line for the other
      types); the amounts follow the lines. `None` when the due date falls
      before year 1. */
  function OnchangeAgreement(inv: Invoice, agreements: seq<Agreement>, rooms: seq<Room>): (r: Option<Invoice>)
    requires inv.agreement.Some? ==> inv.agreement.value < |agreements|
    requires inv.room < |rooms|
    ensures inv.agreement.None? ==> r == Some(inv)
    ensures inv.agreement.Some? ==> (r.None? <==> inv.date + DueTerms(agreements[inv.agreement.value]) < 1)
    ensures r.Some? && inv.agreement.Some? ==>
              var a := agreements[inv.agreement.value]; var x := r.value;
              x.dueDate - inv.date == DueTerms(a) &&
              x.amountTotal == SumSubtotals(x.lines) && x.amountResidual == x.amountTotal - inv.amountPaid &&
              (inv.invoiceType == InvoiceType.Rent ==>
                 x.lines == [NewLine("Monthly Rent - " + rooms[inv.room].name, 1.0, a.rentAmount)] &&
                 x.amountTotal == a.rentAmount) &&
              (inv.invoiceType == InvoiceType.Deposit ==>
                 x.lines == [NewLine("Security Deposit - " + rooms[inv.room].name, 1.0, a.depositAmount)] &&
                 x.amountTotal == a.depositAmount) &&
              (inv.invoiceType != InvoiceType.Rent && inv.invoiceType != InvoiceType.Deposit ==>
                 x.lines == [] && x.amountTotal == 0.0)
    ensures r.Some? ==> r.value.(dueDate := inv.dueDate, lines := inv.lines, amountUntaxed := inv.amountUntaxed,
                                 amountTax := inv.amountTax, amountTotal := inv.amountTotal,
                                 amountResidual := inv.amountResidual, paymentState := inv.paymentState) == inv
  {
    if inv.agreement.None? then Some(inv)
    else
      var a := agreements[inv.agreement.value];
      match AddDays(inv.date, DueTerms(a))
      case None => None
      case Some(due) =>
        var name := rooms[inv.room].name;
        var lines :=
          if inv.invoiceType == InvoiceType.Rent then [NewLine("Monthly Rent - " + name, 1.0, a.rentAmount)]
          else if inv.invoiceType == InvoiceType.Deposit then [NewLine("Security Deposit - " + name, 1.0, a.depositAmount)]
          else [];
        Some(Recomputed(inv.(dueDate := due, lines := lines)))
  }

  /** The collection type the wizard copies from the invoice type. */
  function CollectionTypeOf(t: InvoiceType): CollectionType
  {
    match t
    case Rent => CollectionType.Rent
    case Deposit => CollectionType.Deposit
    case Maintenance => CollectionType.Maintenance
    case Utility => CollectionType.Utility
    case Penalty => CollectionType.Penalty
    case Other => CollectionType.Other
  }

  /** The collection `action_register_payment` creates for invoice `inv`. */
  function RegisteredCollection(inv: Invoice, amount: Money, date: Date, paymentMethod: PaymentMethod, reference: string): (c: Collection)
    ensures c.status == CollectionStatus.Collected && c.amountCollected == amount
    ensures c.tenant == inv.tenant && c.room == inv.room && c.agreement == inv.agreement
    ensures c.invoiceReference == inv.name && c.periodFrom == inv.periodFrom && c.periodTo == inv.periodTo
  {
    Collection(date, amount, inv.tenant, inv.room, inv.agreement, paymentMethod, reference, CollectionTypeOf(inv.invoiceType),
               inv.periodFrom, inv.periodTo, CollectionStatus.Collected, None, None, Unset, None, inv.name)
  }

  // The monthly sweep.

  /** What the sweep reads off its run date: the day of the month, the first
      and last days of the month, and the month as `%B %Y` prints it. */
  datatype RunDate = RunDate(today: Date, day: int, first: Date, last: Date, monthLabel: string)

  function RunDateOf(today: Date): (r: RunDate)
    ensures r.today == today && r.first <= today <= r.last
  {
    var first := FirstOfMonth(today);
    MonthEndIsLastDay(first);
    RunDate(today, DayOf(today), first, MonthEnd(first),
            MonthName(MonthOf(first)) + " " + ZeroPad(YearOf(first) as nat, 4))
  }

  /** The period an invoice dated `today` covers is the calendar month of
      `today`, from its 1st to its last day (December included), and the
      run's day is today's day of the month. */
  lemma BillingPeriod(today: Date)
    ensures var r := RunDateOf(today);
            r.day == DayOf(today) &&
            r.monthLabel == MonthName(MonthOf(today)) + " " + ZeroPad(YearOf(today) as nat, 4) &&
            FromOrdinal(r.first) == Civil(YearOf(today), MonthOf(today), 1) &&
            FromOrdinal(r.last) == Civil(YearOf(today), MonthOf(today), DaysInMonth(YearOf(today), MonthOf(today)))
  {
    var first := FirstOfMonth(today);
    MonthEndIsLastDay(first);
  }

  /** The agreements `create_monthly_invoices` considers on the run date
      (`auto_generate_invoices` is not consulted). */
  predicate Eligible(a: Agreement, rd: RunDate)
  {
    a.state == AgreementState.Active && a.paymentFrequency == Frequency.Monthly && rd.day == a.invoiceDay
  }

  /** An invoice that stops `_create_monthly_invoice` for agreement `aid`. */
  predicate BlocksMonthly(inv: Invoice, aid: nat, rd: RunDate)
  {
    inv.agreement == Some(aid) && inv.invoiceType == InvoiceType.Rent &&
    rd.first <= inv.date <= rd.today && inv.state != InvoiceState.Cancelled
  }

  predicate HasMonthlyInvoice(invoices: seq<Invoice>, aid: nat, rd: RunDate)
  {
    exists j :: 0 <= j < |invoices| && BlocksMonthly(invoices[j], aid, rd)
  }

  lemma HasMonthlyInvoiceGrows(a: seq<Invoice>, b: seq<Invoice>, aid: nat, rd: RunDate)
    requires |a| <= |b| && b[..|a|] == a && HasMonthlyInvoice(a, aid, rd)
    ensures HasMonthlyInvoice(b, aid, rd)
  {
    var j :| 0 <= j < |a| && BlocksMonthly(a[j], aid, rd);
    assert b[j] == a[j];
  }

  lemma HasMonthlyInvoiceShrinks(a: seq<Invoice>, b: seq<Invoice>, aid: nat, rd: RunDate)
    requires |a| <= |b| && b[..|a|] == a && !HasMonthlyInvoice(b, aid, rd)
    ensures !HasMonthlyInvoice(a, aid, rd)
  {
    forall j | 0 <= j < |a| ensures !BlocksMonthly(a[j], aid, rd)
    {
      assert b[j] == a[j];
    }
  }

  /** `Monthly Rent - <room name> (<month name> <year>)`. */
  const MonthlyRentNote: string := "Monthly rent invoice as per rental agreement."

  const RentLinePrefix: string := "Monthly Rent - "

  function RentLineName(roomName: string, rd: RunDate): string
  {
    RentLinePrefix + roomName + " (" + rd.monthLabel + ")"
  }

  /** The invoice `_create_monthly_invoice` creates for agreement `aid` on
      `rd`, numbered `number`, posted when the agreement says so; `None`
      when the due date falls before year 1. */
  function MonthlyInvoice(a: Agreement, aid: nat, roomName: string, rd: RunDate, number: nat): (r: Option<Invoice>)
    ensures r.None? <==> rd.today + DueTerms(a) < 1
    ensures r.Some? ==>
              var x := r.value;
              (rd.first <= rd.today ==> BlocksMonthly(x, aid, rd)) && InvoiceConsistent(x, 0.0) &&
              x.name == Numbered(number) && x.date == rd.today && x.dueDate - rd.today == DueTerms(a) &&
              x.tenant == a.tenant && x.room == a.room &&
              x.periodFrom == Some(rd.first) && x.periodTo == Some(rd.last) &&
              |x.lines| == 1 && x.lines[0].quantity == 1.0 && x.lines[0].priceUnit == a.rentAmount &&
              x.lines[0].name == RentLineName(roomName, rd) &&
              x.amountTotal == a.rentAmount && x.amountResidual == a.rentAmount &&
              x.state == (if a.autoPostInvoices then InvoiceState.Posted else InvoiceState.Draft)
  {
    match AddDays(rd.today, DueTerms(a))
    case None => None
    case Some(due) =>
      // quantity 1, so both computed line amounts are the rent itself
      var line := InvoiceLine(RentLineName(roomName, rd), 1.0, a.rentAmount, a.rentAmount, a.rentAmount);
      assert SumSubtotals([line]) == a.rentAmount;
      Some(Invoice(Numbered(number), rd.today, due, a.tenant, a.room, Some(aid), [line],
                   a.rentAmount, 0.0, a.rentAmount, 0.0, a.rentAmount,
                   if a.autoPostInvoices then InvoiceState.Posted else InvoiceState.Draft,
                   PaymentState.NotPaid, InvoiceType.Rent, Some(rd.first), Some(rd.last),
                   MonthlyRentNote))
  }

  predicate RoomsExist(agreements: seq<Agreement>, rooms: seq<Room>)
  {
    forall k :: 0 <= k < |agreements| ==> agreements[k].room < |rooms|
  }

  /** The invoice table and the invoice sequence counter, as the sweep sees them. */
  datatype SweepState = SweepState(invoices: seq<Invoice>, next: nat)

  /** The sweep over the first `n` agreements of the search `order`; `None`
      when an invoice creation raises, which undoes the whole run. */
  function Sweep(invoices: seq<Invoice>, next: nat, agreements: seq<Agreement>, order: seq<nat>, rooms: seq<Room>,
                 rd: RunDate, n: nat): Option<SweepState>
    requires n <= |order| && IdsOf(agreements, order) && RoomsExist(agreements, rooms)
  {
    if n == 0 then Some(SweepState(invoices, next))
    else
      match Sweep(invoices, next, agreements, order, rooms, rd, n - 1)
      case None => None
      case Some(s) =>
        var aid := order[n - 1];
        var a := agreements[aid];
        if !Eligible(a, rd) || HasMonthlyInvoice(s.invoices, aid, rd) then Some(s)
        else
          match MonthlyInvoice(a, aid, rooms[a.room].name, rd, s.next)
          case None => None
          case Some(x) => Some(SweepState(s.invoices + [x], s.next + 1))
  }

  lemma {:induction false} SweepFailureSticks(invoices: seq<Invoice>, next: nat, agreements: seq<Agreement>,
                                              order: seq<nat>, rooms: seq<Room>, rd: RunDate, i: nat, n: nat)
    requires i <= n <= |order| && IdsOf(agreements, order) && RoomsExist(agreements, rooms)
    requires Sweep(invoices, next, agreements, order, rooms, rd, i).None?
    ensures Sweep(invoices, next, agreements, order, rooms, rd, n).None?
  {
    if n > i {
      SweepFailureSticks(invoices, next, agreements, order, rooms, rd, i, n - 1);
    }
  }

  /** One more agreement: skipped when not eligible or already invoiced,
      otherwise its invoice is appended (or the run fails). */
  lemma SweepNext(invoices: seq<Invoice>, next: nat, agreements: seq<Agreement>, order: seq<nat>, rooms: seq<Room>,
                  rd: RunDate, i: nat, s: SweepState)
    requires i < |order| && IdsOf(agreements, order) && RoomsExist(agreements, rooms)
    requires Sweep(invoices, next, agreements, order, rooms, rd, i) == Some(s)
    ensures var aid := order[i];
            var a := agreements[aid];
            Sweep(invoices, next, agreements, order, rooms, rd, i + 1) ==
              if !Eligible(a, rd) || HasMonthlyInvoice(s.invoices, aid, rd) then Some(s)
              else match MonthlyInvoice(a, aid, rooms[a.room].name, rd, s.next)
                   case None => None
                   case Some(x) => Some(SweepState(s.invoices + [x], s.next + 1))
  {
  }

  /** A run only appends invoices, one sequence number each. */
  lemma {:induction false} SweepExtends(invoices: seq<Invoice>, next: nat, agreements: seq<Agreement>,
                                        order: seq<nat>, rooms: seq<Room>, rd: RunDate, n: nat)
    requires n <= |order| && IdsOf(agreements, order) && RoomsExist(agreements, rooms)
    requires Sweep(invoices, next, agreements, order, rooms, rd, n).Some?
    ensures var s := Sweep(invoices, next, agreements, order, rooms, rd, n).value;
            |invoices| <= |s.invoices| && s.invoices[..|invoices|] == invoices &&
            s.next == next + (|s.invoices| - |invoices|)
  {
    if n > 0 {
      SweepExtends(invoices, next, agreements, order, rooms, rd, n - 1);
      var s := Sweep(invoices, next, agreements, order, rooms, rd, n - 1).value;
      var t := Sweep(invoices, next, agreements, order, rooms, rd, n).value;
      if t != s {
        var a := agreements[order[n - 1]];
        var x := MonthlyInvoice(a, order[n - 1], rooms[a.room].name, rd, s.next).value;
        assert t.invoices == s.invoices + [x];
        assert (s.invoices + [x])[..|invoices|] == s.invoices[..|invoices|];
      }
    }
  }

  /** After a successful run every eligible agreement visited has its
      invoice for the month. */
  lemma {:induction false} SweepCovers(invoices: seq<Invoice>, next: nat, agreements: seq<Agreement>,
                                       order: seq<nat>, rooms: seq<Room>, rd: RunDate, n: nat)
    requires n <= |order| && IdsOf(agreements, order) && RoomsExist(agreements, rooms) && rd.first <= rd.today
    requires Sweep(invoices, next, agreements, order, rooms, rd, n).Some?
    ensures var s := Sweep(invoices, next, agreements, order, rooms, rd, n).value;
            forall k :: 0 <= k < n && Eligible(agreements[order[k]], rd) ==> HasMonthlyInvoice(s.invoices, order[k], rd)
  {
    if n > 0 {
      SweepCovers(invoices, next, agreements, order, rooms, rd, n - 1);
      var s := Sweep(invoices, next, agreements, order, rooms, rd, n - 1).value;
      var t := Sweep(invoices, next, agreements, order, rooms, rd, n).value;
      assert |s.invoices| <= |t.invoices| && t.invoices[..|s.invoices|] == s.invoices;
      forall k | 0 <= k < n && Eligible(agreements[order[k]], rd) ensures HasMonthlyInvoice(t.invoices, order[k], rd)
      {
        if k < n - 1 {
          HasMonthlyInvoiceGrows(s.invoices, t.invoices, order[k], rd);
        } else if !HasMonthlyInvoice(s.invoices, order[k], rd) {
          assert BlocksMonthly(t.invoices[|s.invoices|], order[k], rd);
        }
      }
    }
  }

  /** A run over a whole search order leaves every eligible agreement of the
      table with its invoice for the month. */
  lemma SweepCoversAll(invoices: seq<Invoice>, next: nat, agreements: seq<Agreement>,
                       order: seq<nat>, rooms: seq<Room>, rd: RunDate)
    requires StartDateOrder(agreements, order) && RoomsExist(agreements, rooms) && rd.first <= rd.today
    requires Sweep(invoices, next, agreements, order, rooms, rd, |order|).Some?
    ensures var s := Sweep(invoices, next, agreements, order, rooms, rd, |order|).value;
            forall id :: 0 <= id < |agreements| && Eligible(agreements[id], rd) ==> HasMonthlyInvoice(s.invoices, id, rd)
  {
    SweepCovers(invoices, next, agreements, order, rooms, rd, |order|);
    forall id | 0 <= id < |agreements| && Eligible(agreements[id], rd)
      ensures HasMonthlyInvoice(Sweep(invoices, next, agreements, order, rooms, rd, |order|).value.invoices, id, rd)
    {
      assert id in order;
      var k :| 0 <= k < |order| && order[k] == id;
    }
  }

  /** Each invoice a run creates is for an eligible agreement of the search
      that had no invoice for the month before the run; on a search in
      `start_date desc` order they are for distinct agreements, latest start
      first. */
  lemma {:induction false} SweepCreatesOnlyMissing(invoices: seq<Invoice>, next: nat, agreements: seq<Agreement>,
                                                   order: seq<nat>, rooms: seq<Room>, rd: RunDate, n: nat)
    requires n <= |order| && IdsOf(agreements, order) && RoomsExist(agreements, rooms)
    requires LatestStartFirst(agreements, order)
    requires Sweep(invoices, next, agreements, order, rooms, rd, n).Some?
    ensures var s := Sweep(invoices, next, agreements, order, rooms, rd, n).value;
            |invoices| <= |s.invoices| &&
            (forall j :: |invoices| <= j < |s.invoices| ==>
               s.invoices[j].agreement.Some? && s.invoices[j].agreement.value in order[..n] &&
               Eligible(agreements[s.invoices[j].agreement.value], rd) &&
               !HasMonthlyInvoice(invoices, s.invoices[j].agreement.value, rd)) &&
            (forall j1, j2 :: |invoices| <= j1 < j2 < |s.invoices| ==>
               s.invoices[j1].agreement.value != s.invoices[j2].agreement.value &&
               agreements[s.invoices[j1].agreement.value].startDate >= agreements[s.invoices[j2].agreement.value].startDate)
  {
    SweepExtends(invoices, next, agreements, order, rooms, rd, n);
    if n > 0 {
      SweepCreatesOnlyMissing(invoices, next, agreements, order, rooms, rd, n - 1);
      SweepExtends(invoices, next, agreements, order, rooms, rd, n - 1);
      var s := Sweep(invoices, next, agreements, order, rooms, rd, n - 1).value;
      var t := Sweep(invoices, next, agreements, order, rooms, rd, n).value;
      assert order[..n] == order[..n - 1] + [order[n - 1]];
      if t != s {
        var aid := order[n - 1];
        var a := agreements[aid];
        var x := MonthlyInvoice(a, aid, rooms[a.room].name, rd, s.next).value;
        assert t.invoices == s.invoices + [x];
        HasMonthlyInvoiceShrinks(invoices, s.invoices, aid, rd);
        forall j | |invoices| <= j < |s.invoices|
          ensures s.invoices[j].agreement.value != aid &&
                  agreements[s.invoices[j].agreement.value].startDate >= a.startDate
        {
          var p :| 0 <= p < n - 1 && order[..n - 1][p] == s.invoices[j].agreement.value;
          assert order[p] == s.invoices[j].agreement.value;
        }
      }
    }
  }

  /** With every eligible agreement of the search already invoiced for the
      month, a run changes nothing. */
  lemma {:induction false} SweepNoop(invoices: seq<Invoice>, next: nat, agreements: seq<Agreement>,
                                     order: seq<nat>, rooms: seq<Room>, rd: RunDate, n: nat)
    requires n <= |order| && IdsOf(agreements, order) && RoomsExist(agreements, rooms)
    requires forall k :: 0 <= k < n && Eligible(agreements[order[k]], rd) ==> HasMonthlyInvoice(invoices, order[k], rd)
    ensures Sweep(invoices, next, agreements, order, rooms, rd, n) == Some(SweepState(invoices, next))
  {
    if n > 0 {
      SweepNoop(invoices, next, agreements, order, rooms, rd, n - 1);
    }
  }

  /** A second run on the same day creates nothing. */
  lemma SweepIdempotent(invoices: seq<Invoice>, next: nat, agreements: seq<Agreement>, order: seq<nat>,
                        rooms: seq<Room>, rd: RunDate)
    requires IdsOf(agreements, order) && RoomsExist(agreements, rooms) && rd.first <= rd.today
    requires Sweep(invoices, next, agreements, order, rooms, rd, |order|).Some?
    ensures var s := Sweep(invoices, next, agreements, order, rooms, rd, |order|).value;
            Sweep(s.invoices, s.next, agreements, order, rooms, rd, |order|) == Some(s)
  {
    var s := Sweep(invoices, next, agreements, order, rooms, rd, |order|).value;
    SweepCovers(invoices, next, agreements, order, rooms, rd, |order|);
    SweepNoop(s.invoices, s.next, agreements, order, rooms, rd, |order|);
  }

  /** `name == _('New')` or no name given: the sequence supplies one. */
  predicate IsNewName(r: Reference)
  {
    r.Unset? || r == Text("New")
  }

  /** The invoices, the payments and the two sequence counters. */
  class InvoiceLedger {
    var invoices: seq<Invoice>
    var payments: seq<Payment>
    var nextInvoice: nat        // the next value of the `property.invoice` sequence
    var nextPayment: nat        // the next value of the `property.payment` sequence

    constructor (invoices0: seq<Invoice>, payments0: seq<Payment>, nextInvoice0: nat, nextPayment0: nat)
      ensures invoices == invoices0 && payments == payments0
      ensures nextInvoice == nextInvoice0 && nextPayment == nextPayment0
    {
      invoices := invoices0;
      payments := payments0;
      nextInvoice := nextInvoice0;
      nextPayment := nextPayment0;
    }

    /** Every payment belongs to an existing invoice. */
    predicate Valid()
      reads this
    {
      forall p :: 0 <= p < |payments| ==> payments[p].invoice < |invoices|
    }

    /** Every invoice's stored amounts agree with its lines and its posted payments. */
    predicate Consistent()
      reads this
    {
      forall i :: 0 <= i < |invoices| ==> InvoiceConsistent(invoices[i], PostedTotal(payments, i))
    }

    /** `PropertyInvoice.create`: a number from the sequence unless one is
        given, then the stored computes, the lines' first. */
    method Create(inv: Invoice) returns (id: nat)
      requires Valid()
      modifies this`invoices, this`nextInvoice
      ensures Valid() && id == |old(invoices)|
      ensures IsNewName(inv.name) ==>
                invoices == old(invoices) + [Recomputed(inv.(name := Numbered(old(nextInvoice)), lines := ComputedLines(inv.lines)))] &&
                nextInvoice == old(nextInvoice) + 1
      ensures !IsNewName(inv.name) ==>
                invoices == old(invoices) + [Recomputed(inv.(lines := ComputedLines(inv.lines)))] &&
                nextInvoice == old(nextInvoice)
      ensures |invoices[id].lines| == |inv.lines| &&
              forall k :: 0 <= k < |inv.lines| ==> invoices[id].lines[k] == LineAmounts(inv.lines[k])
      ensures old(Consistent()) && inv.amountPaid == 0.0 ==> Consistent()
    {
      var x := inv.(lines := ComputedLines(inv.lines));
      if IsNewName(x.name) {
        x := x.(name := Numbered(nextInvoice));
        nextInvoice := nextInvoice + 1;
      }
      PostedTotalUnreferenced(payments, |invoices|);
      id := |invoices|;
      invoices := invoices + [Recomputed(x)];
    }

    /** `_compute_amounts` on invoice `id`: the loop over the lines. */
    method ComputeAmounts(id: nat)
      requires id < |invoices|
      modifies this`invoices
      ensures invoices == old(invoices)[id := Recomputed(old(invoices)[id])]
    {
      var inv := invoices[id];
      var total := 0.0;
      var i := 0;
      while i < |inv.lines|
        invariant 0 <= i <= |inv.lines|
        invariant total == SumSubtotals(inv.lines[..i])
      {
        assert inv.lines[..i + 1][..i] == inv.lines[..i];
        total := total + inv.lines[i].priceSubtotal;
        i := i + 1;
      }
      assert inv.lines[..i] == inv.lines;
      invoices := invoices[id := inv.(amountUntaxed := total, amountTax := 0.0, amountTotal := total,
                                      amountResidual := total - inv.amountPaid,
                                      paymentState := PaymentStateOf(inv.amountPaid, total))];
    }

    /** Writing `invoice_line_ids`: the lines are computed and the invoice
        amounts follow. */
    method WriteLines(id: nat, lines: seq<InvoiceLine>)
      requires id < |invoices|
      modifies this`invoices
      ensures |invoices| == |old(invoices)|
      ensures invoices == old(invoices)[id := Recomputed(old(invoices)[id].(lines := invoices[id].lines))]
      ensures |invoices[id].lines| == |lines|
      ensures forall k :: 0 <= k < |lines| ==> invoices[id].lines[k] == LineAmounts(lines[k])
      ensures old(Consistent()) ==> Consistent()
    {
      invoices := invoices[id := invoices[id].(lines := ComputedLines(lines))];
      ComputeAmounts(id);
    }

    /** `action_post`: refused without lines, otherwise only the state. */
    method Post(id: nat) returns (o: Outcome)
      requires id < |invoices|
      modifies this`invoices
      ensures o.Fail? <==> old(invoices)[id].lines == []
      ensures o.Fail? ==> o.error == UserError("You cannot post an invoice without any invoice lines.") &&
                          invoices == old(invoices)
      ensures o.Pass? ==> invoices == old(invoices)[id := old(invoices)[id].(state := InvoiceState.Posted)]
      ensures old(Consistent()) ==> Consistent()
    {
      if invoices[id].lines == [] {
        return Fail(UserError("You cannot post an invoice without any invoice lines."));
      }
      invoices := invoices[id := invoices[id].(state := InvoiceState.Posted)];
      return Pass;
    }

    /** `action_cancel`. */
    method Cancel(id: nat)
      requires id < |invoices|
      modifies this`invoices
      ensures invoices == old(invoices)[id := old(invoices)[id].(state := InvoiceState.Cancelled)]
      ensures old(Consistent()) ==> Consistent()
    {
      invoices := invoices[id := invoices[id].(state := InvoiceState.Cancelled)];
    }

    /** `action_draft`. */
    method ResetToDraft(id: nat)
      requires id < |invoices|
      modifies this`invoices
      ensures invoices == old(invoices)[id := old(invoices)[id].(state := InvoiceState.Draft)]
      ensures old(Consistent()) ==> Consistent()
    {
      invoices := invoices[id := invoices[id].(state := InvoiceState.Draft)];
    }

    /** `PropertyPayment.create`. */
    method CreatePayment(p: Payment) returns (pid: nat)
      requires Valid() && p.invoice < |invoices| && p.state == PaymentRecordState.Draft
      modifies this`payments, this`nextPayment
      ensures Valid() && pid == |old(payments)|
      ensures IsNewName(p.name) ==> payments == old(payments) + [p.(name := Numbered(old(nextPayment)))] &&
                                    nextPayment == old(nextPayment) + 1
      ensures !IsNewName(p.name) ==> payments == old(payments) + [p] && nextPayment == old(nextPayment)
      ensures old(Consistent()) ==> Consistent()
    {
      var q := p;
      if IsNewName(q.name) {
        q := q.(name := Numbered(nextPayment));
        nextPayment := nextPayment + 1;
      }
      forall i | 0 <= i < |invoices| ensures PostedTotal(payments + [q], i) == PostedTotal(payments, i)
      {
        PostedTotalAppend(payments, q, i);
      }
      pid := |payments|;
      payments := payments + [q];
    }

    /** `PropertyPayment.action_post`: the payment is posted, its invoice's
        paid amount is recomputed from all its posted payments and the state
        set to paid or partial. */
    method PostPayment(pid: nat)
      requires Valid() && pid < |payments|
      modifies this`payments, this`invoices
      ensures Valid()
      ensures payments == old(payments)[pid := old(payments)[pid].(state := PaymentRecordState.Posted)]
      ensures var i := old(payments)[pid].invoice;
              invoices == old(invoices)[i := Settle(old(invoices)[i], PostedTotal(payments, i))]
      ensures old(Consistent()) ==> Consistent()
    {
      var before := payments;
      payments := payments[pid := payments[pid].(state := PaymentRecordState.Posted)];
      var i := payments[pid].invoice;
      invoices := invoices[i := Settle(invoices[i], PostedTotal(payments, i))];
      forall j | 0 <= j < |invoices| && j != i ensures PostedTotal(payments, j) == PostedTotal(before, j)
      {
        PostedTotalUpdate(before, pid, payments[pid], j);
      }
    }

    /** `PropertyPayment.action_cancel`: the payment is cancelled and the paid
        amount recomputed; the invoice state stays. */
    method CancelPayment(pid: nat)
      requires Valid() && pid < |payments|
      modifies this`payments, this`invoices
      ensures Valid()
      ensures payments == old(payments)[pid := old(payments)[pid].(state := PaymentRecordState.Cancelled)]
      ensures var i := old(payments)[pid].invoice;
              invoices == old(invoices)[i := Resettle(old(invoices)[i], PostedTotal(payments, i))]
      ensures old(Consistent()) ==> Consistent()
    {
      var before := payments;
      payments := payments[pid := payments[pid].(state := PaymentRecordState.Cancelled)];
      var i := payments[pid].invoice;
      invoices := invoices[i := Resettle(invoices[i], PostedTotal(payments, i))];
      forall j | 0 <= j < |invoices| && j != i ensures PostedTotal(payments, j) == PostedTotal(before, j)
      {
        PostedTotalUpdate(before, pid, payments[pid], j);
      }
    }

    /** `create_monthly_invoices` run on `today` (the clock is a parameter),
        over the agreements in the order the search returns them. */
    method CreateMonthlyInvoices(agreements: seq<Agreement>, order: seq<nat>, rooms: seq<Room>, today: Date)
      returns (ok: bool)
      requires Valid() && StartDateOrder(agreements, order) && RoomsExist(agreements, rooms)
      modifies this`invoices, this`nextInvoice
      ensures Valid()
      ensures var r := Sweep(old(invoices), old(nextInvoice), agreements, order, rooms, RunDateOf(today), |order|);
              (ok <==> r.Some?) && (ok ==> invoices == r.value.invoices && nextInvoice == r.value.next)
      ensures !ok ==> invoices == old(invoices) && nextInvoice == old(nextInvoice)
      ensures old(Consistent()) ==> Consistent()
    {
      ok := RunSweep(agreements, order, rooms, RunDateOf(today));
    }

    /** The loop of `create_monthly_invoices` over the agreements, in search
        order. An invoice creation that raises undoes the run. */
    method RunSweep(agreements: seq<Agreement>, order: seq<nat>, rooms: seq<Room>, rd: RunDate) returns (ok: bool)
      requires Valid() && IdsOf(agreements, order) && RoomsExist(agreements, rooms)
      modifies this`invoices, this`nextInvoice
      ensures Valid()
      ensures var r := Sweep(old(invoices), old(nextInvoice), agreements, order, rooms, rd, |order|);
              (ok <==> r.Some?) && (ok ==> invoices == r.value.invoices && nextInvoice == r.value.next)
      ensures !ok ==> invoices == old(invoices) && nextInvoice == old(nextInvoice)
      ensures old(Consistent()) ==> Consistent()
    {
      // The run works on a copy that is written back only when every
      // creation succeeded, as the rollback of the failing call would leave it.
      var inv, nxt := invoices, nextInvoice;
      ghost var wasConsistent := Consistent();
      var i := 0;
      while i < |order|
        invariant 0 <= i <= |order| && invoices == old(invoices) && nextInvoice == old(nextInvoice)
        invariant Sweep(invoices, nextInvoice, agreements, order, rooms, rd, i) == Some(SweepState(inv, nxt))
        invariant |invoices| <= |inv|
        invariant wasConsistent ==> forall k :: 0 <= k < |inv| ==> InvoiceConsistent(inv[k], PostedTotal(payments, k))
      {
        var aid := order[i];
        var a := agreements[aid];
        SweepNext(invoices, nextInvoice, agreements, order, rooms, rd, i, SweepState(inv, nxt));
        if Eligible(a, rd) && !HasMonthlyInvoice(inv, aid, rd) {
          var x := MonthlyInvoice(a, aid, rooms[a.room].name, rd, nxt);
          if x.None? {
            SweepFailureSticks(invoices, nextInvoice, agreements, order, rooms, rd, i + 1, |order|);
            return false;
          }
          if wasConsistent {
            AppendConsistent(inv, payments, x.value);
          }
          inv := inv + [x.value];
          nxt := nxt + 1;
        }
        i := i + 1;
      }
      invoices, nextInvoice := inv, nxt;
      return true;
    }

    /** `PropertyPaymentWizard.action_register_payment`: a payment is created
        and posted, then a collected collection is created for the invoice.
        A non-positive amount fails the collection's constraint, which undoes
        the payment as well. */
    method RegisterPayment(invoiceId: nat, amount: Money, date: Date, paymentMethod: PaymentMethod, reference: string,
                           collections: CollectionTable) returns (o: Outcome)
      requires Valid() && invoiceId < |invoices|
      modifies this`payments, this`invoices, this`nextPayment, collections`rows
      ensures Valid()
      ensures o == CheckAmountPositive(RegisteredCollection(old(invoices)[invoiceId], amount, date, paymentMethod, reference))
      ensures o.Fail? ==> payments == old(payments) && invoices == old(invoices) && nextPayment == old(nextPayment) &&
                          collections.rows == old(collections.rows)
      ensures o.Pass? ==>
                payments == old(payments) + [Payment(Numbered(old(nextPayment)), date, amount, invoiceId, paymentMethod, reference,
                                                     PaymentRecordState.Posted)] &&
                nextPayment == old(nextPayment) + 1 &&
                invoices == old(invoices)[invoiceId := Settle(old(invoices)[invoiceId], PostedTotal(payments, invoiceId))] &&
                collections.rows == old(collections.rows) + [RegisteredCollection(old(invoices)[invoiceId], amount, date, paymentMethod, reference)]
      ensures o.Pass? && old(Consistent()) ==>
                Consistent() && invoices[invoiceId].amountPaid == old(invoices)[invoiceId].amountPaid + amount
    {
      var invoices0, payments0, next0 := invoices, payments, nextPayment;
      var inv := invoices[invoiceId];
      var pid := CreatePayment(Payment(Unset, date, amount, invoiceId, paymentMethod, reference, PaymentRecordState.Draft));
      PostPayment(pid);
      PostedTotalAppend(old(payments), payments[pid], invoiceId);
      assert payments == old(payments) + [payments[pid]];
      o := collections.Create(RegisteredCollection(inv, amount, date, paymentMethod, reference));
      if o.Fail? {
        invoices, payments, nextPayment := invoices0, payments0, next0;
      }
    }
  }
}
