# Property management: a verified model of the bookkeeping rules

This project models the bookkeeping core of `property_management_lite`, an
Odoo module for renting out rooms. The module keeps properties, which hold
flats, which hold rooms. Rooms are let to tenants under rental agreements.
Rent is tracked in three ways: collections (money received), invoices with
their payments, and dues (amounts expected on a date). Tenants leave through
an exit record, expenses go through an approval workflow, and a dashboard
sums up the day, the week and the month.

The ORM is replaced by plain records:

- Each Odoo model is a `datatype` of its stored fields (module `Schema`).
- A table is a `seq` of records, where a record's id is its index.
- Tables whose records the module's actions write in place are classes:
  `RoomTable`, `AgreementTable`, `TenantRegistry`, `CollectionTable`,
  `InvoiceLedger`, `DueTable`, `ExitTable`, `ExpenseTable`, `PropertyTable`.
  Their methods carry `modifies` frames and state the new contents in full.
- Derived (`@api.depends`) fields, constraints and searches are functions
  over those sequences.
- Money is an exact `real`.
- A date is a Python `date` ordinal (day 1 is 0001-01-01). The
  year/month/day view is computed by `Calendar.FromOrdinal`, which is proved
  to round-trip with `Calendar.ToOrdinal`.
- `ir.sequence` numbers come from a counter held next to the table.
- "Today", the current user, `Datetime.now()` and Python's float printing
  are parameters.

One module per source file, plus `Common` (options, outcomes, string helpers)
and `Calendar` (Python's proleptic Gregorian calendar). Cross-model actions
take the other tables as arguments: an agreement's activation writes the
room table and the tenant registry. The two cron sweeps that create records
(monthly invoices, monthly dues) are loops over the agreements in the
order their search returns (`start_date desc`, module `AgreementOrder`).
Each is proved equal to a recursive specification (`Invoices.Sweep`,
`Dues.DueSweep`), and idempotence, coverage and "creates only what is
missing" are proved about that specification.

## Model

| member | source | states |
|---|---|---|
| Calendar.AddDays | models/property_invoice.py:228 | adding days fails exactly when the result falls before 0001-01-01, and otherwise moves the ordinal by that many days |
| Calendar.FromOrdinal | models/property_invoice.py:215-220 | every ordinal has a valid (year, month, day) view that maps back to it |
| Calendar.FromToOrdinal | models/property_invoice.py:215-220 | the view of a valid date's ordinal is that date (the other direction of the round trip) |
| Calendar.ToOrdinalInjective | models/property_invoice.py:215-220 | distinct valid dates have distinct ordinals |
| Calendar.DaysInMonth | models/property_invoice.py:217-220 | months have 28 to 31 days, with 29 exactly for February of a leap year |
| Calendar.ReplaceDay | models/property_due_tracker.py:128 | `date.replace(day=k)` fails exactly when the month has no day k; otherwise it gives that day of the same month |
| Calendar.FirstOfMonth | models/property_dashboard.py:58 | `replace(day=1)` gives the 1st of the same month, no later than the date, day-of-month minus one days before it |
| Calendar.MonthEndIsLastDay | models/property_invoice.py:216-220 | the period end computed via the next month's 1st (December rolling into January) is the last day of the same month |
| Calendar.WeekStart | models/property_dashboard.py:40 | `today - weekday(today)` is the Monday of today's week: within six days before today, weekday 0, and days since it count the weekday |
| Common.Prefix | models/property_collection.py:90 | `s[:n]` is a prefix of s of length min(|s|, n) |
| Rooms.RoomName | models/property_room.py:75-81 | "New Room" exactly when the room number is empty, otherwise "<property code>-<flat number>-<room number>" |
| Rooms.RoomNameInjective | models/property_room.py:79 | within one flat of one property, distinct room numbers give distinct room names |
| Rooms.DaysVacant | models/property_room.py:88-98 | `days_vacant` is non-zero only for a vacant room pointing at an agreement, and then equals today minus the agreement's end date |
| Rooms.DaysVacantOfFreeRoom | models/property_room.py:88-98 | a vacant room without a current agreement always shows 0 days vacant |
| Rooms.VacatedIsConsistent | models/property_room.py:143-148 | after vacating, the room is available, free of links, and shows 0 days vacant |
| Rooms.StatusActionsKeepVacantFree | models/property_room.py:137-151 | booking, occupying and maintenance change only the status, keep both links, keep "vacant implies free", and leave the room available only when booked |
| Rooms.OccupyBreaksLinks | models/property_room.py:140-141 | occupy does not set the links, so a consistent vacant room becomes occupied with no tenant |
| Rooms.BookBreaksLinks | models/property_room.py:137-138 | book keeps the links, so an occupied room becomes booked while still pointing at its tenant |
| Rooms.OnchangeRoomType | models/property_room.py:130-135 | choosing a room type copies its default rent, default deposit and bathroom flag and changes nothing else |
| Rooms.OnchangeFlat | models/property_room.py:125-128 | choosing a flat sets the room's property to the flat's and changes nothing else |
| Rooms.CheckRoomNumberUnique | models/property_room.py:113-123 | the constraint fails, with its message, exactly when another room of the same flat has the same non-empty number |
| Rooms.CheckRoomNumberUniqueSpec | models/property_room.py:113-123 | the check passes for every room exactly when room numbers are unique within each flat |
| Rooms.CountStatus | models/property_flat.py:72-76 | the count of rooms in a status is at most the number of rooms; it equals it exactly when all rooms are in that status, and is 0 exactly when none is |
| Rooms.CountTwoStatuses | models/property_flat.py:72-76 | rooms counted in two different statuses never add up to more than the number of rooms |
| Rooms.OccupiedRentBounds | models/property_flat.py:78-82 | the rent of the occupied rooms is not negative when rents are not, and is 0 when no room is occupied |
| Rooms.RoomTable.Book | models/property_room.py:137-138 | only the room's status becomes booked; the room is available; "vacant implies free" is kept for the table |
| Rooms.RoomTable.Occupy | models/property_room.py:140-141 | only the room's status becomes occupied; the room is not available; the table invariant is kept |
| Rooms.RoomTable.Vacate | models/property_room.py:143-148 | status vacant with both links cleared, nothing else changes; the room is available and consistent |
| Rooms.RoomTable.Maintenance | models/property_room.py:150-151 | only the room's status becomes maintenance; the room is not available |
| Flats.FlatName | models/property_flat.py:59-65 | "New Flat" exactly when the flat number is empty, otherwise "<property name> - Flat <number>" |
| Flats.RoomsOf | models/property_flat.py:67-70 | `room_ids` holds exactly the rooms whose flat is this flat |
| Flats.RoomStatsBound | models/property_flat.py:72-76 | occupied plus vacant rooms of a flat never exceed its room count |
| Flats.StateOf | models/property_flat.py:84-94 | never maintenance; available exactly when every room is vacant (no rooms included); fully occupied exactly when there are rooms and all are occupied |
| Flats.FlatStateByCounts | models/property_flat.py:84-94 | the flat state read against the counters: available iff vacant = count, fully occupied iff count > 0 and occupied = count, partially occupied otherwise |
| Flats.CheckFlatNumberUnique | models/property_flat.py:96-106 | fails, with its message, exactly when another flat of the same property has the same non-empty number |
| Flats.CheckFlatNumberUniqueSpec | models/property_flat.py:96-106 | the check passes for every flat exactly when flat numbers are unique within each property |
| Properties.FlatCount | models/property_property.py:66-69 | the flat count never exceeds the flats examined |
| Properties.FlatCountIsFlatIds | models/property_property.py:66-69 | `total_flats` is the number of flats whose property is this property |
| Properties.PropertyRooms | models/property_property.py:79 | `flat_ids.mapped('room_ids')` holds exactly the rooms whose flat belongs to the property |
| Properties.RoomsOverFlatsSnoc | models/property_property.py:71-74 | one more room adds one to the flat-by-flat room sum exactly when its flat belongs to the property |
| Properties.TotalRoomsIsPropertyRooms | models/property_property.py:71-74 | `total_rooms`, summed flat by flat, equals the number of the property's rooms |
| Properties.OccupancyRateBounds | models/property_property.py:76-83 | the occupancy rate is a ratio in [0, 1]; it is 1 exactly when the property has rooms and all are occupied, and 0 with no occupied room |
| Properties.RatioBounds | models/property_property.py:83 | a/b with 0 <= a <= b and b > 0 lies in [0, 1], is 1 exactly when a = b, and is 0 when a = 0 |
| Properties.PropertyRoomStatsBound | models/property_property.py:76-81 | occupied plus vacant rooms of a property never exceed its total rooms |
| Properties.RecentExpenses | models/property_property.py:93-95 | the filtered expenses are exactly the property's expenses dated on or after the cut-off |
| Properties.Financials | models/property_property.py:85-99 | income is the rent of occupied rooms, expenses the twelve-month average, profit their difference |
| Properties.MonthlyExpensesSign | models/property_property.py:92-99 | with saved (positive) expenses the average is not negative, is positive exactly when some expense falls after the cut-off, and profit never exceeds income |
| Properties.AverageSinceSign | models/property_property.py:92-99 | the twelve-month average over saved expenses is not negative, and positive exactly when some expense of the property is dated on or after the cut-off |
| Properties.RecentExpensesPositive | models/property_property.py:93-96 | filtering saved expenses keeps them positive |
| Properties.CheckCodeUnique | models/property_property.py:101-105 | fails, with its message, exactly when another unarchived property has the same code; archived namesakes (`active` false, line 47) are not searched |
| Properties.CheckCodeUniqueSpec | models/property_property.py:101-105 | the check passes for every record exactly when two properties share a code only if both are archived |
| Properties.ArchivedCodeReusable | models/property_property.py:101-105 | a new property may take the code of an archived one, while the archived one, were it checked, would fail |
| Properties.ActiveProperties | models/property_dashboard.py:82 | `search_count([])` counts the unarchived properties: none exactly when all are archived, all exactly when none is |
| Properties.PropertyTable.Activate | models/property_property.py:107-108 | only the property's state becomes active |
| Properties.PropertyTable.SetMaintenance | models/property_property.py:110-111 | only the property's state becomes maintenance |
| Properties.PropertyTable.Deactivate | models/property_property.py:113-114 | only the property's state becomes inactive |
| Expenses.CheckAmountPositive | models/property_expense.py:105-109 | passes exactly when the amount is positive, and otherwise fails with the constraint's message |
| Expenses.TotalAmountPositive | models/property_expense.py:105-109 | a list of saved expenses has a non-negative total, which is 0 exactly when the list is empty |
| Expenses.BillReference | models/property_expense.py:135 | the reference is "BILL/", the first ten characters of the vendor name, "/" and the date as `%Y%m%d` (at least eight digits), each at its position, and nothing more |
| Expenses.BillReferenceIgnoresNameTail | models/property_expense.py:135 | vendors whose names share their first ten characters give the same reference on the same day |
| Expenses.OnchangeFlat | models/property_expense.py:94-97 | choosing a flat sets the property from the flat and changes nothing else |
| Expenses.OnchangeRoom | models/property_expense.py:99-103 | choosing a room sets the flat and the property from the room and changes nothing else |
| Expenses.ExpenseTable.Submit | models/property_expense.py:111-112 | only the state becomes submitted, whatever it was |
| Expenses.ExpenseTable.Approve | models/property_expense.py:114-119 | the state becomes approved, and the approver and approval time are recorded; nothing else changes |
| Expenses.ExpenseTable.Pay | models/property_expense.py:121-122 | only the state becomes paid |
| Expenses.ExpenseTable.Reject | models/property_expense.py:124-125 | only the state becomes rejected |
| Expenses.ExpenseTable.CreateBillReference | models/property_expense.py:127-136 | fails, with its message and no change, exactly when there is no vendor; otherwise writes only the bill reference |
| Collections.CollectionName | models/property_collection.py:86-92 | the name is "COL/", the date as `%Y%m%d`, "/", the first ten characters of the tenant name, "/" and the room number, each at its position, and nothing more |
| Collections.DaysLate | models/property_collection.py:94-101 | never negative; positive exactly when there is a due date and the collection is later, and then the number of days between |
| Collections.CheckAmountPositive | models/property_collection.py:129-133 | passes exactly when the amount collected is positive, and otherwise fails with the constraint's message |
| Collections.OnchangeCollectionType | models/property_collection.py:119-127 | with an agreement, rent, deposit and extra take the agreement's rent, deposit and extra charges; other types and no agreement leave the record unchanged |
| Collections.LatestDate | models/property_agreement.py:152 | `max(dates) if records else False`: none exactly for no records, otherwise a date of one of them that no other exceeds |
| Collections.TotalCollectedPositive | models/property_agreement.py:151 | saved collections have a non-negative total that is positive exactly when there is one |
| Collections.PaidRent | models/property_collection.py:175-179 | the search holds exactly the agreement's rent collections in status collected, verified or deposited |
| Collections.DailyReminderRule | models/property_collection.py:185-188 | for a daily agreement the reminder is due exactly when no paid rent collection is dated today or later |
| Collections.RemindedSpec | models/property_collection.py:170-188 | each agreement is listed once, by id, exactly when it is active and its reminder is due (monthly on the payment day, daily as above, never otherwise) |
| Collections.DailyReminders | models/property_collection.py:165-188 | the cron loop returns exactly the active agreements whose reminder is due |
| Collections.CollectionTable.Create | models/property_collection.py:129-133 | the record is saved exactly when the amount check passes, and the table is unchanged otherwise |
| Collections.CollectionTable.Collect | models/property_collection.py:135-140 | the status becomes collected; a receipt number is drawn from the sequence only when none is set; an existing number is kept |
| Collections.CollectionTable.Verify | models/property_collection.py:142-147 | the status becomes verified and the verifier and time are recorded; nothing else changes |
| Collections.CollectionTable.Deposit | models/property_collection.py:149-150 | only the status becomes deposited |
| Collections.CollectionTable.Cancel | models/property_collection.py:152-153 | only the status becomes cancelled |
| Collections.CollectTwice | models/property_collection.py:135-140 | collecting twice draws at most one number, and the second collect keeps the number the first one set |
| Tenants.CheckIdPassportUnique | models/property_tenant.py:122-131 | fails, with its message, exactly when another tenant has the same non-empty ID/passport number |
| Tenants.CheckIdPassportUniqueSpec | models/property_tenant.py:122-131 | the check passes for every tenant exactly when non-empty ID/passport numbers are unique |
| Tenants.CheckMobileUnique | models/property_tenant.py:133-142 | fails, with its message, exactly when another tenant has the same non-empty mobile |
| Tenants.CheckMobileUniqueSpec | models/property_tenant.py:133-142 | the check passes for every tenant exactly when non-empty mobiles are unique |
| Tenants.AgreementCount | models/property_tenant.py:97 | a tenant's agreement count never exceeds the agreements examined |
| Tenants.AgreementCountIsAgreementIds | models/property_tenant.py:97 | `total_agreements_count` is the number of agreements whose tenant is this tenant |
| Tenants.AgreementStats | models/property_tenant.py:94-98 | the active count is at most the total, and is 0 exactly when none of the tenant's agreements is active |
| Tenants.ActiveCountZeroSpec | models/property_tenant.py:94-98 | `active_agreements_count` is 0 exactly when the tenant has no active agreement, and is at most the total count |
| Tenants.LastPaymentDate | models/property_tenant.py:100-104 | none exactly when the tenant has no collection, otherwise the latest date among its collections, whatever their status |
| Tenants.DisplayName | models/property_tenant.py:239-244 | the display name is the name, then " (", the mobile, and a closing ")" as its last character, and nothing more |
| Tenants.Apply | models/property_tenant.py:202 | the tenant write keeps the contact link and the creation day |
| Tenants.SyncVals | models/property_tenant.py:206-212 | the contact values are exactly the written name, the written mobile (as phone) and the written email |
| Tenants.SyncEffect | models/property_tenant.py:200-215 | after a write, through the related fields of lines 17-19 and the sync, the contact's mobile and email are the written ones, its phone the written mobile (the sync overrides the related phone) or else the written phone, its name the written name; a write of none of these leaves the contact unchanged |
| Tenants.SyncAgrees | models/property_tenant.py:200-215 | after a write a linked tenant, through the related fields of lines 17-19, shows its contact's mobile, phone and email; a written mobile becomes both its mobile and its phone; a written name is the name of both |
| Tenants.TenantRegistry.Write | models/property_tenant.py:200-217 | the tenant takes the written values; with a contact, the contact gets the values of the related fields (lines 17-19) and then the sync values, and every tenant of that contact reads mobile, phone and email back from it; without one, no contact changes; linked tenants keep agreeing with their contacts |
| Tenants.TenantRegistry.SetStatus | models/property_tenant.py:144-151 | activate, deactivate and blacklist change only the status and leave every contact alone |
| Agreements.AgreementName | models/property_agreement.py:121-127 | the name is "AGR/", the tenant name, "/", the room name, "/" and the start date as `%Y%m%d`, each at its position, and nothing more |
| Agreements.CheckDates | models/property_agreement.py:163-168 | fails, with its message, exactly when the end date is not after the start date |
| Agreements.CheckRoomAvailability | models/property_agreement.py:170-184 | fails, with its message, exactly when another draft or active agreement on the same room contains the new start or the new end |
| Agreements.OverlapsSpec | models/property_agreement.py:175-182 | for proper intervals the coded test is interval intersection except when the new interval strictly contains the existing one |
| Agreements.ContainmentNotFlagged | models/property_agreement.py:175-182 | a new agreement for days 5 to 30 passes both checks against a draft agreement for days 10 to 20 on the same room, although they share days |
| Agreements.AllChecksPassImpliesDisjoint | models/property_agreement.py:163-184 | were both checks to hold for every record, no two draft/active agreements on one room could share a day |
| Agreements.RenewalDefaults | models/property_agreement.py:234-248 | the renewal keeps tenant, room, rent and deposit, starts the day after the old end and ends 365 days after it |
| Agreements.RenewalIsValid | models/property_agreement.py:234-248 | the renewal of a valid agreement passes the date check and does not overlap the agreement it renews, in either direction |
| Agreements.DurationMonthsSpec | models/property_agreement.py:129-136 | `duration_months` is the integer nearest to days/30, the even one on a tie, and the only integer that near |
| Agreements.DaysRemaining | models/property_agreement.py:138-146 | 0 unless the agreement is active, and then the days from today to the end date |
| Agreements.AgreementLastPayment | models/property_agreement.py:148-152 | none exactly when the agreement has no collection, otherwise the latest date among its collections |
| Agreements.ExpiringSpec | models/property_agreement.py:263-270 | the cron selects each agreement once, listed by id, exactly when it is active and ends within 30 days of today or earlier |
| Agreements.AgreementTable.Create | models/property_agreement.py:163-184 | the agreement is saved exactly when both constraints pass on the table that includes it; once saved, no record holding its room contains its start or end |
| Agreements.AgreementTable.Activate | models/property_agreement.py:198-213 | the room becomes occupied with this tenant and agreement, the tenant becomes active in this room, the agreement becomes active, nothing else changes; no availability check is made |
| Agreements.AgreementTable.Terminate | models/property_agreement.py:218-232 | the room is vacated with both links cleared, the tenant loses its room but keeps its status, the agreement is terminated, nothing else changes |
| Agreements.ActivateThenTerminate | models/property_agreement.py:198-232 | activating and then terminating leaves the room vacated, the tenant active without a room, and the agreement terminated |
| AgreementOrder.InsertId | models/property_agreement.py:10 | inserting an id into a search order adds exactly that id |
| AgreementOrder.InsertIdOrdered | models/property_agreement.py:10 | inserting a new id into a `start_date desc` order keeps it duplicate-free and latest start first |
| AgreementOrder.ByStartDate | models/property_agreement.py:10 | the ids of the table, each once, latest start first |
| AgreementOrder.SearchOrderExists | models/property_agreement.py:10 | every agreement table has an order a search may return |
| Invoices.LineAmounts | models/property_invoice.py:259-264 | a line's subtotal and total both equal unit price times quantity; nothing else changes |
| Invoices.NewLine | models/property_invoice.py:116-128 | a new line keeps its description, quantity and price, and its subtotal and total are price times quantity |
| Invoices.PaymentStateOf | models/property_invoice.py:92-100 | not paid exactly when nothing is paid; paid exactly when something is paid and it covers the total; partial otherwise; never in payment or reversed |
| Invoices.Recomputed | models/property_invoice.py:80-100 | after the computes, untaxed and total are the sum of line subtotals, tax is 0, residual is total minus paid, the payment state follows; nothing else changes |
| Invoices.PostedTotalUpdate | models/property_invoice.py:314 | changing one payment moves an invoice's posted sum by exactly the difference of that payment's contributions |
| Invoices.SettleSpec | models/property_invoice.py:308-330 | after a payment post the invoice is consistent with the new sum; once something is paid, the state and the payment state agree on "paid"; a cancel sets the same amounts and keeps the state |
| Invoices.SettleAsWritten | models/property_invoice.py:80 | as written, a payment post leaves the residual untouched |
| Invoices.StaleResidual | models/property_invoice.py:80-90 | posting 400 on a posted invoice of 1000 leaves 1000 as the residual, so the invoice no longer agrees with its payments; the corrected post does |
| Invoices.PostThenCancel | models/property_invoice.py:308-330 | posting then cancelling a draft payment restores paid, residual and payment state of a consistent invoice, but keeps the state the post set |
| Invoices.PostThenCancelKeepsState | models/property_invoice.py:318-330 | a post makes the sample invoice partial, and the cancel leaves it partial with nothing paid |
| Invoices.DueTerms | models/property_invoice.py:113 | `payment_terms or 30` is never 0 and is the agreement's terms when those are set |
| Invoices.OnchangeAgreement | models/property_invoice.py:109-130 | with an agreement, the due date becomes date plus the terms; the lines become one rent line, one deposit line, or none; the amounts follow; it fails only when the due date would fall before year 1 |
| Invoices.RegisteredCollection | models/property_invoice.py:364-377 | the wizard's collection is collected, carries the amount, and copies tenant, room, agreement, period and invoice number from the invoice |
| Invoices.RunDateOf | models/property_invoice.py:215-220 | the run date's 1st of the month and last day enclose today |
| Invoices.BillingPeriod | models/property_invoice.py:215-233 | the period runs from the 1st to the last day of today's month (December included), and the line is labelled with that month's name and year |
| Invoices.MonthlyInvoice | models/property_invoice.py:203-242 | the invoice is numbered from the sequence; dated today, due after the terms; one line of quantity 1 at the rent; consistent with nothing paid; posted exactly when auto-post is set; it blocks a second invoice for the month |
| Invoices.SweepFailureSticks | models/property_invoice.py:198-201 | once an invoice creation fails, the whole run fails |
| Invoices.SweepNext | models/property_invoice.py:198-214 | one more agreement leaves the run unchanged when it is not eligible or already invoiced for the month, and otherwise appends its invoice or fails |
| Invoices.SweepExtends | models/property_invoice.py:198-201 | a run only appends invoices, one sequence number each |
| Invoices.SweepCovers | models/property_invoice.py:198-214 | after a run, every active monthly agreement visited whose invoice day is today has a non-cancelled rent invoice dated in the month |
| Invoices.SweepCoversAll | models/property_invoice.py:190-214 | a run over the whole search leaves every such agreement of the table invoiced for the month |
| Invoices.SweepCreatesOnlyMissing | models/property_invoice.py:198-214 | each created invoice is for an eligible agreement of the search that had no invoice for the month; over a `start_date desc` search they are for distinct agreements, in order of descending start date |
| Invoices.SweepNoop | models/property_invoice.py:205-214 | with every eligible agreement already invoiced for the month, a run changes nothing |
| Invoices.SweepIdempotent | models/property_invoice.py:205-214 | a second run on the same day creates nothing |
| Invoices.InvoiceLedger.Create | models/property_invoice.py:74-78 | a number is drawn from the sequence exactly when the name is missing or "New"; each line's subtotal and total become price times quantity (the line compute of lines 259-264), and the invoice amounts follow from them; consistency is kept |
| Invoices.InvoiceLedger.ComputeAmounts | models/property_invoice.py:80-90 | the loop sets the invoice to its recomputed amounts and changes nothing else |
| Invoices.InvoiceLedger.WriteLines | models/property_invoice.py:80-90 | the written lines get their amounts, the invoice amounts follow, and consistency is kept |
| Invoices.InvoiceLedger.Post | models/property_invoice.py:132-136 | fails with its message and no change exactly when there are no lines; otherwise only the state becomes posted |
| Invoices.InvoiceLedger.Cancel | models/property_invoice.py:138-140 | only the state becomes cancelled |
| Invoices.InvoiceLedger.ResetToDraft | models/property_invoice.py:142-144 | only the state becomes draft |
| Invoices.InvoiceLedger.CreatePayment | models/property_invoice.py:302-306 | a payment is appended, numbered from the sequence when its name is missing or "New"; consistency is kept |
| Invoices.InvoiceLedger.PostPayment | models/property_invoice.py:308-321 | the payment is posted; its invoice's paid amount becomes the sum of all its posted payments and its state paid or partial; with the corrected residual (see Findings), consistency is kept |
| Invoices.InvoiceLedger.CancelPayment | models/property_invoice.py:323-330 | the payment is cancelled and the paid amount recomputed from the remaining posted payments, with the corrected residual (see Findings); the invoice state is not touched |
| Invoices.InvoiceLedger.CreateMonthlyInvoices | models/property_agreement.py:10 | the cron run on today, over the agreements in the `start_date desc` order the search returns, yields exactly the sweep specification's result, or no change when a creation fails |
| Invoices.InvoiceLedger.RunSweep | models/property_invoice.py:198-242 | the loop over the agreements in search order equals the sweep specification; it works on a copy that is written back only when every creation succeeds |
| Invoices.InvoiceLedger.RegisterPayment | models/property_invoice.py:351-379 | a posted payment and a collected collection are created and the invoice settled with the corrected residual (see Findings), adding the amount to what is paid; a non-positive amount fails and undoes everything |
| Dues.ComputeStatus | models/property_due_tracker.py:67-78 | paid iff paid >= due; otherwise partially paid iff paid > 0; otherwise overdue iff the due date is past; otherwise pending; never waived |
| Dues.OverdueIsPermanent | models/property_due_tracker.py:67-78 | with the amounts unchanged, a due that is overdue stays overdue on every later day |
| Dues.Outstanding | models/property_due_tracker.py:80-83 | outstanding plus paid is the amount due, so it is negative on overpayment |
| Dues.OutstandingMatchesStatus | models/property_due_tracker.py:67-83 | the computed status is paid exactly when nothing is outstanding, and partially paid never leaves the outstanding at the full amount |
| Dues.DaysOverdue | models/property_due_tracker.py:85-92 | never negative; positive exactly when the due date is past and the status is not paid, and then the days since the due date |
| Dues.DueName | models/property_due_tracker.py:59-65 | the name is the titled due type, " - ", the tenant name, " - " and the ISO due date, each at its position, and nothing more |
| Dues.DueNameDeterminesType | models/property_due_tracker.py:59-65 | two equal due names have the same due type |
| Dues.Reminded | models/property_due_tracker.py:94-99 | a reminder adds exactly one to the count and records today, and changes nothing else |
| Dues.MarkedPaid | models/property_due_tracker.py:109-113 | marking as paid sets paid to the amount due and the status to paid, and changes nothing else |
| Dues.MarkPaidSettles | models/property_due_tracker.py:109-113 | a due marked paid has nothing outstanding, no days overdue, and the status rule agrees that it is paid |
| Dues.WaivedDue | models/property_due_tracker.py:115-116 | waiving changes only the status, to waived |
| Dues.WaiveKeepsFigures | models/property_due_tracker.py:115-116 | waiving an unpaid due keeps its outstanding amount and its days overdue |
| Dues.DueMonthOf | models/property_due_tracker.py:128 | the month of today starts on the 1st, encloses today, and has that month's length |
| Dues.Target | models/property_due_tracker.py:128 | the target exists exactly when the payment day is a day of the month, and is that day of the month |
| Dues.TargetIsReplaceDay | models/property_due_tracker.py:128 | the target is `today.replace(day=payment_day)`, failing when Python's does |
| Dues.RentDue | models/property_due_tracker.py:132-139 | the created due is a rent due for the agreement on the date, at the rent, with nothing paid, no reminder, and the status rule's status |
| Dues.DueSweepFailsIff | models/property_due_tracker.py:118-139 | the sweep fails exactly when some active agreement visited has a payment day that is not a day of this month; over the whole search, exactly when some active agreement of the table has one |
| Dues.DueSweepExtends | models/property_due_tracker.py:118-139 | the sweep only appends dues |
| Dues.DueSweepCovers | models/property_due_tracker.py:118-139 | after the sweep every active agreement visited, whatever its frequency, has a rent due on its target date |
| Dues.DueSweepCoversAll | models/property_due_tracker.py:118-139 | a sweep over the whole search leaves every active agreement of the table with its rent due |
| Dues.DueSweepCreatesOnlyMissing | models/property_due_tracker.py:125-139 | each created due is the rent due of an active agreement of the search that had none on that exact date; over a `start_date desc` search they are for distinct agreements, in order of descending start date |
| Dues.DueSweepNoop | models/property_due_tracker.py:125-131 | with every active agreement's due already present, the sweep changes nothing |
| Dues.DueSweepIdempotent | models/property_due_tracker.py:118-139 | re-running the sweep creates nothing |
| Dues.DueTable.SendReminder | models/property_due_tracker.py:94-99 | only the due's reminder count and last reminder date change, as `Reminded` states |
| Dues.DueTable.MarkPaid | models/property_due_tracker.py:109-113 | only the marked due changes; nothing is outstanding on it and its status is paid |
| Dues.DueTable.Waive | models/property_due_tracker.py:115-116 | only the due's status changes, to waived |
| Dues.DueTable.CreateMonthlyDues | models/property_due_tracker.py:118-139 | the cron run on today, over the agreements in the `start_date desc` order the search returns, yields exactly the sweep specification on today's month, or no change when a `replace` fails |
| Dues.DueTable.RunDues | models/property_due_tracker.py:123-139 | the loop over the agreements in search order equals the sweep specification and undoes itself on failure |
| TenantExits.ExitName | models/property_tenant_exit.py:53-59 | the name is "EXIT/", the tenant name, "/" and the exit date as `%Y%m%d`, each at its position, and nothing more |
| TenantExits.FinalSettlement | models/property_tenant_exit.py:61-64 | settlement plus pending dues plus damages equals the refund |
| TenantExits.SettlementDeductions | models/property_tenant_exit.py:61-64 | nothing owed pays out the whole refund; each unit of dues or damages lowers the settlement by one; non-negative deductions never raise it above the refund |
| TenantExits.TerminatedLeavesOthers | models/property_tenant_exit.py:72-74 | after one agreement is terminated, the tenant still has an active agreement exactly when another one was active |
| TenantExits.ArchivedExit | models/property_tenant_exit.py:76-77 | archiving changes only the status, to archived |
| TenantExits.ExitTable.CompleteExit | models/property_tenant_exit.py:66-74 | the exit is completed, its agreement terminated with the room vacated and free and the tenant's room cleared, and the tenant made inactive exactly when no other agreement of it was active |
| TenantExits.ExitTable.Archive | models/property_tenant_exit.py:76-77 | only the exit's status becomes archived |
| Dashboard.Window | models/property_dashboard.py:41-45 | a window never holds more collections than there are |
| Dashboard.WindowMembers | models/property_dashboard.py:41-45 | a window holds exactly the non-cancelled collections dated inside it |
| Dashboard.WindowSplit | models/property_dashboard.py:40-47 | a window cut at a day splits, in count and in money, into the windows on either side |
| Dashboard.NestedWindows | models/property_dashboard.py:40-65 | a window that starts later holds no more collections and, amounts being positive, no more money |
| Dashboard.SumCollections | models/property_dashboard.py:21-26 | the sum and count over a search are the window's total and size |
| Dashboard.NewTenants | models/property_dashboard.py:29-33 | the new-tenant count never exceeds the tenants |
| Dashboard.NewTenantsNested | models/property_dashboard.py:51-72 | a window that starts later counts no more new tenants |
| Dashboard.CountNewTenants | models/property_dashboard.py:29-33 | the loop counts the tenants created within the window |
| Dashboard.ActiveTenants | models/property_dashboard.py:96 | the active count never exceeds the tenants and is 0 exactly when no tenant is active |
| Dashboard.CountActiveTenants | models/property_dashboard.py:96 | the loop counts the active tenants |
| Dashboard.PaidExpenses | models/property_dashboard.py:74-78 | the search holds no more expenses than there are |
| Dashboard.PaidExpensesMembers | models/property_dashboard.py:74-78 | `month_expenses` sums exactly the paid expenses dated in the month window |
| Dashboard.SumPaidExpenses | models/property_dashboard.py:74-79 | the loop sums the paid expenses of the window |
| Dashboard.OccupancyPercent | models/property_dashboard.py:91-94 | the rate is a percentage in [0, 100], 100 exactly when there are rooms and all are occupied, 0 exactly when there is no room or none is occupied |
| Dashboard.VacancyFigures | models/property_dashboard.py:36-37 | rooms in status vacant never exceed total minus occupied, and equal it exactly when every room is vacant or occupied |
| Dashboard.OrderedGlobal | models/property_dashboard.py:101 | a list ordered latest first pair by pair is ordered for every pair |
| Dashboard.InsertBy | models/property_dashboard.py:101 | inserting into a list adds exactly that element |
| Dashboard.InsertByOrdered | models/property_dashboard.py:101 | inserting into a latest-first list keeps it latest first |
| Dashboard.SortBy | models/property_dashboard.py:101 | the sort is a permutation of the records |
| Dashboard.SortByOrdered | models/property_dashboard.py:101 | the sort puts the records latest first |
| Dashboard.Limit | models/property_dashboard.py:101 | `limit=5` keeps the first min(n, 5) entries |
| Dashboard.LimitKeepsLatest | models/property_dashboard.py:101 | from a latest-first list, every kept entry is at least as late as every entry left out |
| Dashboard.LatestFirst | models/property_dashboard.py:99-101 | the first five of the sort are in order and each is at least as late as every entry left out |
| Dashboard.NotCancelled | models/property_dashboard.py:99-100 | the search holds no more collections than there are |
| Dashboard.NotCancelledMembers | models/property_dashboard.py:99-100 | the search holds exactly the non-cancelled collections |
| Dashboard.PermutationMembers | models/property_dashboard.py:101 | sorting keeps the same members |
| Dashboard.PrefixMembers | models/property_dashboard.py:101 | the limited list holds only members of the sorted one |
| Dashboard.RecentCollections | models/property_dashboard.py:99-101 | at most five collections, all of them existing and non-cancelled |
| Dashboard.RecentTenants | models/property_dashboard.py:108 | at most five tenants, all of them existing |
| Dashboard.RecentCollectionsSpec | models/property_dashboard.py:99-101 | the recent collections are the first min(n, 5) of the non-cancelled ones sorted latest first, in date order, none earlier than any left out |
| Dashboard.RecentCollectionsEmpty | models/property_dashboard.py:99-106 | the recent list is empty exactly when every collection is cancelled |
| Dashboard.RecentTenantsSpec | models/property_dashboard.py:108 | the recent tenants are the first min(n, 5) sorted latest created first, none created earlier than any left out |
| Dashboard.CollectionLine | models/property_dashboard.py:105 | each collection line starts with the bullet "• " and ends with a newline |
| Dashboard.TenantLine | models/property_dashboard.py:111 | each tenant line starts with the bullet "• " and ends with a newline |
| Dashboard.CollectionLines | models/property_dashboard.py:103-105 | one bulleted line per recent collection, so at most five |
| Dashboard.TenantLines | models/property_dashboard.py:109-111 | one bulleted line per recent tenant, so at most five |
| Dashboard.TextOrFallback | models/property_dashboard.py:106 | `text or fallback` gives the fallback exactly when there are no lines, and bulleted text otherwise |
| Dashboard.ConcatStartsWithFirst | models/property_dashboard.py:104-105 | concatenated bulleted lines start with a bullet |
| Dashboard.Render | models/property_dashboard.py:103-106 | the loop `text += line`, followed by `text or fallback`, gives the concatenation or the fallback |
| Dashboard.RecentCollectionsTextSpec | models/property_dashboard.py:99-106 | `recent_collections` is "No recent collections" exactly when every collection is cancelled |
| Dashboard.RecentTenantsTextSpec | models/property_dashboard.py:108-112 | `recent_tenants` is "No recent tenants" exactly when there are no tenants |
| Dashboard.PeriodNesting | models/property_dashboard.py:21-72 | a period starting later shows no more collections, money or new tenants; today's figures are part of the week's and month's |
| Dashboard.Period | models/property_dashboard.py:21-33 | the loops fill a period's sum, count and new tenants |
| Dashboard.RoomStatsSpec | models/property_dashboard.py:84-94 | vacant is total minus occupied and at least the rooms in status vacant; the rate is in [0, 100] and 100 exactly when there are rooms and all are occupied |
| Dashboard.CountRooms | models/property_dashboard.py:84-94 | the loop over the rooms fills the room figures |
| Dashboard.WindowStarts | models/property_dashboard.py:40-58 | the week starts on the Monday within six days before today; the month starts on the 1st, no later than today |
| Dashboard.DefaultGet | models/property_dashboard.py:12-114 | `default_get` on today yields the figures of the week from Monday and the month from the 1st, with only unarchived properties counted |
| Dashboard.Fill | models/property_dashboard.py:17-112 | filling the figures one search at a time yields the specified figures, `total_properties` counting the unarchived properties |

## Left out

- HTTP controllers (`controllers/`), `__manifest__.py` and the declaration-only models (deposit, staff salary, landlord payment, bank transfer, room type) are not part of this model. They are routing, packaging or plain field lists.
- ORM machinery is not modelled as a mechanism: searches, recompute triggering, onchange hooks. Each rule is an explicit function or method step instead.
- A single-record action on a recordset (`self.write` on several records) is modelled on one record id.
- Framework side effects are left out: mail tracking, `activity_schedule`, reports, emails and returned action dictionaries.
  - The two reminder crons return the agreements they would notify about.
  - `action_send_reminder` keeps only its counter and date.
- Tenant `create` is left out. It creates `res.partner` records and its line at models/property_tenant.py:192 runs outside the `if`.
- The first `write` of models/property_tenant.py:106-120 is left out: Python replaces it with the second definition.
- The agreement's `pending_amount` is left out: it uses float division of days by 30. The room's `_compute_financial_stats` is left out too: it is not a core operation and sets `pending_amount` to 0.
- `_create_monthly_invoice_reference` is left out: it builds a string that `action_activate` discards.
- These onchanges are left out because they are not core operations: the agreement's room and tenant onchanges, the collection's room and tenant onchanges, and the invoice's `_onchange_room_id`.
- `action_register_payment` on the invoice (opening the wizard) and the view actions return UI dictionaries only.
- `name_get` of the property is left out: display only.
- Floating point and Monetary rounding are left out: money is an exact real, and the dashboard's float printing is the parameter `floatText`.
- Calendar.Date: only the lower end of Python's date range is modelled. The model does not raise OverflowError past 9999-12-31. That affects the December roll-over in year 9999, `timedelta` additions near that end (due dates, renewals) and `today + 30`.
- Sequence numbers are modelled as a counter that always has a next value. The `or '/'` and `or _('New')` fallbacks for a missing sequence are not modelled.
- Transactions and concurrent cron runs are left out. The one transactional fact kept is that an exception in a sweep or in the payment wizard undoes the whole call.
- Dashboard: `create_date` is reduced to its day, so time-of-day within a day is not modelled. Among entries with the same date or creation day, the recent lists use an insertion order, not the database's tie order.
- Dues.DaysOverdue: the stored field depends only on `due_date`, so the framework does not refresh it as days pass. The model states the value a recompute on `today` gives. The same holds for the stored due status.
- Rooms.RoomName, Flats.FlatName, Agreements.AgreementName, Collections.CollectionName, TenantExits.ExitName, Dues.DueName: the tenant, room, flat, property and date a name is built from are required fields. The model therefore leaves out the "New ..." fallback for records that lack them, and keeps only `RoomName`'s and `FlatName`'s fallback on an empty number.
- Agreements.AgreementName, Collections.CollectionName, Expenses.BillReference, TenantExits.ExitName, Dues.DueName: the contracts place every part of the name, but the date part is `Calendar.YmdText` or `Calendar.IsoText` of the date, whose digits are not spelled out further. Years past 9999 would give more digits; see the line on `Calendar.Date` above.
- Tenants.TenantRegistry.SetStatus is stated for the three status actions only. Its `requires` names exactly those statuses.
- Tenants.TenantRegistry.Write: a write on `res.partner` itself, which the related fields would carry into the tenant, is not an operation here. The registry's `Valid` states the agreement such a recompute keeps. For a tenant without a contact the written mobile, phone and email are kept on the tenant.
- Collections.RemindedSpec, Collections.DailyReminders, Agreements.ExpiringSpec: the notified agreements are listed by id. The source visits them in `start_date desc` order; the order of the reminders is not modelled, as it changes no record.
- Invoices.InvoiceLedger.CreateMonthlyInvoices, Dues.DueTable.CreateMonthlyDues: the search order is a parameter, any `start_date desc` order of all ids (`AgreementOrder.StartDateOrder`). Agreements with the same start date come in the order the database chooses, which the model leaves open.

## Findings

| source | as written | input that shows it | evidently intended | confidence | as-written member | corrected member |
|---|---|---|---|---|---|---|
| models/property_invoice.py:80 | `amount_residual` is computed in `_compute_amounts`, which is triggered only by `invoice_line_ids.price_total`; the payment actions write `amount_paid`, so the residual keeps its old value | a posted invoice of 1000 with nothing paid; post a payment of 400: paid becomes 400, the residual stays 1000 | the residual follows every change of `amount_paid` (`amount_residual == amount_total - amount_paid`) | high, not executed | Invoices.SettleAsWritten, Invoices.StaleResidual | Invoices.Settle, Invoices.Resettle, Invoices.SettleSpec, Invoices.InvoiceLedger.PostPayment, Invoices.InvoiceLedger.CancelPayment, Invoices.InvoiceLedger.RegisterPayment |
