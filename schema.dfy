/** The records of the property-management module, one datatype per model
    (`property.property`, `property.flat`, `property.room`, ...), holding the
    fields the bookkeeping rules read or write. A record is identified by its
    position in its table (the model's `id`); a Many2one field is that position,
    as an `Option` when the field is not required. Selection fields become
    enumerations whose constructors carry the selection keys' names. */
module Schema {
  import opened Common
  import opened Calendar

  // property.property

  datatype PropertyState = Draft | Active | Maintenance | Inactive

  datatype Property = Property(name: string, code: string, active: bool, state: PropertyState)

  // property.flat

  datatype Flat = Flat(flatNumber: string, floor: int, property: nat)

  // property.room.type (declaration only; read by the room's onchange)

  datatype RoomType = RoomType(
    name: string,
    code: string,
    defaultRent: Money,
    defaultDeposit: Money,
    hasPrivateBathroom: bool)

  // property.room

  datatype RoomStatus = Vacant | Occupied | Booked | Maintenance | NotAvailable

  datatype Room = Room(
    roomNumber: string,
    property: nat,
    flat: nat,
    roomType: nat,
    name: string,                      // stored computed name
    currentTenant: Option<nat>,
    currentAgreement: Option<nat>,
    rentAmount: Money,
    depositAmount: Money,
    status: RoomStatus,
    hasPrivateBathroom: bool)

  // res.partner (the contact every tenant is linked to; also the expense vendor)

  datatype Partner = Partner(name: string, mobile: string, phone: string, email: string)

  // property.tenant

  datatype TenantStatus = Prospect | Active | Inactive | Blacklisted

  datatype Tenant = Tenant(
    name: string,
    mobile: string,
    phone: string,
    email: string,
    idPassport: string,
    status: TenantStatus,
    partner: Option<nat>,
    currentRoom: Option<nat>,
    createDay: Date)                    // create_date, reduced to its day

  // property.agreement

  datatype PaymentMethod = Cash | BankTransfer | Cheque | Online | Card

  datatype Frequency = Daily | Weekly | Monthly | Quarterly | Yearly

  datatype AgreementState = Draft | Active | Expired | Terminated | Cancelled

  datatype Agreement = Agreement(
    tenant: nat,
    room: nat,
    startDate: Date,
    endDate: Date,
    rentAmount: Money,
    depositAmount: Money,
    tokenMoney: Money,
    extraCharges: Money,
    paymentMethod: PaymentMethod,
    paymentFrequency: Frequency,
    paymentDay: int,
    paymentTerms: int,
    autoGenerateInvoices: bool,
    autoPostInvoices: bool,
    invoiceDay: int,
    advanceInvoiceDays: int,
    state: AgreementState)

  // property.collection

  datatype CollectionType = Rent | Deposit | Token | Extra | Penalty | Maintenance | Utility | Other

  datatype CollectionStatus = Draft | Collected | Verified | Deposited | Cancelled

  datatype Collection = Collection(
    date: Date,
    amountCollected: Money,
    tenant: nat,
    room: nat,
    agreement: Option<nat>,
    paymentMethod: PaymentMethod,
    referenceNumber: string,
    collectionType: CollectionType,
    periodFrom: Option<Date>,
    periodTo: Option<Date>,
    status: CollectionStatus,
    verifiedBy: Option<nat>,
    verificationTime: Option<int>,     // a Datetime, as a timestamp
    receiptNumber: Reference,
    dueDate: Option<Date>,
    invoiceReference: Reference)

  // property.invoice, property.invoice.line, property.payment

  datatype InvoiceState = Draft | Posted | Paid | Partial | Cancelled

  datatype PaymentState = NotPaid | InPayment | Partial | Paid | Reversed

  datatype InvoiceType = Rent | Deposit | Maintenance | Utility | Penalty | Other

  datatype InvoiceLine = InvoiceLine(
    name: string,
    quantity: real,
    priceUnit: Money,
    priceSubtotal: Money,              // stored computed
    priceTotal: Money)                 // stored computed

  datatype Invoice = Invoice(
    name: Reference,
    date: Date,
    dueDate: Date,
    tenant: nat,
    room: nat,
    agreement: Option<nat>,
    lines: seq<InvoiceLine>,
    amountUntaxed: Money,              // stored computed
    amountTax: Money,                  // stored computed
    amountTotal: Money,                // stored computed
    amountPaid: Money,
    amountResidual: Money,             // stored computed
    state: InvoiceState,
    paymentState: PaymentState,        // stored computed
    invoiceType: InvoiceType,
    periodFrom: Option<Date>,
    periodTo: Option<Date>,
    notes: string)

  datatype PaymentRecordState = Draft | Posted | Reconciled | Cancelled

  datatype Payment = Payment(
    name: Reference,
    date: Date,
    amount: Money,
    invoice: nat,
    paymentMethod: PaymentMethod,
    reference: string,
    state: PaymentRecordState)

  // property.due.tracker

  datatype DueType = Rent | Deposit | Penalty | Utility | Maintenance | Other

  datatype DueStatus = Pending | Overdue | PartiallyPaid | Paid | Waived

  datatype Due = Due(
    tenant: nat,
    room: nat,
    agreement: Option<nat>,
    dueDate: Date,
    amountDue: Money,
    dueType: DueType,
    status: DueStatus,                 // stored computed, also written by actions
    amountPaid: Money,
    lastReminderDate: Option<Date>,
    reminderCount: int)

  // property.tenant.exit

  datatype ExitStatus = NoticeGiven | InProgress | Completed | Archived

  datatype TenantExit = TenantExit(
    tenant: nat,
    agreement: nat,
    exitDate: Date,
    depositRefund: Money,
    pendingDues: Money,
    damagesDeduction: Money,
    status: ExitStatus)

  // property.expense

  datatype ExpenseState = Draft | Submitted | Approved | Paid | Rejected

  datatype Expense = Expense(
    name: string,
    date: Date,
    amount: Money,
    property: Option<nat>,
    flat: Option<nat>,
    room: Option<nat>,
    vendor: Option<nat>,
    state: ExpenseState,
    approvedBy: Option<nat>,
    approvalTime: Option<int>,         // a Datetime, as a timestamp
    billReference: string)
}
