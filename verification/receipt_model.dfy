/**
 * The receipt-side entities (`Receipt`, `Client`, `Company`, `SystemLists`),
 * how a receipt is built from a request body (`Receipt.from_dict`) and how it
 * is written back out (`Receipt.to_dict`).
 */
module ReceiptModel {
  import opened Base

  /**
   * The `invoices` text column: the JSON text `json.dumps` wrote, of a list or
   * of `null`, or `NoText` for a NULL or empty column.
   */
  datatype InvoicesColumn = NoText | Json(list: Option<seq<Invoice>>)

  /**
   * What `to_dict` reads back from the column: `json.loads(text) if text else []`.
   * A list written by `json.dumps` reads back as that list; only a stored JSON
   * `null` reads as null.
   */
  function DecodeInvoices(c: InvoicesColumn): (v: Value)
    ensures c.Json? && c.list.Some? ==> v == InvoiceList(c.list.value)
    ensures v == NullValue <==> c == Json(None)
    ensures c == NoText ==> v == InvoiceList([])
  {
    match c
    case NoText => InvoiceList([])
    case Json(None) => NullValue
    case Json(Some(l)) => InvoiceList(l)
  }

  /**
   * A stored receipt row. Columns declared `nullable=False` are plain values;
   * the `method` column is called `paymentMethod` (`method` is a Dafny keyword).
   */
  datatype Receipt = Receipt(
    id: nat,
    number: int,
    clientId: Option<string>,
    clientName: string,
    amount: int,
    bankAmount: Option<int>,
    tafqeet: Option<string>,
    paymentMethod: string,
    bank: string,
    reason: string,
    branch: string,
    invoices: InvoicesColumn,
    createdBy: string,
    date: Day,
    attachment: Option<string>,
    approved: Option<bool>,
    approvedBy: Option<string>,
    approvedAt: Option<Time>,
    createdAt: Time,
    updatedAt: Time)

  /** The body of `POST /receipts`. `date` and `approvedAt` arrive already parsed. */
  datatype ReceiptData = ReceiptData(
    number: Field<int>,
    clientId: Field<string>,
    clientName: Field<string>,
    amount: Field<int>,
    bankAmount: Field<int>,
    tafqeet: Field<string>,
    paymentMethod: Field<string>,
    bank: Field<string>,
    reason: Field<string>,
    branch: Field<string>,
    invoices: Field<seq<Invoice>>,
    createdBy: Field<string>,
    date: Field<Day>,
    attachment: Field<string>,
    approved: Field<bool>,
    approvedBy: Field<string>,
    approvedAt: Field<Time>)

  /** The keys `from_dict` reads with `data.get` and whose columns are `nullable=False`. */
  predicate Complete(d: ReceiptData) {
    && d.number.Given? && d.clientName.Given? && d.amount.Given? && d.paymentMethod.Given?
    && d.bank.Given? && d.reason.Given? && d.branch.Given? && d.createdBy.Given?
  }

  /**
   * `Receipt.from_dict` followed by the INSERT: `id` is the id the storage
   * engine assigns, `today` is `datetime.now().date()` and `now` fills the
   * `created_at`/`updated_at` column defaults.
   */
  function FromDict(d: ReceiptData, id: nat, today: Day, now: Time): (r: Receipt)
    requires Complete(d)
    ensures r.id == id && r.createdAt == now && r.updatedAt == now
    ensures && r.number == d.number.value && r.clientName == d.clientName.value && r.amount == d.amount.value
            && r.paymentMethod == d.paymentMethod.value && r.bank == d.bank.value && r.reason == d.reason.value
            && r.branch == d.branch.value && r.createdBy == d.createdBy.value
    ensures r.clientId == d.clientId.Get() && r.tafqeet == d.tafqeet.Get() && r.attachment == d.attachment.Get()
    ensures r.approvedBy == d.approvedBy.Get()
    ensures r.approved.Some?
  {
    Receipt(
      id := id,
      number := d.number.value,
      clientId := d.clientId.Get(),
      clientName := d.clientName.value,
      amount := d.amount.value,
      bankAmount := d.bankAmount.GetOr(Some(d.amount.value)),
      tafqeet := d.tafqeet.Get(),
      paymentMethod := d.paymentMethod.value,
      bank := d.bank.value,
      reason := d.reason.value,
      branch := d.branch.value,
      invoices := Json(d.invoices.GetOr(Some([]))),
      createdBy := d.createdBy.value,
      date := if d.date.Given? then d.date.value else today,
      attachment := d.attachment.Get(),
      // `data.get('approved', False)`; a None is left out of the INSERT, so the column default False applies
      approved := Some(InsertDefault(d.approved.GetOr(Some(false)), false)),
      approvedBy := d.approvedBy.Get(),
      approvedAt := if d.approvedAt.Given? then Some(d.approvedAt.value) else None,
      createdAt := now,
      updatedAt := now)
  }

  /** The keys of `Receipt.to_dict`. */
  const ReceiptKeys: set<string> := {
    "id", "number", "clientId", "clientName", "amount", "bankAmount", "tafqeet", "method", "bank",
    "reason", "branch", "invoices", "createdBy", "date", "attachment", "approved", "approvedBy",
    "approvedAt", "createdAt", "updatedAt"
  }

  /** The value `Receipt.to_dict` gives the key `key`. */
  function JsonField(r: Receipt, key: string): Value {
    if key == "id" then IntValue(r.id)
    else if key == "number" then IntValue(r.number)
    else if key == "clientId" then TextOrNull(r.clientId)
    else if key == "clientName" then TextValue(r.clientName)
    else if key == "amount" then IntValue(r.amount)
    else if key == "bankAmount" then IntOrNull(r.bankAmount)
    else if key == "tafqeet" then TextOrNull(r.tafqeet)
    else if key == "method" then TextValue(r.paymentMethod)
    else if key == "bank" then TextValue(r.bank)
    else if key == "reason" then TextValue(r.reason)
    else if key == "branch" then TextValue(r.branch)
    else if key == "invoices" then DecodeInvoices(r.invoices)
    else if key == "createdBy" then TextValue(r.createdBy)
    else if key == "date" then DayValue(r.date)
    else if key == "attachment" then TextOrNull(r.attachment)
    else if key == "approved" then BoolOrNull(r.approved)
    else if key == "approvedBy" then TextOrNull(r.approvedBy)
    else if key == "approvedAt" then TimeOrNull(r.approvedAt)
    else if key == "createdAt" then TimeValue(r.createdAt)
    else TimeValue(r.updatedAt)
  }

  /** `Receipt.to_dict`: every column under its camelCase key. */
  function ToDict(r: Receipt): (m: map<string, Value>)
    ensures m.Keys == ReceiptKeys
  {
    map key | key in ReceiptKeys :: JsonField(r, key)
  }

  /** Two rows that serialize alike agree on every key. */
  lemma SameKey(a: Receipt, b: Receipt, key: string)
    requires key in ReceiptKeys
    requires ToDict(a) == ToDict(b)
    ensures JsonField(a, key) == JsonField(b, key)
  {
    assert ToDict(a)[key] == ToDict(b)[key];
  }

  lemma SameHead(a: Receipt, b: Receipt)
    requires JsonField(a, "id") == JsonField(b, "id") && JsonField(a, "number") == JsonField(b, "number")
    requires JsonField(a, "clientId") == JsonField(b, "clientId")
    requires JsonField(a, "clientName") == JsonField(b, "clientName") && JsonField(a, "amount") == JsonField(b, "amount")
    ensures a.id == b.id && a.number == b.number && a.clientId == b.clientId
    ensures a.clientName == b.clientName && a.amount == b.amount
  {
  }

  lemma SamePayment(a: Receipt, b: Receipt)
    requires JsonField(a, "bankAmount") == JsonField(b, "bankAmount") && JsonField(a, "tafqeet") == JsonField(b, "tafqeet")
    requires JsonField(a, "method") == JsonField(b, "method")
    requires JsonField(a, "bank") == JsonField(b, "bank") && JsonField(a, "reason") == JsonField(b, "reason")
    ensures a.bankAmount == b.bankAmount && a.tafqeet == b.tafqeet && a.paymentMethod == b.paymentMethod
    ensures a.bank == b.bank && a.reason == b.reason
  {
  }

  lemma SameIssue(a: Receipt, b: Receipt)
    requires a.invoices.Json? && b.invoices.Json?
    requires JsonField(a, "branch") == JsonField(b, "branch") && JsonField(a, "invoices") == JsonField(b, "invoices")
    requires JsonField(a, "createdBy") == JsonField(b, "createdBy")
    requires JsonField(a, "date") == JsonField(b, "date") && JsonField(a, "attachment") == JsonField(b, "attachment")
    ensures a.branch == b.branch && a.invoices == b.invoices && a.createdBy == b.createdBy
    ensures a.date == b.date && a.attachment == b.attachment
  {
  }

  lemma SameApproval(a: Receipt, b: Receipt)
    requires JsonField(a, "approved") == JsonField(b, "approved") && JsonField(a, "approvedBy") == JsonField(b, "approvedBy")
    requires JsonField(a, "approvedAt") == JsonField(b, "approvedAt")
    requires JsonField(a, "createdAt") == JsonField(b, "createdAt") && JsonField(a, "updatedAt") == JsonField(b, "updatedAt")
    ensures a.approved == b.approved && a.approvedBy == b.approvedBy && a.approvedAt == b.approvedAt
    ensures a.createdAt == b.createdAt && a.updatedAt == b.updatedAt
  {
  }

  /**
   * `to_dict` loses nothing: two rows written by `from_dict` (or by an update)
   * that serialize alike are the same row. The only column it normalizes is a
   * NULL `invoices`, which reads as `[]` like a stored empty list.
   */
  lemma ToDictInjective(a: Receipt, b: Receipt)
    requires a.invoices.Json? && b.invoices.Json?
    requires ToDict(a) == ToDict(b)
    ensures a == b
  {
    forall key | key in ReceiptKeys
      ensures JsonField(a, key) == JsonField(b, key)
    {
      SameKey(a, b, key);
    }
    SameHead(a, b);
    SamePayment(a, b);
    SameIssue(a, b);
    SameApproval(a, b);
  }

  /** A NULL or empty `invoices` column and a stored empty list both read back as `[]`. */
  lemma EmptyInvoicesReadAsEmptyList(r: Receipt)
    requires r.invoices == NoText || r.invoices == Json(Some([]))
    ensures ToDict(r)["invoices"] == InvoiceList([])
  {
  }

  /**
   * What a freshly created receipt reports for the amounts, the invoices and
   * the date: `bankAmount` falls back to `amount` only when the key is missing
   * (an explicit null stays null), `invoices` to `[]` (an explicit null reads
   * back as null), `date` to today; values sent come back as sent.
   */
  lemma FromDictDefaults(d: ReceiptData, id: nat, today: Day, now: Time)
    requires Complete(d)
    ensures var m := ToDict(FromDict(d, id, today, now));
      && (d.bankAmount.Absent? ==> m["bankAmount"] == m["amount"] == IntValue(d.amount.value))
      && (d.bankAmount.Null? ==> m["bankAmount"] == NullValue)
      && (d.bankAmount.Given? ==> m["bankAmount"] == IntValue(d.bankAmount.value))
      && (d.invoices.Absent? ==> m["invoices"] == InvoiceList([]))
      && (d.invoices.Null? ==> m["invoices"] == NullValue)
      && (d.invoices.Given? ==> m["invoices"] == InvoiceList(d.invoices.value))
      && (!d.date.Given? ==> m["date"] == DayValue(today))
      && (d.date.Given? ==> m["date"] == DayValue(d.date.value))
  {
  }

  /**
   * What a freshly created receipt reports for the approval: `approved`
   * defaults to false; `approvedBy` and `approvedAt` come back as sent.
   */
  lemma FromDictApprovalDefaults(d: ReceiptData, id: nat, today: Day, now: Time)
    requires Complete(d)
    ensures var m := ToDict(FromDict(d, id, today, now));
      && (!d.approved.Given? ==> m["approved"] == BoolValue(false))
      && (d.approved.Given? ==> m["approved"] == BoolValue(d.approved.value))
      && m["approvedBy"] == TextOrNull(d.approvedBy.Get())
      && (!d.approvedAt.Given? ==> m["approvedAt"] == NullValue)
      && (d.approvedAt.Given? ==> m["approvedAt"] == TimeValue(d.approvedAt.value))
  {
    var r := FromDict(d, id, today, now);
    assert ToDict(r)["approved"] == BoolOrNull(r.approved);
    assert ToDict(r)["approvedBy"] == TextOrNull(r.approvedBy);
    assert ToDict(r)["approvedAt"] == TimeOrNull(r.approvedAt);
  }

  /**
   * `from_dict` copies `approved`, `approvedBy` and `approvedAt` from the body
   * independently: a receipt can be created unapproved yet carrying an
   * approver and an approval time.
   */
  lemma ApprovalFieldsIndependent(d: ReceiptData, id: nat, today: Day, now: Time)
    requires Complete(d)
    requires d.approved == Absent && d.approvedBy == Given("auditor") && d.approvedAt == Given(now)
    ensures var r := FromDict(d, id, today, now);
      r.approved == Some(false) && r.approvedBy == Some("auditor") && r.approvedAt == Some(now)
  {
  }

  /** A stored `Client` row; `client_id` is declared unique. */
  datatype Client = Client(
    id: nat,
    clientId: string,
    name: string,
    phone: Option<string>,
    email: Option<string>,
    address: Option<string>,
    branch: Option<string>,
    createdAt: Time,
    updatedAt: Time)

  /** The body of `POST /clients`. */
  datatype ClientData = ClientData(
    clientId: Field<string>,
    name: Field<string>,
    phone: Field<string>,
    email: Field<string>,
    address: Field<string>,
    branch: Field<string>)

  /** The `Company` letterhead row; the images are opaque encoded text. */
  datatype Company = Company(
    name: string,
    logo: Option<string>,
    header: Option<string>,
    footer: Option<string>,
    updatedAt: Time)

  /** The body of `PUT /company`. */
  datatype CompanyData = CompanyData(
    name: Field<string>,
    logo: Field<string>,
    header: Field<string>,
    footer: Field<string>)

  /** A stored `SystemLists` row. `list_type` is NOT declared unique. */
  datatype ListRow = ListRow(id: nat, listType: string, items: seq<string>, updatedAt: Time)
}
