/**
 * The receipt blueprint (`/receipts`, `/receipts/<id>`, `/receipts/<id>/approve`,
 * `/receipts/stats`, `/clients`, `/company`, `/lists`) as operations on the
 * receipt, client, company and list tables, with the user table reachable
 * for the serial side effect of creating a receipt. Each handler is one
 * atomic step: it either commits all its changes or leaves every table as
 * it was.
 */
module ReceiptRoutes {
  import opened Base
  import opened ReceiptModel
  import opened ReceiptQueries
  import opened ReferenceData
  import UserRoutes

  /** The name `GET /company` gives the company row it creates. */
  const DefaultCompanyName: string := "شركة الأسمدة المتحدة السعودية"

  function ReceiptIds(rows: seq<Receipt>): seq<nat> {
    IdsOf(rows, (x: Receipt) => x.id)
  }

  /** The primary key and the unique `number` column. */
  predicate ReceiptsConsistent(rows: seq<Receipt>) {
    forall i, j | 0 <= i < j < |rows| :: rows[i].id != rows[j].id && rows[i].number != rows[j].number
  }

  predicate HasReceipt(rows: seq<Receipt>, id: nat) {
    exists i | 0 <= i < |rows| :: rows[i].id == id
  }

  predicate NumberTaken(rows: seq<Receipt>, number: int) {
    exists i | 0 <= i < |rows| :: rows[i].number == number
  }

  function ClientIds(rows: seq<Client>): seq<nat> {
    IdsOf(rows, (x: Client) => x.id)
  }

  /** The primary key and the unique `client_id` column. */
  predicate ClientsConsistent(rows: seq<Client>) {
    forall i, j | 0 <= i < j < |rows| :: rows[i].id != rows[j].id && rows[i].clientId != rows[j].clientId
  }

  predicate ClientIdTaken(rows: seq<Client>, clientId: string) {
    exists i | 0 <= i < |rows| :: rows[i].clientId == clientId
  }

  /** The required keys of `POST /receipts`, in the order they are checked. */
  function ReceiptChecks(d: ReceiptData): seq<(string, bool)> {
    [ ("number", NumberSupplied(d.number)), ("clientName", TextSupplied(d.clientName)),
      ("amount", NumberSupplied(d.amount)), ("method", TextSupplied(d.paymentMethod)),
      ("bank", TextSupplied(d.bank)), ("reason", TextSupplied(d.reason)),
      ("branch", TextSupplied(d.branch)), ("createdBy", TextSupplied(d.createdBy)) ]
  }

  /** Every required key is truthy: so a receipt numbered 0 or of amount 0 is refused. */
  predicate ReceiptSupplied(d: ReceiptData): (b: bool)
    ensures b ==> Complete(d)
  {
    var checks := ReceiptChecks(d);
    assert (forall i | 0 <= i < |checks| :: checks[i].1) ==>
      checks[0].1 && checks[1].1 && checks[2].1 && checks[3].1 && checks[4].1 && checks[5].1 && checks[6].1 && checks[7].1;
    forall i | 0 <= i < |checks| :: checks[i].1
  }

  /** The body of `PUT /receipts/<id>`. The handler reads no other key, so `number`, `createdBy` and `date` never change. */
  datatype ReceiptPatch = ReceiptPatch(
    clientId: Field<string>,
    clientName: Field<string>,
    amount: Field<int>,
    bankAmount: Field<int>,
    tafqeet: Field<string>,
    paymentMethod: Field<string>,
    bank: Field<string>,
    reason: Field<string>,
    branch: Field<string>,
    invoices: Field<seq<Invoice>>,
    attachment: Field<string>,
    approved: Field<bool>,
    approvedBy: Field<string>)

  /** A patch that sets no NOT NULL column to `null`. */
  predicate PatchKeepsRequired(p: ReceiptPatch) {
    && !p.clientName.Null? && !p.amount.Null? && !p.paymentMethod.Null?
    && !p.bank.Null? && !p.reason.Null? && !p.branch.Null?
  }

  /** `if data['approved'] and 'approvedBy' in data`: the approver and the approval time are written. */
  predicate StampsApproval(p: ReceiptPatch) {
    p.approved == Given(true) && p.approvedBy.Sent()
  }

  /** The row after `update_receipt` assigns every key that is present and stamps `updated_at`. */
  function ReceiptPatched(r: Receipt, p: ReceiptPatch, now: Time): (v: Receipt)
    requires PatchKeepsRequired(p)
    ensures v.id == r.id && v.number == r.number && v.createdBy == r.createdBy && v.date == r.date
    ensures v.createdAt == r.createdAt && v.updatedAt == now
    ensures p.approved.Absent? ==> v.approved == r.approved
    ensures p.approved.Sent() ==> v.approved == p.approved.Get()
    ensures StampsApproval(p) ==> v.approvedBy == p.approvedBy.Get() && v.approvedAt == Some(now)
    ensures !StampsApproval(p) ==> v.approvedBy == r.approvedBy && v.approvedAt == r.approvedAt
    ensures p.clientId.Absent? ==> v.clientId == r.clientId
    ensures p.clientId.Sent() ==> v.clientId == p.clientId.Get()
    ensures p.clientName.Absent? ==> v.clientName == r.clientName
    ensures p.clientName.Given? ==> v.clientName == p.clientName.value
    ensures p.amount.Absent? ==> v.amount == r.amount
    ensures p.amount.Given? ==> v.amount == p.amount.value
    ensures p.bankAmount.Absent? ==> v.bankAmount == r.bankAmount
    ensures p.bankAmount.Sent() ==> v.bankAmount == p.bankAmount.Get()
    ensures p.tafqeet.Absent? ==> v.tafqeet == r.tafqeet
    ensures p.tafqeet.Sent() ==> v.tafqeet == p.tafqeet.Get()
    ensures p.paymentMethod.Absent? ==> v.paymentMethod == r.paymentMethod
    ensures p.paymentMethod.Given? ==> v.paymentMethod == p.paymentMethod.value
    ensures p.bank.Absent? ==> v.bank == r.bank
    ensures p.bank.Given? ==> v.bank == p.bank.value
    ensures p.reason.Absent? ==> v.reason == r.reason
    ensures p.reason.Given? ==> v.reason == p.reason.value
    ensures p.branch.Absent? ==> v.branch == r.branch
    ensures p.branch.Given? ==> v.branch == p.branch.value
    ensures p.attachment.Absent? ==> v.attachment == r.attachment
    ensures p.attachment.Sent() ==> v.attachment == p.attachment.Get()
    ensures p.invoices.Absent? ==> v.invoices == r.invoices
    ensures p.invoices.Sent() ==> DecodeInvoices(v.invoices) == if p.invoices.Given? then InvoiceList(p.invoices.value) else NullValue
  {
    var stamp := StampsApproval(p);
    r.(clientId := OverwriteNullable(r.clientId, p.clientId),
       clientName := Overwrite(r.clientName, p.clientName),
       amount := Overwrite(r.amount, p.amount),
       bankAmount := OverwriteNullable(r.bankAmount, p.bankAmount),
       tafqeet := OverwriteNullable(r.tafqeet, p.tafqeet),
       paymentMethod := Overwrite(r.paymentMethod, p.paymentMethod),
       bank := Overwrite(r.bank, p.bank),
       reason := Overwrite(r.reason, p.reason),
       branch := Overwrite(r.branch, p.branch),
       invoices := if p.invoices.Sent() then Json(p.invoices.Get()) else r.invoices,
       attachment := OverwriteNullable(r.attachment, p.attachment),
       approved := OverwriteNullable(r.approved, p.approved),
       approvedBy := if stamp then p.approvedBy.Get() else r.approvedBy,
       approvedAt := if stamp then Some(now) else r.approvedAt,
       updatedAt := now)
  }

  /**
   * Withdrawing an approval (`approved: false`) keeps the approver and the
   * approval time of the earlier approval.
   */
  lemma RevokeKeepsApprover(r: Receipt, p: ReceiptPatch, now: Time)
    requires PatchKeepsRequired(p) && p.approved == Given(false)
    ensures var v := ReceiptPatched(r, p, now);
      v.approved == Some(false) && v.approvedBy == r.approvedBy && v.approvedAt == r.approvedAt
  {
  }

  /** Sending the same patch twice at the same time leaves the row as the first time. */
  lemma ReceiptPatchedIdempotent(r: Receipt, p: ReceiptPatch, now: Time)
    requires PatchKeepsRequired(p)
    ensures ReceiptPatched(ReceiptPatched(r, p, now), p, now) == ReceiptPatched(r, p, now)
  {
  }

  /** The body of `POST /receipts/<id>/approve`. */
  datatype Approval = Approval(approvedBy: Field<string>, bankAmount: Field<int>)

  /**
   * The row after `approve_receipt`: approved, by whoever the body names (or
   * nobody), now, with `bank_amount` replaced only when sent. The
   * `updated_at` column is refreshed by its `onupdate` when anything changed.
   */
  function Approved(r: Receipt, a: Approval, now: Time): (v: Receipt)
    ensures v.approved == Some(true) && v.approvedBy == a.approvedBy.Get() && v.approvedAt == Some(now)
    ensures a.bankAmount.Absent? ==> v.bankAmount == r.bankAmount
    ensures a.bankAmount.Sent() ==> v.bankAmount == a.bankAmount.Get()
    ensures v.(approved := r.approved, approvedBy := r.approvedBy, approvedAt := r.approvedAt,
               bankAmount := r.bankAmount, updatedAt := r.updatedAt) == r
    ensures v.updatedAt == r.updatedAt || v.updatedAt == now
  {
    var w := r.(approved := Some(true), approvedBy := a.approvedBy.Get(), approvedAt := Some(now),
                bankAmount := OverwriteNullable(r.bankAmount, a.bankAmount));
    if w == r then r else w.(updatedAt := now)
  }

  /** A second approval overwrites the first one's approver and time. */
  lemma LastApproverWins(r: Receipt, first: Approval, t1: Time, second: Approval, t2: Time)
    ensures var v := Approved(Approved(r, first, t1), second, t2);
      v.approved == Some(true) && v.approvedBy == second.approvedBy.Get() && v.approvedAt == Some(t2)
  {
  }

  /** Approving again with the same body at the same time changes nothing. */
  lemma ApprovedIdempotent(r: Receipt, a: Approval, now: Time)
    ensures Approved(Approved(r, a, now), a, now) == Approved(r, a, now)
  {
  }

  /** The tables of the receipt blueprint and their handlers. */
  class ReceiptStore {
    var receipts: seq<Receipt>
    var clients: seq<Client>
    var company: Option<Company>
    var lists: seq<ListRow>
    const directory: UserRoutes.UserDirectory

    predicate Valid()
      reads this, directory
    {
      && directory.Valid()
      && ReceiptsConsistent(receipts)
      && ClientsConsistent(clients)
      && UniqueListIds(lists)
    }

    constructor(directory: UserRoutes.UserDirectory)
      requires directory.Valid()
      ensures Valid() && this.directory == directory
      ensures receipts == [] && clients == [] && company == None && lists == []
    {
      this.directory := directory;
      receipts, clients, company, lists := [], [], None, [];
    }

    /** `GET /receipts`: filter, order by date then number (both descending), cut out one page. */
    method ListReceipts(q: ReceiptQuery, page: nat, perPage: nat) returns (res: ReceiptPage)
      requires page >= 1 && perPage >= 1
      ensures res.total == |Selection(receipts, q)|
      ensures res.pages == PageCount(res.total, perPage) && res.page == page && res.perPage == perPage
      ensures res.items == Window(SortNewestFirst(Selection(receipts, q)), page, perPage)
      ensures NewestFirst(res.items)
      ensures forall r | r in res.items :: r in receipts && Matches(r, q)
    {
      var query := BuildQuery(receipts, q);
      var ordered := SortNewestFirst(query);
      var items := Window(ordered, page, perPage);
      WindowNewestFirst(ordered, page, perPage);
      WindowWithin(ordered, page, perPage);
      forall r | r in items ensures r in receipts && Matches(r, q) {
        assert r in multiset(ordered);
      }
      res := ReceiptPage(items, |query|, PageCount(|query|, perPage), page, perPage);
    }

    /** `POST /receipts`. */
    method CreateReceipt(d: ReceiptData, today: Day, now: Time) returns (res: Result<Receipt>)
      requires Valid()
      modifies this, directory
      ensures Valid()
      ensures clients == old(clients) && company == old(company) && lists == old(lists)
      ensures res.Err? ==> receipts == old(receipts) && directory.users == old(directory.users)
      ensures (res.Err? && res.error.MissingField?) <==> !ReceiptSupplied(d)
      ensures res.Err? && res.error.MissingField? ==> FirstFailing(ReceiptChecks(d), res.error.name)
      ensures ReceiptSupplied(d) ==> (res.Err? <==> NumberTaken(old(receipts), d.number.value))
      ensures res.Err? && !res.error.MissingField? ==> res.error == Duplicate("Receipt number")
      ensures res.Ok? ==>
        && res.value == FromDict(d, NextId(ReceiptIds(old(receipts))), today, now)
        && receipts == old(receipts) + [res.value]
        && |directory.users| == |old(directory.users)|
        && forall k | 0 <= k < |directory.users| ::
             directory.users[k] ==
               if old(directory.users)[k].username == d.createdBy.value
               then UserRoutes.WithSerial(old(directory.users)[k], d.number.value, now)
               else old(directory.users)[k]
    {
      var missing := FirstMissing(ReceiptChecks(d));
      if missing.Some? {
        return Err(MissingField(missing.value));
      }
      var checks := ReceiptChecks(d);
      assert checks[0].1 && checks[1].1 && checks[2].1 && checks[3].1;
      assert checks[4].1 && checks[5].1 && checks[6].1 && checks[7].1;
      var number := d.number.value;
      var existing := FirstIndex(receipts, (r: Receipt) => r.number == number);
      if existing.Some? {
        return Err(Duplicate("Receipt number"));
      }
      var ids := ReceiptIds(receipts);
      var receipt := FromDict(d, NextId(ids), today, now);
      forall i | 0 <= i < |receipts| ensures receipts[i].id < receipt.id {
        assert ids[i] == receipts[i].id;
      }
      receipts := receipts + [receipt];
      directory.RecordSerial(d.createdBy.value, number, now);
      res := Ok(receipt);
    }

    /** `GET /receipts/<id>`. */
    method GetReceipt(id: nat) returns (res: Result<Receipt>)
      ensures res.Ok? <==> HasReceipt(receipts, id)
      ensures res.Ok? ==> res.value in receipts && res.value.id == id
      ensures res.Err? ==> res.error == NotFound
    {
      var found := FirstIndex(receipts, (r: Receipt) => r.id == id);
      if found.None? {
        return Err(NotFound);
      }
      res := Ok(receipts[found.value]);
    }

    /** `PUT /receipts/<id>`. */
    method UpdateReceipt(id: nat, p: ReceiptPatch, now: Time) returns (res: Result<Receipt>)
      requires Valid()
      modifies this
      ensures Valid()
      ensures clients == old(clients) && company == old(company) && lists == old(lists)
      ensures res.Err? ==> receipts == old(receipts)
      ensures res.Err? <==> !HasReceipt(old(receipts), id) || !PatchKeepsRequired(p)
      ensures res.Err? ==> res.error == if HasReceipt(old(receipts), id) then StorageFailure else NotFound
      ensures res.Ok? ==>
        && |receipts| == |old(receipts)|
        && (forall k | 0 <= k < |receipts| ::
              receipts[k] == if old(receipts)[k].id == id then ReceiptPatched(old(receipts)[k], p, now) else old(receipts)[k])
        && res.value in receipts && res.value.id == id
    {
      var found := FirstIndex(receipts, (r: Receipt) => r.id == id);
      if found.None? {
        return Err(NotFound);
      }
      if !PatchKeepsRequired(p) {
        // a NOT NULL column set to None: the commit fails and is rolled back
        return Err(StorageFailure);
      }
      var i := found.value;
      var v := ReceiptPatched(receipts[i], p, now);
      ReplacedStaysConsistent(receipts, i, v);
      receipts := receipts[i := v];
      res := Ok(v);
    }

    /** `POST /receipts/<id>/approve`. */
    method ApproveReceipt(id: nat, a: Approval, now: Time) returns (res: Result<Receipt>)
      requires Valid()
      modifies this
      ensures Valid()
      ensures clients == old(clients) && company == old(company) && lists == old(lists)
      ensures res.Err? <==> !HasReceipt(old(receipts), id)
      ensures res.Err? ==> res.error == NotFound && receipts == old(receipts)
      ensures res.Ok? ==>
        && |receipts| == |old(receipts)|
        && (forall k | 0 <= k < |receipts| ::
              receipts[k] == if old(receipts)[k].id == id then Approved(old(receipts)[k], a, now) else old(receipts)[k])
        && res.value in receipts && res.value.id == id && res.value.approved == Some(true)
    {
      var found := FirstIndex(receipts, (r: Receipt) => r.id == id);
      if found.None? {
        return Err(NotFound);
      }
      var i := found.value;
      var v := Approved(receipts[i], a, now);
      ReplacedStaysConsistent(receipts, i, v);
      receipts := receipts[i := v];
      res := Ok(v);
    }

    /** `DELETE /receipts/<id>`: removes that receipt and no other. */
    method DeleteReceipt(id: nat) returns (res: Outcome)
      requires Valid()
      modifies this
      ensures Valid()
      ensures clients == old(clients) && company == old(company) && lists == old(lists)
      ensures res.Failed? <==> !HasReceipt(old(receipts), id)
      ensures res.Failed? ==> res.error == NotFound && receipts == old(receipts)
      ensures res.Done? ==>
        && |receipts| == |old(receipts)| - 1
        && forall r :: r in receipts <==> r in old(receipts) && r.id != id
    {
      var found := FirstIndex(receipts, (r: Receipt) => r.id == id);
      if found.None? {
        return Failed(NotFound);
      }
      var i := found.value;
      RemovedStaysConsistent(receipts, i);
      receipts := receipts[..i] + receipts[i + 1..];
      res := Done;
    }

    /**
     * `GET /receipts/stats`: the counts and the bank-amount sum cover the
     * receipts the two filters select; the branch and method breakdowns
     * cover every receipt.
     */
    method Stats(branch: Option<string>, createdBy: Option<string>, today: Day) returns (s: ReceiptStats)
      ensures var population := Selection(receipts, StatsQuery(branch, createdBy));
        && s.totalReceipts == |population|
        && s.totalAmount == BankTotal(population)
        && s.todayReceipts == |OnDay(population, today)|
        && s.pendingApproval == |Pending(population)|
      ensures s.branchStats == GroupBy(receipts, ByBranch)
      ensures s.methodStats == GroupBy(receipts, ByMethod)
    {
      var query := BuildStatsQuery(receipts, branch, createdBy);
      s := ReceiptStats(|query|, BankTotal(query), |OnDay(query, today)|, |Pending(query)|,
                 GroupBy(receipts, ByBranch), GroupBy(receipts, ByMethod));
    }

    /** `GET /clients`: every client, in table order. */
    method ListClients() returns (r: seq<Client>)
      ensures r == clients
    {
      r := clients;
    }

    /** `POST /clients`. */
    method CreateClient(d: ClientData, now: Time) returns (res: Result<Client>)
      requires Valid()
      modifies this
      ensures Valid()
      ensures receipts == old(receipts) && company == old(company) && lists == old(lists)
      ensures res.Err? ==> clients == old(clients)
      ensures d.clientId.Absent? ==> res == Err(MissingKey("clientId"))
      ensures d.clientId.Given? && ClientIdTaken(old(clients), d.clientId.value) ==> res == Err(Duplicate("Client ID"))
      ensures d.name.Absent? && !(d.clientId.Given? && ClientIdTaken(old(clients), d.clientId.value)) && d.clientId.Sent() ==>
        res == Err(MissingKey("name"))
      ensures d.clientId.Null? && d.name.Sent() ==> res == Err(StorageFailure)
      ensures d.clientId.Given? && !ClientIdTaken(old(clients), d.clientId.value) && d.name.Null? ==>
        res == Err(StorageFailure)
      ensures res.Ok? <==> d.clientId.Given? && !ClientIdTaken(old(clients), d.clientId.value) && d.name.Given?
      ensures res.Ok? ==>
        && res.value == Client(NextId(ClientIds(old(clients))), d.clientId.value, d.name.value,
                               d.phone.Get(), d.email.Get(), d.address.Get(), d.branch.Get(), now, now)
        && clients == old(clients) + [res.value]
    {
      if d.clientId.Absent? {
        return Err(MissingKey("clientId"));
      }
      if d.clientId.Given? {
        var clientId := d.clientId.value;
        var existing := FirstIndex(clients, (c: Client) => c.clientId == clientId);
        if existing.Some? {
          return Err(Duplicate("Client ID"));
        }
      }
      if d.name.Absent? {
        return Err(MissingKey("name"));
      }
      if d.clientId.Null? || d.name.Null? {
        // `client_id` and `name` are NOT NULL: the commit fails and is rolled back
        return Err(StorageFailure);
      }
      var ids := ClientIds(clients);
      var client := Client(NextId(ids), d.clientId.value, d.name.value,
                           d.phone.Get(), d.email.Get(), d.address.Get(), d.branch.Get(), now, now);
      forall i | 0 <= i < |clients| ensures clients[i].id < client.id && clients[i].clientId != client.clientId {
        assert ids[i] == clients[i].id;
      }
      clients := clients + [client];
      res := Ok(client);
    }

    /** `GET /clients/<client_id>`. */
    method GetClient(clientId: string) returns (res: Result<Client>)
      ensures res.Ok? <==> ClientIdTaken(clients, clientId)
      ensures res.Ok? ==> res.value in clients && res.value.clientId == clientId
      ensures res.Err? ==> res.error == NotFound
    {
      var found := FirstIndex(clients, (c: Client) => c.clientId == clientId);
      if found.None? {
        return Err(NotFound);
      }
      res := Ok(clients[found.value]);
    }

    /** `GET /company`: the company row, created with the default name when there is none. */
    method GetCompany(now: Time) returns (c: Company)
      requires Valid()
      modifies this
      ensures Valid()
      ensures receipts == old(receipts) && clients == old(clients) && lists == old(lists)
      ensures old(company).Some? ==> company == old(company) && c == old(company).value
      ensures old(company).None? ==> c == Company(DefaultCompanyName, None, None, None, now) && company == Some(c)
    {
      if company.None? {
        company := Some(Company(DefaultCompanyName, None, None, None, now));
      }
      c := company.value;
    }

    /**
     * `PUT /company`: a partial merge into the company row, which is created
     * without a name when there is none; the commit fails when the row ends
     * up without a name.
     */
    method UpdateCompany(d: CompanyData, now: Time) returns (res: Result<Company>)
      requires Valid()
      modifies this
      ensures Valid()
      ensures receipts == old(receipts) && clients == old(clients) && lists == old(lists)
      ensures res.Err? <==> d.name.Null? || (d.name.Absent? && old(company).None?)
      ensures res.Err? ==> res.error == StorageFailure && company == old(company)
      ensures res.Ok? ==>
        && company == Some(res.value)
        && res.value.updatedAt == now
        && res.value.name == (if d.name.Given? then d.name.value else old(company).value.name)
        && (d.logo.Sent() ==> res.value.logo == d.logo.Get())
        && (d.header.Sent() ==> res.value.header == d.header.Get())
        && (d.footer.Sent() ==> res.value.footer == d.footer.Get())
        && (old(company).Some? && d.logo.Absent? ==> res.value.logo == old(company).value.logo)
        && (old(company).Some? && d.header.Absent? ==> res.value.header == old(company).value.header)
        && (old(company).Some? && d.footer.Absent? ==> res.value.footer == old(company).value.footer)
        && (old(company).None? ==>
              && (d.logo.Absent? ==> res.value.logo.None?)
              && (d.header.Absent? ==> res.value.header.None?)
              && (d.footer.Absent? ==> res.value.footer.None?))
    {
      var name: Option<string>, logo, header, footer;
      if company.Some? {
        var c := company.value;
        name, logo, header, footer := Some(c.name), c.logo, c.header, c.footer;
      } else {
        name, logo, header, footer := None, None, None, None;
      }
      name := OverwriteNullable(name, d.name);
      logo := OverwriteNullable(logo, d.logo);
      header := OverwriteNullable(header, d.header);
      footer := OverwriteNullable(footer, d.footer);
      if name.None? {
        // `name` is NOT NULL: the commit fails and is rolled back
        return Err(StorageFailure);
      }
      var c := Company(name.value, logo, header, footer, now);
      company := Some(c);
      res := Ok(c);
    }

    /** The loop of `GET /lists` over the stored rows: `lists[list_type] = items`, row by row. */
    method ReadLists() returns (v: Lists)
      ensures v == View(lists)
      ensures v == map[] <==> lists == []
    {
      v := map[];
      for i := 0 to |lists|
        invariant v == View(lists[..i])
      {
        assert lists[..i + 1][..i] == lists[..i];
        v := v[lists[i].listType := lists[i].items];
      }
      assert lists[..|lists|] == lists;
      if lists != [] {
        assert lists[0].listType in v;
      }
    }

    /** The seeding loop of `GET /lists`: one row per default list, added to the empty table in order. */
    method SeedLists(now: Time)
      requires Valid() && lists == []
      modifies this
      ensures Valid()
      ensures receipts == old(receipts) && clients == old(clients) && company == old(company)
      ensures lists == Seeded(DefaultLists, now)
    {
      for k := 0 to |DefaultLists|
        invariant receipts == old(receipts) && clients == old(clients) && company == old(company)
        invariant lists == Seeded(DefaultLists[..k], now)
        invariant UniqueListIds(lists)
      {
        var ids := ListIds(lists);
        var id := NextId(ids);
        assert id == k + 1 by {
          if k > 0 {
            assert ids[k - 1] == k;
          }
        }
        lists := lists + [ListRow(id, DefaultLists[k].0, DefaultLists[k].1, now)];
        assert DefaultLists[..k + 1] == DefaultLists[..k] + [DefaultLists[k]];
      }
      assert DefaultLists[..|DefaultLists|] == DefaultLists;
    }

    /**
     * `GET /lists`: the stored lists, later rows of a type winning; an empty
     * table is first seeded with the four default lists, which are reported.
     */
    method GetLists(now: Time) returns (v: Lists)
      requires Valid()
      modifies this
      ensures Valid()
      ensures receipts == old(receipts) && clients == old(clients) && company == old(company)
      ensures old(lists) != [] ==> lists == old(lists) && v == View(lists)
      ensures old(lists) == [] ==>
        && lists == Seeded(DefaultLists, now)
        && v == ToLists(DefaultLists)
        && View(lists) == v
        && DistinctTypes(lists)
    {
      v := ReadLists();
      if v == map[] {
        SeedLists(now);
        SeededView(DefaultLists, now);
        v := ToLists(DefaultLists);
      }
    }

    /**
     * `PUT /lists`: each entry of the body, in order, replaces the items of
     * the first row of its type or inserts a row for a new type.
     */
    method UpdateLists(entries: seq<(string, seq<string>)>, now: Time)
      requires Valid()
      modifies this
      ensures Valid()
      ensures receipts == old(receipts) && clients == old(clients) && company == old(company)
      ensures lists == UpsertAll(old(lists), entries, now)
      ensures DistinctTypes(old(lists)) ==>
        DistinctTypes(lists) && View(lists) == View(old(lists)) + ToLists(entries)
    {
      for k := 0 to |entries|
        invariant receipts == old(receipts) && clients == old(clients) && company == old(company)
        invariant lists == UpsertAll(old(lists), entries[..k], now)
        invariant UniqueListIds(lists)
      {
        var (listType, items) := entries[k];
        assert entries[..k + 1][..k] == entries[..k];
        UpsertIds(lists, listType, items, now);
        var found := FirstIndex(lists, OfType(listType));
        if found.Some? {
          var i := found.value;
          lists := lists[i := lists[i].(items := items, updatedAt := now)];
        } else {
          lists := lists + [ListRow(NextId(ListIds(lists)), listType, items, now)];
        }
      }
      assert entries[..|entries|] == entries;
      if DistinctTypes(old(lists)) {
        UpsertAllView(old(lists), entries, now);
      }
    }
  }

  /** Replacing a row by one with the same id and number keeps the constraints. */
  lemma ReplacedStaysConsistent(rows: seq<Receipt>, i: nat, v: Receipt)
    requires ReceiptsConsistent(rows) && i < |rows|
    requires v.id == rows[i].id && v.number == rows[i].number
    ensures ReceiptsConsistent(rows[i := v])
  {
    var t := rows[i := v];
    forall a, b | 0 <= a < b < |t| ensures t[a].id != t[b].id && t[a].number != t[b].number {
      assert t[a].id == rows[a].id && t[a].number == rows[a].number;
      assert t[b].id == rows[b].id && t[b].number == rows[b].number;
    }
  }

  /** Removing the row at `i` keeps the constraints, and with unique ids removes exactly the row with its id. */
  lemma RemovedStaysConsistent(rows: seq<Receipt>, i: nat)
    requires ReceiptsConsistent(rows) && i < |rows|
    ensures ReceiptsConsistent(rows[..i] + rows[i + 1..])
    ensures forall r :: r in rows[..i] + rows[i + 1..] <==> r in rows && r.id != rows[i].id
  {
    var t := rows[..i] + rows[i + 1..];
    assert forall k | 0 <= k < |t| :: t[k] == if k < i then rows[k] else rows[k + 1];
    forall r ensures r in t <==> r in rows && r.id != rows[i].id {
      if r in rows && r.id != rows[i].id {
        var k :| 0 <= k < |rows| && rows[k] == r;
        assert k != i;
        if k < i {
          assert t[k] == r;
        } else {
          assert t[k - 1] == r;
        }
      }
    }
  }
}
