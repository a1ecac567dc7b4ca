# Receipt bookkeeping backend — a verified model

This project models the core of a small receipt (voucher) bookkeeping backend in Dafny. It covers:

- the receipt store, with creation, partial update, approval, deletion, the filtered, ordered and paged listing, and the statistics;
- the reference data: clients, the company letterhead and the reference lists;
- the user directory, with login, creation, partial update, soft delete and the per-user last serial number.

The database becomes in-memory tables: sequences of rows held in the fields of two classes, `UserRoutes.UserDirectory` and `ReceiptRoutes.ReceiptStore`. Each HTTP handler becomes one method. A handler either commits all of its changes or reports an error and leaves every table as it was.

Modules:

- `Base` (base.dfy) holds the shared vocabulary:
  - request-body keys as `Field<T> = Absent | Null | Given(v)`, which separates "key not sent", "sent as null" and "sent with a value";
  - the error kinds and the JSON values;
  - `Filter`, `FirstIndex` (a query's `.first()`), id assignment, substring search, and the loop over required keys.
- `ReceiptModel` and `UserModel` hold the entities, their column defaults, `Receipt.from_dict`, and the two `to_dict` mappings.
- `ReceiptQueries` holds the listing query built filter by filter, the order, the page window and the aggregates.
- `ReferenceData` holds the `system_lists` table: how its rows read as one list per type, the upsert, and the seed lists.
- `UserRoutes` and `ReceiptRoutes` hold the handlers.

Modelling conventions:

- Dates and clock readings are integers. The handlers receive "now" and "today" as parameters.
- Amounts are integers.
- A NOT NULL column given `null` makes the commit fail and roll back. The model reports this as `StorageFailure` and changes nothing.
- An INSERT leaves out attributes that are `None`, so the column default applies. This is why a `null` `lastSerial` on user creation still stores 1000. An UPDATE, by contrast, stores NULL.
- A new row's id is one more than the largest id in its table, or 1 in an empty table.

Three behaviours of the code that a reader might not expect:

- `from_dict` copies `approved`, `approvedBy` and `approvedAt` independently of each other, and withdrawing an approval keeps the approver. So a receipt can carry an approver while it is not approved (`ReceiptModel.ApprovalFieldsIndependent`, `ReceiptRoutes.RevokeKeepsApprover`).
- The by-branch and by-method breakdowns of the statistics group every receipt, not only the ones the branch and creator filters select (`ReceiptRoutes.ReceiptStore.Stats`).
- The `list_type` column is not unique, so a list type can have several rows.
  - The model does not assume one row per type.
  - `GET /lists` and `PUT /lists` are proved to keep the types distinct when they were distinct (`ReferenceData.UpsertAllView`).
  - The view lemmas are stated under that condition.
  - When a type does have two rows, `PUT /lists` writes the first of them while `GET /lists` reports the last, so the update is not visible (`ReferenceData.UpsertRepeatedType`).

## Model

| member | source | states |
|---|---|---|
| Base.Filter | src/routes/receipt.py:27-48 | a WHERE clause keeps exactly the rows that satisfy the condition, no more rows than the table, each as often as it occurs at most |
| Base.FilterMultiplicity | src/routes/receipt.py:207-210 | a WHERE clause keeps a row that satisfies it exactly as many times as the table holds it, and drops every other row, so a count over the result counts each matching row once |
| Base.FilterTwice | src/routes/receipt.py:27-48 | applying two filters one after the other selects what their conjunction selects |
| Base.FilterSame | src/routes/receipt.py:27-48 | conditions that agree on every row select the same rows |
| Base.FilterAll | src/routes/receipt.py:25 | a query with no filter returns the whole table |
| Base.TailMultiset | src/routes/receipt.py:51 | two orderings of the same rows with the same first row hold the same rows after it |
| Base.FirstMissing | src/routes/receipt.py:76-79 | the required-field loop returns the name of the first falsy key in checking order, and none exactly when every key is truthy |
| Base.FirstIndex | src/routes/user.py:17 | `.first()` returns the first row that matches, and nothing exactly when no row matches |
| Base.NextId | src/models/receipt.py:8 | a new primary key is one more than the largest id in the table (1 in an empty table), so it differs from every stored id |
| Base.Contains | src/routes/receipt.py:42-44 | the `%search%` pattern: an empty search text matches every text; a match is never longer than the text, and a match as long as the text is the text itself |
| Base.ContainsAt | src/routes/receipt.py:40-46 | the `%search%` pattern holds exactly when the search text occurs at some position |
| Base.NatText | src/routes/receipt.py:42 | the decimal text of a number is a non-empty run of digits that denotes exactly that number and has no leading zero (so a search for `05` cannot match 5) |
| Base.DecimalText | src/routes/receipt.py:42 | the text an integer column is matched as under `LIKE` starts with a minus sign exactly when the number is negative, and the rest is digits without a leading zero that denote the number's magnitude |
| ReceiptModel.ToDict | src/models/receipt.py:29-51 | the serialized receipt has exactly the twenty camelCase keys, with the payment method under `method` |
| ReceiptModel.FromDict | src/models/receipt.py:54-74 | a receipt built from a request body carries the given id and creation and update times; the eight required keys, `clientId`, `tafqeet`, `attachment` and `approvedBy` are stored as sent (a missing optional key as NULL); `approved` is never NULL |
| ReceiptModel.ToDictInjective | src/models/receipt.py:29-51 | `to_dict` loses nothing: rows with stored invoice text that serialize alike are equal |
| ReceiptModel.EmptyInvoicesReadAsEmptyList | src/models/receipt.py:42 | a NULL or empty invoices column and a stored empty list both read back as `[]` |
| ReceiptModel.FromDictDefaults | src/models/receipt.py:56-68 | after creation: bankAmount falls back to amount only when the key is missing and an explicit null stays null; invoices default to `[]`, an explicit null reads back as null, and a sent list comes back as sent; date defaults to today and a sent date comes back as sent |
| ReceiptModel.FromDictApprovalDefaults | src/models/receipt.py:70-73 | after creation: approved defaults to false and a sent flag comes back as sent; approvedBy comes back as sent or null; approvedAt is null unless given, and a given time comes back as sent |
| ReceiptModel.ApprovalFieldsIndependent | src/models/receipt.py:70-73 | a receipt can be created unapproved while carrying an approver and an approval time |
| UserModel.NewUser | src/models/user.py:15-17 | a new user is active, with lastSerial 1000 and storageUrl 'local' unless given, with the given id, credentials, role and branch, and created and updated now |
| UserModel.ToDict | src/models/user.py:24-36 | the serialized user has exactly the ten camelCase keys |
| UserModel.ToDictHidesOnlyPassword | src/models/user.py:24-36 | the password is never serialized, and two users serialize alike exactly when they differ at most in password |
| ReceiptQueries.SearchHit | src/routes/receipt.py:39-46 | the search matches a receipt exactly when the text occurs at some position of the number's decimal text, of the client id (when there is one) or of the client name |
| ReceiptQueries.Matches | src/routes/receipt.py:27-48 | a query with no parameters lists every receipt; a date range whose start is after its end lists none; a receipt listed under a chosen branch and method has that branch and method |
| ReceiptQueries.UptoNone | src/routes/receipt.py:25 | before any filter the query selects the whole table |
| ReceiptQueries.Narrow | src/routes/receipt.py:27-48 | adding the next filter when its parameter is given, or skipping it, yields the query with one more filter considered |
| ReceiptQueries.SkipInactive | src/routes/receipt.py:193-197 | filters whose parameters are not given change nothing |
| ReceiptQueries.UptoAll | src/routes/receipt.py:25-48 | the query with all eight filters considered selects exactly the receipts that satisfy every active filter |
| ReceiptQueries.AddFilter | src/routes/receipt.py:27-48 | one `if <parameter>: query = query.filter(...)` step advances the query by one filter |
| ReceiptQueries.BuildQuery | src/routes/receipt.py:25-48 | the listing query selects exactly the receipts matching branch, method, bank and reason (unless absent or 'الكل'), the inclusive date range, the search text and the creator |
| ReceiptQueries.Insert | src/routes/receipt.py:51 | inserting a receipt into a sequence adds exactly that receipt |
| ReceiptQueries.PrependNewest | src/routes/receipt.py:51 | a receipt that precedes every row of an ordered sequence can be put in front of it |
| ReceiptQueries.InsertNewestFirst | src/routes/receipt.py:51 | inserting into a sequence ordered by date then number, both descending, keeps it ordered |
| ReceiptQueries.SortNewestFirst | src/routes/receipt.py:51 | the result is ordered by date descending then number descending and is a permutation of the input |
| ReceiptQueries.SameHead | src/routes/receipt.py:51 | with distinct receipt numbers, two orderings of the same receipts start with the same receipt |
| ReceiptQueries.NewestFirstUnique | src/routes/receipt.py:51 | with distinct receipt numbers the order is total: only one arrangement of a set of receipts is ordered |
| ReceiptQueries.PageCount | src/routes/receipt.py:54-63 | the page count is the total divided by the page size, rounded up |
| ReceiptQueries.Window | src/routes/receipt.py:54-61 | page p holds up to perPage rows starting at row (p-1)·perPage, in order; a page past the end is empty |
| ReceiptQueries.WindowNewestFirst | src/routes/receipt.py:51-61 | a page of an ordered listing is ordered |
| ReceiptQueries.WindowWithin | src/routes/receipt.py:54-61 | every row of a page comes from the listing |
| ReceiptQueries.BankTotalNoAmounts | src/routes/receipt.py:200-203 | `SUM(bank_amount) or 0` is 0 when there are no rows or every bank amount is NULL |
| ReceiptQueries.BankTotalAppend | src/routes/receipt.py:200-203 | the sum over a table split in two is the sum of the two parts' sums |
| ReceiptQueries.Members | src/routes/receipt.py:213-224 | a group holds exactly the receipts of the table with that group's branch or method |
| ReceiptQueries.MembersMultiplicity | src/routes/receipt.py:213-224 | a group holds each receipt with its name as many times as the table does, and no other receipt, so its count is the number of such rows |
| ReceiptQueries.GroupBy | src/routes/receipt.py:213-224 | the breakdown has an entry for a name exactly when some receipt has that branch or method |
| ReceiptQueries.GroupByTotals | src/routes/receipt.py:213-231 | each entry of the breakdown holds the group's bank-amount sum (NULL as 0) and its size; a name with no entry has no receipts |
| ReceiptQueries.OnDay | src/routes/receipt.py:206-207 | the rows counted as today's are exactly the given rows (the receipts the statistics query selects) dated today, each as many times as it occurs |
| ReceiptQueries.Pending | src/routes/receipt.py:210 | the rows counted as pending are exactly the given rows (the receipts the statistics query selects) whose approved flag is false, each as many times as it occurs; a NULL flag is not pending |
| ReceiptQueries.BuildStatsQuery | src/routes/receipt.py:193-197 | the statistics query selects exactly the receipts matching the branch (unless absent or 'الكل') and the creator |
| ReceiptQueries.StatsQuery | src/routes/receipt.py:189-197 | the statistics filters are the listing's branch and creator filters, with the other six off |
| ReferenceData.ToLists | src/routes/receipt.py:358 | every key of a JSON object's entries is a key of the object |
| ReferenceData.ToListsKeys | src/routes/receipt.py:358 | the object has exactly the keys of its entries |
| ReferenceData.ToListsLast | src/routes/receipt.py:358 | a key holds the items of its last entry |
| ReferenceData.View | src/routes/receipt.py:327-331 | every stored list type appears in what `GET /lists` reports |
| ReferenceData.ViewKeys | src/routes/receipt.py:327-331 | `GET /lists` reports exactly the stored list types |
| ReferenceData.ViewLast | src/routes/receipt.py:327-331 | each type reports the items of its last row in table order |
| ReferenceData.ViewOfDistinct | src/routes/receipt.py:327-331 | with one row per type, each type reports its row's items |
| ReferenceData.Upsert | src/routes/receipt.py:359-365 | when the type has a row, the first row of that type takes the new items and time and every other row is unchanged; when it has none, one new row with the next id, the type and the items is appended |
| ReferenceData.UpsertIds | src/routes/receipt.py:359-365 | one upsert keeps list ids unique |
| ReferenceData.HiddenEdit | src/routes/receipt.py:327-331 | new items for a row that a later row of the same type hides leave `GET /lists` unchanged |
| ReferenceData.UpsertRepeatedType | src/routes/receipt.py:327-365 | with two rows of one type, an upsert of that type changes nothing `GET /lists` reports |
| ReferenceData.UpsertRepeatedTypeExample | src/routes/receipt.py:327-365 | rows banks→[a] then banks→[b], upserting banks→[c]: the view still reports [b] |
| ReferenceData.ReplaceView | src/routes/receipt.py:359-362 | with one row per type, replacing a row's items replaces exactly that type's list |
| ReferenceData.ReplaceDistinct | src/routes/receipt.py:359-362 | replacing a row's items keeps one row per type |
| ReferenceData.AppendView | src/routes/receipt.py:363-365 | inserting a row of a new type adds that type's list and keeps one row per type |
| ReferenceData.UpsertView | src/routes/receipt.py:359-365 | with one row per type, one upsert sets that type's list (creating it if absent), leaves the others, and keeps one row per type |
| ReferenceData.UpsertAllView | src/routes/receipt.py:358-367 | with one row per type, `PUT /lists` gives each supplied type its new items, leaves unsupplied types untouched, and keeps one row per type |
| ReferenceData.UpsertAllIds | src/routes/receipt.py:358-367 | `PUT /lists` keeps list ids unique |
| ReferenceData.SeededView | src/routes/receipt.py:335-347 | the seeded table reads back as exactly the lists that seeded it |
| UserRoutes.Patched | src/routes/user.py:93-120 | an update keeps the id and creation time, stamps updatedAt, and stores every sent key and keeps every absent one; `active` can be set back to true |
| UserRoutes.PatchedIdempotent | src/routes/user.py:93-120 | sending the same update twice gives the same row as once |
| UserRoutes.EmptyPatch | src/routes/user.py:93-120 | an update with no keys changes only updatedAt |
| UserRoutes.WithSerial | src/routes/receipt.py:91-95 | the user's lastSerial becomes the receipt number; updatedAt is refreshed only when that changes the value |
| UserRoutes.UpdatedStaysConsistent | src/models/user.py:9-11 | replacing a user by one with the same id, and a username and code held by no other user, keeps ids, usernames and codes unique |
| UserRoutes.UserDirectory.constructor | src/models/user.py:6-11 | an empty user table satisfies its constraints |
| UserRoutes.UserDirectory.Login | src/routes/user.py:10-29 | an empty username or password is refused before any lookup; otherwise login succeeds exactly when an active user with that username has exactly that password, and every other case is the same "invalid" error |
| UserRoutes.UserDirectory.ActiveUsers | src/routes/user.py:36 | the user list holds exactly the users whose `active` is true |
| UserRoutes.UserDirectory.Create | src/routes/user.py:44-73 | a falsy required key is refused (the first one named); a username or code held by any user, active or not, is refused; otherwise exactly one user is appended, with defaults 1000 and 'local' unless given; constraints are kept |
| UserRoutes.UserDirectory.Get | src/routes/user.py:81-82 | the user with that id, or NotFound exactly when there is none |
| UserRoutes.UserDirectory.Update | src/routes/user.py:89-121 | NotFound, then a username held by another user, then a null username, then a code held by another user, then a null required column, each refused with nothing changed; otherwise only that user changes, as `Patched` says; constraints are kept |
| UserRoutes.UserDirectory.Deactivate | src/routes/user.py:131-136 | only that user changes: active becomes false and updatedAt now; the row is kept |
| UserRoutes.UserDirectory.SetSerial | src/routes/user.py:146-154 | lastSerial is overwritten with no check, and updatedAt stamped, only when the key is sent; otherwise nothing changes |
| UserRoutes.UserDirectory.RecordSerial | src/routes/receipt.py:91-93 | the user with the receipt's creator as username, active or not, takes the receipt number as lastSerial; no other user changes |
| ReceiptRoutes.ReceiptPatched | src/routes/receipt.py:117-145 | an update never changes id, number, createdBy or date; stamps updatedAt; stores every sent key (null included) and keeps every absent one; changes approvedBy/approvedAt only when approved is true and approvedBy is sent |
| ReceiptRoutes.RevokeKeepsApprover | src/routes/receipt.py:139-143 | setting approved to false keeps the previous approver and approval time |
| ReceiptRoutes.ReceiptPatchedIdempotent | src/routes/receipt.py:117-145 | sending the same update twice at the same time gives the same row as once |
| ReceiptRoutes.Approved | src/routes/receipt.py:159-165 | approval sets approved true, the approver from the body (or null), the time now, and bankAmount only if sent; no other column changes except updatedAt |
| ReceiptRoutes.LastApproverWins | src/routes/receipt.py:159-161 | approving again overwrites the approver and the approval time |
| ReceiptRoutes.ApprovedIdempotent | src/routes/receipt.py:159-165 | repeating the same approval at the same time changes nothing |
| ReceiptRoutes.ReceiptStore.constructor | src/models/receipt.py:5-9 | empty tables satisfy their constraints |
| ReceiptRoutes.ReceiptStore.ListReceipts | src/routes/receipt.py:25-65 | total is the number of matching receipts; items is the requested page of them ordered by date then number, both descending; every item matches every active filter |
| ReceiptRoutes.ReceiptStore.CreateReceipt | src/routes/receipt.py:76-95 | a falsy required key (so number 0 and amount 0 too) or a taken number is refused with nothing stored; otherwise exactly the `from_dict` receipt is appended and only the creator's user row takes its number as lastSerial |
| ReceiptRoutes.ReceiptStore.GetReceipt | src/routes/receipt.py:105-106 | the receipt with that id, or NotFound exactly when there is none |
| ReceiptRoutes.ReceiptStore.UpdateReceipt | src/routes/receipt.py:113-148 | NotFound, or a null required column (StorageFailure), changes nothing; otherwise only that receipt changes, as `ReceiptPatched` says; numbers stay unique |
| ReceiptRoutes.ReceiptStore.ApproveReceipt | src/routes/receipt.py:156-169 | only that receipt changes, as `Approved` says, and it is then approved |
| ReceiptRoutes.ReceiptStore.DeleteReceipt | src/routes/receipt.py:177-181 | a missing id changes nothing; otherwise exactly the receipt with that id is removed and every other receipt stays |
| ReceiptRoutes.ReceiptStore.Stats | src/routes/receipt.py:189-233 | count, bank-amount sum, today's count and the count with approved false cover the branch/creator selection; the breakdowns group all receipts |
| ReceiptRoutes.ReceiptStore.ListClients | src/routes/receipt.py:241-242 | every client, in table order |
| ReceiptRoutes.ReceiptStore.CreateClient | src/routes/receipt.py:249-268 | a missing clientId key, a taken clientId, a missing name key, or a null clientId or name is refused with nothing stored; otherwise exactly one client is appended |
| ReceiptRoutes.ReceiptStore.GetClient | src/routes/receipt.py:276-277 | a client with that clientId, or NotFound exactly when there is none |
| ReceiptRoutes.ReceiptStore.GetCompany | src/routes/receipt.py:285-292 | the company row, created with the default name and no images only when none exists |
| ReceiptRoutes.ReceiptStore.UpdateCompany | src/routes/receipt.py:299-318 | sent keys overwrite and absent keys keep; a row that would end up without a name is refused with nothing stored |
| ReceiptRoutes.ReceiptStore.ReadLists | src/routes/receipt.py:327-331 | the loop over the stored rows yields exactly the table's view, and an empty result exactly when the table is empty |
| ReceiptRoutes.ReceiptStore.SeedLists | src/routes/receipt.py:342-346 | the seeding loop fills the empty table with one row per default list, ids 1 to 4 in order, and keeps ids unique |
| ReceiptRoutes.ReceiptStore.GetLists | src/routes/receipt.py:327-349 | a non-empty table is reported as stored, later rows of a type winning; an empty table is seeded with exactly the four default lists, which are reported |
| ReceiptRoutes.ReceiptStore.UpdateLists | src/routes/receipt.py:356-367 | the table becomes the entry-by-entry upsert of the body; with one row per type, supplied types get their items and the rest are untouched |
| ReceiptRoutes.ReplacedStaysConsistent | src/models/receipt.py:8-9 | replacing a receipt by one with the same id and number keeps ids and numbers unique |
| ReceiptRoutes.RemovedStaysConsistent | src/routes/receipt.py:177-178 | removing one receipt keeps the constraints and removes exactly the receipt with its id |

## Left out

- HTTP status codes and response shapes are not modelled. Handlers return a `Result` or `Outcome` with an error kind. A missing id becomes `NotFound`; in the code, `get_or_404` raises inside `try/except Exception`, so it actually answers with a 500.
- Request parsing is not modelled:
  - a body that is not JSON;
  - values of the wrong JSON type;
  - ISO date parsing (`fromisoformat`), including the error it raises on malformed text. Dates and times arrive already parsed as integers.
- The clocks are parameters (`now`, `today`), not read.
- Float amounts (`db.Float`, `float(...)`) are modelled as integers; rounding is not modelled.
- JSON encoding of invoices and lists is not modelled. Invoices are sequences of string maps. List items are sequences of strings, so a list body holding other JSON values is not modelled.
- SQL `LIKE` is modelled as plain substring containment: its wildcard characters `%` and `_` inside the search text and its case-insensitivity are not.
- ReceiptRoutes.ReceiptStore.ListReceipts: requires page ≥ 1 and per_page ≥ 1. How `paginate` corrects smaller values is not modelled.
- ReceiptRoutes.ReceiptStore.Stats: the breakdowns are maps from name to sum and count. The order of the rows the storage engine returns is not modelled.
- Sessions, commit/rollback and the check-then-insert races on number, username, code and clientId are not modelled. Each handler is one atomic step.
- Passwords are stored and compared as plain text, as the code does. Hashing is out of scope.
- The `to_dict` of `Client`, `Company` and `SystemLists` is not modelled. These handlers return the stored row itself.
- The company row's id is not modelled. The company is an optional single row.
- `.first()` is taken in table order. Where the code relies on uniqueness, the model proves it (usernames at login, ids everywhere).
- UserRoutes.UserDirectory.Login: returns the user row; the reply `to_dict` makes of it is `UserModel.ToDict`.
- `User.check_password` (src/models/user.py:38-40) is the predicate `UserModel.CheckPassword`. It carries no contract of its own; its meaning is stated through `Login`.
