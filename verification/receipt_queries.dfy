/**
 * The queries behind `GET /receipts` and `GET /receipts/stats`: the filters
 * the handler adds one after another, the order it asks for (date
 * descending, then number descending), the page it cuts out, and the
 * aggregates (count, sum of bank amounts, group-by) it reports.
 */
module ReceiptQueries {
  import opened Base
  import opened ReceiptModel

  /** The "all" choice of a select box, which switches a filter off. */
  const All: string := "الكل"

  /** The query-string filters of `GET /receipts`; an empty date is passed as `None`. */
  datatype ReceiptQuery = ReceiptQuery(
    branch: Option<string>,
    paymentMethod: Option<string>,
    bank: Option<string>,
    reason: Option<string>,
    dateFrom: Option<Day>,
    dateTo: Option<Day>,
    search: Option<string>,
    createdBy: Option<string>)

  /** `if branch and branch != 'الكل'`: a select-box filter is on. */
  predicate Chosen(v: Option<string>) {
    v.Some? && v.value != "" && v.value != All
  }

  /** `if search`: a text filter is on. */
  predicate NonEmpty(v: Option<string>) {
    v.Some? && v.value != ""
  }

  /** `search` occurs in the number's decimal text, in `client_id` or in `client_name`. */
  predicate SearchHit(r: Receipt, needle: string): (b: bool)
    ensures b <==>
      || (exists i :: OccursAt(DecimalText(r.number), needle, i))
      || (r.clientId.Some? && exists i :: OccursAt(r.clientId.value, needle, i))
      || (exists i :: OccursAt(r.clientName, needle, i))
  {
    ContainsAt(DecimalText(r.number), needle);
    ContainsAt(if r.clientId.Some? then r.clientId.value else "", needle);
    ContainsAt(r.clientName, needle);
    || Contains(DecimalText(r.number), needle)
    || (r.clientId.Some? && Contains(r.clientId.value, needle))
    || Contains(r.clientName, needle)
  }

  /**
   * The receipts `GET /receipts` lists: every filter that is on holds. The
   * ensures are sample consequences; that the handler's filter-by-filter query
   * selects exactly these receipts is `UptoAll` and `BuildQuery`.
   */
  predicate Matches(r: Receipt, q: ReceiptQuery): (b: bool)
    ensures q == ReceiptQuery(None, None, None, None, None, None, None, None) ==> b
    ensures q.dateFrom.Some? && q.dateTo.Some? && q.dateFrom.value > q.dateTo.value ==> !b
    ensures Chosen(q.branch) && Chosen(q.paymentMethod) && b ==>
      (KeyOf(r, ByBranch) == q.branch.value && KeyOf(r, ByMethod) == q.paymentMethod.value)
  {
    && (Chosen(q.branch) ==> r.branch == q.branch.value)
    && (Chosen(q.paymentMethod) ==> r.paymentMethod == q.paymentMethod.value)
    && (Chosen(q.bank) ==> r.bank == q.bank.value)
    && (Chosen(q.reason) ==> r.reason == q.reason.value)
    && (q.dateFrom.Some? ==> r.date >= q.dateFrom.value)
    && (q.dateTo.Some? ==> r.date <= q.dateTo.value)
    && (NonEmpty(q.search) ==> SearchHit(r, q.search.value))
    && (NonEmpty(q.createdBy) ==> r.createdBy == q.createdBy.value)
  }

  /** The selected receipts, in table order. */
  function Selection(rows: seq<Receipt>, q: ReceiptQuery): seq<Receipt> {
    Filter(rows, r => Matches(r, q))
  }

  /** The number of filters, in the order the handler adds them to the query. */
  const FilterCount: nat := 8

  /** Whether the handler adds its `k`-th filter. */
  predicate Active(q: ReceiptQuery, k: nat) {
    if k == 0 then Chosen(q.branch)
    else if k == 1 then Chosen(q.paymentMethod)
    else if k == 2 then Chosen(q.bank)
    else if k == 3 then Chosen(q.reason)
    else if k == 4 then q.dateFrom.Some?
    else if k == 5 then q.dateTo.Some?
    else if k == 6 then NonEmpty(q.search)
    else if k == 7 then NonEmpty(q.createdBy)
    else false
  }

  /** The `k`-th filter, read as true when it is off. */
  predicate Passes(r: Receipt, q: ReceiptQuery, k: nat) {
    if k == 0 then Chosen(q.branch) ==> r.branch == q.branch.value
    else if k == 1 then Chosen(q.paymentMethod) ==> r.paymentMethod == q.paymentMethod.value
    else if k == 2 then Chosen(q.bank) ==> r.bank == q.bank.value
    else if k == 3 then Chosen(q.reason) ==> r.reason == q.reason.value
    else if k == 4 then q.dateFrom.Some? ==> r.date >= q.dateFrom.value
    else if k == 5 then q.dateTo.Some? ==> r.date <= q.dateTo.value
    else if k == 6 then NonEmpty(q.search) ==> SearchHit(r, q.search.value)
    else if k == 7 then NonEmpty(q.createdBy) ==> r.createdBy == q.createdBy.value
    else true
  }

  /** `query = query.filter(...)` for the `k`-th filter. */
  function Keep(rows: seq<Receipt>, q: ReceiptQuery, k: nat): seq<Receipt> {
    Filter(rows, r => Passes(r, q, k))
  }

  predicate PassesFirst(r: Receipt, q: ReceiptQuery, n: nat) {
    forall k | 0 <= k < n :: Passes(r, q, k)
  }

  /** What `query` selects once the first `n` filters have been considered. */
  function Upto(rows: seq<Receipt>, q: ReceiptQuery, n: nat): seq<Receipt> {
    Filter(rows, r => PassesFirst(r, q, n))
  }

  lemma UptoNone(rows: seq<Receipt>, q: ReceiptQuery)
    ensures Upto(rows, q, 0) == rows
  {
    FilterAll(rows, r => PassesFirst(r, q, 0));
  }

  /** Adding the `n`-th filter when it is on, or skipping it when it is off, gives `Upto(n + 1)`. */
  lemma Narrow(rows: seq<Receipt>, q: ReceiptQuery, n: nat)
    ensures Upto(rows, q, n + 1) == if Active(q, n) then Keep(Upto(rows, q, n), q, n) else Upto(rows, q, n)
  {
    if Active(q, n) {
      FilterTwice(rows, r => PassesFirst(r, q, n), r => Passes(r, q, n), r => PassesFirst(r, q, n + 1));
    } else {
      FilterSame(rows, r => PassesFirst(r, q, n + 1), r => PassesFirst(r, q, n));
    }
  }

  /** Filters that are off change nothing. */
  lemma {:induction false} SkipInactive(rows: seq<Receipt>, q: ReceiptQuery, from: nat, to: nat)
    requires from <= to
    requires forall k | from <= k < to :: !Active(q, k)
    ensures Upto(rows, q, to) == Upto(rows, q, from)
    decreases (to as int) - from
  {
    if from < to {
      Narrow(rows, q, from);
      SkipInactive(rows, q, from + 1, to);
    }
  }

  /** The handler's filter-by-filter query selects exactly `Selection`. */
  lemma UptoAll(rows: seq<Receipt>, q: ReceiptQuery)
    ensures Upto(rows, q, FilterCount) == Selection(rows, q)
  {
    forall r ensures PassesFirst(r, q, FilterCount) == Matches(r, q) {
      assert (&& Passes(r, q, 0) && Passes(r, q, 1) && Passes(r, q, 2) && Passes(r, q, 3)
              && Passes(r, q, 4) && Passes(r, q, 5) && Passes(r, q, 6) && Passes(r, q, 7))
        ==> PassesFirst(r, q, FilterCount);
    }
    FilterSame(rows, r => PassesFirst(r, q, FilterCount), r => Matches(r, q));
  }

  /** `if <k-th parameter given>: query = query.filter(...)`. */
  method AddFilter(rows: seq<Receipt>, q: ReceiptQuery, k: nat, query: seq<Receipt>) returns (next: seq<Receipt>)
    requires query == Upto(rows, q, k)
    ensures next == Upto(rows, q, k + 1)
  {
    Narrow(rows, q, k);
    if Active(q, k) {
      next := Keep(query, q, k);
    } else {
      next := query;
    }
  }

  /**
   * The handler's query building: start from the whole table and add the
   * branch, method, bank, reason, date-from, date-to, search and creator
   * filters in that order, each only when its parameter is given. The result
   * is exactly the selection.
   */
  method BuildQuery(rows: seq<Receipt>, q: ReceiptQuery) returns (query: seq<Receipt>)
    ensures query == Selection(rows, q)
  {
    query := rows;
    UptoNone(rows, q);
    query := AddFilter(rows, q, 0, query);
    query := AddFilter(rows, q, 1, query);
    query := AddFilter(rows, q, 2, query);
    query := AddFilter(rows, q, 3, query);
    query := AddFilter(rows, q, 4, query);
    query := AddFilter(rows, q, 5, query);
    query := AddFilter(rows, q, 6, query);
    query := AddFilter(rows, q, 7, query);
    UptoAll(rows, q);
  }

  /** `a` may be listed before `b`: a later date, or the same date and a number at least as large. */
  predicate Precedes(a: Receipt, b: Receipt) {
    a.date > b.date || (a.date == b.date && a.number >= b.number)
  }

  /** `ORDER BY date DESC, number DESC` holds of `s`. */
  predicate NewestFirst(s: seq<Receipt>) {
    forall i, j | 0 <= i < j < |s| :: Precedes(s[i], s[j])
  }

  predicate DistinctNumbers(s: seq<Receipt>) {
    forall i, j | 0 <= i < j < |s| :: s[i].number != s[j].number
  }

  /** `x` placed before the first row it precedes. */
  function Insert(x: Receipt, s: seq<Receipt>): (t: seq<Receipt>)
    ensures multiset(t) == multiset(s) + multiset{x}
  {
    if s == [] then [x]
    else if Precedes(x, s[0]) then [x] + s
    else
      assert s == [s[0]] + s[1..];
      [s[0]] + Insert(x, s[1..])
  }

  lemma PrependNewest(h: Receipt, t: seq<Receipt>)
    requires NewestFirst(t)
    requires forall e | e in t :: Precedes(h, e)
    ensures NewestFirst([h] + t)
  {
    var s := [h] + t;
    forall i, j | 0 <= i < j < |s| ensures Precedes(s[i], s[j]) {
      if i > 0 {
        assert s[i] == t[i - 1] && s[j] == t[j - 1];
      } else {
        assert s[j] in t;
      }
    }
  }

  /** Inserting into an ordered sequence keeps it ordered. */
  lemma {:induction false} InsertNewestFirst(x: Receipt, s: seq<Receipt>)
    requires NewestFirst(s)
    ensures NewestFirst(Insert(x, s))
  {
    if s == [] {
    } else if Precedes(x, s[0]) {
      forall e | e in s ensures Precedes(x, e) {
        var i :| 0 <= i < |s| && s[i] == e;
      }
      PrependNewest(x, s);
    } else {
      var rest := Insert(x, s[1..]);
      InsertNewestFirst(x, s[1..]);
      forall e | e in rest ensures Precedes(s[0], e) {
        assert e in multiset(rest);
        if e != x {
          assert e in multiset(s[1..]);
          var i :| 0 <= i < |s[1..]| && s[1..][i] == e;
          assert s[i + 1] == e;
        }
      }
      PrependNewest(s[0], rest);
    }
  }

  /** The rows of `s` in the order the listing asks for. */
  function SortNewestFirst(s: seq<Receipt>): (t: seq<Receipt>)
    ensures NewestFirst(t)
    ensures multiset(t) == multiset(s)
  {
    if s == [] then []
    else
      assert s == [s[0]] + s[1..];
      var sorted := SortNewestFirst(s[1..]);
      InsertNewestFirst(s[0], sorted);
      Insert(s[0], sorted)
  }

  /**
   * With distinct receipt numbers the order is total: only one arrangement
   * of a set of receipts is newest first, so the listing does not depend on
   * how the storage engine sorts.
   */
  lemma {:induction false} NewestFirstUnique(a: seq<Receipt>, b: seq<Receipt>)
    requires NewestFirst(a) && NewestFirst(b)
    requires multiset(a) == multiset(b)
    requires DistinctNumbers(a)
    ensures a == b
  {
    if a == [] {
      assert |b| == |multiset(b)| == 0;
    } else {
      assert |b| == |multiset(b)| == |multiset(a)| == |a|;
      SameHead(a, b);
      TailMultiset(a, b);
      NewestFirstUnique(a[1..], b[1..]);
    }
  }

  /** Both orderings start with the same receipt: the one that precedes all others. */
  lemma SameHead(a: seq<Receipt>, b: seq<Receipt>)
    requires a != [] && b != []
    requires NewestFirst(a) && NewestFirst(b)
    requires multiset(a) == multiset(b)
    requires DistinctNumbers(a)
    ensures a[0] == b[0]
  {
    assert a[0] in multiset(b);
    var j :| 0 <= j < |b| && b[j] == a[0];
    assert b[0] in multiset(a);
    var i :| 0 <= i < |a| && a[i] == b[0];
    assert Precedes(b[0], b[j]);
  }

  /** The number of pages: the total divided by the page size, rounded up. */
  function PageCount(total: nat, perPage: nat): (n: nat)
    requires perPage >= 1
    ensures n * perPage >= total
    ensures total > 0 ==> (n - 1) * perPage < total
    ensures total == 0 ==> n == 0
  {
    (total + perPage - 1) / perPage
  }

  function Min(a: int, b: int): int {
    if a <= b then a else b
  }

  /** The first row of page `page` (counted from 1) of `perPage` rows. */
  function PageStart(page: nat, perPage: nat): nat
    requires page >= 1
  {
    (page - 1) * perPage
  }

  /** Up to `count` rows of `s` starting at row `lo`; nothing when `lo` is past the end. */
  function Slice(s: seq<Receipt>, lo: nat, count: nat): (w: seq<Receipt>)
    ensures |w| == (if lo >= |s| then 0 else Min(count, |s| - lo))
    ensures forall k | 0 <= k < |w| :: w[k] == s[lo + k]
  {
    if lo >= |s| then [] else s[lo..Min(lo + count, |s|)]
  }

  /** Page `page` (counted from 1) of `perPage` rows, as `paginate` cuts it; a page past the end is empty. */
  function Window(s: seq<Receipt>, page: nat, perPage: nat): (w: seq<Receipt>)
    requires page >= 1 && perPage >= 1
    ensures var lo := PageStart(page, perPage);
      && |w| == (if lo >= |s| then 0 else Min(perPage, |s| - lo))
      && forall k | 0 <= k < |w| :: w[k] == s[lo + k]
  {
    Slice(s, PageStart(page, perPage), perPage)
  }

  /** A slice of an ordered sequence is ordered. */
  lemma SliceNewestFirst(s: seq<Receipt>, lo: nat, count: nat)
    requires NewestFirst(s)
    ensures NewestFirst(Slice(s, lo, count))
  {
    var w := Slice(s, lo, count);
    forall i, j | 0 <= i < j < |w| ensures Precedes(w[i], w[j]) {
      assert w[i] == s[lo + i] && w[j] == s[lo + j];
    }
  }

  /** A page of an ordered listing is ordered. */
  lemma WindowNewestFirst(s: seq<Receipt>, page: nat, perPage: nat)
    requires page >= 1 && perPage >= 1
    requires NewestFirst(s)
    ensures NewestFirst(Window(s, page, perPage))
  {
    SliceNewestFirst(s, PageStart(page, perPage), perPage);
  }

  /** Every row of a page comes from the listing. */
  lemma WindowWithin(s: seq<Receipt>, page: nat, perPage: nat)
    requires page >= 1 && perPage >= 1
    ensures forall x | x in Window(s, page, perPage) :: x in s
  {
    var w, lo := Window(s, page, perPage), PageStart(page, perPage);
    forall x | x in w ensures x in s {
      var k :| 0 <= k < |w| && w[k] == x;
      assert s[lo + k] == x;
    }
  }

  /** The reply of `GET /receipts`. */
  datatype ReceiptPage = ReceiptPage(items: seq<Receipt>, total: nat, pages: nat, page: nat, perPage: nat)

  /** `bank_amount` as `SUM` sees it: NULL adds nothing. */
  function BankAmountOf(r: Receipt): int {
    if r.bankAmount.Some? then r.bankAmount.value else 0
  }

  /** `SUM(bank_amount) ... or 0`: the sum over the rows, NULL counted as 0, and 0 for no rows. */
  function BankTotal(rows: seq<Receipt>): int {
    if rows == [] then 0 else BankAmountOf(rows[0]) + BankTotal(rows[1..])
  }

  /** The sum is 0 when no row has a bank amount (or there are no rows): the `or 0` of the handler. */
  lemma {:induction false} BankTotalNoAmounts(rows: seq<Receipt>)
    requires forall i | 0 <= i < |rows| :: rows[i].bankAmount.None?
    ensures BankTotal(rows) == 0
  {
    if rows != [] {
      BankTotalNoAmounts(rows[1..]);
    }
  }

  /** The sum over two runs of rows is the sum of their sums. */
  lemma {:induction false} BankTotalAppend(a: seq<Receipt>, b: seq<Receipt>)
    ensures BankTotal(a + b) == BankTotal(a) + BankTotal(b)
  {
    if a == [] {
      assert a + b == b;
    } else {
      assert (a + b)[0] == a[0] && (a + b)[1..] == a[1..] + b;
      BankTotalAppend(a[1..], b);
    }
  }

  lemma BankTotalCons(x: Receipt, s: seq<Receipt>)
    ensures BankTotal([x] + s) == BankAmountOf(x) + BankTotal(s)
  {
    assert ([x] + s)[1..] == s;
  }

  /** The columns `GET /receipts/stats` groups by. */
  datatype Dimension = ByBranch | ByMethod

  function KeyOf(r: Receipt, dim: Dimension): string {
    match dim
    case ByBranch => r.branch
    case ByMethod => r.paymentMethod
  }

  /** One row of a breakdown: `SUM(bank_amount)` (NULL as 0) and `COUNT(id)`. */
  datatype GroupStat = GroupStat(amount: int, count: nat)

  /** The rows of one group, in table order. */
  function Members(rows: seq<Receipt>, dim: Dimension, name: string): (m: seq<Receipt>)
    ensures forall x | x in m :: x in rows && KeyOf(x, dim) == name
    ensures forall x | x in rows && KeyOf(x, dim) == name :: x in m
  {
    if rows == [] then []
    else
      assert rows == [rows[0]] + rows[1..];
      (if KeyOf(rows[0], dim) == name then [rows[0]] else []) + Members(rows[1..], dim, name)
  }

  /** A group holds each receipt with its name exactly as often as the table does, and no other. */
  lemma {:induction false} MembersMultiplicity(rows: seq<Receipt>, dim: Dimension, name: string, x: Receipt)
    ensures multiset(Members(rows, dim, name))[x] == if KeyOf(x, dim) == name then multiset(rows)[x] else 0
  {
    if rows != [] {
      MembersMultiplicity(rows[1..], dim, name, x);
      assert rows == [rows[0]] + rows[1..];
    }
  }

  /** `GROUP BY` the dimension, accumulated one row at a time; one entry per value in the column. */
  function GroupBy(rows: seq<Receipt>, dim: Dimension): (g: map<string, GroupStat>)
    ensures forall name :: name in g <==> Members(rows, dim, name) != []
  {
    if rows == [] then map[]
    else
      assert rows == [rows[0]] + rows[1..];
      var rest := GroupBy(rows[1..], dim);
      var k := KeyOf(rows[0], dim);
      var before := if k in rest then rest[k] else GroupStat(0, 0);
      rest[k := GroupStat(before.amount + BankAmountOf(rows[0]), before.count + 1)]
  }

  /** The entry of a breakdown for `name`, or an empty group when the breakdown has none. */
  function StatOf(g: map<string, GroupStat>, name: string): GroupStat {
    if name in g then g[name] else GroupStat(0, 0)
  }

  /** The breakdown entry for `name` holds the bank-amount sum and the size of the group. */
  predicate TotalsHold(rows: seq<Receipt>, dim: Dimension, name: string) {
    StatOf(GroupBy(rows, dim), name) == GroupStat(BankTotal(Members(rows, dim, name)), |Members(rows, dim, name)|)
  }

  /** The first row's own group: it gains the row's bank amount and one to its count. */
  lemma GroupByHead(rows: seq<Receipt>, dim: Dimension, name: string)
    requires rows != [] && KeyOf(rows[0], dim) == name
    requires TotalsHold(rows[1..], dim, name)
    ensures TotalsHold(rows, dim, name)
  {
    var x, mr := rows[0], Members(rows[1..], dim, name);
    GroupByStep(rows, dim);
    MembersStep(rows, dim);
    BankTotalCons(x, mr);
  }

  /** The first row's group gains its bank amount and one to its count. */
  lemma GroupByStep(rows: seq<Receipt>, dim: Dimension)
    requires rows != []
    ensures var before := StatOf(GroupBy(rows[1..], dim), KeyOf(rows[0], dim));
      StatOf(GroupBy(rows, dim), KeyOf(rows[0], dim)) == GroupStat(before.amount + BankAmountOf(rows[0]), before.count + 1)
  {
  }

  /** The first row heads its own group. */
  lemma MembersStep(rows: seq<Receipt>, dim: Dimension)
    requires rows != []
    ensures Members(rows, dim, KeyOf(rows[0], dim)) == [rows[0]] + Members(rows[1..], dim, KeyOf(rows[0], dim))
  {
  }

  /** Every other group is as the remaining rows leave it. */
  lemma GroupByOther(rows: seq<Receipt>, dim: Dimension, name: string)
    requires rows != [] && KeyOf(rows[0], dim) != name
    requires TotalsHold(rows[1..], dim, name)
    ensures TotalsHold(rows, dim, name)
  {
    assert Members(rows, dim, name) == Members(rows[1..], dim, name);
  }

  /**
   * Each entry of the breakdown holds the bank-amount sum and the size of its
   * group; a name without an entry has an empty group.
   */
  lemma {:induction false} GroupByTotals(rows: seq<Receipt>, dim: Dimension, name: string)
    ensures StatOf(GroupBy(rows, dim), name) == GroupStat(BankTotal(Members(rows, dim, name)), |Members(rows, dim, name)|)
  {
    if rows != [] {
      GroupByTotals(rows[1..], dim, name);
      if KeyOf(rows[0], dim) == name {
        GroupByHead(rows, dim, name);
      } else {
        GroupByOther(rows, dim, name);
      }
    }
  }

  /** `query.filter(Receipt.date == today)`. */
  function OnDay(rows: seq<Receipt>, day: Day): (d: seq<Receipt>)
    ensures |d| <= |rows|
    ensures forall x | x in d :: x in rows && x.date == day
    ensures forall x | x in rows && x.date == day :: x in d
    ensures forall x | x in rows :: multiset(d)[x] == if x.date == day then multiset(rows)[x] else 0
  {
    var keep := (r: Receipt) => r.date == day;
    FilterMultiplicities(rows, keep);
    Filter(rows, keep)
  }

  /** `query.filter(Receipt.approved == False)`: a NULL flag does not count as pending. */
  function Pending(rows: seq<Receipt>): (p: seq<Receipt>)
    ensures |p| <= |rows|
    ensures forall x | x in p :: x in rows && x.approved == Some(false)
    ensures forall x | x in rows && x.approved == Some(false) :: x in p
    ensures forall x | x in rows :: multiset(p)[x] == if x.approved == Some(false) then multiset(rows)[x] else 0
  {
    var keep := (r: Receipt) => r.approved == Some(false);
    FilterMultiplicities(rows, keep);
    Filter(rows, keep)
  }

  /** The reply of `GET /receipts/stats`. */
  datatype ReceiptStats = ReceiptStats(
    totalReceipts: nat,
    totalAmount: int,
    todayReceipts: nat,
    pendingApproval: nat,
    branchStats: map<string, GroupStat>,
    methodStats: map<string, GroupStat>)

  /** The query `GET /receipts/stats` builds: the branch filter, then the creator filter. */
  method BuildStatsQuery(rows: seq<Receipt>, branch: Option<string>, createdBy: Option<string>)
    returns (query: seq<Receipt>)
    ensures query == Selection(rows, StatsQuery(branch, createdBy))
  {
    var q := StatsQuery(branch, createdBy);
    query := rows;
    UptoNone(rows, q);
    query := AddFilter(rows, q, 0, query);
    SkipInactive(rows, q, 1, 7);
    query := AddFilter(rows, q, 7, query);
    UptoAll(rows, q);
  }

  /** The two filters `GET /receipts/stats` accepts, as a listing query. */
  function StatsQuery(branch: Option<string>, createdBy: Option<string>): (q: ReceiptQuery)
    ensures forall k | 1 <= k < FilterCount - 1 :: !Active(q, k)
  {
    ReceiptQuery(branch, None, None, None, None, None, None, createdBy)
  }
}
