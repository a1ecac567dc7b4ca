/**
 * The `system_lists` table behind `GET /lists` and `PUT /lists`: how the
 * stored rows read as one list per type, how an upsert changes them, and the
 * four lists the table is seeded with.
 */
module ReferenceData {
  import opened Base
  import opened ReceiptModel

  /** One list per type, as a JSON object of arrays. */
  type Lists = map<string, seq<string>>

  /** The reference lists `GET /lists` stores and reports when the table is empty. */
  const DefaultLists: seq<(string, seq<string>)> := [
    ("branches", ["الرياض", "بريدة", "الخرج", "وادي الدواسر", "جدة", "تبوك"]),
    ("methods", ["نقداً", "شبكة", "تحويل بنكي", "إيداع نقدي", "شيك"]),
    ("banks", ["الراجحي", "الأهلي", "الرياض", "ساب", "الاستثمار"]),
    ("reasons", ["سداد فواتير", "دفعة من الحساب", "سداد الرصيد"])
  ]

  function ListIds(rows: seq<ListRow>): seq<nat> {
    IdsOf(rows, (x: ListRow) => x.id)
  }

  /** The primary key: no two rows share an id. */
  predicate UniqueListIds(rows: seq<ListRow>) {
    forall i, j | 0 <= i < j < |rows| :: rows[i].id != rows[j].id
  }

  /** No two rows share a type. The column is not declared unique, so this is not a table constraint. */
  predicate DistinctTypes(rows: seq<ListRow>) {
    forall i, j | 0 <= i < j < |rows| :: rows[i].listType != rows[j].listType
  }

  /** The entries of a JSON object, read in order; a later entry of a key replaces an earlier one. */
  function ToLists(entries: seq<(string, seq<string>)>): (m: Lists)
    ensures forall i | 0 <= i < |entries| :: entries[i].0 in m
  {
    if entries == [] then map[]
    else
      var last := entries[|entries| - 1];
      ToLists(entries[..|entries| - 1])[last.0 := last.1]
  }

  /** The object has exactly the keys of its entries. */
  lemma {:induction false} ToListsKeys(entries: seq<(string, seq<string>)>)
    ensures ToLists(entries).Keys == set i | 0 <= i < |entries| :: entries[i].0
  {
    if entries != [] {
      var n := |entries| - 1;
      var init := entries[..n];
      ToListsKeys(init);
      forall k | k in ToLists(entries) ensures exists i | 0 <= i < |entries| :: entries[i].0 == k {
        if k != entries[n].0 {
          var i :| 0 <= i < n && init[i].0 == k;
          assert entries[i].0 == k;
        }
      }
    }
  }

  /** A key holds the items of its last entry. */
  lemma {:induction false} ToListsLast(entries: seq<(string, seq<string>)>, i: nat)
    requires i < |entries|
    requires forall j | i < j < |entries| :: entries[j].0 != entries[i].0
    ensures ToLists(entries)[entries[i].0] == entries[i].1
  {
    var n := |entries| - 1;
    if i < n {
      var init := entries[..n];
      assert init[i] == entries[i];
      ToListsLast(init, i);
    }
  }

  /**
   * What `GET /lists` reports for the stored rows: `lists[list_type] = items`
   * row by row in table order, so a later row of a type hides an earlier one.
   */
  function View(rows: seq<ListRow>): (v: Lists)
    ensures forall i | 0 <= i < |rows| :: rows[i].listType in v
  {
    if rows == [] then map[]
    else
      var last := rows[|rows| - 1];
      View(rows[..|rows| - 1])[last.listType := last.items]
  }

  /** The view has exactly the stored types as keys. */
  lemma {:induction false} ViewKeys(rows: seq<ListRow>)
    ensures View(rows).Keys == set i | 0 <= i < |rows| :: rows[i].listType
  {
    if rows != [] {
      var n := |rows| - 1;
      var init := rows[..n];
      ViewKeys(init);
      forall k | k in View(rows) ensures exists i | 0 <= i < |rows| :: rows[i].listType == k {
        if k != rows[n].listType {
          var i :| 0 <= i < n && init[i].listType == k;
          assert rows[i].listType == k;
        }
      }
    }
  }

  /** A type reports the items of its last row. */
  lemma {:induction false} ViewLast(rows: seq<ListRow>, i: nat)
    requires i < |rows|
    requires forall j | i < j < |rows| :: rows[j].listType != rows[i].listType
    ensures View(rows)[rows[i].listType] == rows[i].items
  {
    var n := |rows| - 1;
    if i < n {
      var init := rows[..n];
      assert init[i] == rows[i];
      ViewLast(init, i);
    }
  }

  /** When every type has one row, the view holds each row's items under its type. */
  lemma ViewOfDistinct(rows: seq<ListRow>, i: nat)
    requires DistinctTypes(rows) && i < |rows|
    ensures View(rows)[rows[i].listType] == rows[i].items
  {
    ViewLast(rows, i);
  }

  /** `filter_by(list_type=listType)`. */
  function OfType(listType: string): ListRow -> bool {
    (row: ListRow) => row.listType == listType
  }

  /**
   * `PUT /lists` for one entry: the first row of the type takes the new items
   * and `updated_at`, or a new row is inserted when the type has none.
   */
  function Upsert(rows: seq<ListRow>, listType: string, items: seq<string>, now: Time): (r: seq<ListRow>)
    ensures |rows| <= |r| <= |rows| + 1
    ensures forall i | 0 <= i < |rows| :: r[i].id == rows[i].id && r[i].listType == rows[i].listType
    ensures FirstIndex(rows, OfType(listType)).Some? ==>
      var i := FirstIndex(rows, OfType(listType)).value;
      && |r| == |rows| && r[i] == rows[i].(items := items, updatedAt := now)
      && rows[i].listType == listType && (forall j | 0 <= j < i :: rows[j].listType != listType)
      && (forall j | 0 <= j < |rows| && j != i :: r[j] == rows[j])
    ensures FirstIndex(rows, OfType(listType)).None? ==>
      && (forall j | 0 <= j < |rows| :: rows[j].listType != listType)
      && r == rows + [ListRow(NextId(ListIds(rows)), listType, items, now)]
  {
    match FirstIndex(rows, OfType(listType))
    case Some(i) => rows[i := rows[i].(items := items, updatedAt := now)]
    case None => rows + [ListRow(NextId(ListIds(rows)), listType, items, now)]
  }

  /** `PUT /lists` for the entries of the body, in order. */
  function UpsertAll(rows: seq<ListRow>, entries: seq<(string, seq<string>)>, now: Time): seq<ListRow> {
    if entries == [] then rows
    else
      var last := entries[|entries| - 1];
      Upsert(UpsertAll(rows, entries[..|entries| - 1], now), last.0, last.1, now)
  }

  /**
   * Giving row `k` new items changes the view at most at `k`'s type: both
   * views agree once that type is overwritten.
   */
  lemma {:induction false} EditAgrees(rows: seq<ListRow>, k: nat, items: seq<string>, now: Time, v: seq<string>)
    requires k < |rows|
    ensures View(rows[k := rows[k].(items := items, updatedAt := now)])[rows[k].listType := v]
      == View(rows)[rows[k].listType := v]
  {
    var r := rows[k := rows[k].(items := items, updatedAt := now)];
    var n := |rows| - 1;
    var t := rows[k].listType;
    if k == n {
      assert r[..n] == rows[..n];
    } else {
      var init := rows[..n];
      assert r[..n] == init[k := init[k].(items := items, updatedAt := now)];
      EditAgrees(init, k, items, now, v);
      if rows[n].listType != t {
        MapUpdateSwap(View(r[..n]), rows[n].listType, rows[n].items, t, v);
        MapUpdateSwap(View(init), rows[n].listType, rows[n].items, t, v);
      } else {
        MapUpdateOverwrite(View(r[..n]), t, rows[n].items, v);
        MapUpdateOverwrite(View(init), t, rows[n].items, v);
      }
    }
  }

  /** New items for a row that a later row of its type hides leave the view unchanged. */
  lemma {:induction false} HiddenEdit(rows: seq<ListRow>, k: nat, j: nat, items: seq<string>, now: Time)
    requires k < j < |rows| && rows[j].listType == rows[k].listType
    ensures View(rows[k := rows[k].(items := items, updatedAt := now)]) == View(rows)
  {
    var r := rows[k := rows[k].(items := items, updatedAt := now)];
    var n := |rows| - 1;
    var init := rows[..n];
    assert r[..n] == init[k := init[k].(items := items, updatedAt := now)];
    if j < n {
      HiddenEdit(init, k, j, items, now);
    } else {
      EditAgrees(init, k, items, now, rows[n].items);
    }
  }

  /**
   * With two rows of one type, `PUT /lists` writes the first of them while
   * `GET /lists` reports the last, so the upsert changes nothing `GET /lists`
   * reports.
   */
  lemma UpsertRepeatedType(rows: seq<ListRow>, i: nat, j: nat, listType: string, items: seq<string>, now: Time)
    requires i < j < |rows| && rows[i].listType == listType && rows[j].listType == listType
    ensures View(Upsert(rows, listType, items, now)) == View(rows)
  {
    var k := FirstIndex(rows, OfType(listType)).value;
    assert Upsert(rows, listType, items, now) == rows[k := rows[k].(items := items, updatedAt := now)];
    HiddenEdit(rows, k, j, items, now);
  }

  /** The two-row example: after upserting `["c"]` into banks, the view still reports `["b"]`. */
  lemma UpsertRepeatedTypeExample(now: Time)
    ensures var rows := [ListRow(1, "banks", ["a"], now), ListRow(2, "banks", ["b"], now)];
      View(Upsert(rows, "banks", ["c"], now))["banks"] == ["b"]
  {
    var rows := [ListRow(1, "banks", ["a"], now), ListRow(2, "banks", ["b"], now)];
    UpsertRepeatedType(rows, 0, 1, "banks", ["c"], now);
    ViewLast(rows, 1);
  }

  /** An upsert keeps the primary key unique. */
  lemma UpsertIds(rows: seq<ListRow>, listType: string, items: seq<string>, now: Time)
    requires UniqueListIds(rows)
    ensures UniqueListIds(Upsert(rows, listType, items, now))
  {
    var r := Upsert(rows, listType, items, now);
    if |r| > |rows| {
      var ids := ListIds(rows);
      forall i | 0 <= i < |rows| ensures r[i].id != r[|rows|].id {
        assert ids[i] == rows[i].id;
      }
    }
  }

  /** Giving one row of a type new items replaces that type's list, when each type has one row. */
  lemma {:induction false} ReplaceView(rows: seq<ListRow>, i: nat, items: seq<string>, now: Time)
    requires DistinctTypes(rows) && i < |rows|
    ensures View(rows[i := rows[i].(items := items, updatedAt := now)]) == View(rows)[rows[i].listType := items]
  {
    var r := rows[i := rows[i].(items := items, updatedAt := now)];
    var n := |rows| - 1;
    var t := rows[i].listType;
    if i < n {
      assert r[..n] == rows[..n][i := rows[i].(items := items, updatedAt := now)];
      assert DistinctTypes(rows[..n]);
      ReplaceView(rows[..n], i, items, now);
      MapUpdateSwap(View(rows[..n]), t, items, rows[n].listType, rows[n].items);
    } else {
      assert r[..n] == rows[..n];
    }
  }

  /**
   * On a table with one row per type, an upsert replaces exactly the items of
   * its type, adds the type if it was missing, and keeps one row per type.
   */
  lemma UpsertView(rows: seq<ListRow>, listType: string, items: seq<string>, now: Time)
    requires DistinctTypes(rows)
    ensures DistinctTypes(Upsert(rows, listType, items, now))
    ensures View(Upsert(rows, listType, items, now)) == View(rows)[listType := items]
  {
    var found := FirstIndex(rows, OfType(listType));
    if found.Some? {
      var i := found.value;
      assert Upsert(rows, listType, items, now) == rows[i := rows[i].(items := items, updatedAt := now)];
      ReplaceView(rows, i, items, now);
      ReplaceDistinct(rows, i, items, now);
    } else {
      var row := ListRow(NextId(ListIds(rows)), listType, items, now);
      assert Upsert(rows, listType, items, now) == rows + [row];
      AppendView(rows, row);
    }
  }

  lemma ReplaceDistinct(rows: seq<ListRow>, i: nat, items: seq<string>, now: Time)
    requires DistinctTypes(rows) && i < |rows|
    ensures DistinctTypes(rows[i := rows[i].(items := items, updatedAt := now)])
  {
    var r := rows[i := rows[i].(items := items, updatedAt := now)];
    forall a, b | 0 <= a < b < |r| ensures r[a].listType != r[b].listType {
      assert r[a].listType == rows[a].listType && r[b].listType == rows[b].listType;
    }
  }

  /** A row of a new type adds that type's list and keeps one row per type. */
  lemma AppendView(rows: seq<ListRow>, row: ListRow)
    requires DistinctTypes(rows)
    requires forall j | 0 <= j < |rows| :: rows[j].listType != row.listType
    ensures DistinctTypes(rows + [row])
    ensures View(rows + [row]) == View(rows)[row.listType := row.items]
  {
    var r := rows + [row];
    assert r[..|rows|] == rows;
    forall a, b | 0 <= a < b < |r| ensures r[a].listType != r[b].listType {
      assert r[a] == rows[a];
    }
  }

  lemma MapUpdateSwap<K, V>(m: map<K, V>, k: K, v: V, k': K, v': V)
    requires k != k'
    ensures m[k := v][k' := v'] == m[k' := v'][k := v]
  {
  }

  lemma MapUpdateOverwrite<K, V>(m: map<K, V>, k: K, v: V, v': V)
    ensures m[k := v][k := v'] == m[k := v']
  {
  }

  lemma MapUpdateUnion<K, V>(a: map<K, V>, b: map<K, V>, k: K, v: V)
    ensures (a + b)[k := v] == a + b[k := v]
  {
  }

  /**
   * `PUT /lists` on a table with one row per type: every type of the body
   * gets the body's items, every other type keeps its list, and there is
   * still one row per type.
   */
  lemma {:induction false} UpsertAllView(rows: seq<ListRow>, entries: seq<(string, seq<string>)>, now: Time)
    requires DistinctTypes(rows)
    ensures DistinctTypes(UpsertAll(rows, entries, now))
    ensures View(UpsertAll(rows, entries, now)) == View(rows) + ToLists(entries)
  {
    if entries != [] {
      var init, last := entries[..|entries| - 1], entries[|entries| - 1];
      UpsertAllView(rows, init, now);
      UpsertView(UpsertAll(rows, init, now), last.0, last.1, now);
      MapUpdateUnion(View(rows), ToLists(init), last.0, last.1);
    }
  }

  /** `PUT /lists` keeps the primary key unique. */
  lemma {:induction false} UpsertAllIds(rows: seq<ListRow>, entries: seq<(string, seq<string>)>, now: Time)
    requires UniqueListIds(rows)
    ensures UniqueListIds(UpsertAll(rows, entries, now))
  {
    if entries != [] {
      var init, last := entries[..|entries| - 1], entries[|entries| - 1];
      UpsertAllIds(rows, init, now);
      UpsertIds(UpsertAll(rows, init, now), last.0, last.1, now);
    }
  }

  /** The rows the seeding loop inserts into the empty table, with ids 1, 2, ... */
  function Seeded(entries: seq<(string, seq<string>)>, now: Time): (rows: seq<ListRow>)
    ensures |rows| == |entries|
    ensures forall i | 0 <= i < |rows| ::
      rows[i] == ListRow(i + 1, entries[i].0, entries[i].1, now)
  {
    seq(|entries|, i requires 0 <= i < |entries| => ListRow(i + 1, entries[i].0, entries[i].1, now))
  }

  /** The seeded table reads back as the lists that seeded it. */
  lemma {:induction false} SeededView(entries: seq<(string, seq<string>)>, now: Time)
    ensures View(Seeded(entries, now)) == ToLists(entries)
  {
    if entries != [] {
      var n := |entries| - 1;
      assert Seeded(entries, now)[..n] == Seeded(entries[..n], now);
      SeededView(entries[..n], now);
    }
  }
}
