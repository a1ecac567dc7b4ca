/**
 * Shared vocabulary of the bookkeeping backend model: optional values, the
 * keys of a JSON request body, the error kinds the handlers report, the JSON
 * values the entities are serialized to, and small sequence and text helpers
 * that stand in for the storage engine's queries.
 */
module Base {

  /** Clock readings (`datetime.utcnow()`) as an ordered count. */
  type Time = int

  /** Calendar dates (`date.today()`, a `Date` column) as an ordered day count. */
  type Day = int

  /** An invoice reference record, kept as the fields of its JSON object. */
  type Invoice = map<string, string>

  datatype Option<T> = None | Some(value: T)

  /**
   * One key of a JSON request body: not sent at all, sent as `null`, or sent
   * with a value. `Sent()` is Python's `key in data`, `Get()` is `data.get(key)`.
   */
  datatype Field<T> = Absent | Null | Given(value: T) {
    predicate Sent() {
      !Absent?
    }

    function Get(): Option<T> {
      if Given? then Some(value) else None
    }

    /** `data.get(key, default)`: the default is used only when the key is missing. */
    function GetOr(default: Option<T>): Option<T> {
      if Absent? then default else Get()
    }
  }

  /** A text key is truthy in Python when it is sent with a non-empty string. */
  predicate TextSupplied(f: Field<string>) {
    f.Given? && f.value != ""
  }

  /** A number key is truthy in Python when it is sent with a non-zero number. */
  predicate NumberSupplied(f: Field<int>) {
    f.Given? && f.value != 0
  }

  /** An UPDATE of a NOT NULL column: a key that is sent overwrites, a missing key keeps the stored value. */
  function Overwrite<T>(stored: T, f: Field<T>): (r: T)
    requires !f.Null?
    ensures f.Absent? ==> r == stored
    ensures f.Given? ==> r == f.value
  {
    if f.Given? then f.value else stored
  }

  /** An UPDATE of a nullable column: a key sent as `null` stores NULL. */
  function OverwriteNullable<T>(stored: Option<T>, f: Field<T>): (r: Option<T>)
    ensures f.Absent? ==> r == stored
    ensures f.Sent() ==> r == f.Get()
  {
    if f.Sent() then f.Get() else stored
  }

  /**
   * What an INSERT stores for a column with a default: an attribute left at
   * None is omitted from the statement, so the column default applies.
   */
  function InsertDefault<T>(v: Option<T>, default: T): (r: T)
    ensures v.Some? ==> r == v.value
    ensures v.None? ==> r == default
  {
    if v.Some? then v.value else default
  }

  /** The failures the handlers report, each of which leaves the tables as they were. */
  datatype Error =
    | MissingField(name: string)  // 400 "Missing required field: <name>"
    | MissingKey(name: string)    // `data[name]` on a body without the key: a KeyError, reported as a 500
    | MissingCredentials          // 400 "Username and password are required"
    | Duplicate(what: string)     // 400 "<what> already exists"
    | NotFound                    // raised by get_or_404 / first_or_404
    | InvalidCredentials          // 401 "Invalid username or password"
    | StorageFailure              // a NOT NULL column set to None: the flush fails and is rolled back

  datatype Result<T> = Ok(value: T) | Err(error: Error)

  /** The reply of a handler that answers with a message only. */
  datatype Outcome = Done | Failed(error: Error)

  /** A JSON value as `to_dict` produces it. */
  datatype Value =
    | NullValue
    | BoolValue(b: bool)
    | IntValue(i: int)
    | TextValue(s: string)
    | TimeValue(t: Time)      // `isoformat()` of a timestamp
    | DayValue(d: Day)        // `isoformat()` of a date
    | InvoiceList(list: seq<Invoice>)

  function TextOrNull(v: Option<string>): Value {
    if v.Some? then TextValue(v.value) else NullValue
  }

  function IntOrNull(v: Option<int>): Value {
    if v.Some? then IntValue(v.value) else NullValue
  }

  function BoolOrNull(v: Option<bool>): Value {
    if v.Some? then BoolValue(v.value) else NullValue
  }

  function TimeOrNull(v: Option<Time>): Value {
    if v.Some? then TimeValue(v.value) else NullValue
  }

  /** The rows of `s` that satisfy `p`, in their order: a `WHERE` clause. */
  function Filter<T>(s: seq<T>, p: T -> bool): (r: seq<T>)
    ensures |r| <= |s|
    ensures forall x | x in r :: x in s && p(x)
    ensures forall x | x in s && p(x) :: x in r
    ensures multiset(r) <= multiset(s)
  {
    if s == [] then []
    else
      assert s == [s[0]] + s[1..];
      if p(s[0]) then [s[0]] + Filter(s[1..], p) else Filter(s[1..], p)
  }

  /** A `WHERE` clause keeps each row that satisfies it exactly as often as the table holds it. */
  lemma {:induction false} FilterMultiplicity<T>(s: seq<T>, p: T -> bool, x: T)
    ensures multiset(Filter(s, p))[x] == if p(x) then multiset(s)[x] else 0
  {
    if s != [] {
      FilterMultiplicity(s[1..], p, x);
      assert s == [s[0]] + s[1..];
    }
  }

  lemma FilterMultiplicities<T>(s: seq<T>, p: T -> bool)
    ensures forall x | x in s :: multiset(Filter(s, p))[x] == if p(x) then multiset(s)[x] else 0
  {
    forall x | x in s {
      FilterMultiplicity(s, p, x);
    }
  }

  /** Filtering twice is filtering once by the conjunction. */
  lemma {:induction false} FilterTwice<T>(s: seq<T>, f: T -> bool, g: T -> bool, h: T -> bool)
    requires forall x :: h(x) == (f(x) && g(x))
    ensures Filter(Filter(s, f), g) == Filter(s, h)
  {
    if s != [] {
      FilterTwice(s[1..], f, g, h);
    }
  }

  /** Filters that agree on every row select the same rows. */
  lemma {:induction false} FilterSame<T>(s: seq<T>, f: T -> bool, g: T -> bool)
    requires forall x :: f(x) == g(x)
    ensures Filter(s, f) == Filter(s, g)
  {
    if s != [] {
      FilterSame(s[1..], f, g);
    }
  }

  /** A filter every row passes keeps the whole table. */
  lemma {:induction false} FilterAll<T>(s: seq<T>, p: T -> bool)
    requires forall x :: p(x)
    ensures Filter(s, p) == s
  {
    if s != [] {
      FilterAll(s[1..], p);
    }
  }

  /** Two sequences with the same contents and the same head have the same contents after it. */
  lemma TailMultiset<T>(a: seq<T>, b: seq<T>)
    requires a != [] && b != [] && a[0] == b[0]
    requires multiset(a) == multiset(b)
    ensures multiset(a[1..]) == multiset(b[1..])
  {
    assert a == [a[0]] + a[1..];
    assert b == [b[0]] + b[1..];
    assert multiset(a[1..]) == multiset(a) - multiset{a[0]};
    assert multiset(b[1..]) == multiset(b) - multiset{b[0]};
  }

  /** `name` labels the first check in `checks` that fails. */
  predicate FirstFailing(checks: seq<(string, bool)>, name: string) {
    exists i | 0 <= i < |checks| :: checks[i].0 == name && !checks[i].1 && forall j | 0 <= j < i :: checks[j].1
  }

  /**
   * The loop over the required keys: the name of the first check that fails
   * (`if not data.get(field)`), or `None` when every key is supplied.
   */
  method FirstMissing(checks: seq<(string, bool)>) returns (missing: Option<string>)
    ensures missing.None? <==> forall i | 0 <= i < |checks| :: checks[i].1
    ensures missing.Some? ==> FirstFailing(checks, missing.value)
  {
    for i := 0 to |checks|
      invariant forall j | 0 <= j < i :: checks[j].1
    {
      if !checks[i].1 {
        return Some(checks[i].0);
      }
    }
    return None;
  }

  /** The position of the first row that satisfies `p`: a query's `.first()`. */
  function FirstIndex<T>(s: seq<T>, p: T -> bool): (r: Option<nat>)
    ensures r.Some? ==> r.value < |s| && p(s[r.value])
    ensures r.Some? ==> forall j :: 0 <= j < r.value ==> !p(s[j])
    ensures r.None? ==> forall j :: 0 <= j < |s| ==> !p(s[j])
  {
    if s == [] then None
    else if p(s[0]) then Some(0)
    else match FirstIndex(s[1..], p)
      case None => None
      case Some(i) => Some(i + 1)
  }

  /** The primary-key column of a table, row by row. */
  function IdsOf<T>(rows: seq<T>, id: T -> nat): (ids: seq<nat>)
    ensures |ids| == |rows|
    ensures forall i | 0 <= i < |rows| :: ids[i] == id(rows[i])
  {
    seq(|rows|, i requires 0 <= i < |rows| => id(rows[i]))
  }

  /**
   * The id the storage engine gives a new row: one more than the largest id in
   * the table, or 1 in an empty table.
   */
  function NextId(ids: seq<nat>): (n: nat)
    ensures n >= 1
    ensures forall j :: 0 <= j < |ids| ==> ids[j] < n
    ensures n == 1 || exists j | 0 <= j < |ids| :: n == ids[j] + 1
  {
    if ids == [] then 1
    else
      var rest := NextId(ids[1..]);
      if ids[0] < rest then rest else ids[0] + 1
  }

  predicate IsPrefix(p: string, s: string) {
    |p| <= |s| && s[..|p|] == p
  }

  /** `needle` occurs in `hay` as a contiguous piece: the `%needle%` pattern. */
  predicate Contains(hay: string, needle: string): (b: bool)
    ensures needle == [] ==> b
    ensures b ==> |needle| <= |hay|
    ensures b && |needle| == |hay| ==> needle == hay
    decreases |hay|
  {
    IsPrefix(needle, hay) || (hay != [] && Contains(hay[1..], needle))
  }

  /** `needle` occurs in `hay` starting at position `i`. */
  predicate OccursAt(hay: string, needle: string, i: int) {
    0 <= i <= |hay| - |needle| && hay[i..i + |needle|] == needle
  }

  /** `Contains` holds exactly when the needle occurs at some position. */
  lemma {:induction false} ContainsAt(hay: string, needle: string)
    ensures Contains(hay, needle) <==> exists i :: OccursAt(hay, needle, i)
    decreases |hay|
  {
    if IsPrefix(needle, hay) {
      assert OccursAt(hay, needle, 0);
    }
    if hay != [] {
      ContainsAt(hay[1..], needle);
      if Contains(hay[1..], needle) {
        var i :| OccursAt(hay[1..], needle, i);
        assert hay[i + 1..i + 1 + |needle|] == hay[1..][i..i + |needle|];
        assert OccursAt(hay, needle, i + 1);
      }
      if exists i :: OccursAt(hay, needle, i) {
        var i :| OccursAt(hay, needle, i);
        if i > 0 {
          assert hay[1..][i - 1..i - 1 + |needle|] == hay[i..i + |needle|];
          assert OccursAt(hay[1..], needle, i - 1);
        }
      }
    }
  }

  function Digit(d: nat): (c: char)
    requires d < 10
    ensures '0' <= c <= '9' && DigitValue(c) == d
  {
    ('0' as int + d) as char
  }

  /** The value of a decimal digit character. */
  function DigitValue(c: char): nat {
    if '0' <= c <= '9' then c as int - '0' as int else 0
  }

  /** The number a run of decimal digits denotes, most significant digit first. */
  function DigitsValue(s: string): nat {
    if s == [] then 0 else DigitsValue(s[..|s| - 1]) * 10 + DigitValue(s[|s| - 1])
  }

  /**
   * The decimal text of a natural number, most significant digit first: it
   * denotes the number and has no leading zero.
   */
  function NatText(n: nat): (s: string)
    ensures 1 <= |s|
    ensures forall i :: 0 <= i < |s| ==> '0' <= s[i] <= '9'
    ensures DigitsValue(s) == n
    ensures s[0] == '0' ==> s == "0"
  {
    if n < 10 then [Digit(n)]
    else
      var init := NatText(n / 10);
      assert (init + [Digit(n % 10)])[..|init|] == init;
      init + [Digit(n % 10)]
  }

  /**
   * The text an integer column compares as under `LIKE`: a minus sign for a
   * negative number, then the decimal text of its magnitude.
   */
  function DecimalText(n: int): (s: string)
    ensures 1 <= |s|
    ensures (s[0] == '-') <==> n < 0
    ensures var digits := if n < 0 then s[1..] else s;
      && 1 <= |digits| && (forall i :: 0 <= i < |digits| ==> '0' <= digits[i] <= '9')
      && DigitsValue(digits) == (if n < 0 then -n else n)
      && (digits[0] == '0' ==> digits == "0")
  {
    if n < 0 then
      var t := NatText(-n);
      assert ("-" + t)[1..] == t;
      "-" + t
    else NatText(n)
  }
}
