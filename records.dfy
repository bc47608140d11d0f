/** The values the parsers read from SQLite rows and write into their
    records, with the Python conversions applied to them: truthiness,
    `int()`, `round()`, `//` and `%`, label tables keyed by integer codes,
    and the optional `LIMIT` suffix of a query. */
module Records {
  import opened Wrappers
  import opened Text
  import opened PyDict
  import Timestamp

  /** A column value as `sqlite3` returns it (NULL, INTEGER, REAL, TEXT, BLOB),
      or a `bool` a parser computed. */
  datatype Field = Null | Bool(b: bool) | Int(i: int) | Real(r: real) | Str(s: string) | Blob(bytes: seq<byte>)

  /** One output record: a dict from column names to values. */
  type Record = Dict<Field>

  /** Python's `bool(x)`. */
  predicate Truthy(f: Field) {
    match f
    case Null => false
    case Bool(b) => b
    case Int(i) => i != 0
    case Real(r) => r != 0.0
    case Str(s) => s != ""
    case Blob(b) => b != []
  }

  /** `x or 0` for a numeric column: NULL and zero both give zero. */
  function OrZero(x: Option<real>): (r: real)
    ensures x.Some? ==> r == x.value
    ensures x.None? ==> r == 0.0
  {
    if x.Some? && x.value != 0.0 then x.value else 0.0
  }

  // ---------------------------------------------------------------------
  // Label tables: `TABLE.get(code, 'unknown')`

  /** The integer key a column value finds in a dict with `int` keys: Python
      hashes `True` as 1 and an integral float as that integer. */
  function CodeOf(f: Field): (c: Option<int>)
    ensures c.Some? <==> f.Int? || f.Bool? || (f.Real? && f.r.Floor as real == f.r)
  {
    match f
    case Int(i) => Some(i)
    case Bool(b) => Some(if b then 1 else 0)
    case Real(r) => if r.Floor as real == r then Some(r.Floor) else None
    case _ => None
  }

  function Label(table: map<int, string>, f: Field): string {
    var c := CodeOf(f);
    if c.Some? && c.value in table then table[c.value] else "unknown"
  }

  /** The fallback label is given exactly to codes outside the table, as long
      as the table does not itself use the word. */
  lemma LabelUnknown(table: map<int, string>, f: Field)
    requires "unknown" !in table.Values
    ensures Label(table, f) == "unknown" <==> !(CodeOf(f).Some? && CodeOf(f).value in table)
    ensures CodeOf(f).Some? && CodeOf(f).value in table ==> Label(table, f) == table[CodeOf(f).value]
  {
    var c := CodeOf(f);
    if c.Some? && c.value in table {
      assert table[c.value] in table.Values;
    }
  }

  // ---------------------------------------------------------------------
  // Numbers

  /** `int(x)` on a float: truncation toward zero. */
  function Trunc(x: real): (n: int)
    ensures x >= 0.0 ==> n as real <= x < n as real + 1.0
    ensures x < 0.0 ==> n as real - 1.0 < x <= n as real
  {
    if x >= 0.0 then x.Floor else -((-x).Floor)
  }

  /** `x // 60` and `x % 60` on a number of seconds: the floored quotient and
      a remainder in `[0, 60)`. */
  function MinutesAndSeconds(x: real): (ms: (int, real))
    ensures 0.0 <= ms.1 < 60.0 && ms.0 as real * 60.0 + ms.1 == x
  {
    var m := (x / 60.0).Floor;
    (m, x - m as real * 60.0)
  }

  /** The integer nearest to `y`, ties going to the even neighbour. */
  predicate NearestEven(y: real, n: int) {
    && -0.5 <= n as real - y <= 0.5
    && (n as real - y == 0.5 || n as real - y == -0.5 ==> n % 2 == 0)
  }

  /** `round(y)`: Python rounds half to even. */
  function RoundHalfEven(y: real): (n: int)
    ensures NearestEven(y, n)
  {
    var f := y.Floor;
    var frac := y - f as real;
    if frac < 0.5 then f
    else if frac > 0.5 then f + 1
    else if f % 2 == 0 then f else f + 1
  }

  /** Only one integer is nearest with ties to even. */
  lemma NearestEvenUnique(y: real, m: int, n: int)
    requires NearestEven(y, m) && NearestEven(y, n)
    ensures m == n
  {
    if m < n {
      assert false;
    } else if n < m {
      assert false;
    }
  }

  /** `round(x, digits)` on exact reals: the multiple of `10^-digits` nearest
      to `x`, ties to an even last digit. */
  function RoundTo(x: real, digits: nat): (r: real)
    ensures Scaled(r, digits).Floor as real == Scaled(r, digits)
    ensures NearestEven(Scaled(x, digits), Scaled(r, digits).Floor)
  {
    var n := RoundHalfEven(Scaled(x, digits));
    var r := n as real / Pow10(digits) as real;
    assert Scaled(r, digits) == n as real;
    r
  }

  /** Zero rounds to zero at every precision. */
  lemma RoundToZero(digits: nat)
    ensures RoundTo(0.0, digits) == 0.0
  {
    var r := RoundTo(0.0, digits);
    assert Scaled(0.0, digits) == 0.0;
    NearestEvenUnique(0.0, Scaled(r, digits).Floor, 0);
    assert r * Pow10(digits) as real == 0.0;
  }

  /** `x * 10^digits`. */
  function Scaled(x: real, digits: nat): real {
    x * Pow10(digits) as real
  }

  // ---------------------------------------------------------------------
  // Queries

  /** `if limit: query += f" LIMIT {limit}"`: 0 and None leave the query alone. */
  function WithLimit(query: string, limit: Option<int>): (q: string)
    ensures !(limit.Some? && limit.value != 0) ==> q == query
    ensures limit.Some? && limit.value != 0 ==>
      && |q| > |query| + 7 && q[..|query|] == query && q[|query|..|query| + 7] == " LIMIT "
      && ParseInt(q[|query| + 7..]) == limit
  {
    if limit.Some? && limit.value != 0 then
      var q := query + " LIMIT " + IntText(limit.value);
      Slices3(query, " LIMIT ", IntText(limit.value));
      ParseIntText(limit.value);
      q
    else query
  }

  /** A parameterised query: the SQL text and the values bound to its `?`s. */
  datatype Query = Query(sql: string, params: seq<Field>)

  /** `f'%{keyword}%'`: the keyword verbatim between two `%` wildcards (a `%`
      or `_` inside the keyword stays a wildcard). */
  function LikePattern(keyword: string): (p: string)
    ensures |p| == |keyword| + 2 && p[0] == '%' && p[|p| - 1] == '%'
    ensures p[1..|p| - 1] == keyword
  {
    "%" + keyword + "%"
  }

  /** A TEXT column that may be NULL, as the record stores it. */
  function TextField(t: Option<string>): (f: Field)
    ensures t.Some? <==> f.Str?
    ensures t.Some? ==> f.s == t.value
    ensures t.None? ==> f == Null
  {
    if t.Some? then Str(t.value) else Null
  }

  // ---------------------------------------------------------------------
  // Timestamps in records

  /** `format_ts(cocoa_to_datetime(x))`, the text every parser stores for a
      Cocoa timestamp column. */
  function CocoaText(ts: Option<real>): (f: Field)
    ensures f.Str?
    ensures !Timestamp.Truthy(ts) ==> f.s == ""
    ensures Timestamp.CocoaToDatetime(ts).Some? ==>
      |f.s| == 19 && Timestamp.ParseTs(f.s) == Some(Timestamp.DateTime(Timestamp.CocoaToDatetime(ts).value.seconds, 0))
  {
    Str(Timestamp.FormatTs(Timestamp.CocoaToDatetime(ts)))
  }
}
