/** The proleptic Gregorian calendar of Python's `datetime` module, over its
    representable range (years 1 to 9999), at the resolution of one second:
    splitting a count of seconds since 0001-01-01 00:00:00 into calendar
    fields, the fixed `%Y-%m-%d %H:%M:%S` rendering of those fields, and a
    reader for that rendering. */
module Calendar {
  import opened Wrappers
  import opened Text

  const SecondsPerDay := 86400
  const MaxYear := 9999

  // ---------------------------------------------------------------------
  // Years

  predicate IsLeap(y: int) {
    y % 4 == 0 && (y % 100 != 0 || y % 400 == 0)
  }

  function DaysInYear(y: int): int {
    if IsLeap(y) then 366 else 365
  }

  /** Days from 0001-01-01 to January 1st of year `y`. */
  function DaysBeforeYear(y: int): int
    requires y >= 1
  {
    var p := y - 1;
    365 * p + p / 4 - p / 100 + p / 400
  }

  lemma NextYear(y: int)
    requires y >= 1
    ensures DaysBeforeYear(y + 1) == DaysBeforeYear(y) + DaysInYear(y)
  {
    DivStep(y, 4);
    DivStep(y, 100);
    DivStep(y, 400);
    Multiples(y);
  }

  /** A multiple of 400 is one of 100, and a multiple of 100 one of 4. */
  lemma Multiples(y: int)
    ensures y % 400 == 0 ==> y % 100 == 0
    ensures y % 100 == 0 ==> y % 4 == 0
  {
    var k := y / 400;
    if y % 400 == 0 {
      assert y == 400 * k;
      MultipleOf(y, 100, 4 * k);
    }
    var j := y / 100;
    if y % 100 == 0 {
      assert y == 100 * j;
      MultipleOf(y, 4, 25 * j);
    }
  }

  lemma MultipleOf(y: int, n: int, k: int)
    requires n > 0 && y == n * k
    ensures y % n == 0 && y / n == k
  {
    DivUnique(y, n, k, 0);
  }

  /** The quotient and remainder of Euclidean division are the only ones. */
  lemma DivUnique(y: int, n: int, q: int, r: int)
    requires n > 0 && 0 <= r < n && y == q * n + r
    ensures y / n == q && y % n == r
  {
    var q0, r0 := y / n, y % n;
    assert y == q0 * n + r0;
    if q0 > q {
      assert q0 * n >= (q + 1) * n by { MulMono(q + 1, q0, n); }
    } else if q0 < q {
      assert q * n >= (q0 + 1) * n by { MulMono(q0 + 1, q, n); }
    }
  }

  lemma MulMono(a: int, b: int, n: int)
    requires a <= b && n > 0
    ensures a * n <= b * n
  {
    assert b * n - a * n == (b - a) * n;
  }

  /** Going from `y - 1` to `y` adds one to the quotient exactly when `y`
      is a multiple. */
  lemma DivStep(y: int, n: int)
    requires n > 0
    ensures y / n == (y - 1) / n + (if y % n == 0 then 1 else 0)
  {
    var q, r := (y - 1) / n, (y - 1) % n;
    assert y - 1 == q * n + r;
    if r + 1 == n {
      assert y == (q + 1) * n + 0;
      DivUnique(y, n, q + 1, 0);
    } else {
      DivUnique(y, n, q, r + 1);
    }
  }

  lemma {:induction false} YearsIncrease(a: int, b: int)
    requires 1 <= a <= b
    ensures DaysBeforeYear(a) + 365 * (b - a) <= DaysBeforeYear(b)
    decreases b - a
  {
    if a < b {
      YearsIncrease(a, b - 1);
      NextYear(b - 1);
    }
  }

  /** The number of days in years 1 to 9999. */
  const MaxDays := 3652059

  lemma MaxDaysIsEndOfRange()
    ensures MaxDays == DaysBeforeYear(MaxYear + 1)
  {
  }

  /** The year that holds day `d`, searching upwards from year `y`. */
  function YearFrom(d: int, y: int): (r: int)
    requires 1 <= y && DaysBeforeYear(y) <= d
    ensures y <= r && DaysBeforeYear(r) <= d < DaysBeforeYear(r + 1)
    decreases d - DaysBeforeYear(y)
  {
    NextYear(y);
    if d < DaysBeforeYear(y + 1) then y else YearFrom(d, y + 1)
  }

  /** At most one year holds a given day. */
  lemma YearUnique(d: int, a: int, b: int)
    requires 1 <= a && DaysBeforeYear(a) <= d < DaysBeforeYear(a + 1)
    requires 1 <= b && DaysBeforeYear(b) <= d < DaysBeforeYear(b + 1)
    ensures a == b
  {
    if a < b {
      YearsIncrease(a + 1, b);
    } else if b < a {
      YearsIncrease(b + 1, a);
    }
  }

  // ---------------------------------------------------------------------
  // Months

  function DaysInMonth(y: int, m: int): int
    requires 1 <= m <= 12
  {
    if m == 2 then (if IsLeap(y) then 29 else 28)
    else if m == 4 || m == 6 || m == 9 || m == 11 then 30
    else 31
  }

  /** Days from January 1st to the first day of month `m` (13 is the next year). */
  function DaysBeforeMonth(y: int, m: int): int
    requires 1 <= m <= 13
  {
    [0, 31, 59, 90, 120, 151, 181, 212, 243, 273, 304, 334, 365][m - 1]
      + (if m > 2 && IsLeap(y) then 1 else 0)
  }

  lemma NextMonth(y: int, m: int)
    requires 1 <= m <= 12
    ensures DaysBeforeMonth(y, m + 1) == DaysBeforeMonth(y, m) + DaysInMonth(y, m)
    ensures DaysBeforeMonth(y, 13) == DaysInYear(y)
  {
  }

  lemma MonthsIncrease(y: int, a: int, b: int)
    requires 1 <= a <= b <= 13
    ensures DaysBeforeMonth(y, a) <= DaysBeforeMonth(y, b)
  {
  }

  /** The month of year `y` that holds day-of-year `dy`, searching from month `m`. */
  function MonthFrom(y: int, dy: int, m: int): (r: int)
    requires 1 <= m <= 12 && DaysBeforeMonth(y, m) <= dy < DaysInYear(y)
    ensures m <= r <= 12 && DaysBeforeMonth(y, r) <= dy < DaysBeforeMonth(y, r + 1)
    decreases 12 - m
  {
    NextMonth(y, m);
    if dy < DaysBeforeMonth(y, m + 1) then m else MonthFrom(y, dy, m + 1)
  }

  lemma MonthUnique(y: int, dy: int, a: int, b: int)
    requires 1 <= a <= 12 && DaysBeforeMonth(y, a) <= dy < DaysBeforeMonth(y, a + 1)
    requires 1 <= b <= 12 && DaysBeforeMonth(y, b) <= dy < DaysBeforeMonth(y, b + 1)
    ensures a == b
  {
    if a < b {
      MonthsIncrease(y, a + 1, b);
    } else if b < a {
      MonthsIncrease(y, b + 1, a);
    }
  }

  // ---------------------------------------------------------------------
  // Calendar fields

  datatype Civil = Civil(year: int, month: int, day: int, hour: int, minute: int, second: int)

  predicate Valid(c: Civil) {
    && 1 <= c.year <= MaxYear
    && 1 <= c.month <= 12
    && 1 <= c.day <= DaysInMonth(c.year, c.month)
    && 0 <= c.hour < 24 && 0 <= c.minute < 60 && 0 <= c.second < 60
  }

  /** Seconds from 0001-01-01 00:00:00 to the moment the fields name. */
  function CivilSeconds(c: Civil): int
    requires Valid(c)
  {
    (DaysBeforeYear(c.year) + DaysBeforeMonth(c.year, c.month) + c.day - 1) * SecondsPerDay
      + c.hour * 3600 + c.minute * 60 + c.second
  }

  /** The calendar fields of the moment `secs` seconds after 0001-01-01 00:00:00. */
  function ToCivil(secs: int): (c: Civil)
    requires 0 <= secs < MaxDays * SecondsPerDay
    ensures Valid(c) && CivilSeconds(c) == secs
  {
    var days, sod := secs / SecondsPerDay, secs % SecondsPerDay;
    var y := YearFrom(days, 1);
    if y > MaxYear then
      YearsIncrease(MaxYear + 1, y);
      assert false;
      Civil(1, 1, 1, 0, 0, 0)
    else
      NextYear(y);
      var dy := days - DaysBeforeYear(y);
      var m := MonthFrom(y, dy, 1);
      NextMonth(y, m);
      var c := Civil(y, m, dy - DaysBeforeMonth(y, m) + 1, sod / 3600, sod % 3600 / 60, sod % 60);
      assert sod == c.hour * 3600 + c.minute * 60 + c.second;
      c
  }

  lemma DayAndTime(days: int, sod: int)
    requires 0 <= sod < SecondsPerDay
    ensures (days * SecondsPerDay + sod) / SecondsPerDay == days
    ensures (days * SecondsPerDay + sod) % SecondsPerDay == sod
  {
  }

  /** The day a set of fields falls on, counted from 0001-01-01. */
  function CivilDay(c: Civil): int
    requires Valid(c)
  {
    DaysBeforeYear(c.year) + DaysBeforeMonth(c.year, c.month) + c.day - 1
  }

  /** Two sets of fields that name the same second are equal. */
  lemma CivilSecondsInjective(a: Civil, b: Civil)
    requires Valid(a) && Valid(b) && CivilSeconds(a) == CivilSeconds(b)
    ensures a == b
  {
    var sa := a.hour * 3600 + a.minute * 60 + a.second;
    var sb := b.hour * 3600 + b.minute * 60 + b.second;
    DayAndTime(CivilDay(a), sa);
    DayAndTime(CivilDay(b), sb);
    assert CivilDay(a) == CivilDay(b) && sa == sb;
    var d := CivilDay(a);
    NextYear(a.year);
    NextYear(b.year);
    NextMonth(a.year, a.month);
    NextMonth(b.year, b.month);
    MonthsIncrease(a.year, a.month + 1, 13);
    MonthsIncrease(b.year, b.month + 1, 13);
    YearUnique(d, a.year, b.year);
    MonthUnique(a.year, d - DaysBeforeYear(a.year), a.month, b.month);
  }

  /** Every valid set of fields is reached: `ToCivil` inverts `CivilSeconds`. */
  lemma ToCivilSeconds(c: Civil)
    requires Valid(c)
    ensures 0 <= CivilSeconds(c) < MaxDays * SecondsPerDay
    ensures ToCivil(CivilSeconds(c)) == c
  {
    NextMonth(c.year, c.month);
    MonthsIncrease(c.year, c.month + 1, 13);
    NextYear(c.year);
    YearsIncrease(c.year + 1, MaxYear + 1);
    assert 0 <= CivilDay(c) < MaxDays;
    CivilSecondsInjective(ToCivil(CivilSeconds(c)), c);
  }

  // ---------------------------------------------------------------------
  // The `%Y-%m-%d %H:%M:%S` rendering and its reader

  /** The fields as `YYYY-MM-DD<sep>HH:MM:SS`: `sep` is ' ' for `strftime` with
      the fixed pattern and for `str()`, 'T' for `isoformat()`. */
  function Format(c: Civil, sep: char): (s: string)
    requires Valid(c)
    ensures |s| == 19
  {
    Pad(c.year, 4) + "-" + Pad(c.month, 2) + "-" + Pad(c.day, 2) + [sep]
      + Pad(c.hour, 2) + ":" + Pad(c.minute, 2) + ":" + Pad(c.second, 2)
  }

  /** Reads `YYYY-MM-DD<sep>HH:MM:SS` back into fields; `None` for any other text
      or for fields that name no moment. */
  function Parse(s: string, sep: char): (r: Option<Civil>)
    ensures r.Some? ==> Valid(r.value)
  {
    if |s| == 19 && s[4] == '-' && s[7] == '-' && s[10] == sep && s[13] == ':' && s[16] == ':'
       && AllDigits(s[0..4]) && AllDigits(s[5..7]) && AllDigits(s[8..10])
       && AllDigits(s[11..13]) && AllDigits(s[14..16]) && AllDigits(s[17..19])
    then
      var c := Civil(DigitsValue(s[0..4]), DigitsValue(s[5..7]), DigitsValue(s[8..10]),
                     DigitsValue(s[11..13]), DigitsValue(s[14..16]), DigitsValue(s[17..19]));
      if Valid(c) then Some(c) else None
    else None
  }

  /** The rendering is read back to the same fields. */
  lemma ParseFormat(c: Civil, sep: char)
    requires Valid(c)
    ensures Parse(Format(c, sep), sep) == Some(c)
  {
    FormatFields(c, sep);
  }

  /** Where each field and separator sits in the rendering. */
  lemma FormatFields(c: Civil, sep: char)
    requires Valid(c)
    ensures var s := Format(c, sep);
      && s[4] == '-' && s[7] == '-' && s[10] == sep && s[13] == ':' && s[16] == ':'
      && s[0..4] == Pad(c.year, 4) && s[5..7] == Pad(c.month, 2) && s[8..10] == Pad(c.day, 2)
      && s[11..13] == Pad(c.hour, 2) && s[14..16] == Pad(c.minute, 2) && s[17..19] == Pad(c.second, 2)
  {
    var s := Format(c, sep);
    var date := Pad(c.year, 4) + "-" + Pad(c.month, 2) + "-" + Pad(c.day, 2);
    var time := Pad(c.hour, 2) + ":" + Pad(c.minute, 2) + ":" + Pad(c.second, 2);
    assert s == date + [sep] + time;
    ThreeFields(Pad(c.year, 4), '-', Pad(c.month, 2), '-', Pad(c.day, 2));
    ThreeFields(Pad(c.hour, 2), ':', Pad(c.minute, 2), ':', Pad(c.second, 2));
    assert s[0..10] == date;
    assert s[11..19] == time;
  }

  /** Where the pieces of `a x b y c` sit, for a piece of four or two digits
      followed by two of two. */
  lemma ThreeFields(a: string, x: char, b: string, y: char, c: string)
    requires |b| == 2 && |c| == 2
    ensures var s := a + [x] + b + [y] + c;
      && |s| == |a| + 6 && s[..|a|] == a && s[|a|] == x && s[|a| + 1..|a| + 3] == b
      && s[|a| + 3] == y && s[|a| + 4..] == c
  {
    var s := a + [x] + b + [y] + c;
    assert s[..|a|] == a;
    assert s[|a| + 1..|a| + 3] == b;
    assert s[|a| + 4..] == c;
  }

  /** A 19-character string is its six fields and the five characters between them. */
  lemma Pieces(s: string)
    requires |s| == 19
    ensures s == s[0..4] + [s[4]] + s[5..7] + [s[7]] + s[8..10] + [s[10]]
                 + s[11..13] + [s[13]] + s[14..16] + [s[16]] + s[17..19]
  {
  }

  /** Whatever `Parse` accepts is exactly the rendering of what it returns. */
  lemma FormatParse(s: string, sep: char)
    requires Parse(s, sep).Some?
    ensures Format(Parse(s, sep).value, sep) == s
  {
    var c := Parse(s, sep).value;
    var y, mo, d, h, mi, se := s[0..4], s[5..7], s[8..10], s[11..13], s[14..16], s[17..19];
    assert c == Civil(DigitsValue(y), DigitsValue(mo), DigitsValue(d), DigitsValue(h), DigitsValue(mi), DigitsValue(se));
    PadDigits(y);
    PadDigits(mo);
    PadDigits(d);
    PadDigits(h);
    PadDigits(mi);
    PadDigits(se);
    Pieces(s);
    assert s == y + "-" + mo + "-" + d + [sep] + h + ":" + mi + ":" + se;
  }
}
