/** Conversion of the three epoch conventions found in the databases (Cocoa,
    Unix, WebKit) to naive calendar instants, the magnitude heuristic that
    picks one when the convention is unknown, and the fixed display format.
    A timestamp arrives as a SQLite number or NULL (`Option<real>`); Python's
    float division is modelled as exact division of reals. */
module Timestamp {
  import opened Wrappers
  import opened Text
  import Calendar

  const MicrosPerSecond := 1_000_000

  /** Seconds from 0001-01-01 00:00:00 to 10000-01-01 00:00:00. */
  const MaxSeconds := 315537897600

  /** The same span in microseconds. */
  const MaxMicros := 315537897600000000

  lemma EndOfRange()
    ensures MaxSeconds == Calendar.MaxDays * Calendar.SecondsPerDay
    ensures MaxMicros == MaxSeconds * MicrosPerSecond
  {
  }

  /** A naive `datetime`: whole seconds since 0001-01-01 00:00:00 and the
      microseconds within that second. */
  datatype DateTime = DateTime(seconds: int, micro: int)

  /** The `datetime` values Python can represent: years 1 to 9999. */
  type Instant = t: DateTime | 0 <= t.seconds < MaxSeconds && 0 <= t.micro < MicrosPerSecond
    witness DateTime(0, 0)

  /** Microseconds since 0001-01-01 00:00:00. */
  function Micros(t: Instant): (m: int)
    ensures 0 <= m < MaxMicros
  {
    t.seconds * MicrosPerSecond + t.micro
  }

  /** The instant `m` microseconds after 0001-01-01 00:00:00. */
  function FromMicros(m: int): (t: Instant)
    requires 0 <= m < MaxMicros
    ensures Micros(t) == m
  {
    DateTime(m / MicrosPerSecond, m % MicrosPerSecond)
  }

  /** An instant is determined by its count of microseconds. */
  lemma MicrosInjective(a: Instant, b: Instant)
    requires Micros(a) == Micros(b)
    ensures a == b
  {
    assert a.seconds == Micros(a) / MicrosPerSecond && b.seconds == Micros(b) / MicrosPerSecond;
  }

  /** Seconds from 0001-01-01 to midnight of January 1st of `year`. */
  function NewYear(year: int): (secs: int)
    requires 1 <= year <= Calendar.MaxYear
    ensures 0 <= secs < MaxSeconds
  {
    Calendar.YearsIncrease(year, Calendar.MaxYear + 1);
    Calendar.DaysBeforeYear(year) * Calendar.SecondsPerDay
  }

  /** `NewYear(year)` is midnight, January 1st, of that year. */
  lemma NewYearFields(year: int)
    requires 1 <= year <= Calendar.MaxYear
    ensures Calendar.ToCivil(NewYear(year)) == Calendar.Civil(year, 1, 1, 0, 0, 0)
  {
    var c := Calendar.Civil(year, 1, 1, 0, 0, 0);
    Calendar.ToCivilSeconds(c);
    assert Calendar.CivilSeconds(c) == NewYear(year);
  }

  const CocoaEpoch: Instant := DateTime(NewYear(2001), 0)
  const UnixEpoch: Instant := DateTime(NewYear(1970), 0)
  const WebkitEpoch: Instant := DateTime(NewYear(1601), 0)

  /** Seconds from the Unix epoch to the Cocoa epoch. */
  const CocoaOffset := 978307200

  /** The offset constant is the gap between the two epochs: 11323 whole days. */
  lemma CocoaOffsetIsEpochGap()
    ensures CocoaEpoch.seconds - UnixEpoch.seconds == CocoaOffset
    ensures CocoaOffset == 11323 * Calendar.SecondsPerDay
  {
  }

  // ---------------------------------------------------------------------
  // Converters

  /** Python's `not ts` is false: the value is present and non-zero. */
  predicate Truthy(ts: Option<real>) {
    ts.Some? && ts.value != 0.0
  }

  /** `r` is the instant `offset` microseconds after `epoch`, cut down to a
      whole microsecond, or `None` exactly when that moment lies outside the
      years 1 to 9999 (where Python raises OverflowError or ValueError). */
  predicate Denotes(r: Option<Instant>, epoch: Instant, offset: real) {
    var ideal := Micros(epoch) as real + offset;
    && (r.Some? <==> 0.0 <= ideal < MaxMicros as real)
    && (r.Some? ==> Micros(r.value) as real <= ideal < Micros(r.value) as real + 1.0)
  }

  /** At most one result denotes a given moment. */
  lemma DenotesUnique(r1: Option<Instant>, r2: Option<Instant>, epoch: Instant, offset: real)
    requires Denotes(r1, epoch, offset) && Denotes(r2, epoch, offset)
    ensures r1 == r2
  {
    if r1.Some? {
      assert Micros(r1.value) == Micros(r2.value);
      MicrosInjective(r1.value, r2.value);
    }
  }

  /** `epoch + timedelta(microseconds=offset)`, or `None` out of range. */
  function After(epoch: Instant, offset: real): (r: Option<Instant>)
    ensures Denotes(r, epoch, offset)
  {
    var m := Micros(epoch) + offset.Floor;
    if 0 <= m < MaxMicros then Some(FromMicros(m)) else None
  }

  /** `cocoa_to_datetime`: seconds after 2001-01-01, or nanoseconds when the
      value exceeds 1e15. */
  function CocoaToDatetime(ts: Option<real>): (r: Option<Instant>)
    ensures !Truthy(ts) ==> r == None
    ensures Truthy(ts) && ts.value > 1e15 ==> Denotes(r, CocoaEpoch, ts.value / 1000.0)
    ensures Truthy(ts) && ts.value <= 1e15 ==> Denotes(r, CocoaEpoch, ts.value * 1e6)
  {
    if !Truthy(ts) then None
    else
      var seconds := if ts.value > 1e15 then ts.value / 1e9 else ts.value;
      After(CocoaEpoch, seconds * 1e6)
  }

  /** `unix_to_datetime`, read in UTC: seconds after 1970-01-01, or
      milliseconds when the value exceeds 1e12. */
  function UnixToDatetime(ts: Option<real>): (r: Option<Instant>)
    ensures !Truthy(ts) ==> r == None
    ensures Truthy(ts) && ts.value > 1e12 ==> Denotes(r, UnixEpoch, ts.value * 1000.0)
    ensures Truthy(ts) && ts.value <= 1e12 ==> Denotes(r, UnixEpoch, ts.value * 1e6)
  {
    if !Truthy(ts) then None
    else
      var seconds := if ts.value > 1e12 then ts.value / 1000.0 else ts.value;
      After(UnixEpoch, seconds * 1e6)
  }

  /** `webkit_to_datetime`: always microseconds after 1601-01-01. */
  function WebkitToDatetime(ts: Option<real>): (r: Option<Instant>)
    ensures !Truthy(ts) ==> r == None
    ensures Truthy(ts) ==> Denotes(r, WebkitEpoch, ts.value)
  {
    if !Truthy(ts) then None else After(WebkitEpoch, ts.value)
  }

  /** `auto_convert`: the convention is guessed from the magnitude, testing
      the thresholds in the order 1e18, 1e16, 1e12, 8e8. The contract lists
      how each band is finally read; two bands are scaled twice because the
      converter called re-applies its own threshold to the scaled value. */
  function AutoConvert(ts: Option<real>): (r: Option<Instant>)
    ensures !Truthy(ts) ==> r == None
    // above 1e24: divided by 1e9 twice, so read as units of 1e-18 s
    ensures Truthy(ts) && ts.value > 1e24 ==> Denotes(r, CocoaEpoch, ts.value / 1e12)
    // (1e18, 1e24]: Cocoa nanoseconds
    ensures Truthy(ts) && 1e18 < ts.value <= 1e24 ==> Denotes(r, CocoaEpoch, ts.value / 1000.0)
    // (1e16, 1e18]: WebKit microseconds
    ensures Truthy(ts) && 1e16 < ts.value <= 1e18 ==> Denotes(r, WebkitEpoch, ts.value)
    // (1e15, 1e16]: divided by 1000 twice, so read as Unix microseconds
    ensures Truthy(ts) && 1e15 < ts.value <= 1e16 ==> Denotes(r, UnixEpoch, ts.value)
    // (1e12, 1e15]: Unix milliseconds
    ensures Truthy(ts) && 1e12 < ts.value <= 1e15 ==> Denotes(r, UnixEpoch, ts.value * 1000.0)
    // [8e8, 1e12]: Unix seconds
    ensures Truthy(ts) && 8e8 <= ts.value <= 1e12 ==> Denotes(r, UnixEpoch, ts.value * 1e6)
    // below 8e8, negative values included: Cocoa seconds
    ensures Truthy(ts) && ts.value < 8e8 ==> Denotes(r, CocoaEpoch, ts.value * 1e6)
  {
    if !Truthy(ts) then None
    else
      var t := ts.value;
      if t > 1e18 then CocoaToDatetime(Some(t / 1e9))
      else if t > 1e16 then WebkitToDatetime(ts)
      else if t > 1e12 then UnixToDatetime(Some(t / 1000.0))
      else if t < 8e8 then CocoaToDatetime(ts)
      else UnixToDatetime(ts)
  }

  // ---------------------------------------------------------------------
  // Display

  /** The fields of the second that holds `t`. */
  function Fields(t: Instant): (c: Calendar.Civil)
    ensures Calendar.Valid(c) && Calendar.CivilSeconds(c) == t.seconds
  {
    Calendar.ToCivil(t.seconds)
  }

  /** The instant at the start of the second the fields name. */
  function CivilInstant(c: Calendar.Civil): (t: Instant)
    requires Calendar.Valid(c)
    ensures t.micro == 0 && Fields(t) == c
  {
    Calendar.ToCivilSeconds(c);
    DateTime(Calendar.CivilSeconds(c), 0)
  }

  /** Reads the fixed display format back to the instant it names. */
  function ParseTs(s: string): (r: Option<Instant>)
    ensures r.Some? ==> r.value.micro == 0
  {
    match Calendar.Parse(s, ' ')
    case None => None
    case Some(c) => Some(CivilInstant(c))
  }

  /** `format_ts` with its default pattern `%Y-%m-%d %H:%M:%S`: the empty
      string for an absent instant; otherwise 19 characters that read back
      to the instant with its microseconds dropped. */
  function FormatTs(dt: Option<Instant>): (s: string)
    ensures dt.None? ==> s == ""
    ensures dt.Some? ==> |s| == 19 && ParseTs(s) == Some(DateTime(dt.value.seconds, 0))
  {
    match dt
    case None => ""
    case Some(t) =>
      Calendar.ParseFormat(Fields(t), ' ');
      Calendar.Format(Fields(t), ' ')
  }

  /** Two instants display the same exactly when they fall in the same second. */
  lemma FormatTsSameSecond(a: Instant, b: Instant)
    ensures FormatTs(Some(a)) == FormatTs(Some(b)) <==> a.seconds == b.seconds
  {
  }

  /** `datetime.isoformat(sep)` (and `str()` with `sep` a space): the
      fixed-width fields, then `.ffffff` only when there are microseconds. */
  function IsoFormat(t: Instant, sep: char): (s: string)
    ensures |s| == 19 || |s| == 26
  {
    Calendar.Format(Fields(t), sep) + (if t.micro != 0 then "." + Pad(t.micro, 6) else "")
  }

  /** Six digits of a fraction of a second, read as microseconds. */
  function FractionValue(d: string): (v: nat)
    requires |d| == 6 && AllDigits(d)
    ensures v < MicrosPerSecond && Pad(v, 6) == d
  {
    PadDigits(d);
    DigitsValue(d)
  }

  lemma FractionPieces(s: string, sep: char, c: Calendar.Civil)
    requires |s| == 26 && s[19] == '.' && AllDigits(s[20..])
    requires Calendar.Parse(s[..19], sep) == Some(c)
    ensures Calendar.Format(c, sep) + ("." + Pad(FractionValue(s[20..]), 6)) == s
  {
    Calendar.FormatParse(s[..19], sep);
    CharAt(s, 19);
  }

  /** `datetime.fromisoformat` restricted to the two shapes `IsoFormat`
      writes. */
  function ParseIso(s: string, sep: char): Option<Instant> {
    if |s| < 19 then None
    else
      match Calendar.Parse(s[..19], sep)
      case None => None
      case Some(c) =>
        var whole := CivilInstant(c);
        if |s| == 19 then Some(whole)
        else if |s| == 26 && s[19] == '.' && AllDigits(s[20..]) && FractionValue(s[20..]) != 0 then
          Some(DateTime(whole.seconds, FractionValue(s[20..])))
        else None
  }

  lemma ParseWholeSound(s: string, sep: char)
    requires |s| == 19 && Calendar.Parse(s, sep).Some?
    ensures IsoFormat(CivilInstant(Calendar.Parse(s, sep).value), sep) == s
  {
    Calendar.FormatParse(s, sep);
  }

  lemma ParseFractionSound(s: string, sep: char, c: Calendar.Civil)
    requires |s| == 26 && s[19] == '.' && AllDigits(s[20..]) && FractionValue(s[20..]) != 0
    requires Calendar.Parse(s[..19], sep) == Some(c)
    ensures IsoFormat(DateTime(CivilInstant(c).seconds, FractionValue(s[20..])), sep) == s
  {
    FractionPieces(s, sep, c);
  }

  /** Whatever `ParseIso` accepts is exactly the ISO text of its result. */
  lemma ParseIsoSound(s: string, sep: char)
    ensures ParseIso(s, sep).Some? ==> IsoFormat(ParseIso(s, sep).value, sep) == s
  {
    if |s| >= 19 && Calendar.Parse(s[..19], sep).Some? {
      var c := Calendar.Parse(s[..19], sep).value;
      if |s| == 19 {
        assert s[..19] == s;
        assert ParseIso(s, sep) == Some(CivilInstant(c));
        ParseWholeSound(s, sep);
      } else if |s| == 26 && s[19] == '.' && AllDigits(s[20..]) && FractionValue(s[20..]) != 0 {
        assert ParseIso(s, sep) == Some(DateTime(CivilInstant(c).seconds, FractionValue(s[20..])));
        ParseFractionSound(s, sep, c);
      }
    }
  }

  /** The ISO text starts with the fields and reads them back. */
  lemma IsoHead(t: Instant, sep: char)
    ensures IsoFormat(t, sep)[..19] == Calendar.Format(Fields(t), sep)
    ensures Calendar.Parse(IsoFormat(t, sep)[..19], sep) == Some(Fields(t))
  {
    Calendar.ParseFormat(Fields(t), sep);
  }

  lemma SuffixAfter(a: string, b: string)
    requires |b| > 0
    ensures (a + b)[|a|] == b[0] && (a + b)[|a| + 1..] == b[1..]
  {
  }

  /** The ISO text of an instant with microseconds ends with them. */
  lemma IsoTail(t: Instant, sep: char)
    requires t.micro != 0
    ensures |IsoFormat(t, sep)| == 26 && IsoFormat(t, sep)[19] == '.'
    ensures IsoFormat(t, sep)[20..] == Pad(t.micro, 6)
  {
    var head, tail := Calendar.Format(Fields(t), sep), "." + Pad(t.micro, 6);
    assert IsoFormat(t, sep) == head + tail;
    assert |head| == 19 && |tail| == 7;
    SuffixAfter(head, tail);
  }

  /** `t.isoformat()`: the ISO text with `T` between date and time; it
      reads back to `t`. */
  function IsoText(t: Instant): (s: string)
    ensures ParseIso(s, 'T') == Some(t)
  {
    IsoRoundTrip(t, 'T');
    IsoFormat(t, 'T')
  }

  /** The ISO text of an instant reads back to the same instant. */
  lemma IsoRoundTrip(t: Instant, sep: char)
    ensures ParseIso(IsoFormat(t, sep), sep) == Some(t)
  {
    IsoHead(t, sep);
    if t.micro != 0 {
      IsoTail(t, sep);
      assert FractionValue(IsoFormat(t, sep)[20..]) == t.micro;
    }
  }
}
