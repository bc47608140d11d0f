/** The call history parser (`CallHistory.storedata`): one record per call
    with a label for its type and an `m:ss` duration, a per-type summary
    keyed by label, and a per-number summary. */
module Calls {
  import opened Wrappers
  import opened Text
  import opened PyDict
  import opened Records
  import opened Base
  import Timestamp

  /** `CALL_TYPES`. */
  const CallTypes: map<int, string> := map[
    1 := "incoming", 2 := "outgoing", 3 := "missed", 4 := "blocked",
    5 := "incoming_facetime", 6 := "outgoing_facetime", 7 := "missed_facetime"]

  const ParseSql := "SELECT Z_PK, ZADDRESS, ZDATE, ZDURATION, ZCALLTYPE, ZANSWERED, ZORIGINATED, ZFACE_TIME_DATA FROM ZCALLRECORD ORDER BY ZDATE DESC"

  /** A fetched `ZCALLRECORD` row; date and duration are numbers or NULL. */
  datatype CallRow = CallRow(
    pk: Field, address: Field, date: Option<real>, duration: Option<real>,
    callType: Field, answered: Field, originated: Field, faceTimeData: Field)

  const CallKeys := ["id", "number", "date", "duration", "duration_fmt", "type", "answered", "outgoing", "facetime"]

  /** `f"{int(d // 60)}:{int(d % 60):02d}"`. */
  function DurationText(d: real): string {
    var ms := MinutesAndSeconds(d);
    IntText(ms.0) + ":" + Pad(ms.1.Floor, 2)
  }

  /** Reads `m:ss` back: the integer before the colon and the value of the
      two digits after it. */
  function ReadDuration(t: string): (r: Option<(int, nat)>)
    ensures r.Some? ==> |t| >= 4 && t[|t| - 3] == ':' && AllDigits(t[|t| - 2..])
  {
    if |t| >= 4 && t[|t| - 3] == ':' && AllDigits(t[|t| - 2..]) then
      match ParseInt(t[..|t| - 3])
      case Some(m) => Some((m, DigitsValue(t[|t| - 2..])))
      case None => None
    else None
  }

  lemma DurationPieces(m: int, s: nat)
    requires s < 60
    ensures ReadDuration(IntText(m) + ":" + Pad(s, 2)) == Some((m, s))
  {
    ColonSplit(IntText(m), Pad(s, 2));
    ParseIntText(m);
  }

  /** The pieces `ReadDuration` cuts out of `head:ss`. */
  lemma ColonSplit(head: string, secs: string)
    requires |secs| == 2
    ensures var t := head + ":" + secs;
      t[..|t| - 3] == head && t[|t| - 3] == ':' && t[|t| - 2..] == secs
  {
    var t := head + ":" + secs;
    assert t[..|head|] == head;
    assert t[|head| + 1..] == secs;
  }

  /** The duration text reads back as the whole minutes and the remaining
      whole seconds, 0 to 59, of the floor of `d` (for a non-negative `d`
      that floor is `int(d)`). */
  lemma DurationRoundTrip(d: real)
    ensures ReadDuration(DurationText(d)) == Some((d.Floor / 60, d.Floor % 60))
  {
    var ms := MinutesAndSeconds(d);
    var m, k := ms.0, ms.1.Floor;
    MinutesOfFloor(m, ms.1);
    assert d.Floor / 60 == m && d.Floor % 60 == k;
    assert DurationText(d) == IntText(m) + ":" + Pad(k, 2);
    DurationPieces(m, k);
  }

  /** `x // 60` and `int(x % 60)` are the quotient and remainder of the
      floor of `x` by 60. */
  lemma MinutesOfFloor(q: int, r: real)
    requires 0.0 <= r < 60.0
    ensures (q as real * 60.0 + r).Floor / 60 == q && (q as real * 60.0 + r).Floor % 60 == r.Floor
  {
    var k := r.Floor;
    var n := (q as real * 60.0 + r).Floor;
    assert (q * 60 + k) as real <= q as real * 60.0 + r < (q * 60 + k + 1) as real;
    assert n == q * 60 + k;
    assert 0 <= k < 60;
  }

  /** The record `parse` makes of a call: the truthiness of the answered
      and originated columns, and whether the FaceTime column is non-null. */
  function CallRecord(row: CallRow): (r: Record)
    ensures Keys(r) == CallKeys
    ensures Values(r) == [row.pk, row.address, CocoaText(row.date),
      Int(Trunc(OrZero(row.duration))), Str(DurationText(OrZero(row.duration))),
      Str(Label(CallTypes, row.callType)),
      Bool(Truthy(row.answered)), Bool(Truthy(row.originated)), Bool(row.faceTimeData != Null)]
  {
    var d := OrZero(row.duration);
    CallFields(row, CocoaText(row.date), Int(Trunc(d)), Str(DurationText(d)), Str(Label(CallTypes, row.callType)))
  }

  function CallFields(row: CallRow, date: Field, seconds: Field, durationText: Field, typeLabel: Field): (r: Record)
    ensures Keys(r) == CallKeys
    ensures Values(r) == [row.pk, row.address, date, seconds, durationText, typeLabel,
      Bool(Truthy(row.answered)), Bool(Truthy(row.originated)), Bool(row.faceTimeData != Null)]
  {
    Zip(CallKeys, [row.pk, row.address, date, seconds, durationText, typeLabel,
      Bool(Truthy(row.answered)), Bool(Truthy(row.originated)), Bool(row.faceTimeData != Null)])
  }

  /** The type label is `'unknown'` exactly for codes outside 1..7, null
      and non-numeric values included. */
  lemma UnknownCallType(code: Field)
    ensures Label(CallTypes, code) == "unknown" <==> !(CodeOf(code).Some? && 1 <= CodeOf(code).value <= 7)
  {
    assert "unknown" !in CallTypes.Values by {
      forall c | c in CallTypes
        ensures CallTypes[c] != "unknown"
      {
      }
    }
    LabelUnknown(CallTypes, code);
  }

  /** A missing or zero duration is recorded as 0 and shown as `0:00`. */
  lemma NoDuration(row: CallRow)
    requires row.duration.None? || row.duration == Some(0.0)
    ensures CallRecord(row)[3].1 == Int(0) && CallRecord(row)[4].1 == Str("0:00")
  {
    ZeroDurationText();
  }

  lemma ZeroDurationText()
    ensures DurationText(0.0) == "0:00"
  {
    assert MinutesAndSeconds(0.0) == (0, 0.0);
    assert Pad(0, 2) == "00";
    assert IntText(0) == "0";
  }

  /** `parse`: `_data` replaced by one record per fetched call, in order. */
  method Parse(p: Parser, limit: Option<int>, rows: seq<CallRow>) returns (sql: string, r: Result<seq<Record>, Error>)
    modifies p
    ensures sql == WithLimit(ParseSql, limit)
    ensures p.conn == old(p.conn) && p.cursor == old(p.cursor)
    ensures old(p.cursor).None? ==> r == Err(NotConnected) && p.data == old(p.data)
    ensures old(p.cursor).Some? ==> r == Ok(p.data) && |p.data| == |rows|
    ensures old(p.cursor).Some? ==> forall i :: 0 <= i < |rows| ==> p.data[i] == CallRecord(rows[i])
  {
    sql := WithLimit(ParseSql, limit);
    r := p.Refill(rows, CallRecord);
  }

  // ---------------------------------------------------------------------
  // stats

  const StatsSql := "SELECT ZCALLTYPE, COUNT(*) AS cnt, SUM(ZDURATION) AS total_dur, AVG(ZDURATION) AS avg_dur FROM ZCALLRECORD GROUP BY ZCALLTYPE"

  /** A group of the per-type aggregate: the type code, the number of calls,
      and the SUM and AVG of the durations (NULL for an all-NULL group). */
  datatype TypeGroup = TypeGroup(callType: Field, count: Field, totalDuration: Option<real>, averageDuration: Option<real>)

  /** The summary stored for a group. `(total or 0) / 60` is always a float,
      but `avg or 0` is the int 0 for a NULL or zero average, and `round` of
      an int is that int. */
  function GroupSummary(g: TypeGroup): Record {
    [("count", g.count),
     ("total_minutes", Real(RoundTo(OrZero(g.totalDuration) / 60.0, 1))),
     ("avg_seconds", if Timestamp.Truthy(g.averageDuration) then Real(RoundTo(g.averageDuration.value, 1)) else Int(0))]
  }

  function GroupLabel(g: TypeGroup): string {
    Label(CallTypes, g.callType)
  }

  /** The dict `stats` builds: each group assigned under its label in turn. */
  function Summaries(groups: seq<TypeGroup>): Dict<Record> {
    if groups == [] then []
    else
      var last := groups[|groups| - 1];
      Set(Summaries(groups[..|groups| - 1]), GroupLabel(last), GroupSummary(last))
  }

  /** `stats`: `results[label] = summary` for every fetched group, in order. */
  method Stats(p: Parser, groups: seq<TypeGroup>) returns (sql: string, r: Result<Dict<Record>, Error>)
    ensures sql == StatsSql
    ensures r.Err? <==> p.cursor.None?
    ensures r.Ok? ==> r.value == Summaries(groups)
  {
    sql := StatsSql;
    if p.cursor.None? {
      r := Err(NotConnected);
      return;
    }
    var results: Dict<Record> := [];
    for i := 0 to |groups|
      invariant results == Summaries(groups[..i])
    {
      assert groups[..i + 1][..i] == groups[..i];
      results := Set(results, GroupLabel(groups[i]), GroupSummary(groups[i]));
    }
    assert groups[..|groups|] == groups;
    r := Ok(results);
  }

  /** The position of the last group labelled `key`. */
  function LastWithLabel(groups: seq<TypeGroup>, key: string): (j: Option<nat>)
    ensures j.Some? ==> j.value < |groups| && GroupLabel(groups[j.value]) == key
    ensures j.Some? ==> forall k :: j.value < k < |groups| ==> GroupLabel(groups[k]) != key
    ensures j.None? ==> forall k :: 0 <= k < |groups| ==> GroupLabel(groups[k]) != key
  {
    if groups == [] then None
    else if GroupLabel(groups[|groups| - 1]) == key then Some(|groups| - 1)
    else LastWithLabel(groups[..|groups| - 1], key)
  }

  /** Last write wins: the summary under a label is that of the last group
      with that label, so several unknown codes leave one `'unknown'` entry,
      the last one's; a label no group has is absent. */
  lemma {:induction false} SummariesLastWins(groups: seq<TypeGroup>, key: string)
    ensures var j := LastWithLabel(groups, key);
      Get(Summaries(groups), key) == if j.Some? then Some(GroupSummary(groups[j.value])) else None
  {
    if groups == [] {
    } else {
      var init := groups[..|groups| - 1];
      SummariesLastWins(init, key);
    }
  }

  /** No label appears twice in the summary. */
  lemma {:induction false} SummariesUnique(groups: seq<TypeGroup>)
    ensures UniqueKeys(Summaries(groups))
  {
    if groups != [] {
      var init := groups[..|groups| - 1];
      SummariesUnique(init);
      SetUnique(Summaries(init), GroupLabel(groups[|groups| - 1]), GroupSummary(groups[|groups| - 1]));
    }
  }

  /** A missing total counts as zero minutes and the total is rounded to
      one decimal with ties to even, always as a float; a present, non-zero
      average is rounded the same way, while a missing or zero one stays the
      integer 0. */
  lemma SummaryFields(g: TypeGroup)
    ensures var s := GroupSummary(g);
      && Keys(s) == ["count", "total_minutes", "avg_seconds"]
      && s[1].1.Real? && NearestEven(Scaled(OrZero(g.totalDuration) / 60.0, 1), Scaled(s[1].1.r, 1).Floor)
      && (g.totalDuration.None? ==> s[1].1 == Real(0.0))
      && (Timestamp.Truthy(g.averageDuration) ==>
            s[2].1.Real? && NearestEven(Scaled(g.averageDuration.value, 1), Scaled(s[2].1.r, 1).Floor))
      && (!Timestamp.Truthy(g.averageDuration) ==> s[2].1 == Int(0))
  {
    if g.totalDuration.None? {
      RoundToZero(1);
    }
  }

  // ---------------------------------------------------------------------
  // by_contact

  const ByContactSql := "SELECT ZADDRESS, COUNT(*) AS total, SUM(ZDURATION) AS total_dur, MAX(ZDATE) AS last_call FROM ZCALLRECORD WHERE ZADDRESS IS NOT NULL GROUP BY ZADDRESS ORDER BY total DESC"

  /** A group of the per-number aggregate. */
  datatype NumberGroup = NumberGroup(address: Field, total: Field, totalDuration: Option<real>, lastCall: Option<real>)

  /** The summary of one number: the number and its call count as fetched,
      the total minutes to one decimal and the last call as text. */
  function NumberSummary(g: NumberGroup): (r: Record)
    ensures Keys(r) == ["number", "total_calls", "total_minutes", "last_call"]
    ensures Values(r) == [g.address, g.total, Real(RoundTo(OrZero(g.totalDuration) / 60.0, 1)), CocoaText(g.lastCall)]
  {
    [("number", g.address), ("total_calls", g.total),
     ("total_minutes", Real(RoundTo(OrZero(g.totalDuration) / 60.0, 1))),
     ("last_call", CocoaText(g.lastCall))]
  }

  /** A number's total minutes are its total seconds over 60, rounded half-even
      to one decimal and zero without a total; its last call is empty text
      for a NULL or zero date and otherwise reads back to the converted second. */
  lemma NumberFields(g: NumberGroup)
    ensures var s := NumberSummary(g);
      && s[2].1.Real? && NearestEven(Scaled(OrZero(g.totalDuration) / 60.0, 1), Scaled(s[2].1.r, 1).Floor)
      && (g.totalDuration.None? ==> s[2].1 == Real(0.0))
      && (!Timestamp.Truthy(g.lastCall) ==> s[3].1 == Str(""))
      && (Timestamp.CocoaToDatetime(g.lastCall).Some? ==>
            Timestamp.ParseTs(s[3].1.s) == Some(Timestamp.DateTime(Timestamp.CocoaToDatetime(g.lastCall).value.seconds, 0)))
  {
    var s := NumberSummary(g);
    assert s[2].1 == Values(s)[2] && s[3].1 == Values(s)[3];
    if g.totalDuration.None? { RoundToZero(1); }
  }

  /** `by_contact`: one summary per fetched number, in order. */
  method ByContact(p: Parser, groups: seq<NumberGroup>) returns (sql: string, r: Result<seq<Record>, Error>)
    ensures sql == ByContactSql
    ensures r.Err? <==> p.cursor.None?
    ensures r.Ok? ==> |r.value| == |groups| && forall i :: 0 <= i < |groups| ==> r.value[i] == NumberSummary(groups[i])
  {
    sql := ByContactSql;
    r := p.Collect(groups, NumberSummary);
  }
}
