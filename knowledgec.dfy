/** The KnowledgeC parser (`knowledgeC.db`): activity events with the
    length of their interval, app usage totals, the list of event streams,
    and lock and display events. */
module KnowledgeC {
  import opened Wrappers
  import opened Text
  import opened PyDict
  import opened Records
  import opened Base
  import Timestamp

  const ParseSql := "SELECT o.Z_PK, o.ZSTREAMNAME, o.ZCREATIONDATE, o.ZSTARTDATE, o.ZENDDATE, o.ZVALUESTRING, s.ZBUNDLEID FROM ZOBJECT o LEFT JOIN ZSOURCE s ON o.ZSOURCE = s.Z_PK ORDER BY o.ZCREATIONDATE DESC"

  /** A fetched event joined with its source. */
  datatype EventRow = EventRow(
    pk: Field, streamName: Field, creationDate: Option<real>, startDate: Option<real>,
    endDate: Option<real>, valueString: Field, bundleId: Field)

  /** `int((end - start).total_seconds())`: whole seconds from `start` to
      `end`, truncated toward zero; nothing unless both instants exist. */
  function Duration(start: Option<Timestamp.Instant>, end: Option<Timestamp.Instant>): (d: Option<int>)
    ensures d.Some? <==> start.Some? && end.Some?
  {
    if start.Some? && end.Some? then
      Some(Trunc((Timestamp.Micros(end.value) - Timestamp.Micros(start.value)) as real / 1e6))
    else None
  }

  /** The truncated count of seconds: the whole seconds in the gap when the
      event ends at or after its start, and minus the whole seconds of the
      reverse gap when it ends before, so swapping the ends flips the sign. */
  lemma DurationSeconds(s: Timestamp.Instant, e: Timestamp.Instant)
    ensures Timestamp.Micros(s) <= Timestamp.Micros(e) ==>
      Duration(Some(s), Some(e)) == Some((Timestamp.Micros(e) - Timestamp.Micros(s)) / Timestamp.MicrosPerSecond)
    ensures Duration(Some(e), Some(s)).value == -Duration(Some(s), Some(e)).value
  {
    var gap := Timestamp.Micros(e) - Timestamp.Micros(s);
    var q := gap / Timestamp.MicrosPerSecond;
    if gap >= 0 {
      assert q as real <= gap as real / 1e6 < q as real + 1.0;
    }
    assert (-gap) as real / 1e6 == -(gap as real / 1e6);
  }

  const EventKeys := ["id", "stream", "created", "start", "end", "duration_sec", "bundle_id", "value"]

  /** The `duration_sec` of an event: NULL unless both its start and its end
      convert to instants. */
  function EventDuration(startDate: Option<real>, endDate: Option<real>): (f: Field)
    ensures f == Null <==> Timestamp.CocoaToDatetime(startDate).None? || Timestamp.CocoaToDatetime(endDate).None?
    ensures f != Null ==> f.Int?
  {
    var d := Duration(Timestamp.CocoaToDatetime(startDate), Timestamp.CocoaToDatetime(endDate));
    if d.Some? then Int(d.value) else Null
  }

  /** The record `parse` makes of an event. */
  function EventRecord(row: EventRow): (r: Record)
    ensures Keys(r) == EventKeys
    ensures r[0].1 == row.pk && r[1].1 == row.streamName && r[6].1 == row.bundleId && r[7].1 == row.valueString
    ensures r[2].1 == CocoaText(row.creationDate) && r[3].1 == CocoaText(row.startDate) && r[4].1 == CocoaText(row.endDate)
    ensures r[5].1 == EventDuration(row.startDate, row.endDate)
  {
    EventFields(row, CocoaText(row.creationDate), CocoaText(row.startDate), CocoaText(row.endDate),
      EventDuration(row.startDate, row.endDate))
  }

  function EventFields(row: EventRow, created: Field, start: Field, end: Field, duration: Field): (r: Record)
    ensures Keys(r) == EventKeys
    ensures r[0].1 == row.pk && r[1].1 == row.streamName && r[6].1 == row.bundleId && r[7].1 == row.valueString
    ensures r[2].1 == created && r[3].1 == start && r[4].1 == end && r[5].1 == duration
  {
    [("id", row.pk), ("stream", row.streamName), ("created", created), ("start", start), ("end", end),
     ("duration_sec", duration), ("bundle_id", row.bundleId), ("value", row.valueString)]
  }

  /** `parse`: `_data` replaced by one record per fetched event, in order. */
  method Parse(p: Parser, limit: Option<int>, rows: seq<EventRow>) returns (sql: string, r: Result<seq<Record>, Error>)
    modifies p
    ensures sql == WithLimit(ParseSql, limit)
    ensures p.conn == old(p.conn) && p.cursor == old(p.cursor)
    ensures old(p.cursor).None? ==> r == Err(NotConnected) && p.data == old(p.data)
    ensures old(p.cursor).Some? ==> r == Ok(p.data) && |p.data| == |rows|
    ensures old(p.cursor).Some? ==> forall i :: 0 <= i < |rows| ==> p.data[i] == EventRecord(rows[i])
  {
    sql := WithLimit(ParseSql, limit);
    r := p.Refill(rows, EventRecord);
  }

  // ---------------------------------------------------------------------
  // app_usage

  const AppUsageSql := "SELECT s.ZBUNDLEID, COUNT(*) AS events, SUM(o.ZENDDATE - o.ZSTARTDATE) AS total_sec FROM ZOBJECT o JOIN ZSOURCE s ON o.ZSOURCE = s.Z_PK WHERE o.ZSTREAMNAME LIKE '%InFocus%' AND o.ZENDDATE IS NOT NULL AND o.ZSTARTDATE IS NOT NULL AND s.ZBUNDLEID IS NOT NULL GROUP BY s.ZBUNDLEID ORDER BY total_sec DESC"

  /** A group of the per-app aggregate. */
  datatype UsageGroup = UsageGroup(bundleId: Field, events: Field, totalSec: Option<real>)

  function UsageRecord(g: UsageGroup): (r: Record)
    ensures Keys(r) == ["bundle_id", "events", "total_hours"]
    ensures r[0].1 == g.bundleId && r[1].1 == g.events
    ensures r[2].1 == Real(RoundTo(OrZero(g.totalSec) / 3600.0, 2))
  {
    [("bundle_id", g.bundleId), ("events", g.events),
     ("total_hours", Real(RoundTo(OrZero(g.totalSec) / 3600.0, 2)))]
  }

  /** The hours are the total seconds over 3600 rounded half-even to two
      decimals: within 18 seconds of the total, and zero when the total is
      NULL or zero. */
  lemma UsageHours(g: UsageGroup)
    ensures var h := UsageRecord(g)[2].1.r;
      && NearestEven(Scaled(OrZero(g.totalSec) / 3600.0, 2), Scaled(h, 2).Floor)
      && -18.0 <= h * 3600.0 - OrZero(g.totalSec) <= 18.0
      && (!Timestamp.Truthy(g.totalSec) ==> h == 0.0)
  {
    var x := OrZero(g.totalSec) / 3600.0;
    var h := RoundTo(x, 2);
    assert Pow10(2) == 100;
    assert -0.5 <= Scaled(h, 2) - Scaled(x, 2) <= 0.5;
    assert Scaled(h, 2) - Scaled(x, 2) == (h - x) * 100.0;
    assert h * 3600.0 - OrZero(g.totalSec) == (h - x) * 3600.0;
    if !Timestamp.Truthy(g.totalSec) {
      RoundToZero(2);
    }
  }

  /** `app_usage`: one record per app, in the query's order. */
  method AppUsage(p: Parser, groups: seq<UsageGroup>) returns (sql: string, r: Result<seq<Record>, Error>)
    ensures sql == AppUsageSql
    ensures r.Err? <==> p.cursor.None?
    ensures r.Ok? ==> |r.value| == |groups| && forall i :: 0 <= i < |groups| ==> r.value[i] == UsageRecord(groups[i])
  {
    sql := AppUsageSql;
    r := p.Collect(groups, UsageRecord);
  }

  // ---------------------------------------------------------------------
  // streams

  const StreamsSql := "SELECT ZSTREAMNAME, COUNT(*) AS cnt FROM ZOBJECT WHERE ZSTREAMNAME IS NOT NULL GROUP BY ZSTREAMNAME ORDER BY cnt DESC"

  datatype StreamGroup = StreamGroup(streamName: Field, count: Field)

  function StreamRecord(g: StreamGroup): (r: Record)
    ensures Keys(r) == ["stream", "count"] && Values(r) == [g.streamName, g.count]
  {
    [("stream", g.streamName), ("count", g.count)]
  }

  /** `streams`: one record per stream name, in the query's order. */
  method Streams(p: Parser, groups: seq<StreamGroup>) returns (sql: string, r: Result<seq<Record>, Error>)
    ensures sql == StreamsSql
    ensures r.Err? <==> p.cursor.None?
    ensures r.Ok? ==> |r.value| == |groups| && forall i :: 0 <= i < |groups| ==> r.value[i] == StreamRecord(groups[i])
  {
    sql := StreamsSql;
    r := p.Collect(groups, StreamRecord);
  }

  // ---------------------------------------------------------------------
  // device_states

  const DeviceStatesSql := "SELECT o.Z_PK, o.ZSTREAMNAME, o.ZCREATIONDATE, o.ZVALUESTRING FROM ZOBJECT o WHERE o.ZSTREAMNAME LIKE '%DeviceLock%' OR o.ZSTREAMNAME LIKE '%Display%' ORDER BY o.ZCREATIONDATE DESC LIMIT ?"

  /** `device_states`' default limit. */
  const DefaultDeviceStatesLimit := 100

  datatype StateRow = StateRow(pk: Field, streamName: Field, creationDate: Option<real>, valueString: Field)

  function StateRecord(row: StateRow): (r: Record)
    ensures Keys(r) == ["id", "stream", "date", "value"]
    ensures Values(r) == [row.pk, row.streamName, CocoaText(row.creationDate), row.valueString]
  {
    [("id", row.pk), ("stream", row.streamName), ("date", CocoaText(row.creationDate)),
     ("value", row.valueString)]
  }

  /** `device_states(limit)`: unlike the other queries, the limit is bound as
      a parameter, so every value, 0 included, reaches the query. */
  method DeviceStates(p: Parser, limit: int, rows: seq<StateRow>) returns (q: Query, r: Result<seq<Record>, Error>)
    ensures q == Query(DeviceStatesSql, [Int(limit)])
    ensures r.Err? <==> p.cursor.None?
    ensures r.Ok? ==> |r.value| == |rows| && forall i :: 0 <= i < |rows| ==> r.value[i] == StateRecord(rows[i])
  {
    q := Query(DeviceStatesSql, [Int(limit)]);
    r := p.Collect(rows, StateRecord);
  }
}
