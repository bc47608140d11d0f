/** The SMS and iMessage parser (`sms.db`): messages with their handle,
    a per-contact conversation summary, and attachments. The dates of this
    database are nanoseconds after the Cocoa epoch. */
module Sms {
  import opened Wrappers
  import opened PyDict
  import opened Records
  import opened Base
  import Timestamp

  /** `x / 1e9 if x else None`: a nanosecond column as seconds. */
  function Seconds(nanos: Option<real>): (s: Option<real>)
    ensures s.Some? <==> Timestamp.Truthy(nanos)
    ensures s.Some? ==> s.value == nanos.value / 1e9
  {
    if Timestamp.Truthy(nanos) then Some(nanos.value / 1e9) else None
  }

  /** `format_ts(cocoa_to_datetime(ts))` on the converted column. */
  function NanoText(nanos: Option<real>): Field {
    CocoaText(Seconds(nanos))
  }

  /** A missing or zero date shows as the empty string; any other date up to
      1e24 is read as nanoseconds after 2001-01-01 (the converter's own
      nanosecond test fires again only past 1e24). */
  lemma NanoDates(nanos: Option<real>)
    ensures !Timestamp.Truthy(nanos) ==> NanoText(nanos) == Str("")
    ensures Timestamp.Truthy(nanos) && nanos.value <= 1e24 ==>
      Timestamp.Denotes(Timestamp.CocoaToDatetime(Seconds(nanos)), Timestamp.CocoaEpoch, nanos.value / 1000.0)
  {
    if Timestamp.Truthy(nanos) && nanos.value <= 1e24 {
      var s := nanos.value / 1e9;
      assert s <= 1e15;
      assert s != 0.0;
      assert s * 1e6 == nanos.value / 1000.0;
    }
  }

  const ParseSql := "SELECT m.ROWID, m.text, m.date, m.date_read, m.date_delivered, m.is_from_me, m.is_read, m.is_sent, h.id AS handle, m.service, m.cache_has_attachments FROM message m LEFT JOIN handle h ON m.handle_id = h.ROWID ORDER BY m.date DESC"

  /** A fetched message joined with its handle. */
  datatype MessageRow = MessageRow(
    rowId: Field, text: Field, date: Option<real>, dateRead: Option<real>, dateDelivered: Option<real>,
    fromMe: Field, read: Field, sent: Field, handle: Field, service: Field, hasAttachments: Field)

  const MessageKeys := ["id", "text", "date", "date_read", "is_from_me", "is_read", "handle", "service", "has_attachment"]

  /** The record `parse` makes of a message: the flags as booleans; the
      delivery date and the sent flag are fetched but not kept. */
  function MessageRecord(row: MessageRow): (r: Record)
    ensures Keys(r) == MessageKeys
    ensures r[0].1 == row.rowId && r[1].1 == row.text && r[6].1 == row.handle && r[7].1 == row.service
    ensures r[4].1 == Bool(Truthy(row.fromMe)) && r[5].1 == Bool(Truthy(row.read))
    ensures r[8].1 == Bool(Truthy(row.hasAttachments))
    ensures r[2].1 == NanoText(row.date) && r[3].1 == NanoText(row.dateRead)
  {
    MessageFields(row, NanoText(row.date), NanoText(row.dateRead))
  }

  function MessageFields(row: MessageRow, date: Field, dateRead: Field): (r: Record)
    ensures Keys(r) == MessageKeys
    ensures r[0].1 == row.rowId && r[1].1 == row.text && r[6].1 == row.handle && r[7].1 == row.service
    ensures r[4].1 == Bool(Truthy(row.fromMe)) && r[5].1 == Bool(Truthy(row.read))
    ensures r[8].1 == Bool(Truthy(row.hasAttachments))
    ensures r[2].1 == date && r[3].1 == dateRead
  {
    [("id", row.rowId), ("text", row.text), ("date", date), ("date_read", dateRead),
     ("is_from_me", Bool(Truthy(row.fromMe))), ("is_read", Bool(Truthy(row.read))),
     ("handle", row.handle), ("service", row.service),
     ("has_attachment", Bool(Truthy(row.hasAttachments)))]
  }

  /** `parse`: `_data` replaced by one record per fetched message, in order. */
  method Parse(p: Parser, limit: Option<int>, rows: seq<MessageRow>) returns (sql: string, r: Result<seq<Record>, Error>)
    modifies p
    ensures sql == WithLimit(ParseSql, limit)
    ensures p.conn == old(p.conn) && p.cursor == old(p.cursor)
    ensures old(p.cursor).None? ==> r == Err(NotConnected) && p.data == old(p.data)
    ensures old(p.cursor).Some? ==> r == Ok(p.data) && |p.data| == |rows|
    ensures old(p.cursor).Some? ==> forall i :: 0 <= i < |rows| ==> p.data[i] == MessageRecord(rows[i])
  {
    sql := WithLimit(ParseSql, limit);
    r := p.Refill(rows, MessageRecord);
  }

  // ---------------------------------------------------------------------
  // conversations

  const ConversationsSql := "SELECT h.id AS contact, COUNT(*) AS total, SUM(CASE WHEN m.is_from_me = 1 THEN 1 ELSE 0 END) AS sent, SUM(CASE WHEN m.is_from_me = 0 THEN 1 ELSE 0 END) AS received, MAX(m.date) AS last_date FROM message m JOIN handle h ON m.handle_id = h.ROWID GROUP BY h.id ORDER BY last_date DESC"

  /** A group of the per-contact aggregate. */
  datatype ConversationGroup = ConversationGroup(contact: Field, total: Field, sent: Field, received: Field, lastDate: Option<real>)

  function ConversationRecord(g: ConversationGroup): (r: Record)
    ensures Keys(r) == ["contact", "total", "sent", "received", "last_message"]
    ensures Values(r) == [g.contact, g.total, g.sent, g.received, NanoText(g.lastDate)]
  {
    [("contact", g.contact), ("total", g.total), ("sent", g.sent), ("received", g.received),
     ("last_message", NanoText(g.lastDate))]
  }

  /** `conversations`: one record per contact, in the query's order. */
  method Conversations(p: Parser, groups: seq<ConversationGroup>) returns (sql: string, r: Result<seq<Record>, Error>)
    ensures sql == ConversationsSql
    ensures r.Err? <==> p.cursor.None?
    ensures r.Ok? ==> |r.value| == |groups| && forall i :: 0 <= i < |groups| ==> r.value[i] == ConversationRecord(groups[i])
  {
    sql := ConversationsSql;
    r := p.Collect(groups, ConversationRecord);
  }

  // ---------------------------------------------------------------------
  // attachments

  const AttachmentsSql := "SELECT a.ROWID, a.filename, a.mime_type, a.total_bytes, a.created_date FROM attachment a ORDER BY a.created_date DESC"

  /** `attachments`' default limit. */
  const DefaultAttachmentsLimit: Option<int> := Some(100)

  datatype AttachmentRow = AttachmentRow(rowId: Field, filename: Field, mimeType: Field, totalBytes: Field, createdDate: Option<real>)

  function AttachmentRecord(row: AttachmentRow): (r: Record)
    ensures Keys(r) == ["id", "filename", "mime_type", "size_bytes", "created"]
    ensures Values(r) == [row.rowId, row.filename, row.mimeType, row.totalBytes, NanoText(row.createdDate)]
  {
    [("id", row.rowId), ("filename", row.filename), ("mime_type", row.mimeType),
     ("size_bytes", row.totalBytes), ("created", NanoText(row.createdDate))]
  }

  /** `attachments(limit)`: the query with its `LIMIT` and one record per
      attachment. */
  method Attachments(p: Parser, limit: Option<int>, rows: seq<AttachmentRow>) returns (sql: string, r: Result<seq<Record>, Error>)
    ensures sql == WithLimit(AttachmentsSql, limit)
    ensures r.Err? <==> p.cursor.None?
    ensures r.Ok? ==> |r.value| == |rows| && forall i :: 0 <= i < |rows| ==> r.value[i] == AttachmentRecord(rows[i])
  {
    sql := WithLimit(AttachmentsSql, limit);
    r := p.Collect(rows, AttachmentRecord);
  }
}
