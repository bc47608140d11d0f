/** The WhatsApp parser (`ChatStorage.sqlite`): messages with their chat
    partner, chat sessions with a group flag read off the JID, and media
    items that have a local file. */
module WhatsApp {
  import opened Wrappers
  import opened Text
  import opened PyDict
  import opened Records
  import opened Base

  /** `MSG_TYPES`: codes 7 and 9 to 14 have no name. */
  const MsgTypes: map<int, string> := map[
    0 := "text", 1 := "image", 2 := "video", 3 := "audio", 4 := "contact",
    5 := "location", 6 := "system", 8 := "document", 15 := "sticker"]

  const ParseSql := "SELECT m.Z_PK, m.ZTEXT, m.ZMESSAGEDATE, m.ZISFROMME, m.ZMESSAGETYPE, m.ZSTARRED, c.ZPARTNERNAME, c.ZCONTACTJID FROM ZWAMESSAGE m LEFT JOIN ZWACHATSESSION c ON m.ZCHATSESSION = c.Z_PK ORDER BY m.ZMESSAGEDATE DESC"

  /** A fetched message joined with its chat session (the session columns
      are NULL when the left join finds none). */
  datatype MessageRow = MessageRow(
    pk: Field, text: Field, date: Option<real>, fromMe: Field,
    messageType: Field, starred: Field, partnerName: Field, contactJid: Field)

  const MessageKeys := ["id", "text", "date", "is_from_me", "type", "starred", "contact_name", "contact_jid"]

  /** The record `parse` makes of a message: the columns passed through, the
      flags as booleans and the type as its name. */
  function MessageRecord(row: MessageRow): (r: Record)
    ensures Keys(r) == MessageKeys
    ensures Values(r) == [row.pk, row.text, CocoaText(row.date), Bool(Truthy(row.fromMe)),
      Str(Label(MsgTypes, row.messageType)), Bool(Truthy(row.starred)), row.partnerName, row.contactJid]
  {
    Zip(MessageKeys, [row.pk, row.text, CocoaText(row.date), Bool(Truthy(row.fromMe)),
      Str(Label(MsgTypes, row.messageType)), Bool(Truthy(row.starred)), row.partnerName, row.contactJid])
  }

  /** The type is `'unknown'` exactly for codes other than 0 to 6, 8 and 15,
      null and non-numeric values included; a named code gets its name. */
  lemma UnknownMessageType(code: Field)
    ensures Label(MsgTypes, code) == "unknown" <==>
      !(CodeOf(code).Some? && (0 <= CodeOf(code).value <= 6 || CodeOf(code).value == 8 || CodeOf(code).value == 15))
    ensures code == Int(8) ==> Label(MsgTypes, code) == "document"
    ensures code == Int(15) ==> Label(MsgTypes, code) == "sticker"
  {
    assert "unknown" !in MsgTypes.Values by {
      forall c | c in MsgTypes
        ensures MsgTypes[c] != "unknown"
      {
      }
    }
    LabelUnknown(MsgTypes, code);
  }

  /** `parse`: `_data` replaced by one record per fetched message, in order. */
  method Parse(p: Parser, limit: Option<int>, rows: seq<MessageRow>) returns (sql: string, r: Result<seq<Record>, Error>)
    modifies p
    ensures sql == WithLimit(ParseSql, limit)
    ensures p.conn == old(p.conn) && p.cursor == old(p.cursor)
    ensures old(p.cursor).None? ==> r == Err(NotConnected) && p.data == old(p.data)
    ensures old(p.cursor).Some? ==> r == Ok(p.data) && |p.data| == |rows|
    ensures old(p.cursor).Some? ==> forall i :: 0 <= i < |rows| ==> p.data[i] == MessageRecord(rows[i])
  {
    sql := WithLimit(ParseSql, limit);
    r := p.Refill(rows, MessageRecord);
  }

  // ---------------------------------------------------------------------
  // chats

  const ChatsSql := "SELECT Z_PK, ZPARTNERNAME, ZCONTACTJID, ZLASTMESSAGEDATE, ZMESSAGECOUNTER FROM ZWACHATSESSION ORDER BY ZLASTMESSAGEDATE DESC"

  /** A fetched chat session; the JID is a TEXT column or NULL. */
  datatype ChatRow = ChatRow(pk: Field, partnerName: Field, contactJid: Option<string>, lastMessageDate: Option<real>, messageCounter: Field)

  /** `row['ZCONTACTJID'] or ''`. */
  function JidText(jid: Option<string>): (s: string)
    ensures jid.Some? ==> s == jid.value
    ensures jid.None? ==> s == ""
  {
    if jid.Some? && jid.value != "" then jid.value else ""
  }

  const GroupSuffix := "@g.us"

  function ChatRecord(row: ChatRow): (r: Record)
    ensures Keys(r) == ["id", "name", "jid", "is_group", "message_count", "last_message"]
    ensures r[0].1 == row.pk && r[1].1 == row.partnerName && r[4].1 == row.messageCounter
    ensures r[2].1 == Str(JidText(row.contactJid))
    ensures r[5].1 == CocoaText(row.lastMessageDate)
  {
    var jid := JidText(row.contactJid);
    [("id", row.pk), ("name", row.partnerName), ("jid", Str(jid)),
     ("is_group", Bool(EndsWith(jid, GroupSuffix))),
     ("message_count", row.messageCounter),
     ("last_message", CocoaText(row.lastMessageDate))]
  }

  /** A chat is a group exactly when it has a JID ending in `@g.us`; a chat
      without a JID is stored with the empty JID and is not a group. */
  lemma GroupChats(row: ChatRow)
    ensures ChatRecord(row)[3].1 == Bool(true) <==>
      row.contactJid.Some? && |row.contactJid.value| >= 5 && row.contactJid.value[|row.contactJid.value| - 5..] == "@g.us"
    ensures ChatRecord(row)[3].1.Bool?
    ensures row.contactJid.None? ==> ChatRecord(row)[2].1 == Str("") && ChatRecord(row)[3].1 == Bool(false)
  {
  }

  /** `chats`: one record per fetched session, in order; `_data` untouched. */
  method Chats(p: Parser, rows: seq<ChatRow>) returns (sql: string, r: Result<seq<Record>, Error>)
    ensures sql == ChatsSql
    ensures r.Err? <==> p.cursor.None?
    ensures r.Ok? ==> |r.value| == |rows| && forall i :: 0 <= i < |rows| ==> r.value[i] == ChatRecord(rows[i])
  {
    sql := ChatsSql;
    r := p.Collect(rows, ChatRecord);
  }

  // ---------------------------------------------------------------------
  // media

  const MediaSql := "SELECT Z_PK, ZMEDIALOCALPATH, ZVCARDSTRING, ZFILESIZE, ZLATITUDE, ZLONGITUDE FROM ZWAMEDIAITEM WHERE ZMEDIALOCALPATH IS NOT NULL ORDER BY Z_PK DESC"

  /** `media`'s default limit. */
  const DefaultMediaLimit: Option<int> := Some(100)

  /** A fetched media item. */
  datatype MediaRow = MediaRow(pk: Field, localPath: Field, vcard: Field, fileSize: Field, latitude: Field, longitude: Field)

  /** The record `media` makes of an item: the vCard column is fetched but
      not kept. */
  function MediaRecord(row: MediaRow): (r: Record)
    ensures Keys(r) == ["id", "path", "size", "lat", "lon"]
    ensures Values(r) == [row.pk, row.localPath, row.fileSize, row.latitude, row.longitude]
  {
    [("id", row.pk), ("path", row.localPath), ("size", row.fileSize),
     ("lat", row.latitude), ("lon", row.longitude)]
  }

  /** `media(limit)`: the query with its `LIMIT` and one record per item. */
  method Media(p: Parser, limit: Option<int>, rows: seq<MediaRow>) returns (sql: string, r: Result<seq<Record>, Error>)
    ensures sql == WithLimit(MediaSql, limit)
    ensures r.Err? <==> p.cursor.None?
    ensures r.Ok? ==> |r.value| == |rows| && forall i :: 0 <= i < |rows| ==> r.value[i] == MediaRecord(rows[i])
  {
    sql := WithLimit(MediaSql, limit);
    r := p.Collect(rows, MediaRecord);
  }

  /** Called without a limit, `media` fetches at most 100 items. */
  lemma MediaDefault()
    ensures var q := WithLimit(MediaSql, DefaultMediaLimit);
      q[..|MediaSql|] == MediaSql && q[|MediaSql|..|MediaSql| + 7] == " LIMIT " && ParseInt(q[|MediaSql| + 7..]) == Some(100)
  {
  }
}
