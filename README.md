# iOS forensics toolkit — a verified model of its core

The toolkit reads artifacts pulled from an iOS device and turns them into
flat records. It handles SQLite stores: SMS/iMessage, WhatsApp, Safari
history, the call log, knowledgeC usage events and the address book. It
also reads property lists. Apple timestamps are normalised to
`YYYY-MM-DD HH:MM:SS` text, and results are exported as JSON, CSV or HTML.
This project models that core in Dafny and proves what it promises.

- **Timestamps** (`timestamp.dfy`, on top of `calendar.dfy`):
  - three epochs (Cocoa 2001, Unix 1970, WebKit 1601) and the auto-detection bands;
  - `format_ts`, and the ISO text of `isoformat()`;
  - instants are the `datetime` values of years 1 to 9999, to the
    microsecond. Each converter is specified by the moment it denotes:
    `Denotes(r, epoch, offset)`.
- **The base parser** (`base.dfy`): the class `Base.Parser`, with its
  connection and cursor slots and the records of the latest `parse`.
  - Its state machine covers construction, `connect`, `close` and the `with`
    protocol, plus the `RuntimeError` of the accessors.
  - Also `tables`, `schema`, `count` and the two exports.
  - Records are insertion-ordered dicts (`pydict.dfy`) of SQLite values
    (`records.dfy`).
- **The six database parsers** (`calls.dfy`, `whatsapp.dfy`, `knowledgec.dfy`,
  `sms.dfy`, `contacts.dfy`, `safari.dfy`): each query's text and
  parameters, and the record each fetched row becomes. It covers labels
  looked up in code tables, truthiness, `round`, `int()`, and the
  `m:ss` duration text. `stats` is a last-write-wins dict.
- **Property lists** (`plist.dfy`): the class `Plist.PlistParser` and a plist
  value tree.
  - Dotted-path lookup with Python's negative list indices.
  - `flatten` as a recursive walk into an ordered dict.
  - `to_serializable` (dates to ISO text, bytes to hex).
  - The lines `print_structure` prints.
- **Exports** (`export.dfy`): what `to_json`, `to_csv` and `to_html` write.
  `to_html` builds its string with loops.
- **File-type detection** (`cli.dfy`): `detect_type` on the final path
  component, lower-cased, and the keys of `PARSERS`.

SQL rows, plist decoding and files are parameters of the model: a method
takes "the rows the engine returned" and returns, besides its result, the
query it would have issued, and a write returns the `Written` value it would put in the file.

`detect_type` has a branch for names containing `callhistory`. It tests
`history` first, so that branch never fires, and the call log's own file
(`CallHistory.storedata`, the path the call parser documents in
`src/parsers/calls.py:14`) goes to the Safari parser. The model keeps the
chain as written, and "## Findings" gives the details.

## Model

| member | source | states |
|---|---|---|
| Timestamp.CocoaOffsetIsEpochGap | src/utils/timestamp.py:8-13 | `COCOA_OFFSET` is the distance between the 1970 and 2001 epochs, 11323 whole days |
| Timestamp.NewYearFields | src/utils/timestamp.py:8-10 | each epoch constant is midnight, January 1st of its year |
| Timestamp.DenotesUnique | src/utils/timestamp.py:20-25 | a converter's result is determined by the moment it must denote: at most one `Option<Instant>` denotes it |
| Timestamp.CocoaToDatetime | src/utils/timestamp.py:16-25 | falsy input gives None; above 1e15 the value is nanoseconds, otherwise seconds, after 2001-01-01; None exactly when the moment leaves years 1-9999 |
| Timestamp.UnixToDatetime | src/utils/timestamp.py:28-37 | falsy input gives None; above 1e12 milliseconds, otherwise seconds after 1970-01-01 (UTC); None exactly when out of range |
| Timestamp.WebkitToDatetime | src/utils/timestamp.py:40-47 | falsy input gives None; otherwise microseconds after 1601-01-01, None exactly when out of range |
| Timestamp.AutoConvert | src/utils/timestamp.py:50-63 | the epoch and unit every magnitude band is read in, including the double divisions: above 1e24 units of 1e-18 s, (1e15, 1e16] Unix microseconds; negatives are Cocoa seconds |
| Timestamp.FormatTs | src/utils/timestamp.py:66-68 | None gives the empty string; an instant gives 19 characters that read back to the same whole second |
| Timestamp.FormatTsSameSecond | src/utils/timestamp.py:66-68 | two instants format alike exactly when they fall in the same second |
| Timestamp.ParseTs | src/utils/timestamp.py:66-68 | the reader of the `format_ts` rendering yields whole seconds only |
| Timestamp.IsoFormat | src/parsers/plist.py:85-86 | `isoformat()` is 19 characters, or 26 with a microsecond fraction |
| Timestamp.IsoRoundTrip | src/parsers/plist.py:85-86 | reading `isoformat()` text back gives the same instant, microseconds included |
| Timestamp.ParseIsoSound | src/parsers/plist.py:85-86 | whatever the ISO reader accepts is exactly the `isoformat()` text of what it returns |
| Timestamp.IsoText | src/parsers/plist.py:85-86 | the text a plist date converts to reads back to that date |
| Calendar.ToCivil | src/utils/timestamp.py:66-68 | the calendar fields `strftime` renders are valid and name exactly the given second |
| Calendar.ToCivilSeconds | src/utils/timestamp.py:66-68 | every valid set of fields in years 1-9999 is reached, and `ToCivil` inverts the seconds count |
| Calendar.CivilSecondsInjective | src/utils/timestamp.py:66-68 | distinct valid fields name distinct seconds |
| Calendar.ParseFormat | src/utils/timestamp.py:66-68 | the `%Y-%m-%d %H:%M:%S` rendering reads back to the same fields |
| Calendar.FormatParse | src/utils/timestamp.py:66-68 | any text the reader accepts is the rendering of the fields it returns |
| Calendar.NextYear | src/utils/timestamp.py:8-10 | the Gregorian leap rule: consecutive January firsts lie 365 or 366 days apart |
| Calendar.YearUnique | src/utils/timestamp.py:66-68 | a day number lies in exactly one year |
| Records.OrZero | src/parsers/calls.py:51 | `x or 0` on a numeric column: NULL gives 0, any number itself |
| Records.CodeOf | src/parsers/calls.py:50 | a column finds an int key of a code table exactly when it is an integer, a bool or an integral float |
| Records.LabelUnknown | src/parsers/calls.py:50 | `get(code, 'unknown')` gives `unknown` exactly for codes outside the table, and the table's label otherwise |
| Records.Trunc | src/parsers/calls.py:57 | `int(x)` truncates toward zero |
| Records.MinutesAndSeconds | src/parsers/calls.py:58 | `x // 60` and `x % 60` as Python computes them: remainder in [0, 60), `60*q + r == x` |
| Records.RoundHalfEven | src/parsers/calls.py:86-87 | `round(y)` is the nearest integer, ties to even |
| Records.NearestEvenUnique | src/parsers/calls.py:86-87 | that nearest-even integer is unique |
| Records.RoundTo | src/parsers/calls.py:86-87 | `round(x, n)` has at most `n` decimals and is the nearest-even such value |
| Records.WithLimit | src/parsers/calls.py:43-44 | a falsy limit leaves the query alone; any other appends ` LIMIT ` and digits that read back to the limit |
| Records.LikePattern | src/parsers/contacts.py:122 | the keyword verbatim between two `%` wildcards |
| Records.TextField | src/parsers/contacts.py:41-42 | a TEXT-or-NULL column passes through as a string or NULL |
| Records.CocoaText | src/parsers/safari.py:42 | `format_ts(cocoa_to_datetime(x))` is always a string: empty for a falsy column, the whole second of the converted instant otherwise |
| PyDict.Get | src/parsers/plist.py:42-43 | `d.get(k)` is None exactly when `k` is not a key, and otherwise a value stored under `k` |
| PyDict.GetAt | src/parsers/plist.py:42-43 | with unique keys, looking a key up gives the value stored beside it |
| PyDict.Set | src/parsers/calls.py:84 | `d[k] = v` keeps the key order (appending a new key), maps `k` to `v` and leaves every other key's value alone |
| PyDict.SetUnique | src/parsers/calls.py:84 | assignment keeps keys unique |
| PyDict.GetSetAll | src/parsers/plist.py:73 | after a series of assignments a key holds the value of its last assignment, else its old value |
| PyDict.SetAllAppend | src/parsers/plist.py:73 | assigning two series in turn is assigning their concatenation |
| Text.Lower | cli.py:32 | `lower()` keeps the length and lower-cases each ASCII capital |
| Text.JoinSplit | src/parsers/plist.py:38 | `split(sep)` gives parts free of `sep` that join back to the input |
| Text.SplitNoSep | src/parsers/plist.py:38 | a string without the separator splits into itself alone |
| Text.ParseIntText | src/parsers/plist.py:46 | `int()` reads back the text of every integer, negatives included |
| Text.NatText | src/parsers/calls.py:58 | the decimal text of a natural: digits, no leading zero, value equal to the number |
| Text.Pad | src/parsers/calls.py:58 | `:02d` and the `%Y`-style fields: exactly `w` digits whose value is the number |
| Text.PadDigits | src/utils/timestamp.py:66-68 | a zero-padded field is the padding of its own value |
| Text.UnhexHex | src/parsers/plist.py:87-88 | `bytes.hex()` loses nothing: reading the hex back gives the bytes |
| Text.Hex | src/parsers/plist.py:87-88 | two lower-case hex digits per byte |
| Text.ContainsPiece | cli.py:40-43 | a name containing a string contains every piece of it |
| Base.ColumnRecord | src/parsers/base.py:73-76 | a schema row becomes name, type and whether it belongs to the primary key |
| Base.Parser.constructor | src/parsers/base.py:15-19 | a new parser has no connection, no cursor and no records |
| Base.Parser.Open | src/parsers/base.py:15-22 | construction succeeds exactly when the file exists, else `FileNotFoundError` naming the path |
| Base.Parser.CursorOrError | src/parsers/base.py:24-29 | the `cursor` property gives the cursor, or `RuntimeError` exactly when there is none |
| Base.Parser.ConnOrError | src/parsers/base.py:31-36 | the `conn` property gives the connection, or `RuntimeError` exactly when there is none |
| Base.Parser.Connect | src/parsers/base.py:38-42 | afterwards a connection to the parser's file and a cursor on it are open; the records are untouched |
| Base.Parser.Close | src/parsers/base.py:44-49 | an open connection is dropped with its cursor; with none open nothing changes; the records survive |
| Base.Parser.Enter | src/parsers/base.py:51-53 | `__enter__` connects and returns the parser itself |
| Base.Parser.Exit | src/parsers/base.py:55-56 | `__exit__` leaves the parser disconnected with its records |
| Base.Session | src/parsers/base.py:51-56 | a `with` block around `parse` ends disconnected, the records holding one shaped record per row |
| Base.Parser.Refill | src/parsers/calls.py:46-65 | `_data` is replaced by one record per fetched row, in order; without a cursor `RuntimeError` and `_data` unchanged |
| Base.Parser.Collect | src/parsers/calls.py:106-117 | an aggregate view is one record per fetched row, in order; `RuntimeError` exactly when not connected |
| Base.Parser.Tables | src/parsers/base.py:63-68 | the `sqlite_master` query it issues; then one table name per row, in order, or an error while unconnected |
| Base.Parser.Schema | src/parsers/base.py:70-76 | the `PRAGMA table_info(<table>)` query and one column record per row |
| Base.Parser.Count | src/parsers/base.py:78-81 | the `COUNT(*)` query on the table and the single value it returns |
| Base.Parser.ExportJson | src/parsers/base.py:83-85 | the latest records go to `to_json` |
| Base.Parser.ExportCsv | src/parsers/base.py:87-89 | the latest records go to `to_csv` |
| Export.EmptyGuards | src/utils/export.py:10-30 | JSON is written even for no records; CSV and HTML write nothing exactly when there are none; the CSV header is the first record's keys |
| Export.ToHtml | src/utils/export.py:27-51 | the loops build exactly the document `HtmlWritten` describes, and nothing for no records |
| Export.AppendCells | src/utils/export.py:38-39 | the cell loop appends one `open text close` cell per item, in order |
| Export.TitleTwice | src/utils/export.py:32-36 | the title appears twice, in `<title>` and in `<h1>` |
| Export.HeaderKeys | src/utils/export.py:38-40 | the header cells read back to the first record's keys, when no key holds `<` |
| Export.RowsCells | src/utils/export.py:42-46 | the body rows read back to each record's values as `str()` shows them, when none holds `<` |
| Export.UnwrapCells | src/utils/export.py:44-45 | the cells of `<`-free texts read back to those texts |
| Export.UnescapedCells | src/utils/export.py:44-45 | values are not escaped: one value `x</td><td>y` writes the same row as the two values `x` and `y` |
| Calls.CallRecord | src/parsers/calls.py:53-63 | the nine keys in order; id and number passed through; the date as Cocoa-epoch text; the duration truncated to whole seconds and as `m:ss`; the type as its label; answered and outgoing as booleans; `facetime` exactly when the FaceTime column is not NULL |
| Calls.UnknownCallType | src/parsers/calls.py:17-25 | the call type is `unknown` exactly when the code is not one of 1 to 7 |
| Calls.NoDuration | src/parsers/calls.py:51-58 | a NULL or zero duration shows as `0` and `0:00` |
| Calls.DurationRoundTrip | src/parsers/calls.py:58 | the `m:ss` text reads back to the whole minutes and the seconds under 60 of the duration's floor |
| Calls.ReadDuration | src/parsers/calls.py:58 | a read duration ends in `:` and two digits |
| Calls.Parse | src/parsers/calls.py:27-65 | the `ZCALLRECORD` query with its limit; `_data` becomes one call record per row |
| Calls.Stats | src/parsers/calls.py:67-90 | the grouped query it issues; then the dict of per-type summaries, assigned group after group |
| Calls.SummariesLastWins | src/parsers/calls.py:82-88 | a label holds the summary of the last group with that label; groups with unknown codes collapse into one `unknown` entry |
| Calls.SummariesUnique | src/parsers/calls.py:80-88 | the summary dict never holds a label twice |
| Calls.SummaryFields | src/parsers/calls.py:84-88 | count, then total minutes rounded half-even to one decimal as a float (0.0 for a NULL total); average seconds rounded the same way when present and non-zero, otherwise the integer 0 |
| Calls.NumberSummary | src/parsers/calls.py:110-115 | the four keys of a per-number summary, in order, holding the number and call count as fetched, the total seconds over 60 rounded to one decimal, and the last call as Cocoa-epoch text |
| Calls.NumberFields | src/parsers/calls.py:113-114 | total minutes are the half-even rounding to one decimal of the seconds over 60, 0.0 without a total; the last call is empty for a NULL or zero date and otherwise reads back to the converted second |
| Calls.ByContact | src/parsers/calls.py:92-117 | the per-number query it issues; then one summary per number group, in the query's order |
| WhatsApp.MessageRecord | src/parsers/whatsapp.py:55-64 | the eight keys and their values in order: id and text passed through, the date as Cocoa-epoch text, the flags as booleans, the type as its label, chat columns passed through |
| WhatsApp.UnknownMessageType | src/parsers/whatsapp.py:17-27 | the type is `unknown` exactly for codes outside 0-6, 8 and 15 |
| WhatsApp.Parse | src/parsers/whatsapp.py:29-66 | the message query with its limit; `_data` becomes one record per row |
| WhatsApp.JidText | src/parsers/whatsapp.py:85 | a NULL JID becomes the empty string |
| WhatsApp.ChatRecord | src/parsers/whatsapp.py:88-95 | the six keys of a chat, with the JID as text and the last message date as Cocoa-epoch text |
| WhatsApp.GroupChats | src/parsers/whatsapp.py:85-86 | a chat is a group exactly when its JID ends in `@g.us`; no JID means no group |
| WhatsApp.Chats | src/parsers/whatsapp.py:68-97 | the chat-session query it issues; then one chat record per session, in order |
| WhatsApp.MediaRecord | src/parsers/whatsapp.py:121-127 | path, size and coordinates kept; the vCard column dropped |
| WhatsApp.Media | src/parsers/whatsapp.py:99-129 | the media query with its limit and one record per item |
| WhatsApp.MediaDefault | src/parsers/whatsapp.py:99-115 | by default the media query is limited to 100 rows |
| KnowledgeC.Duration | src/parsers/knowledgec.py:46-47 | a duration exists exactly when both instants do |
| KnowledgeC.DurationSeconds | src/parsers/knowledgec.py:46-47 | whole seconds from start to end, truncated toward zero, so swapping the ends negates it |
| KnowledgeC.EventDuration | src/parsers/knowledgec.py:42-47 | `duration_sec` is NULL exactly when the start or the end does not convert, an integer otherwise |
| KnowledgeC.EventRecord | src/parsers/knowledgec.py:49-58 | the eight keys of an event in order, identity columns passed through, the three dates as Cocoa-epoch text and the duration from start and end |
| KnowledgeC.Parse | src/parsers/knowledgec.py:19-60 | the event query with its limit; `_data` becomes one record per row |
| KnowledgeC.UsageHours | src/parsers/knowledgec.py:83-87 | total hours is the half-even rounding to two decimals of the seconds over 3600, so within 18 seconds of the total; a NULL or zero total gives 0 |
| KnowledgeC.UsageRecord | src/parsers/knowledgec.py:84-88 | bundle, event count and hours, in order, the hours being the total seconds over 3600 rounded to two decimals |
| KnowledgeC.AppUsage | src/parsers/knowledgec.py:62-90 | the in-focus usage query it issues; then one usage record per bundle group |
| KnowledgeC.StreamRecord | src/parsers/knowledgec.py:106 | a stream's name and count |
| KnowledgeC.Streams | src/parsers/knowledgec.py:92-108 | the per-stream count query it issues; then one record per stream group |
| KnowledgeC.StateRecord | src/parsers/knowledgec.py:129-134 | the four keys of a device state with its date as text |
| KnowledgeC.DeviceStates | src/parsers/knowledgec.py:110-136 | the limit bound to the query's one parameter, and one record per row |
| Sms.Seconds | src/parsers/sms.py:44-45 | a truthy nanosecond column divided by 1e9, else None |
| Sms.NanoDates | src/parsers/sms.py:44-51 | a missing or zero date is empty text; otherwise nanoseconds after 2001-01-01, up to where the converter's own test fires again |
| Sms.MessageRecord | src/parsers/sms.py:47-57 | the nine keys in order; date and read date as nanosecond Cocoa-epoch text; the three flags as booleans; delivery date and sent flag dropped |
| Sms.Parse | src/parsers/sms.py:17-59 | the message query with its limit; `_data` becomes one record per row |
| Sms.ConversationRecord | src/parsers/sms.py:80-87 | a contact's totals and last message date |
| Sms.Conversations | src/parsers/sms.py:61-89 | the per-contact query it issues; then one record per contact group |
| Sms.AttachmentRecord | src/parsers/sms.py:111-118 | the five keys of an attachment with its date as text |
| Sms.Attachments | src/parsers/sms.py:91-120 | the attachment query with its limit and one record per row |
| Contacts.PersonRecord | src/parsers/contacts.py:39-47 | the seven keys of a person, names as TEXT or NULL, creation and modification dates as Cocoa-epoch text |
| Contacts.Parse | src/parsers/contacts.py:17-49 | the person query with its limit; `_data` becomes one record per row |
| Contacts.DisplayNameCases | src/parsers/contacts.py:70 | first and last joined by one space, either alone without a space, empty exactly when both are missing or empty |
| Contacts.DisplayNameSplit | src/parsers/contacts.py:70 | splitting a display name at spaces gives back the parts that were kept |
| Contacts.MultiValueRecord | src/parsers/contacts.py:71-76 | id, display name, the value under its own key, and label |
| Contacts.Phones | src/parsers/contacts.py:51-78 | one phone record per row of the property-3 query |
| Contacts.Emails | src/parsers/contacts.py:80-107 | one e-mail record per row of the property-4 query |
| Contacts.MatchRecord | src/parsers/contacts.py:128-132 | id, display name and organisation |
| Contacts.Search | src/parsers/contacts.py:109-134 | the same `%keyword%` pattern bound to all three `?`s, one record per match |
| Safari.VisitRecord | src/parsers/safari.py:38-44 | the five keys of a visit with its time as text |
| Safari.Parse | src/parsers/safari.py:17-46 | the visit query with its limit; `_data` becomes one record per row |
| Safari.SiteRecord | src/parsers/safari.py:66-70 | url, visit count and last visit as text |
| Safari.TopSites | src/parsers/safari.py:48-72 | `n` bound to the query's `LIMIT ?`, one record per page |
| Safari.SearchUrl | src/parsers/safari.py:74-101 | `%keyword%` bound to the query, records shaped as `parse` shapes them, `_data` untouched |
| Plist.PlistParser.constructor | src/parsers/plist.py:14-16 | a new parser holds an empty dict |
| Plist.PlistParser.Open | src/parsers/plist.py:14-19 | construction succeeds exactly when the file exists; then no top-level keys |
| Plist.PlistParser.Parse | src/parsers/plist.py:21-25 | the decoded tree becomes the data and is returned |
| Plist.PlistParser.Get | src/parsers/plist.py:32-52 | the value the dotted path leads to, or the default when a step fails |
| Plist.ResolveAppend | src/parsers/plist.py:38-52 | following a path in two pieces is following the whole path |
| Plist.ListSegments | src/parsers/plist.py:44-48 | a list step takes the integer segment, counting negatives from the end; out of range or not an integer ends the walk |
| Plist.DictSegments | src/parsers/plist.py:42-43 | a dict step is the dict lookup; a missing key ends the walk |
| Plist.ScalarStops | src/parsers/plist.py:49-50 | no step goes through a scalar |
| Plist.OneSegment | src/parsers/plist.py:38 | a path without dots is a single step |
| Plist.PlistParser.TopKeys | src/parsers/plist.py:54-58 | a dict's keys in order; nothing for any other data |
| Plist.PlistParser.Flatten | src/parsers/plist.py:60-76 | the leaves, each assigned under its path in visiting order |
| Plist.Walk | src/parsers/plist.py:64-73 | the recursive walk assigns exactly the leaves of its subtree, in order |
| Plist.LeavesScalar | src/parsers/plist.py:64-73 | every leaf is a scalar |
| Plist.FlattenValues | src/parsers/plist.py:60-76 | each flattened key holds the last leaf with that path, and never a container |
| Plist.FlattenExamples | src/parsers/plist.py:64-73 | empty containers leave nothing; list paths start with the separator at the root |
| Plist.PlistParser.ToSerializable | src/parsers/plist.py:78-91 | the converted tree holds no bytes and no dates |
| Plist.ConvertSafe | src/parsers/plist.py:80-89 | conversion always gives a tree JSON can hold |
| Plist.ConvertIdentity | src/parsers/plist.py:80-89 | a tree JSON can already hold is left as it is |
| Plist.ConvertIdempotent | src/parsers/plist.py:78-91 | converting twice is converting once |
| Plist.ConvertShape | src/parsers/plist.py:80-89 | dicts keep their keys, lists their length, scalars stay scalar; bytes become their hex and dates their ISO text, both recoverable |
| Plist.ConvertBytes | src/parsers/plist.py:87-88 | bytes become hex text of twice the length that reads back to them |
| Plist.ConvertKeys | src/parsers/plist.py:81-82 | conversion keeps a dict's keys in order |
| Plist.PlistParser.ExportJson | src/parsers/plist.py:93-96 | the converted tree is what gets written |
| Plist.BytesRepr | src/parsers/plist.py:113 | `str()` of bytes is `b`, a quote, printable ASCII and the same quote |
| Plist.Shorten | src/parsers/plist.py:113-116 | text of 40 characters or fewer is kept; longer text is cut to 40 and marked `...` |
| Plist.Indent | src/parsers/plist.py:101 | two spaces per level |
| Plist.PlistParser.PrintStructure | src/parsers/plist.py:98-122 | a negative depth prints `...`; scalar data prints nothing; no printed line is empty |
| Plist.OutlineCases | src/parsers/plist.py:103-120 | past the depth a single indented `...`; a scalar prints nothing; a dict at least one line per entry |
| Plist.OutlineIndented | src/parsers/plist.py:100-122 | every line at depth `d` starts with its `2d` spaces of indentation |
| Plist.EntryBlockIndented | src/parsers/plist.py:108-116 | an entry's lines, nested ones included, carry the entry's indentation |
| Plist.ListFirstOnly | src/parsers/plist.py:117-120 | a list shows only its length and its first item: the other items never matter |
| Cli.Name | cli.py:32 | `Path(p).name` has no slash and is never `.` |
| Cli.NamePlain | cli.py:32 | a plain file name is its own name |
| Cli.NameInDirectory | cli.py:32 | the directory part never matters |
| Cli.NameTrailingSlash | cli.py:32 | a trailing slash does not change the name |
| Cli.FirstMatchFrom | cli.py:34-49 | the first passing test from a position decides; none passes exactly when the result is None |
| Cli.Classify | cli.py:34-49 | the result is None or a key of `PARSERS` |
| Cli.DetectType | cli.py:30-49 | only the lower-cased final component counts; the result is None or a key of `PARSERS` |
| Cli.ClassifyFirstMatch | cli.py:34-49 | the if-chain is the first-match reading of the rule list: `.plist` wins, otherwise the earliest passing substring |
| Cli.RulesCoverParsers | cli.py:19-47 | the rules name each of the seven parser keys, and no other |
| Cli.DetectFileNameOnly | cli.py:30-32 | detection ignores the directory and the case of the file name |
| Cli.CallsUnreachable | cli.py:40-43 | `calls` is never returned; a `callhistory` name past the first three tests is `safari` |
| Cli.CallHistoryIsSafari | cli.py:32-41 | the call log's own file name `CallHistory.storedata` is detected as Safari history |
| Cli.ClassifyReordered | cli.py:34-49 | the corrected chain still gives None or a key of `PARSERS` |
| Cli.ReorderedFirstMatch | cli.py:40-43 | the corrected chain is the first-match reading of its rules and differs from the original only on `callhistory` names, sending them to `calls` |
| Cli.ReorderedCallHistory | cli.py:40-43 | the corrected chain detects `callhistory.storedata` as the call log |
| Cli.CorrectedCallLogPath | cli.py:30-43 | with the corrected chain, `CallHistory.storedata` in any directory is detected as `calls` |

## Left out

- File system, SQLite, `plistlib`, `json` and `csv`: rows, decoded plist trees and file existence are parameters, and a file write is the value `Written` it would carry. Closing the real connection and the engine's SQL semantics (joins, `GROUP BY`, `LIKE` wildcards inside the keyword) are not modelled.
- `main` and the argument parsing of `cli.py`: I/O and exit codes only. The help text's "no match is a usage error" belongs there.
- Timestamps: `timedelta` rounds to the nearest microsecond (half-even). The model takes the floor, so a result may differ by one microsecond at a fraction of exactly one half or more.
- Timestamps: `datetime.fromtimestamp` uses the local time zone. The model reads Unix times in UTC.
- Timestamps: floats are exact reals here. NaN, infinities and binary rounding of `1e9` divisions are not modelled, and neither is an `OSError` from the platform clock.
- Timestamps: a TEXT or BLOB in a timestamp column (a `TypeError` in Python) is not modelled. Timestamp columns are numbers or NULL.
- Timestamp.FormatTs: the `fmt` parameter is fixed to its default. For years below 1000, `%Y` is taken as four zero-padded digits, the ISO rendering, although some C libraries print fewer.
- Text.Lower: only ASCII letters are lower-cased. Unicode case mapping is not modelled.
- Text.ParseInt: only ASCII digits and the six ASCII whitespace characters are recognised. Python's `int()` also strips other Unicode spaces and accepts any Unicode decimal digit, so such a list index in `Plist.PlistParser.Get` gives the default here.
- Cli.Name: POSIX paths only. Windows drive letters and backslashes are not modelled.
- Queries are modelled as single-line strings. The source's indentation and line breaks inside the SQL are not kept.
- Export.ToJson: the layout `json.dump` produces (indent, `default=str`, `ensure_ascii`) is not modelled. Export models the records handed to the writer, and for CSV the header the writer is given.
- Export.ToHtml: Python's `str()` of a value is a parameter `show`, except for plist bytes, where `Plist.BytesRepr` models it.
- Plist: only dict, list, bytes, date, string, integer, float (carried as its `str()` text) and boolean values. `UID` and fill values are not modelled.
- Plist.PlistParser.PrintStructure: returns the lines `print_structure` would print instead of printing them.
- Plist.PlistParser.Flatten: `_flatten`'s closure over `result` is modelled as a threaded dict.
- Plist.PlistParser.Parse: the tree is stored by value. Later changes through an alias of the returned dict are not modelled.
- Contacts, WhatsApp: the name columns of contacts and the JID column of chats are TEXT or NULL. The string operations on them assume that.
- Default arguments (`limit=100`, `n=20`) are named constants beside the methods.
- Base.Parser.Connect: `sqlite3.connect` creating a missing file is not modelled. The file is taken to still exist after construction.

## Findings

| source | as written | input that shows it | evidently intended | confidence | as-written member | corrected member |
|---|---|---|---|---|---|---|
| cli.py:40-43 | `'history' in name` is tested before `'callhistory' in name`, so every name containing `callhistory` is classified `safari` and the `calls` branch can never be taken | `CallHistory.storedata`, the call log's own file name: detected as `safari` | `callhistory` is tested before `history`, so that the call log gets the call-history parser | not executed | Cli.CallsUnreachable, Cli.CallHistoryIsSafari | Cli.ClassifyReordered, Cli.ReorderedFirstMatch, Cli.ReorderedCallHistory, Cli.CorrectedCallLogPath |
