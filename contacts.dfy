/** The contacts parser (`AddressBook.sqlitedb`): people, their phone
    numbers and e-mail addresses with a display name, and a search over
    names and organisations. First and last names are TEXT columns or NULL. */
module Contacts {
  import opened Wrappers
  import opened Text
  import opened PyDict
  import opened Records
  import opened Base

  const ParseSql := "SELECT p.ROWID, p.First, p.Last, p.Organization, p.Note, p.CreationDate, p.ModificationDate FROM ABPerson p ORDER BY p.Last, p.First"

  /** A fetched person. */
  datatype PersonRow = PersonRow(
    rowId: Field, first: Option<string>, last: Option<string>, organization: Field,
    note: Field, creationDate: Option<real>, modificationDate: Option<real>)

  const PersonKeys := ["id", "first_name", "last_name", "organization", "note", "created", "modified"]

  /** The record `parse` makes of a person: the columns as fetched, and the
      two dates as display text. */
  function PersonRecord(row: PersonRow): (r: Record)
    ensures Keys(r) == PersonKeys
    ensures r[0].1 == row.rowId && r[1].1 == TextField(row.first) && r[2].1 == TextField(row.last)
    ensures r[3].1 == row.organization && r[4].1 == row.note
    ensures r[5].1 == CocoaText(row.creationDate) && r[6].1 == CocoaText(row.modificationDate)
  {
    PersonFields(row, CocoaText(row.creationDate), CocoaText(row.modificationDate))
  }

  function PersonFields(row: PersonRow, created: Field, modified: Field): (r: Record)
    ensures Keys(r) == PersonKeys
    ensures r[0].1 == row.rowId && r[1].1 == TextField(row.first) && r[2].1 == TextField(row.last)
    ensures r[3].1 == row.organization && r[4].1 == row.note
    ensures r[5].1 == created && r[6].1 == modified
  {
    [("id", row.rowId), ("first_name", TextField(row.first)), ("last_name", TextField(row.last)),
     ("organization", row.organization), ("note", row.note), ("created", created), ("modified", modified)]
  }

  /** `parse`: `_data` replaced by one record per fetched person, in order. */
  method Parse(p: Parser, limit: Option<int>, rows: seq<PersonRow>) returns (sql: string, r: Result<seq<Record>, Error>)
    modifies p
    ensures sql == WithLimit(ParseSql, limit)
    ensures p.conn == old(p.conn) && p.cursor == old(p.cursor)
    ensures old(p.cursor).None? ==> r == Err(NotConnected) && p.data == old(p.data)
    ensures old(p.cursor).Some? ==> r == Ok(p.data) && |p.data| == |rows|
    ensures old(p.cursor).Some? ==> forall i :: 0 <= i < |rows| ==> p.data[i] == PersonRecord(rows[i])
  {
    sql := WithLimit(ParseSql, limit);
    r := p.Refill(rows, PersonRecord);
  }

  // ---------------------------------------------------------------------
  // Display names

  /** `filter(None, [x])`: a name part is kept when present and non-empty. */
  function Kept(part: Option<string>): (ks: seq<string>)
    ensures |ks| <= 1
  {
    if part.Some? && part.value != "" then [part.value] else []
  }

  /** `' '.join(filter(None, [first, last]))`. */
  function DisplayName(first: Option<string>, last: Option<string>): string {
    var parts := Kept(first) + Kept(last);
    if parts == [] then "" else Join(parts, ' ')
  }

  /** The four cases of the display name: both parts with one space between
      them, either part alone without a space, or the empty string. */
  lemma DisplayNameCases(first: Option<string>, last: Option<string>)
    ensures Kept(first) != [] && Kept(last) != [] ==> DisplayName(first, last) == first.value + " " + last.value
    ensures Kept(first) != [] && Kept(last) == [] ==> DisplayName(first, last) == first.value
    ensures Kept(first) == [] && Kept(last) != [] ==> DisplayName(first, last) == last.value
    ensures DisplayName(first, last) == "" <==> Kept(first) == [] && Kept(last) == []
  {
    var parts := Kept(first) + Kept(last);
    if Kept(first) != [] && Kept(last) != [] {
      assert parts == [first.value, last.value];
      assert Join(parts, ' ') == first.value + [' '] + Join(parts[1..], ' ');
    }
  }

  /** When neither part holds a space, splitting the display name at spaces
      gives back the parts that were kept. */
  lemma DisplayNameSplit(first: Option<string>, last: Option<string>)
    requires first.Some? ==> ' ' !in first.value
    requires last.Some? ==> ' ' !in last.value
    requires Kept(first) + Kept(last) != []
    ensures Split(DisplayName(first, last), ' ') == Kept(first) + Kept(last)
  {
    DisplayNameCases(first, last);
    if Kept(first) != [] && Kept(last) != [] {
      SplitPrefix(first.value, last.value, ' ');
      SplitNoSep(last.value, ' ');
      assert first.value + " " + last.value == first.value + [' '] + last.value;
    } else if Kept(first) != [] {
      SplitNoSep(first.value, ' ');
    } else {
      SplitNoSep(last.value, ' ');
    }
  }

  // ---------------------------------------------------------------------
  // phones and emails

  /** Property 3 of `ABMultiValue` holds phone numbers, property 4 e-mail
      addresses; otherwise the two queries are the same. */
  const PhonesSql := "SELECT p.ROWID, p.First, p.Last, mv.value AS phone, mv.label FROM ABPerson p JOIN ABMultiValue mv ON p.ROWID = mv.record_id WHERE mv.property = 3 ORDER BY p.Last, p.First"
  const EmailsSql := "SELECT p.ROWID, p.First, p.Last, mv.value AS email, mv.label FROM ABPerson p JOIN ABMultiValue mv ON p.ROWID = mv.record_id WHERE mv.property = 4 ORDER BY p.Last, p.First"

  /** A fetched person joined with one of their multi-values. */
  datatype MultiValueRow = MultiValueRow(rowId: Field, first: Option<string>, last: Option<string>, value: Field, valueLabel: Field)

  /** The record `phones` (with `key` `"phone"`) or `emails` (with `"email"`)
      makes of a row. */
  function MultiValueRecord(row: MultiValueRow, key: string): (r: Record)
    ensures Keys(r) == ["id", "name", key, "label"]
    ensures Values(r) == [row.rowId, Str(DisplayName(row.first, row.last)), row.value, row.valueLabel]
  {
    [("id", row.rowId), ("name", Str(DisplayName(row.first, row.last))), (key, row.value), ("label", row.valueLabel)]
  }

  function PhoneRecord(row: MultiValueRow): Record {
    MultiValueRecord(row, "phone")
  }

  function EmailRecord(row: MultiValueRow): Record {
    MultiValueRecord(row, "email")
  }

  /** `phones`: one record per phone number, in the query's order. */
  method Phones(p: Parser, rows: seq<MultiValueRow>) returns (sql: string, r: Result<seq<Record>, Error>)
    ensures sql == PhonesSql
    ensures r.Err? <==> p.cursor.None?
    ensures r.Ok? ==> |r.value| == |rows| && forall i :: 0 <= i < |rows| ==> r.value[i] == PhoneRecord(rows[i])
  {
    sql := PhonesSql;
    r := p.Collect(rows, PhoneRecord);
  }

  /** `emails`: one record per e-mail address, in the query's order. */
  method Emails(p: Parser, rows: seq<MultiValueRow>) returns (sql: string, r: Result<seq<Record>, Error>)
    ensures sql == EmailsSql
    ensures r.Err? <==> p.cursor.None?
    ensures r.Ok? ==> |r.value| == |rows| && forall i :: 0 <= i < |rows| ==> r.value[i] == EmailRecord(rows[i])
  {
    sql := EmailsSql;
    r := p.Collect(rows, EmailRecord);
  }

  // ---------------------------------------------------------------------
  // search

  const SearchSql := "SELECT p.ROWID, p.First, p.Last, p.Organization FROM ABPerson p WHERE p.First LIKE ? OR p.Last LIKE ? OR p.Organization LIKE ? ORDER BY p.Last, p.First"

  datatype MatchRow = MatchRow(rowId: Field, first: Option<string>, last: Option<string>, organization: Field)

  function MatchRecord(row: MatchRow): (r: Record)
    ensures Keys(r) == ["id", "name", "organization"]
    ensures Values(r) == [row.rowId, Str(DisplayName(row.first, row.last)), row.organization]
  {
    [("id", row.rowId), ("name", Str(DisplayName(row.first, row.last))), ("organization", row.organization)]
  }

  /** `search(keyword)`: the same pattern bound to the three `?`s, and one
      record per person the query matches. */
  method Search(p: Parser, keyword: string, rows: seq<MatchRow>) returns (q: Query, r: Result<seq<Record>, Error>)
    ensures q.sql == SearchSql && |q.params| == 3
    ensures forall i :: 0 <= i < 3 ==> q.params[i] == Str(LikePattern(keyword))
    ensures r.Err? <==> p.cursor.None?
    ensures r.Ok? ==> |r.value| == |rows| && forall i :: 0 <= i < |rows| ==> r.value[i] == MatchRecord(rows[i])
  {
    var pattern := LikePattern(keyword);
    q := Query(SearchSql, [Str(pattern), Str(pattern), Str(pattern)]);
    r := p.Collect(rows, MatchRecord);
  }
}
