/** The exporters of parsed records. JSON and CSV hand the records to a
    library writer; CSV, like HTML, writes nothing for an empty list, JSON
    always writes. HTML builds its document by appending to a string, with
    the title, keys and values interpolated as they are. */
module Export {
  import opened Wrappers
  import opened PyDict

  /** The effect of an exporter on the file system: no file, or one file
      written whole. */
  datatype Written<C> = Nothing | File(path: string, content: C)

  /** What `csv.DictWriter` is handed: the header field names and the rows. */
  datatype Csv<V> = Csv(fieldnames: seq<string>, rows: seq<Dict<V>>)

  /** `to_json`: the list goes to `json.dump` unguarded. */
  function ToJson<V>(data: seq<Dict<V>>, path: string): Written<seq<Dict<V>>> {
    File(path, data)
  }

  /** `to_csv`: nothing for an empty list, otherwise the field names of the
      first record and all the rows. */
  function ToCsv<V>(data: seq<Dict<V>>, path: string): Written<Csv<V>> {
    if data == [] then Nothing else File(path, Csv(Keys(data[0]), data))
  }

  // ---------------------------------------------------------------------
  // The HTML document

  /** Everything `to_html` writes before the header cells. */
  function Head(title: string): string {
    "<!DOCTYPE html><html><head><title>" + title + "</title>"
    + "<style>table{border-collapse:collapse;width:100%}"
    + "th,td{border:1px solid #ddd;padding:8px;text-align:left}"
    + "th{background:#4a4a4a;color:white}</style></head><body>"
    + ("<h1>" + title + "</h1><table><tr>")
  }

  const Tail := "</table></body></html>"

  /** One table cell: an opening tag, the text, a closing tag. */
  function Cell(open: string, x: string, close: string): string {
    open + x + close
  }

  /** The cells for `items`, one after another in order. */
  function Cells(open: string, close: string, items: seq<string>): string {
    if items == [] then ""
    else Cells(open, close, items[..|items| - 1]) + Cell(open, items[|items| - 1], close)
  }

  /** `str()` applied to each value. */
  function Shown<V>(vs: seq<V>, show: V -> string): (r: seq<string>)
    ensures |r| == |vs| && forall i :: 0 <= i < |vs| ==> r[i] == show(vs[i])
  {
    seq(|vs|, i requires 0 <= i < |vs| => show(vs[i]))
  }

  /** A table row: one `<td>` per value of the record, whatever its keys. */
  function RowText<V>(row: Dict<V>, show: V -> string): string {
    "<tr>" + Cells("<td>", "</td>", Shown(Values(row), show)) + "</tr>"
  }

  /** The body rows, one per record in order. */
  function Rows<V>(data: seq<Dict<V>>, show: V -> string): string {
    if data == [] then ""
    else Rows(data[..|data| - 1], show) + RowText(data[|data| - 1], show)
  }

  /** The header cells: one `<th>` per key of the first record. */
  function HeaderText<V>(data: seq<Dict<V>>): string
    requires data != []
  {
    Cells("<th>", "</th>", Keys(data[0]))
  }

  /** The whole document `to_html` writes for a nonempty list. */
  function Document<V>(data: seq<Dict<V>>, title: string, show: V -> string): string
    requires data != []
  {
    Head(title) + HeaderText(data) + "</tr>" + Rows(data, show) + Tail
  }

  /** What `to_html` does to the file system. */
  function HtmlWritten<V>(data: seq<Dict<V>>, path: string, title: string, show: V -> string): Written<string> {
    if data == [] then Nothing else File(path, Document(data, title, show))
  }

  lemma Assoc(a: string, b: string, c: string)
    ensures a + b + c == a + (b + c)
  {
  }

  /** `for x in items: html += f"{open}{x}{close}"`. */
  method AppendCells(html: string, open: string, close: string, items: seq<string>) returns (out: string)
    ensures out == html + Cells(open, close, items)
  {
    out := html;
    for i := 0 to |items|
      invariant out == html + Cells(open, close, items[..i])
    {
      assert items[..i + 1][..i] == items[..i];
      Assoc(html, Cells(open, close, items[..i]), Cell(open, items[i], close));
      out := out + Cell(open, items[i], close);
    }
    assert items[..|items|] == items;
  }

  /** `to_html`: the document is built by `+=` over the keys of the first
      record, then over the records and the values of each. */
  method ToHtml<V>(data: seq<Dict<V>>, path: string, title: string, show: V -> string)
    returns (w: Written<string>)
    ensures w == HtmlWritten(data, path, title, show)
  {
    if data == [] {
      return Nothing;
    }
    var html := "<!DOCTYPE html><html><head><title>" + title + "</title>";
    html := html + "<style>table{border-collapse:collapse;width:100%}";
    html := html + "th,td{border:1px solid #ddd;padding:8px;text-align:left}";
    html := html + "th{background:#4a4a4a;color:white}</style></head><body>";
    html := html + ("<h1>" + title + "</h1><table><tr>");
    html := AppendCells(html, "<th>", "</th>", Keys(data[0]));
    html := html + "</tr>";
    var start := html;
    for i := 0 to |data|
      invariant html == start + Rows(data[..i], show)
    {
      var before := html;
      html := html + "<tr>";
      var cells := Shown(Values(data[i]), show);
      html := AppendCells(html, "<td>", "</td>", cells);
      RowStep(start, Rows(data[..i], show), Cells("<td>", "</td>", cells));
      assert data[..i + 1][..i] == data[..i];
      html := html + "</tr>";
    }
    assert data[..|data|] == data;
    html := html + Tail;
    w := File(path, html);
  }

  lemma RowStep(start: string, rows: string, cells: string)
    ensures start + rows + "<tr>" + cells + "</tr>" == start + (rows + ("<tr>" + cells + "</tr>"))
  {
  }

  // ---------------------------------------------------------------------
  // Reading the cells back

  /** The position of the last `<` in `s`. */
  function LastOpen(s: string): (r: Option<nat>)
    ensures r.Some? ==> r.value < |s| && s[r.value] == '<' && '<' !in s[r.value + 1..]
    ensures r.None? ==> '<' !in s
  {
    if s == [] then None
    else if s[|s| - 1] == '<' then Some(|s| - 1)
    else
      var r := LastOpen(s[..|s| - 1]);
      assert s == s[..|s| - 1] + [s[|s| - 1]];
      r
  }

  /** A tag pair the reader can split on: the opening tag starts with the
      only `<` in it, and the closing tag is nonempty. */
  predicate TagPair(open: string, close: string) {
    |open| > 0 && open[0] == '<' && '<' !in open[1..] && |close| > 0
  }

  /** Peels cells `open x close` off the end of `s` while the text before
      each closing tag ends with an opening tag and a `<`-free text; gives
      what is left in front and the texts peeled, in order. */
  function Unwrap(open: string, close: string, s: string): (r: (string, seq<string>))
    ensures |r.0| <= |s|
    decreases |s|
  {
    if |close| > 0 && |close| <= |s| && s[|s| - |close|..] == close then
      var body := s[..|s| - |close|];
      var j := LastOpen(body);
      if j.Some? && j.value + |open| <= |body| && body[j.value..j.value + |open|] == open then
        var r := Unwrap(open, close, body[..j.value]);
        (r.0, r.1 + [body[j.value + |open|..]])
      else (s, [])
    else (s, [])
  }

  predicate NoOpen(items: seq<string>) {
    forall i :: 0 <= i < |items| ==> '<' !in items[i]
  }

  predicate EndsWithText(s: string, suffix: string) {
    |suffix| <= |s| && s[|s| - |suffix|..] == suffix
  }

  /** The last `<` of `a + b` is the first character of `b` when `b` has no
      other. */
  lemma LastOpenAt(a: string, b: string)
    requires |b| > 0 && b[0] == '<' && '<' !in b[1..]
    ensures LastOpen(a + b) == Some(|a|)
  {
    var s := a + b;
    assert s[|a|] == '<';
    assert s[|a| + 1..] == b[1..];
  }

  /** The pieces of `front + open x close`. */
  lemma CellPieces(open: string, close: string, front: string, x: string)
    ensures var s := front + Cell(open, x, close); var body := front + (open + x);
      && |close| <= |s| && s[|s| - |close|..] == close && s[..|s| - |close|] == body
      && body[..|front|] == front && body[|front|..|front| + |open|] == open
      && body[|front| + |open|..] == x
  {
    var s := front + Cell(open, x, close);
    var body := front + (open + x);
    assert s == body + close;
  }

  /** Peeling one cell off `front + open x close`. */
  lemma UnwrapStep(open: string, close: string, front: string, x: string)
    requires TagPair(open, close) && '<' !in x
    ensures Unwrap(open, close, front + Cell(open, x, close)) == (Unwrap(open, close, front).0, Unwrap(open, close, front).1 + [x])
  {
    CellPieces(open, close, front, x);
    assert (open + x)[1..] == open[1..] + x;
    LastOpenAt(front, open + x);
  }

  /** Reading back the cells written after `prefix` gives the cell texts,
      as long as no text contains `<`. */
  lemma {:induction false} UnwrapCells(open: string, close: string, prefix: string, items: seq<string>)
    requires TagPair(open, close) && NoOpen(items)
    requires !EndsWithText(prefix, close)
    ensures Unwrap(open, close, prefix + Cells(open, close, items)) == (prefix, items)
  {
    if items == [] {
      assert prefix + "" == prefix;
    } else {
      var init, x := items[..|items| - 1], items[|items| - 1];
      assert init + [x] == items;
      assert NoOpen(init) && '<' !in x by {
        assert forall i :: 0 <= i < |init| ==> init[i] == items[i];
      }
      UnwrapCells(open, close, prefix, init);
      UnwrapCellsStep(open, close, prefix, init, x);
    }
  }

  /** One more cell at the end reads back as one more text. */
  lemma UnwrapCellsStep(open: string, close: string, prefix: string, init: seq<string>, x: string)
    requires TagPair(open, close) && '<' !in x
    requires Unwrap(open, close, prefix + Cells(open, close, init)) == (prefix, init)
    ensures Unwrap(open, close, prefix + Cells(open, close, init + [x])) == (prefix, init + [x])
  {
    var front := prefix + Cells(open, close, init);
    assert (init + [x])[..|init|] == init;
    assert Cells(open, close, init + [x]) == Cells(open, close, init) + Cell(open, x, close);
    Assoc(prefix, Cells(open, close, init), Cell(open, x, close));
    UnwrapStep(open, close, front, x);
  }

  /** The header row holds one `<th>` per key of the first record, in the
      record's key order. */
  lemma HeaderKeys<V>(data: seq<Dict<V>>)
    requires data != [] && NoOpen(Keys(data[0]))
    ensures Unwrap("<th>", "</th>", HeaderText(data)) == ("", Keys(data[0]))
  {
    assert "<th>"[1..] == "th>";
    UnwrapCells("<th>", "</th>", "", Keys(data[0]));
    assert "" + HeaderText(data) == HeaderText(data);
  }

  /** Reads the body rows back: one list of cell texts per `<tr>`. */
  function ReadRows(s: string): (r: Option<seq<seq<string>>>)
    decreases |s|
  {
    if s == [] then Some([])
    else if EndsWithText(s, "</tr>") then
      var u := Unwrap("<td>", "</td>", s[..|s| - 5]);
      if EndsWithText(u.0, "<tr>") then
        var rest := ReadRows(u.0[..|u.0| - 4]);
        if rest.Some? then Some(rest.value + [u.1]) else None
      else None
    else None
  }

  /** The shown values of every record, record by record. */
  function Table<V>(data: seq<Dict<V>>, show: V -> string): (t: seq<seq<string>>)
    ensures |t| == |data| && forall i :: 0 <= i < |data| ==> t[i] == Shown(Values(data[i]), show)
  {
    if data == [] then []
    else Table(data[..|data| - 1], show) + [Shown(Values(data[|data| - 1]), show)]
  }

  predicate PlainValues<V>(data: seq<Dict<V>>, show: V -> string) {
    forall i :: 0 <= i < |data| ==> NoOpen(Shown(Values(data[i]), show))
  }

  lemma RowTail(rows: string)
    ensures !EndsWithText(rows + "<tr>", "</td>")
  {
    var s := rows + "<tr>";
    assert s[|s| - 4] == '<';
    if |s| >= 5 {
      assert s[|s| - 5..][1] == '<';
    }
  }

  /** Reading a body that ends with one more row. */
  lemma ReadRowsStep(rows: string, cells: string, texts: seq<string>)
    requires Unwrap("<td>", "</td>", rows + "<tr>" + cells) == (rows + "<tr>", texts)
    ensures ReadRows(rows + ("<tr>" + cells + "</tr>")) ==
      if ReadRows(rows).Some? then Some(ReadRows(rows).value + [texts]) else None
  {
    var s := rows + ("<tr>" + cells + "</tr>");
    RowPieces(rows, cells);
    var u := Unwrap("<td>", "</td>", s[..|s| - 5]);
    assert u == (rows + "<tr>", texts);
  }

  /** Where the pieces of a row appended to `rows` sit. */
  lemma RowPieces(rows: string, cells: string)
    ensures var s := rows + ("<tr>" + cells + "</tr>");
      && |s| >= 5 && s[..|s| - 5] == rows + "<tr>" + cells && EndsWithText(s, "</tr>")
    ensures var f := rows + "<tr>"; f[..|f| - 4] == rows && EndsWithText(f, "<tr>")
  {
    var s := rows + ("<tr>" + cells + "</tr>");
    assert s == rows + "<tr>" + cells + "</tr>";
  }

  /** The body holds one `<tr>` per record, and row `i` holds one `<td>` per
      value of record `i`, in order, as long as no shown value contains `<`. */
  lemma {:induction false} RowsCells<V>(data: seq<Dict<V>>, show: V -> string)
    requires PlainValues(data, show)
    ensures ReadRows(Rows(data, show)) == Some(Table(data, show))
  {
    if data != [] {
      var init := data[..|data| - 1];
      assert PlainValues(init, show);
      RowsCells(init, show);
      var cells := Shown(Values(data[|data| - 1]), show);
      assert "<td>"[1..] == "td>";
      RowTail(Rows(init, show));
      UnwrapCells("<td>", "</td>", Rows(init, show) + "<tr>", cells);
      ReadRowsStep(Rows(init, show), Cells("<td>", "</td>", cells), cells);
    }
  }

  /** With values shown verbatim, a value that itself contains `</td><td>`
      reads as two cells: two different records give the same body. */
  lemma UnescapedCells()
    ensures Cells("<td>", "</td>", ["x</td><td>y"]) == Cells("<td>", "</td>", ["x", "y"])
  {
    assert ["x", "y"][..1] == ["x"];
    assert ["x"][..0] == [];
  }

  const TitleOpen := "<!DOCTYPE html><html><head><title>"
  const TitleToHeading := "</title>" + "<style>table{border-collapse:collapse;width:100%}"
    + "th,td{border:1px solid #ddd;padding:8px;text-align:left}"
    + "th{background:#4a4a4a;color:white}</style></head><body>" + "<h1>"
  const HeadingClose := "</h1><table><tr>"

  lemma Regroup(a: string, t: string, b: string, c: string, d: string, e: string, f: string, g: string)
    ensures a + t + b + c + d + e + (f + t + g) == a + t + (b + c + d + e + f) + t + g
  {
  }

  /** The title is written twice: once right after the opening `<title>`
      tag, once between `<h1>` and `</h1>`. */
  lemma TitleTwice(title: string)
    ensures Head(title) == TitleOpen + title + TitleToHeading + title + HeadingClose
    ensures EndsWithText(TitleOpen, "<title>") && HeadingClose[..5] == "</h1>"
    ensures TitleToHeading[..8] == "</title>" && EndsWithText(TitleToHeading, "<h1>")
  {
    Regroup(TitleOpen, title, "</title>", "<style>table{border-collapse:collapse;width:100%}",
      "th,td{border:1px solid #ddd;padding:8px;text-align:left}",
      "th{background:#4a4a4a;color:white}</style></head><body>", "<h1>", HeadingClose);
  }

  /** CSV and HTML write nothing exactly when there are no records, while
      JSON always writes; CSV takes its field names from the first record. */
  lemma EmptyGuards<V>(data: seq<Dict<V>>, path: string, title: string, show: V -> string)
    ensures ToJson(data, path) == File(path, data)
    ensures ToCsv(data, path).Nothing? <==> data == []
    ensures HtmlWritten(data, path, title, show).Nothing? <==> data == []
    ensures data != [] ==> ToCsv(data, path).content.fieldnames == Keys(data[0])
  {
  }
}
