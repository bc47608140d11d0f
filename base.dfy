/** What every database parser shares: a connection that is either open
    (connection and cursor both present) or closed (both absent), accessors
    that refuse to work while it is closed, the `_data` slot that `parse`
    replaces, and the queries any SQLite file answers. The SQLite engine is
    not modelled: the rows a query fetches are a parameter. */
module Base {
  import opened Wrappers
  import opened PyDict
  import opened Records
  import Export

  /** An open `sqlite3` connection to the database file. */
  datatype Connection = Connection(path: string)

  /** The cursor created on a connection. */
  datatype Cursor = Cursor(conn: Connection)

  /** `FileNotFoundError` from the constructor, `RuntimeError` from the
      accessors while no connection is open. */
  datatype Error = FileNotFound(path: string) | NotConnected

  const TablesSql := "SELECT name FROM sqlite_master WHERE type='table'"

  /** A row of `sqlite_master` as `tables` reads it: the table name. */
  datatype MasterRow = MasterRow(name: Field)

  /** A row of `PRAGMA table_info`: cid, name, type, notnull, default, pk. */
  datatype ColumnRow = ColumnRow(cid: Field, name: Field, kind: Field, notNull: Field, default: Field, pk: Field)

  /** The record `schema` makes of a column: its name, its declared type
      and whether it is part of the primary key. */
  function ColumnRecord(row: ColumnRow): (r: Record)
    ensures Keys(r) == ["name", "type", "pk"]
    ensures Values(r) == [row.name, row.kind, Bool(Truthy(row.pk))]
  {
    [("name", row.name), ("type", row.kind), ("pk", Bool(Truthy(row.pk)))]
  }

  class Parser {
    /** The database path given to the constructor. */
    const path: string
    var conn: Option<Connection>
    var cursor: Option<Cursor>
    /** The records of the latest `parse`. */
    var data: seq<Record>

    /** Connection and cursor are present together, the cursor on the
        connection to this parser's file. */
    predicate Valid()
      reads this
    {
      && (conn.Some? <==> cursor.Some?)
      && (conn.Some? ==> conn.value == Connection(path) && cursor.value == Cursor(conn.value))
    }

    predicate Connected()
      reads this
    {
      conn.Some?
    }

    /** The fields `__init__` sets before it looks for the file. */
    constructor (path: string)
      ensures this.path == path && conn == None && cursor == None && data == []
      ensures Valid() && !Connected()
    {
      this.path := path;
      conn := None;
      cursor := None;
      data := [];
    }

    /** `BaseParser(path)`: a parser with no connection and no records, or
        `FileNotFoundError` when there is no file at `path`. */
    static method Open(path: string, fileExists: bool) returns (r: Result<Parser, Error>)
      ensures r.Ok? <==> fileExists
      ensures r.Err? ==> r.error == FileNotFound(path)
      ensures r.Ok? ==> fresh(r.value) && r.value.path == path
      ensures r.Ok? ==> r.value.Valid() && !r.value.Connected() && r.value.data == []
    {
      var p := new Parser(path);
      if !fileExists {
        return Err(FileNotFound(path));
      }
      return Ok(p);
    }

    /** The `cursor` property: the open cursor, or `RuntimeError` exactly
        when the parser is disconnected. */
    function CursorOrError(): (r: Result<Cursor, Error>)
      reads this
      ensures r.Err? <==> cursor.None?
      ensures r.Ok? ==> cursor == Some(r.value)
      ensures r.Err? ==> r.error == NotConnected
    {
      if cursor.None? then Err(NotConnected) else Ok(cursor.value)
    }

    /** The `conn` property: the open connection, or `RuntimeError` exactly
        when the parser is disconnected. */
    function ConnOrError(): (r: Result<Connection, Error>)
      reads this
      ensures r.Err? <==> conn.None?
      ensures r.Ok? ==> conn == Some(r.value)
      ensures r.Err? ==> r.error == NotConnected
    {
      if conn.None? then Err(NotConnected) else Ok(conn.value)
    }

    /** `connect`: both fields set, whatever the state before. */
    method Connect()
      modifies this
      ensures conn == Some(Connection(path)) && cursor == Some(Cursor(Connection(path)))
      ensures data == old(data)
      ensures Valid() && Connected()
      ensures CursorOrError().Ok? && ConnOrError().Ok?
    {
      conn := Some(Connection(path));
      cursor := Some(Cursor(conn.value));
    }

    /** `close`: both fields cleared when connected; nothing changes when
        already disconnected, so closing twice is closing once. */
    method Close()
      modifies this
      ensures old(conn).Some? ==> conn == None && cursor == None
      ensures old(conn).None? ==> conn == old(conn) && cursor == old(cursor)
      ensures data == old(data)
      ensures old(Valid()) ==> Valid() && !Connected() && CursorOrError() == Err(NotConnected)
    {
      if conn.Some? {
        conn := None;
        cursor := None;
      }
    }

    /** `__enter__`: connects and hands back the parser itself. */
    method Enter() returns (self: Parser)
      modifies this
      ensures self == this
      ensures conn == Some(Connection(path)) && cursor == Some(Cursor(Connection(path)))
      ensures data == old(data) && Valid()
    {
      Connect();
      return this;
    }

    /** `__exit__`: closes, whatever happened inside the block, and does not
        swallow the exception. */
    method Exit()
      modifies this
      requires Valid()
      ensures Valid() && !Connected() && data == old(data)
    {
      Close();
    }

    /** The part every `parse` shares: the query runs on the cursor (the
        accessor raising when disconnected, before `_data` is touched), then
        `_data` is emptied and one record is appended per fetched row. */
    method Refill<R>(rows: seq<R>, shape: R -> Record) returns (r: Result<seq<Record>, Error>)
      modifies this
      ensures conn == old(conn) && cursor == old(cursor)
      ensures old(cursor).None? ==> r == Err(NotConnected) && data == old(data)
      ensures old(cursor).Some? ==> r == Ok(data) && |data| == |rows|
      ensures old(cursor).Some? ==> forall i :: 0 <= i < |rows| ==> data[i] == shape(rows[i])
    {
      if cursor.None? {
        return Err(NotConnected);
      }
      data := [];
      for i := 0 to |rows|
        invariant conn == old(conn) && cursor == old(cursor)
        invariant |data| == i && forall k :: 0 <= k < i ==> data[k] == shape(rows[k])
      {
        data := data + [shape(rows[i])];
      }
      return Ok(data);
    }

    /** The part every query method other than `parse` shares: the query runs
        on the cursor, and one result is appended to a fresh list per row;
        `_data` is left alone. */
    method Collect<R, T>(rows: seq<R>, shape: R -> T) returns (r: Result<seq<T>, Error>)
      ensures r.Err? <==> cursor.None?
      ensures r.Err? ==> r.error == NotConnected
      ensures r.Ok? ==> |r.value| == |rows| && forall i :: 0 <= i < |rows| ==> r.value[i] == shape(rows[i])
    {
      if cursor.None? {
        return Err(NotConnected);
      }
      var results: seq<T> := [];
      for i := 0 to |rows|
        invariant |results| == i && forall k :: 0 <= k < i ==> results[k] == shape(rows[k])
      {
        results := results + [shape(rows[i])];
      }
      return Ok(results);
    }

    /** `tables`: the names `sqlite_master` lists, in its order. */
    method Tables(rows: seq<MasterRow>) returns (sql: string, r: Result<seq<Field>, Error>)
      ensures sql == TablesSql
      ensures r.Err? <==> cursor.None?
      ensures r.Ok? ==> |r.value| == |rows| && forall i :: 0 <= i < |rows| ==> r.value[i] == rows[i].name
    {
      sql := TablesSql;
      r := Collect(rows, (row: MasterRow) => row.name);
    }

    /** `schema`: the pragma names the table verbatim; one record per
        column, in the pragma's order. */
    method Schema(table: string, rows: seq<ColumnRow>) returns (sql: string, r: Result<seq<Record>, Error>)
      ensures sql == "PRAGMA table_info(" + table + ")"
      ensures r.Err? <==> cursor.None?
      ensures r.Ok? ==> |r.value| == |rows| && forall i :: 0 <= i < |rows| ==> r.value[i] == ColumnRecord(rows[i])
    {
      sql := "PRAGMA table_info(" + table + ")";
      r := Collect(rows, ColumnRecord);
    }

    /** `count`: the first column of the one row `COUNT(*)` returns. */
    method Count(table: string, counted: Field) returns (sql: string, r: Result<Field, Error>)
      ensures sql == "SELECT COUNT(*) FROM " + table
      ensures r.Err? <==> cursor.None?
      ensures r.Ok? ==> r.value == counted
    {
      sql := "SELECT COUNT(*) FROM " + table;
      if cursor.None? {
        return sql, Err(NotConnected);
      }
      return sql, Ok(counted);
    }

    /** `export_json`: the records of the latest `parse`, unchanged. */
    method ExportJson(to: string) returns (w: Export.Written<seq<Record>>)
      ensures w == Export.ToJson(data, to)
    {
      w := Export.ToJson(data, to);
    }

    /** `export_csv`: the records of the latest `parse`, unchanged. */
    method ExportCsv(to: string) returns (w: Export.Written<Export.Csv<Field>>)
      ensures w == Export.ToCsv(data, to)
    {
      w := Export.ToCsv(data, to);
    }
  }

  /** A `with` block around a parse: the parser is connected inside and
      disconnected after, and `_data` holds one record per row. */
  method Session<R>(p: Parser, rows: seq<R>, shape: R -> Record) returns (r: Result<seq<Record>, Error>)
    requires p.Valid()
    modifies p
    ensures p.Valid() && !p.Connected()
    ensures r == Ok(p.data) && |p.data| == |rows| && forall i :: 0 <= i < |rows| ==> p.data[i] == shape(rows[i])
  {
    var q := p.Enter();
    r := q.Refill(rows, shape);
    q.Exit();
  }
}
