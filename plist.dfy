/** Property lists: the tree `plistlib` decodes a file to, and what the
    plist parser does with it — dotted-path lookup, top-level keys,
    flattening to path-named leaves, conversion to JSON-safe values, and the
    indented outline `print_structure` prints. The decoder itself is not
    modelled: `Parse` takes the decoded tree. */
module Plist {
  import opened Wrappers
  import opened Text
  import PyDict
  import Timestamp
  import Export

  /** A decoded property-list value. A dict is an insertion-ordered sequence
      of entries with string keys; a real number is carried as the text
      `str()` gives it. */
  datatype Value =
    | Dict(entries: seq<(string, Value)>)
    | List(items: seq<Value>)
    | Bytes(bytes: seq<byte>)
    | Date(t: Timestamp.Instant)
    | Str(s: string)
    | Int(i: int)
    | Float(text: string)
    | Bool(b: bool)
  {
    predicate IsContainer() {
      Dict? || List?
    }
  }

  /** The parser's error: `FileNotFoundError` from the constructor. */
  datatype Error = NotFound(path: string)

  // ---------------------------------------------------------------------
  // get: one segment at a time

  /** `xs[n]` on a Python list: negative positions count from the end;
      `None` where Python raises IndexError. */
  function Index(xs: seq<Value>, n: int): Option<Value> {
    if 0 <= n < |xs| then Some(xs[n])
    else if -|xs| <= n < 0 then Some(xs[|xs| + n])
    else None
  }

  /** One pass of `get`'s loop: a dict holding the key is indexed by it; a
      list is indexed by the segment read as an integer; anything else, a
      dict without the key included, ends the walk (`None`). */
  function Step(current: Value, key: string): Option<Value> {
    if current.Dict? && key in PyDict.Keys(current.entries) then PyDict.Get(current.entries, key)
    else if current.List? then
      match ParseInt(key)
      case None => None
      case Some(n) => Index(current.items, n)
    else None
  }

  /** The value a whole path leads to, or `None` when a step fails. */
  function Resolve(v: Value, path: seq<string>): Option<Value>
    decreases |path|
  {
    if path == [] then Some(v)
    else
      match Step(v, path[0])
      case None => None
      case Some(w) => Resolve(w, path[1..])
  }

  /** Walking `p + q` is walking `p`, then walking `q` from where `p` ended. */
  lemma {:induction false} ResolveAppend(v: Value, p: seq<string>, q: seq<string>)
    ensures Resolve(v, p + q) == if Resolve(v, p).Some? then Resolve(Resolve(v, p).value, q) else None
    decreases |p|
  {
    if p == [] {
      assert p + q == q;
    } else {
      var pq := p + q;
      assert pq[0] == p[0] && pq[1..] == p[1..] + q;
      var w := Step(v, p[0]);
      if w.Some? {
        ResolveAppend(w.value, p[1..], q);
      }
    }
  }

  /** On a list, a segment that is the text of an integer selects by Python
      indexing: from the front when non-negative, from the end when
      negative, nothing out of range; a segment that is no integer selects
      nothing. */
  lemma ListSegments(xs: seq<Value>, n: int, key: string)
    ensures -|xs| <= n < 0 ==> Step(List(xs), IntText(n)) == Some(xs[|xs| + n])
    ensures 0 <= n < |xs| ==> Step(List(xs), IntText(n)) == Some(xs[n])
    ensures !(-|xs| <= n < |xs|) ==> Step(List(xs), IntText(n)) == None
    ensures ParseInt(key).None? ==> Step(List(xs), key) == None
  {
    ParseIntText(n);
    assert Step(List(xs), IntText(n)) == Index(xs, n);
  }

  /** The dict test comes first: on a dict, a segment is only ever a key,
      even when it reads as an integer; a missing key ends the walk. */
  lemma DictSegments(es: seq<(string, Value)>, key: string)
    ensures Step(Dict(es), key) == PyDict.Get(es, key)
    ensures key !in PyDict.Keys(es) ==> Step(Dict(es), key) == None
  {
  }

  /** A scalar reached before the path ends ends the walk. */
  lemma ScalarStops(v: Value, path: seq<string>)
    requires !v.IsContainer() && path != []
    ensures Resolve(v, path) == None
  {
  }

  // ---------------------------------------------------------------------
  // The parser object

  class PlistParser {
    const path: string
    /** The tree of the latest `parse`; an empty dict before the first. */
    var data: Value

    /** The fields `__init__` sets before it looks for the file. */
    constructor (path: string)
      ensures this.path == path && data == Dict([])
    {
      this.path := path;
      data := Dict([]);
    }

    /** `PlistParser(path)`: `FileNotFoundError` when there is no file. */
    static method Open(path: string, fileExists: bool) returns (r: Result<PlistParser, Error>)
      ensures r.Ok? <==> fileExists
      ensures r.Err? ==> r.error == NotFound(path)
      ensures r.Ok? ==> fresh(r.value) && r.value.path == path && r.value.data == Dict([])
      ensures r.Ok? ==> r.value.TopKeys() == []
    {
      var p := new PlistParser(path);
      if !fileExists {
        return Err(NotFound(path));
      }
      return Ok(p);
    }

    /** `parse`: the decoded tree becomes `_data` and is returned. */
    method Parse(decoded: Value) returns (r: Value)
      modifies this
      ensures data == decoded && r == decoded
    {
      data := decoded;
      r := data;
    }

    /** `get(key_path, default)`: the path split at every `.`, walked from
        `_data`; `default` as soon as a step fails. */
    method Get(keyPath: string, default: Value) returns (r: Value)
      ensures r == Resolve(data, Split(keyPath, '.')).GetOr(default)
    {
      var keys := Split(keyPath, '.');
      var current := data;
      for i := 0 to |keys|
        invariant Resolve(data, keys) == Resolve(current, keys[i..])
      {
        var key := keys[i];
        assert keys[i..][1..] == keys[i + 1..];
        if current.Dict? && key in PyDict.Keys(current.entries) {
          current := PyDict.Get(current.entries, key).value;
        } else if current.List? {
          var n := ParseInt(key);
          if n.None? {
            return default;
          }
          var x := Index(current.items, n.value);
          if x.None? {
            return default;
          }
          current := x.value;
        } else {
          return default;
        }
      }
      assert keys[|keys|..] == [];
      return current;
    }

    /** `flatten(sep)`: every leaf of `_data` assigned, in walk order, under
        its path. */
    method Flatten(sep: string) returns (result: PyDict.Dict<Value>)
      ensures result == PyDict.SetAll([], Leaves(data, "", sep))
    {
      result := Walk(data, "", sep, []);
    }

    /** `to_serializable`: `_data` converted, which `json` can write. */
    function ToSerializable(): (r: Value)
      reads this
      ensures JsonSafe(r)
    {
      ConvertSafe(data);
      Convert(data)
    }

    /** `export_json(path)`: the converted tree written to `path`. */
    method ExportJson(to: string) returns (w: Export.Written<Value>)
      ensures w == Export.File(to, Convert(data)) && JsonSafe(w.content)
    {
      w := Export.File(to, ToSerializable());
    }

    /** `print_structure(max_depth)`: the lines it prints. */
    function PrintStructure(maxDepth: int): (lines: seq<string>)
      reads this
      ensures maxDepth < 0 ==> lines == ["..."]
      ensures maxDepth >= 0 && !data.IsContainer() ==> lines == []
      ensures forall i :: 0 <= i < |lines| ==> |lines[i]| > 0
    {
      OutlineCases(data, 0, maxDepth);
      OutlineIndented(data, 0, maxDepth);
      Outline(data, 0, maxDepth)
    }

    /** `keys`: the top-level keys in order when `_data` is a dict, and none
        otherwise. */
    function TopKeys(): (ks: seq<string>)
      reads this
      ensures data.Dict? ==> |ks| == |data.entries| && forall i :: 0 <= i < |ks| ==> ks[i] == data.entries[i].0
      ensures !data.Dict? ==> ks == []
    {
      if data.Dict? then PyDict.Keys(data.entries) else []
    }
  }

  // ---------------------------------------------------------------------
  // flatten

  /** The path of a dict entry: the key alone at the first level (empty
      prefix), otherwise prefix, separator and key. */
  function EntryPath(prefix: string, sep: string, key: string): string {
    if prefix != "" then prefix + sep + key else key
  }

  /** The path of a list item: always prefix, separator and position. */
  function ItemPath(prefix: string, sep: string, i: nat): string {
    prefix + sep + NatText(i)
  }

  /** The leaves of `v` under `prefix`, in the order `_flatten` visits
      them, each with its path. */
  function Leaves(v: Value, prefix: string, sep: string): seq<(string, Value)>
    decreases v, 1
  {
    match v
    case Dict(es) => DictLeaves(v, |es|, prefix, sep)
    case List(xs) => ListLeaves(v, |xs|, prefix, sep)
    case _ => [(prefix, v)]
  }

  /** The leaves of the first `n` entries of a dict. */
  function DictLeaves(v: Value, n: nat, prefix: string, sep: string): seq<(string, Value)>
    requires v.Dict? && n <= |v.entries|
    decreases v, 0, n
  {
    if n == 0 then []
    else
      var e := v.entries[n - 1];
      assert e in v.entries;
      DictLeaves(v, n - 1, prefix, sep) + Leaves(e.1, EntryPath(prefix, sep, e.0), sep)
  }

  /** The leaves of the first `n` items of a list. */
  function ListLeaves(v: Value, n: nat, prefix: string, sep: string): seq<(string, Value)>
    requires v.List? && n <= |v.items|
    decreases v, 0, n
  {
    if n == 0 then []
    else
      assert v.items[n - 1] in v.items;
      ListLeaves(v, n - 1, prefix, sep) + Leaves(v.items[n - 1], ItemPath(prefix, sep, n - 1), sep)
  }

  /** `_flatten(obj, prefix)`: each leaf under `obj` assigned into `acc`. */
  method Walk(obj: Value, prefix: string, sep: string, acc: PyDict.Dict<Value>) returns (out: PyDict.Dict<Value>)
    ensures out == PyDict.SetAll(acc, Leaves(obj, prefix, sep))
    decreases obj
  {
    match obj {
      case Dict(es) =>
        out := acc;
        for i := 0 to |es|
          invariant out == PyDict.SetAll(acc, DictLeaves(obj, i, prefix, sep))
        {
          var k, v := es[i].0, es[i].1;
          assert es[i] in es;
          var newKey := if prefix != "" then prefix + sep + k else k;
          PyDict.SetAllAppend(acc, DictLeaves(obj, i, prefix, sep), Leaves(v, newKey, sep));
          out := Walk(v, newKey, sep, out);
        }
      case List(xs) =>
        out := acc;
        for i := 0 to |xs|
          invariant out == PyDict.SetAll(acc, ListLeaves(obj, i, prefix, sep))
        {
          assert xs[i] in xs;
          var newKey := prefix + sep + NatText(i);
          PyDict.SetAllAppend(acc, ListLeaves(obj, i, prefix, sep), Leaves(xs[i], newKey, sep));
          out := Walk(xs[i], newKey, sep, out);
        }
      case _ =>
        out := PyDict.Set(acc, prefix, obj);
        assert [(prefix, obj)][..0] == [];
    }
  }

  /** Only scalars are leaves: no dict or list is ever a flattened value. */
  lemma {:induction false} LeavesScalar(v: Value, prefix: string, sep: string)
    ensures forall i :: 0 <= i < |Leaves(v, prefix, sep)| ==> !Leaves(v, prefix, sep)[i].1.IsContainer()
    decreases v, 1
  {
    match v
    case Dict(es) => DictLeavesScalar(v, |es|, prefix, sep);
    case List(xs) => ListLeavesScalar(v, |xs|, prefix, sep);
    case _ =>
  }

  lemma {:induction false} DictLeavesScalar(v: Value, n: nat, prefix: string, sep: string)
    requires v.Dict? && n <= |v.entries|
    ensures forall i :: 0 <= i < |DictLeaves(v, n, prefix, sep)| ==> !DictLeaves(v, n, prefix, sep)[i].1.IsContainer()
    decreases v, 0, n
  {
    if n > 0 {
      var e := v.entries[n - 1];
      assert e in v.entries;
      DictLeavesScalar(v, n - 1, prefix, sep);
      LeavesScalar(e.1, EntryPath(prefix, sep, e.0), sep);
    }
  }

  lemma {:induction false} ListLeavesScalar(v: Value, n: nat, prefix: string, sep: string)
    requires v.List? && n <= |v.items|
    ensures forall i :: 0 <= i < |ListLeaves(v, n, prefix, sep)| ==> !ListLeaves(v, n, prefix, sep)[i].1.IsContainer()
    decreases v, 0, n
  {
    if n > 0 {
      assert v.items[n - 1] in v.items;
      ListLeavesScalar(v, n - 1, prefix, sep);
      LeavesScalar(v.items[n - 1], ItemPath(prefix, sep, n - 1), sep);
    }
  }

  /** Every key of the flattened dict holds the scalar of the last leaf
      with that path; a path no leaf has is absent. */
  lemma FlattenValues(v: Value, sep: string, key: string)
    ensures var flat := PyDict.SetAll([], Leaves(v, "", sep));
      && PyDict.Get(flat, key) == PyDict.LastValue(Leaves(v, "", sep), key)
      && (PyDict.Get(flat, key).Some? ==> !PyDict.Get(flat, key).value.IsContainer())
  {
    PyDict.GetSetAll([], Leaves(v, "", sep), key);
    LeavesScalar(v, "", sep);
  }

  /** Empty containers contribute nothing; a top-level list gives paths
      that start with the separator; nested dict keys and list positions
      are joined by it. */
  lemma FlattenExamples()
    ensures Leaves(Dict([]), "p", ".") == [] && Leaves(List([]), "p", ".") == []
    ensures Leaves(List([Int(7)]), "", ".") == [(".0", Int(7))]
    ensures Leaves(Dict([("a", Dict([("b", List([Int(1), Int(2)]))]))]), "", ".") == [("a.b.0", Int(1)), ("a.b.1", Int(2))]
  {
    assert NatText(0) == "0" && NatText(1) == "1";
    assert ItemPath("", ".", 0) == ".0";
    assert ListLeaves(List([Int(7)]), 0, "", ".") == [];
    var inner := List([Int(1), Int(2)]);
    assert ItemPath("a.b", ".", 0) == "a.b.0" && ItemPath("a.b", ".", 1) == "a.b.1";
    assert ListLeaves(inner, 0, "a.b", ".") == [];
    assert ListLeaves(inner, 1, "a.b", ".") == [] + Leaves(Int(1), "a.b.0", ".");
    assert ListLeaves(inner, 2, "a.b", ".") == ListLeaves(inner, 1, "a.b", ".") + Leaves(Int(2), "a.b.1", ".");
    var mid := Dict([("b", inner)]);
    assert EntryPath("a", ".", "b") == "a.b" && EntryPath("", ".", "a") == "a";
    assert DictLeaves(mid, 1, "a", ".") == DictLeaves(mid, 0, "a", ".") + Leaves(inner, "a.b", ".");
    var top := Dict([("a", mid)]);
    assert DictLeaves(top, 1, "", ".") == DictLeaves(top, 0, "", ".") + Leaves(mid, "a", ".");
  }

  // ---------------------------------------------------------------------
  // to_serializable

  /** `_convert`: bytes become their lower-case hex text, dates their ISO
      text with a `T`, containers are rebuilt around converted children, and
      everything else is kept. */
  function Convert(v: Value): Value
    decreases v
  {
    match v
    case Dict(es) => Dict(seq(|es|, i requires 0 <= i < |es| => (es[i].0, Convert(es[i].1))))
    case List(xs) => List(seq(|xs|, i requires 0 <= i < |xs| => Convert(xs[i])))
    case Date(t) => Str(Timestamp.IsoText(t))
    case Bytes(b) => Str(Hex(b))
    case _ => v
  }

  /** No bytes and no dates anywhere in the tree. */
  predicate JsonSafe(v: Value)
    decreases v
  {
    match v
    case Dict(es) => forall i :: 0 <= i < |es| ==> JsonSafe(es[i].1)
    case List(xs) => forall i :: 0 <= i < |xs| ==> JsonSafe(xs[i])
    case Bytes(_) => false
    case Date(_) => false
    case _ => true
  }

  /** The converted tree is JSON-safe. */
  lemma {:induction false} ConvertSafe(v: Value)
    ensures JsonSafe(Convert(v))
    decreases v
  {
    match v
    case Dict(es) =>
      forall i | 0 <= i < |es|
        ensures JsonSafe(Convert(v).entries[i].1)
      {
        assert es[i] in es;
        ConvertSafe(es[i].1);
      }
    case List(xs) =>
      forall i | 0 <= i < |xs|
        ensures JsonSafe(Convert(v).items[i])
      {
        ConvertSafe(xs[i]);
      }
    case _ =>
  }

  /** A tree that is already JSON-safe is left exactly as it is. */
  lemma {:induction false} ConvertIdentity(v: Value)
    requires JsonSafe(v)
    ensures Convert(v) == v
    decreases v
  {
    match v
    case Dict(es) =>
      forall i | 0 <= i < |es|
        ensures Convert(v).entries[i] == es[i]
      {
        assert es[i] in es;
        ConvertIdentity(es[i].1);
      }
      assert Convert(v).entries == es;
    case List(xs) =>
      forall i | 0 <= i < |xs|
        ensures Convert(v).items[i] == xs[i]
      {
        ConvertIdentity(xs[i]);
      }
      assert Convert(v).items == xs;
    case _ =>
  }

  /** Converting twice is converting once. */
  lemma ConvertIdempotent(v: Value)
    ensures Convert(Convert(v)) == Convert(v)
  {
    ConvertSafe(v);
    ConvertIdentity(Convert(v));
  }

  /** The shape is kept: a dict keeps its keys in order, a list its length,
      a scalar stays a scalar; bytes and dates become text that reads back
      to them. */
  lemma ConvertShape(v: Value)
    ensures v.Dict? ==> Convert(v).Dict? && PyDict.Keys(Convert(v).entries) == PyDict.Keys(v.entries)
    ensures v.List? ==> Convert(v).List? && |Convert(v).items| == |v.items|
    ensures !v.IsContainer() ==> !Convert(v).IsContainer()
    ensures v.Bytes? ==> Convert(v).Str? && |Convert(v).s| == 2 * |v.bytes|
    ensures v.Bytes? ==> Unhex(Convert(v).s) == v.bytes
    ensures v.Date? ==> Convert(v).Str? && Timestamp.ParseIso(Convert(v).s, 'T') == Some(v.t)
  {
    match v
    case Dict(es) => ConvertKeys(es);
    case Bytes(b) => ConvertBytes(b);
    case _ =>
  }

  lemma ConvertBytes(b: seq<byte>)
    ensures Convert(Bytes(b)) == Str(Hex(b)) && |Hex(b)| == 2 * |b| && Unhex(Hex(b)) == b
  {
    UnhexHex(b);
  }

  lemma ConvertKeys(es: seq<(string, Value)>)
    ensures Convert(Dict(es)).Dict? && PyDict.Keys(Convert(Dict(es)).entries) == PyDict.Keys(es)
  {
    var c := Convert(Dict(es)).entries;
    assert |c| == |es| && forall i :: 0 <= i < |es| ==> c[i].0 == es[i].0;
    assert PyDict.Keys(c) == PyDict.Keys(es);
  }

  // ---------------------------------------------------------------------
  // print_structure

  /** One byte as `repr(bytes)` writes it inside quotes `quote`. */
  function ReprByte(x: byte, quote: byte): (r: string)
    requires quote == 34 || quote == 39
    ensures forall i :: 0 <= i < |r| ==> ' ' <= r[i] <= '~'
  {
    if x == quote || x == 92 then ['\\', x as char]
    else if x == 9 then "\\t"
    else if x == 10 then "\\n"
    else if x == 13 then "\\r"
    else if 32 <= x < 127 then [x as char]
    else "\\x" + [HexDigit(x / 16), HexDigit(x % 16)]
  }

  function ReprBody(b: seq<byte>, quote: byte): (r: string)
    requires quote == 34 || quote == 39
    ensures forall i :: 0 <= i < |r| ==> ' ' <= r[i] <= '~'
  {
    if b == [] then "" else ReprByte(b[0], quote) + ReprBody(b[1..], quote)
  }

  /** `repr(b)`, which `str()` gives for bytes: single quotes unless the
      bytes hold a single quote and no double quote; only printable ASCII. */
  function BytesRepr(b: seq<byte>): (r: string)
    ensures |r| >= 3 && r[0] == 'b' && r[1] == r[|r| - 1]
    ensures forall i :: 0 <= i < |r| ==> ' ' <= r[i] <= '~'
  {
    var quote: byte := if 39 in b && 34 !in b then 34 else 39;
    "b" + [quote as char] + ReprBody(b, quote) + [quote as char]
  }

  /** `str(v)` for a scalar: dates with a space between date and time. */
  function ScalarText(v: Value): string
    requires !v.IsContainer()
  {
    match v
    case Bytes(b) => BytesRepr(b)
    case Date(t) => Timestamp.IsoFormat(t, ' ')
    case Str(s) => s
    case Int(i) => IntText(i)
    case Float(text) => text
    case Bool(b) => if b then "True" else "False"
  }

  /** `str(v)[:40]`, followed by `...` when anything was cut. */
  function Shorten(text: string): (r: string)
    ensures |text| <= 40 ==> r == text
    ensures |text| > 40 ==> |r| == 43 && r[..40] == text[..40] && r[40..] == "..."
  {
    if |text| > 40 then text[..40] + "..." else text
  }

  /** `'  ' * depth`. */
  function Indent(depth: nat): (s: string)
    ensures |s| == 2 * depth && forall i :: 0 <= i < |s| ==> s[i] == ' '
  {
    if depth == 0 then "" else Indent(depth - 1) + "  "
  }

  /** What follows the indentation on an entry's line: the container's type
      name, or the shortened text of the scalar. */
  function EntryText(key: string, x: Value): string {
    if x.Dict? then key + ": (dict)"
    else if x.List? then key + ": (list)"
    else key + ": " + Shorten(ScalarText(x))
  }

  /** The lines `_print(v, depth)` prints: past `maxDepth` a single `...`;
      a dict gives a line per entry, followed by the lines of a container
      entry one level deeper; a list gives its length and then only the
      lines of its first item; a scalar gives none. */
  function Outline(v: Value, depth: nat, maxDepth: int): seq<string>
    decreases v
  {
    if depth > maxDepth then [Indent(depth) + "..."]
    else
      match v
      case Dict(es) =>
        Concat(seq(|es|, i requires 0 <= i < |es| => EntryBlock(es[i], depth, maxDepth)))
      case List(xs) =>
        [Indent(depth) + ("[" + NatText(|xs|) + " items]")]
          + (if xs == [] then [] else Outline(xs[0], depth + 1, maxDepth))
      case _ => []
  }

  /** The lines of one dict entry: its own line, then those of a container
      value one level deeper. */
  function EntryBlock(e: (string, Value), depth: nat, maxDepth: int): (lines: seq<string>)
    ensures |lines| >= 1
    decreases e
  {
    [Indent(depth) + EntryText(e.0, e.1)] + (if e.1.IsContainer() then Outline(e.1, depth + 1, maxDepth) else [])
  }

  /** The blocks of lines one after the other. */
  function Concat(blocks: seq<seq<string>>): (lines: seq<string>)
    ensures blocks == [] ==> lines == []
  {
    if blocks == [] then [] else blocks[0] + Concat(blocks[1..])
  }

  /** Every line is longer than the indentation of `depth` and starts with it. */
  predicate Indented(lines: seq<string>, depth: nat) {
    forall i :: 0 <= i < |lines| ==> |lines[i]| > 2 * depth && lines[i][..2 * depth] == Indent(depth)
  }

  lemma IndentedAppend(a: seq<string>, b: seq<string>, depth: nat)
    requires Indented(a, depth) && Indented(b, depth)
    ensures Indented(a + b, depth)
  {
    forall i | 0 <= i < |a + b|
      ensures |(a + b)[i]| > 2 * depth && (a + b)[i][..2 * depth] == Indent(depth)
    {
      if i < |a| {
        assert (a + b)[i] == a[i];
      } else {
        assert (a + b)[i] == b[i - |a|];
      }
    }
  }

  /** Blocks that are all indented concatenate to indented lines. */
  lemma {:induction false} ConcatIndented(blocks: seq<seq<string>>, depth: nat)
    requires forall i :: 0 <= i < |blocks| ==> Indented(blocks[i], depth)
    ensures Indented(Concat(blocks), depth)
  {
    if blocks != [] {
      ConcatIndented(blocks[1..], depth);
      IndentedAppend(blocks[0], Concat(blocks[1..]), depth);
    }
  }

  /** Blocks of at least one line each give at least a line per block. */
  lemma {:induction false} ConcatLength(blocks: seq<seq<string>>)
    requires forall i :: 0 <= i < |blocks| ==> |blocks[i]| >= 1
    ensures |Concat(blocks)| >= |blocks|
  {
    if blocks != [] {
      ConcatLength(blocks[1..]);
    }
  }

  /** Lines indented one level deeper are indented at this level too. */
  lemma DeeperIndent(lines: seq<string>, depth: nat)
    requires Indented(lines, depth + 1)
    ensures Indented(lines, depth)
  {
    forall i | 0 <= i < |lines|
      ensures lines[i][..2 * depth] == Indent(depth)
    {
      assert lines[i][..2 * depth] == lines[i][..2 * (depth + 1)][..2 * depth];
      assert Indent(depth + 1)[..2 * depth] == Indent(depth);
    }
  }

  /** A line made of the indentation and some text is indented. */
  lemma OneLine(depth: nat, text: string)
    requires text != ""
    ensures Indented([Indent(depth) + text], depth)
  {
    var line := Indent(depth) + text;
    assert line[..2 * depth] == Indent(depth);
  }

  /** Every line starts with the indentation of the level it was printed
      at, and has something after it. */
  lemma {:induction false} OutlineIndented(v: Value, depth: nat, maxDepth: int)
    ensures Indented(Outline(v, depth, maxDepth), depth)
    decreases v
  {
    if depth > maxDepth {
      OneLine(depth, "...");
    } else {
      match v
      case Dict(es) =>
        var blocks := seq(|es|, i requires 0 <= i < |es| => EntryBlock(es[i], depth, maxDepth));
        forall i | 0 <= i < |es|
          ensures Indented(blocks[i], depth)
        {
          assert es[i] in es;
          EntryBlockIndented(es[i], depth, maxDepth);
        }
        ConcatIndented(blocks, depth);
      case List(xs) =>
        var head := [Indent(depth) + ("[" + NatText(|xs|) + " items]")];
        OneLine(depth, "[" + NatText(|xs|) + " items]");
        if xs != [] {
          OutlineIndented(xs[0], depth + 1, maxDepth);
          DeeperIndent(Outline(xs[0], depth + 1, maxDepth), depth);
          IndentedAppend(head, Outline(xs[0], depth + 1, maxDepth), depth);
        } else {
          assert Outline(v, depth, maxDepth) == head + [];
        }
      case _ =>
    }
  }

  lemma {:induction false} EntryBlockIndented(e: (string, Value), depth: nat, maxDepth: int)
    ensures Indented(EntryBlock(e, depth, maxDepth), depth)
    decreases e
  {
    var text := EntryText(e.0, e.1);
    assert |text| >= 2;
    var head := [Indent(depth) + text];
    OneLine(depth, text);
    if e.1.IsContainer() {
      OutlineIndented(e.1, depth + 1, maxDepth);
      DeeperIndent(Outline(e.1, depth + 1, maxDepth), depth);
      IndentedAppend(head, Outline(e.1, depth + 1, maxDepth), depth);
    } else {
      assert EntryBlock(e, depth, maxDepth) == head + [];
    }
  }

  /** Past the depth limit there is a single `...` line; a scalar on its
      own prints nothing; a dict within the limit prints at least a line
      per entry. */
  lemma OutlineCases(v: Value, depth: nat, maxDepth: int)
    ensures depth > maxDepth ==> Outline(v, depth, maxDepth) == [Indent(depth) + "..."]
    ensures depth <= maxDepth && !v.IsContainer() ==> Outline(v, depth, maxDepth) == []
    ensures depth <= maxDepth && v.Dict? ==> |Outline(v, depth, maxDepth)| >= |v.entries|
  {
    if depth <= maxDepth && v.Dict? {
      var es := v.entries;
      ConcatLength(seq(|es|, i requires 0 <= i < |es| => EntryBlock(es[i], depth, maxDepth)));
    }
  }

  /** Only the first item of a list is looked into: lists of the same
      length with the same first item print the same lines. */
  lemma ListFirstOnly(x: Value, ys: seq<Value>, zs: seq<Value>, depth: nat, maxDepth: int)
    requires |ys| == |zs|
    ensures Outline(List([x] + ys), depth, maxDepth) == Outline(List([x] + zs), depth, maxDepth)
  {
    assert ([x] + ys)[0] == x && ([x] + zs)[0] == x;
  }

  /** A path without dots is one segment: `get` then looks up one key. */
  lemma OneSegment(v: Value, key: string)
    requires '.' !in key
    ensures Resolve(v, Split(key, '.')) == Step(v, key)
  {
    SplitNoSep(key, '.');
  }
}
