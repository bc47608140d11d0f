/** The command line's file-type classifier: the family of parser to run on
    a file, chosen from the lower-cased final component of its path by an
    ordered chain of tests; and the names of the seven families. */
module Cli {
  import opened Wrappers
  import opened Text

  /** The keys of `PARSERS`, in their order. */
  const ParserKeys := ["sms", "whatsapp", "safari", "calls", "knowledgec", "contacts", "plist"]

  // ---------------------------------------------------------------------
  // Path(path).name

  /** The final component of a POSIX path: the last part between slashes
      that is neither empty nor `.`, or the empty string when there is none. */
  function Name(path: string): (n: string)
    ensures '/' !in n && n != "."
  {
    JoinSplit(path, '/');
    LastName(Split(path, '/'))
  }

  function LastName(parts: seq<string>): (n: string)
    ensures n == "" || (n in parts && n != ".")
  {
    if parts == [] then ""
    else
      var last := parts[|parts| - 1];
      if last == "" || last == "." then LastName(parts[..|parts| - 1]) else last
  }

  /** A plain file name is its own final component. */
  lemma NamePlain(file: string)
    requires '/' !in file && file != "" && file != "."
    ensures Name(file) == file
  {
    SplitNoSep(file, '/');
  }

  /** Whatever directory a file is in, its final component is the file's
      name. */
  lemma NameInDirectory(dir: string, file: string)
    requires '/' !in file && file != "" && file != "."
    ensures Name(dir + "/" + file) == file
  {
    assert dir + "/" + file == dir + ['/'] + file;
    SplitLast(dir, file, '/');
  }

  /** A trailing slash does not change the final component. */
  lemma NameTrailingSlash(path: string)
    ensures Name(path + "/") == Name(path)
  {
    assert path + "/" == path + ['/'];
    SplitTrailing(path, '/');
    var parts := Split(path, '/');
    assert (parts + [""])[..|parts|] == parts;
  }

  // ---------------------------------------------------------------------
  // detect_type

  /** The tests of the chain: a suffix for property lists, a substring for
      every database. */
  datatype Test = Suffix(suffix: string) | Substring(piece: string)

  predicate Passes(name: string, t: Test) {
    match t
    case Suffix(x) => EndsWith(name, x)
    case Substring(x) => Contains(name, x)
  }

  /** The chain in the order the classifier tries it. */
  const Rules: seq<(string, Test)> := [
    ("plist", Suffix(".plist")),
    ("sms", Substring("sms")),
    ("whatsapp", Substring("chatstorage")),
    ("safari", Substring("history")),
    ("calls", Substring("callhistory")),
    ("knowledgec", Substring("knowledgec")),
    ("contacts", Substring("addressbook"))]

  /** Reference reading of an ordered chain: the family of the first test
      the name passes, or none. */
  function FirstMatch(rules: seq<(string, Test)>, name: string): Option<string> {
    FirstMatchFrom(rules, 0, name)
  }

  /** The family of the first test from position `i` on that the name
      passes: every test before it fails. */
  function FirstMatchFrom(rules: seq<(string, Test)>, i: nat, name: string): (r: Option<string>)
    requires i <= |rules|
    ensures r.None? <==> forall k :: i <= k < |rules| ==> !Passes(name, rules[k].1)
    ensures r.Some? ==> exists k :: (i <= k < |rules| && rules[k].0 == r.value && Passes(name, rules[k].1)
                                      && forall j :: i <= j < k ==> !Passes(name, rules[j].1))
    decreases |rules| - i
  {
    if i == |rules| then None
    else if Passes(name, rules[i].1) then Some(rules[i].0)
    else FirstMatchFrom(rules, i + 1, name)
  }

  /** `detect_type` on an already lower-cased final component, as the
      chain is written. */
  function Classify(name: string): (r: Option<string>)
    ensures r.None? || r.value in ParserKeys
  {
    if EndsWith(name, ".plist") then Some("plist")
    else if Contains(name, "sms") then Some("sms")
    else if Contains(name, "chatstorage") then Some("whatsapp")
    else if Contains(name, "history") then Some("safari")
    else if Contains(name, "callhistory") then Some("calls")
    else if Contains(name, "knowledgec") then Some("knowledgec")
    else if Contains(name, "addressbook") then Some("contacts")
    else None
  }

  /** `detect_type(path)`: only the lower-cased final component is looked
      at; the result is a key of `PARSERS`, or none when no test passes. */
  function DetectType(path: string): (r: Option<string>)
    ensures r.None? || r.value in ParserKeys
  {
    Classify(Lower(Name(path)))
  }

  /** One step of the first-match reading. */
  lemma FirstMatchStep(rules: seq<(string, Test)>, i: nat, name: string)
    requires i < |rules|
    ensures FirstMatchFrom(rules, i, name) == if Passes(name, rules[i].1) then Some(rules[i].0) else FirstMatchFrom(rules, i + 1, name)
  {
  }

  /** The chain is the first-match reading of `Rules`: a `.plist` suffix wins
      over every substring, and otherwise the earliest passing test decides;
      no passing test means no family. */
  lemma ClassifyFirstMatch(name: string)
    ensures Classify(name) == FirstMatch(Rules, name)
  {
    var r := Rules;
    FirstMatchStep(r, 0, name);
    FirstMatchStep(r, 1, name);
    FirstMatchStep(r, 2, name);
    FirstMatchStep(r, 3, name);
    FirstMatchStep(r, 4, name);
    FirstMatchStep(r, 5, name);
    FirstMatchStep(r, 6, name);
    assert FirstMatchFrom(r, 7, name) == None;
  }

  /** The families the rules name, in order. */
  function Families(rules: seq<(string, Test)>): (fs: seq<string>)
    ensures |fs| == |rules| && forall j :: 0 <= j < |rules| ==> fs[j] == rules[j].0
  {
    seq(|rules|, j requires 0 <= j < |rules| => rules[j].0)
  }

  /** The rules name each of the seven families, and no other. */
  lemma RulesCoverParsers()
    ensures |Rules| == |ParserKeys|
    ensures forall k :: 0 <= k < |ParserKeys| ==> ParserKeys[k] in Families(Rules)
    ensures forall j :: 0 <= j < |Rules| ==> Rules[j].0 in ParserKeys
  {
    var fs := Families(Rules);
    forall k | 0 <= k < |ParserKeys|
      ensures ParserKeys[k] in fs
    {
      var j := if k == 6 then 0 else k + 1;
      assert fs[j] == ParserKeys[k];
    }
    forall j | 0 <= j < |Rules|
      ensures Rules[j].0 in ParserKeys
    {
      var k := if j == 0 then 6 else j - 1;
      assert Rules[j].0 == ParserKeys[k];
    }
  }

  /** The directory part of the path plays no role, and neither does the
      case of the letters of the file name. */
  lemma DetectFileNameOnly(dir: string, file: string)
    requires '/' !in file && file != "" && file != "."
    ensures DetectType(dir + "/" + file) == DetectType(file) == Classify(Lower(file))
  {
    NameInDirectory(dir, file);
    NamePlain(file);
  }

  /** `calls` is never returned: a name containing `callhistory` contains
      `history`, which is tested first and gives `safari`. */
  lemma CallsUnreachable(name: string)
    ensures Classify(name) != Some("calls")
    ensures (Contains(name, "callhistory") && !EndsWith(name, ".plist") && !Contains(name, "sms")
             && !Contains(name, "chatstorage")) ==> Classify(name) == Some("safari")
  {
    if Contains(name, "callhistory") {
      assert "callhistory"[4..11] == "history";
      ContainsPiece(name, "callhistory", "call", "history");
    }
  }

  /** The call history store of the device, `CallHistory.storedata`, is
      classified as browser history. */
  lemma CallHistoryIsSafari()
    ensures DetectType("CallHistory.storedata") == Some("safari")
  {
    NamePlain("CallHistory.storedata");
    LowerCallHistory();
    ClassifyCallHistory();
  }

  lemma LowerCallHistory()
    ensures Lower("CallHistory.storedata") == "callhistory.storedata"
  {
  }

  lemma ClassifyCallHistory()
    ensures Classify("callhistory.storedata") == Some("safari")
  {
    var name := "callhistory.storedata";
    assert name[|name| - 6..] != ".plist";
    MissingChar(name, "sms", 1);
    MissingChar(name, "chatstorage", 9);
    assert name[4..11] == "history";
    assert OccursAt(name, "history", 4);
  }

  /** The chain as evidently intended, with `callhistory` tried before the
      `history` it contains. */
  const ReorderedRules: seq<(string, Test)> := [
    ("plist", Suffix(".plist")),
    ("sms", Substring("sms")),
    ("whatsapp", Substring("chatstorage")),
    ("calls", Substring("callhistory")),
    ("safari", Substring("history")),
    ("knowledgec", Substring("knowledgec")),
    ("contacts", Substring("addressbook"))]

  function ClassifyReordered(name: string): (r: Option<string>)
    ensures r.None? || r.value in ParserKeys
  {
    if EndsWith(name, ".plist") then Some("plist")
    else if Contains(name, "sms") then Some("sms")
    else if Contains(name, "chatstorage") then Some("whatsapp")
    else if Contains(name, "callhistory") then Some("calls")
    else if Contains(name, "history") then Some("safari")
    else if Contains(name, "knowledgec") then Some("knowledgec")
    else if Contains(name, "addressbook") then Some("contacts")
    else None
  }

  /** With the reordering the chain is the first-match reading of
      `ReorderedRules`, and it differs from the chain as written only on
      names containing `callhistory`, which it gives to `calls`. */
  lemma ReorderedFirstMatch(name: string)
    ensures ClassifyReordered(name) == FirstMatch(ReorderedRules, name)
    ensures ClassifyReordered(name) != Classify(name) ==>
      Contains(name, "callhistory") && Classify(name) == Some("safari") && ClassifyReordered(name) == Some("calls")
  {
    var r := ReorderedRules;
    FirstMatchStep(r, 0, name);
    FirstMatchStep(r, 1, name);
    FirstMatchStep(r, 2, name);
    FirstMatchStep(r, 3, name);
    FirstMatchStep(r, 4, name);
    FirstMatchStep(r, 5, name);
    FirstMatchStep(r, 6, name);
    assert FirstMatchFrom(r, 7, name) == None;
    CallsUnreachable(name);
  }

  /** The reordered chain sends the call history store to `calls`. */
  lemma ReorderedCallHistory()
    ensures ClassifyReordered("callhistory.storedata") == Some("calls")
  {
    var name := "callhistory.storedata";
    assert name[|name| - 6..] != ".plist";
    MissingChar(name, "sms", 1);
    MissingChar(name, "chatstorage", 9);
    assert name[0..11] == "callhistory";
    assert OccursAt(name, "callhistory", 0);
  }

  /** `detect_type` with the corrected chain. */
  function DetectTypeCorrected(path: string): (r: Option<string>)
    ensures r.None? || r.value in ParserKeys
  {
    ClassifyReordered(Lower(Name(path)))
  }

  /** With the corrected chain the call log, in whatever directory the
      device keeps it, is given to the call-history parser. */
  lemma CorrectedCallLogPath(dir: string)
    ensures DetectTypeCorrected(dir + "/CallHistory.storedata") == Some("calls")
  {
    var file := "CallHistory.storedata";
    assert dir + "/CallHistory.storedata" == dir + "/" + file;
    NameInDirectory(dir, file);
    LowerCallHistory();
    ReorderedCallHistory();
  }
}
