/**
 * The rewriting pass (pkg/migration/migration.go:148-246): collect the edits for import
 * lines and calls, check that every rospy name is covered, sort and splice.
 */
module Transformer {
  import opened Outcomes
  import opened Lexer
  import opened Grammar
  import opened CallFinder
  import opened Edits
  import opened Imports
  import opened Replacements

  datatype Warning =
    | UnsupportedImport
    | InitOptions
    | KeywordOptions
    | TimerEvent
    | ServiceAdaptation
    | ParameterNames
    | ManualCall(name: string)
    | NamespaceConflict
    | Ros1Dependency(name: string)
    | Unconverted

  datatype TransformError = TooLarge | BadCalls(error: CallError) | Overlapping

  const MAX_SOURCE := 0x20_0000

  // ---------------------------------------------------------------- edits from calls

  /** strings.TrimSpace leaves nothing: `s` is a run of UTF-8 encoded white space. */
  predicate BlankRunes(s: string) {
    if s == [] then true
    else
      var b := s[0] as int;
      if 9 <= b <= 13 || b == 32 then BlankRunes(s[1..])
      else if |s| >= 2 && b == 0xC2 && (s[1] as int == 0x85 || s[1] as int == 0xA0) then BlankRunes(s[2..])
      else if |s| >= 3 && WideBlank(b, s[1] as int, s[2] as int) then BlankRunes(s[3..])
      else false
  }

  /** The three-byte encodings of U+1680, U+2000..200A, U+2028, U+2029, U+202F, U+205F, U+3000. */
  predicate WideBlank(a: int, b: int, c: int) {
    || (a == 0xE1 && b == 0x9A && c == 0x80)
    || (a == 0xE2 && b == 0x80 && (0x80 <= c <= 0x8A || c == 0xA8 || c == 0xA9 || c == 0xAF))
    || (a == 0xE2 && b == 0x81 && c == 0x9F)
    || (a == 0xE3 && b == 0x80 && c == 0x80)
  }

  /** The edit a call gives rise to: its head, the whole call, or none. */
  function CallEdit(c: Call): seq<Edit> {
    if Helper(c.name).Some? then [Edit(c.start, c.open, HelperText(Helper(c.name).value))]
    else if c.name == "is_shutdown" && BlankRunes(c.arguments) then [Edit(c.start, c.end, SHUTDOWN_TEXT)]
    else if LogLevel(c.name).Some? then [Edit(c.start, c.open, LogText(LogLevel(c.name).value))]
    else []
  }

  function CallEdits(calls: seq<Call>): seq<Edit> {
    if calls == [] then [] else CallEdits(calls[..|calls|-1]) + CallEdit(calls[|calls|-1])
  }

  function EditsOf(source: string, calls: seq<Call>): seq<Edit> {
    ImportEdits(source, 0) + CallEdits(calls)
  }

  // ---------------------------------------------------------------- warnings

  /** Keyword arguments other than queue_size, one warning for each. */
  function KeywordWarnings(args: seq<Token>, i: nat): seq<Warning>
    requires 1 <= i
    decreases |args| - i
  {
    if |args| <= i then []
    else (if args[i].text == "=" && args[i-1].text != "queue_size" then [KeywordOptions] else [])
         + KeywordWarnings(args, i + 1)
  }

  ghost function ArgumentTokens(c: Call): seq<Token> {
    match LexResult(c.arguments)
    case Ok(args) => args
    case Err(_) => []
  }

  ghost function CallWarnings(c: Call): seq<Warning> {
    if Helper(c.name).Some? then
      (if c.name == "init_node" && '=' in c.arguments then [InitOptions] else [])
      + (if c.name == "Publisher" || c.name == "Subscriber" then KeywordWarnings(ArgumentTokens(c), 1) else [])
      + (if c.name == "Timer" then [TimerEvent] else [])
      + (if c.name == "Service" then [ServiceAdaptation] else [])
      + (if c.name == "get_param" || c.name == "set_param" || c.name == "has_param" then [ParameterNames] else [])
    else if c.name == "is_shutdown" && BlankRunes(c.arguments) then []
    else if LogLevel(c.name).Some? then []
    else [ManualCall(c.name)]
  }

  ghost function AllCallWarnings(calls: seq<Call>): seq<Warning> {
    if calls == [] then [] else AllCallWarnings(calls[..|calls|-1]) + CallWarnings(calls[|calls|-1])
  }

  predicate Covered(t: Token, es: seq<Edit>) {
    exists e :: e in es && e.start <= t.start && t.end <= e.end
  }

  predicate IsRospy(t: Token) { t.kind == Name && t.text == "rospy" }

  function TokenWarnings(t: Token, es: seq<Edit>): seq<Warning> {
    if t.kind != Name then []
    else
      (if "_rosplus" <= t.text || t.text == "_rclpy" || t.text == "_RosPlusRate"
          || t.text == "_Node" || t.text == "_time" then [NamespaceConflict] else [])
      + (if t.text == "actionlib" || t.text == "tf" || t.text == "dynamic_reconfigure"
         then [Ros1Dependency(t.text)] else [])
      + (if t.text == "rospy" && !Covered(t, es) then [Unconverted] else [])
  }

  function AllTokenWarnings(ts: seq<Token>, es: seq<Edit>): seq<Warning> {
    if ts == [] then [] else AllTokenWarnings(ts[..|ts|-1], es) + TokenWarnings(ts[|ts|-1], es)
  }

  ghost function WarningsOf(unsupported: bool, calls: seq<Call>, ts: seq<Token>, es: seq<Edit>): seq<Warning> {
    (if unsupported then [UnsupportedImport] else []) + AllCallWarnings(calls) + AllTokenWarnings(ts, es)
  }

  ghost function TransformResult(source: string, unsupported: bool): Result<(string, seq<Warning>), TransformError> {
    if |source| > MAX_SOURCE then Err(TooLarge)
    else match CallsResult(source)
      case Err(x) => Err(BadCalls(x))
      case Ok(calls) =>
        var es := EditsOf(source, calls);
        EditsInside(source, calls);
        if !Disjoint(es) then Err(Overlapping)
        else Ok((Rewrite(source, es, 0), WarningsOf(unsupported, calls, Scan(source, 0).value, es)))
  }

  // ---------------------------------------------------------------- where the edits lie

  lemma {:induction false} CallEditFrom(calls: seq<Call>, e: Edit) returns (m: nat)
    requires e in CallEdits(calls)
    ensures m < |calls| && e in CallEdit(calls[m])
  {
    var last := |calls| - 1;
    if e in CallEdit(calls[last]) {
      m := last;
    } else {
      m := CallEditFrom(calls[..last], e);
    }
  }

  lemma EditsInside(source: string, calls: seq<Call>)
    requires CallsResult(source) == Ok(calls)
    ensures Inside(source, EditsOf(source, calls))
  {
    var ts := Scan(source, 0).value;
    CallsAreHeads(source, ts);
    ScanTokens(source, ts);
    forall e | e in EditsOf(source, calls) ensures e.start < e.end <= |source| {
      if e in CallEdits(calls) {
        CallEditInside(source, ts, Heads(ts, 0), calls, e);
      } else {
        ImportEditInside(source, e);
      }
    }
  }

  lemma ImportEditInside(source: string, e: Edit)
    requires e in ImportEdits(source, 0)
    ensures e.start < e.end <= |source| && IsImportEdit(source, e)
  {
    ImportEditIff(source, e);
  }

  lemma CallEditInside(source: string, ts: seq<Token>, hs: seq<nat>, calls: seq<Call>, e: Edit)
    requires TokensOf(source, ts) && AllCalls(source, ts, hs, calls) && e in CallEdits(calls)
    ensures e.start < e.end <= |source|
  {
    var m := CallEditFrom(calls, e);
    CallInside(source, ts, hs[m], calls[m]);
  }

  lemma CallInside(source: string, ts: seq<Token>, h: nat, c: Call)
    requires TokensOf(source, ts) && IsCallAt(source, ts, h, c)
    ensures c.start < c.open < c.end <= |source|
  {
    assert ts[h] in ts && ts[h+3] in ts;
  }

  // ---------------------------------------------------------------- the program

  function InsertDown(e: Edit, s: seq<Edit>): (r: seq<Edit>)
    ensures multiset(r) == multiset(s) + multiset{e}
  {
    if s == [] then [e]
    else if s[0].start <= e.start then [e] + s
    else
      assert s == [s[0]] + s[1..];
      [s[0]] + InsertDown(e, s[1..])
  }

  lemma {:induction false} InsertDownSorted(e: Edit, s: seq<Edit>)
    requires DescendingStarts(s)
    ensures DescendingStarts(InsertDown(e, s))
  {
    if s != [] && e.start < s[0].start {
      InsertDownSorted(e, s[1..]);
      var rest := InsertDown(e, s[1..]);
      forall k | 0 <= k < |rest| ensures rest[k].start <= s[0].start {
        assert rest[k] in multiset(s[1..]) + multiset{e};
        assert rest[k] == e || rest[k] in s[1..];
      }
    }
  }

  /** What the library sort promises: the same entries, by descending start. */
  function SortByStartDown(es: seq<Edit>): (sorted: seq<Edit>)
    ensures multiset(sorted) == multiset(es) && DescendingStarts(sorted)
  {
    if es == [] then []
    else
      assert es == [es[0]] + es[1..];
      InsertDownSorted(es[0], SortByStartDown(es[1..]));
      InsertDown(es[0], SortByStartDown(es[1..]))
  }

  method KeywordScan(args: seq<Token>) returns (ws: seq<Warning>)
    ensures ws == KeywordWarnings(args, 1)
  {
    ws := [];
    var i := 1;
    while i < |args|
      invariant 1 <= i
      invariant ws + KeywordWarnings(args, i) == KeywordWarnings(args, 1)
    {
      if args[i].text == "=" && args[i-1].text != "queue_size" {
        ws := ws + [KeywordOptions];
      }
      i := i + 1;
    }
    assert KeywordWarnings(args, i) == [];
  }

  /** One round of the loop over the calls. */
  method VisitCall(call: Call) returns (edits: seq<Edit>, warnings: seq<Warning>)
    ensures edits == CallEdit(call) && warnings == CallWarnings(call)
  {
    edits, warnings := [], [];
    var replacement := Helper(call.name);
    if replacement.Some? {
      edits := [Edit(call.start, call.open, replacement.value + "(")];
      if call.name == "init_node" && '=' in call.arguments {
        warnings := warnings + [InitOptions];
      }
      if call.name == "Publisher" || call.name == "Subscriber" {
        var args := Lex(call.arguments);
        var more := KeywordScan(if args.Ok? then args.value else []);
        warnings := warnings + more;
      }
      if call.name == "Timer" {
        warnings := warnings + [TimerEvent];
      }
      if call.name == "Service" {
        warnings := warnings + [ServiceAdaptation];
      }
      if call.name == "get_param" || call.name == "set_param" || call.name == "has_param" {
        warnings := warnings + [ParameterNames];
      }
      return;
    }
    if call.name == "is_shutdown" && BlankRunes(call.arguments) {
      edits := [Edit(call.start, call.end, SHUTDOWN_TEXT)];
      return;
    }
    var level := LogLevel(call.name);
    if level.Some? {
      edits := [Edit(call.start, call.open, "_rosplus_log('" + level.value + "', ")];
      assert LOG_HELPER + "('" == "_rosplus_log('";
      return;
    }
    warnings := [ManualCall(call.name)];
  }

  method VisitCalls(calls: seq<Call>) returns (edits: seq<Edit>, warnings: seq<Warning>)
    ensures edits == CallEdits(calls) && warnings == AllCallWarnings(calls)
  {
    edits, warnings := [], [];
    var i := 0;
    while i < |calls|
      invariant 0 <= i <= |calls|
      invariant edits == CallEdits(calls[..i]) && warnings == AllCallWarnings(calls[..i])
    {
      var es, ws := VisitCall(calls[i]);
      edits := edits + es;
      warnings := warnings + ws;
      assert calls[..i+1][..i] == calls[..i];
      i := i + 1;
    }
    assert calls[..i] == calls;
  }

  method IsCovered(t: Token, edits: seq<Edit>) returns (covered: bool)
    ensures covered == Covered(t, edits)
  {
    covered := false;
    var k := 0;
    while k < |edits|
      invariant 0 <= k <= |edits|
      invariant forall j :: 0 <= j < k ==> !(edits[j].start <= t.start && t.end <= edits[j].end)
    {
      if t.start >= edits[k].start && t.end <= edits[k].end {
        covered := true;
        break;
      }
      k := k + 1;
    }
  }

  method VisitTokens(ts: seq<Token>, edits: seq<Edit>) returns (warnings: seq<Warning>)
    ensures warnings == AllTokenWarnings(ts, edits)
  {
    warnings := [];
    var i := 0;
    while i < |ts|
      invariant 0 <= i <= |ts|
      invariant warnings == AllTokenWarnings(ts[..i], edits)
    {
      var t := ts[i];
      ghost var before := warnings;
      if t.kind == Name {
        if "_rosplus" <= t.text || t.text == "_rclpy" || t.text == "_RosPlusRate"
           || t.text == "_Node" || t.text == "_time" {
          warnings := warnings + [NamespaceConflict];
        }
        if t.text == "actionlib" || t.text == "tf" || t.text == "dynamic_reconfigure" {
          warnings := warnings + [Ros1Dependency(t.text)];
        }
        if t.text == "rospy" {
          var covered := IsCovered(t, edits);
          if !covered {
            warnings := warnings + [Unconverted];
          }
        }
      }
      assert warnings == before + TokenWarnings(t, edits);
      assert ts[..i+1][..i] == ts[..i];
      i := i + 1;
    }
    assert ts[..i] == ts;
  }

  /** Transform, up to the splice; `unsupported` is the verdict of the unsupported-import expression. */
  method Transform(source: string, unsupported: bool) returns (r: Result<(string, seq<Warning>), TransformError>)
    ensures r == TransformResult(source, unsupported)
  {
    if |source| > MAX_SOURCE {
      return Err(TooLarge);
    }
    var found := Calls(source);
    if found.Err? {
      return Err(BadCalls(found.error));
    }
    var calls := found.value;
    var warnings := if unsupported then [UnsupportedImport] else [];
    var callEdits, callWarnings := VisitCalls(calls);
    var edits := ImportEdits(source, 0) + callEdits;
    warnings := warnings + callWarnings;
    var lexed := Lex(source);
    var tokenWarnings := VisitTokens(lexed.value, edits);
    warnings := warnings + tokenWarnings;
    EditsInside(source, calls);
    var sorted := SortByStartDown(edits);
    var output := Splice(source, edits, sorted);
    if output.Err? {
      return Err(Overlapping);
    }
    r := Ok((output.value, warnings));
  }
}
