/**
 * What a converted program calls (pkg/migration/migration.go:164-212): the name that stands
 * in for each rospy function, built from the function's own name, in the place of its head.
 */
module Conversions {
  import opened Outcomes
  import opened Lexer
  import opened Grammar
  import opened CallFinder
  import opened Edits
  import opened Relexing
  import opened Imports
  import opened Replacements
  import opened Transformer
  import opened MigrationTheorems
  import opened ImportMeetsCall

  // ---------------------------------------------------------------- names

  /** The functions that have a helper. */
  predicate HasHelper(f: string) {
    || f == "init_node" || f == "Publisher" || f == "Subscriber" || f == "Rate" || f == "Duration" || f == "Timer"
    || f == "Service" || f == "get_param" || f == "set_param" || f == "has_param" || f == "sleep" || f == "spin"
  }

  function Lower(c: char): char { if 'A' <= c <= 'Z' then (c as int + 32) as char else c }

  function LowerAll(s: string): (r: string)
    ensures |r| == |s| && forall k :: 0 <= k < |s| ==> r[k] == Lower(s[k])
  {
    seq(|s|, k requires 0 <= k < |s| => Lower(s[k]))
  }

  /** The helper's name: the function's name in lower case behind a prefix; Rate and Duration are classes and keep theirs. */
  function NewName(f: string): string {
    if f == "Rate" || f == "Duration" then "_RosPlus" + f
    else if f == "init_node" then "_rosplus_init"
    else "_rosplus_" + LowerAll(f)
  }

  lemma LowIs(f: string, low: string)
    requires |f| == |low| && forall k :: 0 <= k < |f| ==> low[k] == Lower(f[k])
    ensures LowerAll(f) == low
  {
  }

  lemma LowNames()
    ensures LowerAll("Publisher") == "publisher" && LowerAll("Subscriber") == "subscriber" && LowerAll("Timer") == "timer"
    ensures LowerAll("Service") == "service"
  {
    LowIs("Publisher", "publisher");
    LowIs("Subscriber", "subscriber");
    LowIs("Timer", "timer");
    LowIs("Service", "service");
  }

  lemma LowerNames()
    ensures LowerAll("get_param") == "get_param" && LowerAll("set_param") == "set_param"
    ensures LowerAll("has_param") == "has_param" && LowerAll("sleep") == "sleep" && LowerAll("spin") == "spin"
  {
    LowIs("get_param", "get_param");
    LowIs("set_param", "set_param");
    LowIs("has_param", "has_param");
    LowIs("sleep", "sleep");
    LowIs("spin", "spin");
  }

  lemma Prefixed()
    ensures "_rosplus_" + "publisher" == "_rosplus_publisher" && "_rosplus_" + "subscriber" == "_rosplus_subscriber"
    ensures "_rosplus_" + "timer" == "_rosplus_timer" && "_rosplus_" + "service" == "_rosplus_service"
    ensures "_rosplus_" + "get_param" == "_rosplus_get_param" && "_rosplus_" + "set_param" == "_rosplus_set_param"
    ensures "_rosplus_" + "has_param" == "_rosplus_has_param" && "_rosplus_" + "sleep" == "_rosplus_sleep"
    ensures "_rosplus_" + "spin" == "_rosplus_spin"
    ensures "_RosPlus" + "Rate" == "_RosPlusRate" && "_RosPlus" + "Duration" == "_RosPlusDuration"
  {
  }

  /** The table maps exactly these functions, each to the name built from its own. */
  lemma HelperIs(f: string)
    ensures Helper(f) == if HasHelper(f) then Some(NewName(f)) else None
  {
    LowNames();
    LowerNames();
    Prefixed();
  }

  predicate IsClass(f: string) { f == "Rate" || f == "Duration" }

  lemma SecondLetter(f: string)
    ensures |NewName(f)| > 8 && NewName(f)[1] == if IsClass(f) then 'R' else 'r'
  {
  }

  /** Different functions get different helpers. */
  lemma HelpersDiffer(f: string, g: string)
    requires HasHelper(f) && HasHelper(g) && NewName(f) == NewName(g)
    ensures f == g
  {
    SecondLetter(f);
    SecondLetter(g);
    if IsClass(f) {
      assert NewName(f)[8..] == f && NewName(g)[8..] == g;
    } else {
      Tail9(f);
      Tail9(g);
      LowNames();
      LowerNames();
    }
  }

  lemma Tail9(f: string)
    requires !IsClass(f)
    ensures |NewName(f)| >= 9 && NewName(f)[9..] == if f == "init_node" then "init" else LowerAll(f)
  {
  }

  /** The severities. */
  lemma LevelIs(f: string)
    ensures LogLevel("loginfo") == Some("info") && LogLevel("logwarn") == Some("warning")
    ensures LogLevel("logerr") == Some("error") && LogLevel("logdebug") == Some("debug")
    ensures LogLevel(f).Some? <==> f == "loginfo" || f == "logwarn" || f == "logerr" || f == "logdebug"
  {
  }

  // ---------------------------------------------------------------- the head in the output

  /** Tokens h..m-1 are what the edit replaces. */
  predicate Group(ts: seq<Token>, h: nat, m: nat, e: Edit) {
    && h < m <= |ts| && ts[h].start == e.start
    && (forall k :: h <= k < m ==> e.start <= ts[k].start < ts[k].end <= e.end)
    && (forall k :: h < k < m ==> ts[k].start != e.start)
  }

  lemma GroupBecomes(ts: seq<Token>, es: seq<Edit>, h: nat, m: nat, e: Edit)
    requires Disjoint(es) && e in es && Group(ts, h, m, e)
    ensures Replaced(ts, es) == Replaced(ts[..h], es) + TextLexemes(e.text) + Replaced(ts[m..], es)
  {
    assert h <= m <= |ts|;
    hide Replaced, Group, Disjoint, TextLexemes;
    GroupGives(ts, es, h, m, e);
    SplitAt(ts, h, m);
    ThreeGroups(ts[..h], ts[h..m], ts[m..], es);
  }

  lemma GroupGives(ts: seq<Token>, es: seq<Edit>, h: nat, m: nat, e: Edit)
    requires Disjoint(es) && e in es && Group(ts, h, m, e)
    ensures Replaced(ts[h..m], es) == TextLexemes(e.text)
  {
    GroupWithin(ts, h, m, e);
    hide Replaced, Group, Disjoint, Within, TextLexemes;
    GroupContribution(ts[h..m], es, e);
  }

  lemma SplitAt(ts: seq<Token>, h: nat, m: nat)
    requires h <= m <= |ts|
    ensures ts == ts[..h] + (ts[h..m] + ts[m..])
  {
  }

  lemma ThreeGroups(a: seq<Token>, b: seq<Token>, c: seq<Token>, es: seq<Edit>)
    ensures Replaced(a + (b + c), es) == Replaced(a, es) + Replaced(b, es) + Replaced(c, es)
  {
    hide Replaced;
    ReplacedConcat(a, b + c, es);
    ReplacedConcat(b, c, es);
  }

  lemma GroupWithin(ts: seq<Token>, h: nat, m: nat, e: Edit)
    requires Group(ts, h, m, e)
    ensures var b := ts[h..m];
      Within(b, e.start, e.end) && b != [] && b[0].start == e.start && forall t :: t in b[1..] ==> t.start != e.start
  {
  }

  lemma HeadGroup(source: string, ts: seq<Token>, h: nat, c: Call, e: Edit)
    requires TokensOf(source, ts) && IsCallAt(source, ts, h, c) && e.start == c.start && e.end == c.open
    ensures Group(ts, h, h + 4, e)
  {
    assert ts[h] in ts && ts[h+1] in ts && ts[h+2] in ts && ts[h+3] in ts;
  }

  lemma CallGroup(source: string, ts: seq<Token>, h: nat, c: Call, e: Edit)
    requires TokensOf(source, ts) && IsCallAt(source, ts, h, c) && e.start == c.start && e.end == c.end
    ensures Group(ts, h, Closing(ts, h).e + 1, e)
  {
    var close := Closing(ts, h).e;
    forall k | h <= k <= close ensures e.start <= ts[k].start < ts[k].end <= e.end && (h < k ==> ts[k].start != e.start) {
      assert ts[h] in ts && ts[k] in ts && ts[close] in ts;
    }
  }

  lemma CallThere(source: string, ts: seq<Token>, calls: seq<Call>, h: nat) returns (c: Call)
    requires Scan(source, 0) == Some(ts) && CallsResult(source) == Ok(calls) && Head(ts, h)
    ensures c in calls && IsCallAt(source, ts, h, c) && TokensOf(source, ts)
  {
    ScanTokens(source, ts);
    CallsAreHeads(source, ts);
    assert h in Heads(ts, 0);
    var m :| 0 <= m < |calls| && Heads(ts, 0)[m] == h;
    c := calls[m];
  }

  /** The output with the group of one edit singled out. */
  lemma OutputAround(source: string, unsupported: bool, ts: seq<Token>, calls: seq<Call>, output: string, ws: seq<Warning>,
                     h: nat, m: nat, c: Call, e: Edit)
    requires Scan(source, 0) == Some(ts) && CleanImports(source, ts) && CallsResult(source) == Ok(calls)
    requires TransformResult(source, unsupported) == Ok((output, ws))
    requires c in calls && e in CallEdit(c) && Group(ts, h, m, e)
    ensures var es := EditsOf(source, calls);
      Lexemes(output, 0) == Some(Replaced(ts[..h], es) + TextLexemes(e.text) + Replaced(ts[m..], es))
  {
    hide Group, CleanImports;
    OutputLexesIffClean(source, unsupported, ts, output, ws);
    EditListed(calls, c, e);
    InConcat(ImportEdits(source, 0), CallEdits(calls), e);
    GroupBecomes(ts, EditsOf(source, calls), h, m, e);
  }

  /**
   * The head of a call of a mapped function becomes the function's new name and a
   * parenthesis; everything before and after it is converted on its own.
   */
  lemma HelperHead(source: string, unsupported: bool, ts: seq<Token>, calls: seq<Call>, output: string, ws: seq<Warning>, h: nat)
    requires Scan(source, 0) == Some(ts) && CleanImports(source, ts) && CallsResult(source) == Ok(calls)
    requires TransformResult(source, unsupported) == Ok((output, ws))
    requires Head(ts, h) && HasHelper(ts[h+2].text)
    ensures var es := EditsOf(source, calls);
      Lexemes(output, 0) == Some(
        Replaced(ts[..h], es) + [Lexeme(Name, NewName(ts[h+2].text)), Lexeme(Mark, "(")] + Replaced(ts[h+4..], es))
  {
    var c := CallThere(source, ts, calls, h);
    var f := c.name;
    HelperIs(f);
    HelperIsName(f);
    var e := Edit(c.start, c.open, HelperText(NewName(f)));
    assert CallEdit(c) == [e];
    HeadGroup(source, ts, h, c, e);
    HelperLexes(NewName(f));
    OutputAround(source, unsupported, ts, calls, output, ws, h, h + 4, c, e);
  }

  lemma CallName(source: string, ts: seq<Token>, h: nat, c: Call)
    requires IsCallAt(source, ts, h, c)
    ensures Head(ts, h) && c.name == ts[h+2].text
  {
  }

  lemma LogEdit(c: Call, level: string, e: Edit)
    requires (c.name == "loginfo" && level == "info") || (c.name == "logwarn" && level == "warning")
          || (c.name == "logerr" && level == "error") || (c.name == "logdebug" && level == "debug")
    requires e == Edit(c.start, c.open, LogText(level))
    ensures CallEdit(c) == [e] && IsLower(level)
  {
    HelperIs(c.name);
    LevelIs(c.name);
    LogLevelIsLower(c.name);
  }

  /** The head of a log call becomes the log helper with the severity as its first argument. */
  lemma LogHead(source: string, unsupported: bool, ts: seq<Token>, calls: seq<Call>, output: string, ws: seq<Warning>, h: nat,
                level: string)
    requires Scan(source, 0) == Some(ts) && CleanImports(source, ts) && CallsResult(source) == Ok(calls)
    requires TransformResult(source, unsupported) == Ok((output, ws)) && Head(ts, h)
    requires (ts[h+2].text == "loginfo" && level == "info") || (ts[h+2].text == "logwarn" && level == "warning")
          || (ts[h+2].text == "logerr" && level == "error") || (ts[h+2].text == "logdebug" && level == "debug")
    ensures var es := EditsOf(source, calls);
      Lexemes(output, 0) == Some(
        Replaced(ts[..h], es)
        + [Lexeme(Name, "_rosplus_log"), Lexeme(Mark, "("), Lexeme(Literal, "'" + level + "'"), Lexeme(Mark, ",")]
        + Replaced(ts[h+4..], es))
  {
    hide Replaced, EditsOf, TransformResult, CleanImports, CallsResult, Scan, Lexemes, IsCallAt, Group, LogText, Head;
    var c := CallThere(source, ts, calls, h);
    CallName(source, ts, h, c);
    var e := Edit(c.start, c.open, LogText(level));
    LogEdit(c, level, e);
    HeadGroup(source, ts, h, c, e);
    LogLexes(level);
    OutputAround(source, unsupported, ts, calls, output, ws, h, h + 4, c, e);
  }

  /** A shutdown test without arguments becomes `(not _rclpy.ok())` as a whole. */
  lemma ShutdownCall(source: string, unsupported: bool, ts: seq<Token>, calls: seq<Call>, output: string, ws: seq<Warning>, h: nat)
    requires Scan(source, 0) == Some(ts) && CleanImports(source, ts) && CallsResult(source) == Ok(calls)
    requires TransformResult(source, unsupported) == Ok((output, ws))
    requires h + 4 < |ts| && Head(ts, h) && ts[h+2].text == "is_shutdown" && ts[h+4].text == ")"
    requires ts[h+3].end <= ts[h+4].start <= |source| && BlankRunes(source[ts[h+3].end..ts[h+4].start])
    ensures var es := EditsOf(source, calls);
      Lexemes(output, 0) == Some(
        Replaced(ts[..h], es)
        + [Lexeme(Mark, "("), Lexeme(Name, "not"), Lexeme(Name, "_rclpy"), Lexeme(Mark, "."), Lexeme(Name, "ok"),
           Lexeme(Mark, "("), Lexeme(Mark, ")"), Lexeme(Mark, ")")]
        + Replaced(ts[h+5..], es))
  {
    hide Replaced, EditsOf, TransformResult, CleanImports, CallsResult, Scan, Lexemes, Group, BlankRunes;
    var c := CallThere(source, ts, calls, h);
    FlatCallCloses(source, ts, h, h + 4);
    HelperIs(c.name);
    var e := Edit(c.start, c.end, SHUTDOWN_TEXT);
    assert CallEdit(c) == [e];
    hide Head, IsCallAt;
    CallGroup(source, ts, h, c, e);
    ShutdownLexes();
    OutputAround(source, unsupported, ts, calls, output, ws, h, h + 5, c, e);
  }
}
