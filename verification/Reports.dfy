/**
 * What each warning of the pass means (pkg/migration/migration.go:158-236): it is raised
 * exactly when the source has a call or a name of the kind it speaks of.
 */
module Reports {
  import opened Outcomes
  import opened Lexer
  import opened Grammar
  import opened CallFinder
  import opened Edits
  import opened Imports
  import opened Replacements
  import opened Transformer
  import opened Conversions

  /** Some keyword argument other than queue_size is given: an `=` mark after another token. */
  ghost predicate OtherKeyword(arguments: string) {
    exists args: seq<Token>, i: nat :: 0 < i < |args| && Scan(arguments, 0) == Some(args)
      && args[i].text == "=" && args[i-1].text != "queue_size"
  }

  predicate IsLog(f: string) { f == "loginfo" || f == "logwarn" || f == "logerr" || f == "logdebug" }

  lemma LastOf<T>(s: seq<T>)
    requires s != []
    ensures forall x :: x in s <==> x in s[..|s|-1] || x == s[|s|-1]
  {
    assert s == s[..|s|-1] + [s[|s|-1]];
  }

  // ---------------------------------------------------------------- one call

  lemma {:induction false} KeywordIff(args: seq<Token>, i: nat, w: Warning)
    requires 1 <= i
    ensures w in KeywordWarnings(args, i) <==>
      w == KeywordOptions && exists k: nat :: i <= k < |args| && args[k].text == "=" && args[k-1].text != "queue_size"
    decreases |args| - i
  {
    if i < |args| { KeywordIff(args, i + 1, w); }
  }

  lemma KeywordsOf(c: Call)
    ensures KeywordOptions in KeywordWarnings(ArgumentTokens(c), 1) <==> OtherKeyword(c.arguments)
    ensures forall w :: w in KeywordWarnings(ArgumentTokens(c), 1) ==> w == KeywordOptions
  {
    var args := ArgumentTokens(c);
    forall w ensures w in KeywordWarnings(args, 1) <==>
      w == KeywordOptions && exists k: nat :: 1 <= k < |args| && args[k].text == "=" && args[k-1].text != "queue_size"
    {
      KeywordIff(args, 1, w);
    }
  }

  /** The warnings of one call, by its name. */
  ghost predicate CallMeans(c: Call, w: Warning) {
    match w
    case InitOptions => c.name == "init_node" && '=' in c.arguments
    case KeywordOptions => (c.name == "Publisher" || c.name == "Subscriber") && OtherKeyword(c.arguments)
    case TimerEvent => c.name == "Timer"
    case ServiceAdaptation => c.name == "Service"
    case ParameterNames => c.name == "get_param" || c.name == "set_param" || c.name == "has_param"
    case ManualCall(f) =>
      f == c.name && !HasHelper(f) && !IsLog(f) && !(f == "is_shutdown" && BlankRunes(c.arguments))
    case _ => false
  }

  lemma CallWarns(c: Call, w: Warning)
    ensures w in CallWarnings(c) <==> CallMeans(c, w)
  {
    KeywordsOf(c);
    HelperIs(c.name);
    LevelIs(c.name);
    hide Helper, LogLevel, KeywordWarnings, NewName, OtherKeyword, BlankRunes;
  }

  lemma {:induction false} CallsWarn(calls: seq<Call>, w: Warning)
    ensures w in AllCallWarnings(calls) <==> exists c :: c in calls && CallMeans(c, w)
  {
    if calls != [] {
      var last := |calls| - 1;
      CallsWarn(calls[..last], w);
      CallWarns(calls[last], w);
      hide CallMeans, CallWarnings;
      LastOf(calls);
    }
  }

  // ---------------------------------------------------------------- one token

  predicate TokenMeans(t: Token, es: seq<Edit>, w: Warning) {
    t.kind == Name &&
    match w
    case NamespaceConflict =>
      "_rosplus" <= t.text || t.text == "_rclpy" || t.text == "_RosPlusRate" || t.text == "_Node" || t.text == "_time"
    case Ros1Dependency(name) => t.text == name && (name == "actionlib" || name == "tf" || name == "dynamic_reconfigure")
    case Unconverted => t.text == "rospy" && forall e :: e in es ==> !(e.start <= t.start && t.end <= e.end)
    case _ => false
  }

  lemma TokenWarns(t: Token, es: seq<Edit>, w: Warning)
    ensures w in TokenWarnings(t, es) <==> TokenMeans(t, es, w)
  {
  }

  lemma {:induction false} TokensWarn(ts: seq<Token>, es: seq<Edit>, w: Warning)
    ensures w in AllTokenWarnings(ts, es) <==> exists t :: t in ts && TokenMeans(t, es, w)
  {
    if ts != [] {
      var last := |ts| - 1;
      TokensWarn(ts[..last], es, w);
      TokenWarns(ts[last], es, w);
      hide TokenMeans, TokenWarnings;
      LastOf(ts);
    }
  }

  // ---------------------------------------------------------------- the whole list

  /** Exactly which warnings a conversion comes with. */
  lemma WarnedIff(source: string, unsupported: bool, ts: seq<Token>, calls: seq<Call>, output: string, ws: seq<Warning>, w: Warning)
    requires Scan(source, 0) == Some(ts) && CallsResult(source) == Ok(calls)
    requires TransformResult(source, unsupported) == Ok((output, ws))
    ensures w in ws <==>
      || (w == UnsupportedImport && unsupported)
      || (exists c :: c in calls && CallMeans(c, w))
      || (exists t :: t in ts && TokenMeans(t, EditsOf(source, calls), w))
  {
    CallsWarn(calls, w);
    TokensWarn(ts, EditsOf(source, calls), w);
    hide CallMeans, TokenMeans, AllCallWarnings, AllTokenWarnings, EditsOf;
  }
}
