/**
 * When the overlap error is raised on sources with clean imports
 * (pkg/migration/migration.go:157-246): exactly when the `rospy` of an import line is the
 * head of an edited call, that is, when a call continues on the line after an import.
 */
module ImportMeetsCall {
  import opened Outcomes
  import opened Lexer
  import opened Grammar
  import opened CallFinder
  import opened Edits
  import opened Relexing
  import opened Imports
  import opened Replacements
  import opened Transformer
  import opened MigrationTheorems

  /** A matched line has the words after its blanks. */
  lemma {:induction false} WordsThere(s: string, i: nat)
    requires i <= |s| && ImportMatch(s, i).Some?
    ensures TextAt(s, SkipBlanks(s, i), IMPORT)
    decreases |s| - i
  {
    if i < |s| && IsBlank(s[i]) { WordsThere(s, i + 1); }
  }

  lemma ReadsImport(s: string, i: nat)
    requires TextAt(s, i, IMPORT)
    ensures i + 12 <= |s| && Reads(s, i, Word(6)) && s[i..i+6] == "import" && s[i] == 'i'
  {
    assert forall k :: i <= k < i + 7 ==> s[k] == IMPORT[k - i];
  }

  /** Its first word is a token, unless the line begins inside a literal. */
  lemma ImportToken(s: string, ts: seq<Token>, e: Edit) returns (t: Token)
    requires Scan(s, 0) == Some(ts) && IsImportEdit(s, e) && !InLiteralToken(ts, e.start)
    ensures t in ts && t.text == "import" && t.start == SkipBlanks(s, e.start) < |s| && s[t.start] == 'i'
  {
    var i := SkipBlanks(s, e.start);
    WordsThere(s, e.start);
    ReadsImport(s, i);
    ImportEditKnown(s, ts, e);
    BlanksCut(s, e.start);
    CutAppend(s, 0, e.start, i);
    t := WordToken(s, ts, i);
  }

  lemma WordToken(s: string, ts: seq<Token>, i: nat) returns (t: Token)
    requires Scan(s, 0) == Some(ts) && i < |s| && Cut(s, 0, i) && Reads(s, i, Word(6)) && i + 6 <= |s|
    ensures t in ts && t.start == i && t.text == s[i..i+6]
  {
    FirstIs(s, i, Word(6));
    var a, b := ScanSplit(s, 0, ts, i);
    hide Reads, Cut;
    var p, tail := ScanHead(s, i, b);
    t := Emit(s, i, p)[0];
    assert b[0] == t && t in b;
  }

  /** No token of an edited call's head is the word `import`. */
  lemma HeadHasNoImport(ts: seq<Token>, h: nat, c: Call, k: nat)
    requires Head(ts, h) && c.name == ts[h+2].text && CallEdit(c) != [] && h <= k <= h + 3
    ensures ts[k].text != "import"
  {
  }

  lemma ParenByte(source: string, ts: seq<Token>, k: nat, paren: string)
    requires TokensOf(source, ts) && k < |ts| && ts[k].text == paren && |paren| == 1
    ensures 0 < ts[k].end <= |source| && ts[k].end == ts[k].start + 1 && source[ts[k].end - 1] == paren[0]
  {
    assert ts[k] in ts;
    assert source[ts[k].start..ts[k].end][0] == paren[0];
  }

  /** The last byte of a call's edit is a parenthesis. */
  lemma EditEndsInParen(source: string, ts: seq<Token>, h: nat, c: Call, f: Edit)
    requires TokensOf(source, ts) && IsCallAt(source, ts, h, c) && f in CallEdit(c)
    ensures f.start == c.start == ts[h].start && 0 < f.end <= |source|
    ensures source[f.end-1] == '(' || source[f.end-1] == ')'
    ensures f.end == ts[h+3].end || (f.end == c.end == ts[Closing(ts, h).e].end && BlankRunes(c.arguments))
  {
    var close := Closing(ts, h).e;
    ParenByte(source, ts, h + 3, "(");
    CloseIsParen(ts, h, close);
    ParenByte(source, ts, close, ")");
  }

  /** The word `import` of a clean import line does not lie inside the span a call's edit replaces. */
  lemma ImportOutside(source: string, ts: seq<Token>, h: nat, c: Call, f: Edit, k: nat)
    requires TokensOf(source, ts) && IsCallAt(source, ts, h, c) && f in CallEdit(c)
    requires k < |ts| && ts[k].text == "import" && ts[k].start < |source| && source[ts[k].start] == 'i'
    ensures !(f.start <= ts[k].start < f.end)
  {
    EditEndsInParen(source, ts, h, c, f);
    assert ts[h] in ts && ts[h+3] in ts && ts[k] in ts;
    if f.start <= ts[k].start < f.end {
      if k <= h + 3 {
        if h <= k { HeadHasNoImport(ts, h, c, k); }
      } else {
        var close := Closing(ts, h).e;
        assert ts[close] in ts;
        CloseIsParen(ts, h, close);
        assert k < close;
        var j := ts[k].start - ts[h+3].end;
        assert c.arguments[j] == source[ts[k].start];
        BlankRunesByte(c.arguments, j);
      }
    }
  }

  /** An import line that begins outside literals does not begin inside the span of a call's edit. */
  lemma ImportStartsOutside(source: string, ts: seq<Token>, e: Edit, h: nat, c: Call, f: Edit)
    requires Scan(source, 0) == Some(ts) && TokensOf(source, ts) && IsImportEdit(source, e) && !InLiteralToken(ts, e.start)
    requires IsCallAt(source, ts, h, c) && f in CallEdit(c)
    ensures !(f.start < e.start < f.end)
  {
    var t := ImportToken(source, ts, e);
    var k: nat :| k < |ts| && ts[k] == t;
    ImportOutside(source, ts, h, c, f, k);
    EditEndsInParen(source, ts, h, c, f);
    assert e.start <= f.end - 1 < t.start ==> IsBlank(source[f.end-1]);
  }

  /** The head of an edited call lies in an import line. */
  predicate HeadInImport(e: Edit, c: Call) { CallEdit(c) != [] && e.start <= c.start < e.end }

  /**
   * With clean imports, the overlap error is raised exactly when the head of an edited call
   * lies in an import line.
   */
  lemma {:induction false} OverlapIffHeadInImport(source: string, unsupported: bool, ts: seq<Token>, calls: seq<Call>)
    requires |source| <= 2_097_152 && Scan(source, 0) == Some(ts) && CallsResult(source) == Ok(calls)
    requires CleanImports(source, ts)
    ensures TransformResult(source, unsupported) == Err(Overlapping) <==>
            exists e, c :: e in ImportEdits(source, 0) && c in calls && HeadInImport(e, c)
  {
    hide TransformResult, CleanImports, Scan;
    OverlapIffImportMeetsCall(source, unsupported, calls);
    if e, f :| e in ImportEdits(source, 0) && f in CallEdits(calls) && !Apart(e, f) {
      var c := MeetsAtHead(source, ts, calls, e, f);
    }
    if e, c :| e in ImportEdits(source, 0) && c in calls && HeadInImport(e, c) {
      var f := HeadMeets(source, calls, e, c);
    }
  }

  lemma MeetsAtHead(source: string, ts: seq<Token>, calls: seq<Call>, e: Edit, f: Edit) returns (c: Call)
    requires Scan(source, 0) == Some(ts) && CallsResult(source) == Ok(calls) && CleanImports(source, ts)
    requires e in ImportEdits(source, 0) && f in CallEdits(calls) && !Apart(e, f)
    ensures c in calls && HeadInImport(e, c)
  {
    hide CallsResult, ImportEdits, IsCallAt, Scan, HeadInImport, IsImportEdit, InLiteralToken, TokensOf;
    ScanTokens(source, ts);
    CallsAreHeads(source, ts);
    ImportEditIff(source, e);
    var m := CallEditFrom(calls, f);
    c := calls[m];
    MeetsHere(source, ts, Heads(ts, 0)[m], c, e, f);
  }

  lemma MeetsHere(source: string, ts: seq<Token>, h: nat, c: Call, e: Edit, f: Edit)
    requires Scan(source, 0) == Some(ts) && TokensOf(source, ts) && IsImportEdit(source, e) && !InLiteralToken(ts, e.start)
    requires IsCallAt(source, ts, h, c) && f in CallEdit(c) && !Apart(e, f)
    ensures HeadInImport(e, c)
  {
    hide Scan, IsCallAt, IsImportEdit, InLiteralToken, TokensOf;
    ImportStartsOutside(source, ts, e, h, c, f);
    EditEndsInParen(source, ts, h, c, f);
  }

  lemma HeadMeets(source: string, calls: seq<Call>, e: Edit, c: Call) returns (f: Edit)
    requires CallsResult(source) == Ok(calls) && e in ImportEdits(source, 0) && c in calls && HeadInImport(e, c)
    ensures f in CallEdits(calls) && !Apart(e, f)
  {
    f := CallEdit(c)[0];
    EditListed(calls, c, f);
    EditsInside(source, calls);
    InConcat(ImportEdits(source, 0), CallEdits(calls), f);
  }

  lemma {:induction false} EditListed(calls: seq<Call>, c: Call, f: Edit)
    requires c in calls && f in CallEdit(c)
    ensures f in CallEdits(calls)
    decreases |calls|
  {
    var last := |calls| - 1;
    InConcat(CallEdits(calls[..last]), CallEdit(calls[last]), f);
    if c in calls[..last] {
      EditListed(calls[..last], c, f);
    } else {
      assert calls == calls[..last] + [calls[last]];
    }
  }
}
