/**
 * Why the theorems about the output ask for clean imports: a quoted text with an import line
 * whose comment holds the closing quotes (pkg/migration/migration.go:43 and 161-163). The
 * edit takes the quotes with it, and what was text becomes code.
 */
module QuotedCode {
  import opened Outcomes
  import opened Lexer
  import opened Grammar
  import opened CallFinder
  import opened Edits
  import opened Relexing
  import opened Imports
  import opened Replacements
  import opened Transformer
  import opened MigrationTheorems

  const QUOTES := "\'\'\'"

  const OPENING := "\'\'\'\n"

  const IMPORT_LINE := "import rospy # \'\'\'\n"

  const CODE_LINE := "rospy.spin()\n"

  const LAST_LINE := "\'\'\' # \'\'\'\n"

  /** Two string literals and a comment. */
  const TWO_TEXTS := OPENING + IMPORT_LINE + OPENING + CODE_LINE + LAST_LINE

  /** What the pass makes of it: the same with the import line replaced. */
  const AS_CODE := OPENING + IMPORT_NOTE + OPENING + CODE_LINE + LAST_LINE

  // ---------------------------------------------------------------- what the texts lex to

  predicate Plain(inner: string) { forall k :: 0 <= k < |inner| ==> !IsQuote(inner[k]) && inner[k] != '\\' }

  lemma ReadsTriple(s: string, i: nat, inner: string)
    requires i + |inner| + 6 <= |s| && s[i..i + |inner| + 6] == QUOTES + inner + QUOTES && Plain(inner)
    ensures Reads(s, i, Quoted(|inner| + 6))
  {
    var m := |inner|;
    var q := QUOTES + inner + QUOTES;
    var u := s[i..i + m + 6];
    assert forall k {:trigger u[k]} :: 0 <= k < m + 6 ==> u[k] == s[i + k];
    assert q[0] == q[1] == q[2] == q[m + 3] == q[m + 4] == q[m + 5] == '\'';
    assert forall k :: 3 <= k < m + 3 ==> q[k] == inner[k - 3];
    assert s[i] == q[0] && s[i + 1] == q[1] && s[i + 2] == q[2];
    assert s[i + m + 3] == q[m + 3] && s[i + m + 4] == q[m + 4] && s[i + m + 5] == q[m + 5];
    assert DelimAt(s, i + m + 3, '\'', 3);
    assert m > 0 ==> s[i + m + 2] == q[m + 2] == inner[m - 1];
    assert ClosesAt(s, i, i + m + 3);
    forall k | 0 <= k < i + m + 3 ensures !ClosesAt(s, i, k) {
      if i + 3 <= k { assert s[k] == q[k - i] == inner[k - i - 3]; }
    }
  }

  /** A triple-quoted literal and the blank after it. */
  lemma TripleBlank(inner: string, blank: string, text: string)
    requires Plain(inner) && |blank| == 1 && IsSpace(blank[0]) && text == Triple(inner) + blank
    ensures Becomes(text, [Quote(inner)])
  {
    var n := |inner| + 6;
    var own := [Quote(inner)];
    assert text[0..n] == Triple(inner);
    ReadsTriple(text, 0, inner);
    LastBlank(text);
    LiteralLexeme(text, 0, n);
    PieceBefore(text, 0, Quoted(n), own, [], own);
    TailCloses(text, own);
  }

  lemma CommentLine(t: string)
    requires |t| >= 2 && t[0] == '#' && t[|t|-1] == '\n' && forall k :: 0 <= k < |t| - 1 ==> t[k] != '\n'
    ensures Becomes(t, [])
  {
    LastBlank(t);
    PieceBefore(t, 0, Comment(|t| - 1), [], [], []);
    TailCloses(t, []);
  }

  lemma Code(t: string)
    requires t == "rospy" + "." + ("spin" + "(") + ")" + "\n"
    ensures Becomes(t, TheCall())
  {
    var rospy, dot, spin := Lexeme(Name, "rospy"), Lexeme(Mark, "."), Lexeme(Name, "spin");
    var open, close := Lexeme(Mark, "("), Lexeme(Mark, ")");
    WordMark("rospy", ".");
    WordMark("spin", "(");
    MarkText(")");
    BlankText("\n");
    Joined("rospy" + ".", [rospy, dot], "spin" + "(", [spin, open], "rospy" + "." + ("spin" + "("), [rospy, dot, spin, open]);
    Joined("rospy" + "." + ("spin" + "("), [rospy, dot, spin, open], ")", [close],
           "rospy" + "." + ("spin" + "(") + ")", [rospy, dot, spin, open, close]);
    Joined("rospy" + "." + ("spin" + "(") + ")", [rospy, dot, spin, open, close], "\n", [], t, [rospy, dot, spin, open, close]);
  }

  lemma SelfLexed(t: string, ls: seq<Lexeme>)
    requires Becomes(t, ls)
    ensures Lexemes(t, 0) == Some(ls)
  {
    TextLexed(t, t, 0);
    assert Scan(t, |t|) == Some([]) && ls + [] == ls;
  }

  // ---------------------------------------------------------------- the source

  const FIRST_TEXT := "\nimport rospy # "

  const SECOND_TEXT := "\nrospy.spin()\n"

  const THIRD_TEXT := " # "

  function Triple(inner: string): string { QUOTES + inner + QUOTES }

  function Quote(inner: string): Lexeme { Lexeme(Literal, Triple(inner)) }

  function TheCall(): seq<Lexeme> {
    [Lexeme(Name, "rospy"), Lexeme(Mark, "."), Lexeme(Name, "spin"), Lexeme(Mark, "("), Lexeme(Mark, ")")]
  }

  lemma ThreeParts(a: string, la: seq<Lexeme>, b: string, lb: seq<Lexeme>, c: string, lc: seq<Lexeme>)
    requires Becomes(a, la) && Becomes(b, lb) && Becomes(c, lc)
    ensures Lexemes(a + b + c, 0) == Some(la + lb + lc)
  {
    hide Becomes;
    Joined(a, la, b, lb, a + b, la + lb);
    Joined(a + b, la + lb, c, lc, a + b + c, la + lb + lc);
    SelfLexed(a + b + c, la + lb + lc);
  }

  lemma PlainTexts()
    ensures Plain(FIRST_TEXT) && Plain(SECOND_TEXT) && Plain(THIRD_TEXT) && Plain("\n" + IMPORT_NOTE)
  {
  }

  lemma SourceParts()
    ensures TWO_TEXTS == Triple(FIRST_TEXT) + "\n" + (Triple(SECOND_TEXT) + " ") + "# \'\'\'\n"
  {
  }

  lemma OutputParts()
    ensures AS_CODE == Triple("\n" + IMPORT_NOTE) + "\n" + CODE_LINE + (Triple(THIRD_TEXT) + "\n")
  {
  }

  lemma CodeParts()
    ensures CODE_LINE == "rospy" + "." + ("spin" + "(") + ")" + "\n"
  {
  }

  /** The source lexes to two literals. */
  lemma SourceLexed()
    ensures Lexemes(TWO_TEXTS, 0) == Some([Quote(FIRST_TEXT)] + [Quote(SECOND_TEXT)] + [])
  {
    hide Becomes, Plain, Lexemes, Triple;
    PlainTexts();
    TripleBlank(FIRST_TEXT, "\n", Triple(FIRST_TEXT) + "\n");
    TripleBlank(SECOND_TEXT, " ", Triple(SECOND_TEXT) + " ");
    CommentLine("# \'\'\'\n");
    ThreeParts(Triple(FIRST_TEXT) + "\n", [Quote(FIRST_TEXT)], Triple(SECOND_TEXT) + " ", [Quote(SECOND_TEXT)], "# \'\'\'\n", []);
    SourceParts();
  }

  /** The output lexes to a literal, the call, and a literal. */
  lemma OutputLexed()
    ensures Lexemes(AS_CODE, 0) == Some([Quote("\n" + IMPORT_NOTE)] + TheCall() + [Quote(THIRD_TEXT)])
  {
    hide Becomes, Plain, Lexemes, Triple, TheCall;
    var note := "\n" + IMPORT_NOTE;
    PlainTexts();
    TripleBlank(note, "\n", Triple(note) + "\n");
    TripleBlank(THIRD_TEXT, "\n", Triple(THIRD_TEXT) + "\n");
    CodeParts();
    Code(CODE_LINE);
    ThreeParts(Triple(note) + "\n", [Quote(note)], CODE_LINE, TheCall(), Triple(THIRD_TEXT) + "\n", [Quote(THIRD_TEXT)]);
    OutputParts();
  }

  // ---------------------------------------------------------------- the edit

  /** The line from i to its break at `end` matches nothing. */
  lemma OtherLine(s: string, i: nat, end: nat)
    requires i < end < |s| && s[end] == '\n' && (forall k :: i <= k < end ==> s[k] != '\n')
    requires s[i] != 'i' && !IsBlank(s[i])
    ensures ImportEdits(s, i) == ImportEdits(s, end + 1)
  {
    LineEndIs(s, i, end);
    assert !TextAt(s, i, IMPORT) by { assert IMPORT[0] == 'i'; }
  }

  lemma CommentTail(s: string, k: nat, end: nat)
    requires k + 1 < end < |s| && s[k] == ' ' && s[k + 1] == '#' && s[end] == '\n'
    requires forall x :: k + 1 <= x < end ==> s[x] != '\n'
    ensures TailMatch(s, k) == Some(end + 1)
  {
    LineEndIs(s, k + 1, end);
    assert SkipBlanks(s, k) == k + 1;
  }

  /** The import line. */
  lemma MatchedLine(s: string, i: nat, end: nat)
    requires i + 13 < end < |s| && s[end] == '\n' && (forall k :: i <= k < end ==> s[k] != '\n')
    requires TextAt(s, i, IMPORT) && s[i + 12] == ' ' && s[i + 13] == '#'
    ensures ImportEdits(s, i) == [Edit(i, end + 1, IMPORT_NOTE)] + ImportEdits(s, end + 1)
  {
    assert s[i] == IMPORT[0] == 'i';
    LineEndIs(s, i, end);
    CommentTail(s, i + 12, end);
    hide TailMatch, LineEnd;
  }

  /** The lines of the source. */
  predicate Lines(s: string) {
    && |s| == 50 && s[3] == s[22] == s[26] == s[39] == s[49] == '\n'
    && (forall k :: 0 <= k < 3 ==> s[k] != '\n') && (forall k :: 4 <= k < 22 ==> s[k] != '\n')
    && (forall k :: 23 <= k < 26 ==> s[k] != '\n') && (forall k :: 27 <= k < 39 ==> s[k] != '\n')
    && (forall k :: 40 <= k < 49 ==> s[k] != '\n')
    && s[0] == s[23] == s[40] == '\'' && s[27] == 'r' && s[16] == ' ' && s[17] == '#'
  }

  lemma SourceLines(s: string)
    requires s == TWO_TEXTS
    ensures Lines(s)
  {
  }

  lemma SourceHalves(s: string)
    requires s == TWO_TEXTS
    ensures |s| == 50 && s[..4] == OPENING && s[23..] == OPENING + CODE_LINE + LAST_LINE && TextAt(s, 4, IMPORT)
  {
  }

  lemma OneEdit(s: string)
    requires Lines(s) && TextAt(s, 4, IMPORT)
    ensures ImportEdits(s, 0) == [Edit(4, 23, IMPORT_NOTE)]
  {
    hide TextAt, LineEdit, LaterEdits;
    OtherLine(s, 0, 3);
    MatchedLine(s, 4, 22);
    OtherLine(s, 23, 26);
    OtherLine(s, 27, 39);
    OtherLine(s, 40, 49);
  }

  lemma OneRewrite(s: string, e: Edit)
    requires e.start < e.end <= |s|
    ensures Inside(s, [e]) && Disjoint([e]) && Rewrite(s, [e], 0) == s[..e.start] + e.text + s[e.end..]
  {
    Lone(s, e);
    CopyRun(s, [e], 0, e.start);
    AfterLone(s, e);
  }

  lemma Lone(s: string, e: Edit)
    requires e.start < e.end <= |s|
    ensures Inside(s, [e]) && Disjoint([e]) && NoStartIn([e], 0, e.start) && NoStartIn([e], e.end, |s|)
  {
  }

  lemma AfterLone(s: string, e: Edit)
    requires e.start < e.end <= |s| && Inside(s, [e]) && NoStartIn([e], e.end, |s|)
    ensures Rewrite(s, [e], e.start) == e.text + s[e.end..]
  {
    CopyRun(s, [e], e.end, |s|);
    assert EditAt([e], e.start) == Some(e) && EditAt([e], |s|).None?;
  }

  // ---------------------------------------------------------------- the result

  /**
   * The pass converts the text without any warning, and its output has a rospy call that the
   * source does not have: neither RospyLeftIffReported nor NothingLeftToConvert holds without
   * clean imports.
   */
  lemma TextBecomesCode()
    ensures TransformResult(TWO_TEXTS, false) == Ok((AS_CODE, []))
    ensures CallsResult(TWO_TEXTS) == Ok([]) && CallsResult(AS_CODE) != Ok([])
    ensures Lexemes(AS_CODE, 0).Some? && HasRospy(Lexemes(AS_CODE, 0).value)
    ensures Scan(TWO_TEXTS, 0).Some? && !CleanImports(TWO_TEXTS, Scan(TWO_TEXTS, 0).value)
  {
    hide Lexemes, Scan, Triple, TheCall, CleanImports, HasRospy;
    var s, e := TWO_TEXTS, Edit(4, 23, IMPORT_NOTE);
    SourceLexed();
    SourceLines(s);
    SourceHalves(s);
    OneEdit(s);
    var ts := ScannedTo(s);
    assert Erase(ts)[0] == Quote(FIRST_TEXT) && Erase(ts)[1] == Quote(SECOND_TEXT);
    TwoLiterals(s, ts, [e]);
    OneRewrite(s, e);
    assert EditsOf(s, []) == [e] && e in [e];
    AsCode(s);
    OutputLexed();
    var out := ScannedTo(AS_CODE);
    CallTokens(out);
    LiveCall(AS_CODE, out);
    FirstText(s);
    FirstTextCut(s, ts, 22, e);
  }

  lemma ScannedTo(s: string) returns (ts: seq<Token>)
    requires Lexemes(s, 0).Some?
    ensures Scan(s, 0) == Some(ts) && Lexemes(s, 0) == Some(Erase(ts))
  {
    ts := Scan(s, 0).value;
  }

  lemma AsCode(s: string)
    requires s == TWO_TEXTS && |s| == 50 && s[..4] == OPENING && s[23..] == OPENING + CODE_LINE + LAST_LINE
    ensures s[..4] + IMPORT_NOTE + s[23..] == AS_CODE
  {
  }

  lemma FirstText(s: string)
    requires s == TWO_TEXTS
    ensures s != [] && First(s, 0) == Some(Quoted(22))
  {
    SourceParts();
    PlainTexts();
    TripleFirst(s, FIRST_TEXT, "\n" + (Triple(SECOND_TEXT) + " ") + "# \'\'\'\n");
  }

  lemma TripleFirst(s: string, inner: string, rest: string)
    requires Plain(inner) && s == Triple(inner) + rest
    ensures First(s, 0) == Some(Quoted(|inner| + 6))
  {
    assert s[0..|inner| + 6] == Triple(inner);
    ReadsTriple(s, 0, inner);
    FirstIs(s, 0, Quoted(|inner| + 6));
  }

  lemma TwoLiterals(s: string, ts: seq<Token>, es: seq<Edit>)
    requires Scan(s, 0) == Some(ts) && |ts| == 2 && ts[0].kind == Literal && ts[1].kind == Literal
    ensures CallsResult(s) == Ok([]) && WarningsOf(false, [], ts, es) == []
  {
    ScanTokens(s, ts);
    assert ts[..1] == [ts[0]] && ts[..1][..0] == [];
    assert AllTokenWarnings(ts[..1], es) == AllTokenWarnings([], es) + TokenWarnings(ts[0], es) == [];
  }

  lemma LiveCall(t: string, ts: seq<Token>)
    requires Scan(t, 0) == Some(ts) && |ts| > 5 && ts[0].kind == Literal && Head(ts, 1)
    ensures CallsResult(t) != Ok([])
  {
    ScanTokens(t, ts);
    assert CallsFrom(t, ts, 0) == CallsFrom(t, ts, 1);
  }

  lemma CallTokens(ts: seq<Token>)
    requires Erase(ts) == [Quote("\n" + IMPORT_NOTE)] + TheCall() + [Quote(THIRD_TEXT)]
    ensures |ts| == 7 && ts[0].kind == Literal && Head(ts, 1) && HasRospy(Erase(ts))
  {
    hide Triple;
    var ls := Erase(ts);
    assert ls[0] == Quote("\n" + IMPORT_NOTE) && ls[1] == TheCall()[0] && ls[2] == TheCall()[1];
    assert ls[3] == TheCall()[2] && ls[4] == TheCall()[3];
  }

  lemma FirstTextCut(s: string, ts: seq<Token>, n: nat, e: Edit)
    requires Scan(s, 0) == Some(ts) && s != [] && First(s, 0) == Some(Quoted(n))
    requires e in ImportEdits(s, 0) && 0 < e.start < n
    ensures !CleanImports(s, ts)
  {
    hide Reads, ImportEdits;
    var p, tail := ScanHead(s, 0, ts);
    assert Emit(s, 0, p) == [Token(s[0..n], 0, n, Literal)];
    assert ts[0] in ts && ts[0] == Token(s[0..n], 0, n, Literal);
    assert InLiteralToken(ts, e.start);
  }
}
