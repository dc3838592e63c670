/**
 * What the rewriting pass guarantees: its output lexes to the source's own tokens with
 * every edited group replaced, exactly when no import line begins inside a string literal;
 * calls never collide with each other; and no rospy name is left without a warning.
 */
module MigrationTheorems {
  import opened Outcomes
  import opened Lexer
  import opened Grammar
  import opened CallFinder
  import opened Edits
  import opened Relexing
  import opened Imports
  import opened Replacements
  import opened Transformer

  // ---------------------------------------------------------------- call edits are aligned

  lemma HeadStart(source: string, ts: seq<Token>, h: nat)
    requires TokensOf(source, ts) && Head(ts, h)
    ensures ts[h].start < ts[h].end <= |source| && source[ts[h].start] == 'r'
  {
    assert ts[h] in ts;
    assert ts[h].text[0] == 'r' && ts[h].text[0] == source[ts[h].start..ts[h].end][0];
  }

  lemma CallEditAligned(source: string, ts: seq<Token>, h: nat, c: Call, e: Edit)
    requires Scan(source, 0) == Some(ts) && IsCallAt(source, ts, h, c) && e in CallEdit(c)
    ensures Aligned(source, e)
  {
    ScanTokens(source, ts);
    HeadStart(source, ts, h);
    CallInside(source, ts, h, c);
    var close := ts[Closing(ts, h).e];
    TokenCuts(source, 0, ts, ts[h]);
    TokenCuts(source, 0, ts, ts[h+3]);
    TokenCuts(source, 0, ts, close);
    CallTextCloses(c, e);
  }

  /** Every call replacement is self-contained and does not start with a quote. */
  lemma CallTextCloses(c: Call, e: Edit)
    requires e in CallEdit(c)
    ensures SelfContained(e.text) && !IsQuote(e.text[0])
    ensures forall l :: l in TextLexemes(e.text) ==> l != Lexeme(Name, "rospy")
  {
    if Helper(c.name).Some? {
      HelperIsName(c.name);
      HelperLexes(Helper(c.name).value);
    } else if c.name == "is_shutdown" && BlankRunes(c.arguments) {
      ShutdownLexes();
    } else {
      LogLevelIsLower(c.name);
      LogLexes(LogLevel(c.name).value);
    }
  }

  // ---------------------------------------------------------------- import edits

  /** The lexer's own view: a literal token reaches over position y. */
  predicate InLiteralToken(ts: seq<Token>, y: nat) {
    exists t :: t in ts && t.kind == Literal && t.start < y < t.end
  }

  /** No import line begins inside a string literal. */
  predicate CleanImports(source: string, ts: seq<Token>) {
    forall e :: e in ImportEdits(source, 0) ==> !InLiteralToken(ts, e.start)
  }

  lemma {:induction false} LiteralPiece(s: string, i: nat, ts: seq<Token>, t: Token)
    requires i <= |s| && Scan(s, i) == Some(ts) && t in ts && t.kind == Literal
    ensures i <= t.start < t.end <= |s| && Cut(s, i, t.start)
    ensures First(s, t.start) == Some(Quoted(t.end - t.start))
    decreases |s| - i
  {
    hide Reads;
    if i < |s| {
      var p, tail := ScanHead(s, i, ts);
      var j := i + p.Len();
      if t in tail {
        LiteralPiece(s, j, tail, t);
        CutThrough(s, i, p, t.start);
      } else {
        EmittedLiteral(s, i, p, t);
      }
    }
  }

  lemma EmittedLiteral(s: string, i: nat, p: Piece, t: Token)
    requires 0 < p.Len() && i + p.Len() <= |s| && t in Emit(s, i, p) && t.kind == Literal
    ensures t.start == i && p == Quoted(t.end - t.start)
  {
  }

  lemma LiteralToken(s: string, x: nat, n: nat, ts: seq<Token>) returns (t: Token)
    requires Scan(s, 0) == Some(ts) && x < |s| && Cut(s, 0, x) && First(s, x) == Some(Quoted(n))
    ensures t in ts && t.kind == Literal && t.start == x && t.end == x + n
  {
    var a, b := ScanSplit(s, 0, ts, x);
    var p, tail := ScanHead(s, x, b);
    t := Emit(s, x, p)[0];
    assert b[0] == t && t in b;
  }

  lemma InLiteralTokenIff(s: string, ts: seq<Token>, y: nat)
    requires Scan(s, 0) == Some(ts)
    ensures InLiteralToken(ts, y) <==> InsideLiteral(s, y)
  {
    if InLiteralToken(ts, y) {
      var t :| t in ts && t.kind == Literal && t.start < y < t.end;
      LiteralPiece(s, 0, ts, t);
      assert LiteralAround(s, t.start, t.end - t.start, y);
    }
    if InsideLiteral(s, y) {
      var x: nat, n: nat :| LiteralAround(s, x, n, y);
      var t := LiteralToken(s, x, n, ts);
    }
  }

  lemma {:induction false} MatchFirstByte(s: string, i: nat)
    requires i <= |s| && ImportMatch(s, i).Some?
    ensures i < |s| && (IsBlank(s[i]) || s[i] == 'i')
  {
  }

  /** An import line either begins inside a literal or is a group of whole tokens. */
  lemma ImportEditKnown(s: string, ts: seq<Token>, e: Edit)
    requires Scan(s, 0) == Some(ts) && IsImportEdit(s, e)
    ensures if InLiteralToken(ts, e.start) then InLiteral(s, e) else Aligned(s, e)
  {
    InLiteralTokenIff(s, ts, e.start);
    MatchFirstByte(s, e.start);
    NoteText();
    if !InLiteralToken(ts, e.start) {
      LineStartCut(s, 0, e.start);
      ImportLineCut(s, e.start);
      CutAppend(s, 0, e.start, e.end);
    }
  }

  lemma {:induction false} AllKnownFrom(s: string, es: seq<Edit>)
    requires forall e :: e in es ==> Aligned(s, e) || InLiteral(s, e)
    ensures AllKnown(s, es)
  {
    if es != [] {
      assert forall e :: e in es[1..] ==> e in es;
      AllKnownFrom(s, es[1..]);
    }
  }

  lemma EditKnown(source: string, ts: seq<Token>, calls: seq<Call>, e: Edit)
    requires Scan(source, 0) == Some(ts) && CallsResult(source) == Ok(calls)
    requires e in EditsOf(source, calls)
    ensures Aligned(source, e) || InLiteral(source, e)
    ensures e in CallEdits(calls) ==> Aligned(source, e)
    ensures InLiteral(source, e) ==> e in ImportEdits(source, 0) && InLiteralToken(ts, e.start)
  {
    if e in CallEdits(calls) {
      CallsAreHeads(source, ts);
      var m := CallEditFrom(calls, e);
      CallEditAligned(source, ts, Heads(ts, 0)[m], calls[m], e);
    } else {
      ImportEditIff(source, e);
      ImportEditKnown(source, ts, e);
    }
    if InLiteral(source, e) { LiteralNotCut(source, e); }
  }

  // ---------------------------------------------------------------- when edits collide

  lemma BlankRunesByte(s: string, k: nat)
    requires BlankRunes(s) && k < |s|
    ensures s[k] as int <= 32 || 0x80 <= s[k] as int
  {
    var b := s[0] as int;
    var n := if 9 <= b <= 13 || b == 32 then 1 else if b == 0xC2 then 2 else 3;
    if n <= k { BlankRunesByte(s[n..], k - n); }
  }

  /** A later call never begins inside the span that an earlier call's edit replaces. */
  lemma LaterCallClear(source: string, ts: seq<Token>, g: nat, c: Call, h: nat, d: Call, e: Edit)
    requires TokensOf(source, ts) && IsCallAt(source, ts, g, c) && IsCallAt(source, ts, h, d) && g < h
    requires e in CallEdit(c)
    ensures e.end <= d.start
  {
    HeadsApart(ts, g, h);
    if e.end == c.end && e.end != c.open {
      var close := Closing(ts, g).e;
      CallsNest(ts, g, close, h, Closing(ts, h).e);
      if h <= close {
        InnerGoesNegative(ts, g, close, h);
        HeadStart(source, ts, h);
        assert ts[g+3].end <= ts[h].start && ts[h].end <= ts[close].start;
        var k := ts[h].start - ts[g+3].end;
        assert c.arguments[k] == source[ts[h].start];
        BlankRunesByte(c.arguments, k);
      }
    }
  }

  lemma CallsOrdered(source: string, ts: seq<Token>, hs: seq<nat>, calls: seq<Call>, m: nat, e: Edit)
    requires TokensOf(source, ts) && AllCalls(source, ts, hs, calls) && m < |calls| && e in CallEdit(calls[m])
    requires forall a, b :: 0 <= a < b < |hs| ==> hs[a] < hs[b]
    ensures forall n :: m < n < |calls| ==> e.end <= calls[n].start
  {
    forall n | m < n < |calls| ensures e.end <= calls[n].start {
      LaterCallClear(source, ts, hs[m], calls[m], hs[n], calls[n], e);
    }
  }

  /** Edits made from calls are pairwise disjoint, nested calls included. */
  lemma {:induction false} CallEditsAscend(source: string, ts: seq<Token>, hs: seq<nat>, calls: seq<Call>)
    requires TokensOf(source, ts) && AllCalls(source, ts, hs, calls)
    requires forall a, b :: 0 <= a < b < |hs| ==> hs[a] < hs[b]
    ensures Ascending(CallEdits(calls))
    decreases |calls|
  {
    if calls != [] {
      var last := |calls| - 1;
      CallEditsAscend(source, ts, hs[..last], calls[..last]);
      forall e | e in CallEdits(calls[..last]) ensures e.end <= calls[last].start {
        var m := CallEditFrom(calls[..last], e);
        CallsOrdered(source, ts, hs, calls, m, e);
      }
      AscendingAppend(CallEdits(calls[..last]), CallEdit(calls[last]), calls[last].start);
    }
  }

  lemma AscendingAppend(es: seq<Edit>, tail: seq<Edit>, m: nat)
    requires Ascending(es) && |tail| <= 1
    requires forall e :: e in es ==> e.end <= m
    requires forall e :: e in tail ==> m <= e.start
    ensures Ascending(es + tail)
  {
    assert forall k :: 0 <= k < |es| ==> es[k] in es;
    assert forall k :: 0 <= k < |tail| ==> tail[k] in tail;
  }

  lemma AscendingApart(es: seq<Edit>)
    requires Ascending(es)
    ensures forall e, f :: e in es && f in es ==> e == f || Apart(e, f)
  {
  }

  /** Two ascending lists together are disjoint iff no edit of one meets an edit of the other. */
  lemma TwoLists(source: string, a: seq<Edit>, b: seq<Edit>)
    requires Inside(source, a + b) && Ascending(a) && Ascending(b)
    ensures Disjoint(a + b) <==> forall e, f :: e in a && f in b ==> Apart(e, f)
  {
    if forall e, f :: e in a && f in b ==> Apart(e, f) {
      ApartLists(source, a, b);
    } else {
      var e, f :| e in a && f in b && !Apart(e, f);
      InConcat(a, b, e);
      InConcat(a, b, f);
      if e == f { TwiceIn(a, b, e); }
    }
  }

  lemma ApartLists(source: string, a: seq<Edit>, b: seq<Edit>)
    requires Inside(source, a + b) && Ascending(a) && Ascending(b)
    requires forall e, f :: e in a && f in b ==> Apart(e, f)
    ensures Disjoint(a + b)
  {
    AscendingApart(a);
    AscendingApart(b);
    AllDifferent(source, a, b);
    forall e, f | e in a + b && f in a + b ensures e == f || Apart(e, f) {
      InConcat(a, b, e);
      InConcat(a, b, f);
    }
  }

  lemma TwiceIn(a: seq<Edit>, b: seq<Edit>, e: Edit)
    requires e in a && e in b
    ensures multiset(a + b)[e] > 1
  {
    assert e in multiset(a) && e in multiset(b);
    assert multiset(a + b) == multiset(a) + multiset(b);
  }

  lemma AllDifferent(source: string, a: seq<Edit>, b: seq<Edit>)
    requires Inside(source, a + b) && Ascending(a) && Ascending(b)
    requires forall e, f :: e in a && f in b ==> Apart(e, f)
    ensures forall e :: e in a + b ==> multiset(a + b)[e] == 1
  {
    forall j, k | 0 <= j < k < |a + b| ensures (a + b)[j] != (a + b)[k] {
      assert (a + b)[j] in a + b && (a + b)[k] in a + b;
      if j < |a| && |a| <= k {
        assert (a + b)[j] in a && (a + b)[k] in b;
      }
    }
    NoRepeats(a + b);
  }

  /** The overlap error is raised exactly when an import line meets an edited call. */
  lemma {:induction false} OverlapIffImportMeetsCall(source: string, unsupported: bool, calls: seq<Call>)
    requires |source| <= 2_097_152 && CallsResult(source) == Ok(calls)
    ensures TransformResult(source, unsupported) == Err(Overlapping) <==>
            exists e, f :: e in ImportEdits(source, 0) && f in CallEdits(calls) && !Apart(e, f)
  {
    var ts := Scan(source, 0).value;
    ScanTokens(source, ts);
    CallsAreHeads(source, ts);
    EditsInside(source, calls);
    ImportEditsAscend(source, 0);
    CallEditsAscend(source, ts, Heads(ts, 0), calls);
    TwoLists(source, ImportEdits(source, 0), CallEdits(calls));
  }

  /** Head h is the first one whose call does not close. */
  ghost predicate FirstOpenHead(ts: seq<Token>, h: nat) {
    Head(ts, h) && !Closing(ts, h).At? && forall g :: 0 <= g < h && Head(ts, g) ==> Closing(ts, g).At?
  }

  lemma {:induction false} FailsAt(source: string, ts: seq<Token>) returns (h: nat)
    requires Scan(source, 0) == Some(ts) && CallsResult(source).Err?
    ensures FirstOpenHead(ts, h)
    ensures CallsResult(source) == Err(if Closing(ts, h).Deep? then CallError.TooDeep else Unbalanced)
  {
    ScanTokens(source, ts);
    h := CallsFailAt(source, ts, 0);
  }

  lemma {:induction false} OpenHeadFails(source: string, ts: seq<Token>, h: nat)
    requires Scan(source, 0) == Some(ts) && FirstOpenHead(ts, h)
    ensures CallsResult(source) == Err(if Closing(ts, h).Deep? then CallError.TooDeep else Unbalanced)
  {
    CallsAreHeads(source, ts);
    assert h in Heads(ts, 0);
    var k := FailsAt(source, ts);
    hide CallsResult, Closing, Head;
  }

  /**
   * All failures besides overlaps: the source has more than 2 MiB; a literal is left open; the
   * first call head that does not close is nested too deep, or is never closed.
   */
  lemma {:induction false} FailsIff(source: string, unsupported: bool)
    ensures var r := TransformResult(source, unsupported);
      && (r == Err(TooLarge) <==> |source| > 2_097_152)
      && (r == Err(BadCalls(OpenLiteral)) <==> |source| <= 2_097_152 && Scan(source, 0).None?)
      && (Scan(source, 0).Some? ==>
            var ts := Scan(source, 0).value;
            && (r == Err(BadCalls(CallError.TooDeep)) <==>
                  |source| <= 2_097_152 && exists h :: FirstOpenHead(ts, h) && Closing(ts, h) == Deep)
            && (r == Err(BadCalls(Unbalanced)) <==>
                  |source| <= 2_097_152 && exists h :: FirstOpenHead(ts, h) && Closing(ts, h) == Never))
  {
    ErrorPassedOn(source, unsupported);
    if Scan(source, 0).Some? {
      var ts := Scan(source, 0).value;
      hide TransformResult, CallsResult, Closing, FirstOpenHead, Scan;
      if CallsResult(source).Err? { var h := FailsAt(source, ts); }
      forall h | FirstOpenHead(ts, h)
        ensures CallsResult(source) == Err(if Closing(ts, h).Deep? then CallError.TooDeep else Unbalanced)
      {
        OpenHeadFails(source, ts, h);
      }
      forall h | FirstOpenHead(ts, h) ensures !Closing(ts, h).At? { OpenIsOpen(ts, h); }
    }
  }

  lemma OpenIsOpen(ts: seq<Token>, h: nat)
    requires FirstOpenHead(ts, h)
    ensures !Closing(ts, h).At?
  {
  }

  lemma ErrorPassedOn(source: string, unsupported: bool)
    ensures TransformResult(source, unsupported) == Err(TooLarge) <==> |source| > 2_097_152
    ensures forall x :: TransformResult(source, unsupported) == Err(BadCalls(x)) <==>
              |source| <= 2_097_152 && CallsResult(source) == Err(x)
    ensures CallsResult(source) == Err(OpenLiteral) <==> Scan(source, 0).None?
  {
    if Scan(source, 0).Some? && CallsResult(source).Err? {
      var h := FailsAt(source, Scan(source, 0).value);
    }
    hide CallsResult, Disjoint, EditsOf, Rewrite, WarningsOf;
  }

  // ---------------------------------------------------------------- lexing commutes with the pass

  lemma {:induction false} RewriteLexesIffClean(source: string, ts: seq<Token>, calls: seq<Call>)
    requires Scan(source, 0) == Some(ts) && CallsResult(source) == Ok(calls)
    requires Disjoint(EditsOf(source, calls))
    ensures Inside(source, EditsOf(source, calls))
    ensures Lexemes(Rewrite(source, EditsOf(source, calls), 0), 0) == Some(Replaced(ts, EditsOf(source, calls)))
            <==> CleanImports(source, ts)
  {
    var es := EditsOf(source, calls);
    EditsInside(source, calls);
    forall e | e in es
      ensures Aligned(source, e) || InLiteral(source, e)
      ensures InLiteral(source, e) <==> e in ImportEdits(source, 0) && InLiteralToken(ts, e.start)
    {
      EditKnown(source, ts, calls, e);
      if e in ImportEdits(source, 0) && InLiteralToken(ts, e.start) {
        ImportEditIff(source, e);
        ImportEditKnown(source, ts, e);
      }
    }
    AllKnownFrom(source, es);
    CommutesIff(source, es, ts);
    assert forall e :: e in ImportEdits(source, 0) ==> e in es;
  }

  /**
   * The output lexes to the source's tokens with each edited group replaced by the tokens
   * of its replacement, if and only if no import line begins inside a string literal.
   */
  lemma {:induction false} OutputLexesIffClean(source: string, unsupported: bool, ts: seq<Token>, output: string, ws: seq<Warning>)
    requires Scan(source, 0) == Some(ts) && TransformResult(source, unsupported) == Ok((output, ws))
    ensures CallsResult(source).Ok?
    ensures Lexemes(output, 0) == Some(Replaced(ts, EditsOf(source, CallsResult(source).value)))
            <==> CleanImports(source, ts)
  {
    RewriteLexesIffClean(source, ts, CallsResult(source).value);
  }

  // ---------------------------------------------------------------- literals survive

  /** No aligned edit swallows a string literal of the source. */
  lemma {:induction false} LiteralsUncovered(source: string, ts: seq<Token>, calls: seq<Call>, t: Token)
    requires Scan(source, 0) == Some(ts) && CallsResult(source) == Ok(calls) && CleanImports(source, ts)
    requires t in ts && t.kind == Literal
    ensures !Covered(t, EditsOf(source, calls))
  {
    ScanTokens(source, ts);
    CallsAreHeads(source, ts);
    forall e | e in EditsOf(source, calls) && e.start <= t.start && t.end <= e.end ensures false {
      if e in CallEdits(calls) {
        var m := CallEditFrom(calls, e);
        CallEditNoLiteral(source, ts, Heads(ts, 0)[m], calls[m], e, t);
      } else {
        ImportEditIff(source, e);
        ImportEditNoLiteral(source, ts, e, t);
      }
    }
  }

  lemma LiteralQuote(source: string, ts: seq<Token>, t: Token)
    requires TokensOf(source, ts) && t in ts && t.kind == Literal
    ensures t.start < t.end <= |source| && IsQuote(source[t.start])
  {
    assert t.text[0] == source[t.start..t.end][0];
  }

  lemma CallEditNoLiteral(source: string, ts: seq<Token>, h: nat, c: Call, e: Edit, t: Token)
    requires TokensOf(source, ts) && IsCallAt(source, ts, h, c) && e in CallEdit(c) && t in ts
    requires e.start <= t.start && t.end <= e.end
    ensures t.kind != Literal
  {
    var k: nat :| k < |ts| && ts[k] == t;
    assert ts[h] in ts && ts[h+3] in ts && h <= k;
    if k <= h + 3 {
      HeadKinds(ts, h, k);
    } else {
      var close := Closing(ts, h).e;
      assert ts[close] in ts && k <= close;
      if k == close {
        CloseIsParen(ts, h, close);
        assert ts[k].text[0] == ')';
      } else if t.kind == Literal {
        LiteralQuote(source, ts, t);
        var j := t.start - ts[h+3].end;
        assert c.arguments[j] == source[t.start];
        BlankRunesByte(c.arguments, j);
      }
    }
  }

  lemma HeadKinds(ts: seq<Token>, h: nat, k: nat)
    requires Head(ts, h) && h <= k <= h + 3 && (forall t :: t in ts ==> WellKinded(t))
    ensures ts[k].kind != Literal
  {
    assert ts[k] in ts;
    assert ts[h+1].text[0] == '.' && ts[h+3].text[0] == '(';
  }

  lemma ImportEditNoLiteral(source: string, ts: seq<Token>, e: Edit, t: Token)
    requires Scan(source, 0) == Some(ts) && IsImportEdit(source, e) && !InLiteralToken(ts, e.start)
    requires t in ts && e.start <= t.start && t.end <= e.end
    ensures t.kind != Literal
  {
    if t.kind == Literal {
      ScanTokens(source, ts);
      LiteralQuote(source, ts, t);
      TokenCuts(source, 0, ts, t);
      ImportEditKnown(source, ts, e);
      CutSuffix(source, 0, e.start, t.start);
      NoQuoteCut(source, e.start, t.start);
    }
  }

  /** Inside a matched import line the lexer never stands before a quote. */
  lemma {:induction false} NoQuoteCut(s: string, i: nat, y: nat)
    requires i <= |s| && ImportMatch(s, i).Some? && i <= y < ImportMatch(s, i).value && Cut(s, i, y)
    ensures !IsQuote(s[y])
    decreases |s| - i
  {
    if IsBlank(s[i]) {
      if i < y {
        FirstIs(s, i, Blank);
        NoQuoteCut(s, i + 1, y);
      }
    } else {
      NoQuoteInWords(s, i, y);
    }
  }

  /** From the first word on, a quote of the line lies in its comment. */
  lemma NoQuoteInWords(s: string, i: nat, y: nat)
    requires i <= |s| && ImportMatch(s, i).Some? && i <= y < ImportMatch(s, i).value && Cut(s, i, y)
    requires i < |s| && !IsBlank(s[i])
    ensures !IsQuote(s[y])
  {
    var b := SkipBlanks(s, i + 12);
    WordsHaveNoQuote(s, i);
    if b < y && s[b] == '#' && y < LineEnd(s, b) {
      CutsUpToComment(s, i, b);
      CutSuffix(s, i, b, y);
      NoCutInComment(s, b, y);
    }
  }

  lemma WordsHaveNoQuote(s: string, i: nat)
    requires TextAt(s, i, IMPORT)
    ensures forall k :: i <= k < i + 12 ==> !IsQuote(s[k])
  {
    assert forall k :: i <= k < i + 12 ==> s[k] == IMPORT[k - i];
  }

  lemma CutsUpToComment(s: string, i: nat, b: nat)
    requires TextAt(s, i, IMPORT) && i + 12 <= |s| && b == SkipBlanks(s, i + 12) && b < |s| && s[b] == '#'
    ensures Cut(s, i, b)
  {
    ImportWords(s, i);
    BlanksCut(s, i + 12);
    CutAppend(s, i, i + 12, b);
  }

  lemma NoCutInComment(s: string, b: nat, y: nat)
    requires b < y < |s| && s[b] == '#' && y < LineEnd(s, b)
    ensures !Cut(s, b, y)
  {
    FirstIs(s, b, Comment(LineEnd(s, b) - b));
    if Cut(s, LineEnd(s, b), y) { CutBounds(s, LineEnd(s, b), y); }
  }

  // ---------------------------------------------------------------- no rospy name is left silently

  predicate HasRospy(ls: seq<Lexeme>) { Lexeme(Name, "rospy") in ls }

  lemma {:induction false} ReplacedRospy(ts: seq<Token>, es: seq<Edit>)
    requires forall e, l :: e in es && l in TextLexemes(e.text) ==> l != Lexeme(Name, "rospy")
    ensures HasRospy(Replaced(ts, es)) <==> exists t :: t in ts && IsRospy(t) && !Covered(t, es)
  {
    if ts != [] {
      ReplacedRospy(ts[1..], es);
      var t := ts[0];
      assert HasRospy(Contribution(t, es)) <==> IsRospy(t) && !Covered(t, es) by {
        match Cover(t, es)
        case None => assert Lexeme(t.kind, t.text) in [Lexeme(t.kind, t.text)];
        case Some(e) => assert e in es;
      }
      assert forall x :: x in ts <==> x == t || x in ts[1..];
    }
  }

  lemma TokenUnconverted(t: Token, es: seq<Edit>)
    ensures Unconverted in TokenWarnings(t, es) <==> IsRospy(t) && !Covered(t, es)
  {
  }

  /** Some rospy name of the source lies in no edit. */
  predicate LeavesRospy(ts: seq<Token>, es: seq<Edit>) {
    exists t :: t in ts && IsRospy(t) && !Covered(t, es)
  }

  lemma LeavesLast(ts: seq<Token>, last: Token, es: seq<Edit>)
    ensures LeavesRospy(ts + [last], es) <==> LeavesRospy(ts, es) || (IsRospy(last) && !Covered(last, es))
  {
    if LeavesRospy(ts, es) {
      var t :| t in ts && IsRospy(t) && !Covered(t, es);
      assert t in ts + [last];
    }
    assert last in ts + [last];
  }

  lemma {:induction false} UnconvertedIff(ts: seq<Token>, es: seq<Edit>)
    ensures Unconverted in AllTokenWarnings(ts, es) <==> LeavesRospy(ts, es)
  {
    if ts != [] {
      var last := |ts| - 1;
      UnconvertedIff(ts[..last], es);
      TokenUnconverted(ts[last], es);
      InWarnings(AllTokenWarnings(ts[..last], es), TokenWarnings(ts[last], es), Unconverted);
      LeavesLast(ts[..last], ts[last], es);
      assert ts[..last] + [ts[last]] == ts;
    }
  }

  lemma InWarnings(a: seq<Warning>, b: seq<Warning>, w: Warning)
    ensures w in a + b <==> w in a || w in b
  {
  }

  lemma EditTextsNoRospy(source: string, calls: seq<Call>, e: Edit)
    requires e in EditsOf(source, calls)
    ensures forall l :: l in TextLexemes(e.text) ==> l != Lexeme(Name, "rospy")
  {
    if e in CallEdits(calls) {
      var m := CallEditFrom(calls, e);
      CallTextCloses(calls[m], e);
    } else {
      ImportEditIff(source, e);
      NoteText();
    }
  }

  lemma {:induction false} NoUnconvertedElsewhere(calls: seq<Call>)
    ensures Unconverted !in AllCallWarnings(calls)
  {
    if calls != [] {
      var last := |calls| - 1;
      NoUnconvertedElsewhere(calls[..last]);
      CallNeverUnconverted(calls[last]);
      InWarnings(AllCallWarnings(calls[..last]), CallWarnings(calls[last]), Unconverted);
    }
  }

  lemma CallNeverUnconverted(c: Call)
    ensures Unconverted !in CallWarnings(c)
  {
    KeywordOnly(ArgumentTokens(c), 1);
  }

  lemma {:induction false} KeywordOnly(args: seq<Token>, i: nat)
    requires 1 <= i
    ensures Unconverted !in KeywordWarnings(args, i)
    decreases |args| - i
  {
    if i < |args| { KeywordOnly(args, i + 1); }
  }

  /**
   * On sources whose import lines are clean, the pass reports an unconverted reference
   * exactly when its output still has a rospy name.
   */
  lemma {:induction false} RospyLeftIffReported(source: string, unsupported: bool, ts: seq<Token>, output: string, ws: seq<Warning>)
    requires Scan(source, 0) == Some(ts) && CleanImports(source, ts)
    requires TransformResult(source, unsupported) == Ok((output, ws))
    ensures Lexemes(output, 0).Some?
    ensures Unconverted in ws <==> HasRospy(Lexemes(output, 0).value)
  {
    var calls := CallsResult(source).value;
    var es := EditsOf(source, calls);
    OutputLexesIffClean(source, unsupported, ts, output, ws);
    forall e, l | e in es && l in TextLexemes(e.text) ensures l != Lexeme(Name, "rospy") {
      EditTextsNoRospy(source, calls, e);
    }
    ReplacedRospy(ts, es);
    UnconvertedIff(ts, es);
    NoUnconvertedElsewhere(calls);
  }

  /** A clean conversion leaves nothing for the pass to find: its output has no rospy call. */
  lemma {:induction false} NothingLeftToConvert(source: string, unsupported: bool, ts: seq<Token>, output: string, ws: seq<Warning>)
    requires Scan(source, 0) == Some(ts) && CleanImports(source, ts)
    requires TransformResult(source, unsupported) == Ok((output, ws)) && Unconverted !in ws
    ensures CallsResult(output) == Ok([])
  {
    RospyLeftIffReported(source, unsupported, ts, output, ws);
    var out := Scan(output, 0).value;
    ScanTokens(output, out);
    forall i: nat | i < |out| ensures !Head(out, i) {
      assert Erase(out)[i] == Lexeme(out[i].kind, out[i].text) && Erase(out)[i] in Erase(out);
    }
    NoHeadsNoCalls(output, out, 0);
  }

  lemma {:induction false} NoHeadsNoCalls(source: string, ts: seq<Token>, i: nat)
    requires TokensOf(source, ts) && forall j: nat :: j < |ts| ==> !Head(ts, j)
    ensures CallsFrom(source, ts, i) == Ok([])
    decreases |ts| - i
  {
    if i + 3 < |ts| { NoHeadsNoCalls(source, ts, i + 1); }
  }

  // ---------------------------------------------------------------- where the promise fails

  /** An import line inside a triple-quoted literal: text, not a statement. */
  const QUOTED_IMPORT := "\'\'\'\nimport rospy\n\'\'\'"

  lemma QuotedImportLayout(s: string)
    requires s == QUOTED_IMPORT
    ensures |s| == 20 && First(s, 0) == Some(Quoted(20))
    ensures IsImportEdit(s, Edit(4, 17, IMPORT_NOTE))
  {
    assert forall k :: 3 <= k < 17 ==> s[k] != '\'' && s[k] != '\\';
    assert OpenLen(s, 0) == 3;
    assert !Escaped(s, 3, 17) by { assert s[16] == '\n'; }
    assert ClosesAt(s, 0, 17);
    forall k | 0 <= k < 17 ensures !ClosesAt(s, 0, k) {
      assert 3 <= k ==> s[k] != '\'';
    }
    FirstIs(s, 0, Quoted(20));
    assert TextAt(s, 4, IMPORT) && s[16] == '\n';
    assert SkipBlanks(s, 16) == 16;
  }

  /** A source that is one string literal has one token and no call. */
  lemma LoneLiteral(s: string, t: Token)
    requires s != [] && First(s, 0) == Some(Quoted(|s|)) && t == Token(s, 0, |s|, Literal)
    ensures Scan(s, 0) == Some([t]) && CallsResult(s) == Ok([])
  {
    assert s[0..|s|] == s && Scan(s, |s|) == Some([]);
    assert Emit(s, 0, Quoted(|s|)) == [t] && [t] + [] == [t];
    ScanTokens(s, [t]);
  }

  lemma LoneLiteralEdits(s: string, t: Token, es: seq<Edit>)
    requires s != [] && First(s, 0) == Some(Quoted(|s|)) && t == Token(s, 0, |s|, Literal)
    requires CallsResult(s) == Ok([]) && es == EditsOf(s, [])
    ensures Inside(s, es) && Disjoint(es) && Cover(t, es).None?
  {
    EditsInside(s, []);
    ImportEditsAscend(s, 0);
    assert es == ImportEdits(s, 0) && es + [] == es;
    TwoLists(s, es, []);
    forall f | f in es ensures f.start != 0 {
      ImportEditIff(s, f);
      MatchFirstByte(s, f.start);
    }
  }

  /**
   * The pass alters a string literal, and no warning is about it: the promise to preserve
   * application statements fails on every literal that contains an import line. A warning
   * comes only if the unsupported-import expression happens to match too.
   */
  lemma {:induction false} LiteralAlteredSilently(s: string, unsupported: bool, e: Edit)
    requires s != [] && |s| <= 2_097_152 && First(s, 0) == Some(Quoted(|s|)) && IsImportEdit(s, e)
    ensures var r := TransformResult(s, unsupported);
            && r.Ok? && r.value.1 == (if unsupported then [UnsupportedImport] else [])
            && Lexemes(r.value.0, 0) != Lexemes(s, 0)
  {
    var t := Token(s, 0, |s|, Literal);
    LoneLiteral(s, t);
    var es := EditsOf(s, []);
    LoneLiteralEdits(s, t, es);
    LoneLiteralResult(s, unsupported, t, es);
    LoneLiteralDirty(s, t, e);
    RewriteLexesIffClean(s, [t], []);
    UntouchedToken(t, es);
  }

  lemma LiteralWarnsNothing(unsupported: bool, t: Token, es: seq<Edit>)
    requires t.kind == Literal
    ensures WarningsOf(unsupported, [], [t], es) == if unsupported then [UnsupportedImport] else []
  {
    assert [t][..0] == [];
    assert AllTokenWarnings([t], es) == AllTokenWarnings([], es) + TokenWarnings(t, es) == [];
  }

  lemma {:induction false} LoneLiteralResult(s: string, unsupported: bool, t: Token, es: seq<Edit>)
    requires |s| <= 2_097_152 && Scan(s, 0) == Some([t]) && CallsResult(s) == Ok([]) && t.kind == Literal
    requires es == EditsOf(s, []) && Inside(s, es) && Disjoint(es)
    ensures TransformResult(s, unsupported) == Ok((Rewrite(s, es, 0), if unsupported then [UnsupportedImport] else []))
  {
    LiteralWarnsNothing(unsupported, t, es);
  }

  lemma LoneLiteralDirty(s: string, t: Token, e: Edit)
    requires s != [] && t == Token(s, 0, |s|, Literal) && IsImportEdit(s, e) && First(s, 0) == Some(Quoted(|s|))
    ensures !CleanImports(s, [t])
  {
    ImportEditIff(s, e);
    MatchFirstByte(s, e.start);
    assert InLiteralToken([t], e.start) by { assert t in [t]; }
  }

  lemma UntouchedToken(t: Token, es: seq<Edit>)
    requires Cover(t, es).None?
    ensures Replaced([t], es) == Erase([t])
  {
    assert [t][1..] == [];
  }

  lemma QuotedImportAltered()
    ensures var r := TransformResult(QUOTED_IMPORT, false);
            r.Ok? && r.value.1 == [] && Lexemes(r.value.0, 0) != Lexemes(QUOTED_IMPORT, 0)
  {
    QuotedImportLayout(QUOTED_IMPORT);
    LiteralAlteredSilently(QUOTED_IMPORT, false, Edit(4, 17, IMPORT_NOTE));
  }
}
