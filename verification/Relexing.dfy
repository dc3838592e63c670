/**
 * Lexing commutes with rewriting.
 *
 * If every edit begins and ends where the lexer starts a new piece, and its replacement
 * is a self-contained run of pieces, then lexing the rewritten text gives the source's own
 * tokens with each edited group replaced by the tokens of its replacement. The converse is
 * here too: an edit that begins inside a string literal always spoils that.
 */
module Relexing {
  import opened Outcomes
  import opened Lexer
  import opened Grammar
  import opened Edits

  ghost function TextLexemes(text: string): seq<Lexeme> {
    match Lexemes(text, 0)
    case Some(ls) => ls
    case None => []
  }

  /** A text whose pieces do not depend on what follows it. */
  ghost predicate SelfContained(text: string) {
    && text != []
    && forall t: string, o: nat :: Same(text, 0, t, o, |text|) ==>
         Lexemes(t, o) == Prepend(TextLexemes(text), Lexemes(t, o + |text|))
  }

  /** An edit that the lexer cannot tell from a group of whole tokens. */
  ghost predicate Aligned(s: string, e: Edit) {
    && e.start < e.end <= |s|
    && Cut(s, 0, e.start) && Cut(s, 0, e.end)
    && SelfContained(e.text) && !IsQuote(e.text[0])
    && (IsNameStart(s[e.start]) || (AtLineStart(s, e.start) && TextLexemes(e.text) == []))
  }

  /** An edit that begins strictly inside a string literal, at the start of a line. */
  ghost predicate InLiteral(s: string, e: Edit) {
    && e.start < e.end <= |s| && AtLineStart(s, e.start)
    && e.text != [] && e.text[0] != s[e.start]
    && InsideLiteral(s, e.start)
  }

  /** Position y lies strictly inside a string literal. */
  ghost predicate InsideLiteral(s: string, y: nat) {
    exists x: nat, n: nat :: LiteralAround(s, x, n, y)
  }

  ghost predicate LiteralAround(s: string, x: nat, n: nat, y: nat) {
    x < y < x + n && x < |s| && Cut(s, 0, x) && First(s, x) == Some(Quoted(n))
  }

  /** Every edit is either aligned or begins inside a literal. */
  ghost predicate AllKnown(s: string, es: seq<Edit>) {
    es == [] || ((Aligned(s, es[0]) || InLiteral(s, es[0])) && AllKnown(s, es[1..]))
  }

  lemma {:induction false} KnownMember(s: string, es: seq<Edit>, e: Edit)
    requires AllKnown(s, es) && e in es
    ensures Aligned(s, e) || InLiteral(s, e)
  {
    if e != es[0] { KnownMember(s, es[1..], e); }
  }

  lemma NoCutInPiece(s: string, x: nat, p: Piece, y: nat)
    requires x < |s| && Cut(s, 0, x) && First(s, x) == Some(p) && x < y < x + p.Len()
    ensures !Cut(s, 0, y)
  {
    CutSuffix(s, 0, x, y);
    if Cut(s, x, y) { CutBounds(s, x + p.Len(), y); }
  }

  /** An edit at a cut is aligned. */
  lemma AlignedMember(s: string, es: seq<Edit>, e: Edit)
    requires AllKnown(s, es) && e in es && Cut(s, 0, e.start)
    ensures Aligned(s, e)
  {
    KnownMember(s, es, e);
    if InLiteral(s, e) {
      var x: nat, n: nat :| LiteralAround(s, x, n, e.start);
      NoCutInPiece(s, x, Quoted(n), e.start);
    }
  }

  predicate AtLineStart(s: string, i: nat)
    requires i <= |s|
  {
    i == 0 || s[i-1] == '\n'
  }

  /** The edit that a token lies in. */
  function Cover(t: Token, es: seq<Edit>): (r: Option<Edit>)
    ensures r.Some? ==> r.value in es && r.value.start <= t.start && t.end <= r.value.end
    ensures r.None? ==> forall e :: e in es ==> !(e.start <= t.start && t.end <= e.end)
  {
    if es == [] then None
    else if es[0].start <= t.start && t.end <= es[0].end then Some(es[0])
    else Cover(t, es[1..])
  }

  /** What a source token becomes: itself, the whole replacement for a group's head, or nothing. */
  ghost function Contribution(t: Token, es: seq<Edit>): seq<Lexeme> {
    match Cover(t, es)
    case None => [Lexeme(t.kind, t.text)]
    case Some(e) => if t.start == e.start then TextLexemes(e.text) else []
  }

  ghost function Replaced(ts: seq<Token>, es: seq<Edit>): seq<Lexeme> {
    if ts == [] then [] else Contribution(ts[0], es) + Replaced(ts[1..], es)
  }

  lemma {:induction false} ReplacedConcat(a: seq<Token>, b: seq<Token>, es: seq<Edit>)
    ensures Replaced(a + b, es) == Replaced(a, es) + Replaced(b, es)
  {
    if a == [] {
      assert a + b == b;
    } else {
      assert (a + b)[1..] == a[1..] + b;
      ReplacedConcat(a[1..], b, es);
    }
  }

  /** A group that does not contain its edit's first byte as a token start contributes nothing. */
  lemma {:induction false} CoveredRest(ts: seq<Token>, es: seq<Edit>, e: Edit)
    requires Disjoint(es) && e in es && Within(ts, e.start, e.end)
    requires forall t :: t in ts ==> t.start != e.start || TextLexemes(e.text) == []
    ensures Replaced(ts, es) == []
  {
    if ts != [] {
      assert ts[0] in ts && Cover(ts[0], es) == Some(e);
      CoveredRest(ts[1..], es, e);
    }
  }

  /** In a group that begins with a name, only the first token starts where the edit does. */
  lemma OneHead(s: string, i: nat, a: seq<Token>, b: seq<Token>)
    requires i < |s| && IsNameStart(s[i]) && Scan(s, i) == Some(a + b)
    requires forall t :: t in b ==> i < t.start
    ensures a != [] && a[0].start == i && forall t :: t in a[1..] ==> t.start != i
  {
    NameStartsToken(s, i, a + b);
    ScanSlices(s, i, a + b);
    assert a == [] ==> a + b == b;
    assert (a + b)[0] in a + b;
    forall k | 0 < k < |a| ensures a[k].start != i { assert (a + b)[k] == a[k]; }
  }

  /** The tokens of an edited group contribute exactly the tokens of the replacement. */
  lemma GroupContribution(a: seq<Token>, es: seq<Edit>, e: Edit)
    requires Disjoint(es) && e in es && Within(a, e.start, e.end)
    requires TextLexemes(e.text) == []
          || (a != [] && a[0].start == e.start && forall t :: t in a[1..] ==> t.start != e.start)
    ensures Replaced(a, es) == TextLexemes(e.text)
  {
    if TextLexemes(e.text) == [] {
      CoveredRest(a, es, e);
    } else {
      assert a[0] in a && Cover(a[0], es) == Some(e);
      assert Within(a[1..], e.start, e.end);
      CoveredRest(a[1..], es, e);
    }
  }

  lemma GroupReplaced(s: string, es: seq<Edit>, e: Edit, ts: seq<Token>) returns (b: seq<Token>)
    requires Disjoint(es) && e in es && Aligned(s, e) && Scan(s, e.start) == Some(ts)
    ensures Scan(s, e.end) == Some(b) && Replaced(ts, es) == TextLexemes(e.text) + Replaced(b, es)
  {
    CutSuffix(s, 0, e.start, e.end);
    var a;
    a, b := ScanSplit(s, e.start, ts, e.end);
    ScanSlices(s, e.end, b);
    if TextLexemes(e.text) != [] {
      assert forall t :: t in b ==> SliceOf(s, e.end, t);
      OneHead(s, e.start, a, b);
    }
    GroupContribution(a, es, e);
    ReplacedConcat(a, b, es);
  }

  // ---------------------------------------------------------------- one copied piece

  /** The byte of the rewritten text that stands for position j of the source. */
  lemma RewriteHead(s: string, es: seq<Edit>, j: nat)
    requires Inside(s, es) && j <= |s| && AllKnown(s, es) && Cut(s, 0, j)
    ensures match EditAt(es, j)
            case Some(e) => Aligned(s, e) && Rewrite(s, es, j) != [] && Rewrite(s, es, j)[0] == e.text[0]
            case None => if j == |s| then Rewrite(s, es, j) == []
                         else Rewrite(s, es, j) != [] && Rewrite(s, es, j)[0] == s[j]
  {
    match EditAt(es, j)
    case Some(e) => AlignedMember(s, es, e);
    case None =>
  }

  /** A piece ended by a line break is white space; a piece before a name start is no word or comment. */
  lemma PieceStops(s: string, es: seq<Edit>, i: nat, p: Piece, j: nat, out: string, o': nat)
    requires Inside(s, es) && i < |s| && Reads(s, i, p) && j == i + p.Len() <= |s|
    requires AllKnown(s, es) && Cut(s, 0, j)
    requires o' <= |out| && out[o'..] == Rewrite(s, es, j)
    ensures Stops(p, s[i], out, o')
  {
    RewriteHead(s, es, j);
    if o' < |out| {
      assert out[o'] == Rewrite(s, es, j)[0];
      if p.Quoted? { LiteralEnds(s, i, p.n); }
    }
  }

  /** A copied piece is recognised again. */
  lemma RecognisedAgain(s: string, i: nat, p: Piece, out: string, o: nat, o': nat)
    requires i < |s| && Reads(s, i, p) && o' == o + p.Len()
    requires Same(s, i, out, o, p.Len()) && Stops(p, s[i], out, o')
    ensures Lexemes(out, o) == Prepend(Erase(Emit(s, i, p)), Lexemes(out, o'))
  {
    ReadsLocal(s, i, p, out, o);
    LexemesStep(out, o, p);
    SameEmission(s, i, p, out, o);
  }

  /** An unedited piece, from i to j, is copied and recognised again. */
  lemma CopiedPiece(s: string, es: seq<Edit>, i: nat, p: Piece, j: nat, out: string, o: nat, o': nat)
    requires Inside(s, es) && i < |s| && Reads(s, i, p) && j == i + p.Len() <= |s| && o' == o + p.Len()
    requires AllKnown(s, es) && Cut(s, 0, j) && NoStartIn(es, i, j)
    requires o <= |out| && out[o..] == Rewrite(s, es, i)
    ensures o' <= |out| && out[o'..] == Rewrite(s, es, j)
    ensures Lexemes(out, o) == Prepend(Erase(Emit(s, i, p)), Lexemes(out, o'))
  {
    CopiedBytes(s, es, i, p.Len(), out, o);
    PieceStops(s, es, i, p, j, out, o');
    RecognisedAgain(s, i, p, out, o, o');
  }

  lemma SameEmission(s: string, i: nat, p: Piece, out: string, o: nat)
    requires Same(s, i, out, o, p.Len()) && 0 < p.Len()
    ensures Erase(Emit(out, o, p)) == Erase(Emit(s, i, p))
  {
    assert out[o..o+p.Len()] == s[i..i+p.Len()];
    var a, b := Emit(out, o, p), Emit(s, i, p);
    assert |a| == |b| && forall k :: 0 <= k < |a| ==> a[k].text == b[k].text && a[k].kind == b[k].kind;
  }

  lemma CopiedBytes(s: string, es: seq<Edit>, i: nat, n: nat, out: string, o: nat)
    requires Inside(s, es) && i + n <= |s| && NoStartIn(es, i, i + n)
    requires o <= |out| && out[o..] == Rewrite(s, es, i)
    ensures Same(s, i, out, o, n) && out[o + n..] == Rewrite(s, es, i + n)
  {
    CopyRun(s, es, i, i + n);
    assert out[o + n..] == out[o..][n..];
    forall x | o <= x < o + n ensures out[x] == s[i + (x - o)] {
      assert out[x] == out[o..][x - o] == s[i..i+n][x - o];
    }
  }

  // ---------------------------------------------------------------- the simulation

  predicate Outside(es: seq<Edit>, i: nat) {
    forall e :: e in es ==> !(e.start < i < e.end)
  }

  lemma NextCut(s: string, i: nat, p: Piece, j: nat)
    requires i < |s| && Cut(s, 0, i) && First(s, i) == Some(p) && j == i + p.Len()
    ensures Cut(s, 0, j)
  {
    assert Cut(s, j, j) && Cut(s, i, j);
    CutSuffix(s, 0, i, j);
  }

  /** An edit that begins inside a piece begins inside a literal. */
  lemma StartsInside(s: string, es: seq<Edit>, i: nat, p: Piece, e: Edit)
    requires AllKnown(s, es) && e in es
    requires i < |s| && Cut(s, 0, i) && First(s, i) == Some(p) && i < e.start < i + p.Len()
    ensures InLiteral(s, e) && p.Quoted?
  {
    KnownMember(s, es, e);
    NoCutInPiece(s, i, p, e.start);
    var x: nat, n: nat :| LiteralAround(s, x, n, e.start);
    OnePieceAround(s, i, p, x, Quoted(n), e.start);
  }

  /** Only one piece of the text lies around a position. */
  lemma OnePieceAround(s: string, i: nat, p: Piece, x: nat, q: Piece, y: nat)
    requires i < |s| && Cut(s, 0, i) && First(s, i) == Some(p) && i < y < i + p.Len()
    requires x < |s| && Cut(s, 0, x) && First(s, x) == Some(q) && x < y < x + q.Len()
    ensures i == x && p == q
  {
    if x < i {
      NoCutInPiece(s, x, q, i);
    } else if i < x {
      NoCutInPiece(s, i, p, x);
    }
  }

  lemma OutsideNext(es: seq<Edit>, i: nat, j: nat)
    requires Outside(es, i) && NoStartIn(es, i, j) && i <= j
    ensures Outside(es, j)
  {
  }

  /** A token of an unedited piece contributes itself. */
  lemma OwnContribution(s: string, es: seq<Edit>, i: nat, p: Piece)
    requires i < |s| && 0 < p.Len() <= |s| - i && Outside(es, i) && EditAt(es, i).None?
    ensures Replaced(Emit(s, i, p), es) == Erase(Emit(s, i, p))
  {
    var own := Emit(s, i, p);
    if own != [] {
      assert Cover(own[0], es).None?;
      assert own[1..] == [] && Replaced(own, es) == Contribution(own[0], es);
    }
  }

  lemma PieceReplaced(s: string, es: seq<Edit>, i: nat, ts: seq<Token>, p: Piece, j: nat) returns (rest: seq<Token>)
    requires i < |s| && Scan(s, i) == Some(ts) && Outside(es, i) && EditAt(es, i).None?
    requires First(s, i) == Some(p) && j == i + p.Len()
    ensures Scan(s, j) == Some(rest)
    ensures Replaced(ts, es) == Erase(Emit(s, i, p)) + Replaced(rest, es)
  {
    var q;
    q, rest := ScanHead(s, i, ts);
    OwnContribution(s, es, i, p);
    ReplacedConcat(Emit(s, i, p), rest, es);
  }

  /** The state of the simulation: the lexer stands at i in the source and at o in the rewritten text. */
  ghost predicate Abreast(s: string, es: seq<Edit>, out: string, i: nat, o: nat, ts: seq<Token>)
    requires Inside(s, es)
  {
    && i <= |s| && Cut(s, 0, i) && Outside(es, i) && Scan(s, i) == Some(ts)
    && o <= |out| && out[o..] == Rewrite(s, es, i)
  }

  /** What one step of the simulation keeps and produces. */
  ghost predicate Steps(s: string, es: seq<Edit>, out: string, i: nat, o: nat, ts: seq<Token>,
                        i': nat, o': nat, front: seq<Lexeme>, rest: seq<Token>)
    requires Inside(s, es)
  {
    && i < i' && Abreast(s, es, out, i', o', rest)
    && Lexemes(out, o) == Prepend(front, Lexemes(out, o'))
    && Replaced(ts, es) == front + Replaced(rest, es)
  }

  lemma StepEdit(s: string, es: seq<Edit>, out: string, i: nat, o: nat, ts: seq<Token>)
      returns (i': nat, o': nat, front: seq<Lexeme>, rest: seq<Token>)
    requires Inside(s, es) && Disjoint(es) && AllKnown(s, es) && Abreast(s, es, out, i, o, ts)
    requires EditAt(es, i).Some?
    ensures Steps(s, es, out, i, o, ts, i', o', front, rest)
    ensures i' == EditAt(es, i).value.end
  {
    var e := EditAt(es, i).value;
    AlignedMember(s, es, e);
    TextCopied(s, es, e, out, o);
    rest := GroupReplaced(s, es, e, ts);
    AfterEdit(es, e);
    TextLexed(e.text, out, o);
    i', o', front := e.end, o + |e.text|, TextLexemes(e.text);
  }

  lemma StepPiece(s: string, es: seq<Edit>, out: string, i: nat, o: nat, ts: seq<Token>,
                  p: Piece, i': nat, o': nat) returns (rest: seq<Token>)
    requires Inside(s, es) && AllKnown(s, es) && Abreast(s, es, out, i, o, ts)
    requires i < |s| && First(s, i) == Some(p) && i' == i + p.Len() && o' == o + p.Len()
    requires NoStartIn(es, i, i')
    ensures Steps(s, es, out, i, o, ts, i', o', Erase(Emit(s, i, p)), rest)
  {
    assert EditAt(es, i).None?;
    rest := PieceReplaced(s, es, i, ts, p, i');
    NextCut(s, i, p, i');
    OutsideNext(es, i, i');
    CopiedPiece(s, es, i, p, i', out, o, o');
  }

  /** One step of the simulation: past an edited group, or past an unedited piece. */
  lemma Step(s: string, es: seq<Edit>, out: string, i: nat, o: nat, ts: seq<Token>)
      returns (i': nat, o': nat, front: seq<Lexeme>, rest: seq<Token>)
    requires Inside(s, es) && Disjoint(es) && AllKnown(s, es) && Abreast(s, es, out, i, o, ts) && i < |s|
    requires EditAt(es, i).Some? || (First(s, i).Some? && NoStartIn(es, i, i + First(s, i).value.Len()))
    ensures Steps(s, es, out, i, o, ts, i', o', front, rest)
    ensures i' == if EditAt(es, i).Some? then EditAt(es, i).value.end else i + First(s, i).value.Len()
  {
    if EditAt(es, i).Some? {
      i', o', front, rest := StepEdit(s, es, out, i, o, ts);
    } else {
      var p := First(s, i).value;
      i', o', front := i + p.Len(), o + p.Len(), Erase(Emit(s, i, p));
      rest := StepPiece(s, es, out, i, o, ts, p, i', o');
    }
  }

  lemma AtEnd(s: string, es: seq<Edit>, out: string, o: nat, ts: seq<Token>)
    requires Inside(s, es) && Abreast(s, es, out, |s|, o, ts)
    ensures Lexemes(out, o) == Some([]) && Replaced(ts, es) == []
  {
    assert Rewrite(s, es, |s|) == [];
  }

  lemma NothingInside(s: string, es: seq<Edit>, i: nat, p: Piece)
    requires AllKnown(s, es) && i < |s| && Cut(s, 0, i) && First(s, i) == Some(p) && EditAt(es, i).None?
    requires forall e :: e in es && i < e.start < i + p.Len() ==> !InLiteral(s, e)
    ensures NoStartIn(es, i, i + p.Len())
  {
    forall e | e in es ensures !(i <= e.start < i + p.Len()) {
      if i < e.start < i + p.Len() { StartsInside(s, es, i, p, e); }
    }
  }

  /** Lexing the rewritten text, from any cut of the source. */
  lemma {:induction false} Commutes(s: string, es: seq<Edit>, out: string, i: nat, o: nat, ts: seq<Token>)
    requires Inside(s, es) && Disjoint(es) && AllKnown(s, es) && Abreast(s, es, out, i, o, ts)
    requires forall e :: e in es ==> !InLiteral(s, e)
    ensures Lexemes(out, o) == Some(Replaced(ts, es))
    decreases |s| - i
  {
    if i == |s| {
      AtEnd(s, es, out, o, ts);
    } else {
      if EditAt(es, i).None? { NothingInside(s, es, i, First(s, i).value); }
      var i', o', front, rest := Step(s, es, out, i, o, ts);
      Commutes(s, es, out, i', o', rest);
    }
  }

  lemma AfterEdit(es: seq<Edit>, e: Edit)
    requires Disjoint(es) && e in es && e.start < e.end
    ensures Outside(es, e.end)
  {
    forall f | f in es ensures !(f.start < e.end < f.end) { assert e == f || Apart(e, f); }
  }

  lemma TextLexed(text: string, out: string, o: nat)
    requires SelfContained(text) && Same(text, 0, out, o, |text|)
    ensures Lexemes(out, o) == Prepend(TextLexemes(text), Lexemes(out, o + |text|))
  {
  }

  lemma TextCopied(s: string, es: seq<Edit>, e: Edit, out: string, o: nat)
    requires Inside(s, es) && EditAt(es, e.start) == Some(e) && e.start <= |s|
    requires o <= |out| && out[o..] == Rewrite(s, es, e.start)
    ensures Same(e.text, 0, out, o, |e.text|)
    ensures out[o + |e.text|..] == Rewrite(s, es, e.end)
  {
    var n := |e.text|;
    var rest := Rewrite(s, es, e.end);
    assert out[o..] == e.text + rest;
    assert out[o + n..] == out[o..][n..] == rest;
    forall x | o <= x < o + n ensures out[x] == e.text[x - o] {
      assert out[x] == out[o..][x - o];
    }
  }

  /** Lexing commutes with rewriting: the whole text. */
  lemma {:induction false} LexingCommutes(s: string, es: seq<Edit>, ts: seq<Token>)
    requires Inside(s, es) && Disjoint(es) && AllKnown(s, es)
    requires forall e :: e in es ==> !InLiteral(s, e)
    requires Scan(s, 0) == Some(ts)
    ensures Lexemes(Rewrite(s, es, 0), 0) == Some(Replaced(ts, es))
  {
    var out := Rewrite(s, es, 0);
    assert out[0..] == out;
    Commutes(s, es, out, 0, 0, ts);
  }

  // ---------------------------------------------------------------- edits inside literals

  /** The first edit that begins inside the piece at i. */
  lemma {:induction false} FirstStart(es: seq<Edit>, i: nat, j: nat) returns (e: Edit)
    requires i <= j && !NoStartIn(es, i, j)
    ensures e in es && i <= e.start < j && NoStartIn(es, i, e.start)
    decreases j - i
  {
    e :| e in es && i <= e.start < j;
    if !NoStartIn(es, i, e.start) {
      e := FirstStart(es, i, e.start);
    }
  }

  /** The rewritten text up to and including the first byte of the replacement. */
  lemma UpToEdit(s: string, es: seq<Edit>, out: string, i: nat, o: nat, e: Edit)
    requires Inside(s, es) && i <= e.start && e in es && e.text != [] && NoStartIn(es, i, e.start)
    requires EditAt(es, e.start) == Some(e)
    requires o <= |out| && out[o..] == Rewrite(s, es, i)
    ensures Same(s, i, out, o, e.start - i)
    ensures o + (e.start - i) < |out| && out[o + (e.start - i)] == e.text[0]
  {
    var m := e.start - i;
    CopiedBytes(s, es, i, m, out, o);
    var tail := out[o + m..];
    assert tail == e.text + Rewrite(s, es, e.end);
    assert tail[0] == e.text[0];
  }

  lemma SameBack(s: string, i: nat, t: string, j: nat, n: nat)
    requires Same(s, i, t, j, n)
    ensures Same(t, j, s, i, n)
  {
    forall x | i <= x < i + n ensures s[x] == t[j + (x - i)] { SameAt(s, i, t, j, n, x); }
  }

  /** A literal closed within the copied bytes is closed there in the source too. */
  lemma ClosedEarly(s: string, i: nat, out: string, o: nat, m: nat, k: nat)
    requires i < |s| && 0 < m && Same(s, i, out, o, m) && s[i + m - 1] == '\n' && IsQuote(s[i])
    requires o < |out| && Reads(out, o, Quoted(k)) && k <= m
    ensures First(s, i) == Some(Quoted(k))
  {
    SameBack(s, i, out, o, m);
    LiteralEnds(out, o, k);
    SameAt(s, i, out, o, m, i + m - 1);
    SameAt(s, i, out, o, m, i);
    ReadsLocal(out, o, Quoted(k), s, i);
    FirstIs(s, i, Quoted(k));
  }

  /** What is lexed at o is not the literal `text`. */
  ghost predicate NotThis(out: string, o: nat, text: string) {
    o < |out| &&
    (First(out, o).Some? ==>
       First(out, o).value.Quoted? && out[o..o + First(out, o).value.Len()] != text)
  }

  /** A literal whose text is changed after m bytes does not come out as the same literal. */
  lemma LiteralChanged(s: string, i: nat, n: nat, out: string, o: nat, m: nat)
    requires i < |s| && First(s, i) == Some(Quoted(n)) && 0 < m < n
    requires Same(s, i, out, o, m) && s[i + m - 1] == '\n'
    requires o + m < |out| && out[o + m] != s[i + m]
    ensures NotThis(out, o, s[i..i+n])
  {
    SameAt(s, i, out, o, m, i);
    if First(out, o).Some? {
      var k := First(out, o).value.Len();
      assert First(out, o).value == Quoted(k);
      if k <= m {
        ClosedEarly(s, i, out, o, m, k);
      } else {
        assert out[o..o+k][m] == out[o+m];
        assert k == n ==> s[i..i+n][m] == s[i+m];
      }
    }
  }

  lemma FirstInLiteral(s: string, es: seq<Edit>, i: nat, p: Piece) returns (e: Edit)
    requires Disjoint(es) && AllKnown(s, es) && i < |s| && Cut(s, 0, i)
    requires EditAt(es, i).None? && First(s, i) == Some(p) && !NoStartIn(es, i, i + p.Len())
    ensures e in es && InLiteral(s, e) && p.Quoted? && i < e.start < i + p.Len()
    ensures NoStartIn(es, i, e.start)
  {
    e := FirstStart(es, i, i + p.Len());
    StartsInside(s, es, i, p, e);
  }

  /** What is known of an edit that begins inside a literal. */
  lemma InLiteralFacts(s: string, es: seq<Edit>, e: Edit)
    requires Disjoint(es) && AllKnown(s, es) && e in es && InLiteral(s, e) && 0 < e.start
    ensures EditAt(es, e.start) == Some(e) && e.start < |s|
    ensures e.text != [] && e.text[0] != s[e.start] && s[e.start-1] == '\n'
  {
    var f := EditAt(es, e.start).value;
    KnownMember(s, es, f);
    assert e == f || Apart(e, f);
  }

  lemma LiteralSpoiled(s: string, es: seq<Edit>, out: string, i: nat, o: nat, n: nat, e: Edit)
    requires Inside(s, es) && i < |s| && First(s, i) == Some(Quoted(n)) && i < e.start < i + n
    requires o <= |out| && out[o..] == Rewrite(s, es, i)
    requires e in es && EditAt(es, e.start) == Some(e) && NoStartIn(es, i, e.start)
    requires e.start < |s| && e.text != [] && e.text[0] != s[e.start] && s[e.start-1] == '\n'
    ensures NotThis(out, o, s[i..i+n])
  {
    UpToEdit(s, es, out, i, o, e);
    LiteralChanged(s, i, n, out, o, e.start - i);
  }

  /** An edit inside the literal at i changes what is lexed there. */
  lemma SpoiledHere(s: string, es: seq<Edit>, out: string, i: nat, o: nat, ts: seq<Token>, p: Piece)
    requires Inside(s, es) && Disjoint(es) && AllKnown(s, es) && Abreast(s, es, out, i, o, ts)
    requires i < |s| && EditAt(es, i).None? && First(s, i) == Some(p) && !NoStartIn(es, i, i + p.Len())
    ensures Lexemes(out, o) != Some(Replaced(ts, es))
  {
    var e := FirstInLiteral(s, es, i, p);
    InLiteralFacts(s, es, e);
    SpoiledBy(s, es, out, i, o, ts, p.n, e);
  }

  lemma SpoiledBy(s: string, es: seq<Edit>, out: string, i: nat, o: nat, ts: seq<Token>, n: nat, e: Edit)
    requires Inside(s, es) && Abreast(s, es, out, i, o, ts) && EditAt(es, i).None?
    requires i < |s| && First(s, i) == Some(Quoted(n)) && i < e.start < i + n
    requires e in es && EditAt(es, e.start) == Some(e) && NoStartIn(es, i, e.start)
    requires e.start < |s| && e.text != [] && e.text[0] != s[e.start] && s[e.start-1] == '\n'
    ensures Lexemes(out, o) != Some(Replaced(ts, es))
  {
    LiteralSpoiled(s, es, out, i, o, n, e);
    var rest := LiteralReplaced(s, es, i, ts, n);
    HeadDiffers(out, o, s[i..i+n], rest);
  }

  lemma LiteralReplaced(s: string, es: seq<Edit>, i: nat, ts: seq<Token>, n: nat) returns (rest: seq<Lexeme>)
    requires i < |s| && Scan(s, i) == Some(ts) && Outside(es, i) && EditAt(es, i).None?
    requires First(s, i) == Some(Quoted(n))
    ensures Replaced(ts, es) == [Lexeme(Literal, s[i..i+n])] + rest
  {
    var tail := PieceReplaced(s, es, i, ts, Quoted(n), i + n);
    LiteralLexeme(s, i, n);
    rest := Replaced(tail, es);
  }

  lemma LiteralLexeme(s: string, i: nat, n: nat)
    requires i + n <= |s|
    ensures Erase(Emit(s, i, Quoted(n))) == [Lexeme(Literal, s[i..i+n])]
  {
  }

  lemma HeadDiffers(out: string, o: nat, text: string, tail: seq<Lexeme>)
    requires NotThis(out, o, text)
    ensures Lexemes(out, o) != Some([Lexeme(Literal, text)] + tail)
  {
    if First(out, o).Some? {
      var p := First(out, o).value;
      LexemesStep(out, o, p);
      LiteralLexeme(out, o, p.n);
      if Lexemes(out, o).Some? {
        assert Lexemes(out, o).value[0].text != ([Lexeme(Literal, text)] + tail)[0].text;
      }
    }
  }

  /** One edit inside a literal spoils the result, from any cut before it. */
  lemma {:induction false} Spoils(s: string, es: seq<Edit>, out: string, i: nat, o: nat, ts: seq<Token>, d: Edit)
    requires Inside(s, es) && Disjoint(es) && AllKnown(s, es) && Abreast(s, es, out, i, o, ts)
    requires d in es && InLiteral(s, d) && i <= d.start
    ensures Lexemes(out, o) != Some(Replaced(ts, es))
    decreases |s| - i
  {
    var atEdit := EditAt(es, i);
    if atEdit.None? && !NoStartIn(es, i, i + First(s, i).value.Len()) {
      SpoiledHere(s, es, out, i, o, ts, First(s, i).value);
    } else {
      if atEdit.Some? {
        AlignedMember(s, es, atEdit.value);
        LiteralNotCut(s, d);
        assert d != atEdit.value && Apart(d, atEdit.value);
      }
      var i', o', front, rest := Step(s, es, out, i, o, ts);
      Spoils(s, es, out, i', o', rest, d);
      if Lexemes(out, o').Some? { SamePrefix(front, Lexemes(out, o').value, Replaced(rest, es)); }
    }
  }

  lemma LiteralNotCut(s: string, d: Edit)
    requires InLiteral(s, d)
    ensures !Cut(s, 0, d.start)
  {
    var x: nat, n: nat :| LiteralAround(s, x, n, d.start);
    NoCutInPiece(s, x, Quoted(n), d.start);
  }

  lemma SamePrefix(front: seq<Lexeme>, a: seq<Lexeme>, b: seq<Lexeme>)
    requires a != b
    ensures front + a != front + b
  {
    assert (front + a)[|front|..] == a && (front + b)[|front|..] == b;
  }

  /**
   * For edits that are aligned or begin inside a literal, lexing commutes with rewriting
   * exactly when none of them begins inside a literal.
   */
  lemma {:induction false} CommutesIff(s: string, es: seq<Edit>, ts: seq<Token>)
    requires Inside(s, es) && Disjoint(es) && AllKnown(s, es) && Scan(s, 0) == Some(ts)
    ensures Lexemes(Rewrite(s, es, 0), 0) == Some(Replaced(ts, es))
            <==> forall e :: e in es ==> !InLiteral(s, e)
  {
    var out := Rewrite(s, es, 0);
    assert out[0..] == out;
    if d :| d in es && InLiteral(s, d) {
      Spoils(s, es, out, 0, 0, ts, d);
    } else {
      LexingCommutes(s, es, ts);
    }
  }
}
