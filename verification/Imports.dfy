/**
 * Import lines (pkg/migration/migration.go:43 and 161-163).
 *
 * The regular expression works on lines, not on tokens: it matches a whole line made of
 * blanks, `import rospy`, blanks and an optional comment, together with its line break.
 * A matched line that begins outside every string literal is a group of whole tokens;
 * a matched line that begins inside a literal is not seen by the lexer at all.
 */
module Imports {
  import opened Outcomes
  import opened Lexer
  import opened Grammar
  import opened Edits
  import opened Relexing

  const IMPORT := "import rospy"

  const IMPORT_NOTE := "# rospy import replaced by ROSPlus helpers\n"

  predicate IsBlank(c: char) { c == '\t' || c == ' ' }

  /** First position at or after i that is not a tab or space. */
  function SkipBlanks(s: string, i: nat): (j: nat)
    requires i <= |s|
    ensures i <= j <= |s|
    ensures forall k :: i <= k < j ==> IsBlank(s[k])
    ensures j < |s| ==> !IsBlank(s[j])
    decreases |s| - i
  {
    if i < |s| && IsBlank(s[i]) then SkipBlanks(s, i + 1) else i
  }

  /** First line break at or after i, or the end of the text. */
  function LineEnd(s: string, i: nat): (j: nat)
    requires i <= |s|
    ensures i <= j <= |s|
    ensures forall k :: i <= k < j ==> s[k] != '\n'
    ensures j < |s| ==> s[j] == '\n'
    decreases |s| - i
  {
    if i < |s| && s[i] != '\n' then LineEnd(s, i + 1) else i
  }

  predicate TextAt(s: string, i: nat, text: string) {
    i + |text| <= |s| && forall k :: i <= k < i + |text| ==> s[k] == text[k - i]
  }

  /** Where the expression's match of a line starting at i ends, if the line matches. */
  function ImportMatch(s: string, i: nat): (r: Option<nat>)
    requires i <= |s|
    ensures r.Some? ==> i + |IMPORT| <= r.value <= |s|
    decreases |s| - i
  {
    if i < |s| && IsBlank(s[i]) then ImportMatch(s, i + 1)
    else if TextAt(s, i, IMPORT) then TailMatch(s, i + |IMPORT|)
    else None
  }

  /** After the words: blanks, an optional comment, and the line break or the end of the text. */
  function TailMatch(s: string, k: nat): (r: Option<nat>)
    requires k <= |s|
    ensures r.Some? ==> k <= r.value <= |s|
  {
    var b := SkipBlanks(s, k);
    var c := if b < |s| && s[b] == '#' then LineEnd(s, b) else b;
    if c == |s| then Some(c)
    else if s[c] == '\n' then Some(c + 1)
    else None
  }

  /** The edit of the line starting at i, if the expression matches it. */
  function LineEdit(s: string, i: nat): seq<Edit>
    requires i <= |s|
  {
    match ImportMatch(s, i)
    case Some(m) => [Edit(i, m, IMPORT_NOTE)]
    case None => []
  }

  /** FindAllStringIndex: every matching line from i on, replaced by a one-line note. */
  function ImportEdits(s: string, i: nat): seq<Edit>
    requires i <= |s|
    decreases |s| - i, 1
  {
    if i == |s| then [] else LineEdit(s, i) + LaterEdits(s, i)
  }

  /** The edits of the lines after the one at i. */
  function LaterEdits(s: string, i: nat): seq<Edit>
    requires i <= |s|
    decreases |s| - i, 0
  {
    var end := LineEnd(s, i);
    if end == |s| then [] else ImportEdits(s, end + 1)
  }

  /** An import match is one whole line. */
  lemma {:induction false} MatchIsLine(s: string, i: nat)
    requires i <= |s| && ImportMatch(s, i).Some?
    ensures var end := LineEnd(s, i); ImportMatch(s, i).value == if end < |s| then end + 1 else end
    decreases |s| - i
  {
    if i < |s| && IsBlank(s[i]) {
      MatchIsLine(s, i + 1);
    } else {
      var b := SkipBlanks(s, i + 12);
      var c := if b < |s| && s[b] == '#' then LineEnd(s, b) else b;
      assert forall k :: i <= k < i + 12 ==> s[k] == IMPORT[k - i] && s[k] != '\n';
      assert forall k :: i <= k < c ==> s[k] != '\n';
      LineEndIs(s, i, c);
    }
  }

  lemma {:induction false} LineEndIs(s: string, i: nat, c: nat)
    requires i <= c <= |s| && (forall k :: i <= k < c ==> s[k] != '\n') && (c < |s| ==> s[c] == '\n')
    ensures LineEnd(s, i) == c
    decreases c - i
  {
    if i < c { LineEndIs(s, i + 1, c); }
  }

  /** An edit made from an import line. */
  predicate IsImportEdit(s: string, e: Edit) {
    e.start < |s| && AtLineStart(s, e.start) && ImportMatch(s, e.start) == Some(e.end) && e.text == IMPORT_NOTE
  }

  lemma LineEditIff(s: string, i: nat, e: Edit)
    requires i <= |s| && AtLineStart(s, i)
    ensures e in LineEdit(s, i) <==> e.start == i && IsImportEdit(s, e)
  {
  }

  lemma LaterLine(s: string, i: nat, y: nat)
    requires i <= |s| && i < y <= |s| && AtLineStart(s, y)
    ensures LineEnd(s, i) < y
  {
    assert s[y-1] == '\n';
  }

  lemma InConcat(a: seq<Edit>, b: seq<Edit>, e: Edit)
    ensures e in a + b <==> e in a || e in b
  {
  }

  /** Every matching line is edited. */
  lemma {:induction false} ImportLineEdited(s: string, i: nat, e: Edit)
    requires i <= |s| && AtLineStart(s, i) && i <= e.start && IsImportEdit(s, e)
    ensures e in ImportEdits(s, i)
    decreases |s| - i
  {
    if i == e.start {
      LineEditIff(s, i, e);
    } else {
      LaterLine(s, i, e.start);
      ImportLineEdited(s, LineEnd(s, i) + 1, e);
    }
  }

  /** Nothing else is edited. */
  lemma {:induction false} ImportEditIsLine(s: string, i: nat, e: Edit)
    requires i <= |s| && AtLineStart(s, i) && e in ImportEdits(s, i)
    ensures i <= e.start && IsImportEdit(s, e)
    decreases |s| - i
  {
    InConcat(LineEdit(s, i), LaterEdits(s, i), e);
    if e in LineEdit(s, i) {
      LineEditIff(s, i, e);
    } else {
      ImportEditIsLine(s, LineEnd(s, i) + 1, e);
    }
  }

  /** Exactly the matching lines are edited. */
  lemma ImportEditIff(s: string, e: Edit)
    ensures e in ImportEdits(s, 0) <==> IsImportEdit(s, e)
  {
    if e in ImportEdits(s, 0) { ImportEditIsLine(s, 0, e); }
    if IsImportEdit(s, e) { ImportLineEdited(s, 0, e); }
  }

  predicate Ascending(es: seq<Edit>) {
    forall j, k :: 0 <= j < k < |es| ==> es[j].end <= es[k].start
  }

  lemma AscendingCons(head: seq<Edit>, rest: seq<Edit>, m: nat)
    requires |head| <= 1 && Ascending(rest)
    requires forall e :: e in head ==> e.end <= m
    requires forall e :: e in rest ==> m <= e.start
    ensures Ascending(head + rest)
  {
    assert forall k :: 0 <= k < |rest| ==> rest[k] in rest;
    assert forall k :: 0 <= k < |head| ==> head[k] in head;
  }

  /** Import edits come in order and never overlap. */
  lemma {:induction false} ImportEditsAscend(s: string, i: nat)
    requires i <= |s| && AtLineStart(s, i)
    ensures Ascending(ImportEdits(s, i))
    decreases |s| - i
  {
    if i < |s| {
      var end := LineEnd(s, i);
      if end < |s| {
        ImportEditsAscend(s, end + 1);
        LineEditEnds(s, i);
        forall e | e in LaterEdits(s, i) ensures end + 1 <= e.start {
          ImportEditIsLine(s, end + 1, e);
        }
        AscendingCons(LineEdit(s, i), LaterEdits(s, i), end + 1);
      }
    }
  }

  lemma LineEditEnds(s: string, i: nat)
    requires i <= |s| && LineEnd(s, i) < |s|
    ensures |LineEdit(s, i)| <= 1 && forall e :: e in LineEdit(s, i) ==> e.end == LineEnd(s, i) + 1
  {
    if ImportMatch(s, i).Some? { MatchIsLine(s, i); }
  }

  // ---------------------------------------------------------------- import lines as the lexer sees them

  /** A position at the start of a line is a cut or lies inside a literal. */
  lemma {:induction false} LineStartCut(s: string, i: nat, y: nat)
    requires i <= y <= |s| && AtLineStart(s, y) && Cut(s, 0, i) && Scan(s, i).Some?
    ensures Cut(s, i, y) || InsideLiteral(s, y)
    decreases |s| - i
  {
    hide Unterminated, OpenLen, ClosesAt;
    if i < y {
      var p := First(s, i).value;
      if i + p.Len() <= y {
        NextCut(s, i, p, i + p.Len());
        LineStartCut(s, i + p.Len(), y);
      } else {
        assert s[y-1] == '\n';
        if p.Quoted? { assert LiteralAround(s, i, p.n, y); }
      }
    }
  }

  lemma {:induction false} BlanksCut(s: string, i: nat)
    requires i <= |s|
    ensures Cut(s, i, SkipBlanks(s, i))
    decreases |s| - i
  {
    if i < |s| && IsBlank(s[i]) {
      BlanksCut(s, i + 1);
      FirstIs(s, i, Blank);
    }
  }

  lemma CutAppend(s: string, i: nat, j: nat, k: nat)
    requires i <= |s| && Cut(s, i, j) && Cut(s, j, k)
    ensures Cut(s, i, k)
  {
    CutBounds(s, i, j);
    CutBounds(s, j, k);
    CutSuffix(s, i, j, k);
  }

  lemma PieceCut(s: string, i: nat, p: Piece, j: nat)
    requires i < |s| && Reads(s, i, p) && j == i + p.Len()
    ensures Cut(s, i, j)
  {
    FirstIs(s, i, p);
    assert Cut(s, j, j);
  }

  /** `import`, one space and `rospy` are three pieces. */
  lemma ImportWords(s: string, a: nat)
    requires TextAt(s, a, IMPORT)
    requires a + 12 < |s| ==> !IsNameChar(s[a+12])
    ensures Cut(s, a, a + 12)
  {
    forall k | 0 <= k < 12 ensures s[a+k] == IMPORT[k] { assert IMPORT[(a+k) - a] == IMPORT[k]; }
    PieceCut(s, a, Word(6), a + 6);
    PieceCut(s, a + 6, Blank, a + 7);
    PieceCut(s, a + 7, Word(5), a + 12);
    CutAppend(s, a, a + 6, a + 7);
    CutAppend(s, a, a + 7, a + 12);
  }

  /** What follows the words of a matched line: blanks, a comment, the line break. */
  lemma LineTailCut(s: string, b: nat, c: nat, m: nat)
    requires b <= |s| && c == (if b < |s| && s[b] == '#' then LineEnd(s, b) else b)
    requires (c == |s| && m == c) || (c < |s| && s[c] == '\n' && m == c + 1)
    ensures Cut(s, b, m)
  {
    if b < c {
      PieceCut(s, b, Comment(c - b), c);
    }
    if c < m {
      PieceCut(s, c, Blank, m);
    }
    CutAppend(s, b, c, m);
  }

  /** A matched line that starts at a cut ends at a cut. */
  lemma {:induction false} ImportLineCut(s: string, i: nat)
    requires i <= |s| && ImportMatch(s, i).Some?
    ensures Cut(s, i, ImportMatch(s, i).value)
    decreases |s| - i
  {
    var m := ImportMatch(s, i).value;
    if i < |s| && IsBlank(s[i]) {
      ImportLineCut(s, i + 1);
      PieceCut(s, i, Blank, i + 1);
      CutAppend(s, i, i + 1, m);
    } else {
      var b := SkipBlanks(s, i + 12);
      var c := if b < |s| && s[b] == '#' then LineEnd(s, b) else b;
      ImportWords(s, i);
      BlanksCut(s, i + 12);
      LineTailCut(s, b, c, m);
      CutAppend(s, i, i + 12, b);
      CutAppend(s, i, b, m);
    }
  }
}
