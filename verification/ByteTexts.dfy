/**
 * The byte-level tests of the migration pass in terms of what they stand for
 * (pkg/migration/migration.go:43, 51-105, 203): the character classes, the white space of a
 * UTF-8 text, and the import expression as a regular expression.
 */
module ByteTexts {
  import opened Outcomes
  import opened Lexer
  import opened Edits
  import opened Imports
  import opened Transformer

  // ---------------------------------------------------------------- character classes and the pieces made of them

  predicate NameBegins(c: char) { 65 <= c as int <= 90 || 97 <= c as int <= 122 || c as int == 95 }

  predicate NameGoesOn(c: char) { NameBegins(c) || 48 <= c as int <= 57 }

  predicate White(c: char) { c as int in {9, 10, 11, 12, 13, 32, 0x85, 0xA0} }

  /** The classes by code. */
  lemma ByteClasses(c: char)
    ensures IsSpace(c) <==> White(c)
    ensures IsNameStart(c) <==> NameBegins(c)
    ensures IsNameChar(c) <==> NameGoesOn(c)
    ensures IsQuote(c) <==> c as int == 34 || c as int == 39
  {
  }

  lemma PieceErased(t: string, i: nat, p: Piece)
    requires i + p.Len() <= |t|
    ensures p.Word? ==> Erase(Emit(t, i, p)) == [Lexeme(Name, t[i..i+p.n])]
    ensures p.Other? ==> Erase(Emit(t, i, p)) == [Lexeme(Mark, [t[i]])]
    ensures p.Blank? || p.Comment? ==> Erase(Emit(t, i, p)) == []
  {
    if p.Other? { assert t[i..i+1] == [t[i]]; }
  }

  /** A name is one lexeme, up to the first byte that does not continue it. */
  lemma NameLexes(t: string, i: nat, n: nat)
    requires 0 < n && i + n <= |t| && NameBegins(t[i]) && forall k :: i <= k < i + n ==> NameGoesOn(t[k])
    requires i + n < |t| ==> !NameGoesOn(t[i+n])
    ensures Lexemes(t, i) == Prepend([Lexeme(Name, t[i..i+n])], Lexemes(t, i + n))
  {
    assert Reads(t, i, Word(n));
    hide Reads, Lexemes;
    LexemesStep(t, i, Word(n));
    PieceErased(t, i, Word(n));
  }

  /** A comment, up to the line's end, and white space are nothing. */
  lemma NothingLexes(t: string, i: nat, n: nat)
    requires 0 < n && i + n <= |t|
    requires || (t[i] as int == 35 && (forall k :: i <= k < i + n ==> t[k] as int != 10) && (i + n < |t| ==> t[i+n] as int == 10))
             || (n == 1 && White(t[i]))
    ensures Lexemes(t, i) == Lexemes(t, i + n)
  {
    var p := if White(t[i]) then Blank else Comment(n);
    assert Reads(t, i, p);
    hide Reads, Lexemes;
    LexemesStep(t, i, p);
    PieceErased(t, i, p);
    PrependNothing(Lexemes(t, i + n));
  }

  /** Any other byte, unless it is a quote, is a mark of its own. */
  lemma MarkLexes(t: string, i: nat)
    requires i < |t| && !NameBegins(t[i]) && !White(t[i]) && t[i] as int != 34 && t[i] as int != 35 && t[i] as int != 39
    ensures Lexemes(t, i) == Prepend([Lexeme(Mark, [t[i]])], Lexemes(t, i + 1))
  {
    assert Reads(t, i, Other);
    hide Reads, Lexemes;
    LexemesStep(t, i, Other);
    PieceErased(t, i, Other);
  }

  // ---------------------------------------------------------------- white space in UTF-8

  /** unicode.IsSpace of a rune. */
  predicate WhiteRune(r: nat) {
    || 9 <= r <= 13 || r == 0x20 || r == 0x85 || r == 0xA0 || r == 0x1680 || 0x2000 <= r <= 0x200A
    || r == 0x2028 || r == 0x2029 || r == 0x202F || r == 0x205F || r == 0x3000
  }

  function Byte(b: nat): char
    requires b < 256
  {
    b as char
  }

  /** The UTF-8 encoding of a rune below 0x10000. */
  function Utf8(r: nat): string
    requires r < 0x1_0000
  {
    if r < 0x80 then [Byte(r)]
    else if r < 0x800 then [Byte(0xC0 + r / 64), Byte(0x80 + r % 64)]
    else [Byte(0xE0 + r / 4096), Byte(0x80 + r / 64 % 64), Byte(0x80 + r % 64)]
  }

  predicate WhiteRunes(rs: seq<nat>) { forall i :: 0 <= i < |rs| ==> WhiteRune(rs[i]) }

  function Encoded(rs: seq<nat>): string
    requires WhiteRunes(rs)
  {
    if rs == [] then [] else Utf8(rs[0]) + Encoded(rs[1..])
  }

  lemma BlankAfter(r: nat, rest: string)
    requires WhiteRune(r)
    ensures BlankRunes(Utf8(r) + rest) <==> BlankRunes(rest)
  {
    var s := Utf8(r) + rest;
    assert s[|Utf8(r)|..] == rest;
  }

  lemma {:induction false} EncodedIsBlank(rs: seq<nat>)
    requires WhiteRunes(rs)
    ensures BlankRunes(Encoded(rs))
  {
    if rs != [] {
      EncodedIsBlank(rs[1..]);
      BlankAfter(rs[0], Encoded(rs[1..]));
    }
  }

  /** The rune that a blank text begins with. */
  lemma FirstRune(s: string) returns (r: nat)
    requires s != [] && BlankRunes(s)
    ensures WhiteRune(r) && |Utf8(r)| <= |s| && s == Utf8(r) + s[|Utf8(r)|..]
  {
    var b := s[0] as int;
    if 9 <= b <= 13 || b == 32 {
      r := b;
    } else if b == 0xC2 {
      r := s[1] as int;
    } else if b == 0xE1 {
      r := 0x1680;
    } else if b == 0xE2 {
      r := if s[1] as int == 0x80 then 0x2000 + (s[2] as int - 0x80) else 0x205F;
    } else {
      r := 0x3000;
    }
    var u := Utf8(r);
    assert forall k :: 0 <= k < |u| ==> s[k] == u[k];
  }

  lemma {:induction false} BlankIsEncoded(s: string) returns (rs: seq<nat>)
    requires BlankRunes(s)
    ensures WhiteRunes(rs) && Encoded(rs) == s
    decreases |s|
  {
    rs := [];
    if s != [] {
      var r := FirstRune(s);
      BlankAfter(r, s[|Utf8(r)|..]);
      var rest := BlankIsEncoded(s[|Utf8(r)|..]);
      rs := [r] + rest;
      assert rs[1..] == rest;
    }
  }

  /** The blank-argument test: a text is blank exactly if it is the UTF-8 encoding of white space. */
  lemma BlankRunesIff(s: string)
    ensures BlankRunes(s) <==> exists rs: seq<nat> :: WhiteRunes(rs) && Encoded(rs) == s
  {
    if BlankRunes(s) { var rs := BlankIsEncoded(s); }
    if rs: seq<nat> :| WhiteRunes(rs) && Encoded(rs) == s { EncodedIsBlank(rs); }
  }

  // ---------------------------------------------------------------- the import expression

  predicate Blanks(s: string) { forall k :: 0 <= k < |s| ==> s[k] == ' ' || s[k] == '\t' }

  predicate CommentText(s: string) { s == [] || (s[0] == '#' && forall k :: 0 <= k < |s| ==> s[k] != '\n') }

  /** What the expression matches: blanks, the two words, blanks, a comment or none, and the line's end. */
  ghost predicate ImportForm(line: string, last: bool) {
    exists pre, mid, comment, end ::
      && line == pre + "import rospy" + mid + comment + end
      && Blanks(pre) && Blanks(mid) && CommentText(comment) && (end == "\n" || (end == "" && last))
  }

  /** The same by positions. */
  predicate Parts(s: string, i: nat, a: nat, b: nat, c: nat, e: nat) {
    && i <= a && a + 12 <= b <= c <= e <= |s|
    && Blanks(s[i..a]) && s[a..a + 12] == "import rospy" && Blanks(s[a + 12..b]) && CommentText(s[b..c])
    && (e == c == |s| || (e == c + 1 && s[c] == '\n'))
  }

  lemma TailIff(s: string, k: nat, b: nat, c: nat, e: nat)
    requires k <= b <= c <= e <= |s| && Blanks(s[k..b]) && CommentText(s[b..c])
    requires e == c == |s| || (e == c + 1 && s[c] == '\n')
    ensures TailMatch(s, k) == Some(e)
  {
    assert forall x :: k <= x < b ==> s[x] == s[k..b][x - k];
    assert forall x :: b <= x < c ==> s[x] == s[b..c][x - b];
    SkipIs(s, k, b);
    if b < c { LineEndIs(s, b, c); }
  }

  lemma {:induction false} SkipIs(s: string, k: nat, b: nat)
    requires k <= b <= |s| && (forall x :: k <= x < b ==> IsBlank(s[x])) && (b < |s| ==> !IsBlank(s[b]))
    ensures SkipBlanks(s, k) == b
    decreases b - k
  {
    if k < b { SkipIs(s, k + 1, b); }
  }

  lemma {:induction false} PartsMatch(s: string, i: nat, a: nat, b: nat, c: nat, e: nat)
    requires Parts(s, i, a, b, c, e)
    ensures ImportMatch(s, i) == Some(e)
    decreases a - i
  {
    if i < a {
      assert s[i] == s[i..a][0];
      assert Blanks(s[i + 1..a]) by { assert s[i + 1..a] == s[i..a][1..]; }
      PartsMatch(s, i + 1, a, b, c, e);
    } else {
      assert forall x :: a <= x < a + 12 ==> s[x] == s[a..a + 12][x - a];
      TailIff(s, a + 12, b, c, e);
    }
  }

  lemma {:induction false} MatchParts(s: string, i: nat) returns (a: nat, b: nat, c: nat)
    requires i <= |s| && ImportMatch(s, i).Some?
    ensures Parts(s, i, a, b, c, ImportMatch(s, i).value)
    decreases |s| - i
  {
    if i < |s| && IsBlank(s[i]) {
      a, b, c := MatchParts(s, i + 1);
      assert s[i..a] == [s[i]] + s[i + 1..a];
    } else {
      a := i;
      b := SkipBlanks(s, i + 12);
      c := if b < |s| && s[b] == '#' then LineEnd(s, b) else b;
      assert s[a..a + 12] == IMPORT;
    }
  }

  /** The function finds exactly the matches of the expression, and their only end. */
  lemma ImportMatchIff(s: string, i: nat, e: nat)
    requires i <= |s|
    ensures ImportMatch(s, i) == Some(e) <==> i <= e <= |s| && ImportForm(s[i..e], e == |s|)
  {
    hide ImportForm, ImportMatch;
    if ImportMatch(s, i) == Some(e) { MatchHasForm(s, i, e); }
    if i <= e <= |s| && ImportForm(s[i..e], e == |s|) { FormMatches(s, i, e); }
  }

  /** The edits of the import expression: one for each line of that form, and no other. */
  lemma ImportEditsAre(s: string, e: Edit)
    ensures e in ImportEdits(s, 0) <==>
      && e.start < |s| && (e.start == 0 || s[e.start - 1] as int == 10)
      && e.start <= e.end <= |s| && ImportForm(s[e.start..e.end], e.end == |s|)
      && e.text == "# rospy import replaced by ROSPlus helpers\n"
  {
    ImportEditIff(s, e);
    if e.start < |s| { ImportMatchIff(s, e.start, e.end); }
    hide ImportForm, ImportMatch, ImportEdits;
  }

  lemma MatchHasForm(s: string, i: nat, e: nat)
    requires i <= |s| && ImportMatch(s, i) == Some(e)
    ensures i <= e <= |s| && ImportForm(s[i..e], e == |s|)
  {
    hide ImportForm, ImportMatch;
    var a, b, c := MatchParts(s, i);
    PartsForm(s, i, a, b, c, e);
  }

  lemma FormMatches(s: string, i: nat, e: nat)
    requires i <= e <= |s| && ImportForm(s[i..e], e == |s|)
    ensures ImportMatch(s, i) == Some(e)
  {
    hide ImportMatch, Parts, Blanks, CommentText;
    var pre, mid, comment, end :|
      && s[i..e] == pre + "import rospy" + mid + comment + end
      && Blanks(pre) && Blanks(mid) && CommentText(comment) && (end == "\n" || (end == "" && e == |s|));
    FormParts(s, i, e, pre, mid, comment, end);
    PartsMatch(s, i, i + |pre|, i + |pre| + 12 + |mid|, i + |pre| + 12 + |mid| + |comment|, e);
  }

  lemma FiveSlices(s: string, i: nat, a: nat, m: nat, b: nat, c: nat, e: nat)
    requires i <= a <= m <= b <= c <= e <= |s|
    ensures s[i..e] == s[i..a] + s[a..m] + s[m..b] + s[b..c] + s[c..e]
  {
    assert s[i..e] == s[i..c] + s[c..e];
    assert s[i..c] == s[i..b] + s[b..c];
    assert s[i..b] == s[i..m] + s[m..b];
    assert s[i..m] == s[i..a] + s[a..m];
  }

  lemma PartsForm(s: string, i: nat, a: nat, b: nat, c: nat, e: nat)
    requires Parts(s, i, a, b, c, e)
    ensures ImportForm(s[i..e], e == |s|)
  {
    var pre, mid, comment, end := s[i..a], s[a + 12..b], s[b..c], s[c..e];
    FiveSlices(s, i, a, a + 12, b, c, e);
    assert end == "\n" || end == "";
  }

  lemma FormParts(s: string, i: nat, e: nat, pre: string, mid: string, comment: string, end: string)
    requires i <= e <= |s| && s[i..e] == pre + "import rospy" + mid + comment + end
    requires Blanks(pre) && Blanks(mid) && CommentText(comment) && (end == "\n" || (end == "" && e == |s|))
    ensures Parts(s, i, i + |pre|, i + |pre| + 12 + |mid|, i + |pre| + 12 + |mid| + |comment|, e)
  {
    var n, a, b := e - i, |pre|, |pre| + 12 + |mid|;
    var c := b + |comment|;
    SubSlice(s, i, n, 0, a);
    SubSlice(s, i, n, a, a + 12);
    SubSlice(s, i, n, a + 12, b);
    SubSlice(s, i, n, b, c);
    SubSlice(s, i, n, c, n);
    FormSlices(pre, mid, comment, end);
    if end == "\n" { assert s[i + c..i + n][0] == s[i + c]; }
  }

  lemma FormSlices(pre: string, mid: string, comment: string, end: string)
    ensures var u := pre + "import rospy" + mid + comment + end;
      var a, b := |pre|, |pre| + 12 + |mid|;
      var c := b + |comment|;
      && |u| == c + |end| && u[0..a] == pre && u[a..a + 12] == "import rospy" && u[a + 12..b] == mid
      && u[b..c] == comment && u[c..|u|] == end
  {
  }
}
