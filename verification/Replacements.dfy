/**
 * The texts that edits insert (pkg/migration/migration.go:162, 164-177, 180, 204, 207-208),
 * with what they lex to. Each is a self-contained run of pieces.
 */
module Replacements {
  import opened Outcomes
  import opened Lexer
  import opened Grammar
  import opened Edits
  import opened Relexing
  import opened Imports

  /** The helper that stands in for a rospy function, as the mapping table names it. */
  function Helper(name: string): Option<string> {
    if name == "init_node" then Some("_rosplus_init")
    else if name == "Publisher" then Some("_rosplus_publisher")
    else if name == "Subscriber" then Some("_rosplus_subscriber")
    else if name == "Rate" then Some("_RosPlusRate")
    else if name == "Duration" then Some("_RosPlusDuration")
    else if name == "Timer" then Some("_rosplus_timer")
    else if name == "Service" then Some("_rosplus_service")
    else if name == "get_param" then Some("_rosplus_get_param")
    else if name == "set_param" then Some("_rosplus_set_param")
    else if name == "has_param" then Some("_rosplus_has_param")
    else if name == "sleep" then Some("_rosplus_sleep")
    else if name == "spin" then Some("_rosplus_spin")
    else None
  }

  /** The rclpy severity of a rospy log function. */
  function LogLevel(name: string): Option<string> {
    if name == "loginfo" then Some("info")
    else if name == "logwarn" then Some("warning")
    else if name == "logerr" then Some("error")
    else if name == "logdebug" then Some("debug")
    else None
  }

  const LOG_HELPER := "_rosplus_log"

  function HelperText(helper: string): string { helper + "(" }

  function LogText(level: string): string { LOG_HELPER + "('" + level + "', " }

  const SHUTDOWN_TEXT := "(not _rclpy.ok())"

  predicate IsName(w: string) {
    w != [] && IsNameStart(w[0]) && forall k :: 0 <= k < |w| ==> IsNameChar(w[k])
  }

  predicate IsLower(w: string) {
    w != [] && forall k :: 0 <= k < |w| ==> 'a' <= w[k] <= 'z'
  }

  lemma LongHelperIsName(w: string)
    requires w == "_rosplus_init" || w == "_rosplus_publisher" || w == "_rosplus_subscriber" || w == "_RosPlusRate"
          || w == "_RosPlusDuration" || w == "_rosplus_timer"
    ensures IsName(w) && w != "rospy"
  {
  }

  lemma ShortHelperIsName(w: string)
    requires w == "_rosplus_service" || w == "_rosplus_get_param" || w == "_rosplus_set_param"
          || w == "_rosplus_has_param" || w == "_rosplus_sleep" || w == "_rosplus_spin"
    ensures IsName(w) && w != "rospy"
  {
  }

  lemma HelperIsName(name: string)
    ensures Helper(name).Some? ==> IsName(Helper(name).value) && Helper(name).value != "rospy"
  {
    if name == "init_node" || name == "Publisher" || name == "Subscriber" || name == "Rate" || name == "Duration" || name == "Timer" {
      LongHelperIsName(Helper(name).value);
    } else if Helper(name).Some? {
      ShortHelperIsName(Helper(name).value);
    }
  }

  lemma LogLevelIsLower(name: string)
    ensures LogLevel(name).Some? ==> IsLower(LogLevel(name).value)
  {
  }

  /** A text whose last piece is one mark or blank does not depend on what follows. */
  lemma ClosedText(text: string, last: nat, p: Piece)
    requires Scan(text, 0).Some? && |text| == last + 1 && Cut(text, 0, last)
    requires First(text, last) == Some(p) && (p.Blank? || p.Other?)
    ensures SelfContained(text)
  {
    forall t: string, o: nat | Same(text, 0, t, o, |text|)
      ensures Lexemes(t, o) == Prepend(TextLexemes(text), Lexemes(t, o + |text|))
    {
      ClosedFrom(text, last, p, 0, t, o);
    }
  }

  lemma {:induction false} ClosedFrom(text: string, last: nat, p: Piece, i: nat, t: string, o: nat)
    requires |text| == last + 1 && Cut(text, i, last) && Scan(text, i).Some? && i <= last
    requires First(text, last) == Some(p) && (p.Blank? || p.Other?)
    requires Same(text, 0, t, o, |text|)
    ensures Lexemes(t, o + i) == Prepend(Erase(Scan(text, i).value), Lexemes(t, o + |text|))
    decreases last - i
  {
    hide Reads;
    var q := First(text, i).value;
    var j := i + q.Len();
    SamePart(text, i, q.Len(), t, o);
    StopsAgain(text, i, q, t, o);
    RecognisedAgain(text, i, q, t, o + i, o + j);
    if i < last {
      CutBounds(text, j, last);
      ClosedFrom(text, last, p, j, t, o);
    } else {
      PrependNothing(Lexemes(t, o + |text|));
    }
    JoinErased(text, i, q, j, Lexemes(t, o + |text|));
  }

  lemma JoinErased(text: string, i: nat, q: Piece, j: nat, rest: Option<seq<Lexeme>>)
    requires i < |text| && First(text, i) == Some(q) && j == i + q.Len() && Scan(text, i).Some?
    ensures Scan(text, j).Some?
    ensures Prepend(Erase(Emit(text, i, q)), Prepend(Erase(Scan(text, j).value), rest))
            == Prepend(Erase(Scan(text, i).value), rest)
  {
    var more := Scan(text, j).value;
    EraseConcat(Emit(text, i, q), more);
    PrependConcat(Erase(Emit(text, i, q)), Erase(more), rest);
  }

  lemma SamePart(text: string, i: nat, n: nat, t: string, o: nat)
    requires Same(text, 0, t, o, |text|) && i + n <= |text|
    ensures Same(text, i, t, o + i, n)
  {
  }

  lemma StopsAgain(text: string, i: nat, q: Piece, t: string, o: nat)
    requires i < |text| && Reads(text, i, q) && i + q.Len() <= |text| && Same(text, 0, t, o, |text|)
    requires i + q.Len() < |text| || q.Blank? || q.Other?
    ensures Stops(q, text[i], t, o + i + q.Len())
  {
    var j := i + q.Len();
    if j < |text| {
      SameAt(text, 0, t, o, |text|, j);
      if q.Quoted? { LiteralEnds(text, i, q.n); }
    }
  }

  // ---------------------------------------------------------------- what each text lexes to

  /** From position i on, `s` lexes to `ls` and its last byte starts a piece. */
  ghost predicate Tail(s: string, i: nat, ls: seq<Lexeme>) {
    i < |s| && Lexemes(s, i) == Some(ls) && Cut(s, i, |s| - 1)
  }

  predicate MarkChar(c: char) {
    c != '#' && !IsQuote(c) && !IsSpace(c) && !IsNameStart(c)
  }

  lemma LastMark(s: string, m: string)
    requires s != [] && |m| == 1 && s[|s|-1] == m[0] && MarkChar(m[0])
    ensures Tail(s, |s| - 1, [Lexeme(Mark, m)]) && First(s, |s| - 1) == Some(Other)
  {
    var n := |s| - 1;
    FirstIs(s, n, Other);
    LexemesStep(s, n, Other);
    assert Scan(s, n + 1) == Some([]) && s[n..n+1] == m;
    assert Erase(Emit(s, n, Other)) == [Lexeme(Mark, m)];
    assert [Lexeme(Mark, m)] + [] == [Lexeme(Mark, m)];
  }

  lemma LastBlank(s: string)
    requires s != [] && IsSpace(s[|s|-1])
    ensures Tail(s, |s| - 1, []) && First(s, |s| - 1) == Some(Blank)
  {
    var n := |s| - 1;
    FirstIs(s, n, Blank);
    LexemesStep(s, n, Blank);
    assert Scan(s, n + 1) == Some([]);
  }

  /** Prepends one piece to a known tail; `all` is the resulting token list. */
  lemma PieceBefore(s: string, i: nat, p: Piece, own: seq<Lexeme>, ls: seq<Lexeme>, all: seq<Lexeme>)
    requires i < |s| && Reads(s, i, p) && Tail(s, i + p.Len(), ls) && Erase(Emit(s, i, p)) == own
    requires all == own + ls
    ensures Tail(s, i, all)
  {
    LexemesStep(s, i, p);
    PieceCut(s, i, p, i + p.Len());
    CutAppend(s, i, i + p.Len(), |s| - 1);
  }

  lemma WordBefore(s: string, i: nat, w: string, ls: seq<Lexeme>, all: seq<Lexeme>)
    requires i + |w| < |s| && s[i..i+|w|] == w && IsName(w) && !IsNameChar(s[i+|w|])
    requires Tail(s, i + |w|, ls) && all == [Lexeme(Name, w)] + ls
    ensures Tail(s, i, all)
  {
    forall k | i <= k < i + |w| ensures s[k] == w[k - i] { assert s[k] == s[i..i+|w|][k-i]; }
    assert Erase(Emit(s, i, Word(|w|))) == [Lexeme(Name, w)];
    PieceBefore(s, i, Word(|w|), [Lexeme(Name, w)], ls, all);
  }

  lemma TailCloses(s: string, ls: seq<Lexeme>)
    requires Tail(s, 0, ls) && (First(s, |s| - 1) == Some(Blank) || First(s, |s| - 1) == Some(Other))
    ensures SelfContained(s) && TextLexemes(s) == ls
  {
    ClosedText(s, |s| - 1, First(s, |s| - 1).value);
  }

  /** `text` lexes to `ls` wherever it stands, whatever follows. */
  ghost predicate Becomes(text: string, ls: seq<Lexeme>) {
    SelfContained(text) && TextLexemes(text) == ls
  }

  lemma JoinedAt(a: string, la: seq<Lexeme>, b: string, lb: seq<Lexeme>, t: string, o: nat)
    requires Becomes(a, la) && Becomes(b, lb) && Same(a + b, 0, t, o, |a + b|)
    ensures Lexemes(t, o) == Prepend(la + lb, Lexemes(t, o + |a| + |b|))
  {
    SameHalves(a, b, t, o);
    TextLexed(a, t, o);
    TextLexed(b, t, o + |a|);
    PrependConcat(la, lb, Lexemes(t, o + |a| + |b|));
  }

  lemma SameHalves(a: string, b: string, t: string, o: nat)
    requires Same(a + b, 0, t, o, |a + b|)
    ensures Same(a, 0, t, o, |a|) && Same(b, 0, t, o + |a|, |b|)
  {
    forall x | o + |a| <= x < o + |a| + |b| ensures t[x] == b[x - (o + |a|)] {
      assert t[x] == (a + b)[x - o];
    }
  }

  /** Self-contained texts can be put one after the other. */
  lemma Joined(a: string, la: seq<Lexeme>, b: string, lb: seq<Lexeme>, ab: string, lab: seq<Lexeme>)
    requires Becomes(a, la) && Becomes(b, lb) && ab == a + b && lab == la + lb
    ensures Becomes(ab, lab)
  {
    JoinedAt(a, la, b, lb, ab, 0);
    assert Scan(ab, |ab|) == Some([]) && lab + [] == lab;
    forall t: string, o: nat | Same(ab, 0, t, o, |ab|)
      ensures Lexemes(t, o) == Prepend(TextLexemes(ab), Lexemes(t, o + |ab|))
    {
      JoinedAt(a, la, b, lb, t, o);
    }
  }

  /** One mark. */
  lemma MarkText(m: string)
    requires |m| == 1 && MarkChar(m[0])
    ensures Becomes(m, [Lexeme(Mark, m)])
  {
    LastMark(m, m);
    TailCloses(m, [Lexeme(Mark, m)]);
  }

  /** One blank. */
  lemma BlankText(m: string)
    requires |m| == 1 && IsSpace(m[0])
    ensures Becomes(m, [])
  {
    LastBlank(m);
    TailCloses(m, []);
  }

  /** A name and the mark after it. */
  lemma WordMark(w: string, m: string)
    requires IsName(w) && |m| == 1 && MarkChar(m[0]) && !IsNameChar(m[0])
    ensures Becomes(w + m, [Lexeme(Name, w), Lexeme(Mark, m)])
  {
    var t, n := w + m, |w|;
    assert t[0..n] == w;
    LastMark(t, m);
    WordBefore(t, 0, w, [Lexeme(Mark, m)], [Lexeme(Name, w), Lexeme(Mark, m)]);
    TailCloses(t, [Lexeme(Name, w), Lexeme(Mark, m)]);
  }

  /** A name and the blank after it. */
  lemma WordBlank(w: string, m: string)
    requires IsName(w) && |m| == 1 && IsSpace(m[0])
    ensures Becomes(w + m, [Lexeme(Name, w)])
  {
    var t, n := w + m, |w|;
    assert t[0..n] == w;
    LastBlank(t);
    WordBefore(t, 0, w, [], [Lexeme(Name, w)]);
    TailCloses(t, [Lexeme(Name, w)]);
  }

  /** The import note is a comment line: it adds no token. */
  lemma NoteText()
    ensures Becomes(IMPORT_NOTE, [])
  {
    var t := IMPORT_NOTE;
    LastBlank(t);
    PieceBefore(t, 0, Comment(|t| - 1), [], [], []);
    TailCloses(t, []);
  }

  /** A helper's call head: its name and one parenthesis. */
  lemma HelperLexes(w: string)
    requires IsName(w)
    ensures Becomes(HelperText(w), [Lexeme(Name, w), Lexeme(Mark, "(")])
  {
    WordMark(w, "(");
  }

  /** `(not n.` for a name n. */
  lemma NotHead(n: string, not: string, text: string)
    requires IsName(n) && IsName(not) && text == "(" + (not + " ") + (n + ".")
    ensures Becomes(text, [Lexeme(Mark, "("), Lexeme(Name, not), Lexeme(Name, n), Lexeme(Mark, ".")])
  {
    var t1, l1 := "(", [Lexeme(Mark, "(")];
    MarkText(t1);
    WordBlank(not, " ");
    var t2, l2 := t1 + (not + " "), l1 + [Lexeme(Name, not)];
    Joined(t1, l1, not + " ", [Lexeme(Name, not)], t2, l2);
    WordMark(n, ".");
    Joined(t2, l2, n + ".", [Lexeme(Name, n), Lexeme(Mark, ".")], text, l2 + [Lexeme(Name, n), Lexeme(Mark, ".")]);
  }

  /** `f())` for a name f. */
  lemma NotTail(f: string, text: string)
    requires IsName(f) && text == f + "(" + ")" + ")"
    ensures Becomes(text, [Lexeme(Name, f), Lexeme(Mark, "("), Lexeme(Mark, ")"), Lexeme(Mark, ")")])
  {
    var l := [Lexeme(Name, f), Lexeme(Mark, "(")];
    WordMark(f, "(");
    MarkText(")");
    Joined(f + "(", l, ")", [Lexeme(Mark, ")")], f + "(" + ")", l + [Lexeme(Mark, ")")]);
    Joined(f + "(" + ")", l + [Lexeme(Mark, ")")], ")", [Lexeme(Mark, ")")], text, l + [Lexeme(Mark, ")")] + [Lexeme(Mark, ")")]);
  }

  /** `(not n.f())` for names n and f: nine pieces. */
  lemma NotCall(n: string, f: string, not: string, text: string)
    requires IsName(n) && IsName(f) && IsName(not)
    requires text == "(" + (not + " ") + (n + ".") + (f + "(" + ")" + ")")
    ensures Becomes(text, [Lexeme(Mark, "("), Lexeme(Name, not), Lexeme(Name, n), Lexeme(Mark, "."),
                           Lexeme(Name, f), Lexeme(Mark, "("), Lexeme(Mark, ")"), Lexeme(Mark, ")")])
  {
    var a, b := "(" + (not + " ") + (n + "."), f + "(" + ")" + ")";
    NotHead(n, not, a);
    NotTail(f, b);
    var la := [Lexeme(Mark, "("), Lexeme(Name, not), Lexeme(Name, n), Lexeme(Mark, ".")];
    var lb := [Lexeme(Name, f), Lexeme(Mark, "("), Lexeme(Mark, ")"), Lexeme(Mark, ")")];
    Joined(a, la, b, lb, text, la + lb);
  }

  ghost function ShutdownLexemes(): seq<Lexeme> {
    [Lexeme(Mark, "("), Lexeme(Name, "not"), Lexeme(Name, "_rclpy"), Lexeme(Mark, "."),
     Lexeme(Name, "ok"), Lexeme(Mark, "("), Lexeme(Mark, ")"), Lexeme(Mark, ")")]
  }

  /** The shutdown test: nine pieces, none of them a rospy name. */
  lemma ShutdownLexes()
    ensures Becomes(SHUTDOWN_TEXT, ShutdownLexemes())
  {
    assert SHUTDOWN_TEXT == "(" + ("not" + " ") + ("_rclpy" + ".") + ("ok" + "(" + ")" + ")");
    NotCall("_rclpy", "ok", "not", SHUTDOWN_TEXT);
  }

  /** A lower-case word in single quotes and the comma after it. */
  lemma LevelText(level: string, lit: string)
    requires IsLower(level) && lit == "'" + level + "'"
    ensures Becomes(lit + ",", [Lexeme(Literal, lit), Lexeme(Mark, ",")])
  {
    var t := lit + ",";
    var n := |lit|;
    assert t[0] == '\'' && t[n-1] == '\'' && t[n] == ',' && t[0..n] == lit;
    assert forall k :: 0 < k < n - 1 ==> t[k] == level[k-1];
    assert !Escaped(t, 1, n - 1) by { assert t[n-2] != '\\'; }
    forall k | 0 <= k < n - 1 ensures !ClosesAt(t, 0, k) {
      assert 0 < k ==> t[k] != '\'';
    }
    assert OpenLen(t, 0) == 1 && DelimAt(t, n - 1, '\'', 1);
    LastMark(t, ",");
    assert Erase(Emit(t, 0, Quoted(n))) == [Lexeme(Literal, lit)];
    PieceBefore(t, 0, Quoted(n), [Lexeme(Literal, lit)], [Lexeme(Mark, ",")],
                [Lexeme(Literal, lit), Lexeme(Mark, ",")]);
    TailCloses(t, [Lexeme(Literal, lit), Lexeme(Mark, ",")]);
  }

  /** A name, a parenthesis, a literal, a comma and a blank. */
  lemma LogCall(w: string, level: string, lit: string, text: string)
    requires IsName(w) && IsLower(level) && lit == "'" + level + "'"
    requires text == (w + "(") + (lit + ",") + " "
    ensures Becomes(text, [Lexeme(Name, w), Lexeme(Mark, "("), Lexeme(Literal, lit), Lexeme(Mark, ",")])
  {
    WordMark(w, "(");
    LevelText(level, lit);
    BlankText(" ");
    var t, l := (w + "(") + (lit + ","), [Lexeme(Name, w), Lexeme(Mark, "("), Lexeme(Literal, lit), Lexeme(Mark, ",")];
    Joined(w + "(", [Lexeme(Name, w), Lexeme(Mark, "(")], lit + ",", [Lexeme(Literal, lit), Lexeme(Mark, ",")], t, l);
    Joined(t, l, " ", [], text, l);
  }

  ghost function LogLexemes(level: string): seq<Lexeme> {
    [Lexeme(Name, LOG_HELPER), Lexeme(Mark, "("), Lexeme(Literal, "'" + level + "'"), Lexeme(Mark, ",")]
  }

  /** The log call head: the helper, a parenthesis, the severity literal and a comma. */
  lemma LogLexes(level: string)
    requires IsLower(level)
    ensures Becomes(LogText(level), LogLexemes(level))
  {
    var lit := "'" + level + "'";
    assert LogText(level) == (LOG_HELPER + "(") + (lit + ",") + " ";
    LogCall(LOG_HELPER, level, lit, LogText(level));
  }
}
