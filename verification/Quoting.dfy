/**
 * The literal branch of the lexer, from the writer's side (pkg/migration/migration.go:60-86):
 * any text can be quoted, with a backslash before each backslash and each quote, and the
 * lexer gives the quoted text back as one literal, wherever it stands.
 */
module Quoting {
  import opened Outcomes
  import opened Lexer
  import opened Grammar
  import opened Relexing

  function Unit(c: char): string { if c == '\\' || c == '\'' || c == '"' then ['\\', c] else [c] }

  function Escape(w: string): string { if w == [] then [] else Unit(w[0]) + Escape(w[1..]) }

  /** Reading an escaped text back: a byte after a backslash stands for itself. */
  function Unescape(s: string): string {
    if s == [] then []
    else if s[0] == '\\' && |s| > 1 then [s[1]] + Unescape(s[2..])
    else [s[0]] + Unescape(s[1..])
  }

  lemma {:induction false} UnescapeEscape(w: string)
    ensures Unescape(Escape(w)) == w
  {
    if w != [] {
      UnescapeEscape(w[1..]);
      var rest := Escape(w[1..]);
      var s := Unit(w[0]) + rest;
      assert s[|Unit(w[0])|..] == rest;
      assert w == [w[0]] + w[1..];
    }
  }

  /** One quote, or three. */
  function Delimiter(q: char, triple: bool): string { if triple then [q, q, q] else [q] }

  function Quote(w: string, q: char, triple: bool): string { Delimiter(q, triple) + Escape(w) + Delimiter(q, triple) }

  /** In an escaped text exactly the quotes of the original are escaped, and what follows it is not. */
  lemma {:induction false} EscapesEnd(t: string, lo: nat, p: nat, w: string)
    requires lo <= p && p + |Escape(w)| <= |t| && t[p..p + |Escape(w)|] == Escape(w) && !Escaped(t, lo, p)
    ensures !Escaped(t, lo, p + |Escape(w)|)
    ensures forall k :: p <= k < p + |Escape(w)| && IsQuote(t[k]) ==> Escaped(t, lo, k)
    decreases |w|
  {
    if w != [] {
      var unit, rest := Unit(w[0]), Escape(w[1..]);
      var p' := p + |unit|;
      var e := t[p..p + |Escape(w)|];
      assert e == unit + rest;
      assert t[p] == e[0] && (|unit| == 2 ==> t[p+1] == e[1]);
      assert t[p'..p' + |rest|] == rest by { assert t[p'..p' + |rest|] == e[|unit|..]; }
      UnitEnds(t, lo, p, w[0]);
      EscapesEnd(t, lo, p', w[1..]);
    }
  }

  lemma UnitEnds(t: string, lo: nat, p: nat, c: char)
    requires lo <= p && p + |Unit(c)| <= |t| && !Escaped(t, lo, p)
    requires t[p] == Unit(c)[0] && (|Unit(c)| == 2 ==> t[p+1] == Unit(c)[1])
    ensures !Escaped(t, lo, p + |Unit(c)|)
    ensures forall k :: p <= k < p + |Unit(c)| && IsQuote(t[k]) ==> Escaped(t, lo, k)
  {
    if |Unit(c)| == 2 {
      assert Escaped(t, lo, p + 1);
      assert !Escaped(t, lo, p + 2);
    }
  }

  /** An escaped text does not begin with a quote. */
  lemma EscapeBegins(w: string)
    ensures w != [] ==> Escape(w) != [] && !IsQuote(Escape(w)[0])
  {
  }

  lemma Layout(t: string, i: nat, a: string, e: string)
    requires i + 2 * |a| + |e| <= |t| && t[i..i + 2 * |a| + |e|] == a + e + a
    ensures t[i..i + |a|] == a && t[i + |a|..i + |a| + |e|] == e && t[i + |a| + |e|..i + |a| + |e| + |a|] == a
  {
    var n := 2 * |a| + |e|;
    SubSlice(t, i, n, 0, |a|);
    SubSlice(t, i, n, |a|, |a| + |e|);
    SubSlice(t, i, n, |a| + |e|, n);
    Halves(a, e);
  }

  lemma Halves(a: string, e: string)
    ensures var u := a + e + a; u[0..|a|] == a && u[|a|..|a| + |e|] == e && u[|a| + |e|..2 * |a| + |e|] == a
  {
  }

  lemma DelimiterThere(t: string, k: nat, q: char, triple: bool)
    requires var d := if triple then 3 else 1; k + d <= |t| && t[k..k + d] == Delimiter(q, triple)
    ensures DelimAt(t, k, q, if triple then 3 else 1)
  {
    var d: nat := if triple then 3 else 1;
    forall j | k <= j < k + d ensures t[j] == q { assert t[j] == t[k..k + d][j - k]; }
  }

  /** An opening delimiter, an escaped text and a closing delimiter are one literal. */
  lemma LiteralHere(t: string, i: nat, d: nat, w: string, q: char)
    requires IsQuote(q) && (d == 1 || d == 3) && i + 2 * d + |Escape(w)| <= |t|
    requires DelimAt(t, i, q, d) && DelimAt(t, i + d + |Escape(w)|, q, d)
    requires t[i + d..i + d + |Escape(w)|] == Escape(w)
    requires w == [] && d == 1 && i + 2 < |t| ==> t[i+2] != q
    ensures Reads(t, i, Quoted(2 * d + |Escape(w)|))
  {
    var e := Escape(w);
    var lo, end := i + d, i + d + |e|;
    EscapeBegins(w);
    assert e != [] ==> t[lo] == t[lo..end][0];
    assert t[i] == q;
    assert OpenLen(t, i) == d;
    EscapesEnd(t, lo, lo, w);
    hide Escape, Escaped;
    assert ClosesAt(t, i, end);
    forall k | 0 <= k < end ensures !ClosesAt(t, i, k) {
      if lo <= k && t[k] == q { assert Escaped(t, lo, k); }
    }
  }

  /**
   * The quoted text is recognised as one literal wherever it stands; only an empty text in
   * single quotes must not be followed by the same quote, which would open a triple one.
   */
  lemma QuoteReads(t: string, i: nat, w: string, q: char, triple: bool)
    requires q == '\'' || q == '"'
    requires i + |Quote(w, q, triple)| <= |t| && t[i..i + |Quote(w, q, triple)|] == Quote(w, q, triple)
    requires w == [] && !triple && i + 2 < |t| ==> t[i+2] != q
    ensures i < |t| && Reads(t, i, Quoted(|Quote(w, q, triple)|))
  {
    hide Escape, Reads;
    var d: nat := if triple then 3 else 1;
    var a, e := Delimiter(q, triple), Escape(w);
    Layout(t, i, a, e);
    DelimiterThere(t, i, q, triple);
    DelimiterThere(t, i + d + |e|, q, triple);
    LiteralHere(t, i, d, w, q);
  }

  /** Quoting and lexing: one literal with exactly the quoted text, then the rest; and the text can be read back. */
  lemma QuoteLexes(t: string, i: nat, w: string, q: char, triple: bool)
    requires q == '\'' || q == '"'
    requires i + |Quote(w, q, triple)| <= |t| && t[i..i + |Quote(w, q, triple)|] == Quote(w, q, triple)
    requires w == [] && !triple && i + 2 < |t| ==> t[i+2] != q
    ensures Lexemes(t, i) == Prepend([Lexeme(Literal, Quote(w, q, triple))], Lexemes(t, i + |Quote(w, q, triple)|))
    ensures var d := if triple then 3 else 1;
      var text := Quote(w, q, triple);
      |text| >= 2 * d && Unescape(text[d..|text| - d]) == w
  {
    hide Quote, Reads, Lexemes, Unescape, Escape;
    QuoteReads(t, i, w, q, triple);
    ReadBack(w, q, triple);
    OneLiteral(t, i, Quote(w, q, triple));
  }

  lemma OneLiteral(t: string, i: nat, text: string)
    requires i + |text| <= |t| && i < |t| && t[i..i + |text|] == text && Reads(t, i, Quoted(|text|))
    ensures Lexemes(t, i) == Prepend([Lexeme(Literal, text)], Lexemes(t, i + |text|))
  {
    hide Reads, Lexemes;
    LexemesStep(t, i, Quoted(|text|));
    LiteralLexeme(t, i, |text|);
  }

  lemma ReadBack(w: string, q: char, triple: bool)
    ensures var d := if triple then 3 else 1;
      var text := Quote(w, q, triple);
      |text| >= 2 * d && Unescape(text[d..|text| - d]) == w
  {
    UnescapeEscape(w);
    hide Escape, Unescape;
    var d: nat := if triple then 3 else 1;
    assert Quote(w, q, triple)[d..d + |Escape(w)|] == Escape(w);
  }

  /** In particular, a source that is one quoted text lexes to that literal alone. */
  lemma QuoteAlone(w: string, q: char, triple: bool)
    requires q == '\'' || q == '"'
    ensures Lexemes(Quote(w, q, triple), 0) == Some([Lexeme(Literal, Quote(w, q, triple))])
  {
    var t := Quote(w, q, triple);
    assert t[0..|t|] == t;
    QuoteLexes(t, 0, w, q, triple);
    assert Scan(t, |t|) == Some([]) && [Lexeme(Literal, t)] + [] == [Lexeme(Literal, t)];
  }

  /** A text that ends in a backslash: both backslashes belong to the literal, the quote closes it. */
  lemma DoubledBackslash()
    ensures Lexemes("'C:\\\\'", 0) == Some([Lexeme(Literal, "'C:\\\\'")])
  {
    assert Escape("\\") == "\\\\" by { assert "\\"[1..] == []; }
    assert Escape(":\\") == ":\\\\" by { assert ":\\"[1..] == "\\"; }
    assert Escape("C:\\") == "C:\\\\" by { assert "C:\\"[1..] == ":\\"; }
    QuoteAlone("C:\\", '\'', false);
    assert Quote("C:\\", '\'', false) == "'C:\\\\'";
  }
}
