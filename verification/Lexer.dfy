/**
 * The byte lexer of the migration tool (pkg/migration/migration.go:47-107).
 *
 * `Reads` is the grammar of one lexical piece, stated without scanning; `Scan` cuts a
 * text into pieces by that grammar alone. The method `Lex` is the program's
 * index-advancing loop, proved to return exactly what the grammar says.
 * A `char` stands for one byte of the source.
 */
module Lexer {
  import opened Outcomes

  datatype Kind = Literal | Name | Mark

  datatype Token = Token(text: string, start: nat, end: nat, kind: Kind)

  /** A token without its position. */
  datatype Lexeme = Lexeme(kind: Kind, text: string)

  datatype LexError = UnterminatedString

  /** One step of the lexer: what it consumes at its current position. */
  datatype Piece = Blank | Comment(n: nat) | Quoted(n: nat) | Word(n: nat) | Other {
    function Len(): nat {
      match this
      case Blank => 1
      case Comment(n) => n
      case Quoted(n) => n
      case Word(n) => n
      case Other => 1
    }
  }

  // ---------------------------------------------------------------- character classes

  predicate IsQuote(c: char) { c == '\'' || c == '"' }

  predicate IsNameStart(c: char) {
    c == '_' || 'a' <= c <= 'z' || 'A' <= c <= 'Z'
  }

  predicate IsNameChar(c: char) { IsNameStart(c) || '0' <= c <= '9' }

  /** unicode.IsSpace of a single byte widened to a rune: the Latin-1 white space. */
  predicate IsSpace(c: char) {
    9 <= c as int <= 13 || c == ' ' || c as int == 0x85 || c as int == 0xA0
  }

  // ---------------------------------------------------------------- the grammar

  /** Length of the opening delimiter of the literal at position i. */
  function OpenLen(s: string, i: nat): nat
    requires i < |s|
  {
    if i + 2 < |s| && s[i+1] == s[i] && s[i+2] == s[i] then 3 else 1
  }

  predicate DelimAt(s: string, k: nat, q: char, d: nat) {
    k + d <= |s| && forall j :: k <= j < k + d ==> s[j] == q
  }

  /** Position k of a literal body starting at lo is escaped: an odd run of backslashes precedes it. */
  predicate Escaped(s: string, lo: nat, k: nat)
    requires k <= |s|
  {
    lo < k && s[k-1] == '\\' && !Escaped(s, lo, k - 1)
  }

  /** The literal opening at i can close at k: an unescaped delimiter stands there. */
  predicate ClosesAt(s: string, i: nat, k: nat)
    requires i < |s|
  {
    var d := OpenLen(s, i);
    i + d <= k <= |s| && DelimAt(s, k, s[i], d) && !Escaped(s, i + d, k)
  }

  /** The piece `p` stands at position i; a literal ends at its first unescaped delimiter. */
  ghost predicate Reads(s: string, i: nat, p: Piece)
    requires i < |s|
  {
    match p
    case Blank => IsSpace(s[i])
    case Comment(n) =>
      && s[i] == '#' && 0 < n <= |s| - i
      && (forall k :: i <= k < i + n ==> s[k] != '\n')
      && (i + n < |s| ==> s[i+n] == '\n')
    case Quoted(n) =>
      && IsQuote(s[i])
      && var d := OpenLen(s, i);
      && 2 * d <= n <= |s| - i
      && ClosesAt(s, i, i + n - d)
      && (forall k :: 0 <= k < i + n - d ==> !ClosesAt(s, i, k))
    case Word(n) =>
      && IsNameStart(s[i]) && 0 < n <= |s| - i
      && (forall k :: i <= k < i + n ==> IsNameChar(s[k]))
      && (i + n < |s| ==> !IsNameChar(s[i+n]))
    case Other =>
      s[i] != '#' && !IsQuote(s[i]) && !IsSpace(s[i]) && !IsNameStart(s[i])
  }

  /** Position i opens a string literal that is never closed. */
  ghost predicate Unterminated(s: string, i: nat)
    requires i < |s|
  {
    IsQuote(s[i]) && forall k :: 0 <= k <= |s| ==> !ClosesAt(s, i, k)
  }

  lemma ReadsUnique(s: string, i: nat, p: Piece, q: Piece)
    requires i < |s| && Reads(s, i, p) && Reads(s, i, q)
    ensures p == q
  {
    var n, m := p.Len(), q.Len();
    match p
    case Comment(_) =>
      assert (i + n < |s| ==> s[i+n] == '\n') && (i + m < |s| ==> s[i+m] == '\n');
    case Word(_) =>
      assert (i + n < |s| ==> !IsNameChar(s[i+n])) && (i + m < |s| ==> !IsNameChar(s[i+m]));
    case Quoted(_) =>
      var d := OpenLen(s, i);
      assert ClosesAt(s, i, i + n - d) && ClosesAt(s, i, i + m - d);
    case _ =>
  }

  /** The piece at position i, if there is one. */
  ghost function First(s: string, i: nat): (r: Option<Piece>)
    requires i < |s|
    ensures r.Some? ==> Reads(s, i, r.value) && 0 < r.value.Len() <= |s| - i
    ensures r.None? ==> forall p :: !Reads(s, i, p)
  {
    if exists p :: Reads(s, i, p) then
      var p :| Reads(s, i, p);
      Some(p)
    else None
  }

  lemma FirstIs(s: string, i: nat, p: Piece)
    requires i < |s| && Reads(s, i, p)
    ensures First(s, i) == Some(p) && 0 < p.Len() <= |s| - i
  {
    ReadsUnique(s, i, p, First(s, i).value);
  }

  /** The only way to have no first piece is an unterminated literal. */
  lemma NoFirstIffUnterminated(s: string, i: nat)
    requires i < |s|
    ensures First(s, i).None? <==> Unterminated(s, i)
  {
    if IsQuote(s[i]) {
      if First(s, i).Some? {
        var n, d := First(s, i).value.Len(), OpenLen(s, i);
        assert ClosesAt(s, i, i + n - d);
      }
      if !Unterminated(s, i) { LiteralExists(s, i); }
    } else if s[i] == '#' {
      var n := 1;
      while i + n < |s| && s[i+n] != '\n'
        invariant 1 <= n <= |s| - i && forall k :: i <= k < i + n ==> s[k] != '\n'
      { n := n + 1; }
      FirstIs(s, i, Comment(n));
    } else if IsNameStart(s[i]) {
      var n := 1;
      while i + n < |s| && IsNameChar(s[i+n])
        invariant 1 <= n <= |s| - i && forall k :: i <= k < i + n ==> IsNameChar(s[k])
      { n := n + 1; }
      FirstIs(s, i, Word(n));
    } else if IsSpace(s[i]) {
      FirstIs(s, i, Blank);
    } else {
      FirstIs(s, i, Other);
    }
  }

  lemma LiteralExists(s: string, i: nat)
    requires i < |s| && IsQuote(s[i]) && !Unterminated(s, i)
    ensures First(s, i).Some?
  {
    var d := OpenLen(s, i);
    var k := 0;
    while !ClosesAt(s, i, k)
      invariant 0 <= k <= |s| && forall j :: 0 <= j < k ==> !ClosesAt(s, i, j)
      decreases |s| - k
    {
      if k == |s| { assert false; }
      k := k + 1;
    }
    FirstIs(s, i, Quoted(k + d - i));
  }

  // ---------------------------------------------------------------- tokens and lexemes

  function Emit(s: string, i: nat, p: Piece): seq<Token>
    requires i + p.Len() <= |s|
  {
    match p
    case Quoted(n) => [Token(s[i..i+n], i, i + n, Literal)]
    case Word(n) => [Token(s[i..i+n], i, i + n, Name)]
    case Other => [Token(s[i..i+1], i, i + 1, Mark)]
    case _ => []
  }

  /** The tokens of `s` from position i on; None when a literal is left open. */
  ghost function Scan(s: string, i: nat): Option<seq<Token>>
    decreases |s| - i
  {
    if |s| <= i then Some([])
    else match First(s, i)
      case None => None
      case Some(p) => Prepend(Emit(s, i, p), Scan(s, i + p.Len()))
  }

  function Erase(ts: seq<Token>): (r: seq<Lexeme>)
    ensures |r| == |ts|
    ensures forall k :: 0 <= k < |ts| ==> r[k] == Lexeme(ts[k].kind, ts[k].text)
  {
    seq(|ts|, k requires 0 <= k < |ts| => Lexeme(ts[k].kind, ts[k].text))
  }

  lemma EraseConcat(a: seq<Token>, b: seq<Token>)
    ensures Erase(a + b) == Erase(a) + Erase(b)
  {
  }

  /** The tokens of `s` from position i on, without positions. */
  ghost function Lexemes(s: string, i: nat): Option<seq<Lexeme>>
  {
    match Scan(s, i)
    case None => None
    case Some(ts) => Some(Erase(ts))
  }

  /** Lexing goes piece by piece. */
  lemma LexemesStep(s: string, i: nat, p: Piece)
    requires i < |s| && Reads(s, i, p)
    ensures 0 < p.Len() <= |s| - i
    ensures Lexemes(s, i) == Prepend(Erase(Emit(s, i, p)), Lexemes(s, i + p.Len()))
  {
    FirstIs(s, i, p);
    var x := Scan(s, i + p.Len());
    if x.Some? {
      EraseConcat(Emit(s, i, p), x.value);
    }
  }

  /** The n bytes of t at j are the n bytes of s at i. */
  predicate Same(s: string, i: nat, t: string, j: nat, n: nat) {
    && i + n <= |s| && j + n <= |t|
    && forall x :: j <= x < j + n ==> t[x] == s[i + (x - j)]
  }

  lemma SameAt(s: string, i: nat, t: string, j: nat, n: nat, y: nat)
    requires Same(s, i, t, j, n) && i <= y < i + n
    ensures t[j + (y - i)] == s[y]
  {
  }

  /** The byte of t after a copy of `p` does not extend the piece. */
  predicate Stops(p: Piece, opening: char, t: string, k: nat) {
    k < |t| ==>
      && (p.Word? ==> !IsNameChar(t[k]))
      && (p.Comment? ==> t[k] == '\n')
      && (p == Quoted(2) ==> t[k] != opening)
  }

  /** A piece is recognised from its own bytes and the byte after it. */
  lemma ReadsLocal(s: string, i: nat, p: Piece, t: string, j: nat)
    requires i < |s| && Reads(s, i, p) && Same(s, i, t, j, p.Len()) && Stops(p, s[i], t, j + p.Len())
    ensures j < |t| && Reads(t, j, p)
  {
    SameAt(s, i, t, j, p.Len(), i);
    if p.Quoted? {
      QuotedLocal(s, i, p.n, t, j);
    }
  }

  lemma QuotedLocal(s: string, i: nat, n: nat, t: string, j: nat)
    requires i < |s| && Reads(s, i, Quoted(n)) && Same(s, i, t, j, n) && Stops(Quoted(n), s[i], t, j + n)
    ensures j < |t| && Reads(t, j, Quoted(n))
  {
    var d, q := OpenLen(s, i), s[i];
    assert !ClosesAt(s, i, i + 1) || n == 1 + d;
    assert t[j] == q && t[j+1] == s[i+1] && (2 < n ==> t[j+2] == s[i+2]);
    assert OpenLen(t, j) == d;
    var lo := j + d;
    forall k | lo <= k <= j + n - d
      ensures ClosesAt(t, j, k) <==> ClosesAt(s, i, i + (k - j))
    {
      EscapedLocal(s, i, t, j, n, d, k - j);
      DelimLocal(s, i, t, j, n, i + (k - j), q, d);
    }
    assert ClosesAt(t, j, j + n - d);
  }

  lemma DelimLocal(s: string, i: nat, t: string, j: nat, n: nat, k: nat, q: char, d: nat)
    requires Same(s, i, t, j, n) && i <= k && k + d <= i + n
    ensures DelimAt(s, k, q, d) == DelimAt(t, j + (k - i), q, d)
  {
    var k' := j + (k - i);
    assert DelimAt(t, k', q, d) ==> DelimAt(s, k, q, d) by {
      forall x | k <= x < k + d ensures t[j + (x - i)] == s[x] { SameAt(s, i, t, j, n, x); }
    }
  }

  lemma {:induction false} EscapedLocal(s: string, i: nat, t: string, j: nat, n: nat, d: nat, k: nat)
    requires k <= n && Same(s, i, t, j, n)
    ensures Escaped(s, i + d, i + k) == Escaped(t, j + d, j + k)
  {
    if d < k {
      SameAt(s, i, t, j, n, i + (k - 1));
      EscapedLocal(s, i, t, j, n, d, k - 1);
    }
  }

  // ---------------------------------------------------------------- the program

  ghost function LexResult(source: string): Result<seq<Token>, LexError> {
    match Scan(source, 0)
    case None => Err(UnterminatedString)
    case Some(ts) => Ok(ts)
  }

  /** lex: one pass over the source, appending a token for each name, literal and mark. */
  method Lex(source: string) returns (r: Result<seq<Token>, LexError>)
    ensures r == LexResult(source)
  {
    var out: seq<Token> := [];
    var i := 0;
    PrependNothing(Scan(source, 0));
    while i < |source|
      invariant 0 <= i <= |source|
      invariant Scan(source, 0) == Prepend(out, Scan(source, i))
    {
      var end, tokens, closed, p := Next(source, i);
      if !closed {
        return Err(UnterminatedString);
      }
      PrependConcat(out, tokens, Scan(source, end));
      out := out + tokens;
      i := end;
    }
    assert out + [] == out;
    r := Ok(out);
  }

  /** The body of the loop: skips or recognises one piece, whose kind the first byte decides. */
  method Next(source: string, start: nat)
      returns (end: nat, tokens: seq<Token>, closed: bool, ghost p: Piece)
    requires start < |source|
    ensures !closed ==> First(source, start).None?
    ensures closed ==> First(source, start) == Some(p) && start < end == start + p.Len() <= |source|
    ensures closed ==> tokens == Emit(source, start, p)
  {
    tokens, closed := [], true;
    var c := source[start];
    if c == '#' {
      end := SkipComment(source, start);
      p := Comment(end - start);
    } else if IsQuote(c) {
      end, closed := SkipLiteral(source, start);
      p := Quoted(if closed then end - start else 0);
      if !closed {
        NoFirstIffUnterminated(source, start);
        return;
      }
      tokens := [Token(source[start..end], start, end, Literal)];
    } else if IsSpace(c) {
      end := start + 1;
      p := Blank;
    } else if IsNameStart(c) {
      end := SkipWord(source, start);
      tokens := [Token(source[start..end], start, end, Name)];
      p := Word(end - start);
    } else {
      end := start + 1;
      tokens := [Token(source[start..end], start, end, Mark)];
      p := Other;
    }
    FirstIs(source, start, p);
  }

  /** The comment branch: everything up to the end of the line. */
  method SkipComment(source: string, start: nat) returns (i: nat)
    requires start < |source| && source[start] == '#'
    ensures start < i <= |source| && Reads(source, start, Comment(i - start))
  {
    i := start;
    while i < |source| && source[i] != '\n'
      invariant start <= i <= |source|
      invariant forall k :: start <= k < i ==> source[k] != '\n'
    {
      i := i + 1;
    }
  }

  /** The name branch: as many name characters as follow. */
  method SkipWord(source: string, start: nat) returns (i: nat)
    requires start < |source| && IsNameStart(source[start])
    ensures start < i <= |source| && Reads(source, start, Word(i - start))
  {
    i := start + 1;
    while i < |source| && IsNameChar(source[i])
      invariant start < i <= |source|
      invariant forall k :: start <= k < i ==> IsNameChar(source[k])
    {
      i := i + 1;
    }
  }

  /** The literal branch: finds the end of the literal opening at `start`. */
  method SkipLiteral(source: string, start: nat) returns (i: nat, closed: bool)
    requires start < |source| && IsQuote(source[start])
    ensures closed ==> start < i <= |source| && Reads(source, start, Quoted(i - start))
    ensures !closed ==> Unterminated(source, start)
  {
    var quote := source[start];
    var triple := start + 2 < |source| && source[start + 1] == quote && source[start + 2] == quote;
    var step := if triple then 3 else 1;
    i := start + step;
    closed := false;
    ghost var lo := start + step;
    while i < |source|
      invariant lo <= i <= |source| + 1
      invariant i <= |source| ==> !Escaped(source, lo, i)
      invariant forall k :: 0 <= k < i && k <= |source| ==> !ClosesAt(source, start, k)
    {
      if source[i] == '\\' {
        assert Escaped(source, lo, i + 1);
        i := i + 2;
        continue;
      }
      if source[i] == quote
         && (!triple || (i + 2 < |source| && source[i + 1] == quote && source[i + 2] == quote)) {
        assert ClosesAt(source, start, i);
        i := i + step;
        closed := true;
        break;
      }
      assert triple && i + 2 < |source| ==> source[i + 1] != quote || source[i + 2] != quote || source[i] != quote;
      assert !DelimAt(source, i, quote, step);
      i := i + 1;
    }
  }
}
