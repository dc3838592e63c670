/**
 * What the lexer's answers mean, over whole texts: the token list is the one read off the
 * only segmentation of the text into grammar pieces, and the lexer fails exactly when a
 * segmentation runs into a literal that is never closed. Also the cut positions that the
 * rewriting proof needs.
 */
module Grammar {
  import opened Outcomes
  import opened Lexer

  /** `ps` cuts `s`, from position i to its end, into grammar pieces. */
  ghost predicate Segments(s: string, i: nat, ps: seq<Piece>)
    decreases |ps|
  {
    if ps == [] then i == |s|
    else i < |s| && Reads(s, i, ps[0]) && Segments(s, i + ps[0].Len(), ps[1..])
  }

  /** `ps` cuts some text from position i on, and what follows opens a literal never closed. */
  ghost predicate RunsIntoOpenLiteral(s: string, i: nat, ps: seq<Piece>)
    decreases |ps|
  {
    i < |s| &&
    if ps == [] then Unterminated(s, i)
    else Reads(s, i, ps[0]) && RunsIntoOpenLiteral(s, i + ps[0].Len(), ps[1..])
  }

  lemma ReadsInside(s: string, i: nat, p: Piece)
    requires i < |s| && Reads(s, i, p)
    ensures 0 < p.Len() <= |s| - i
  {
  }

  /** The tokens of a segmentation: one for each word, literal and mark. */
  ghost function Emitted(s: string, i: nat, ps: seq<Piece>): seq<Token>
    requires Segments(s, i, ps)
    decreases |ps|
  {
    if ps == [] then []
    else ReadsInside(s, i, ps[0]); Emit(s, i, ps[0]) + Emitted(s, i + ps[0].Len(), ps[1..])
  }

  /** The grammar is unambiguous. */
  lemma {:induction false} SegmentsUnique(s: string, i: nat, ps: seq<Piece>, qs: seq<Piece>)
    requires Segments(s, i, ps) && Segments(s, i, qs)
    ensures ps == qs
    decreases |ps|
  {
    if ps != [] && qs != [] {
      ReadsUnique(s, i, ps[0], qs[0]);
      SegmentsUnique(s, i + ps[0].Len(), ps[1..], qs[1..]);
      assert ps == [ps[0]] + ps[1..] && qs == [qs[0]] + qs[1..];
    }
  }

  /** A text with a segmentation lexes to the tokens of that segmentation. */
  lemma {:induction false} SegmentsScan(s: string, i: nat, ps: seq<Piece>)
    requires Segments(s, i, ps)
    ensures Scan(s, i) == Some(Emitted(s, i, ps))
    decreases |ps|
  {
    hide Reads;
    if ps != [] {
      FirstIs(s, i, ps[0]);
      SegmentsScan(s, i + ps[0].Len(), ps[1..]);
    }
  }

  lemma {:induction false} OpenLiteralFails(s: string, i: nat, ps: seq<Piece>)
    requires RunsIntoOpenLiteral(s, i, ps)
    ensures Scan(s, i).None?
    decreases |ps|
  {
    hide Reads;
    NoFirstIffUnterminated(s, i);
    if ps != [] {
      FirstIs(s, i, ps[0]);
      OpenLiteralFails(s, i + ps[0].Len(), ps[1..]);
    }
  }

  /** Every text has a segmentation or runs into an open literal. */
  lemma {:induction false} Segment(s: string, i: nat) returns (ps: seq<Piece>)
    requires i <= |s|
    ensures Segments(s, i, ps) || RunsIntoOpenLiteral(s, i, ps)
    decreases |s| - i
  {
    ps := [];
    if i < |s| {
      NoFirstIffUnterminated(s, i);
      if First(s, i).Some? {
        var p := First(s, i).value;
        var rest := Segment(s, i + p.Len());
        ps := [p] + rest;
        assert ps[1..] == rest;
      }
    }
  }

  /** lex succeeds exactly on segmentable texts, with the tokens of the segmentation. */
  lemma LexMeansSegmentation(s: string, ts: seq<Token>)
    ensures LexResult(s) == Ok(ts) <==> exists ps :: Segments(s, 0, ps) && Emitted(s, 0, ps) == ts
  {
    var ps := Segment(s, 0);
    if Segments(s, 0, ps) {
      SegmentsScan(s, 0, ps);
      forall qs | Segments(s, 0, qs) ensures qs == ps { SegmentsUnique(s, 0, qs, ps); }
    } else {
      OpenLiteralFails(s, 0, ps);
      forall qs | Segments(s, 0, qs) ensures false { SegmentsScan(s, 0, qs); }
    }
  }

  /** lex fails exactly when some string literal is unterminated. */
  lemma LexFailsIffOpenLiteral(s: string)
    ensures LexResult(s) == Err(UnterminatedString) <==> exists ps :: RunsIntoOpenLiteral(s, 0, ps)
  {
    var ps := Segment(s, 0);
    if Segments(s, 0, ps) { SegmentsScan(s, 0, ps); }
    forall qs | RunsIntoOpenLiteral(s, 0, qs) ensures LexResult(s).Err? { OpenLiteralFails(s, 0, qs); }
  }

  // ---------------------------------------------------------------- shape of a token list

  /** `t` is a nonempty slice of the text `s`, not before position i. */
  predicate SliceOf(s: string, i: nat, t: Token) {
    i <= t.start < t.end <= |s| && t.text == s[t.start..t.end]
  }

  predicate InOrder(ts: seq<Token>) {
    forall j, k :: 0 <= j < k < |ts| ==> ts[j].end <= ts[k].start
  }

  /** What the first piece contributes to the token list. */
  lemma ScanHead(s: string, i: nat, ts: seq<Token>) returns (p: Piece, tail: seq<Token>)
    requires i < |s| && Scan(s, i) == Some(ts)
    ensures First(s, i) == Some(p) && 0 < p.Len() <= |s| - i
    ensures Scan(s, i + p.Len()) == Some(tail)
    ensures ts == Emit(s, i, p) + tail
  {
    p := First(s, i).value;
    tail := Scan(s, i + p.Len()).value;
  }

  /** Tokens are nonempty slices of the text, in order and disjoint. */
  lemma {:induction false} ScanSlices(s: string, i: nat, ts: seq<Token>)
    requires i <= |s| && Scan(s, i) == Some(ts)
    ensures forall t :: t in ts ==> SliceOf(s, i, t)
    ensures InOrder(ts)
    decreases |s| - i
  {
    hide Reads;
    if i < |s| {
      var p, tail := ScanHead(s, i, ts);
      ScanSlices(s, i + p.Len(), tail);
      SlicesGrow(s, i, p, tail);
    }
  }

  lemma SlicesGrow(s: string, i: nat, p: Piece, tail: seq<Token>)
    requires 0 < p.Len() <= |s| - i
    requires (forall t :: t in tail ==> SliceOf(s, i + p.Len(), t)) && InOrder(tail)
    ensures (forall t :: t in Emit(s, i, p) + tail ==> SliceOf(s, i, t)) && InOrder(Emit(s, i, p) + tail)
  {
    forall k | 0 <= k < |tail| ensures SliceOf(s, i + p.Len(), tail[k]) { assert tail[k] in tail; }
  }

  /** What the kinds promise about a token's text. */
  ghost predicate WellKinded(t: Token) {
    && t.text != []
    && (t.kind == Literal ==> IsQuote(t.text[0]) && |t.text| >= 2 && IsQuote(t.text[|t.text|-1]))
    && (t.kind == Name ==> IsNameStart(t.text[0]) && forall k :: 0 <= k < |t.text| ==> IsNameChar(t.text[k]))
    && (t.kind == Mark ==> |t.text| == 1 && !IsNameStart(t.text[0]) && !IsQuote(t.text[0])
                           && !IsSpace(t.text[0]) && t.text[0] != '#')
  }

  lemma {:induction false} ScanKinds(s: string, i: nat, ts: seq<Token>)
    requires i <= |s| && Scan(s, i) == Some(ts)
    ensures forall t :: t in ts ==> WellKinded(t)
    decreases |s| - i
  {
    hide Reads;
    if i < |s| {
      var p, tail := ScanHead(s, i, ts);
      ScanKinds(s, i + p.Len(), tail);
      PieceKind(s, i, p);
      KindsJoin(Emit(s, i, p), tail);
    }
  }

  lemma KindsJoin(a: seq<Token>, b: seq<Token>)
    requires (forall t :: t in a ==> WellKinded(t)) && forall t :: t in b ==> WellKinded(t)
    ensures forall t :: t in a + b ==> WellKinded(t)
  {
  }

  lemma PieceKind(s: string, i: nat, p: Piece)
    requires i < |s| && Reads(s, i, p) && p.Len() <= |s| - i
    ensures forall t :: t in Emit(s, i, p) ==> WellKinded(t)
  {
    if p.Quoted? { LiteralEnds(s, i, p.n); }
  }

  /** A literal ends with its quote, and an empty one is not the start of a triple quote. */
  lemma LiteralEnds(s: string, i: nat, n: nat)
    requires i < |s| && Reads(s, i, Quoted(n))
    ensures 2 <= n <= |s| - i && s[i + n - 1] == s[i] && (n == 2 && i + 2 < |s| ==> s[i+2] != s[i])
  {
    var d := OpenLen(s, i);
    assert ClosesAt(s, i, i + n - d) && DelimAt(s, i + n - d, s[i], d);
  }

  // ---------------------------------------------------------------- cut positions

  /** Lexing from i, the loop starts a new piece (or ends) at j. */
  ghost predicate Cut(s: string, i: nat, j: nat)
    decreases |s| - i
  {
    i == j || (i < |s| && First(s, i).Some? && Cut(s, i + First(s, i).value.Len(), j))
  }

  lemma {:induction false} CutBounds(s: string, i: nat, j: nat)
    requires Cut(s, i, j) && i <= |s|
    ensures i <= j <= |s|
    decreases |s| - i
  {
    if i != j { CutBounds(s, i + First(s, i).value.Len(), j); }
  }

  /** Cuts are totally ordered: a later cut is a cut of the rest. */
  lemma {:induction false} CutSuffix(s: string, i: nat, j: nat, k: nat)
    requires i <= |s| && Cut(s, i, j) && j <= k
    ensures Cut(s, i, k) <==> Cut(s, j, k)
    decreases |s| - i
  {
    CutBounds(s, i, j);
    if i != j {
      CutBounds(s, i + First(s, i).value.Len(), j);
      CutSuffix(s, i + First(s, i).value.Len(), j, k);
    }
  }

  predicate Within(ts: seq<Token>, lo: nat, hi: nat) {
    forall t :: t in ts ==> lo <= t.start < t.end <= hi
  }

  lemma EmitWithin(s: string, i: nat, p: Piece, rest: seq<Token>, m: nat)
    requires 0 < p.Len() && i + p.Len() <= m <= |s| && Within(rest, i + p.Len(), m)
    ensures Within(Emit(s, i, p) + rest, i, m)
  {
  }

  /** The tokens before and after a cut. */
  lemma SplitStep(s: string, i: nat, p: Piece, tail: seq<Token>, a: seq<Token>, b: seq<Token>, m: nat)
    requires 0 < p.Len() && i + p.Len() <= m <= |s| && tail == a + b && Within(a, i + p.Len(), m)
    ensures Emit(s, i, p) + tail == (Emit(s, i, p) + a) + b && Within(Emit(s, i, p) + a, i, m)
  {
    EmitWithin(s, i, p, a, m);
    assert Emit(s, i, p) + (a + b) == (Emit(s, i, p) + a) + b;
  }

  lemma {:induction false} ScanSplit(s: string, i: nat, ts: seq<Token>, m: nat)
      returns (a: seq<Token>, b: seq<Token>)
    requires i <= |s| && Cut(s, i, m) && Scan(s, i) == Some(ts)
    ensures i <= m <= |s| && Scan(s, m) == Some(b) && ts == a + b
    ensures Within(a, i, m)
    decreases |s| - i
  {
    hide Reads;
    if m == i {
      a, b := [], ts;
    } else {
      var p, tail := ScanHead(s, i, ts);
      CutBounds(s, i + p.Len(), m);
      var a';
      a', b := ScanSplit(s, i + p.Len(), tail, m);
      SplitStep(s, i, p, tail, a', b, m);
      a := Emit(s, i, p) + a';
    }
  }

  /** A name start at a cut starts a token. */
  lemma NameStartsToken(s: string, i: nat, ts: seq<Token>)
    requires i < |s| && IsNameStart(s[i]) && Scan(s, i) == Some(ts)
    ensures ts != [] && ts[0].start == i && ts[0].kind == Name
  {
    var p, tail := ScanHead(s, i, ts);
  }

  lemma CutThrough(s: string, i: nat, p: Piece, j: nat)
    requires i < |s| && First(s, i) == Some(p) && Cut(s, i + p.Len(), j)
    ensures Cut(s, i, j)
  {
  }

  lemma EmittedHere(s: string, i: nat, p: Piece, t: Token, ts: seq<Token>, tail: seq<Token>)
    requires 0 < p.Len() && i + p.Len() <= |s| && ts == Emit(s, i, p) + tail && t in ts && t !in tail
    ensures t.start == i && t.end == i + p.Len()
  {
    assert t in Emit(s, i, p);
  }

  /** Tokens start and end at cuts. */
  lemma {:induction false} TokenCuts(s: string, i: nat, ts: seq<Token>, t: Token)
    requires i <= |s| && Scan(s, i) == Some(ts) && t in ts
    ensures Cut(s, i, t.start) && Cut(s, i, t.end)
    decreases |s| - i
  {
    hide Reads, First, Emit;
    if i < |s| {
      var p, tail := ScanHead(s, i, ts);
      var n := i + p.Len();
      if t in tail {
        TokenCuts(s, n, tail, t);
        CutThrough(s, i, p, t.start);
        CutThrough(s, i, p, t.end);
      } else {
        EmittedHere(s, i, p, t, ts, tail);
        CutThrough(s, i, p, n);
      }
    }
  }
}
