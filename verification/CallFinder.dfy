/**
 * Balanced call expressions rooted at the rospy module (pkg/migration/migration.go:109-146).
 *
 * `Closing` says where a call closes in terms of the running parenthesis balance only;
 * `FindClose` and `Calls` are the program's scanning loops.
 */
module CallFinder {
  import opened Outcomes
  import opened Lexer
  import opened Grammar

  datatype Call = Call(name: string, start: nat, open: nat, end: nat, arguments: string)

  datatype CallError = OpenLiteral | TooDeep | Unbalanced

  datatype Closed = At(e: nat) | Deep | Never

  const DEPTH_LIMIT := 256

  /** Tokens i..i+3 are `rospy . name (`. */
  predicate Head(ts: seq<Token>, i: nat) {
    && i + 3 < |ts|
    && ts[i].kind == Name && ts[i].text == "rospy"
    && ts[i+1].text == "." && ts[i+2].kind == Name && ts[i+3].text == "("
  }

  function Weight(t: Token): int {
    if t.kind == Literal then 0
    else if t.text == "(" then 1
    else if t.text == ")" then -1
    else 0
  }

  /** Opening minus closing parentheses among tokens a..b-1. */
  function Balance(ts: seq<Token>, a: nat, b: nat): int
    requires b <= |ts|
    decreases b
  {
    if b <= a then 0 else Balance(ts, a, b - 1) + Weight(ts[b-1])
  }

  lemma {:induction false} BalanceAdds(ts: seq<Token>, a: nat, b: nat, c: nat)
    requires a <= b <= c <= |ts|
    ensures Balance(ts, a, c) == Balance(ts, a, b) + Balance(ts, b, c)
    decreases c
  {
    if b < c { BalanceAdds(ts, a, b, c - 1); }
  }

  /** Counting from token o, the balance stays open and within the limit up to position m. */
  predicate OpenUpTo(ts: seq<Token>, o: nat, m: nat)
    requires m <= |ts|
  {
    forall j :: o < j <= m ==> 0 < Balance(ts, o, j) <= DEPTH_LIMIT
  }

  /** The tokens a..b-1 that are the given parenthesis. */
  function Parens(ts: seq<Token>, a: nat, b: nat, paren: string): set<nat>
    requires b <= |ts|
  {
    set k: nat | a <= k < b && IsParen(ts[k], paren)
  }

  predicate IsParen(t: Token, paren: string) { t.kind != Literal && t.text == paren }

  /** The balance is what it says: opening parentheses less closing ones. */
  lemma {:induction false} BalanceCounts(ts: seq<Token>, a: nat, b: nat)
    requires a <= b <= |ts|
    ensures Balance(ts, a, b) == |Parens(ts, a, b, "(")| - |Parens(ts, a, b, ")")|
    decreases b
  {
    if a < b {
      BalanceCounts(ts, a, b - 1);
      OneMoreParen(ts, a, b, "(");
      OneMoreParen(ts, a, b, ")");
    } else {
      assert Parens(ts, a, b, "(") == {} && Parens(ts, a, b, ")") == {};
    }
  }

  lemma OneMoreParen(ts: seq<Token>, a: nat, b: nat, paren: string)
    requires a < b <= |ts|
    ensures |Parens(ts, a, b, paren)| == |Parens(ts, a, b - 1, paren)| + (if IsParen(ts[b-1], paren) then 1 else 0)
  {
    hide IsParen;
    var before := Parens(ts, a, b - 1, paren);
    if IsParen(ts[b-1], paren) {
      assert Parens(ts, a, b, paren) == before + {b - 1};
    } else {
      assert Parens(ts, a, b, paren) == before;
    }
  }

  /** The call headed at i closes at token e: the balance first returns to zero there. */
  predicate ClosesCall(ts: seq<Token>, i: nat, e: nat) {
    i + 3 < e < |ts| && Balance(ts, i + 3, e + 1) == 0 && OpenUpTo(ts, i + 3, e)
  }

  /** Token k opens one level too many while the call is open. */
  predicate Overflows(ts: seq<Token>, i: nat, k: nat) {
    i + 3 < k < |ts| && Balance(ts, i + 3, k + 1) > DEPTH_LIMIT && OpenUpTo(ts, i + 3, k)
  }

  ghost function Closing(ts: seq<Token>, i: nat): Closed {
    if exists e :: ClosesCall(ts, i, e) then
      var e :| ClosesCall(ts, i, e);
      At(e)
    else if exists k :: Overflows(ts, i, k) then Deep
    else Never
  }

  lemma ClosesOnce(ts: seq<Token>, i: nat, e: nat, f: nat)
    requires ClosesCall(ts, i, e) && (ClosesCall(ts, i, f) || Overflows(ts, i, f))
    ensures e == f && ClosesCall(ts, i, f)
  {
    var o, e', f' := i + 3, e + 1, f + 1;
    var atE, atF := Balance(ts, o, e'), Balance(ts, o, f');
  }

  /** The inner scan of Calls. */
  method FindClose(ts: seq<Token>, i: nat) returns (r: Closed)
    requires Head(ts, i) && forall t :: t in ts ==> WellKinded(t)
    ensures r == Closing(ts, i)
  {
    var depth := 1;
    var end := i + 4;
    assert Balance(ts, i + 3, end) == 1 by {
      assert WellKinded(ts[i+3]) by { assert ts[i+3] in ts; }
      assert ts[i+3].text[0] == '(' && Balance(ts, i + 3, i + 3) == 0;
    }
    while end < |ts|
      invariant i + 4 <= end <= |ts|
      invariant depth == Balance(ts, i + 3, end)
      invariant OpenUpTo(ts, i + 3, end)
    {
      ghost var before := depth;
      if ts[end].kind != Literal {
        if ts[end].text == "(" {
          depth := depth + 1;
        }
        if ts[end].text == ")" {
          depth := depth - 1;
          if depth == 0 {
            assert ClosesCall(ts, i, end);
            forall e | ClosesCall(ts, i, e) ensures e == end { ClosesOnce(ts, i, end, e); }
            return At(end);
          }
        }
        if depth > DEPTH_LIMIT {
          assert Overflows(ts, i, end);
          forall e | ClosesCall(ts, i, e) ensures false { ClosesOnce(ts, i, e, end); }
          return Deep;
        }
      }
      assert depth == before + Weight(ts[end]);
      end := end + 1;
    }
    r := Never;
  }

  function CallOf(source: string, ts: seq<Token>, i: nat, e: nat): Call
    requires Head(ts, i) && i + 3 < e < |ts|
    requires ts[i+3].end <= ts[e].start <= |source|
  {
    Call(ts[i+2].text, ts[i].start, ts[i+3].end, ts[e].end, source[ts[i+3].end..ts[e].start])
  }

  /** The calls headed at token i or later, in source order. */
  ghost function CallsFrom(source: string, ts: seq<Token>, i: nat): Result<seq<Call>, CallError>
    requires TokensOf(source, ts)
    decreases |ts| - i
  {
    if |ts| <= i + 3 then Ok([])
    else if !Head(ts, i) then CallsFrom(source, ts, i + 1)
    else match Closing(ts, i)
      case Deep => Err(TooDeep)
      case Never => Err(Unbalanced)
      case At(e) =>
        ClosePlace(source, ts, i, e);
        match CallsFrom(source, ts, i + 1)
        case Err(x) => Err(x)
        case Ok(rest) => Ok([CallOf(source, ts, i, e)] + rest)
  }

  /** `ts` are slices of the source in order, as the lexer returns them. */
  ghost predicate TokensOf(source: string, ts: seq<Token>) {
    (forall t :: t in ts ==> SliceOf(source, 0, t) && WellKinded(t)) && InOrder(ts)
  }

  lemma ScanTokens(source: string, ts: seq<Token>)
    requires Scan(source, 0) == Some(ts)
    ensures TokensOf(source, ts)
  {
    ScanSlices(source, 0, ts);
    ScanKinds(source, 0, ts);
  }

  lemma ClosePlace(source: string, ts: seq<Token>, i: nat, e: nat)
    requires TokensOf(source, ts) && i + 3 < e < |ts|
    ensures ts[i+3].end <= ts[e].start < ts[e].end <= |source|
  {
    assert ts[e] in ts;
  }

  ghost function CallsResult(source: string): Result<seq<Call>, CallError> {
    match Scan(source, 0)
    case None => Err(OpenLiteral)
    case Some(ts) => ScanTokens(source, ts); CallsFrom(source, ts, 0)
  }

  ghost function Continue(calls: seq<Call>, rest: Result<seq<Call>, CallError>): Result<seq<Call>, CallError> {
    match rest
    case Err(x) => Err(x)
    case Ok(more) => Ok(calls + more)
  }

  lemma ContinueOne(calls: seq<Call>, c: Call, rest: Result<seq<Call>, CallError>)
    ensures Continue(calls + [c], rest) == Continue(calls, Continue([c], rest))
  {
    if rest.Ok? { assert (calls + [c]) + rest.value == calls + ([c] + rest.value); }
  }

  /** Calls: every head is tried, from left to right. */
  method Calls(source: string) returns (r: Result<seq<Call>, CallError>)
    ensures r == CallsResult(source)
  {
    var lexed := Lex(source);
    if lexed.Err? {
      return Err(OpenLiteral);
    }
    var ts := lexed.value;
    ScanTokens(source, ts);
    var calls := [];
    var i := 0;
    ghost var all := CallsFrom(source, ts, 0);
    assert Continue([], all) == all by {
      if all.Ok? { assert [] + all.value == all.value; }
    }
    while i + 3 < |ts|
      invariant 0 <= i
      invariant all == Continue(calls, CallsFrom(source, ts, i))
    {
      if Head(ts, i) {
        var c := FindClose(ts, i);
        match c
        case Deep => return Err(TooDeep);
        case Never => return Err(Unbalanced);
        case At(e) =>
          ClosePlace(source, ts, i, e);
          var call := CallOf(source, ts, i, e);
          ContinueOne(calls, call, CallsFrom(source, ts, i + 1));
          calls := calls + [call];
      }
      i := i + 1;
    }
    assert calls + [] == calls;
    r := Ok(calls);
  }

  // ---------------------------------------------------------------- what the list contains

  /** All head positions from i on, ascending. */
  function Heads(ts: seq<Token>, i: nat): (hs: seq<nat>)
    ensures forall h :: h in hs <==> i <= h && Head(ts, h)
    ensures forall a, b :: 0 <= a < b < |hs| ==> hs[a] < hs[b]
    decreases |ts| - i
  {
    if |ts| <= i + 3 then []
    else if Head(ts, i) then
      var rest := Heads(ts, i + 1);
      assert forall b :: 0 <= b < |rest| ==> rest[b] in rest;
      [i] + rest
    else Heads(ts, i + 1)
  }

  /** Call c is the one headed at token h and closed at its matching parenthesis. */
  ghost predicate IsCallAt(source: string, ts: seq<Token>, h: nat, c: Call) {
    && Head(ts, h) && Closing(ts, h).At?
    && var e := Closing(ts, h).e;
    && ClosesCall(ts, h, e) && ts[h+3].end <= ts[e].start < ts[e].end <= |source|
    && c == CallOf(source, ts, h, e)
  }

  ghost predicate AllCalls(source: string, ts: seq<Token>, hs: seq<nat>, calls: seq<Call>) {
    |calls| == |hs| && forall m :: 0 <= m < |calls| ==> IsCallAt(source, ts, hs[m], calls[m])
  }

  lemma AllCallsCons(source: string, ts: seq<Token>, h: nat, c: Call, hs: seq<nat>, calls: seq<Call>)
    requires IsCallAt(source, ts, h, c) && AllCalls(source, ts, hs, calls)
    ensures AllCalls(source, ts, [h] + hs, [c] + calls)
  {
  }

  ghost predicate AllClose(ts: seq<Token>, hs: seq<nat>) {
    hs == [] || (Closing(ts, hs[0]).At? && AllClose(ts, hs[1..]))
  }

  lemma {:induction false} AllCloseMeans(ts: seq<Token>, hs: seq<nat>)
    ensures AllClose(ts, hs) <==> forall h :: h in hs ==> Closing(ts, h).At?
  {
    if hs != [] {
      AllCloseMeans(ts, hs[1..]);
      assert forall h :: h in hs <==> h == hs[0] || h in hs[1..];
    }
  }

  lemma {:induction false} CallsAreHeadsFrom(source: string, ts: seq<Token>, i: nat)
    requires TokensOf(source, ts)
    ensures CallsFrom(source, ts, i).Ok? <==> AllClose(ts, Heads(ts, i))
    ensures CallsFrom(source, ts, i).Ok? ==>
              AllCalls(source, ts, Heads(ts, i), CallsFrom(source, ts, i).value)
    decreases |ts| - i
  {
    if i + 3 < |ts| {
      CallsAreHeadsFrom(source, ts, i + 1);
      if Head(ts, i) {
        assert Heads(ts, i) == [i] + Heads(ts, i + 1) && Heads(ts, i)[1..] == Heads(ts, i + 1);
        if Closing(ts, i).At? && CallsFrom(source, ts, i + 1).Ok? {
          var e := Closing(ts, i).e;
          ClosePlace(source, ts, i, e);
          AllCallsCons(source, ts, i, CallOf(source, ts, i, e), Heads(ts, i + 1), CallsFrom(source, ts, i + 1).value);
        }
      }
    }
  }

  /** Success means exactly one call per head, in order, each ending at its matching parenthesis. */
  lemma CallsAreHeads(source: string, ts: seq<Token>)
    requires Scan(source, 0) == Some(ts)
    ensures CallsResult(source).Ok? <==> forall h :: h in Heads(ts, 0) ==> Closing(ts, h).At?
    ensures CallsResult(source).Ok? ==> AllCalls(source, ts, Heads(ts, 0), CallsResult(source).value)
  {
    ScanTokens(source, ts);
    CallsAreHeadsFrom(source, ts, 0);
    AllCloseMeans(ts, Heads(ts, 0));
  }

  /** How many parentheses are open after tokens a..b-1. */
  function Nesting(ts: seq<Token>, a: nat, b: nat): int
    requires b <= |ts|
  {
    |Parens(ts, a, b, "(")| - |Parens(ts, a, b, ")")|
  }

  /** From the opening parenthesis at token o up to position m, between 1 and 256 parentheses stay open. */
  ghost predicate StaysOpen(ts: seq<Token>, o: nat, m: nat)
    requires m <= |ts|
  {
    forall j :: o < j <= m ==> 1 <= Nesting(ts, o, j) <= 256
  }

  lemma OpenMeans(ts: seq<Token>, o: nat, m: nat)
    requires m <= |ts|
    ensures OpenUpTo(ts, o, m) <==> StaysOpen(ts, o, m)
  {
    forall j | o < j <= m ensures Balance(ts, o, j) == Nesting(ts, o, j) { BalanceCounts(ts, o, j); }
    hide Nesting, Balance;
  }

  /** After token e no parenthesis of the call at head h is open any more. */
  ghost predicate EndsAt(ts: seq<Token>, h: nat, e: nat) {
    h + 3 < e < |ts| && Nesting(ts, h + 3, e + 1) == 0 && StaysOpen(ts, h + 3, e)
  }

  /** After token k more than 256 are. */
  ghost predicate DeepAt(ts: seq<Token>, h: nat, k: nat) {
    h + 3 < k < |ts| && Nesting(ts, h + 3, k + 1) > 256 && StaysOpen(ts, h + 3, k)
  }

  /**
   * Where a call ends, by counting parentheses outside of literals: at the first token after
   * which none is open. It is refused as too deep exactly if more than 256 are open before.
   */
  lemma ClosingMeans(ts: seq<Token>, h: nat)
    ensures forall e :: Closing(ts, h) == At(e) <==> EndsAt(ts, h, e)
    ensures Closing(ts, h) == Deep <==> exists k :: DeepAt(ts, h, k)
  {
    forall e: nat
      ensures ClosesCall(ts, h, e) <==> EndsAt(ts, h, e)
      ensures Overflows(ts, h, e) <==> DeepAt(ts, h, e)
      ensures ClosesCall(ts, h, e) ==> forall f :: ClosesCall(ts, h, f) || Overflows(ts, h, f) ==> e == f && ClosesCall(ts, h, f)
    {
      CountsAt(ts, h, e);
      hide ClosesCall, Overflows, EndsAt, DeepAt;
      if ClosesCall(ts, h, e) {
        forall f | ClosesCall(ts, h, f) || Overflows(ts, h, f) ensures e == f && ClosesCall(ts, h, f) { ClosesOnce(ts, h, e, f); }
      }
    }
    hide EndsAt, DeepAt;
    ExcludeEachOther(ts, h);
    hide ClosesCall, Overflows;
  }

  lemma ExcludeEachOther(ts: seq<Token>, h: nat)
    ensures (exists k :: Overflows(ts, h, k)) ==> !exists e :: ClosesCall(ts, h, e)
  {
    if e: nat, k: nat :| ClosesCall(ts, h, e) && Overflows(ts, h, k) {
      ClosesOnce(ts, h, e, k);
    }
  }

  lemma CountsAt(ts: seq<Token>, h: nat, e: nat)
    ensures ClosesCall(ts, h, e) <==> EndsAt(ts, h, e)
    ensures Overflows(ts, h, e) <==> DeepAt(ts, h, e)
  {
    if h + 3 < e < |ts| {
      BalanceCounts(ts, h + 3, e + 1);
      OpenMeans(ts, h + 3, e);
    }
    hide Balance, StaysOpen, OpenUpTo, Nesting;
  }

  /** A call without parentheses in its arguments closes at the first closing one, whatever else it contains. */
  lemma {:induction false} FlatCallCloses(source: string, ts: seq<Token>, h: nat, e: nat)
    requires Scan(source, 0) == Some(ts) && Head(ts, h) && h + 3 < e < |ts|
    requires forall k :: h + 3 < k < e ==> ts[k].text != "(" && ts[k].text != ")"
    requires ts[e].text == ")"
    ensures Closing(ts, h) == At(e)
  {
    ScanTokens(source, ts);
    assert ts[h+3] in ts && ts[e] in ts;
    var o := h + 3;
    forall j | o < j <= e ensures Balance(ts, o, j) == 1 { FlatBalance(ts, o, j); }
    assert Balance(ts, o, e + 1) == 0;
    assert ClosesCall(ts, h, e);
    forall f | ClosesCall(ts, h, f) ensures f == e { ClosesOnce(ts, h, e, f); }
  }

  lemma {:induction false} FlatBalance(ts: seq<Token>, o: nat, j: nat)
    requires o < j <= |ts| && ts[o].kind != Literal && ts[o].text == "("
    requires forall k :: o < k < j ==> ts[k].text != "(" && ts[k].text != ")"
    ensures Balance(ts, o, j) == 1
    decreases j
  {
    if o + 1 < j { FlatBalance(ts, o, j - 1); }
  }

  /** The failures: the first head that cannot be closed decides which. */
  lemma {:induction false} CallsFailAt(source: string, ts: seq<Token>, i: nat) returns (h: nat)
    requires TokensOf(source, ts) && CallsFrom(source, ts, i).Err?
    ensures i <= h && Head(ts, h) && !Closing(ts, h).At?
    ensures forall g :: i <= g < h && Head(ts, g) ==> Closing(ts, g).At?
    ensures CallsFrom(source, ts, i) == Err(if Closing(ts, h).Deep? then TooDeep else Unbalanced)
    decreases |ts| - i
  {
    if Head(ts, i) && !Closing(ts, i).At? {
      h := i;
    } else {
      h := CallsFailAt(source, ts, i + 1);
    }
  }

  /** Two heads never share a token. */
  lemma HeadsApart(ts: seq<Token>, g: nat, h: nat)
    requires Head(ts, g) && Head(ts, h) && g < h
    ensures g + 4 <= h
  {
    assert ts[g+1].text[0] == '.' && ts[g+3].text[0] == '(' && ts[h].text[0] == 'r';
    assert ts[h+1].text[0] == '.';
  }

  lemma CloseIsParen(ts: seq<Token>, i: nat, e: nat)
    requires Head(ts, i) && ClosesCall(ts, i, e)
    ensures ts[e].text == ")"
  {
    assert 0 < Balance(ts, i + 3, e);
    assert Balance(ts, i + 3, e + 1) == Balance(ts, i + 3, e) + Weight(ts[e]);
  }

  /** Counted from a head inside an open call, the balance is negative where the outer call closes. */
  lemma InnerGoesNegative(ts: seq<Token>, g: nat, e: nat, h: nat)
    requires forall t :: t in ts ==> WellKinded(t)
    requires Head(ts, g) && ClosesCall(ts, g, e) && Head(ts, h) && g + 4 <= h <= e
    ensures h + 3 < e && Balance(ts, h + 3, e + 1) < 0
  {
    CloseIsParen(ts, g, e);
    assert ts[e].text[0] == ')' && ts[h].text[0] == 'r' && ts[h+1].text[0] == '.' && ts[h+3].text[0] == '(';
    assert WellKinded(ts[h+2]) by { assert ts[h+2] in ts; }
    BalanceAdds(ts, g + 3, h + 3, e + 1);
  }

  /** Two calls are disjoint, or the later one lies strictly inside the earlier one's arguments. */
  lemma CallsNest(ts: seq<Token>, g: nat, e: nat, h: nat, f: nat)
    requires forall t :: t in ts ==> WellKinded(t)
    requires Head(ts, g) && ClosesCall(ts, g, e) && Head(ts, h) && ClosesCall(ts, h, f) && g < h
    ensures e < h || (g + 4 <= h && f < e)
  {
    HeadsApart(ts, g, h);
    if h <= e {
      InnerGoesNegative(ts, g, e, h);
    }
  }
}
