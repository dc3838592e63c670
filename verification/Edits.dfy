/**
 * Edits and their application (pkg/migration/migration.go:38-41 and 237-246).
 *
 * `Rewrite` reads the source once, left to right, and replaces every edited span at the
 * same time; it does not depend on the order of the edit list. `Splice` is the program's
 * right-to-left in-place splicing, proved to compute the same text whenever the edits are
 * disjoint and to fail exactly when they are not.
 */
module Edits {
  import opened Outcomes

  datatype Edit = Edit(start: nat, end: nat, text: string)

  datatype SpliceError = Overlap

  predicate Inside(source: string, es: seq<Edit>) {
    forall e :: e in es ==> e.start < e.end <= |source|
  }

  predicate Apart(e: Edit, f: Edit) { e.end <= f.start || f.end <= e.start }

  /** No two entries of the list touch a common byte. */
  predicate Disjoint(es: seq<Edit>) {
    && (forall e, f :: e in es && f in es ==> e == f || Apart(e, f))
    && (forall e :: e in es ==> multiset(es)[e] == 1)
  }

  /** The edit that begins at position i. */
  function EditAt(es: seq<Edit>, i: nat): (r: Option<Edit>)
    ensures r.Some? ==> r.value in es && r.value.start == i
    ensures r.None? ==> forall e :: e in es ==> e.start != i
  {
    if es == [] then None
    else if es[0].start == i then Some(es[0])
    else EditAt(es[1..], i)
  }

  /** The source from position i on, with all edits applied at once. */
  function Rewrite(source: string, es: seq<Edit>, i: nat): string
    requires Inside(source, es) && i <= |source|
    decreases |source| - i
  {
    match EditAt(es, i)
    case Some(e) => e.text + Rewrite(source, es, e.end)
    case None => if i == |source| then [] else [source[i]] + Rewrite(source, es, i + 1)
  }

  predicate NoStartIn(es: seq<Edit>, i: nat, j: nat) {
    forall e :: e in es ==> !(i <= e.start < j)
  }

  /** Bytes outside the edits are copied. */
  lemma {:induction false} CopyRun(source: string, es: seq<Edit>, i: nat, j: nat)
    requires Inside(source, es) && i <= j <= |source| && NoStartIn(es, i, j)
    ensures Rewrite(source, es, i) == source[i..j] + Rewrite(source, es, j)
    decreases j - i
  {
    if i < j {
      CopyRun(source, es, i + 1, j);
      assert [source[i]] + source[i + 1..j] == source[i..j];
    }
  }

  predicate DescendingStarts(es: seq<Edit>) {
    forall j, k :: 0 <= j < k < |es| ==> es[k].start <= es[j].start
  }

  lemma {:induction false} RepeatsCount(es: seq<Edit>, j: nat, k: nat)
    requires j < k < |es| && es[j] == es[k]
    ensures multiset(es)[es[j]] > 1
  {
    assert es == es[..k] + [es[k]] + es[k + 1..];
    assert es[j] == es[..k][j] && es[j] in multiset(es[..k]);
  }

  lemma {:induction false} NoRepeats(es: seq<Edit>)
    requires forall j, k :: 0 <= j < k < |es| ==> es[j] != es[k]
    ensures forall e :: e in es ==> multiset(es)[e] == 1
  {
    if es != [] {
      var last := |es| - 1;
      NoRepeats(es[..last]);
      assert es == es[..last] + [es[last]];
      assert es[last] !in es[..last];
    }
  }

  /** Any list sorted by descending start is disjoint iff each span ends before the previous starts. */
  lemma StepwiseDisjoint(source: string, es: seq<Edit>)
    requires Inside(source, es)
    requires forall j, k :: 0 <= j < k < |es| ==> es[k].end <= es[j].start
    ensures Disjoint(es)
  {
    forall j, k | 0 <= j < k < |es| ensures es[j] != es[k] {
      assert es[j] in es;
    }
    NoRepeats(es);
  }

  lemma SameElements(a: seq<Edit>, b: seq<Edit>)
    requires multiset(a) == multiset(b)
    ensures forall e :: e in a <==> e in b
    ensures Disjoint(a) <==> Disjoint(b)
  {
    forall e ensures e in a <==> e in b {
      assert e in a <==> e in multiset(a);
      assert e in b <==> e in multiset(b);
    }
  }

  /** A span that reaches over the start of its predecessor shows the list is not disjoint. */
  lemma NotDisjoint(source: string, es: seq<Edit>, sorted: seq<Edit>, i: nat)
    requires Inside(source, es) && multiset(sorted) == multiset(es) && DescendingStarts(sorted)
    requires 0 < i < |sorted| && sorted[i].end > sorted[i-1].start
    ensures !Disjoint(es)
  {
    SameElements(sorted, es);
    var u, v := sorted[i-1], sorted[i];
    assert u in sorted && v in sorted && u in es && v in es;
    if u == v { RepeatsCount(sorted, i - 1, i); }
  }

  lemma FinishSplice(source: string, es: seq<Edit>, sorted: seq<Edit>, last: nat)
    requires Inside(source, es) && multiset(sorted) == multiset(es) && last <= |source|
    requires forall j, k :: 0 <= j < k < |sorted| ==> sorted[k].end <= sorted[j].start
    requires forall k :: 0 <= k < |sorted| ==> last <= sorted[k].start
    ensures Disjoint(es) && source[..last] + Rewrite(source, es, last) == Rewrite(source, es, 0)
  {
    SameElements(sorted, es);
    forall e | e in es ensures !(0 <= e.start < last) { assert e in sorted; }
    CopyRun(source, es, 0, last);
    assert source[..last] == source[0..last];
    assert Inside(source, sorted);
    StepwiseDisjoint(source, sorted);
  }

  /** Between the edit at i and the edits already applied no other edit begins. */
  lemma NothingBetween(source: string, es: seq<Edit>, sorted: seq<Edit>, i: nat, last: nat)
    requires Inside(source, es) && multiset(sorted) == multiset(es) && DescendingStarts(sorted) && Disjoint(es)
    requires i < |sorted| && last <= |source| && sorted[i].end <= last
    requires forall k :: 0 <= k < i ==> last <= sorted[k].start
    ensures sorted[i] in es && sorted[i].start < sorted[i].end && EditAt(es, sorted[i].start) == Some(sorted[i])
    ensures NoStartIn(es, sorted[i].end, last)
  {
    SameElements(sorted, es);
    var v := sorted[i];
    assert v in sorted && v in es;
    forall e | e in es ensures e.start <= v.start || last <= e.start {
      assert e in sorted;
    }
    assert EditAt(es, v.start).value in es;
  }

  /** One splice turns "edited from last on" into "edited from v.start on". */
  lemma SpliceOne(source: string, es: seq<Edit>, v: Edit, last: nat, output: string)
    requires Inside(source, es) && v.start < v.end <= last <= |source|
    requires EditAt(es, v.start) == Some(v) && NoStartIn(es, v.end, last)
    requires output == source[..last] + Rewrite(source, es, last)
    ensures v.end <= |output|
    ensures output[..v.start] + v.text + output[v.end..] == source[..v.start] + Rewrite(source, es, v.start)
  {
    CopyRun(source, es, v.end, last);
    var rest := Rewrite(source, es, last);
    assert output[..v.start] == source[..v.start];
    assert output[v.end..] == source[v.end..last] + rest;
  }

  /**
   * The splice loop. `sorted` is the edit list in descending order of start, as the
   * library sort leaves it: equal starts may come in any order.
   */
  method Splice(source: string, es: seq<Edit>, sorted: seq<Edit>) returns (r: Result<string, SpliceError>)
    requires Inside(source, es) && multiset(sorted) == multiset(es) && DescendingStarts(sorted)
    ensures r.Ok? <==> Disjoint(es)
    ensures r.Ok? ==> r.value == Rewrite(source, es, 0)
  {
    assert Inside(source, sorted) by { SameElements(sorted, es); }
    var output := source;
    var last := |source|;
    assert EditAt(es, last).None?;
    var i := 0;
    while i < |sorted|
      invariant 0 <= i <= |sorted| && last <= |source| && last <= |output|
      invariant last == if i == 0 then |source| else sorted[i-1].start
      invariant forall k :: 0 <= k < i ==> last <= sorted[k].start
      invariant forall j, k :: 0 <= j < k < i ==> sorted[k].end <= sorted[j].start
      invariant Disjoint(es) ==> output == source[..last] + Rewrite(source, es, last)
    {
      var v := sorted[i];
      if v.end > last {
        NotDisjoint(source, es, sorted, i);
        return Err(Overlap);
      }
      if Disjoint(es) {
        NothingBetween(source, es, sorted, i, last);
        SpliceOne(source, es, v, last, output);
      }
      output := output[..v.start] + v.text + output[v.end..];
      last := v.start;
      i := i + 1;
    }
    FinishSplice(source, es, sorted, last);
    r := Ok(output);
  }
}
