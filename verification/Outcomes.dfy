/** Success-or-error and optional values shared by every component. */
module Outcomes {
  datatype Option<+T> = None | Some(value: T)

  datatype Result<+T, +E> = Ok(value: T) | Err(error: E)

  /** Puts a known prefix in front of an optional sequence. */
  function Prepend<T>(front: seq<T>, rest: Option<seq<T>>): Option<seq<T>> {
    match rest
    case None => None
    case Some(r) => Some(front + r)
  }

  lemma PrependNothing<T>(rest: Option<seq<T>>)
    ensures Prepend([], rest) == rest
  {
    if rest.Some? {
      assert [] + rest.value == rest.value;
    }
  }

  lemma PrependConcat<T>(a: seq<T>, b: seq<T>, rest: Option<seq<T>>)
    ensures Prepend(a, Prepend(b, rest)) == Prepend(a + b, rest)
  {
    if rest.Some? {
      assert a + (b + rest.value) == (a + b) + rest.value;
    }
  }

  /** A slice of a slice. */
  lemma SubSlice<T>(t: seq<T>, i: nat, n: nat, from: nat, to: nat)
    requires from <= to <= n && i + n <= |t|
    ensures t[i..i + n][from..to] == t[i + from..i + to]
  {
    var u, v := t[i..i + n], t[i + from..i + to];
    forall x | 0 <= x < to - from ensures u[from..to][x] == v[x] { assert u[from + x] == t[i + (from + x)]; }
  }
}
