/**
 * The bounded workspace log (pkg/server/server.go:101-112) and the cursor of a stream that
 * reads it (pkg/server/websocket.go:65-101).
 */
module LogRing {
  import opened Outcomes

  const KEPT: nat := 1000
  const LONGEST: nat := 16384
  const CUT := " [truncated]"

  datatype Event = Event(sequence: nat, message: string)

  function Clip(message: string): string {
    if |message| > LONGEST then message[..LONGEST] + CUT else message
  }

  /** Messages of up to 16384 bytes are kept as they are; of longer ones that many are, with a note. */
  lemma ClipKeeps(message: string)
    ensures |message| <= 16_384 ==> Clip(message) == message
    ensures |message| > 16_384 ==> Clip(message)[..16_384] == message[..16_384] && Clip(message)[16_384..] == " [truncated]"
  {
  }

  /** The last `kept` elements, or all of them. */
  function Last<T>(s: seq<T>, kept: nat): (r: seq<T>)
    ensures |r| == if |s| < kept then |s| else kept
    ensures forall i :: 0 <= i < |r| ==> r[i] == s[|s| - |r| + i]
  {
    if |s| <= kept then s else s[|s|-kept..]
  }

  /** Drops all but the last `kept`. */
  function Trim<T>(s: seq<T>, kept: nat): seq<T> { if |s| > kept then s[|s|-kept..] else s }

  /** Trimming after every append keeps the last `kept` of all. */
  lemma LastGrows<T>(s: seq<T>, e: T, kept: nat)
    ensures Last(s + [e], kept) == Trim(Last(s, kept) + [e], kept)
  {
  }

  /** In a numbered history, event i has sequence number i + 1. */
  ghost predicate Numbered(history: seq<Event>) {
    forall i :: 0 <= i < |history| ==> history[i].sequence == i + 1
  }

  lemma NumberedGrows(history: seq<Event>, e: Event)
    requires Numbered(history) && e.sequence == |history| + 1
    ensures Numbered(history + [e])
  {
  }

  class Log {
    var sequence: nat
    var logs: seq<Event>
    ghost var history: seq<Event>

    /** The retained log is the last 1000 of all events, which are numbered from 1. */
    ghost predicate Valid()
      reads this
    {
      sequence == |history| && logs == Last(history, KEPT) && Numbered(history)
    }

    constructor ()
      ensures Valid() && history == []
    {
      sequence, logs, history := 0, [], [];
    }

    method Append(message: string)
      requires Valid()
      modifies this
      ensures Valid() && history == old(history) + [Event(old(sequence) + 1, Clip(message))]
    {
      var text := message;
      if |text| > LONGEST {
        text := text[..LONGEST] + CUT;
      }
      sequence := sequence + 1;
      var event := Event(sequence, text);
      LastGrows(history, event, KEPT);
      NumberedGrows(history, event);
      history := history + [event];
      logs := logs + [event];
      if |logs| > KEPT {
        logs := logs[|logs|-KEPT..];
      }
    }
  }

  /** The first sequence number that a tick may send: after the cursor, and still retained. */
  function First(cursor: nat, n: nat, kept: nat): nat {
    if n > kept && cursor < n - kept then n - kept + 1 else cursor + 1
  }

  /** What is retained after the cursor is what the history has from First on. */
  lemma RetainedAfter<T>(history: seq<T>, kept: nat, cursor: nat, base: nat)
    requires cursor <= |history| && base == |history| - |Last(history, kept)|
    ensures First(cursor, |history|, kept) <= |history| + 1
    ensures (if cursor <= base then Last(history, kept) else Last(history, kept)[cursor - base..])
            == history[First(cursor, |history|, kept) - 1..]
  {
  }

  /** The loop of a tick, over events numbered from base + 1: those after the cursor, and the new cursor. */
  method Collect(logs: seq<Event>, cursor: nat, ghost base: nat) returns (events: seq<Event>, next: nat)
    requires forall k :: 0 <= k < |logs| ==> logs[k].sequence == base + k + 1
    requires cursor <= base + |logs|
    ensures events == if cursor <= base then logs else logs[cursor - base..]
    ensures next == if events == [] then cursor else base + |logs|
  {
    events, next := [], cursor;
    ghost var skip: nat := if cursor <= base then 0 else cursor - base;
    var k := 0;
    while k < |logs|
      invariant k <= |logs|
      invariant if k <= skip then events == [] && next == cursor else events == logs[skip..k] && next == base + k
    {
      var l := logs[k];
      if l.sequence > next {
        events := events + [l];
        next := l.sequence;
      }
      k := k + 1;
    }
    assert logs[skip..|logs|] == logs[skip..] && logs[0..] == logs;
  }

  // ---------------------------------------------------------------- all ticks of a stream

  function Range(lo: nat, hi: nat): (r: seq<nat>)
    requires lo <= hi + 1
    ensures |r| == hi + 1 - lo
    ensures forall i :: 0 <= i < |r| ==> r[i] == lo + i
  {
    seq(hi + 1 - lo, i requires 0 <= i => lo + i)
  }

  ghost predicate Growing(ns: seq<nat>) { forall i, j :: 0 <= i < j < |ns| ==> ns[i] <= ns[j] }

  /** The cursor after the ticks: the number of events at the last one. */
  function Cursor(ns: seq<nat>): nat { if ns == [] then 0 else ns[|ns|-1] }

  /** The sequence numbers sent by all ticks, where ns[i] events existed at tick i. */
  function Sent(ns: seq<nat>): seq<nat>
    requires Growing(ns)
    decreases |ns|
  {
    if ns == [] then []
    else Sent(ns[..|ns|-1]) + Range(First(Cursor(ns[..|ns|-1]), Cursor(ns), KEPT), Cursor(ns))
  }

  lemma {:induction false} SentUpTo(ns: seq<nat>)
    requires Growing(ns)
    ensures forall i :: 0 <= i < |Sent(ns)| ==> 1 <= Sent(ns)[i] <= Cursor(ns)
    decreases |ns|
  {
    if ns != [] {
      SentUpTo(ns[..|ns|-1]);
    }
  }

  /** What a stream sends is strictly increasing: in order and without duplicates. */
  lemma {:induction false} SentAscends(ns: seq<nat>, i: nat, j: nat)
    requires Growing(ns) && i < j < |Sent(ns)|
    ensures Sent(ns)[i] < Sent(ns)[j]
    decreases |ns|
  {
    var front := ns[..|ns|-1];
    SentUpTo(front);
    if j < |Sent(front)| {
      SentAscends(front, i, j);
    }
  }

  /** Tick t is the first at which event k existed, and k was still retained then. */
  predicate Caught(ns: seq<nat>, k: nat, t: nat) {
    t < |ns| && k <= ns[t] < k + 1000 && (t > 0 ==> ns[t-1] < k)
  }

  /** An event is sent exactly when it was still retained at the first tick after it: the missed ones are those trimmed between two ticks. */
  lemma {:induction false} SentIff(ns: seq<nat>, k: nat)
    requires Growing(ns) && k >= 1
    ensures k in Sent(ns) <==> exists t: nat :: Caught(ns, k, t)
    decreases |ns|
  {
    if ns != [] {
      var front, last := ns[..|ns|-1], |ns| - 1;
      SentIff(front, k);
      var more := Range(First(Cursor(front), Cursor(ns), KEPT), Cursor(ns));
      assert k in more <==> Caught(ns, k, last) by {
        if Caught(ns, k, last) {
          assert more[k - First(Cursor(front), Cursor(ns), KEPT)] == k;
        }
      }
      if k in Sent(front) {
        var t: nat :| Caught(front, k, t);
        assert Caught(ns, k, t);
      }
      if t: nat :| Caught(ns, k, t) && t < last {
        assert Caught(front, k, t);
      }
    }
  }

  // ---------------------------------------------------------------- the stream

  function Numbers(events: seq<Event>): (r: seq<nat>)
    ensures |r| == |events|
  {
    seq(|events|, i requires 0 <= i < |events| => events[i].sequence)
  }

  /** A tail of the history has consecutive sequence numbers. */
  lemma TailNumbers(history: seq<Event>, from: nat)
    requires Numbered(history) && 1 <= from <= |history| + 1
    ensures Numbers(history[from-1..]) == Range(from, |history|)
  {
  }

  lemma SentGrows(ns: seq<nat>, n: nat)
    requires Growing(ns) && Cursor(ns) <= n
    ensures Growing(ns + [n]) && Sent(ns + [n]) == Sent(ns) + Range(First(Cursor(ns), n, KEPT), n)
  {
    assert (ns + [n])[..|ns|] == ns;
  }

  /** What a tick collects, in terms of the history and of all ticks so far. */
  lemma TickSends(history: seq<Event>, logs: seq<Event>, cursor: nat, base: nat, events: seq<Event>, ticks: seq<nat>)
    requires Numbered(history) && logs == Last(history, KEPT) && base == |history| - |logs|
    requires Growing(ticks) && cursor == Cursor(ticks) <= |history|
    requires events == if cursor <= base then logs else logs[cursor - base..]
    ensures First(cursor, |history|, KEPT) <= |history| + 1
    ensures events == history[First(cursor, |history|, KEPT) - 1..]
    ensures Growing(ticks + [|history|]) && Sent(ticks + [|history|]) == Sent(ticks) + Numbers(events)
  {
    RetainedAfter(history, KEPT, cursor, base);
    TailNumbers(history, First(cursor, |history|, KEPT));
    SentGrows(ticks, |history|);
  }

  /** ticks logs the number of events at each tick, sent the sequence numbers sent so far. */
  class Stream {
    var cursor: nat
    ghost var ticks: seq<nat>
    ghost var sent: seq<nat>

    ghost predicate Valid()
      reads this
    {
      Growing(ticks) && cursor == Cursor(ticks) && sent == Sent(ticks)
    }

    constructor ()
      ensures Valid() && ticks == [] && sent == []
    {
      cursor, ticks, sent := 0, [], [];
    }

    /** What a tick sends from the retained log of a history. */
    method Send(logs: seq<Event>, ghost history: seq<Event>) returns (events: seq<Event>)
      requires Valid() && Numbered(history) && logs == Last(history, KEPT) && cursor <= |history|
      modifies this
      ensures Valid() && ticks == old(ticks) + [|history|] && sent == old(sent) + Numbers(events)
      ensures cursor == |history|
      ensures events == history[First(old(cursor), |history|, KEPT) - 1..]
    {
      ghost var base := |history| - |logs|;
      var next;
      events, next := Collect(logs, cursor, base);
      TickSends(history, logs, cursor, base, events, ticks);
      cursor := next;
      ticks, sent := ticks + [|history|], sent + Numbers(events);
    }

    /** One tick: send every retained event after the cursor. */
    method Tick(log: Log) returns (events: seq<Event>)
      requires Valid() && log.Valid() && cursor <= log.sequence
      modifies this
      ensures Valid() && ticks == old(ticks) + [log.sequence] && sent == old(sent) + Numbers(events)
      ensures cursor == log.sequence
      ensures events == log.history[First(old(cursor), log.sequence, KEPT) - 1..]
    {
      events := Send(log.logs, log.history);
    }
  }
}
