/**
 * Exactly which nodes the safety loop covers: those watched when a tick last got the server
 * lock (pkg/server/safety.go:91-111). A running node that is not covered can stall without
 * bound exactly while the latest snapshot has no native node.
 */
module Unwatched {
  import opened Outcomes
  import S = Supervision
  import I = SupervisionInvariant
  import D = Watchdog
  import opened SafetyLoop
  import opened SafetyProtocol
  import opened TickCycles
  import opened Stalls

  // ---------------------------------------------------------------- who is covered

  /** Event k starts a tick that gets the lock. */
  ghost predicate GotLock(p: Pace, s: Sys, es: seq<Event>, k: nat) {
    && k < |es| && es[k].Tick? && es[k].taken.Some?
    && var t := Run(p, s, es[..k]);
    t.phase == Idle && S.LockFree(t.w) && SnapshotOf(es[k].taken.value, t.w)
  }

  /** Event k is the latest such tick. */
  ghost predicate LastLock(p: Pace, s: Sys, es: seq<Event>, k: nat) {
    GotLock(p, s, es, k) && forall j: nat {:trigger GotLock(p, s, es, j)} :: j > k ==> !GotLock(p, s, es, j)
  }

  lemma GotLockFront(p: Pace, s: Sys, es: seq<Event>, e: Event, k: nat)
    requires k < |es|
    ensures GotLock(p, s, es + [e], k) <==> GotLock(p, s, es, k)
  {
    assert (es + [e])[..k] == es[..k] && (es + [e])[k] == es[k];
  }

  lemma LastLockFront(p: Pace, s: Sys, es: seq<Event>, e: Event, k: nat)
    requires !GotLock(p, s, es + [e], |es|)
    ensures LastLock(p, s, es + [e], k) <==> LastLock(p, s, es, k)
  {
    forall j: nat ensures GotLock(p, s, es + [e], j) <==> GotLock(p, s, es, j) {
      if j < |es| {
        GotLockFront(p, s, es, e, j);
      }
    }
  }

  lemma SeenNow(p: Pace, s: Sys, es: seq<Event>, e: Event)
    ensures GotLock(p, s, es + [e], |es|) ==> Run(p, s, es + [e]).seen == Watched(Run(p, s, es).w)
    ensures !GotLock(p, s, es + [e], |es|) ==> Run(p, s, es + [e]).seen == Run(p, s, es).seen
  {
    RunSplit(p, s, es, [e]);
    RunSingle(p, Run(p, s, es), e);
    assert (es + [e])[..|es|] == es && (es + [e])[|es|] == e;
  }

  /**
   * Exactly which nodes the health bit covers, in every run from the start of the loop: those
   * that were native, running and unmarked when a tick last got the lock.
   */
  lemma {:induction false} CoveredIff(p: Pace, s: Sys, es: seq<Event>, n: S.NodeId)
    requires s.seen == {}
    ensures n in Run(p, s, es).seen <==> exists k: nat :: LastLock(p, s, es, k) && n in Watched(Run(p, s, es[..k]).w)
    decreases |es|
  {
    if es != [] {
      var front, e := es[..|es|-1], es[|es|-1];
      assert es == front + [e];
      CoveredIff(p, s, front, n);
      SeenNow(p, s, front, e);
      if GotLock(p, s, es, |front|) {
        CoveredByLast(p, s, es, n);
      } else {
        forall k: nat ensures LastLock(p, s, es, k) <==> LastLock(p, s, front, k) { LastLockFront(p, s, front, e, k); }
        forall k: nat | k < |front| ensures es[..k] == front[..k] { }
      }
    }
  }

  lemma CoveredByLast(p: Pace, s: Sys, es: seq<Event>, n: S.NodeId)
    requires es != [] && GotLock(p, s, es, |es| - 1)
    ensures n in Watched(Run(p, s, es[..|es|-1]).w)
       <==> exists k: nat :: LastLock(p, s, es, k) && n in Watched(Run(p, s, es[..k]).w)
  {
    var last := |es| - 1;
    assert LastLock(p, s, es, last);
    forall k: nat | LastLock(p, s, es, k) ensures k == last { }
  }

  // ---------------------------------------------------------------- without a native node in the snapshot

  /** Ticks pass until the given time; the supervisor does nothing. */
  lemma {:induction false} KeepTicking(p: Pace, s: Sys, until: nat) returns (es: seq<Event>)
    requires Ready(p, s) && s.snap.native == 0 && p.gap > 0 && Fits(until + p.gap)
    ensures var t := Run(p, s, es);
      && Ready(p, t) && t.w == s.w.(now := t.w.now) && until <= t.w.now && t.snap == s.snap
      && s.passes <= t.passes && t.passes - s.passes == t.completed - s.completed
      && (s.w.now < until ==> s.passes < t.passes)
    decreases if s.at < until then until - s.at else 0
  {
    es := [];
    if s.w.now < until {
      var to := s.at + p.gap;
      var cycle := CycleEvents(s, to, None);
      Cycle(p, s, to, None);
      var t := Run(p, s, cycle);
      var rest := KeepTicking(p, t, until);
      RunSplit(p, s, cycle, rest);
      es := cycle + rest;
    }
  }

  /** Node n makes no progress for `long`, and nothing is latched. */
  ghost predicate StallsFor(p: Pace, s: Sys, es: seq<Event>, n: S.NodeId, long: nat)
    requires n in s.w.nodes
  {
    var t := Run(p, s, es);
    && n in t.w.nodes && t.w.nodes[n] == s.w.nodes[n] && s.w.now + long <= t.w.now
    && !t.w.estop && !t.halted
  }

  /** However long: while the latest snapshot has no native node, any node can stall unnoticed, ticks passing all the time. */
  lemma StallsUnnoticed(p: Pace, s: Sys, n: S.NodeId, long: nat) returns (es: seq<Event>)
    requires Ready(p, s) && s.snap.native == 0 && p.gap > 0 && n in s.w.nodes && Fits(s.w.now + long + p.gap)
    ensures StallsFor(p, s, es, n, long)
    ensures Run(p, s, es).passes - s.passes == Run(p, s, es).completed - s.completed
    ensures long > 0 ==> Run(p, s, es).passes > s.passes
  {
    es := KeepTicking(p, s, s.w.now + long);
  }

  /**
   * The exact condition for a bound: between two ticks a running node can stall for
   * 40 ms + gap + reply unnoticed if and only if the latest snapshot has no native node
   * (and then for any time, as StallsUnnoticed says).
   */
  lemma {:induction false} UnboundedIffNoneSeen(p: Pace, s: Sys, n: S.NodeId, c: S.ProcId, long: nat)
    requires Sound(p, s) && Ready(p, s) && p.gap > 0 && RunsOn(s.w, n, c)
    requires long == 40_000 + p.gap + p.reply && Fits(s.w.now + long + p.gap)
    ensures (exists es :: StallsFor(p, s, es, n, long)) <==> s.snap.native == 0
  {
    if s.snap.native == 0 {
      var es := StallsUnnoticed(p, s, n, long);
    } else {
      forall es ensures !StallsFor(p, s, es, n, long) { WatchedSoBounded(p, s, es, n, c); }
    }
  }

  lemma WatchedSoBounded(p: Pace, s: Sys, es: seq<Event>, n: S.NodeId, c: S.ProcId)
    requires Sound(p, s) && s.phase == Idle && s.snap.native != 0 && RunsOn(s.w, n, c)
    ensures !StallsFor(p, s, es, n, 40_000 + p.gap + p.reply)
  {
    assert I.NodeOk(s.w, n);
    OldestNotAhead(p, s);
    RememberedRun(p, s, es, n, c);
    if StallsFor(p, s, es, n, 40_000 + p.gap + p.reply) {
      UnwatchedIsBounded(p, s, es, n, c);
    }
  }

  // ---------------------------------------------------------------- a run from the start of the server

  /** A native node is started at the given time; no tick has come before. */
  function StartTalker(from: nat): seq<Event> {
    [Work(S.AAdvance(from))] + ([Work(S.ACreate)] + ([Work(S.ARunCheck(0, Talker()))] + [Work(S.ARunStart(S.Starts))]))
  }

  function Talker(): S.Request { S.Request("talker", true, S.Never, 0) }

  function TalkerStarted(from: nat): S.World {
    S.RunStart(S.RunCheck(S.Create(S.Advance(S.Init(true), from)), 0, Talker()), S.Starts)
  }

  lemma TalkerWorld(from: nat)
    ensures var w := TalkerStarted(from);
      && RunsOn(w, 0, 0) && !w.estop && w.now == from && w.pending.None? && w.hasSafety && w.items == {0}
      && w.nodes == map[0 := w.nodes[0]] && w.nodes[0].lastProgress == Some(from) && w.nodes[0].counter == 0
      && w.nodes[0].ws == 0 && w.owner == map[0 := 0]
  {
    var s1 := S.Create(S.Advance(S.Init(true), from));
    assert !S.NameBusy(s1, 0, "talker");
  }

  lemma TalkerActions(w: S.World, from: nat)
    requires w == S.Init(true)
    ensures var w1 := S.Step(w, S.AAdvance(from));
      var w2 := S.Step(w1, S.ACreate);
      var w3 := S.Step(w2, S.ARunCheck(0, Talker()));
      S.Step(w3, S.ARunStart(S.Starts)) == TalkerStarted(from)
  {
    hide S.Advance, S.Create, S.RunCheck, S.RunStart;
  }

  lemma TalkerSteps(p: Pace, s: Sys, from: nat)
    requires OnTime(p, s, from) && s.w == S.Init(true)
    ensures Run(p, s, StartTalker(from)) == s.(w := TalkerStarted(from))
  {
    var a, b, c, d := Work(S.AAdvance(from)), Work(S.ACreate), Work(S.ARunCheck(0, Talker())), Work(S.ARunStart(S.Starts));
    Four(p, s, a, b, c, d);
    TalkerActions(s.w, from);
    hide S.Step, TalkerStarted, Next, Run;
    var s1 := s.(w := S.Step(s.w, a.a));
    var s2 := s1.(w := S.Step(s1.w, b.a));
    var s3 := s2.(w := S.Step(s2.w, c.a));
    Worked(p, s, a.a);
    Worked(p, s1, b.a);
    Worked(p, s2, c.a);
    Worked(p, s3, d.a);
  }

  lemma TalkerRuns(p: Pace, from: nat)
    requires from <= p.gap && p.gap < 50_000
    ensures var s := Run(p, Start(S.Init(true), D.Init(50, 0)), StartTalker(from));
      && Ready(p, s) && s.snap == Snapshot(0, 0, None) && s.w.now == from && s.at == 0 && s.passes == s.completed == 0
      && s.w == TalkerStarted(from) && s.dog.timeout == 50
  {
    hide Next, TalkerStarted;
    TalkerSteps(p, Start(S.Init(true), D.Init(50, 0)), from);
    TalkerWorld(from);
  }

  lemma Worked(p: Pace, s: Sys, a: S.Action)
    requires a.AAdvance? ==> OnTime(p, s, a.d)
    ensures Next(p, s, Work(a)) == s.(w := S.Step(s.w, a))
  {
  }

  /**
   * A run from the start of the server in which a native node runs without any progress for
   * as long as one likes while every tick passes: no tick ever got the lock after its start.
   */
  lemma NeverSeenStalls(p: Pace, long: nat) returns (es: seq<Event>)
    requires 0 < p.gap < 50_000 && 0 < long && Fits(long + p.gap)
    ensures var s := Run(p, Start(S.Init(true), D.Init(50, 0)), StartTalker(0));
      && RunsOn(s.w, 0, 0) && StallsFor(p, s, es, 0, long)
      && Run(p, s, es).passes == Run(p, s, es).completed > 0
  {
    TalkerRuns(p, 0);
    TalkerWorld(0);
    var s := Run(p, Start(S.Init(true), D.Init(50, 0)), StartTalker(0));
    es := StallsUnnoticed(p, s, 0, long);
  }
}
