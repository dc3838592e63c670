/**
 * How long a native node can stall unnoticed (pkg/server/safety.go:83-157). A node that one
 * snapshot has watched stays watched while it runs, so a stall latches within a bound. A node
 * that no snapshot has watched yet is bounded by the others; only while the latest snapshot
 * has no native node at all is there no bound.
 */
module Stalls {
  import opened Outcomes
  import S = Supervision
  import I = SupervisionInvariant
  import E = EStop
  import G = Generations
  import D = Watchdog
  import opened SafetyLoop
  import opened SafetyProtocol

  /** Between two ticks the latest snapshot is the one that passed, and it was healthy then. */
  ghost predicate Sound(p: Pace, s: Sys) {
    && Sane(p, s) && E.SweptOk(s.w)
    && (s.phase == Idle ==> s.passed == s.seen && Healthy(s.snap, s.at))
  }

  lemma StartSound(p: Pace, w: S.World, dog: D.Dog)
    requires I.Inv(w) && E.SweptOk(w) && w.hasSafety && p.reply <= p.gap
    ensures Sound(p, Start(w, dog))
  {
    StartOk(p, w, dog);
  }

  lemma SweptKept(p: Pace, s: Sys, e: Event)
    requires Sane(p, s) && E.SweptOk(s.w)
    ensures E.SweptOk(Next(p, s, e).w)
  {
    if Next(p, s, e).w != s.w {
      var a := StepTaken(p, s, e);
      E.SweptStep(s.w, a);
    }
  }

  lemma SoundStep(p: Pace, s: Sys, e: Event)
    requires Sound(p, s)
    ensures Sound(p, Next(p, s, e))
  {
    StepOk(p, s, e);
    SweptKept(p, s, e);
  }

  lemma {:induction false} SoundRun(p: Pace, s: Sys, es: seq<Event>)
    requires Sound(p, s)
    ensures Sound(p, Run(p, s, es))
    decreases |es|
  {
    if es != [] {
      SoundRun(p, s, es[..|es|-1]);
      SoundStep(p, Run(p, s, es[..|es|-1]), es[|es|-1]);
    }
  }

  // ---------------------------------------------------------------- a node that runs on

  /** Process c is the running process of native node n, which is not marked stopping. */
  predicate RunsOn(w: S.World, n: S.NodeId, c: S.ProcId) {
    && n in w.nodes && c in w.owner
    && var x := w.nodes[n];
    x.cmd == c && x.native && x.status == S.Running && !x.stopping
  }

  /** A node that runs with a process and is unmarked was so before the step: a restart brings a new process. */
  lemma RanBefore(w: S.World, a: S.Action, n: S.NodeId, c: S.ProcId)
    requires I.Inv(w) && n in w.nodes && c in w.owner && RunsOn(S.Step(w, a), n, c)
    ensures RunsOn(w, n, c)
  {
    G.EveryNodeStep(w, a, n);
  }

  lemma RanBeforeEvent(p: Pace, s: Sys, e: Event, n: S.NodeId, c: S.ProcId)
    requires Sane(p, s) && n in s.w.nodes && c in s.w.owner && RunsOn(Next(p, s, e).w, n, c)
    ensures RunsOn(s.w, n, c)
  {
    if Next(p, s, e).w != s.w {
      var a := StepTaken(p, s, e);
      RanBefore(s.w, a, n, c);
    }
  }

  /** Nodes and processes are never forgotten. */
  lemma Remembered(p: Pace, s: Sys, e: Event, n: S.NodeId, c: S.ProcId)
    requires Sane(p, s) && n in s.w.nodes && c in s.w.owner
    ensures n in Next(p, s, e).w.nodes && c in Next(p, s, e).w.owner
  {
    if Next(p, s, e).w != s.w {
      var a := StepTaken(p, s, e);
      G.EveryNodeStep(s.w, a, n);
      G.StepOnward(s.w, a);
    }
  }

  lemma {:induction false} RememberedRun(p: Pace, s: Sys, es: seq<Event>, n: S.NodeId, c: S.ProcId)
    requires Sane(p, s) && n in s.w.nodes && c in s.w.owner
    ensures n in Run(p, s, es).w.nodes && c in Run(p, s, es).w.owner
    decreases |es|
  {
    if es != [] {
      RememberedRun(p, s, es[..|es|-1], n, c);
      RunOk(p, s, es[..|es|-1]);
      Remembered(p, Run(p, s, es[..|es|-1]), es[|es|-1], n, c);
    }
  }

  /** A node that runs unmarked lies in a listed workspace: a snapshot taken now watches it. */
  lemma RunningIsWatched(w: S.World, n: S.NodeId, c: S.ProcId)
    requires I.Inv(w) && E.SweptOk(w) && RunsOn(w, n, c)
    ensures n in Watched(w)
  {
    WatchedIff(w, n);
  }

  /** Exactly when a tick's snapshot covers a running node: the tick gets the lock, or the latest snapshot already does. */
  lemma TickCoversIff(p: Pace, s: Sys, taken: Option<Snapshot>, wall: nat, n: S.NodeId, c: S.ProcId)
    requires Sound(p, s) && s.phase == Idle && RunsOn(s.w, n, c)
    requires taken.Some? ==> S.LockFree(s.w) && SnapshotOf(taken.value, s.w)
    ensures n in DoTick(s, taken, wall).seen <==> taken.Some? || n in s.seen
  {
    RunningIsWatched(s.w, n, c);
  }

  lemma SeenStep(p: Pace, s: Sys, e: Event, n: S.NodeId, c: S.ProcId)
    requires Sound(p, s) && n in s.seen && RunsOn(s.w, n, c)
    ensures n in Next(p, s, e).seen
  {
    RunningIsWatched(s.w, n, c);
  }

  /** A watched node stays watched while its process runs on unmarked, whatever the locks do. */
  lemma {:induction false} SeenStays(p: Pace, s: Sys, es: seq<Event>, n: S.NodeId, c: S.ProcId)
    requires Sound(p, s) && n in s.seen && n in s.w.nodes && c in s.w.owner
    requires RunsOn(Run(p, s, es).w, n, c)
    ensures n in Run(p, s, es).seen
    decreases |es|
  {
    if es != [] {
      var t, e := Run(p, s, es[..|es|-1]), es[|es|-1];
      SoundRun(p, s, es[..|es|-1]);
      RememberedRun(p, s, es[..|es|-1], n, c);
      RanBeforeEvent(p, t, e, n, c);
      SeenStays(p, s, es[..|es|-1], n, c);
      SeenStep(p, t, e, n, c);
    }
  }

  // ---------------------------------------------------------------- bounded response

  /** t, later than s, still watches n: it has passed a tick that did, or is in the tick of s. */
  predicate StillWatched(s: Sys, t: Sys, n: S.NodeId) {
    n in t.seen && (t.phase == Done || n in t.passed || (t.phase == Sent && t.at == s.at))
  }

  lemma {:induction false} WatchedOn(p: Pace, s: Sys, es: seq<Event>, n: S.NodeId, c: S.ProcId)
    requires Sound(p, s) && n in s.seen && n in s.w.nodes && c in s.w.owner && RunsOn(Run(p, s, es).w, n, c)
    ensures StillWatched(s, Run(p, s, es), n)
    decreases |es|
  {
    if es != [] {
      var t, e := Run(p, s, es[..|es|-1]), es[|es|-1];
      SoundRun(p, s, es[..|es|-1]);
      RememberedRun(p, s, es[..|es|-1], n, c);
      RanBeforeEvent(p, t, e, n, c);
      WatchedOn(p, s, es[..|es|-1], n, c);
      SeenStep(p, t, e, n, c);
    }
  }

  /**
   * Bounded response: take any reachable state whose latest snapshot watches node n, and any
   * continuation in which the same process of n still runs unmarked. Unless the E-Stop is
   * latched or the loop was stopped by then, n has recorded progress less than
   * 40 ms + gap + reply ago, or the tick that first watched it has not ended yet.
   */
  lemma {:induction false} BoundedResponse(p: Pace, w: S.World, dog: D.Dog, es: seq<Event>, more: seq<Event>, n: S.NodeId)
    requires I.Inv(w) && E.SweptOk(w) && w.hasSafety && p.reply <= p.gap
    requires var s := Run(p, Start(w, dog), es);
      var t := Run(p, s, more);
      && n in s.seen && n in s.w.nodes && n in t.w.nodes && t.w.nodes[n].cmd == s.w.nodes[n].cmd
      && t.w.nodes[n].native && t.w.nodes[n].status == S.Running && !t.w.nodes[n].stopping
    ensures var s := Run(p, Start(w, dog), es);
      var t := Run(p, s, more);
      || t.w.estop || t.halted
      || (t.w.nodes[n].lastProgress.Some?
          && t.w.now < t.w.nodes[n].lastProgress.value + 40_000 + p.gap + p.reply)
      || t.w.now <= s.at + p.reply
  {
    var s := Run(p, Start(w, dog), es);
    var t := Run(p, s, more);
    StartSound(p, w, dog);
    SoundRun(p, Start(w, dog), es);
    SoundRun(p, s, more);
    assert I.NodeOk(s.w, n) && I.NodeOk(t.w, n);
    WatchedOn(p, s, more, n, s.w.nodes[n].cmd);
    if !t.w.estop && !t.halted && n in t.passed {
      PassedIsRecent(p, t, n);
    }
  }

  /** With ticks at most 39 ms apart and the 20 ms reply deadline, a watched node that stalls latches in under 100 ms. */
  lemma {:induction false} StallLatchesWithin100ms(p: Pace, w: S.World, dog: D.Dog, es: seq<Event>, more: seq<Event>, n: S.NodeId)
    requires I.Inv(w) && E.SweptOk(w) && w.hasSafety && p.reply <= 20_000 && p.reply <= p.gap <= 39_000
    requires var s := Run(p, Start(w, dog), es);
      var t := Run(p, s, more);
      && n in s.seen && n in s.w.nodes && n in t.w.nodes && t.w.nodes[n].cmd == s.w.nodes[n].cmd
      && t.w.nodes[n].native && t.w.nodes[n].status == S.Running && !t.w.nodes[n].stopping
      && t.w.nodes[n].lastProgress.Some? && t.w.now >= t.w.nodes[n].lastProgress.value + 100_000
      && t.w.now > s.at + p.reply
    ensures var t := Run(p, Run(p, Start(w, dog), es), more); t.w.estop || t.halted
  {
    BoundedResponse(p, w, dog, es, more, n);
  }

  /**
   * The same from the nodes' own fields: a tick gets the lock while native node n runs
   * unmarked. Whatever follows, once the same process has run on without progress for 100 ms
   * and the tick has ended, the E-Stop is latched or the loop was stopped.
   */
  lemma {:induction false} OneTickIsEnough(p: Pace, w: S.World, dog: D.Dog, es: seq<Event>, snap: Snapshot, wall: nat,
                                           more: seq<Event>, n: S.NodeId)
    requires I.Inv(w) && E.SweptOk(w) && w.hasSafety && p.reply <= 20_000 && p.reply <= p.gap <= 39_000
    requires var s := Run(p, Start(w, dog), es);
      && s.phase == Idle && S.LockFree(s.w) && SnapshotOf(snap, s.w) && n in s.w.nodes
      && s.w.nodes[n].native && s.w.nodes[n].status == S.Running && !s.w.nodes[n].stopping
    requires var s := Run(p, Start(w, dog), es);
      var t := Run(p, Next(p, s, Tick(Some(snap), wall)), more);
      && n in t.w.nodes && t.w.nodes[n].cmd == s.w.nodes[n].cmd
      && t.w.nodes[n].native && t.w.nodes[n].status == S.Running && !t.w.nodes[n].stopping
      && t.w.nodes[n].lastProgress.Some? && t.w.now >= t.w.nodes[n].lastProgress.value + 100_000
      && t.w.now > s.w.now + p.reply
    ensures var t := Run(p, Next(p, Run(p, Start(w, dog), es), Tick(Some(snap), wall)), more); t.w.estop || t.halted
  {
    var s, e := Run(p, Start(w, dog), es), Tick(Some(snap), wall);
    StartSound(p, w, dog);
    SoundRun(p, Start(w, dog), es);
    assert I.NodeOk(s.w, n);
    TickCoversIff(p, s, Some(snap), wall, n, s.w.nodes[n].cmd);
    assert (es + [e])[..|es|] == es;
    StallLatchesWithin100ms(p, w, dog, es + [e], more, n);
  }

  /**
   * From stall to standstill: from the start of the server, in any run, if a node that a
   * snapshot has watched has made no progress for 100 ms while it ran on, and the loop was
   * not stopped, then once the workspaces listed at that moment have been stopped, no process
   * is ever started again.
   */
  lemma {:induction false} StallEndsAllStarts(p: Pace, dog: D.Dog, es: seq<Event>, more: seq<Event>, n: S.NodeId,
                                              sweep: seq<S.Action>, after: seq<S.Action>)
    requires p.reply <= 20_000 && p.reply <= p.gap <= 39_000
    requires var s := Run(p, Start(S.Init(true), dog), es);
      var t := Run(p, s, more);
      && n in s.seen && n in s.w.nodes && n in t.w.nodes && t.w.nodes[n].cmd == s.w.nodes[n].cmd
      && t.w.nodes[n].native && t.w.nodes[n].status == S.Running && !t.w.nodes[n].stopping
      && t.w.nodes[n].lastProgress.Some? && t.w.now >= t.w.nodes[n].lastProgress.value + 100_000
      && t.w.now > s.at + p.reply && !t.halted
      && S.LockFree(t.w) && forall v :: v in t.w.items ==> exists k: nat :: E.SweptAt(t.w, sweep, v, k)
    ensures var swept := S.Run(Run(p, Run(p, Start(S.Init(true), dog), es), more).w, sweep);
      S.Run(swept, after).starts == swept.starts
  {
    I.InitInv(true);
    E.Reachable(true, []);
    var s0 := Start(S.Init(true), dog);
    StallLatchesWithin100ms(p, S.Init(true), dog, es, more, n);
    SupervisorRuns(p, s0, es);
    SupervisorRuns(p, Run(p, s0, es), more);
    var acts, acts' := ActsOf(p, s0, es), ActsOf(p, Run(p, s0, es), more);
    E.RunSplit(S.Init(true), acts, acts');
    E.TripIsFinal(true, acts + acts', sweep, after);
    E.RunSplit(S.Init(true), acts + acts', sweep);
    E.RunSplit(S.Init(true), acts + acts' + sweep, after);
  }

  // ---------------------------------------------------------------- nodes that no snapshot has watched

  /**
   * Since the idle state s no tick got the lock, or a tick did, and then n is watched and the
   * tick came in time.
   */
  predicate Covering(p: Pace, s: Sys, t: Sys, n: S.NodeId) {
    || t.phase == Done
    || (n in t.seen && (n in t.passed || (t.phase == Sent && t.at < Oldest(s) + STALE + p.gap)))
    || (t.seen == s.seen && t.snap == s.snap && t.passedAt < Oldest(s) + STALE)
  }

  lemma CoveringStep(p: Pace, s: Sys, t: Sys, e: Event, n: S.NodeId, c: S.ProcId)
    requires Sound(p, s) && s.seen != {} && Sound(p, t) && RunsOn(t.w, n, c) && Covering(p, s, t, n)
    ensures Covering(p, s, Next(p, t, e), n)
  {
    RunningIsWatched(t.w, n, c);
  }

  lemma {:induction false} CoveringRun(p: Pace, s: Sys, es: seq<Event>, n: S.NodeId, c: S.ProcId)
    requires Sound(p, s) && s.phase == Idle && s.seen != {} && n in s.w.nodes && c in s.w.owner
    requires RunsOn(Run(p, s, es).w, n, c)
    ensures Covering(p, s, Run(p, s, es), n)
    decreases |es|
  {
    if es != [] {
      var t, e := Run(p, s, es[..|es|-1]), es[|es|-1];
      SoundRun(p, s, es[..|es|-1]);
      RememberedRun(p, s, es[..|es|-1], n, c);
      RanBeforeEvent(p, t, e, n, c);
      CoveringRun(p, s, es[..|es|-1], n, c);
      CoveringStep(p, s, t, e, n, c);
    }
  }

  lemma OldestNotAhead(p: Pace, s: Sys)
    requires Sane(p, s) && s.seen != {}
    ensures Oldest(s) <= s.w.now
  {
    var m :| m in s.seen;
    assert Heard(s.w, m, Oldest(s)) && I.NodeOk(s.w, m);
  }

  /**
   * While the latest snapshot has any native node, every running node is bounded, watched or
   * not: either a tick gets the lock and watches it, or the snapshot grows too old and trips.
   */
  lemma UnwatchedIsBounded(p: Pace, s: Sys, es: seq<Event>, n: S.NodeId, c: S.ProcId)
    requires Sound(p, s) && s.phase == Idle && s.seen != {} && n in s.w.nodes && c in s.w.owner
    requires RunsOn(Run(p, s, es).w, n, c)
    ensures var t := Run(p, s, es);
      || t.w.estop || t.halted
      || (t.w.nodes[n].lastProgress.Some?
          && t.w.now < t.w.nodes[n].lastProgress.value + 40_000 + p.gap + p.reply)
      || t.w.now < Oldest(s) + 40_000 + p.gap + p.reply
  {
    var t := Run(p, s, es);
    SoundRun(p, s, es);
    CoveringRun(p, s, es, n, c);
    if !t.w.estop && !t.halted && n in t.passed {
      PassedIsRecent(p, t, n);
    }
  }
}
