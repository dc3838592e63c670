/**
 * The supervisor's progress time follows the packets of the runtime
 * (crates/rosplus_core/src/heartbeat.rs:36-46, pkg/server/process.go:268-283): if the packets
 * of the current process reach captureProgress, the progress time is never older than any
 * packet that has arrived.
 */
module Tracking {
  import opened Outcomes
  import opened Supervision
  import opened SupervisionInvariant
  import E = EStop
  import G = Generations
  import opened SafetyLoop
  import opened Stalls

  // ---------------------------------------------------------------- packets on their way

  /** The state before step k of a run from the start of the server. */
  function Before(acts: seq<Action>, k: nat): World
    requires k <= |acts|
  {
    Run(Init(true), acts[..k])
  }

  /** Step k handles packet i of process c: it has the server lock and the process is known. */
  predicate Arrives(acts: seq<Action>, c: ProcId, i: nat, k: nat) {
    k < |acts| && acts[k] == AProgress(c, i + 1) && LockFree(Before(acts, k)) && c in Before(acts, k).owner
  }

  /**
   * at[i] is the instant at which process c wrote packet i, which carries the counter i + 1.
   * Packets are handled only after they were written, and those written at least `delay` ago
   * have been handled.
   */
  ghost predicate Delivers(acts: seq<Action>, c: ProcId, at: seq<nat>, delay: nat) {
    Causal(acts, c, at)
    && forall i: nat :: i < |at| && at[i] + delay <= Run(Init(true), acts).now ==> exists k: nat :: Arrives(acts, c, i, k)
  }

  ghost predicate Causal(acts: seq<Action>, c: ProcId, at: seq<nat>) {
    forall k: nat {:trigger acts[k]} :: k < |acts| && acts[k].AProgress? && acts[k].p == c ==>
      1 <= acts[k].counter <= |at| && at[acts[k].counter-1] <= Before(acts, k).now
  }

  ghost predicate Ascending(at: seq<nat>) { forall i, j :: 0 <= i < j < |at| ==> at[i] <= at[j] }

  // ---------------------------------------------------------------- one step

  /** A step that changes a node which runs on handles one of its packets. */
  lemma WaiterLeavesRunning(w: World, a: Action, n: NodeId, c: ProcId)
    requires Inv(w) && RunsOn(w, n, c) && RunsOn(Step(w, a), n, c) && (a.AExit? || a.AWake?)
    ensures Step(w, a).nodes[n] == w.nodes[n]
  {
    assert NodeOk(w, n);
    if a.p in w.captures {
      assert CaptureOk(w, a.p);
      G.EveryNodeStep(w, a, n);
    }
  }

  lemma MarkLeavesRunning(w: World, a: Action, n: NodeId, c: ProcId)
    requires Inv(w) && RunsOn(w, n, c) && RunsOn(Step(w, a), n, c) && (a.AStop? || a.ADeleteStop? || a.ARunStart?)
    ensures Step(w, a).nodes[n] == w.nodes[n]
  {
    assert NodeOk(w, n);
  }

  lemma OnlyPacketsChange(w: World, a: Action, n: NodeId, c: ProcId)
    requires Inv(w) && RunsOn(w, n, c) && RunsOn(Step(w, a), n, c) && !a.AProgress?
    ensures Step(w, a).nodes[n] == w.nodes[n]
  {
    if a.AExit? || a.AWake? {
      WaiterLeavesRunning(w, a, n, c);
    } else if a.AStop? || a.ADeleteStop? || a.ARunStart? {
      MarkLeavesRunning(w, a, n, c);
    }
  }

  /** A packet handled for a running node: the counter is at least its own from then on. */
  lemma PacketStep(w: World, a: Action, n: NodeId, c: ProcId)
    requires Inv(w) && RunsOn(w, n, c) && RunsOn(Step(w, a), n, c) && a.AProgress?
    ensures var x, y := w.nodes[n], Step(w, a).nodes[n];
      && x.counter <= y.counter
      && (y == x || (a.p == c && y.counter == a.counter && y.lastProgress == Some(w.now)))
      && (a.p == c && LockFree(w) && w.hasSafety ==> a.counter <= y.counter)
  {
    assert NodeOk(w, n);
  }

  /** A new process of a native node starts with counter 0. */
  lemma LaunchResets(w: World, a: Action, n: NodeId, c: ProcId)
    requires Inv(w) && w.hasSafety && RunsOn(Step(w, a), n, c) && !(n in w.nodes && c in w.owner)
    ensures Step(w, a).nodes[n].counter == 0
  {
    if n in w.nodes {
      assert NodeOk(w, n);
      G.EveryNodeStep(w, a, n);
    } else {
      NewNodeResets(w, a, n);
    }
  }

  lemma NewNodeResets(w: World, a: Action, n: NodeId)
    requires Inv(w) && n !in w.nodes && n in Step(w, a).nodes
    ensures Step(w, a).nodes[n].counter == 0
  {
    if !a.ARunStart? {
      OnlyRunAddsNodes(w, a);
    }
  }

  lemma OnlyRunAddsNodes(w: World, a: Action)
    requires !a.ARunStart?
    ensures Step(w, a).nodes.Keys <= w.nodes.Keys
  {
    match a
    case AExit(p) => WaiterAddsNone(w, p, Starts);
    case AWake(p, outcome) => WaiterAddsNone(w, p, outcome);
    case _ =>
  }

  lemma WaiterAddsNone(w: World, p: ProcId, outcome: StartOutcome)
    ensures Exit(w, p).nodes.Keys <= w.nodes.Keys && Wake(w, p, outcome).nodes.Keys <= w.nodes.Keys
  {
  }

  // ---------------------------------------------------------------- whole runs

  /** The counter of a running native node is that of a packet already written, no later than its progress time. */
  predicate Traced(w: World, n: NodeId, c: ProcId, at: seq<nat>) {
    RunsOn(w, n, c) ==>
      var x := w.nodes[n];
      x.counter <= |at| && (x.counter > 0 ==> x.lastProgress.Some? && at[x.counter-1] <= x.lastProgress.value)
  }

  lemma TracedStep(w: World, a: Action, n: NodeId, c: ProcId, at: seq<nat>)
    requires Inv(w) && w.hasSafety && Traced(w, n, c, at)
    requires a.AProgress? && a.p == c ==> 1 <= a.counter <= |at| && at[a.counter-1] <= w.now
    ensures Traced(Step(w, a), n, c, at)
  {
    if RunsOn(Step(w, a), n, c) {
      if n in w.nodes && c in w.owner {
        RanBefore(w, a, n, c);
        if a.AProgress? {
          PacketStep(w, a, n, c);
        } else {
          OnlyPacketsChange(w, a, n, c);
        }
      } else {
        LaunchResets(w, a, n, c);
      }
    }
  }

  lemma {:induction false} SafetyStays(acts: seq<Action>)
    ensures Inv(Run(Init(true), acts)) && Run(Init(true), acts).hasSafety
    decreases |acts|
  {
    if acts == [] {
      InitInv(true);
    } else {
      SafetyStays(acts[..|acts|-1]);
      StepInv(Run(Init(true), acts[..|acts|-1]), acts[|acts|-1]);
      G.StepOnward(Run(Init(true), acts[..|acts|-1]), acts[|acts|-1]);
    }
  }

  lemma CausalFront(acts: seq<Action>, c: ProcId, at: seq<nat>, k: nat)
    requires Causal(acts, c, at) && k <= |acts|
    ensures Causal(acts[..k], c, at)
  {
    forall j: nat | j < k ensures Before(acts[..k], j) == Before(acts, j) { assert acts[..k][..j] == acts[..j]; }
  }

  lemma {:induction false} TracedRun(acts: seq<Action>, n: NodeId, c: ProcId, at: seq<nat>)
    requires Causal(acts, c, at)
    ensures Traced(Run(Init(true), acts), n, c, at)
    decreases |acts|
  {
    if acts == [] {
      TracedInit(n, c, at);
    } else {
      var k := |acts| - 1;
      CausalFront(acts, c, at, k);
      TracedRun(acts[..k], n, c, at);
      SafetyStays(acts[..k]);
      PacketInTime(acts, c, at, k);
      TracedStep(Run(Init(true), acts[..k]), acts[k], n, c, at);
    }
  }

  lemma TracedInit(n: NodeId, c: ProcId, at: seq<nat>)
    ensures Traced(Init(true), n, c, at)
  {
  }

  lemma PacketInTime(acts: seq<Action>, c: ProcId, at: seq<nat>, k: nat)
    requires Causal(acts, c, at) && k < |acts|
    ensures var a, w := acts[k], Run(Init(true), acts[..k]);
      a.AProgress? && a.p == c ==> 1 <= a.counter <= |at| && at[a.counter-1] <= w.now
  {
    assert Before(acts, k) == Run(Init(true), acts[..k]);
  }

  /** While a node runs on, its counter does not fall. */
  lemma {:induction false} CounterGrows(w: World, acts: seq<Action>, n: NodeId, c: ProcId)
    requires Inv(w) && n in w.nodes && c in w.owner && RunsOn(Run(w, acts), n, c)
    ensures RunsOn(w, n, c) && w.nodes[n].counter <= Run(w, acts).nodes[n].counter
    decreases |acts|
  {
    if acts != [] {
      var t, a := Run(w, acts[..|acts|-1]), acts[|acts|-1];
      RunInv(w, acts[..|acts|-1]);
      KnownStays(w, acts[..|acts|-1], n, c);
      RanBefore(t, a, n, c);
      CounterGrows(w, acts[..|acts|-1], n, c);
      if a.AProgress? {
        PacketStep(t, a, n, c);
      } else {
        OnlyPacketsChange(t, a, n, c);
      }
    }
  }

  lemma {:induction false} KnownStays(w: World, acts: seq<Action>, n: NodeId, c: ProcId)
    requires Inv(w) && n in w.nodes && c in w.owner
    ensures n in Run(w, acts).nodes && c in Run(w, acts).owner && Run(w, acts).owner[c] == w.owner[c]
    decreases |acts|
  {
    if acts != [] {
      var t, a := Run(w, acts[..|acts|-1]), acts[|acts|-1];
      RunInv(w, acts[..|acts|-1]);
      KnownStays(w, acts[..|acts|-1], n, c);
      G.EveryNodeStep(t, a, n);
      G.StepOnward(t, a);
    }
  }

  /** A packet that arrived for the process that still runs is counted. */
  lemma ArrivedIsCounted(acts: seq<Action>, n: NodeId, c: ProcId, i: nat, k: nat)
    requires RunsOn(Run(Init(true), acts), n, c) && Arrives(acts, c, i, k)
    ensures i < Run(Init(true), acts).nodes[n].counter
  {
    var t := Before(acts, k);
    var w := Run(Init(true), acts);
    SafetyStays(acts);
    SafetyStays(acts[..k]);
    var m := t.owner[c];
    E.RunAround(Init(true), acts, k);
    StepInv(t, acts[k]);
    KnownStays(t, [acts[k]], m, c);
    E.RunNext(t, [acts[k]], 0);
    assert [acts[k]][..0] == [] && [acts[k]][..1] == [acts[k]];
    KnownStays(Step(t, acts[k]), acts[k+1..], m, c);
    assert NodeOk(w, n);
    CounterGrows(Step(t, acts[k]), acts[k+1..], n, c);
    RanBefore(t, acts[k], n, c);
    PacketStep(t, acts[k], n, c);
  }

  /**
   * The progress time tracks the packets: in every run from the start of the server, when the
   * packets of the process that a native node is running are handled after they were written
   * and within the delay, the node's progress time is no older than any of those.
   */
  lemma {:induction false} ProgressTracks(acts: seq<Action>, n: NodeId, c: ProcId, at: seq<nat>, delay: nat, i: nat)
    requires RunsOn(Run(Init(true), acts), n, c) && Delivers(acts, c, at, delay) && Ascending(at)
    requires i < |at| && at[i] + delay <= Run(Init(true), acts).now
    ensures var x := Run(Init(true), acts).nodes[n];
      x.lastProgress.Some? && at[i] <= x.lastProgress.value
  {
    var k: nat :| Arrives(acts, c, i, k);
    ArrivedIsCounted(acts, n, c, i, k);
    TracedRun(acts, n, c, at);
    CountedIsOlder(Run(Init(true), acts), n, c, at, i);
  }

  lemma CountedIsOlder(w: World, n: NodeId, c: ProcId, at: seq<nat>, i: nat)
    requires RunsOn(w, n, c) && Traced(w, n, c, at) && i < w.nodes[n].counter && Ascending(at)
    ensures i < |at| && w.nodes[n].lastProgress.Some? && at[i] <= w.nodes[n].lastProgress.value
  {
    var j := w.nodes[n].counter - 1;
    assert at[i] <= at[j];
  }

  // ---------------------------------------------------------------- the launch counts as a packet

  /** Step k starts process c. */
  predicate Launches(acts: seq<Action>, c: ProcId, k: nat) {
    k < |acts| && c !in Before(acts, k).owner && c in Before(acts, k + 1).owner
  }

  /** Process c was started at the given time. */
  ghost predicate LaunchedAt(acts: seq<Action>, c: ProcId, time: nat) {
    exists k: nat :: Launches(acts, c, k) && Before(acts, k).now == time
  }

  /** The step that starts a process sets the progress time of its node, if that is native. */
  lemma LaunchSets(w: World, a: Action, c: ProcId)
    requires Inv(w) && w.hasSafety && c !in w.owner && c in Step(w, a).owner
    ensures var n := Step(w, a).owner[c];
      n in Step(w, a).nodes && (Step(w, a).nodes[n].native ==> Step(w, a).nodes[n].lastProgress == Some(w.now))
  {
    match a
    case ARunStart(_) =>
    case AWake(p, outcome) => WakeSets(w, p, outcome, c);
    case AExit(p) => ExitStartsNone(w, p);
    case _ => OtherStartsNone(w, a);
  }

  lemma WakeSets(w: World, p: ProcId, outcome: StartOutcome, c: ProcId)
    requires Inv(w) && w.hasSafety && c !in w.owner && c in Wake(w, p, outcome).owner
    ensures var t := Wake(w, p, outcome);
      t.owner[c] in t.nodes && (t.nodes[t.owner[c]].native ==> t.nodes[t.owner[c]].lastProgress == Some(w.now))
  {
  }

  lemma ExitStartsNone(w: World, p: ProcId)
    ensures Exit(w, p).owner == w.owner
  {
  }

  lemma OtherStartsNone(w: World, a: Action)
    requires !a.AExit? && !a.AWake? && !a.ARunStart?
    ensures Step(w, a).owner == w.owner
  {
    hide Exit, Wake, RunStart;
  }

  /** Node n has made progress at the given time or later. */
  predicate ProgressFrom(w: World, n: NodeId, time: nat) {
    n in w.nodes && w.nodes[n].lastProgress.Some? && time <= w.nodes[n].lastProgress.value
  }

  lemma {:induction false} ProgressKept(w: World, acts: seq<Action>, n: NodeId, time: nat)
    requires Inv(w) && ProgressFrom(w, n, time)
    ensures ProgressFrom(Run(w, acts), n, time)
    decreases |acts|
  {
    if acts != [] {
      RunInv(w, acts[..|acts|-1]);
      ProgressKept(w, acts[..|acts|-1], n, time);
      G.ProgressStep(Run(w, acts[..|acts|-1]), acts[|acts|-1], n);
    }
  }

  /** The progress time of a running native node is no older than the launch of its process. */
  lemma LaunchTracks(acts: seq<Action>, n: NodeId, c: ProcId, time: nat)
    requires RunsOn(Run(Init(true), acts), n, c) && LaunchedAt(acts, c, time)
    ensures ProgressFrom(Run(Init(true), acts), n, time)
  {
    var k: nat :| Launches(acts, c, k) && Before(acts, k).now == time;
    var w, t := Run(Init(true), acts), Before(acts, k + 1);
    SafetyStays(acts);
    SafetyStays(acts[..k]);
    SafetyStays(acts[..k+1]);
    E.RunNext(Init(true), acts, k);
    LaunchSets(Before(acts, k), acts[k], c);
    var m := t.owner[c];
    E.RunAround(Init(true), acts, k);
    KnownStays(t, acts[k+1..], m, c);
    assert NodeOk(w, n);
    NativeBefore(t, acts[k+1..], n);
    ProgressKept(t, acts[k+1..], n, time);
  }

  lemma {:induction false} NativeBefore(w: World, acts: seq<Action>, n: NodeId)
    requires Inv(w) && n in w.nodes
    ensures n in Run(w, acts).nodes && Run(w, acts).nodes[n].native == w.nodes[n].native
    decreases |acts|
  {
    if acts != [] {
      RunInv(w, acts[..|acts|-1]);
      NativeBefore(w, acts[..|acts|-1], n);
      G.EveryNodeStep(Run(w, acts[..|acts|-1]), acts[|acts|-1], n);
    }
  }
}
