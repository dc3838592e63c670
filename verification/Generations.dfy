/**
 * Whole-run facts about processes and their nodes: one waiter each, a bounded number of
 * starts, a finished node that never changes, and heartbeats that only ever come from the
 * node's current process, with increasing counters.
 */
module Generations {
  import opened Outcomes
  import opened Supervision
  import opened SupervisionInvariant

  // ---------------------------------------------------------------- what a step can do to a node

  predicate Finished(s: World, x: Node, y: Node) {
    !Active(y) && y.closes == x.closes + 1
    && (y == x.(status := y.status, closes := y.closes) || y == ResetProgress(s.hasSafety, s.now, x).(status := y.status, closes := y.closes))
  }

  /** The five ways in which a step changes a node: marked, asleep before a restart, finished, restarted, heard of. */
  predicate Changed(s: World, x: Node, y: Node) {
    || y == x.(stopping := true)
    || (!x.stopping && y == x.(restarts := x.restarts + 1, status := Starting))
    || Finished(s, x, y)
    || (x.status == Starting && !x.stopping
        && y == ResetProgress(s.hasSafety, s.now, x).(status := Running, cmd := s.nextProc, started := x.started + 1))
    || (x.status == Running && x.counter < y.counter && y == x.(counter := y.counter, lastProgress := Some(s.now)))
  }

  predicate NodeStep(s: World, s': World, n: NodeId) {
    && n in s.nodes && n in s'.nodes
    && (s'.nodes[n] == s.nodes[n] || (Active(s.nodes[n]) && Changed(s, s.nodes[n], s'.nodes[n])))
  }

  lemma ExitNodeStep(s: World, p: ProcId, n: NodeId)
    requires Inv(s) && n in s.nodes && p in s.captures
    ensures NodeStep(s, Exit(s, p), n)
  {
    assert CaptureOk(s, p) && NodeOk(s, s.owner[p]);
  }

  lemma WakeNodeStep(s: World, p: ProcId, outcome: StartOutcome, n: NodeId)
    requires Inv(s) && n in s.nodes && p in s.captures
    ensures NodeStep(s, Wake(s, p, outcome), n)
  {
    assert CaptureOk(s, p) && NodeOk(s, s.owner[p]);
  }

  lemma EveryNodeStep(s: World, a: Action, n: NodeId)
    requires Inv(s) && n in s.nodes
    ensures NodeStep(s, Step(s, a), n)
  {
    assert NodeOk(s, n);
    if (a.AExit? || a.AWake?) && a.p in s.captures {
      if a.AExit? {
        ExitNodeStep(s, a.p, n);
      } else {
        WakeNodeStep(s, a.p, a.outcome, n);
      }
    } else if a.AStop? || a.ADeleteStop? || a.AProgress? || a.ARunStart? {
      OtherNodeStep(s, a, n);
    }
  }

  lemma OtherNodeStep(s: World, a: Action, n: NodeId)
    requires Inv(s) && n in s.nodes && n != s.nextNode
    requires a.AStop? || a.ADeleteStop? || a.AProgress? || a.ARunStart?
    ensures NodeStep(s, Step(s, a), n)
  {
  }

  /** Processes keep their nodes and the clock does not go back. */
  predicate Onward(s: World, s': World) {
    && s.now <= s'.now && s'.hasSafety == s.hasSafety
    && forall p :: p in s.owner ==> p in s'.owner && s'.owner[p] == s.owner[p]
  }

  lemma StepOnward(s: World, a: Action)
    requires Inv(s)
    ensures Onward(s, Step(s, a))
  {
    match a
    case AExit(p) => ExitOnward(s, p);
    case AWake(p, outcome) => WakeOnward(s, p, outcome);
    case ARunStart(outcome) => RunOnward(s, outcome);
    case AStop(_, _) =>
    case ADeleteStop(_) =>
    case _ =>
  }

  lemma ExitOnward(s: World, p: ProcId)
    ensures Onward(s, Exit(s, p))
  {
  }

  lemma WakeOnward(s: World, p: ProcId, outcome: StartOutcome)
    requires Inv(s)
    ensures Onward(s, Wake(s, p, outcome))
  {
  }

  lemma RunOnward(s: World, outcome: StartOutcome)
    requires Inv(s)
    ensures Onward(s, RunStart(s, outcome))
  {
  }

  // ---------------------------------------------------------------- waiters

  /** Exactly one waiter while a node is starting or running, none once it is finished; done is closed exactly then. */
  lemma OneWaiter(s: World, n: NodeId)
    requires Inv(s) && n in s.nodes
    ensures Active(s.nodes[n]) <==> exists p :: p in s.captures && s.owner[p] == n
    ensures forall p, q :: p in s.captures && q in s.captures && s.owner[p] == n && s.owner[q] == n ==> p == q
    ensures s.nodes[n].closes == if Active(s.nodes[n]) then 0 else 1
  {
    assert NodeOk(s, n);
    forall p | p in s.captures && s.owner[p] == n ensures p == s.nodes[n].cmd { assert CaptureOk(s, p); }
  }

  /** No workspace has two unreaped processes under one node name. */
  lemma OneProcessPerName(s: World, p: ProcId, q: ProcId)
    requires Inv(s) && p in s.captures && q in s.captures
    requires var x, y := s.nodes[s.owner[p]], s.nodes[s.owner[q]]; x.ws == y.ws && x.name == y.name
    ensures p == q
  {
    assert CaptureOk(s, p) && CaptureOk(s, q) && NodeOk(s, s.owner[p]) && NodeOk(s, s.owner[q]);
  }

  // ---------------------------------------------------------------- finished nodes

  lemma FinishedStep(s: World, a: Action, n: NodeId)
    requires Inv(s) && n in s.nodes && !Active(s.nodes[n])
    ensures n in Step(s, a).nodes && Step(s, a).nodes[n] == s.nodes[n]
  {
    EveryNodeStep(s, a, n);
  }

  /** A finished node is never touched again: not restarted, not marked, its done channel not closed twice. */
  lemma {:induction false} FinishedForever(s: World, acts: seq<Action>, n: NodeId)
    requires Inv(s) && n in s.nodes && !Active(s.nodes[n])
    ensures n in Run(s, acts).nodes && Run(s, acts).nodes[n] == s.nodes[n]
    decreases |acts|
  {
    if acts != [] {
      FinishedForever(s, acts[..|acts|-1], n);
      RunInv(s, acts[..|acts|-1]);
      FinishedStep(Run(s, acts[..|acts|-1]), acts[|acts|-1], n);
    }
  }

  /** An unexpected native exit latches the E-Stop and is never followed by a restart of that node. */
  lemma {:induction false} NativeFailureIsFinal(s: World, p: ProcId, acts: seq<Action>)
    requires Inv(s) && LockFree(s) && p in s.captures && s.captures[p] == Reaped(true)
    requires var x := s.nodes[s.owner[p]]; x.native && !x.stopping
    ensures var n := s.owner[p]; var s' := Run(Exit(s, p), acts);
      && (s.hasSafety ==> Exit(s, p).estop)
      && n in s'.nodes && s'.nodes[n].status == Failed && s'.nodes[n].started == s.nodes[n].started
  {
    assert CaptureOk(s, p);
    assert Step(s, AExit(p)) == Exit(s, p);
    StepInv(s, AExit(p));
    FinishedForever(Exit(s, p), acts, s.owner[p]);
  }

  // ---------------------------------------------------------------- starts

  function StartCount(starts: seq<Start>, n: NodeId): nat
    decreases |starts|
  {
    if starts == [] then 0
    else StartCount(starts[..|starts|-1], n) + (if starts[|starts|-1].node == n then 1 else 0)
  }

  lemma {:induction false} CountNone(starts: seq<Start>, n: NodeId)
    requires forall k :: 0 <= k < |starts| ==> starts[k].node != n
    ensures StartCount(starts, n) == 0
    decreases |starts|
  {
    if starts != [] {
      CountNone(starts[..|starts|-1], n);
    }
  }

  lemma CountMore(starts: seq<Start>, e: Start, n: NodeId)
    ensures StartCount(starts + [e], n) == StartCount(starts, n) + (if e.node == n then 1 else 0)
  {
    assert (starts + [e])[..|starts|] == starts;
  }

  predicate LogOk(s: World) {
    && (forall k :: 0 <= k < |s.starts| ==> s.starts[k].node in s.nodes)
    && (forall n {:trigger StartCount(s.starts, n)} :: n in s.nodes ==> StartCount(s.starts, n) == s.nodes[n].started)
  }

  /** s' logged nothing and started nothing, or logged the one process it started. */
  predicate Logged(s: World, s': World) {
    if s'.starts == s.starts then
      s'.nodes.Keys == s.nodes.Keys && forall n :: n in s.nodes ==> s'.nodes[n].started == s.nodes[n].started
    else
      && |s'.starts| == |s.starts| + 1 && s'.starts[..|s.starts|] == s.starts
      && var n := s'.starts[|s.starts|].node;
      && s'.nodes.Keys == s.nodes.Keys + {n}
      && s'.nodes[n].started == (if n in s.nodes then s.nodes[n].started else 0) + 1
      && forall m :: m in s.nodes && m != n ==> s'.nodes[m].started == s.nodes[m].started
  }

  lemma RunLogged(s: World, outcome: StartOutcome)
    requires Inv(s)
    ensures Logged(s, RunStart(s, outcome))
  {
    forall n | n in s.nodes ensures n != s.nextNode { assert NodeOk(s, n); }
  }

  lemma ExitLogged(s: World, p: ProcId)
    ensures Logged(s, Exit(s, p))
  {
  }

  lemma FinishLogged(s: World, p: ProcId, n: NodeId, x: Node, failed: bool)
    requires n in s.nodes && x.started == s.nodes[n].started
    ensures Logged(s, Finish(s, p, n, x, failed))
  {
  }

  lemma LaunchLogged(s: World, n: NodeId)
    requires n in s.nodes
    ensures Logged(s, Launch(s, n, s.nodes[n]))
  {
  }

  lemma WakeLogged(s: World, p: ProcId, outcome: StartOutcome)
    ensures Logged(s, Wake(s, p, outcome))
  {
    hide Finish, Launch;
    if p in s.captures && s.captures[p].Sleeping? && p in s.owner && s.owner[p] in s.nodes {
      var n := s.owner[p];
      var x, failed := s.nodes[n], s.captures[p].failed;
      FinishLogged(s, p, n, x, failed);
      FinishLogged(s, p, n, ResetProgress(s.hasSafety, s.now, x), failed);
      LaunchLogged(s.(captures := s.captures - {p}), n);
    }
  }

  lemma StopLogged(s: World, w: WorkspaceId, name: Option<string>)
    ensures Logged(s, Stop(s, w, name))
  {
    MarkingStarts(s.nodes, Targets(s, w, name));
    hide Targets, MarkStopping;
  }

  lemma DeleteStopLogged(s: World, w: WorkspaceId)
    ensures Logged(s, DeleteStop(s, w))
  {
    StopLogged(s, w, None);
    hide Stop;
  }

  lemma MarkingStarts(nodes: map<NodeId, Node>, targets: set<NodeId>)
    ensures MarkStopping(nodes, targets).Keys == nodes.Keys
    ensures forall n :: n in nodes ==> MarkStopping(nodes, targets)[n].started == nodes[n].started
  {
  }

  lemma ProgressLogged(s: World, a: Action)
    requires a.AProgress?
    ensures Logged(s, Step(s, a))
  {
  }

  /** The steps that touch neither a node nor the log. */
  lemma QuietLogged(s: World, a: Action)
    requires !(a.AExit? || a.AWake? || a.ARunStart? || a.AStop? || a.ADeleteStop? || a.AProgress?)
    ensures Logged(s, Step(s, a))
  {
    hide Exit, Wake, RunStart, Stop, DeleteStop, Progress;
  }

  lemma StepLogged(s: World, a: Action)
    requires Inv(s)
    ensures Logged(s, Step(s, a))
  {
    hide Inv, Logged, Exit, Wake, RunStart, Stop, DeleteStop, Progress;
    if a.AExit? {
      ExitLogged(s, a.p);
    } else if a.AWake? {
      WakeLogged(s, a.p, a.outcome);
    } else if a.ARunStart? {
      RunLogged(s, a.outcome);
    } else if a.AStop? {
      StopLogged(s, a.w, a.name);
    } else if a.ADeleteStop? {
      DeleteStopLogged(s, a.w);
    } else if a.AProgress? {
      ProgressLogged(s, a);
    } else {
      QuietLogged(s, a);
    }
  }

  lemma LogKept(s: World, s': World)
    requires LogOk(s) && Logged(s, s')
    ensures LogOk(s')
  {
    if s'.starts != s.starts {
      var e := s'.starts[|s.starts|];
      assert s'.starts == s.starts + [e];
      if e.node !in s.nodes {
        CountNone(s.starts, e.node);
      }
      forall n | n in s'.nodes ensures StartCount(s'.starts, n) == s'.nodes[n].started {
        CountMore(s.starts, e, n);
        assert n in s.nodes ==> StartCount(s.starts, n) == s.nodes[n].started;
      }
    }
  }

  lemma {:induction false} LogRun(hasSafety: bool, acts: seq<Action>)
    ensures Inv(Run(Init(hasSafety), acts)) && LogOk(Run(Init(hasSafety), acts))
    decreases |acts|
  {
    if acts == [] {
      InitInv(hasSafety);
    } else {
      LogRun(hasSafety, acts[..|acts|-1]);
      StepInv(Run(Init(hasSafety), acts[..|acts|-1]), acts[|acts|-1]);
      StepLogged(Run(Init(hasSafety), acts[..|acts|-1]), acts[|acts|-1]);
      LogKept(Run(Init(hasSafety), acts[..|acts|-1]), Run(Init(hasSafety), acts));
    }
  }

  /** In every run each node is started at most once more than it may be restarted: at most 101 times. */
  lemma {:induction false} StartsBounded(hasSafety: bool, acts: seq<Action>, n: NodeId)
    ensures var s := Run(Init(hasSafety), acts);
      StartCount(s.starts, n) <= (if n in s.nodes then 1 + s.nodes[n].maxRestarts else 0)
      && StartCount(s.starts, n) <= 101
  {
    var s := Run(Init(hasSafety), acts);
    LogRun(hasSafety, acts);
    if n in s.nodes {
      assert NodeOk(s, n);
    } else {
      CountNone(s.starts, n);
    }
  }

  // ---------------------------------------------------------------- heartbeats

  predicate BeatOk(s: World, b: Beat) {
    && b.proc in s.owner && b.time <= s.now && s.owner[b.proc] in s.nodes
    && var x := s.nodes[s.owner[b.proc]];
    x.cmd == b.proc && x.status == Running ==> b.counter <= x.counter
  }

  ghost predicate BeatsOk(s: World) {
    && (forall i {:trigger BeatOk(s, s.beats[i])} :: 0 <= i < |s.beats| ==> BeatOk(s, s.beats[i]))
    && (forall i, j :: 0 <= i < j < |s.beats| && s.beats[i].proc == s.beats[j].proc ==>
          s.beats[i].counter < s.beats[j].counter && s.beats[i].time <= s.beats[j].time)
  }

  /** The generation of process p is over: its node has finished, restarts, or runs a newer process. */
  predicate Over(s: World, p: ProcId) {
    && p in s.owner && s.owner[p] in s.nodes
    && !(s.nodes[s.owner[p]].cmd == p && s.nodes[s.owner[p]].status == Running)
  }

  /** The step recorded no heartbeat, or the next one of the current process of a running node. */
  predicate Heard(s: World, s': World) {
    || s'.beats == s.beats
    || (&& |s'.beats| == |s.beats| + 1 && s'.beats[..|s.beats|] == s.beats
        && var b := s'.beats[|s.beats|];
        && b.proc in s.owner && s.owner[b.proc] in s.nodes && b.time == s.now
        && var x := s.nodes[s.owner[b.proc]];
        x.cmd == b.proc && x.status == Running && x.counter < b.counter)
  }

  lemma StepHeard(s: World, a: Action)
    ensures Heard(s, Step(s, a))
  {
    if a.AExit? || a.AWake? {
      WaiterHearsNothing(s, a);
    }
  }

  lemma WaiterHearsNothing(s: World, a: Action)
    requires a.AExit? || a.AWake?
    ensures Step(s, a).beats == s.beats
  {
  }

  lemma OverStep(s: World, a: Action, p: ProcId)
    requires Inv(s) && Over(s, p)
    ensures Over(Step(s, a), p)
  {
    assert NodeOk(s, s.owner[p]);
    EveryNodeStep(s, a, s.owner[p]);
    StepOnward(s, a);
  }

  /** Once a generation is over, no packet of it refreshes anything, ever. */
  lemma {:induction false} OldGenerationSilent(s: World, acts: seq<Action>, p: ProcId)
    requires Inv(s) && Over(s, p)
    ensures Over(Run(s, acts), p) && s.beats <= Run(s, acts).beats
    ensures forall k :: |s.beats| <= k < |Run(s, acts).beats| ==> Run(s, acts).beats[k].proc != p
    decreases |acts|
  {
    if acts != [] {
      OldGenerationSilent(s, acts[..|acts|-1], p);
      RunInv(s, acts[..|acts|-1]);
      SilentStep(s, Run(s, acts[..|acts|-1]), acts[|acts|-1], p);
    }
  }

  lemma {:induction false} SilentStep(s: World, t: World, a: Action, p: ProcId)
    requires Inv(t) && Over(t, p) && s.beats <= t.beats
    requires forall k :: |s.beats| <= k < |t.beats| ==> t.beats[k].proc != p
    ensures Over(Step(t, a), p) && s.beats <= Step(t, a).beats
    ensures forall k :: |s.beats| <= k < |Step(t, a).beats| ==> Step(t, a).beats[k].proc != p
  {
    OverStep(t, a, p);
    StepHeard(t, a);
    assert forall k :: 0 <= k < |t.beats| ==> Step(t, a).beats[..|t.beats|][k] == Step(t, a).beats[k];
  }

  lemma BeatKept(s: World, a: Action, b: Beat)
    requires Inv(s) && BeatOk(s, b)
    ensures BeatOk(Step(s, a), b)
  {
    assert NodeOk(s, s.owner[b.proc]);
    EveryNodeStep(s, a, s.owner[b.proc]);
    StepOnward(s, a);
  }

  lemma BeatsStep(s: World, a: Action)
    requires Inv(s) && BeatsOk(s)
    ensures BeatsOk(Step(s, a))
  {
    hide Step, Inv;
    var s' := Step(s, a);
    StepHeard(s, a);
    forall i | 0 <= i < |s'.beats| ensures BeatOk(s', s'.beats[i]) {
      if i < |s.beats| {
        assert s'.beats[i] == s.beats[i];
        BeatKept(s, a, s.beats[i]);
      } else {
        NewBeat(s, a);
      }
    }
    forall i, j | 0 <= i < j < |s'.beats| && s'.beats[i].proc == s'.beats[j].proc
      ensures s'.beats[i].counter < s'.beats[j].counter && s'.beats[i].time <= s'.beats[j].time
    {
      assert s'.beats[i] == s.beats[i];
      assert BeatOk(s, s.beats[i]);
    }
  }

  lemma NewBeat(s: World, a: Action)
    requires Inv(s) && Step(s, a).beats != s.beats
    ensures |Step(s, a).beats| > |s.beats| && BeatOk(Step(s, a), Step(s, a).beats[|s.beats|])
  {
    if a.AExit? || a.AWake? {
      WaiterHearsNothing(s, a);
    }
  }

  /** In every run the heartbeats accepted from one process carry strictly increasing counters and times that never go back. */
  lemma {:induction false} BeatsIncrease(hasSafety: bool, acts: seq<Action>)
    ensures BeatsOk(Run(Init(hasSafety), acts)) && Inv(Run(Init(hasSafety), acts))
    decreases |acts|
  {
    if acts == [] {
      InitInv(hasSafety);
    } else {
      BeatsIncrease(hasSafety, acts[..|acts|-1]);
      StepInv(Run(Init(hasSafety), acts[..|acts|-1]), acts[|acts|-1]);
      BeatsStep(Run(Init(hasSafety), acts[..|acts|-1]), acts[|acts|-1]);
    }
  }

  // ---------------------------------------------------------------- progress times

  /** A node's progress time never moves back and, once set, is never unset. */
  lemma ProgressStep(s: World, a: Action, n: NodeId)
    requires Inv(s) && n in s.nodes && s.nodes[n].lastProgress.Some?
    ensures var s' := Step(s, a);
      && n in s'.nodes && s'.nodes[n].lastProgress.Some?
      && s.nodes[n].lastProgress.value <= s'.nodes[n].lastProgress.value <= s'.now
  {
    assert NodeOk(s, n);
    EveryNodeStep(s, a, n);
    StepOnward(s, a);
  }
}
