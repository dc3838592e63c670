/**
 * The supervisor's decisions in terms of the nodes' own fields (pkg/server/process.go:99-140,
 * 268-283, 298-354): which exit is followed by a restart, what a sleep ends with, whom stop
 * marks, when run is refused, and which heartbeat counts.
 */
module RestartPolicy {
  import opened Outcomes
  import opened Supervision
  import opened SupervisionInvariant
  import G = Generations

  // ---------------------------------------------------------------- exits

  /**
   * An exit is followed by a restart exactly if the node is unmarked, the server is not
   * closing, restarts are left, and the policy is `always` and the exit no native failure, or
   * `on-failure` and a legacy process failed. Any other exit finishes the node.
   */
  lemma ExitOutcome(s: World, p: ProcId, n: NodeId, x: Node, failed: bool)
    requires Inv(s) && s.pending.None? && p in s.captures && s.captures[p] == Reaped(failed)
    requires s.owner[p] == n && n in s.nodes && s.nodes[n] == x
    ensures var t := Step(s, AExit(p));
      if !x.stopping && !s.closing && x.restarts < x.maxRestarts
         && ((x.policy == Always && !(x.native && failed)) || (x.policy == OnFailure && failed && !x.native))
      then
        && t.captures == s.captures[p := Sleeping(failed)]
        && t.nodes == s.nodes[n := x.(restarts := x.restarts + 1, status := Starting)]
      else
        && t.captures == s.captures - {p}
        && t.nodes == s.nodes[n := x.(closes := x.closes + 1, status := if failed && !x.stopping then Failed else Stopped)]
    ensures Step(s, AExit(p)).estop <==> s.estop || (s.hasSafety && x.native && failed && !x.stopping)
    ensures Step(s, AExit(p)).starts == s.starts
  {
    assert p in s.owner;
    hide Inv;
  }

  /**
   * After its sleep a node is started again exactly if it is unmarked, the server is not
   * closing, and its process can be started; otherwise it is finished. The new process of a
   * native node counts as heard of at once.
   */
  lemma WakeOutcome(s: World, p: ProcId, n: NodeId, x: Node, failed: bool, outcome: StartOutcome)
    requires Inv(s) && s.pending.None? && p in s.captures && s.captures[p] == Sleeping(failed)
    requires s.owner[p] == n && n in s.nodes && s.nodes[n] == x
    ensures var t := Step(s, AWake(p, outcome));
      && n in t.nodes && t.nodes == s.nodes[n := t.nodes[n]] && t.nodes[n].restarts == x.restarts
      && t.nodes[n].policy == x.policy && t.nodes[n].native == x.native
      && if !x.stopping && !s.closing && outcome.Starts? then
           && t.nodes[n].status == Running && t.nodes[n].cmd == s.nextProc && t.nodes[n].closes == x.closes
           && (s.hasSafety && x.native ==> t.nodes[n].lastProgress == Some(s.now) && t.nodes[n].counter == 0)
           && t.captures == (s.captures - {p})[s.nextProc := Waiting] && t.owner == s.owner[s.nextProc := n]
           && t.starts == s.starts + [Start(x.ws, n, s.nextProc)]
         else
           && t.nodes[n].status == (if failed && !x.stopping then Failed else Stopped) && t.nodes[n].closes == x.closes + 1
           && t.captures == s.captures - {p} && t.starts == s.starts
    ensures Step(s, AWake(p, outcome)).estop == s.estop
  {
    assert p in s.owner;
    hide Inv;
  }

  /** In particular, a node with the on-failure policy whose process exited cleanly is never started again. */
  lemma {:induction false} CleanExitIsFinal(s: World, p: ProcId, more: seq<Action>)
    requires Inv(s) && s.pending.None? && p in s.captures && s.captures[p] == Reaped(false)
    requires s.owner[p] in s.nodes && s.nodes[s.owner[p]].policy == OnFailure
    ensures var n := s.owner[p];
      var t := Run(Step(s, AExit(p)), more);
      && n in t.nodes && t.nodes[n].status == Stopped && t.nodes[n].started == s.nodes[n].started
      && t.nodes[n].restarts == s.nodes[n].restarts && t.nodes[n].closes == 1
  {
    var n := s.owner[p];
    assert CaptureOk(s, p) && NodeOk(s, n);
    ExitOutcome(s, p, n, s.nodes[n], false);
    StepInv(s, AExit(p));
    G.FinishedForever(Step(s, AExit(p)), more, n);
  }

  /** Nodes that no exit restarts. */
  predicate Unrestartable(x: Node) { x.policy == Never || (x.policy == OnFailure && x.native) }

  predicate OnceOnly(s: World) {
    forall n {:trigger NodeOk(s, n)} :: n in s.nodes && Unrestartable(s.nodes[n]) ==>
      s.nodes[n].restarts == 0 && s.nodes[n].status != Starting
  }

  lemma ExitOnceOnly(s: World, p: ProcId)
    requires Inv(s) && OnceOnly(s)
    ensures OnceOnly(Exit(s, p))
  {
    if p in s.captures && s.captures[p].Reaped? && s.pending.None? {
      var n := s.owner[p];
      assert CaptureOk(s, p) && NodeOk(s, n);
      ExitOutcome(s, p, n, s.nodes[n], s.captures[p].failed);
      assert Step(s, AExit(p)) == Exit(s, p);
      hide Exit, Step;
      forall m | m in Exit(s, p).nodes && Unrestartable(Exit(s, p).nodes[m])
        ensures Exit(s, p).nodes[m].restarts == 0 && Exit(s, p).nodes[m].status != Starting
      {
        assert NodeOk(s, m);
      }
    }
  }

  lemma OtherOnceOnly(s: World, a: Action, m: NodeId)
    requires Inv(s) && OnceOnly(s) && !a.AExit? && m in Step(s, a).nodes && Unrestartable(Step(s, a).nodes[m])
    ensures Step(s, a).nodes[m].restarts == 0 && Step(s, a).nodes[m].status != Starting
  {
    if m in s.nodes {
      OldOnceOnly(s, a, m);
    } else if a.ARunStart? {
      NewOnceOnly(s, a.outcome, m);
    } else {
      NoneAdded(s, a);
    }
  }

  /** The node is the same as far as its restarts are concerned, and does not begin to wait for one. */
  predicate Kept(x: Node, y: Node) {
    y.restarts == x.restarts && y.policy == x.policy && y.native == x.native && (y.status == Starting ==> x.status == Starting)
  }

  lemma OldOnceOnly(s: World, a: Action, m: NodeId)
    requires Inv(s) && OnceOnly(s) && !a.AExit? && m in s.nodes && m in Step(s, a).nodes
    ensures Unrestartable(Step(s, a).nodes[m]) ==> Step(s, a).nodes[m].restarts == 0 && Step(s, a).nodes[m].status != Starting
  {
    assert NodeOk(s, m);
    hide Step, Inv;
    if a.AWake? {
      WakeShape(s, a.p, a.outcome, m);
    } else {
      NoneDoze(s, a, m);
    }
  }

  /** Only an exit makes a node wait for a restart. */
  lemma NoneDoze(s: World, a: Action, m: NodeId)
    requires Inv(s) && !a.AExit? && !a.AWake? && m in s.nodes && m in Step(s, a).nodes
    ensures Kept(s.nodes[m], Step(s, a).nodes[m])
  {
    hide Exit, Wake, Stop, DeleteStop, RunStart, Progress;
    match a
    case AStop(w, name) => StopKeeps(s, w, name, m);
    case ADeleteStop(w) => DeleteKeeps(s, w, m);
    case ARunStart(outcome) => RunKeeps(s, outcome, m);
    case AProgress(p, counter) => ProgressKeeps(s, p, counter, m);
    case _ =>
  }

  lemma StopKeeps(s: World, w: WorkspaceId, name: Option<string>, m: NodeId)
    requires m in s.nodes
    ensures m in Stop(s, w, name).nodes && Kept(s.nodes[m], Stop(s, w, name).nodes[m])
  {
    hide Targets;
  }

  lemma DeleteKeeps(s: World, w: WorkspaceId, m: NodeId)
    requires m in s.nodes
    ensures m in DeleteStop(s, w).nodes && Kept(s.nodes[m], DeleteStop(s, w).nodes[m])
  {
    StopKeeps(s, w, None, m);
    hide Stop;
  }

  lemma RunKeeps(s: World, outcome: StartOutcome, m: NodeId)
    requires Inv(s) && m in s.nodes
    ensures m in RunStart(s, outcome).nodes && Kept(s.nodes[m], RunStart(s, outcome).nodes[m])
  {
    assert NodeOk(s, m);
    hide Inv;
  }

  lemma ProgressKeeps(s: World, p: ProcId, counter: nat, m: NodeId)
    requires m in s.nodes
    ensures m in Progress(s, p, counter).nodes && Kept(s.nodes[m], Progress(s, p, counter).nodes[m])
  {
  }

  lemma WakeShape(s: World, p: ProcId, outcome: StartOutcome, m: NodeId)
    requires Inv(s) && m in s.nodes
    ensures var t := Step(s, AWake(p, outcome));
      t.nodes.Keys == s.nodes.Keys && Kept(s.nodes[m], t.nodes[m])
  {
    if p in s.captures && s.captures[p].Sleeping? && s.pending.None? {
      var n := s.owner[p];
      assert CaptureOk(s, p);
      WakeOutcome(s, p, n, s.nodes[n], s.captures[p].failed, outcome);
      hide Step, Inv;
    }
  }

  lemma NewOnceOnly(s: World, outcome: StartOutcome, m: NodeId)
    requires m !in s.nodes && m in RunStart(s, outcome).nodes
    ensures RunStart(s, outcome).nodes[m].restarts == 0 && RunStart(s, outcome).nodes[m].status == Running
  {
  }

  lemma NoneAdded(s: World, a: Action)
    requires !a.ARunStart? && !a.AExit?
    ensures Step(s, a).nodes.Keys <= s.nodes.Keys
  {
    hide Exit, RunStart, Wake;
    if a.AWake? { NoneWoken(s, a.p, a.outcome); }
  }

  lemma NoneWoken(s: World, p: ProcId, outcome: StartOutcome)
    ensures Wake(s, p, outcome).nodes.Keys <= s.nodes.Keys
  {
  }

  lemma {:induction false} OnceOnlyRun(hasSafety: bool, acts: seq<Action>)
    ensures OnceOnly(Run(Init(hasSafety), acts))
    decreases |acts|
  {
    if acts != [] {
      var s, a := Run(Init(hasSafety), acts[..|acts|-1]), acts[|acts|-1];
      OnceOnlyRun(hasSafety, acts[..|acts|-1]);
      InitInv(hasSafety);
      RunInv(Init(hasSafety), acts[..|acts|-1]);
      if a.AExit? {
        ExitOnceOnly(s, a.p);
      } else {
        forall m | m in Step(s, a).nodes && Unrestartable(Step(s, a).nodes[m])
          ensures Step(s, a).nodes[m].restarts == 0 && Step(s, a).nodes[m].status != Starting
        {
          OtherOnceOnly(s, a, m);
        }
      }
    }
  }

  /** In no run is a node with the policy `never`, or a native one with `on-failure`, started twice. */
  lemma {:induction false} StartedOnce(hasSafety: bool, acts: seq<Action>, n: NodeId)
    requires n in Run(Init(hasSafety), acts).nodes
    requires var x := Run(Init(hasSafety), acts).nodes[n]; x.policy == Never || (x.policy == OnFailure && x.native)
    ensures Run(Init(hasSafety), acts).nodes[n].restarts == 0 && G.StartCount(Run(Init(hasSafety), acts).starts, n) <= 1
  {
    var s := Run(Init(hasSafety), acts);
    OnceOnlyRun(hasSafety, acts);
    G.LogRun(hasSafety, acts);
    assert NodeOk(s, n);
  }

  // ---------------------------------------------------------------- stop, run, heartbeats

  /**
   * stop marks exactly the running and starting nodes of the workspace that have the given
   * name, or all of them if none is given; nothing else changes.
   */
  lemma StopMarks(s: World, w: WorkspaceId, name: Option<string>)
    requires Inv(s) && s.pending.None?
    ensures var t := Step(s, AStop(w, name));
      && t == s.(nodes := t.nodes) && t.nodes.Keys == s.nodes.Keys
      && forall n :: n in s.nodes ==>
           var x := s.nodes[n];
           t.nodes[n] == x.(stopping := x.stopping
             || (x.ws == w && (x.status == Running || x.status == Starting) && (name.None? || x.name == name.value)))
  {
    forall n | n in s.nodes ensures n in Targets(s, w, name) <==>
      (var x := s.nodes[n]; x.ws == w && (x.status == Running || x.status == Starting) && (name.None? || x.name == name.value))
    {
      TargetIff(s, w, name, n);
    }
    hide Targets, Inv;
  }

  lemma TargetIff(s: World, w: WorkspaceId, name: Option<string>, n: NodeId)
    requires Inv(s) && n in s.nodes
    ensures var x := s.nodes[n]; n in Targets(s, w, name) <==>
      x.ws == w && (x.status == Running || x.status == Starting) && (name.None? || x.name == name.value)
  {
    var x := s.nodes[n];
    assert NodeOk(s, n);
    if w in s.spaces { assert SpaceOk(s, w); }
    if x.ws == w && Active(x) { assert s.spaces[w][x.name] == n; }
  }

  /**
   * run passes its checks exactly if its restart limit is within bounds, nothing is latched or
   * closing, the workspace is listed, and no node of the requested name runs or starts there.
   */
  lemma RunPassesIff(s: World, w: WorkspaceId, r: Request)
    requires Inv(s) && s.pending.None? && w in s.spaces && w !in s.deleting
    ensures Step(s, ARunCheck(w, r)).pending == Some(Pending(w, r)) <==>
      && 0 <= r.maxRestarts <= 100 && !s.estop && !s.closing && w in s.items
      && !exists n :: n in s.nodes && s.nodes[n].ws == w && s.nodes[n].name == r.name
                      && (s.nodes[n].status == Running || s.nodes[n].status == Starting)
    ensures var t := Step(s, ARunCheck(w, r)); t == s || t == s.(pending := Some(Pending(w, r)))
  {
    assert SpaceOk(s, w);
    if n :| n in s.nodes && s.nodes[n].ws == w && s.nodes[n].name == r.name
            && (s.nodes[n].status == Running || s.nodes[n].status == Starting) {
      assert NodeOk(s, n);
    }
  }

  /** The node that a successful run enters: running, unmarked, as requested, and heard of at once if it is native. */
  lemma RunEnters(s: World)
    requires Inv(s) && s.pending.Some?
    ensures var w, r := s.pending.value.ws, s.pending.value.request;
      var t := Step(s, ARunStart(Starts));
      && t.pending.None? && t.nodes.Keys == s.nodes.Keys + {s.nextNode}
      && t.starts == s.starts + [Start(w, s.nextNode, s.nextProc)] && t.captures == s.captures[s.nextProc := Waiting]
      && w in t.spaces && t.spaces[w] == s.spaces[w][r.name := s.nextNode]
      && var x := t.nodes[s.nextNode];
         && x.ws == w && x.name == r.name && x.native == r.native && x.policy == r.policy && x.maxRestarts == r.maxRestarts
         && x.status == Running && x.cmd == s.nextProc && x.restarts == 0 && !x.stopping && x.closes == 0
         && (s.hasSafety && x.native ==> x.lastProgress == Some(s.now) && x.counter == 0)
  {
    assert s.pending.value.ws in s.spaces;
    hide Inv;
  }

  /** A heartbeat counts exactly if it comes from the running process of a native node, with a counter above the last one. */
  lemma HeartbeatCounts(s: World, p: ProcId, counter: nat, n: NodeId, x: Node)
    requires Inv(s) && s.hasSafety && s.pending.None? && p in s.owner && s.owner[p] == n && n in s.nodes && s.nodes[n] == x
    ensures Step(s, AProgress(p, counter)).nodes == s.nodes[n :=
      if x.native && x.status == Running && x.cmd == p && counter > x.counter
      then x.(counter := counter, lastProgress := Some(s.now)) else x]
  {
    hide Inv;
  }

  // ---------------------------------------------------------------- a workspace from its creation to its deletion

  /** A new workspace can be used at once: create it and run a node in it, and that node's process is started. */
  lemma NewSpaceRuns(s: World, r: Request)
    requires Inv(s) && s.pending.None? && !s.closing && !s.estop && 0 <= r.maxRestarts <= 100
    ensures var t := Run(s, [ACreate] + [ARunCheck(s.nextWs, r)] + [ARunStart(Starts)]);
      && t.items == s.items + {s.nextWs} && t.starts == s.starts + [Start(s.nextWs, s.nextNode, s.nextProc)]
      && t.spaces == s.spaces[s.nextWs := map[r.name := s.nextNode]]
  {
    Three(s, ACreate, ARunCheck(s.nextWs, r), ARunStart(Starts));
    CreatedAccepts(s, r);
    hide Inv, Run, Create, RunCheck, Exit, Wake, Stop, DeleteStop, Progress;
  }

  lemma CreatedAccepts(s: World, r: Request)
    requires Inv(s) && s.pending.None? && !s.closing && !s.estop && 0 <= r.maxRestarts <= 100
    ensures var w := s.nextWs;
      Step(Step(s, ACreate), ARunCheck(w, r)) ==
      s.(items := s.items + {w}, spaces := s.spaces[w := map[]], nextWs := w + 1, pending := Some(Pending(w, r)))
  {
    var w := s.nextWs;
    var u := Step(s, ACreate);
    assert u == s.(items := s.items + {w}, spaces := s.spaces[w := map[]], nextWs := w + 1);
    forall v | v in s.spaces ensures v != w { assert SpaceOk(s, v); }
    hide Inv;
  }

  lemma Three(s: World, a: Action, b: Action, c: Action)
    ensures Run(s, [a] + [b] + [c]) == Step(Step(Step(s, a), b), c)
  {
    hide Step;
    OneMore(s, [] + [a] + [b], c);
    OneMore(s, [] + [a], b);
    OneMore(s, [], a);
    assert [] + [a] == [a];
  }

  lemma OneMore(s: World, acts: seq<Action>, a: Action)
    ensures Run(s, acts + [a]) == Step(Run(s, acts), a)
  {
    assert (acts + [a])[..|acts|] == acts;
    hide Step;
  }

  /** A start that fails leaves no trace: the lock is free again and nothing was entered. */
  lemma FailedStart(s: World, outcome: StartOutcome)
    requires Inv(s) && s.pending.Some? && outcome != Starts
    ensures Step(s, ARunStart(outcome)) == s.(pending := None)
  {
    hide Inv;
  }

  /**
   * A deletion without interference: it marks every running and starting node of its
   * workspace, and takes the workspace off the list exactly if its directory was removed.
   */
  lemma DeletionRun(s: World, w: WorkspaceId, removed: bool)
    requires Inv(s) && s.pending.None? && w in s.spaces && w !in s.deleting
    ensures var t := Run(s, [ADeleteBegin(w)] + [ADeleteStop(w)] + [ADeleteEnd(w, removed)]);
      && t == s.(nodes := t.nodes, items := if removed then s.items - {w} else s.items) && t.nodes.Keys == s.nodes.Keys
      && forall n :: n in s.nodes ==>
           var x := s.nodes[n];
           t.nodes[n] == x.(stopping := x.stopping || (x.ws == w && (x.status == Running || x.status == Starting)))
  {
    Three(s, ADeleteBegin(w), ADeleteStop(w), ADeleteEnd(w, removed));
    DeletionSteps(s, w, removed);
    StopMarks(s, w, None);
    hide Inv, Stop, DeleteStop;
  }

  lemma DeletionSteps(s: World, w: WorkspaceId, removed: bool)
    requires s.pending.None? && w in s.spaces && w !in s.deleting
    ensures Step(Step(Step(s, ADeleteBegin(w)), ADeleteStop(w)), ADeleteEnd(w, removed)) ==
      s.(nodes := Step(s, AStop(w, None)).nodes, items := if removed then s.items - {w} else s.items)
  {
    hide Targets, MarkStopping;
    var u := Step(s, ADeleteBegin(w));
    assert u == s.(deleting := s.deleting[w := Locked]);
    assert Targets(u, w, None) == Targets(s, w, None) by { TargetsAlike(s, u, w); }
    var v := Step(u, ADeleteStop(w));
    assert v.deleting - {w} == s.deleting;
  }

  lemma TargetsAlike(s: World, u: World, w: WorkspaceId)
    requires u.nodes == s.nodes && u.spaces == s.spaces
    ensures Targets(u, w, None) == Targets(s, w, None)
  {
  }
}
