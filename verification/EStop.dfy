/**
 * The E-Stop is final. Once it is latched and a workspace has been swept by `stop`, no
 * process of that workspace is ever started again, by `run` or by a restart, whatever
 * happens next; once the workspaces listed after the latch have been swept, no process
 * is ever started again at all, deleted and later created workspaces included.
 */
module EStop {
  import opened Outcomes
  import opened Supervision
  import opened SupervisionInvariant

  /** Every active node of w is marked stopping. */
  predicate Halted(s: World, w: WorkspaceId) {
    forall n {:trigger s.nodes[n]} :: n in s.nodes && s.nodes[n].ws == w && Active(s.nodes[n]) ==> s.nodes[n].stopping
  }

  predicate NotPending(s: World, w: WorkspaceId) { s.pending.Some? ==> s.pending.value.ws != w }

  /** No run of w can pass its checks any more. */
  predicate Barred(s: World, w: WorkspaceId) {
    s.estop || s.closing || (w < s.nextWs && w !in s.items)
  }

  predicate Quiet(s: World, w: WorkspaceId) { Halted(s, w) && NotPending(s, w) && Barred(s, w) }

  /** A swept deletion and a removed workspace have no node left that could start. */
  ghost predicate SweptOk(s: World) {
    forall w: WorkspaceId {:trigger Halted(s, w)} ::
      w < s.nextWs && (w !in s.items || (w in s.deleting && s.deleting[w] == Swept)) ==> Halted(s, w)
  }

  /** The starts of s' after those of s are all outside w. */
  predicate NoStartIn(s: World, s': World, w: WorkspaceId) {
    s.starts <= s'.starts && forall k :: |s.starts| <= k < |s'.starts| ==> s'.starts[k].ws != w
  }

  // ---------------------------------------------------------------- one step

  lemma HaltedExit(s: World, p: ProcId, w: WorkspaceId)
    requires Inv(s) && Halted(s, w)
    ensures Halted(Exit(s, p), w) && Exit(s, p).starts == s.starts
  {
    if p in s.captures {
      assert CaptureOk(s, p) && NodeOk(s, s.owner[p]);
    }
  }

  lemma HaltedWake(s: World, p: ProcId, outcome: StartOutcome, w: WorkspaceId)
    requires Inv(s) && Halted(s, w)
    ensures Halted(Wake(s, p, outcome), w) && NoStartIn(s, Wake(s, p, outcome), w)
  {
    if p in s.captures {
      assert CaptureOk(s, p) && NodeOk(s, s.owner[p]);
    }
  }

  /** A halted workspace stays halted, and starts nothing, while no run of it is pending. */
  lemma HaltedStep(s: World, a: Action, w: WorkspaceId)
    requires Inv(s) && Halted(s, w) && NotPending(s, w)
    ensures Halted(Step(s, a), w) && NoStartIn(s, Step(s, a), w)
  {
    if a.AExit? {
      HaltedExit(s, a.p, w);
    } else if a.AWake? {
      HaltedWake(s, a.p, a.outcome, w);
    } else if a.AStop? || a.ADeleteStop? || a.AProgress? || a.ARunStart? {
      HaltedNodes(s, a, w);
    }
  }

  lemma HaltedNodes(s: World, a: Action, w: WorkspaceId)
    requires Inv(s) && Halted(s, w) && NotPending(s, w)
    requires a.AStop? || a.ADeleteStop? || a.AProgress? || a.ARunStart?
    ensures Halted(Step(s, a), w) && NoStartIn(s, Step(s, a), w)
  {
  }

  /** Barred is for good. */
  lemma BarredStep(s: World, a: Action, w: WorkspaceId)
    requires Inv(s) && Barred(s, w) && NotPending(s, w)
    ensures Barred(Step(s, a), w) && NotPending(Step(s, a), w)
  {
  }

  lemma QuietStep(s: World, a: Action, w: WorkspaceId)
    requires Inv(s) && Quiet(s, w)
    ensures Quiet(Step(s, a), w) && NoStartIn(s, Step(s, a), w)
  {
    HaltedStep(s, a, w);
    BarredStep(s, a, w);
  }

  /** stop(w, "") halts w: it marks every active node, wherever the node is in a restart. */
  lemma StopHalts(s: World, w: WorkspaceId)
    requires Inv(s) && LockFree(s)
    ensures Halted(Stop(s, w, None), w)
  {
    var s' := Stop(s, w, None);
    forall n | n in s'.nodes && s'.nodes[n].ws == w && Active(s'.nodes[n]) ensures s'.nodes[n].stopping {
      assert NodeOk(s, n);
      assert s.spaces[w][s.nodes[n].name] == n;
    }
  }

  // ---------------------------------------------------------------- deletion

  /** Deletion halts its workspace before it lets go of it, and run cannot get in between. */
  lemma SweptStep(s: World, a: Action)
    requires Inv(s) && SweptOk(s)
    ensures SweptOk(Step(s, a))
  {
    var s' := Step(s, a);
    forall w: WorkspaceId | w < s'.nextWs && (w !in s'.items || (w in s'.deleting && s'.deleting[w] == Swept))
      ensures Halted(s', w)
    {
      if w < s.nextWs && (w !in s.items || (w in s.deleting && s.deleting[w] == Swept)) {
        assert Halted(s, w);
        HaltedStep(s, a, w);
      } else {
        SweptNow(s, a, w);
      }
    }
  }

  lemma SweptNow(s: World, a: Action, w: WorkspaceId)
    requires Inv(s)
    requires w < s.nextWs ==> w in s.items && (w in s.deleting ==> s.deleting[w] != Swept)
    requires w < Step(s, a).nextWs
    requires w !in Step(s, a).items || (w in Step(s, a).deleting && Step(s, a).deleting[w] == Swept)
    ensures Halted(Step(s, a), w)
  {
    if w in s.spaces {
      assert SpaceOk(s, w);
    }
    if a.ADeleteStop? {
      StopHalts(s, w);
    } else {
      OnlyDeletionLetsGo(s, a, w);
    }
  }

  lemma OnlyDeletionLetsGo(s: World, a: Action, w: WorkspaceId)
    requires ShapeOk(s) && (w in s.spaces <==> w < s.nextWs) && !a.ADeleteStop?
    requires w < s.nextWs ==> w in s.items && (w in s.deleting ==> s.deleting[w] != Swept)
    requires w < Step(s, a).nextWs
    ensures w in Step(s, a).items && (w in Step(s, a).deleting ==> Step(s, a).deleting[w] != Swept)
  {
    match a
    case AExit(p) => ItemsKeptByExit(s, p);
    case AWake(p, outcome) => ItemsKeptByWake(s, p, outcome);
    case ARunStart(_) => ItemsKeptByRun(s, a);
    case ARunCheck(_, _) => ItemsKeptByRun(s, a);
    case AStop(_, _) => ItemsKeptByRun(s, a);
    case AProgress(_, _) => ItemsKeptByRun(s, a);
    case _ =>
  }

  predicate SameItems(s: World, s': World) {
    s'.items == s.items && s'.deleting == s.deleting && s'.nextWs == s.nextWs
  }

  lemma ItemsKeptByExit(s: World, p: ProcId)
    ensures SameItems(s, Exit(s, p))
  {
  }

  lemma ItemsKeptByWake(s: World, p: ProcId, outcome: StartOutcome)
    ensures SameItems(s, Wake(s, p, outcome))
  {
    hide ResetProgress;
  }

  lemma ItemsKeptByRun(s: World, a: Action)
    requires a.ARunCheck? || a.ARunStart? || a.AStop? || a.AProgress?
    ensures SameItems(s, Step(s, a))
  {
  }

  lemma {:induction false} Reachable(hasSafety: bool, acts: seq<Action>)
    ensures Inv(Run(Init(hasSafety), acts)) && SweptOk(Run(Init(hasSafety), acts))
    decreases |acts|
  {
    if acts == [] {
      InitInv(hasSafety);
    } else {
      var s := Run(Init(hasSafety), acts[..|acts|-1]);
      Reachable(hasSafety, acts[..|acts|-1]);
      StepInv(s, acts[|acts|-1]);
      SweptStep(s, acts[|acts|-1]);
    }
  }

  // ---------------------------------------------------------------- whole runs

  lemma StartsOfNew(s: World, s1: World, s2: World, w: WorkspaceId)
    requires NoStartIn(s, s1, w) && NoStartIn(s1, s2, w)
    ensures NoStartIn(s, s2, w)
  {
    forall k | |s.starts| <= k < |s2.starts| ensures s2.starts[k].ws != w {
      if k < |s1.starts| {
        assert s2.starts[k] == s1.starts[k];
      }
    }
  }

  /** Quiet is for good, in every run. */
  lemma {:induction false} QuietForever(s: World, acts: seq<Action>, w: WorkspaceId)
    requires Inv(s) && Quiet(s, w)
    ensures Quiet(Run(s, acts), w) && NoStartIn(s, Run(s, acts), w)
    decreases |acts|
  {
    if acts != [] {
      var front, a := acts[..|acts|-1], acts[|acts|-1];
      QuietForever(s, front, w);
      RunInv(s, front);
      QuietStep(Run(s, front), a, w);
      StartsOfNew(s, Run(s, front), Run(s, acts), w);
    }
  }

  lemma SweepQuiets(s: World, w: WorkspaceId)
    requires Inv(s) && s.estop && LockFree(s)
    ensures Quiet(Stop(s, w, None), w)
  {
    StopHalts(s, w);
  }

  /**
   * E-Stop is final for a swept workspace: after the latch, a sweep that gets the server
   * lock rules out every later start in the workspace, in every interleaving.
   */
  lemma {:induction false} SweepIsFinal(s: World, w: WorkspaceId, acts: seq<Action>)
    requires Inv(s) && s.estop && LockFree(s)
    ensures NoStartIn(Stop(s, w, None), Run(Stop(s, w, None), acts), w)
  {
    StopInv(s, w, None);
    SweepQuiets(s, w);
    QuietForever(Stop(s, w, None), acts, w);
  }

  /** When the sweep list is taken, a workspace that is not on it can start nothing: it was deleted, or it has no node yet. */
  lemma UnlistedIsQuiet(s: World, w: WorkspaceId)
    requires Inv(s) && SweptOk(s) && s.estop && LockFree(s) && w !in s.items
    ensures Quiet(s, w)
  {
    if w >= s.nextWs {
      forall n | n in s.nodes ensures s.nodes[n].ws != w {
        assert NodeOk(s, n) && SpaceOk(s, s.nodes[n].ws);
      }
    }
    assert Halted(s, w);
  }

  /** acts[k] is an effective stop(w, ""). */
  predicate SweptAt(s: World, acts: seq<Action>, w: WorkspaceId, k: nat) {
    k < |acts| && acts[k] == AStop(w, None) && LockFree(Run(s, acts[..k]))
  }

  lemma FlagsStep(s: World, a: Action)
    ensures s.estop ==> Step(s, a).estop
    ensures s.closing ==> Step(s, a).closing
  {
  }

  /** Neither flag is ever cleared. */
  lemma {:induction false} EStopStays(s: World, acts: seq<Action>)
    ensures s.estop ==> Run(s, acts).estop
    ensures s.closing ==> Run(s, acts).closing
    decreases |acts|
  {
    if acts != [] {
      EStopStays(s, acts[..|acts|-1]);
      FlagsStep(Run(s, acts[..|acts|-1]), acts[|acts|-1]);
    }
  }

  lemma {:induction false} RunSplit(s: World, acts: seq<Action>, more: seq<Action>)
    ensures Run(s, acts + more) == Run(Run(s, acts), more)
    decreases |more|
  {
    if more == [] {
      assert acts + more == acts;
    } else {
      assert (acts + more)[..|acts + more|-1] == acts + more[..|more|-1];
      RunSplit(s, acts, more[..|more|-1]);
    }
  }

  lemma RunNext(s: World, acts: seq<Action>, k: nat)
    requires k < |acts|
    ensures Run(s, acts[..k+1]) == Step(Run(s, acts[..k]), acts[k])
  {
    assert acts[..k+1][..k] == acts[..k];
  }

  lemma {:induction false} SweptInRun(s: World, acts: seq<Action>, w: WorkspaceId, k: nat)
    requires Inv(s) && s.estop && SweptAt(s, acts, w, k)
    ensures Quiet(Run(s, acts), w)
  {
    var t := Run(s, acts[..k]);
    RunInv(s, acts[..k]);
    EStopStays(s, acts[..k]);
    SweepQuiets(t, w);
    StopInv(t, w, None);
    QuietForever(Stop(t, w, None), acts[k+1..], w);
    RunAround(s, acts, k);
  }

  lemma RunAround(s: World, acts: seq<Action>, k: nat)
    requires k < |acts|
    ensures Run(s, acts) == Run(Step(Run(s, acts[..k]), acts[k]), acts[k+1..])
  {
    RunNext(s, acts, k);
    RunSplit(s, acts[..k+1], acts[k+1..]);
    assert acts[..k+1] + acts[k+1..] == acts;
  }

  /**
   * The safety loop's trip is final for the whole server. In any reachable state with the
   * latch set in which the sweep list is taken, once every listed workspace has been
   * stopped, in any order and with anything in between, nothing is ever started again.
   */
  lemma {:induction false} TripIsFinal(hasSafety: bool, before: seq<Action>, sweep: seq<Action>, after: seq<Action>)
    requires var s := Run(Init(hasSafety), before);
      && s.estop && LockFree(s)
      && forall w :: w in s.items ==> exists k: nat :: SweptAt(s, sweep, w, k)
    ensures var done := before + sweep;
      Run(Init(hasSafety), done + after).starts == Run(Init(hasSafety), done).starts
  {
    var s := Run(Init(hasSafety), before);
    Reachable(hasSafety, before);
    RunSplit(Init(hasSafety), before, sweep);
    RunSplit(Init(hasSafety), before + sweep, after);
    var s1 := Run(s, sweep);
    var s2 := Run(s1, after);
    RunInv(s, sweep);
    forall w: WorkspaceId ensures NoStartIn(s1, s2, w) {
      if w in s.items {
        var k: nat :| SweptAt(s, sweep, w, k);
        SweptInRun(s, sweep, w, k);
      } else {
        UnlistedIsQuiet(s, w);
        QuietForever(s, sweep, w);
      }
      QuietForever(s1, after, w);
    }
    var w := if |s2.starts| > |s1.starts| then s2.starts[|s1.starts|].ws else 0;
    assert NoStartIn(s1, s2, w);
  }

  // ---------------------------------------------------------------- closing, draining

  lemma ClosedStep(s: World, a: Action)
    requires Inv(s) && s.closing
    ensures Step(s, a).closing && Step(s, a).starts == s.starts
  {
  }

  /** Close needs no sweep: from the moment its flag is set nothing starts, by run or by restart. */
  lemma {:induction false} CloseIsFinal(s: World, acts: seq<Action>)
    requires Inv(s) && s.closing
    ensures Run(s, acts).closing && Run(s, acts).starts == s.starts
    decreases |acts|
  {
    if acts != [] {
      CloseIsFinal(s, acts[..|acts|-1]);
      RunInv(s, acts[..|acts|-1]);
      ClosedStep(Run(s, acts[..|acts|-1]), acts[|acts|-1]);
    }
  }

  /** The steps its waiter still has to take before a stopping node is finished. */
  function Drain(c: Capture, p: ProcId, failed: bool, outcome: StartOutcome): seq<Action> {
    match c
    case Waiting => [AReap(p, failed), AExit(p)]
    case Reaped(_) => [AExit(p)]
    case Sleeping(_) => [AWake(p, outcome)]
  }

  /** A node marked by stop ends stopped, its done channel closed once, as soon as its waiter has run. */
  lemma StoppingNodeFinishes(s: World, n: NodeId, failed: bool, outcome: StartOutcome)
    requires Inv(s) && LockFree(s) && n in s.nodes && Active(s.nodes[n]) && s.nodes[n].stopping
    ensures var p := s.nodes[n].cmd;
      && p in s.captures
      && var s' := Run(s, Drain(s.captures[p], p, failed, outcome));
      n in s'.nodes && s'.nodes[n].status == Stopped && s'.nodes[n].closes == 1 && p !in s'.captures
  {
    assert NodeOk(s, n);
    var p := s.nodes[n].cmd;
    var acts := Drain(s.captures[p], p, failed, outcome);
    RunNext(s, acts, 0);
    assert acts[..0] == [] && acts[..|acts|] == acts;
    if |acts| == 2 {
      RunNext(s, acts, 1);
      StepInv(s, acts[0]);
      MarkedWaiterFinishes(Step(s, acts[0]), acts[1], n);
    } else {
      MarkedWaiterFinishes(s, acts[0], n);
    }
  }

  lemma MarkedWaiterFinishes(s: World, a: Action, n: NodeId)
    requires Inv(s) && LockFree(s) && n in s.nodes && Active(s.nodes[n]) && s.nodes[n].stopping
    requires (a.AExit? || a.AWake?) && a.p == s.nodes[n].cmd && a.p in s.captures
    requires if a.AExit? then s.captures[a.p].Reaped? else s.captures[a.p].Sleeping?
    ensures var s' := Step(s, a);
      n in s'.nodes && s'.nodes[n].status == Stopped && s'.nodes[n].closes == 1 && a.p !in s'.captures
  {
    assert NodeOk(s, n);
  }
}
