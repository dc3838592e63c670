/**
 * What the latch alone does not stop. A restart checks the stopping and closing flags but
 * never the latch (pkg/server/process.go:308-317), and a run past its check does not look
 * again: between the latch and the sweep processes can still start. This module says when.
 */
module LateStarts {
  import opened Outcomes
  import opened Supervision
  import opened SupervisionInvariant
  import opened EStop

  /** The node's policy restarts it after some exit that is not a native failure. */
  predicate RestartsAfterSomeExit(x: Node) {
    x.restarts < x.maxRestarts && (x.policy == Always || (x.policy == OnFailure && !x.native))
  }

  /** The waiter p can still bring its node back: asleep, about to restart, or waiting for an exit that restarts. */
  predicate MayRestart(s: World, p: ProcId) {
    && p in s.captures && p in s.owner && s.owner[p] in s.nodes
    && var x := s.nodes[s.owner[p]];
    && !x.stopping
    && match s.captures[p]
       case Sleeping(_) => true
       case Reaped(failed) => Restarts(s, x, failed)
       case Waiting => RestartsAfterSomeExit(x)
  }

  /** Some process can still start after the latch. */
  ghost predicate CanStart(s: World) {
    s.pending.Some? || (!s.closing && exists p :: MayRestart(s, p))
  }

  // ---------------------------------------------------------------- when nothing can start

  ghost predicate NoneMayRestart(s: World) {
    forall p {:trigger MayRestart(s, p)} :: !MayRestart(s, p)
  }

  /** Latched, no run past its check, and closing or no waiter that may restart. */
  ghost predicate Stuck(s: World) {
    s.estop && LockFree(s) && (s.closing || NoneMayRestart(s))
  }

  /** The steps after which a waiter may restart only if it might before. */
  ghost predicate NoNewHope(s: World, s': World) {
    forall p {:trigger MayRestart(s', p)} :: MayRestart(s', p) ==> MayRestart(s, p)
  }

  lemma WaiterStuck(s: World, a: Action)
    requires Inv(s) && Stuck(s) && (a.AExit? || a.AWake?)
    ensures Step(s, a).starts == s.starts && LockFree(Step(s, a)) && (!s.closing ==> NoNewHope(s, Step(s, a)))
  {
    if a.p in s.captures {
      var n := s.owner[a.p];
      assert CaptureOk(s, a.p) && !s.closing ==> !MayRestart(s, a.p);
      forall q | MayRestart(Step(s, a), q) && !s.closing ensures MayRestart(s, q) {
        assert q in s.captures ==> CaptureOk(s, q);
      }
    }
  }

  lemma ReapStuck(s: World, p: ProcId, failed: bool)
    requires Inv(s)
    ensures NoNewHope(s, Reap(s, p, failed))
  {
  }

  lemma MarkStuck(s: World, a: Action)
    requires Inv(s) && LockFree(s) && (a.AStop? || a.ADeleteStop? || a.AProgress?)
    ensures Step(s, a).starts == s.starts && LockFree(Step(s, a)) && NoNewHope(s, Step(s, a))
  {
  }

  lemma OtherStuck(s: World, a: Action)
    requires Inv(s) && s.estop && LockFree(s)
    requires !a.AExit? && !a.AWake? && !a.AStop? && !a.ADeleteStop? && !a.AProgress? && !a.AReap?
    ensures Step(s, a).starts == s.starts && LockFree(Step(s, a))
    ensures Step(s, a).closing || NoNewHope(s, Step(s, a))
  {
  }

  lemma StuckStep(s: World, a: Action)
    requires Inv(s) && Stuck(s)
    ensures Stuck(Step(s, a)) && Step(s, a).starts == s.starts
  {
    FlagsStep(s, a);
    if a.AExit? || a.AWake? {
      WaiterStuck(s, a);
    } else if a.AStop? || a.ADeleteStop? || a.AProgress? {
      MarkStuck(s, a);
    } else if a.AReap? {
      ReapStuck(s, a.p, a.failed);
    } else {
      OtherStuck(s, a);
    }
  }

  lemma {:induction false} StuckForever(s: World, acts: seq<Action>)
    requires Inv(s) && Stuck(s)
    ensures Stuck(Run(s, acts)) && Run(s, acts).starts == s.starts
    decreases |acts|
  {
    if acts != [] {
      StuckForever(s, acts[..|acts|-1]);
      RunInv(s, acts[..|acts|-1]);
      StuckStep(Run(s, acts[..|acts|-1]), acts[|acts|-1]);
    }
  }

  // ---------------------------------------------------------------- when something can

  lemma RunOne(s: World, a: Action)
    ensures Run(s, [a]) == Step(s, a)
  {
    assert [a][..0] == [] && [a][..1] == [a];
    RunNext(s, [a], 0);
  }

  lemma RunCons(s: World, a: Action, rest: seq<Action>)
    ensures Run(s, [a] + rest) == Run(Step(s, a), rest)
  {
    RunSplit(s, [a], rest);
    RunOne(s, a);
  }

  /** A waiter that may restart its node, with the server lock free. */
  predicate Hopeful(s: World, p: ProcId) {
    ShapeOk(s) && LockFree(s) && !s.closing && MayRestart(s, p)
  }

  lemma SleeperStarts(s: World, p: ProcId)
    requires Hopeful(s, p) && s.captures[p].Sleeping?
    ensures |Wake(s, p, Starts).starts| == |s.starts| + 1
  {
  }

  lemma ReapedSleeps(s: World, p: ProcId)
    requires Hopeful(s, p) && s.captures[p].Reaped?
    ensures Hopeful(Exit(s, p), p) && Exit(s, p).captures[p].Sleeping? && Exit(s, p).starts == s.starts
  {
  }

  /** The exit after which a waiting node is restarted. */
  function SomeExit(x: Node): bool { x.policy == OnFailure }

  lemma WaitingReaped(s: World, p: ProcId)
    requires Hopeful(s, p) && s.captures[p].Waiting?
    ensures var t := Reap(s, p, SomeExit(s.nodes[s.owner[p]]));
      Hopeful(t, p) && t.captures[p].Reaped? && t.starts == s.starts
  {
  }

  /** The steps that bring the node of waiter p back. */
  function ComeBack(s: World, p: ProcId): seq<Action>
    requires Hopeful(s, p)
  {
    match s.captures[p]
    case Sleeping(_) => [AWake(p, Starts)]
    case Reaped(_) => [AExit(p)] + [AWake(p, Starts)]
    case Waiting => [AReap(p, SomeExit(s.nodes[s.owner[p]]))] + ([AExit(p)] + [AWake(p, Starts)])
  }

  lemma SleeperComesBack(s: World, p: ProcId)
    requires Hopeful(s, p) && s.captures[p].Sleeping?
    ensures |Run(s, [AWake(p, Starts)]).starts| == |s.starts| + 1
  {
    RunOne(s, AWake(p, Starts));
    SleeperStarts(s, p);
  }

  lemma ReapedComesBack(s: World, p: ProcId)
    requires Hopeful(s, p) && s.captures[p].Reaped?
    ensures |Run(s, [AExit(p)] + [AWake(p, Starts)]).starts| == |s.starts| + 1
  {
    ReapedSleeps(s, p);
    RunCons(s, AExit(p), [AWake(p, Starts)]);
    SleeperComesBack(Exit(s, p), p);
  }

  lemma HopefulComesBack(s: World, p: ProcId)
    requires Hopeful(s, p)
    ensures |Run(s, ComeBack(s, p)).starts| == |s.starts| + 1
  {
    match s.captures[p]
    case Sleeping(_) => SleeperComesBack(s, p);
    case Reaped(_) => ReapedComesBack(s, p);
    case Waiting =>
      var f := SomeExit(s.nodes[s.owner[p]]);
      WaitingReaped(s, p);
      RunCons(s, AReap(p, f), [AExit(p)] + [AWake(p, Starts)]);
      ReapedComesBack(Reap(s, p, f), p);
  }

  /**
   * After the latch, and before any sweep, some continuation starts a process exactly when a
   * run is past its check, or the server is not closing and some unmarked node is asleep
   * before a restart, about to be restarted, or running under a policy that restarts it
   * after some exit.
   */
  lemma {:induction false} LateStartIff(s: World)
    requires Inv(s) && s.estop
    ensures (exists acts :: Run(s, acts).starts != s.starts) <==> CanStart(s)
  {
    if s.pending.Some? {
      RunOne(s, ARunStart(Starts));
      assert Run(s, [ARunStart(Starts)]).starts != s.starts;
    } else if CanStart(s) {
      var p :| MayRestart(s, p);
      HopefulComesBack(s, p);
      assert Run(s, ComeBack(s, p)).starts != s.starts;
    } else {
      forall acts ensures Run(s, acts).starts == s.starts { StuckForever(s, acts); }
    }
  }

  /** The very next step can start a process exactly when a run is past its check or an unmarked restart is asleep. */
  lemma NextStartIff(s: World)
    requires Inv(s) && s.estop
    ensures (exists a :: Step(s, a).starts != s.starts)
       <==> s.pending.Some? || (!s.closing && exists p :: MayRestart(s, p) && s.captures[p].Sleeping?)
  {
    if a :| Step(s, a).starts != s.starts {
      StartsNext(s, a);
    }
    if s.pending.Some? {
      assert Step(s, ARunStart(Starts)).starts != s.starts;
    } else if !s.closing && exists p :: MayRestart(s, p) && s.captures[p].Sleeping? {
      var p :| MayRestart(s, p) && s.captures[p].Sleeping?;
      SleeperStarts(s, p);
      assert Step(s, AWake(p, Starts)).starts != s.starts;
    }
  }

  lemma StartsNext(s: World, a: Action)
    requires Inv(s) && Step(s, a).starts != s.starts
    ensures s.pending.Some? || (!s.closing && exists p :: MayRestart(s, p) && s.captures[p].Sleeping?)
  {
    if a.AWake? {
      assert MayRestart(s, a.p);
    }
  }

  // ---------------------------------------------------------------- two runs in which it happens

  function Front(r: Request): seq<Action> { [ACreate] + ([ARunCheck(0, r)] + []) }

  lemma Checked(r: Request)
    requires 0 <= r.maxRestarts <= 100
    ensures Run(Init(true), Front(r)) == Create(Init(true)).(pending := Some(Pending(0, r)))
  {
    var s1 := Create(Init(true));
    RunCons(Init(true), ACreate, [ARunCheck(0, r)] + []);
    RunCons(s1, ARunCheck(0, r), []);
    assert s1.spaces[0] == map[];
    assert !NameBusy(s1, 0, r.name);
  }

  /** A run that starts a process after the latch: the latch fell between its check and its start. */
  lemma LatchAloneIsNotEnough()
    ensures var acts := Front(Request("talker", true, Never, 0)) + [ALatch];
      Run(Init(true), acts).estop && |Run(Init(true), acts + [ARunStart(Starts)]).starts| == 1
  {
    var r := Request("talker", true, Never, 0);
    Checked(r);
    var s := Run(Init(true), Front(r));
    RunSplit(Init(true), Front(r), [ALatch]);
    RunOne(s, ALatch);
    RunSplit(Init(true), Front(r) + [ALatch], [ARunStart(Starts)]);
    RunOne(Latch(s), ARunStart(Starts));
  }

  /** One node that is restarted after every exit, one time; it runs when the latch is set. */
  function LatchedWhileRunning(): seq<Action> {
    Front(Request("a", false, Always, 1)) + ([ARunStart(Starts)] + [ALatch])
  }

  lemma RunningState()
    ensures var s := Run(Init(true), LatchedWhileRunning());
      s.estop && Hopeful(s, 0) && s.captures == map[0 := Waiting] && !SomeExit(s.nodes[s.owner[0]])
  {
    var r := Request("a", false, Always, 1);
    Checked(r);
    var s := Run(Init(true), Front(r));
    RunSplit(Init(true), Front(r), [ARunStart(Starts)] + [ALatch]);
    RunCons(s, ARunStart(Starts), [ALatch]);
    RunOne(RunStart(s, Starts), ALatch);
    RunningNow(s, r);
  }

  lemma RunningNow(s: World, r: Request)
    requires s == Create(Init(true)).(pending := Some(Pending(0, r))) && r == Request("a", false, Always, 1)
    ensures var t := Latch(RunStart(s, Starts));
      t.estop && Hopeful(t, 0) && t.captures == map[0 := Waiting] && !SomeExit(t.nodes[t.owner[0]])
  {
  }

  /**
   * A run in which the latch is set while a node that may be restarted is running: no run is
   * past its check and nobody sleeps, so no step can start a process, yet its next exit does.
   */
  lemma RunningNodeComesBack()
    ensures var s := Run(Init(true), LatchedWhileRunning());
      && s.estop && (forall a :: Step(s, a).starts == s.starts)
      && |Run(s, [AReap(0, false)] + ([AExit(0)] + [AWake(0, Starts)])).starts| == |s.starts| + 1
  {
    RunningState();
    var s := Run(Init(true), LatchedWhileRunning());
    InitInv(true);
    RunInv(Init(true), LatchedWhileRunning());
    NextStartIff(s);
    HopefulComesBack(s, 0);
  }
}
