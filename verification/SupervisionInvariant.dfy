/**
 * What every step of the supervisor keeps: one waiter for each active node and none for a
 * finished one, one closing of its done channel, one active node under a name, a bounded
 * number of starts, and progress times that never move backwards.
 */
module SupervisionInvariant {
  import opened Outcomes
  import opened Supervision

  /** The node's lifecycle fields agree with each other and with its waiter. */
  predicate LifecycleOk(s: World, n: NodeId)
    requires n in s.nodes
  {
    var x := s.nodes[n];
    && n < s.nextNode && x.cmd < s.nextProc && x.cmd in s.owner && s.owner[x.cmd] == n
    && (Active(x) <==> x.cmd in s.captures)
    && (x.cmd in s.captures ==> (x.status == Starting <==> s.captures[x.cmd].Sleeping?))
    && x.closes == (if Active(x) then 0 else 1)
    && x.ws in s.spaces
    && (Active(x) ==> x.name in s.spaces[x.ws] && s.spaces[x.ws][x.name] == n)
  }

  /** Restart accounting: one process per start, at most one start more than restarts. */
  predicate CountsOk(x: Node) {
    && x.restarts <= x.maxRestarts <= 100
    && (x.status == Running ==> x.started == x.restarts + 1)
    && (x.status == Starting ==> x.started == x.restarts)
    && x.restarts <= x.started <= x.restarts + 1
  }

  /** Native nodes always have a progress time, not later than the clock. */
  predicate ProgressOk(s: World, x: Node) {
    && (s.hasSafety && x.native ==> x.lastProgress.Some?)
    && (x.lastProgress.Some? ==> x.lastProgress.value <= s.now)
  }

  /** A live waiter belongs to the current process of its node. */
  predicate CaptureOk(s: World, p: ProcId) {
    p in s.owner && s.owner[p] in s.nodes && s.nodes[s.owner[p]].cmd == p
  }

  predicate SpaceOk(s: World, w: WorkspaceId)
    requires w in s.spaces
  {
    w < s.nextWs && forall k :: k in s.spaces[w] ==>
      s.spaces[w][k] in s.nodes && s.nodes[s.spaces[w][k]].ws == w && s.nodes[s.spaces[w][k]].name == k
  }

  predicate PendingOk(s: World) {
    s.pending.Some? ==>
      var w, r := s.pending.value.ws, s.pending.value.request;
      w in s.items && w !in s.deleting && !s.closing && 0 <= r.maxRestarts <= 100 && !NameBusy(s, w, r.name)
  }

  predicate ShapeOk(s: World) {
    && s.items <= s.spaces.Keys
    && (forall w :: w in s.deleting ==> w in s.spaces)
    && (forall p :: p in s.owner ==> p < s.nextProc && s.owner[p] in s.nodes)
    && (forall p :: p in s.captures ==> p in s.owner)
    && (s.estop ==> s.hasSafety)
  }

  predicate NodeOk(s: World, n: NodeId)
    requires n in s.nodes
  {
    LifecycleOk(s, n) && CountsOk(s.nodes[n]) && ProgressOk(s, s.nodes[n])
  }

  predicate NodesOk(s: World) { forall n {:trigger NodeOk(s, n)} :: n in s.nodes ==> NodeOk(s, n) }

  predicate CapturesOk(s: World) { forall p {:trigger CaptureOk(s, p)} :: p in s.captures ==> CaptureOk(s, p) }

  predicate SpacesOk(s: World) { forall w {:trigger SpaceOk(s, w)} :: w in s.spaces ==> SpaceOk(s, w) }

  predicate Inv(s: World) {
    ShapeOk(s) && PendingOk(s) && NodesOk(s) && CapturesOk(s) && SpacesOk(s)
  }

  lemma InitInv(hasSafety: bool)
    ensures Inv(Init(hasSafety))
  {
  }

  // ---------------------------------------------------------------- a step that changes one node

  /** s' differs from s only in node n, its waiters and its processes. */
  predicate OnlyNode(s: World, s': World, n: NodeId) {
    && s'.spaces == s.spaces && s'.items == s.items && s'.deleting == s.deleting
    && s'.nextNode == s.nextNode && s'.nextWs == s.nextWs && s.nextProc <= s'.nextProc
    && s'.now == s.now && s'.hasSafety == s.hasSafety && s'.pending.None?
    && (s'.estop ==> s.estop || s.hasSafety)
    && n in s.nodes && s'.nodes.Keys == s.nodes.Keys
    && (forall m :: m in s.nodes && m != n ==> s'.nodes[m] == s.nodes[m])
    && s'.nodes[n].ws == s.nodes[n].ws && s'.nodes[n].name == s.nodes[n].name
    && (forall p :: p in s.owner ==> p in s'.owner && s'.owner[p] == s.owner[p])
    && (forall p :: p in s'.owner && p !in s.owner ==> s'.owner[p] == n && p < s'.nextProc)
    && (forall p :: p in s.owner && s.owner[p] != n ==>
          (p in s.captures <==> p in s'.captures) && (p in s.captures ==> s'.captures[p] == s.captures[p]))
    && (forall p :: p in s'.captures ==> p in s'.owner && (s'.owner[p] == n ==> p == s'.nodes[n].cmd))
  }

  lemma OnlyNodeNodes(s: World, s': World, n: NodeId)
    requires Inv(s) && OnlyNode(s, s', n)
    requires NodeOk(s', n)
    ensures NodesOk(s')
  {
    forall m | m in s'.nodes ensures NodeOk(s', m) {
      assert NodeOk(s, m);
    }
  }

  lemma OnlyNodeInv(s: World, s': World, n: NodeId)
    requires Inv(s) && OnlyNode(s, s', n)
    requires NodeOk(s', n)
    ensures Inv(s')
  {
    OnlyNodeNodes(s, s', n);
    forall v | v in s'.spaces ensures SpaceOk(s', v) { assert SpaceOk(s, v); }
    forall p | p in s'.captures ensures CaptureOk(s', p) {
      if s'.owner[p] != n {
        assert CaptureOk(s, p);
      }
    }
  }

  lemma FinishInv(s: World, p: ProcId, n: NodeId, x: Node, failed: bool)
    requires Inv(s) && LockFree(s) && p in s.captures && n == s.owner[p]
    requires x == s.nodes[n] || x == ResetProgress(s.hasSafety, s.now, s.nodes[n])
    ensures Inv(Finish(s, p, n, x, failed))
  {
    assert CaptureOk(s, p) && NodeOk(s, n);
    forall q | q in s.captures && s.owner[q] == n ensures q == p { assert CaptureOk(s, q); }
    var s' := Finish(s, p, n, x, failed);
    forall q | q in s'.captures ensures q in s'.owner && s'.owner[q] != n { assert CaptureOk(s, q); }
    OnlyNodeInv(s, s', n);
  }

  lemma LatchInv(s: World)
    requires Inv(s)
    ensures Inv(Latch(s))
  {
    var s' := Latch(s);
    forall m | m in s'.nodes ensures NodeOk(s', m) {
      assert NodeOk(s, m);
    }
    forall v | v in s'.spaces ensures SpaceOk(s', v) { assert SpaceOk(s, v); }
    forall p | p in s'.captures ensures CaptureOk(s', p) { assert CaptureOk(s, p); }
  }

  lemma ExitInv(s: World, a: Action)
    requires Inv(s) && a.AExit?
    ensures Inv(Step(s, a))
  {
    var p := a.p;
    if LockFree(s) && p in s.captures && s.captures[p].Reaped? {
      assert CaptureOk(s, p);
      var n, failed := s.owner[p], s.captures[p].failed;
      assert NodeOk(s, n);
      var s1 := if NativeFailure(s.nodes[n], failed) then Latch(s) else s;
      LatchInv(s);
      if Restarts(s, s.nodes[n], failed) {
        forall q | q in s.captures && s.owner[q] == n ensures q == p { assert CaptureOk(s, q); }
        forall q | q in s.captures ensures q in s.owner { assert CaptureOk(s, q); }
        OnlyNodeInv(s, Exit(s, p), n);
      } else {
        FinishInv(s1, p, n, s.nodes[n], failed);
      }
    }
  }

  /** A restart: the sleeping waiter is replaced by the waiter of the new process. */
  lemma RelaunchInv(s: World, p: ProcId, n: NodeId)
    requires Inv(s) && LockFree(s) && p in s.captures && n == s.owner[p] && s.captures[p].Sleeping?
    ensures Inv(Launch(s.(captures := s.captures - {p}), n, s.nodes[n]))
  {
    assert CaptureOk(s, p) && NodeOk(s, n);
    var s' := Launch(s.(captures := s.captures - {p}), n, s.nodes[n]);
    forall q | q in s'.captures ensures q in s'.owner && (s'.owner[q] == n ==> q == s.nextProc) {
      assert q != s.nextProc ==> CaptureOk(s, q);
    }
    OnlyNodeInv(s, s', n);
  }

  lemma WakeInv(s: World, a: Action)
    requires Inv(s) && a.AWake?
    ensures Inv(Step(s, a))
  {
    var p := a.p;
    if LockFree(s) && p in s.captures && s.captures[p].Sleeping? {
      assert CaptureOk(s, p);
      var n, failed := s.owner[p], s.captures[p].failed;
      if !s.nodes[n].stopping && !s.closing && a.outcome.Starts? {
        RelaunchInv(s, p, n);
      } else if !s.nodes[n].stopping && !s.closing && a.outcome.FailsLate? {
        FinishInv(s, p, n, ResetProgress(s.hasSafety, s.now, s.nodes[n]), failed);
      } else {
        FinishInv(s, p, n, s.nodes[n], failed);
      }
    }
  }

  lemma ProgressInv(s: World, a: Action)
    requires Inv(s) && a.AProgress?
    ensures Inv(Step(s, a))
  {
    var p := a.p;
    if LockFree(s) && Accepts(s, p, a.counter) {
      var n := s.owner[p];
      assert NodeOk(s, n);
      forall q | q in s.captures ensures q in s.owner && (s.owner[q] == n ==> q == s.nodes[n].cmd) {
        assert CaptureOk(s, q);
      }
      OnlyNodeInv(s, Progress(s, p, a.counter), n);
    }
  }

  lemma ReapNode(s: World, p: ProcId, failed: bool, n: NodeId)
    requires Inv(s) && p in s.captures && s.captures[p].Waiting? && n in s.nodes
    ensures NodeOk(s.(captures := s.captures[p := Reaped(failed)]), n)
  {
    assert NodeOk(s, n) && CaptureOk(s, p);
  }

  lemma ReapInv(s: World, a: Action)
    requires Inv(s) && a.AReap?
    ensures Inv(Step(s, a))
  {
    var p, f := a.p, a.failed;
    if p in s.captures && s.captures[p].Waiting? {
      var s' := s.(captures := s.captures[p := Reaped(f)]);
      forall n | n in s'.nodes ensures NodeOk(s', n) { ReapNode(s, p, f, n); }
      forall v | v in s'.spaces ensures SpaceOk(s', v) { assert SpaceOk(s, v); }
      forall q | q in s'.captures ensures CaptureOk(s', q) { assert CaptureOk(s, q); }
      assert ShapeOk(s') && PendingOk(s');
    }
  }

  // ---------------------------------------------------------------- run and stop

  lemma EnterNodes(s: World, s': World)
    requires Inv(s) && s.pending.Some? && s' == RunStart(s, Starts)
    ensures NodesOk(s')
  {
    var r := s.pending.value.request;
    forall n | n in s'.nodes ensures NodeOk(s', n) {
      if n != s.nextNode {
        assert NodeOk(s, n);
      }
    }
  }

  lemma EnterSpaces(s: World, s': World)
    requires Inv(s) && s.pending.Some? && s' == RunStart(s, Starts)
    ensures SpacesOk(s') && CapturesOk(s')
  {
    forall n | n in s.nodes ensures n < s.nextNode { assert NodeOk(s, n); }
    forall v | v in s'.spaces ensures SpaceOk(s', v) { assert SpaceOk(s, v); }
    forall p | p in s'.captures ensures CaptureOk(s', p) { assert p != s.nextProc ==> CaptureOk(s, p); }
  }

  lemma RunStartInv(s: World, a: Action)
    requires Inv(s) && a.ARunStart?
    ensures Inv(Step(s, a))
  {
    if s.pending.Some? && a.outcome == Starts {
      EnterNodes(s, Step(s, a));
      EnterSpaces(s, Step(s, a));
    } else {
      SameNodesInv(s, s.(pending := None));
    }
  }

  lemma StopInv(s: World, w: WorkspaceId, name: Option<string>)
    requires Inv(s)
    ensures Inv(Stop(s, w, name))
  {
    var s' := Stop(s, w, name);
    if LockFree(s) {
      forall n | n in s'.nodes ensures NodeOk(s', n) {
        assert NodeOk(s, n);
      }
      forall v | v in s'.spaces ensures SpaceOk(s', v) { assert SpaceOk(s, v); }
      forall p | p in s'.captures ensures CaptureOk(s', p) { assert CaptureOk(s, p); }
    }
  }

  // ---------------------------------------------------------------- the rest

  /** s' has the nodes of s; its workspaces may gain an empty one, and time may pass. */
  predicate SameNodes(s: World, s': World) {
    && s'.nodes == s.nodes && s'.captures == s.captures && s'.owner == s.owner
    && s'.nextNode == s.nextNode && s'.nextProc == s.nextProc && s'.hasSafety == s.hasSafety
    && s.now <= s'.now && s.nextWs <= s'.nextWs
    && (forall w :: w in s.spaces ==> w in s'.spaces && s'.spaces[w] == s.spaces[w])
    && (forall w :: w in s'.spaces && w !in s.spaces ==> w < s'.nextWs && s'.spaces[w] == map[])
  }

  lemma SameNodesInv(s: World, s': World)
    requires Inv(s) && SameNodes(s, s') && ShapeOk(s') && PendingOk(s')
    ensures Inv(s')
  {
    forall n | n in s'.nodes ensures NodeOk(s', n) {
      assert NodeOk(s, n);
    }
    forall v | v in s'.spaces ensures SpaceOk(s', v) { assert v in s.spaces ==> SpaceOk(s, v); }
    forall q | q in s'.captures ensures CaptureOk(s', q) { assert CaptureOk(s, q); }
  }

  lemma CreateInv(s: World, a: Action)
    requires Inv(s) && a.ACreate?
    ensures Inv(Step(s, a))
  {
    forall w | w in s.spaces ensures w < s.nextWs { assert SpaceOk(s, w); }
    var s' := Create(s);
    assert ShapeOk(s') && PendingOk(s');
    SameNodesInv(s, s');
  }

  lemma DeleteStopInv(s: World, a: Action)
    requires Inv(s) && a.ADeleteStop?
    ensures Inv(Step(s, a))
  {
    if a.w in s.deleting && LockFree(s) {
      StopInv(s, a.w, None);
      SameNodesInv(Stop(s, a.w, None), Step(s, a));
    }
  }

  lemma RunCheckInv(s: World, w: WorkspaceId, r: Request)
    requires Inv(s)
    ensures Inv(RunCheck(s, w, r))
  {
    SameNodesInv(s, RunCheck(s, w, r));
  }

  lemma DeleteBeginInv(s: World, w: WorkspaceId)
    requires Inv(s)
    ensures Inv(DeleteBegin(s, w))
  {
    SameNodesInv(s, DeleteBegin(s, w));
  }

  lemma DeleteEndInv(s: World, w: WorkspaceId, removed: bool)
    requires Inv(s)
    ensures Inv(DeleteEnd(s, w, removed))
  {
    SameNodesInv(s, DeleteEnd(s, w, removed));
  }

  lemma FlagInv(s: World, a: Action)
    requires Inv(s) && (a.ALatch? || a.ACloseMark? || a.AAdvance?)
    ensures Inv(Step(s, a))
  {
    SameNodesInv(s, Step(s, a));
  }

  /** Every step keeps the invariant. */
  lemma StepInv(s: World, a: Action)
    requires Inv(s)
    ensures Inv(Step(s, a))
  {
    if a.ARunStart? { RunStartInv(s, a); }
    else if a.AExit? { ExitInv(s, a); }
    else if a.AWake? { WakeInv(s, a); }
    else if a.AProgress? { ProgressInv(s, a); }
    else if a.AReap? { ReapInv(s, a); }
    else if a.AStop? { StopInv(s, a.w, a.name); }
    else if a.ACreate? { CreateInv(s, a); }
    else if a.ADeleteStop? { DeleteStopInv(s, a); }
    else if a.ALatch? || a.ACloseMark? || a.AAdvance? { FlagInv(s, a); }
    else if a.ARunCheck? { RunCheckInv(s, a.w, a.r); }
    else if a.ADeleteBegin? { DeleteBeginInv(s, a.w); }
    else { DeleteEndInv(s, a.w, a.removed); }
  }

  lemma {:induction false} RunInv(s: World, acts: seq<Action>)
    requires Inv(s)
    ensures Inv(Run(s, acts))
    decreases |acts|
  {
    if acts != [] {
      RunInv(s, acts[..|acts|-1]);
      StepInv(Run(s, acts[..|acts|-1]), acts[|acts|-1]);
    }
  }
}
