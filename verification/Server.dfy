/**
 * The supervisor as the Go code has it (pkg/server/process.go, pkg/server/server.go,
 * pkg/server/safety.go): Node objects updated in place and a server that owns the tables.
 * Each method is one lock section and is proved to take exactly one step of Supervision
 * from the state the object abstracts to, so what is proved of runs holds of the object.
 */
module Server {
  import opened Outcomes
  import S = Supervision

  class Node {
    const ws: S.WorkspaceId
    const name: string
    const native: bool
    const policy: S.Policy
    const maxRestarts: int
    var status: S.Status
    var restarts: nat
    var stopping: bool
    var cmd: S.ProcId
    var closes: nat
    var started: nat
    var lastProgress: Option<nat>
    var counter: nat

    constructor (w: S.WorkspaceId, r: S.Request)
      ensures Value() == S.NewNode(w, r)
    {
      ws, name, native, policy, maxRestarts := w, r.name, r.native, r.policy, r.maxRestarts;
      status, restarts, stopping, cmd, closes, started := S.Starting, 0, false, 0, 0, 0;
      lastProgress, counter := None, 0;
    }

    ghost function Value(): S.Node
      reads this
    {
      S.Node(ws, name, native, policy, maxRestarts, status, restarts, stopping, cmd, closes, started, lastProgress, counter)
    }

    predicate Active()
      reads this
    {
      status == S.Running || status == S.Starting
    }
  }

  /** Why run is refused, in the order of its checks. */
  datatype RunError = RestartsOutOfRange | EStopLatched | Unavailable | AlreadyRunning | StartFailed

  class Server {
    const hasSafety: bool
    var estop: bool
    var closing: bool
    var clock: nat
    var items: set<S.WorkspaceId>
    var spaces: map<S.WorkspaceId, map<string, S.NodeId>>
    var deleting: map<S.WorkspaceId, S.Deletion>
    var pending: Option<S.Pending>
    var nodes: map<S.NodeId, Node>
    var captures: map<S.ProcId, S.Capture>
    var owner: map<S.ProcId, S.NodeId>
    var nextWs: S.WorkspaceId
    var nextNode: S.NodeId
    var nextProc: S.ProcId
    ghost var starts: seq<S.Start>
    ghost var beats: seq<S.Beat>

    ghost function Table(): map<S.NodeId, S.Node>
      reads this`nodes, nodes.Values
    {
      map n | n in nodes :: nodes[n].Value()
    }

    /** The abstract state. */
    ghost function Abs(): S.World
      reads this, nodes.Values
    {
      S.World(hasSafety, estop, closing, clock, items, spaces, deleting, pending, Table(), captures, owner,
              nextWs, nextNode, nextProc, starts, beats)
    }

    /** What the table says of one node. */
    lemma TableAt(n: S.NodeId)
      requires n in nodes
      ensures n in Table() && Table()[n] == nodes[n].Value()
    {
    }

    /** `t` records the node objects, all but the one numbered n. */
    ghost predicate Records(t: map<S.NodeId, S.Node>, n: S.NodeId)
      reads this`nodes, nodes.Values
    {
      t.Keys == nodes.Keys && forall m :: m in nodes && m != n ==> t[m] == nodes[m].Value()
    }

    /** The table after one node object was updated. */
    lemma TableUpdated(before: map<S.NodeId, S.Node>, n: S.NodeId)
      requires n in nodes && Records(before, n)
      ensures Table() == before[n := nodes[n].Value()]
    {
    }

    ghost predicate Distinct()
      reads this`nodes
    {
      forall i, j :: i in nodes && j in nodes && nodes[i] == nodes[j] ==> i == j
    }

    /** Different nodes are different objects, and every id in a table is the id of a node, or n. */
    ghost predicate ValidBut(n: S.NodeId)
      reads this`nodes, this`captures, this`owner, this`nextProc, this`spaces
    {
      && Distinct()
      && (forall p :: p in captures ==> p in owner)
      && (forall p :: p in owner ==> p < nextProc && (owner[p] in nodes || owner[p] == n))
      && (forall w, k :: w in spaces && k in spaces[w] ==> spaces[w][k] in nodes || spaces[w][k] == n)
    }

    ghost predicate Valid()
      reads this`nodes, this`captures, this`owner, this`nextProc, this`spaces
    {
      && Distinct()
      && (forall p :: p in captures ==> p in owner)
      && (forall p :: p in owner ==> p < nextProc && owner[p] in nodes)
      && (forall w, k :: w in spaces && k in spaces[w] ==> spaces[w][k] in nodes)
    }

    constructor (safety: bool)
      ensures Valid() && Abs() == S.Init(safety)
    {
      hasSafety, estop, closing, clock := safety, false, false, 0;
      items, spaces, deleting, pending := {}, map[], map[], None;
      nodes, captures, owner := map[], map[], map[];
      nextWs, nextNode, nextProc, starts, beats := 0, 0, 0, [], [];
      new;
      assert Table() == map[];
    }

    /** create: a new workspace, refused while closing. */
    method Create() returns (w: Option<S.WorkspaceId>)
      requires Valid() && pending.None?
      modifies this
      ensures Valid() && Abs() == S.Create(old(Abs()))
      ensures w == if closing then None else Some(old(nextWs))
    {
      if closing {
        assert Table() == old(Table());
        return None;
      }
      w := Some(nextWs);
      items, spaces, nextWs := items + {nextWs}, spaces[nextWs := map[]], nextWs + 1;
      assert Table() == old(Table());
    }

    /** The checks of run; when they pass, the lock is kept. */
    method RunCheck(w: S.WorkspaceId, r: S.Request) returns (res: Result<(), RunError>)
      requires Valid() && S.LockFree(Abs()) && S.BuildLockFree(Abs(), w) && w in spaces
      modifies this`pending
      ensures Valid() && Abs() == S.RunCheck(old(Abs()), w, r)
      ensures res.Ok? <==> pending == Some(S.Pending(w, r))
      ensures res.Err? ==> pending.None? && (0 <= r.maxRestarts <= 100 <==> res.error != RestartsOutOfRange)
      ensures res.Err? && res.error == EStopLatched ==> estop
      ensures res.Err? && res.error == Unavailable ==> !estop && (closing || w !in items)
      ensures res.Err? && res.error == AlreadyRunning ==>
        !estop && !closing && w in items && S.NameBusy(old(Abs()), w, r.name)
      ensures res.Err? ==> res.error != StartFailed
    {
      if r.maxRestarts < 0 || r.maxRestarts > 100 { return Err(RestartsOutOfRange); }
      if estop { return Err(EStopLatched); }
      if closing || w !in items { return Err(Unavailable); }
      if r.name in spaces[w] && nodes[spaces[w][r.name]].Active() { return Err(AlreadyRunning); }
      pending := Some(S.Pending(w, r));
      res := Ok(());
    }

    /** start, before the process: the progress fields of a native node are reset. */
    method Arm(x: Node)
      modifies x
      ensures x.Value() == S.ResetProgress(hasSafety, clock, old(x.Value()))
    {
      if hasSafety && x.native {
        x.lastProgress, x.counter := Some(clock), 0;
      }
    }

    /** start, after the process: the node runs it and a capture waits for it. */
    method Attach(x: Node, n: S.NodeId)
      modifies this`captures, this`owner, this`nextProc, this`starts, x
      ensures x.Value() == old(x.Value()).(status := S.Running, cmd := old(nextProc), started := old(x.started) + 1)
      ensures captures == old(captures)[old(nextProc) := S.Waiting] && owner == old(owner)[old(nextProc) := n]
      ensures nextProc == old(nextProc) + 1 && starts == old(starts) + [S.Start(x.ws, n, old(nextProc))]
    {
      x.cmd, x.status, x.started := nextProc, S.Running, x.started + 1;
      captures, owner := captures[nextProc := S.Waiting], owner[nextProc := n];
      starts := starts + [S.Start(x.ws, n, nextProc)];
      nextProc := nextProc + 1;
    }

    /** start, as far as it changes state; it may fail before or after it resets the progress fields. */
    method Start(x: Node, n: S.NodeId, outcome: S.StartOutcome) returns (ok: bool)
      requires Valid()
      modifies this`captures, this`owner, this`nextProc, this`starts, x
      ensures ok == outcome.Starts? && ValidBut(n)
      ensures outcome.FailsEarly? ==> unchanged(x)
      ensures outcome.FailsLate? ==> x.Value() == S.ResetProgress(hasSafety, clock, old(x.Value()))
      ensures !ok ==> unchanged(this)
      ensures ok ==>
        && x.Value() == S.ResetProgress(hasSafety, clock, old(x.Value()))
                         .(status := S.Running, cmd := old(nextProc), started := old(x.started) + 1)
        && captures == old(captures)[old(nextProc) := S.Waiting] && owner == old(owner)[old(nextProc) := n]
        && nextProc == old(nextProc) + 1 && starts == old(starts) + [S.Start(x.ws, n, old(nextProc))]
    {
      ok := false;
      if outcome.FailsEarly? {
        return;
      }
      Arm(x);
      if outcome.FailsLate? {
        return;
      }
      Attach(x, n);
      ok := true;
    }

    /** w.Nodes[name] = n. */
    method Enter(w: S.WorkspaceId, name: string, x: Node)
      requires w in spaces && x !in nodes.Values && ValidBut(nextNode)
      modifies this`nodes, this`spaces, this`nextNode
      ensures Table() == old(Table())[old(nextNode) := x.Value()]
      ensures nodes == old(nodes)[old(nextNode) := x] && nextNode == old(nextNode) + 1
      ensures spaces == old(spaces)[w := S.Enter(old(spaces)[w], name, old(nextNode))]
      ensures Valid()
    {
      nodes := nodes[nextNode := x];
      spaces := spaces[w := S.Enter(spaces[w], name, nextNode)];
      nextNode := nextNode + 1;
    }

    /** A new node and its process. */
    method StartNew(w: S.WorkspaceId, r: S.Request, outcome: S.StartOutcome) returns (x: Node, ok: bool)
      requires Valid()
      modifies this`captures, this`owner, this`nextProc, this`starts
      ensures fresh(x) && Table() == old(Table()) && ok == outcome.Starts? && ValidBut(nextNode)
      ensures !ok ==> Abs() == old(Abs())
      ensures ok ==> Abs().(nodes := old(Table())[nextNode := x.Value()])
                     == S.Launch(old(Abs()), nextNode, S.NewNode(w, r))
    {
      x := new Node(w, r);
      ok := Start(x, nextNode, outcome);
    }

    lemma RunStartIs(s: S.World, outcome: S.StartOutcome)
      requires s.pending.Some? && s.pending.value.ws in s.spaces
      ensures var w, r := s.pending.value.ws, s.pending.value.request;
        S.RunStart(s, outcome) ==
          if outcome != S.Starts then s.(pending := None)
          else S.Launch(s, s.nextNode, S.NewNode(w, r))
                 .(spaces := s.spaces[w := S.Enter(s.spaces[w], r.name, s.nextNode)],
                   nextNode := s.nextNode + 1, pending := None)
    {
    }

    /** The rest of run: start the process, enter the node, release the lock. */
    method RunStart(outcome: S.StartOutcome) returns (res: Result<S.ProcId, RunError>)
      requires Valid() && pending.Some? && pending.value.ws in spaces
      modifies this
      ensures Valid() && Abs() == S.RunStart(old(Abs()), outcome)
      ensures res == if outcome == S.Starts then Ok(old(nextProc)) else Err(StartFailed)
    {
      hide Table, S.RunStart;
      RunStartIs(Abs(), outcome);
      var w, r := pending.value.ws, pending.value.request;
      var x, ok := StartNew(w, r, outcome);
      if ok {
        Enter(w, r.name, x);
      }
      Release();
      res := if ok then Ok(nextProc - 1) else Err(StartFailed);
    }

    /** The deferred unlock. */
    method Release()
      requires Valid()
      modifies this`pending
      ensures Valid() && pending.None? && Abs() == old(Abs()).(pending := None)
    {
      pending := None;
    }

    /** The loop of stop: mark and list the active nodes among the given ones. */
    method Mark(listed: set<S.NodeId>, name: Option<string>) returns (marked: seq<S.NodeId>)
      requires Distinct() && listed <= nodes.Keys
      modifies nodes.Values
      ensures forall n :: n in marked <==>
        n in listed && old(nodes[n].Active()) && (name.None? || nodes[n].name == name.value)
      ensures forall n :: n in nodes ==>
        nodes[n].Value() == if n in marked then old(nodes[n].Value()).(stopping := true) else old(nodes[n].Value())
    {
      marked := [];
      var rest := listed;
      while rest != {}
        invariant rest <= listed
        invariant forall n :: n in marked <==>
          n in listed && n !in rest && old(nodes[n].Active()) && (name.None? || nodes[n].name == name.value)
        invariant forall n :: n in nodes ==>
          nodes[n].Value() == if n in marked then old(nodes[n].Value()).(stopping := true) else old(nodes[n].Value())
      {
        var n :| n in rest;
        var x := nodes[n];
        assert x.Value() == old(nodes[n].Value());
        if (name.None? || x.name == name.value) && x.Active() {
          x.stopping := true;
          marked := marked + [n];
        }
        rest := rest - {n};
      }
    }

    /** stop's lock section. */
    method Stop(w: S.WorkspaceId, name: Option<string>) returns (marked: seq<S.NodeId>)
      requires Valid() && pending.None?
      modifies nodes.Values
      ensures Valid() && Abs() == S.Stop(old(Abs()), w, name)
      ensures forall n :: n in marked <==> n in S.Targets(old(Abs()), w, name)
    {
      ghost var table := Table();
      marked := Mark(if w in spaces then spaces[w].Values else {}, name);
      ghost var targets := S.Targets(old(Abs()), w, name);
      assert forall n :: n in marked <==> n in targets;
      assert Table() == S.MarkStopping(table, targets);
    }

    /** tripSafety, and the latch in the safety loop. */
    method TripSafety()
      requires Valid()
      modifies this`estop
      ensures Valid() && Abs() == S.Latch(old(Abs()))
    {
      if hasSafety {
        estop := true;
      }
    }

    /** captureProgress, for one packet of process p. */
    method CaptureProgress(p: S.ProcId, counter: nat)
      requires Valid() && pending.None? && hasSafety && p in owner && nodes[owner[p]].native
      modifies this`beats, nodes[owner[p]]
      ensures Valid() && Abs() == S.Progress(old(Abs()), p, counter)
    {
      var x := nodes[owner[p]];
      if x.cmd == p && x.status == S.Running && counter > x.counter {
        x.counter, x.lastProgress := counter, Some(clock);
        beats := beats + [S.Beat(p, counter, clock)];
        assert x.Value() == old(x.Value()).(counter := counter, lastProgress := Some(clock));
        assert Table() == old(Table())[owner[p] := x.Value()];
      }
    }

    /** cmd.Wait has returned. */
    method Reap(p: S.ProcId, failed: bool)
      requires Valid() && p in captures && captures[p].Waiting?
      modifies this`captures
      ensures Valid() && Abs() == S.Reap(old(Abs()), p, failed)
    {
      captures := captures[p := S.Reaped(failed)];
    }

    /** Writes the fields of a node that its capture owns. */
    method Settle(n: S.NodeId, status: S.Status, restarts: nat, closes: nat)
      requires Distinct() && n in nodes
      modifies nodes[n]
      ensures Table() == old(Table())[n := old(nodes[n].Value()).(status := status, restarts := restarts, closes := closes)]
    {
      ghost var before := Table();
      var x := nodes[n];
      x.status, x.restarts, x.closes := status, restarts, closes;
      TableUpdated(before, n);
    }

    /** The end of capture. */
    method Finish(p: S.ProcId, n: S.NodeId, failed: bool)
      requires Valid() && n in nodes
      modifies this`captures, nodes[n]
      ensures Valid() && Abs() == S.Finish(old(Abs()), p, n, old(nodes[n].Value()), failed)
    {
      hide Table;
      var status := S.Stopped;
      if failed && !nodes[n].stopping {
        status := S.Failed;
      }
      Settle(n, status, nodes[n].restarts, nodes[n].closes + 1);
      captures := captures - {p};
    }

    ghost function Dozed(s: S.World, p: S.ProcId, n: S.NodeId, x: S.Node, failed: bool): S.World {
      s.(nodes := s.nodes[n := x.(restarts := x.restarts + 1, status := S.Starting)],
         captures := s.captures[p := S.Sleeping(failed)])
    }

    lemma ExitIs(s: S.World, p: S.ProcId, n: S.NodeId, x: S.Node, failed: bool)
      requires S.LockFree(s) && p in s.captures && s.captures[p] == S.Reaped(failed)
      requires p in s.owner && s.owner[p] == n && n in s.nodes && s.nodes[n] == x
      ensures S.NativeFailure(x, failed) ==> S.Exit(s, p) == S.Finish(S.Latch(s), p, n, x, failed)
      ensures !S.NativeFailure(x, failed) && !S.Restarts(s, x, failed) ==> S.Exit(s, p) == S.Finish(s, p, n, x, failed)
      ensures S.Restarts(s, x, failed) ==> S.Exit(s, p) == Dozed(s, p, n, x, failed)
    {
    }

    /** A restart begins: the waiter goes to sleep. */
    method Doze(p: S.ProcId, n: S.NodeId, failed: bool)
      requires Valid() && n in nodes && p in owner
      modifies this`captures, nodes[n]
      ensures Valid() && Abs() == Dozed(old(Abs()), p, n, old(nodes[n].Value()), failed)
    {
      hide Table;
      Settle(n, S.Starting, nodes[n].restarts + 1, nodes[n].closes);
      captures := captures[p := S.Sleeping(failed)];
    }

    /** capture after the process was reaped: latch on a native failure, then restart or finish. */
    method Exit(p: S.ProcId) returns (restart: bool)
      requires Valid() && pending.None? && p in captures && captures[p].Reaped?
      modifies this`captures, this`estop, nodes[owner[p]]
      ensures Valid() && Abs() == S.Exit(old(Abs()), p)
      ensures restart <==> p in captures
    {
      TableAt(owner[p]);
      hide Table, S.Exit, S.Finish, Dozed;
      var n, failed := owner[p], captures[p].failed;
      var x := nodes[n];
      ExitIs(Abs(), p, n, x.Value(), failed);
      var nativeFailure := x.native && failed && !x.stopping;
      if nativeFailure {
        TripSafety();
      }
      restart := !nativeFailure && !x.stopping && !closing && x.restarts < x.maxRestarts
        && (x.policy == S.Always || (x.policy == S.OnFailure && failed));
      if restart {
        Doze(p, n, failed);
      } else {
        Finish(p, n, failed);
      }
    }

    /** start for a node of the table, which changes no other entry. */
    method StartAgain(n: S.NodeId, outcome: S.StartOutcome) returns (ok: bool)
      requires Valid() && n in nodes
      modifies this`captures, this`owner, this`nextProc, this`starts, nodes[n]
      ensures Valid() && ok == outcome.Starts? && (!ok ==> unchanged(this))
      ensures var x := old(nodes[n].Value());
        match outcome
        case FailsEarly => Table() == old(Table())
        case FailsLate => Table() == old(Table())[n := S.ResetProgress(hasSafety, clock, x)]
        case Starts =>
          && Table() == old(Table())[n := S.ResetProgress(hasSafety, clock, x)
                          .(status := S.Running, cmd := old(nextProc), started := x.started + 1)]
          && captures == old(captures)[old(nextProc) := S.Waiting] && owner == old(owner)[old(nextProc) := n]
          && nextProc == old(nextProc) + 1 && starts == old(starts) + [S.Start(x.ws, n, old(nextProc))]
    {
      ghost var before := Table();
      ok := Start(nodes[n], n, outcome);
      TableUpdated(before, n);
    }

    /** start for a node of the table, as a step of the state. */
    method Relaunch(n: S.NodeId, outcome: S.StartOutcome) returns (ok: bool)
      requires Valid() && n in nodes
      modifies this`captures, this`owner, this`nextProc, this`starts, nodes[n]
      ensures Valid() && ok == outcome.Starts?
      ensures Abs() == match outcome
        case Starts => S.Launch(old(Abs()), n, old(nodes[n].Value()))
        case FailsEarly => old(Abs())
        case FailsLate =>
          old(Abs()).(nodes := old(Table())[n := S.ResetProgress(hasSafety, clock, old(nodes[n].Value()))])
    {
      hide Table;
      ok := StartAgain(n, outcome);
    }

    /** A capture goroutine returns without finishing its node. */
    method Retire(p: S.ProcId)
      requires Valid()
      modifies this`captures
      ensures Valid() && Abs() == old(Abs()).(captures := old(captures) - {p})
    {
      captures := captures - {p};
    }

    lemma WakeIs(s: S.World, p: S.ProcId, n: S.NodeId, x: S.Node, failed: bool, outcome: S.StartOutcome)
      requires S.LockFree(s) && p in s.captures && s.captures[p] == S.Sleeping(failed) && p != s.nextProc
      requires p in s.owner && s.owner[p] == n && n in s.nodes && s.nodes[n] == x
      ensures S.Wake(s, p, outcome) ==
        if x.stopping || s.closing then S.Finish(s, p, n, x, failed)
        else match outcome
          case Starts => var t := S.Launch(s, n, x); t.(captures := t.captures - {p})
          case FailsEarly => S.Finish(s, p, n, x, failed)
          case FailsLate =>
            var y := S.ResetProgress(s.hasSafety, s.now, x);
            S.Finish(s.(nodes := s.nodes[n := y]), p, n, y, failed)
    {
      assert s.captures[s.nextProc := S.Waiting] - {p} == (s.captures - {p})[s.nextProc := S.Waiting];
    }

    /** capture after its sleep: start again unless stopped or closing, finish if that fails. */
    method Wake(p: S.ProcId, outcome: S.StartOutcome)
      requires Valid() && pending.None? && p in captures && captures[p].Sleeping?
      modifies this`captures, this`owner, this`nextProc, this`starts, nodes[owner[p]]
      ensures Valid() && Abs() == S.Wake(old(Abs()), p, outcome)
    {
      TableAt(owner[p]);
      hide Table, S.Wake, S.Launch, S.Finish;
      var n, failed := owner[p], captures[p].failed;
      WakeIs(Abs(), p, n, nodes[n].Value(), failed, outcome);
      if !nodes[n].stopping && !closing {
        var ok := Relaunch(n, outcome);
        if ok {
          Retire(p);
          return;
        }
        TableAt(n);
      }
      Finish(p, n, failed);
    }

    /** DELETE takes the build lock. */
    method DeleteBegin(w: S.WorkspaceId)
      requires Valid() && w in spaces && S.BuildLockFree(Abs(), w)
      modifies this`deleting
      ensures Valid() && Abs() == S.DeleteBegin(old(Abs()), w)
    {
      deleting := deleting[w := S.Locked];
    }

    /** DELETE stops every node. */
    method DeleteStop(w: S.WorkspaceId)
      requires Valid() && pending.None? && w in deleting
      modifies this`deleting, nodes.Values
      ensures Valid() && Abs() == S.DeleteStop(old(Abs()), w)
    {
      var _ := Stop(w, None);
      ghost var table := Table();
      deleting := deleting[w := S.Swept];
      assert Table() == table;
    }

    /** The end of DELETE: the item goes only if its directory could be removed. */
    method DeleteEnd(w: S.WorkspaceId, removed: bool)
      requires Valid() && pending.None? && w in deleting && deleting[w] == S.Swept
      modifies this`deleting, this`items
      ensures Valid() && Abs() == S.DeleteEnd(old(Abs()), w, removed)
    {
      if removed {
        items := items - {w};
      }
      deleting := deleting - {w};
    }

    /** The lock section of Close, and of the safety loop's trip: list the workspaces to stop. */
    method ListItems() returns (list: seq<S.WorkspaceId>)
      ensures forall w :: w in list <==> w in items
    {
      list := [];
      var rest := items;
      while rest != {}
        invariant rest <= items
        invariant forall w :: w in list <==> w in items && w !in rest
      {
        var w :| w in rest;
        list, rest := list + [w], rest - {w};
      }
    }

    method CloseMark() returns (list: seq<S.WorkspaceId>)
      requires Valid() && pending.None?
      modifies this`closing
      ensures Valid() && Abs() == S.CloseMark(old(Abs()))
      ensures forall w :: w in list <==> w in items
    {
      closing := true;
      list := ListItems();
    }

    /** Time passes. */
    method Advance(d: nat)
      requires Valid()
      modifies this`clock
      ensures Valid() && Abs() == S.Advance(old(Abs()), d)
    {
      clock := clock + d;
    }
  }
}
