/**
 * The supervisor's shared state and its atomic steps
 * (pkg/server/process.go, pkg/server/safety.go, pkg/server/server.go).
 *
 * One step per lock section. `run` holds the server lock from its E-Stop check to the
 * start of the process, but the safety loop latches under another lock: the check and the
 * start are two steps, and only a latch can fall between them. A restart releases the
 * server lock while it sleeps. Steps whose lock is not free do nothing.
 */
module Supervision {
  import opened Outcomes

  type WorkspaceId = nat
  type NodeId = nat
  type ProcId = nat

  datatype Status = Starting | Running | Stopped | Failed

  datatype Policy = Never | OnFailure | Always

  datatype Request = Request(name: string, native: bool, policy: Policy, maxRestarts: int)

  /** A Node record; `closes` counts the closings of its done channel, `started` its processes. */
  datatype Node = Node(
    ws: WorkspaceId, name: string, native: bool, policy: Policy, maxRestarts: int,
    status: Status, restarts: nat, stopping: bool, cmd: ProcId, closes: nat, started: nat,
    lastProgress: Option<nat>, counter: nat)

  /** A live capture goroutine: waiting for its process, holding its exit status, or asleep before a restart. */
  datatype Capture = Waiting | Reaped(failed: bool) | Sleeping(failed: bool)

  datatype Pending = Pending(ws: WorkspaceId, request: Request)

  /** How s.start ends: it fails before or after it resets the progress fields, or it starts the process. */
  datatype StartOutcome = FailsEarly | FailsLate | Starts

  /** A DELETE request that holds the workspace's build lock. */
  datatype Deletion = Locked | Swept

  datatype Start = Start(ws: WorkspaceId, node: NodeId, proc: ProcId)

  datatype Beat = Beat(proc: ProcId, counter: nat, time: nat)

  datatype World = World(
    hasSafety: bool, estop: bool, closing: bool, now: nat,
    items: set<WorkspaceId>,
    spaces: map<WorkspaceId, map<string, NodeId>>,
    deleting: map<WorkspaceId, Deletion>,
    pending: Option<Pending>,
    nodes: map<NodeId, Node>,
    captures: map<ProcId, Capture>,
    owner: map<ProcId, NodeId>,
    nextWs: WorkspaceId, nextNode: NodeId, nextProc: ProcId,
    starts: seq<Start>, beats: seq<Beat>)

  predicate Active(x: Node) { x.status == Running || x.status == Starting }

  /** No `run` is between its check and its start. */
  predicate LockFree(s: World) { s.pending.None? }

  predicate BuildLockFree(s: World, w: WorkspaceId) {
    w !in s.deleting && (s.pending.Some? ==> s.pending.value.ws != w)
  }

  // ---------------------------------------------------------------- steps

  function Init(hasSafety: bool): World {
    World(hasSafety, false, false, 0, {}, map[], map[], None, map[], map[], map[], 0, 0, 0, [], [])
  }

  /** create: a new workspace with no nodes, refused while closing. */
  function Create(s: World): World {
    if !LockFree(s) || s.closing then s
    else s.(items := s.items + {s.nextWs}, spaces := s.spaces[s.nextWs := map[]], nextWs := s.nextWs + 1)
  }

  predicate NameBusy(s: World, w: WorkspaceId, name: string) {
    w in s.spaces && name in s.spaces[w] && s.spaces[w][name] in s.nodes && Active(s.nodes[s.spaces[w][name]])
  }

  /** Why run refuses a request. */
  predicate Refused(s: World, w: WorkspaceId, r: Request) {
    !(0 <= r.maxRestarts <= 100) || s.estop || s.closing || w !in s.items || NameBusy(s, w, r.name)
  }

  /** run, up to and including its checks; it keeps the server lock. */
  function RunCheck(s: World, w: WorkspaceId, r: Request): World {
    if !LockFree(s) || !BuildLockFree(s, w) || w !in s.spaces || Refused(s, w, r) then s
    else s.(pending := Some(Pending(w, r)))
  }

  /** start resets the progress fields of a native node when a safety monitor is configured. */
  function ResetProgress(hasSafety: bool, now: nat, x: Node): Node {
    if hasSafety && x.native then x.(lastProgress := Some(now), counter := 0) else x
  }

  /** start succeeds: a new process, a new waiter. */
  function Launch(s: World, n: NodeId, x: Node): World {
    s.(nodes := s.nodes[n := ResetProgress(s.hasSafety, s.now, x).(status := Running, cmd := s.nextProc, started := x.started + 1)],
       captures := s.captures[s.nextProc := Waiting],
       owner := s.owner[s.nextProc := n],
       nextProc := s.nextProc + 1,
       starts := s.starts + [Start(x.ws, n, s.nextProc)])
  }

  function NewNode(w: WorkspaceId, r: Request): Node {
    Node(w, r.name, r.native, r.policy, r.maxRestarts, Starting, 0, false, 0, 0, 0, None, 0)
  }

  /** w.Nodes[name] = n, displacing a finished node of that name. */
  function Enter(m: map<string, NodeId>, name: string, n: NodeId): map<string, NodeId> { m[name := n] }

  /** The rest of run: start the process, enter the node, release the lock. */
  function RunStart(s: World, outcome: StartOutcome): World {
    if s.pending.None? then s
    else
      var w, r := s.pending.value.ws, s.pending.value.request;
      var free := s.(pending := None);
      if outcome != Starts || w !in s.spaces then free
      else
        Launch(free, s.nextNode, NewNode(w, r))
          .(spaces := s.spaces[w := Enter(s.spaces[w], r.name, s.nextNode)], nextNode := s.nextNode + 1)
  }

  /** The safety loop sets its latch; it needs only the monitor lock. */
  function Latch(s: World): World {
    if s.hasSafety then s.(estop := true) else s
  }

  /** The nodes that stop marks: listed, active, and of the given name if one is given. */
  function Targets(s: World, w: WorkspaceId, name: Option<string>): set<NodeId> {
    if w !in s.spaces then {}
    else set n | n in s.spaces[w].Values && n in s.nodes && Active(s.nodes[n])
               && (name.None? || s.nodes[n].name == name.value)
  }

  function MarkStopping(nodes: map<NodeId, Node>, targets: set<NodeId>): map<NodeId, Node> {
    map n | n in nodes :: if n in targets then nodes[n].(stopping := true) else nodes[n]
  }

  /** stop's lock section. */
  function Stop(s: World, w: WorkspaceId, name: Option<string>): World {
    if !LockFree(s) then s
    else s.(nodes := MarkStopping(s.nodes, Targets(s, w, name)))
  }

  function DeleteBegin(s: World, w: WorkspaceId): World {
    if w !in s.spaces || !BuildLockFree(s, w) then s else s.(deleting := s.deleting[w := Locked])
  }

  function DeleteStop(s: World, w: WorkspaceId): World {
    if w !in s.deleting || !LockFree(s) then s
    else Stop(s, w, None).(deleting := s.deleting[w := Swept])
  }

  /** The end of DELETE: the directory is removed or not, the build lock is released. */
  function DeleteEnd(s: World, w: WorkspaceId, removed: bool): World {
    if w !in s.deleting || s.deleting[w] != Swept || !LockFree(s) then s
    else s.(items := if removed then s.items - {w} else s.items, deleting := s.deleting - {w})
  }

  /** Close sets its flag in the lock section that takes the list of workspaces to stop. */
  function CloseMark(s: World): World {
    if !LockFree(s) then s else s.(closing := true)
  }

  /** cmd.Wait returns. */
  function Reap(s: World, p: ProcId, failed: bool): World {
    if p in s.captures && s.captures[p].Waiting? then s.(captures := s.captures[p := Reaped(failed)]) else s
  }

  predicate NativeFailure(x: Node, failed: bool) { x.native && failed && !x.stopping }

  predicate Restarts(s: World, x: Node, failed: bool) {
    && !NativeFailure(x, failed) && !x.stopping && !s.closing && x.restarts < x.maxRestarts
    && (x.policy == Always || (x.policy == OnFailure && failed))
  }

  /** The end of capture: final status, done closed, the goroutine gone. */
  function Finish(s: World, p: ProcId, n: NodeId, x: Node, failed: bool): World {
    s.(nodes := s.nodes[n := x.(status := if failed && !x.stopping then Failed else Stopped, closes := x.closes + 1)],
       captures := s.captures - {p})
  }

  /** capture after its process was reaped: latch, restart or finish. */
  function Exit(s: World, p: ProcId): World {
    if !LockFree(s) || p !in s.captures || !s.captures[p].Reaped? || p !in s.owner || s.owner[p] !in s.nodes then s
    else
      var n, failed := s.owner[p], s.captures[p].failed;
      var x := s.nodes[n];
      var s1 := if NativeFailure(x, failed) then Latch(s) else s;
      if Restarts(s, x, failed) then
        s1.(nodes := s1.nodes[n := x.(restarts := x.restarts + 1, status := Starting)],
            captures := s1.captures[p := Sleeping(failed)])
      else Finish(s1, p, n, x, failed)
  }

  /** capture after its sleep: re-check stopping and closing, then start or finish. */
  function Wake(s: World, p: ProcId, outcome: StartOutcome): World {
    if !LockFree(s) || p !in s.captures || !s.captures[p].Sleeping? || p !in s.owner || s.owner[p] !in s.nodes then s
    else
      var n, failed := s.owner[p], s.captures[p].failed;
      var x := s.nodes[n];
      if x.stopping || s.closing then Finish(s, p, n, x, failed)
      else match outcome
        case Starts => Launch(s.(captures := s.captures - {p}), n, x)
        case FailsEarly => Finish(s, p, n, x, failed)
        case FailsLate => Finish(s, p, n, ResetProgress(s.hasSafety, s.now, x), failed)
  }

  predicate Accepts(s: World, p: ProcId, counter: nat) {
    && s.hasSafety && p in s.owner && s.owner[p] in s.nodes
    && var x := s.nodes[s.owner[p]];
    x.native && x.cmd == p && x.status == Running && counter > x.counter
  }

  /** captureProgress: one packet from the pipe of process p. */
  function Progress(s: World, p: ProcId, counter: nat): World {
    if !LockFree(s) || !Accepts(s, p, counter) then s
    else
      var n := s.owner[p];
      s.(nodes := s.nodes[n := s.nodes[n].(counter := counter, lastProgress := Some(s.now))],
         beats := s.beats + [Beat(p, counter, s.now)])
  }

  function Advance(s: World, d: nat): World { s.(now := s.now + d) }

  datatype Action =
    | ACreate
    | ARunCheck(w: WorkspaceId, r: Request)
    | ARunStart(outcome: StartOutcome)
    | ALatch
    | AStop(w: WorkspaceId, name: Option<string>)
    | ADeleteBegin(w: WorkspaceId)
    | ADeleteStop(w: WorkspaceId)
    | ADeleteEnd(w: WorkspaceId, removed: bool)
    | ACloseMark
    | AReap(p: ProcId, failed: bool)
    | AExit(p: ProcId)
    | AWake(p: ProcId, outcome: StartOutcome)
    | AProgress(p: ProcId, counter: nat)
    | AAdvance(d: nat)

  function Step(s: World, a: Action): World {
    match a
    case ACreate => Create(s)
    case ARunCheck(w, r) => RunCheck(s, w, r)
    case ARunStart(outcome) => RunStart(s, outcome)
    case ALatch => Latch(s)
    case AStop(w, name) => Stop(s, w, name)
    case ADeleteBegin(w) => DeleteBegin(s, w)
    case ADeleteStop(w) => DeleteStop(s, w)
    case ADeleteEnd(w, removed) => DeleteEnd(s, w, removed)
    case ACloseMark => CloseMark(s)
    case AReap(p, failed) => Reap(s, p, failed)
    case AExit(p) => Exit(s, p)
    case AWake(p, outcome) => Wake(s, p, outcome)
    case AProgress(p, counter) => Progress(s, p, counter)
    case AAdvance(d) => Advance(s, d)
  }

  /** The world after a run of steps, in order. */
  function Run(s: World, acts: seq<Action>): World
    decreases |acts|
  {
    if acts == [] then s else Step(Run(s, acts[..|acts|-1]), acts[|acts|-1])
  }
}
