/**
 * Supervisor, safety loop and watchdog together, with time: one event is a supervisor
 * step, the start of a tick (snapshot and send), a watchdog iteration, or the end of a
 * tick (answer, error or reply deadline). Time may not pass a tick that is due, nor the
 * reply deadline (pkg/server/safety.go:72-158, crates/rosplus_safety/src/main.rs:63-107).
 */
module SafetyProtocol {
  import opened Outcomes
  import S = Supervision
  import I = SupervisionInvariant
  import E = EStop
  import G = Generations
  import D = Watchdog
  import opened SafetyLoop
  import Packet

  /**
   * Ticks compute their packet at most gap apart and end at most reply after that, in
   * microseconds; the loop is sequential, so reply <= gap. The source has a 10 ms ticker and
   * a 20 ms deadline for sending and receiving together.
   */
  datatype Pace = Pace(gap: nat, reply: nat)

  datatype Phase = Idle | Sent | Done

  /**
   * seen is the set of nodes the latest snapshot watched; passed and passedAt belong to the
   * latest tick the loop went past; passes and completed count the ticks.
   */
  datatype Sys = Sys(
    w: S.World, dog: D.Dog, snap: Snapshot, seen: set<S.NodeId>,
    phase: Phase, at: nat, sent: seq<Packet.byte>, inbox: Option<seq<Packet.byte>>, answer: Option<bool>,
    passed: set<S.NodeId>, passedAt: nat, passes: nat, completed: nat, halted: bool)

  datatype Event =
    | Work(a: S.Action)
    | Tick(taken: Option<Snapshot>, wall: nat)
    | DogTurn(r: D.Received, t: D.Times)
    | Answer(inTime: bool)
    | Halt

  function Start(w: S.World, dog: D.Dog): Sys {
    Sys(w, dog, Snapshot(0, 0, None), {}, Idle, w.now, [], None, None, {}, w.now, 0, 0, false)
  }

  predicate OnTime(p: Pace, s: Sys, d: nat) {
    match s.phase
    case Idle => s.w.now + d <= s.at + p.gap
    case Sent => s.w.now + d <= s.at + p.reply
    case Done => true
  }

  function DoWork(p: Pace, s: Sys, a: S.Action): Sys {
    if a.AAdvance? && !OnTime(p, s, a.d) then s else s.(w := S.Step(s.w, a))
  }

  /** A tick: TryLock gave a snapshot or failed; compute the health bit; send. */
  ghost function DoTick(s: Sys, taken: Option<Snapshot>, wall: nat): Sys {
    if s.phase != Idle || (taken.Some? && !(S.LockFree(s.w) && SnapshotOf(taken.value, s.w))) then s
    else
      var snap := if taken.Some? then taken.value else s.snap;
      var packet := PacketOf(snap, s.w.now, wall);
      s.(snap := snap, seen := if taken.Some? then Watched(s.w) else s.seen,
         phase := Sent, at := s.w.now, sent := packet, inbox := Some(packet), answer := None)
  }

  /** An iteration of the watchdog; a datagram can only be the packet in its socket. */
  function DoDog(s: Sys, r: D.Received, t: D.Times): Sys {
    if s.dog.exited || !D.Ordered(t) || (r.Datagram? && s.inbox != Some(r.bytes)) then s
    else if r.Datagram? then s.(dog := D.Iterate(s.dog, r, t), inbox := None, answer := D.Reply(s.dog, r, t))
    else s.(dog := D.Iterate(s.dog, r, t))
  }

  /** The end of a tick: anything but an answer 0 in time latches; a set latch ends the loop. */
  function DoAnswer(s: Sys, inTime: bool): Sys {
    if s.phase != Sent then s
    else
      var w := if inTime && s.answer == Some(false) then s.w else S.Latch(s.w);
      var t := s.(w := w, inbox := None, answer := None, completed := s.completed + 1);
      if w.estop then t.(phase := Done)
      else t.(phase := Idle, passed := s.seen, passedAt := s.at, passes := s.passes + 1)
  }

  /** Close stops the loop between two ticks. */
  function DoHalt(s: Sys): Sys {
    if s.phase == Idle then s.(phase := Done, halted := true) else s
  }

  ghost function Next(p: Pace, s: Sys, e: Event): Sys {
    match e
    case Work(a) => DoWork(p, s, a)
    case Tick(taken, wall) => DoTick(s, taken, wall)
    case DogTurn(r, t) => DoDog(s, r, t)
    case Answer(inTime) => DoAnswer(s, inTime)
    case Halt => DoHalt(s)
  }

  ghost function Run(p: Pace, s: Sys, es: seq<Event>): Sys
    decreases |es|
  {
    if es == [] then s else Next(p, Run(p, s, es[..|es|-1]), es[|es|-1])
  }

  // ---------------------------------------------------------------- invariants

  /** n is a native node whose progress is at least `since`. */
  predicate Heard(w: S.World, n: S.NodeId, since: int) {
    n in w.nodes && w.nodes[n].native && w.nodes[n].lastProgress.Some? && since <= w.nodes[n].lastProgress.value
  }

  function Oldest(s: Sys): nat { if s.snap.oldest.Some? then s.snap.oldest.value else 0 }

  predicate SeenOk(s: Sys) {
    && s.snap.native == |s.seen| && (s.seen != {} ==> s.snap.oldest.Some?)
    && forall n {:trigger Heard(s.w, n, Oldest(s))} :: n in s.seen ==> Heard(s.w, n, Oldest(s))
  }

  /** The instant that is 40 ms before the last passed tick, exclusive. */
  function Limit(s: Sys): int { s.passedAt + 1 - STALE }

  /** Progress of the nodes of the last passed tick was newer than 40 ms at that tick. */
  predicate PassedOk(s: Sys) {
    forall n {:trigger Heard(s.w, n, Limit(s))} :: n in s.passed ==> Heard(s.w, n, Limit(s))
  }

  predicate PacketOk(s: Sys) {
    && (s.inbox.Some? ==> s.inbox.value == s.sent)
    && (s.phase == Sent ==>
          Packet.Decode(s.sent).Some?
          && (Packet.Good(Packet.Decode(s.sent).value.flags) <==> Healthy(s.snap, s.at)))
    && (s.answer == Some(false) ==> s.phase == Sent && Healthy(s.snap, s.at))
    && (s.inbox.Some? ==> s.phase == Sent)
  }

  predicate TimeOk(p: Pace, s: Sys) {
    && s.passedAt <= s.at <= s.w.now
    && (s.phase == Idle ==> s.passedAt == s.at && s.w.now <= s.at + p.gap)
    && (s.phase == Sent ==> s.at <= s.passedAt + p.gap && s.w.now <= s.at + p.reply)
    && (s.phase == Done ==> s.w.estop || s.halted)
  }

  predicate Sane(p: Pace, s: Sys) {
    p.reply <= p.gap && I.Inv(s.w) && s.w.hasSafety && SeenOk(s) && PassedOk(s) && PacketOk(s) && TimeOk(p, s)
  }

  lemma StartOk(p: Pace, w: S.World, dog: D.Dog)
    requires I.Inv(w) && w.hasSafety && p.reply <= p.gap
    ensures Sane(p, Start(w, dog))
  {
  }

  lemma HeardStep(w: S.World, a: S.Action, n: S.NodeId, since: int)
    requires I.Inv(w) && Heard(w, n, since)
    ensures Heard(S.Step(w, a), n, since)
  {
    G.ProgressStep(w, a, n);
    G.EveryNodeStep(w, a, n);
  }

  lemma WorkOk(p: Pace, s: Sys, a: S.Action)
    requires Sane(p, s)
    ensures Sane(p, DoWork(p, s, a))
  {
    var t := DoWork(p, s, a);
    if !(a.AAdvance? && !OnTime(p, s, a.d)) {
      I.StepInv(s.w, a);
      ClockStep(s.w, a);
      forall n | n in s.seen ensures Heard(t.w, n, Oldest(s)) {
        assert Heard(s.w, n, Oldest(s));
        HeardStep(s.w, a, n, Oldest(s));
      }
      forall n | n in s.passed ensures Heard(t.w, n, Limit(s)) {
        assert Heard(s.w, n, Limit(s));
        HeardStep(s.w, a, n, Limit(s));
      }
    }
  }

  /** Only Advance moves the clock; nothing unlatches; the monitor stays. */
  predicate Clocked(w: S.World, w': S.World, d: nat) {
    w'.now == w.now + d && w'.hasSafety == w.hasSafety && (w.estop ==> w'.estop)
  }

  lemma ClockStep(w: S.World, a: S.Action)
    ensures Clocked(w, S.Step(w, a), if a.AAdvance? then a.d else 0)
  {
    hide S.Exit, S.Wake, S.RunStart, S.Stop, S.DeleteStop;
    match a
    case AExit(p) => WaiterClock(w, p, S.Starts);
    case AWake(p, outcome) => WaiterClock(w, p, outcome);
    case ARunStart(outcome) => StartClock(w, outcome);
    case AStop(_, _) => ServerClock(w, a);
    case ADeleteStop(_) => ServerClock(w, a);
    case _ =>
  }

  lemma StartClock(w: S.World, outcome: S.StartOutcome)
    ensures Clocked(w, S.RunStart(w, outcome), 0)
  {
    hide S.ResetProgress;
  }

  lemma WaiterClock(w: S.World, p: S.ProcId, outcome: S.StartOutcome)
    ensures Clocked(w, S.Exit(w, p), 0) && Clocked(w, S.Wake(w, p, outcome), 0)
  {
  }

  lemma ServerClock(w: S.World, a: S.Action)
    requires a.AStop? || a.ADeleteStop?
    ensures Clocked(w, S.Step(w, a), 0)
  {
  }

  lemma TickOk(p: Pace, s: Sys, taken: Option<Snapshot>, wall: nat)
    requires Sane(p, s)
    ensures Sane(p, DoTick(s, taken, wall))
  {
    var t := DoTick(s, taken, wall);
    FlagsArrive(t.snap, s.w.now, wall);
    forall n | n in t.seen ensures Heard(t.w, n, Oldest(t)) {
      if t.seen == s.seen && t.snap == s.snap {
        assert Heard(s.w, n, Oldest(s));
      }
    }
    assert Limit(t) == Limit(s);
  }

  lemma DogOk(p: Pace, s: Sys, r: D.Received, t: D.Times)
    requires Sane(p, s)
    ensures Sane(p, DoDog(s, r, t))
  {
    assert Limit(DoDog(s, r, t)) == Limit(s) && Oldest(DoDog(s, r, t)) == Oldest(s);
  }

  lemma AnswerOk(p: Pace, s: Sys, inTime: bool)
    requires Sane(p, s)
    ensures Sane(p, DoAnswer(s, inTime))
  {
    var t := DoAnswer(s, inTime);
    if s.phase == Sent {
      I.LatchInv(s.w);
      forall n | n in t.seen ensures Heard(t.w, n, Oldest(t)) { assert Heard(s.w, n, Oldest(s)); }
      forall n | n in t.passed ensures Heard(t.w, n, Limit(t)) {
        if t.phase == Idle {
          assert Heard(s.w, n, Oldest(s));
          assert Limit(t) <= Oldest(s);
        } else {
          assert Heard(s.w, n, Limit(s));
        }
      }
    }
  }

  lemma StepOk(p: Pace, s: Sys, e: Event)
    requires Sane(p, s)
    ensures Sane(p, Next(p, s, e))
  {
    match e
    case Work(a) => WorkOk(p, s, a);
    case Tick(taken, wall) => TickOk(p, s, taken, wall);
    case DogTurn(r, times) => DogOk(p, s, r, times);
    case Answer(inTime) => AnswerOk(p, s, inTime);
    case Halt => HaltOk(p, s);
  }

  lemma {:induction false} RunOk(p: Pace, s: Sys, es: seq<Event>)
    requires Sane(p, s)
    ensures Sane(p, Run(p, s, es))
    decreases |es|
  {
    if es != [] {
      RunOk(p, s, es[..|es|-1]);
      StepOk(p, Run(p, s, es[..|es|-1]), es[|es|-1]);
    }
  }

  lemma HaltOk(p: Pace, s: Sys)
    requires Sane(p, s)
    ensures Sane(p, DoHalt(s))
  {
    assert Limit(DoHalt(s)) == Limit(s) && Oldest(DoHalt(s)) == Oldest(s);
  }

  // ---------------------------------------------------------------- main results

  /** The packet that is out has flag 2 set. */
  predicate HealthBit(s: Sys) {
    s.phase == Sent && Packet.Decode(s.sent).Some? && Packet.Good(Packet.Decode(s.sent).value.flags)
  }

  /**
   * The health bit is sound under stale snapshots: in every reachable state with a packet
   * out whose health bit is set, every node of the latest snapshot has by now recorded
   * progress newer than 40 ms before the packet, however long ago the snapshot was taken.
   */
  lemma HealthBitSound(p: Pace, w: S.World, dog: D.Dog, es: seq<Event>, n: S.NodeId)
    requires I.Inv(w) && w.hasSafety && p.reply <= p.gap
    requires var s := Run(p, Start(w, dog), es);
      n in s.seen && HealthBit(s)
    ensures var s := Run(p, Start(w, dog), es);
      n in s.w.nodes && ProgressedSince(s.w.nodes[n], s.at)
  {
    StartOk(p, w, dog);
    RunOk(p, Start(w, dog), es);
    var s := Run(p, Start(w, dog), es);
    assert Heard(s.w, n, Oldest(s));
  }

  /** Without a latch, every node of the latest passed tick has progressed less than 40 ms + gap + reply ago. */
  lemma PassedIsRecent(p: Pace, s: Sys, n: S.NodeId)
    requires Sane(p, s) && n in s.passed && !s.w.estop && !s.halted
    ensures n in s.w.nodes && s.w.nodes[n].lastProgress.Some?
    ensures s.w.now < s.w.nodes[n].lastProgress.value + 40_000 + p.gap + p.reply
  {
    assert Heard(s.w, n, Limit(s));
  }

  /** A node watched by the snapshot of a tick whose progress is stale: the tick does not pass, and it ends within the reply deadline. */
  lemma StaleTickLatches(p: Pace, s: Sys, n: S.NodeId, inTime: bool)
    requires Sane(p, s) && s.phase == Sent && n in s.seen && n in s.w.nodes && !ProgressedSince(s.w.nodes[n], s.at)
    ensures DoAnswer(s, inTime).w.estop && DoAnswer(s, inTime).phase == Done && s.w.now <= s.at + p.reply
  {
    assert Heard(s.w, n, Oldest(s));
  }

  /** s' passed no tick after s, and completed none without a latch. */
  predicate NoPass(s: Sys, s': Sys) {
    s'.passes == s.passes && s.completed <= s'.completed && (s'.completed > s.completed ==> s'.w.estop)
  }

  /**
   * The latches agree: once the watchdog has exited, tripped or broken, the loop passes no
   * tick any more, except one whose answer 0 was already on its way, and the first tick it
   * completes latches the supervisor.
   */
  lemma {:induction false} DeadWatchdogLatches(p: Pace, s: Sys, es: seq<Event>)
    requires s.w.hasSafety && s.dog.exited && s.answer != Some(false)
    ensures var t := Run(p, s, es);
      t.w.hasSafety && t.dog == s.dog && t.answer != Some(false) && NoPass(s, t)
    decreases |es|
  {
    hide S.Step, SnapshotOf, Sane;
    if es != [] {
      var t, e := Run(p, s, es[..|es|-1]), es[|es|-1];
      DeadWatchdogLatches(p, s, es[..|es|-1]);
      if e.Work? {
        ClockStep(t.w, e.a);
      }
    }
  }

  /** An answer 0 on its way was given by a watchdog that was not latched, to this tick's packet, with the health bit set. */
  lemma ZeroAnswerMeansHealthy(p: Pace, s: Sys, r: D.Received, t: D.Times)
    requires Sane(p, s) && s.dog.estop == false && s.answer.None? && DoDog(s, r, t).answer == Some(false)
    ensures s.phase == Sent && r.Datagram? && r.bytes == s.sent && Healthy(s.snap, s.at) && !D.Late(s.dog, t.received)
  {
  }

  /** What an event does to the supervisor. */
  ghost function ActsAt(p: Pace, s: Sys, e: Event): seq<S.Action> {
    match e
    case Work(a) => if a.AAdvance? && !OnTime(p, s, a.d) then [] else [a]
    case Answer(inTime) => if s.phase == Sent && !(inTime && s.answer == Some(false)) then [S.ALatch] else []
    case _ => []
  }

  /** The supervisor's steps in a run of the protocol. */
  ghost function ActsOf(p: Pace, s: Sys, es: seq<Event>): seq<S.Action>
    decreases |es|
  {
    if es == [] then [] else ActsOf(p, s, es[..|es|-1]) + ActsAt(p, Run(p, s, es[..|es|-1]), es[|es|-1])
  }

  lemma ActsStep(p: Pace, s: Sys, e: Event)
    ensures Next(p, s, e).w == S.Run(s.w, ActsAt(p, s, e))
  {
    var acts := ActsAt(p, s, e);
    assert acts != [] ==> acts[..0] == [];
  }

  /** What the protocol does to the supervisor is a run of the supervisor: everything proved of runs holds here too. */
  lemma {:induction false} SupervisorRuns(p: Pace, s: Sys, es: seq<Event>)
    ensures Run(p, s, es).w == S.Run(s.w, ActsOf(p, s, es))
    decreases |es|
  {
    if es != [] {
      var front := es[..|es|-1];
      SupervisorRuns(p, s, front);
      ActsStep(p, Run(p, s, front), es[|es|-1]);
      E.RunSplit(s.w, ActsOf(p, s, front), ActsAt(p, Run(p, s, front), es[|es|-1]));
    }
  }

  lemma StepTaken(p: Pace, s: Sys, e: Event) returns (a: S.Action)
    requires Next(p, s, e).w != s.w
    ensures Next(p, s, e).w == S.Step(s.w, a)
  {
    a := if e.Work? then e.a else S.ALatch;
  }
}
