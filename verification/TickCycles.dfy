/**
 * One whole healthy tick of the protocol: time passes, the loop composes and sends its
 * packet, the watchdog accepts it, the answer 0 arrives. These are the pieces from which
 * concrete runs are built.
 */
module TickCycles {
  import opened Outcomes
  import S = Supervision
  import D = Watchdog
  import Packet
  import opened SafetyLoop
  import opened SafetyProtocol

  /** The packet's timestamp in nanoseconds fits its 64 bits. */
  predicate Fits(now: nat) { now * 1000 < 0x1_0000_0000_0000_0000 }

  /** Between ticks, nothing latched, and the watchdog unarmed or armed by the latest tick. */
  predicate Ready(p: Pace, s: Sys) {
    && s.phase == Idle && !s.w.estop && !s.halted && s.at <= s.w.now <= s.at + p.gap && s.passedAt == s.at
    && !s.dog.exited && !s.dog.estop && p.gap < s.dog.timeout * 1000
    && s.dog.lastTimestamp <= s.at * 1000 && (s.dog.last.Some? ==> s.dog.last.value == s.at)
  }

  /** What the tick sends its packet from. */
  function Used(s: Sys, taken: Option<Snapshot>): Snapshot { if taken.Some? then taken.value else s.snap }

  function AllAt(now: nat): D.Times { D.Times(now, now, now, now, now) }

  function Received(s: Sys, to: nat, taken: Option<Snapshot>): D.Received {
    D.Datagram(PacketOf(Used(s, taken), to, to * 1000), to * 1000)
  }

  /** The tick at time `to`. */
  function CycleEvents(s: Sys, to: nat, taken: Option<Snapshot>): seq<Event>
    requires s.w.now <= to
  {
    [Work(S.AAdvance(to - s.w.now))] + ([Tick(taken, to * 1000)] + ([DogTurn(Received(s, to, taken), AllAt(to))] + [Answer(true)]))
  }

  lemma RunSingle(p: Pace, s: Sys, e: Event)
    ensures Run(p, s, [e]) == Next(p, s, e)
  {
    assert [e][..0] == [];
  }

  lemma {:induction false} RunSplit(p: Pace, s: Sys, es: seq<Event>, more: seq<Event>)
    ensures Run(p, s, es + more) == Run(p, Run(p, s, es), more)
    decreases |more|
  {
    if more == [] {
      assert es + more == es;
    } else {
      assert (es + more)[..|es + more|-1] == es + more[..|more|-1];
      RunSplit(p, s, es, more[..|more|-1]);
    }
  }

  lemma RunFirst(p: Pace, s: Sys, e: Event, more: seq<Event>)
    ensures Run(p, s, [e] + more) == Run(p, Next(p, s, e), more)
  {
    RunSplit(p, s, [e], more);
    RunSingle(p, s, e);
  }

  /** The state after the watchdog has accepted the tick's packet. */
  ghost predicate Answered(p: Pace, s: Sys, t: Sys, to: nat, taken: Option<Snapshot>) {
    && t.w == s.w.(now := to) && t.phase == Sent && t.at == to && t.snap == Used(s, taken)
    && t.seen == (if taken.Some? then Watched(s.w.(now := to)) else s.seen)
    && t.answer == Some(false) && !t.dog.exited && !t.dog.estop && t.dog.timeout == s.dog.timeout
    && t.dog.lastTimestamp == to * 1000 && t.dog.last == Some(to)
    && t.passes == s.passes && t.completed == s.completed && !t.halted
  }

  /** The watchdog accepts a healthy packet that comes in time. */
  lemma DogAccepts(d: D.Dog, bytes: seq<Packet.byte>, to: nat, f: Packet.Fields)
    requires Packet.Decode(bytes) == Some(f) && Packet.Good(f.flags) && f.timestamp == to * 1000
    requires !d.exited && !d.estop && d.lastTimestamp < to * 1000
    requires d.last.Some? ==> to - d.last.value < d.timeout * 1000
    requires d.timeout > 0
    ensures var r := D.Datagram(bytes, to * 1000); var e := D.Iterate(d, r, AllAt(to));
      && D.Reply(d, r, AllAt(to)) == Some(false) && !e.exited && !e.estop && e.timeout == d.timeout
      && e.lastTimestamp == to * 1000 && e.last == Some(to)
  {
  }

  lemma PacketArrives(snap: Snapshot, to: nat)
    requires Fits(to) && Healthy(snap, to)
    ensures var d := Packet.Decode(PacketOf(snap, to, to * 1000));
      d.Some? && Packet.Good(d.value.flags) && d.value.timestamp == to * 1000
  {
    FlagsArrive(snap, to, to * 1000);
    Packet.RoundTrip(Packet.Fields(to * 1000, snap.count, Flags(snap, to)));
  }

  /** The state when the packet is out. */
  function Posted(s: Sys, to: nat, snap: Snapshot, seen: set<S.NodeId>, bytes: seq<Packet.byte>): Sys {
    s.(w := s.w.(now := to), snap := snap, seen := seen, phase := Sent, at := to, sent := bytes, inbox := Some(bytes), answer := None)
  }

  lemma Wait(p: Pace, s: Sys, to: nat)
    requires s.phase == Idle && s.w.now <= to <= s.at + p.gap
    ensures DoWork(p, s, S.AAdvance(to - s.w.now)) == s.(w := s.w.(now := to))
  {
  }

  lemma Post(s: Sys, to: nat, taken: Option<Snapshot>)
    requires s.phase == Idle && s.w.now == to
    requires taken.Some? ==> S.LockFree(s.w) && SnapshotOf(taken.value, s.w)
    ensures DoTick(s, taken, to * 1000)
         == Posted(s, to, Used(s, taken), if taken.Some? then Watched(s.w) else s.seen, PacketOf(Used(s, taken), to, to * 1000))
  {
  }

  lemma TakeIn(p: Pace, s: Sys, to: nat, t: Sys, bytes: seq<Packet.byte>, f: Packet.Fields)
    requires Ready(p, s) && s.at < to <= s.at + p.gap && t.dog == s.dog && t.inbox == Some(bytes)
    requires Packet.Decode(bytes) == Some(f) && Packet.Good(f.flags) && f.timestamp == to * 1000
    ensures var r := D.Datagram(bytes, to * 1000);
      DoDog(t, r, AllAt(to)) == t.(dog := D.Iterate(s.dog, r, AllAt(to)), inbox := None, answer := Some(false))
  {
    DogAccepts(s.dog, bytes, to, f);
  }

  lemma SendAndAccept(p: Pace, s: Sys, to: nat, taken: Option<Snapshot>)
    requires Ready(p, s) && s.at < to && s.w.now <= to <= s.at + p.gap && Fits(to) && Healthy(Used(s, taken), to)
    requires taken.Some? ==> S.LockFree(s.w) && SnapshotOf(taken.value, s.w.(now := to))
    ensures var t := DoTick(DoWork(p, s, S.AAdvance(to - s.w.now)), taken, to * 1000);
      Answered(p, s, DoDog(t, Received(s, to, taken), AllAt(to)), to, taken)
  {
    var s1 := s.(w := s.w.(now := to));
    Wait(p, s, to);
    Post(s1, to, taken);
    PacketArrives(Used(s, taken), to);
    var bytes := PacketOf(Used(s, taken), to, to * 1000);
    TakeIn(p, s, to, DoTick(s1, taken, to * 1000), bytes, Packet.Decode(bytes).value);
    DogAccepts(s.dog, bytes, to, Packet.Decode(bytes).value);
  }

  lemma Close(p: Pace, s: Sys, t: Sys, to: nat, taken: Option<Snapshot>)
    requires Ready(p, s) && Answered(p, s, t, to, taken)
    ensures Completed(p, s, DoAnswer(t, true), to, taken)
  {
  }

  /** The state after the tick. */
  ghost predicate Completed(p: Pace, s: Sys, t: Sys, to: nat, taken: Option<Snapshot>) {
    && Ready(p, t) && t.w == s.w.(now := to) && t.at == to && t.snap == Used(s, taken)
    && t.seen == (if taken.Some? then Watched(s.w.(now := to)) else s.seen)
    && t.passes == s.passes + 1 && t.completed == s.completed + 1 && t.dog.timeout == s.dog.timeout
  }

  /** A tick at time `to` passes, leaves the supervisor alone and everything ready for the next. */
  lemma Cycle(p: Pace, s: Sys, to: nat, taken: Option<Snapshot>)
    requires Ready(p, s) && s.at < to && s.w.now <= to <= s.at + p.gap && Fits(to) && Healthy(Used(s, taken), to)
    requires taken.Some? ==> S.LockFree(s.w) && SnapshotOf(taken.value, s.w.(now := to))
    ensures Completed(p, s, Run(p, s, CycleEvents(s, to, taken)), to, taken)
  {
    SendAndAccept(p, s, to, taken);
    FourSteps(p, s, to, taken);
    Close(p, s, DoDog(DoTick(DoWork(p, s, S.AAdvance(to - s.w.now)), taken, to * 1000), Received(s, to, taken), AllAt(to)), to, taken);
  }

  lemma FourSteps(p: Pace, s: Sys, to: nat, taken: Option<Snapshot>)
    requires s.w.now <= to
    ensures Run(p, s, CycleEvents(s, to, taken))
         == DoAnswer(DoDog(DoTick(DoWork(p, s, S.AAdvance(to - s.w.now)), taken, to * 1000), Received(s, to, taken), AllAt(to)), true)
  {
    var a, b, c, d := Work(S.AAdvance(to - s.w.now)), Tick(taken, to * 1000), DogTurn(Received(s, to, taken), AllAt(to)), Answer(true);
    Four(p, s, a, b, c, d);
  }

  lemma Four(p: Pace, s: Sys, a: Event, b: Event, c: Event, d: Event)
    ensures Run(p, s, [a] + ([b] + ([c] + [d]))) == Next(p, Next(p, Next(p, Next(p, s, a), b), c), d)
  {
    var s1 := Next(p, s, a);
    var s2 := Next(p, s1, b);
    var s3 := Next(p, s2, c);
    RunFirst(p, s, a, [b] + ([c] + [d]));
    RunFirst(p, s1, b, [c] + [d]);
    RunFirst(p, s2, c, [d]);
    RunSingle(p, s3, d);
  }
}
