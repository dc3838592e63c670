/**
 * A native node that beats all the time, as runs of the protocol from the start of the
 * server: after its launch it writes packets at a steady pace from some instant on, and the
 * supervisor handles them either as they come or, up to a point, not yet.
 */
module SteadyTalker {
  import opened Outcomes
  import S = Supervision
  import D = Watchdog
  import opened SafetyLoop
  import opened SafetyProtocol
  import opened TickCycles
  import opened Stalls
  import opened Unwatched
  import opened Tracking
  import opened NoFalseTrip

  // ---------------------------------------------------------------- events and actions

  function Begin(): Sys { Start(S.Init(true), D.Init(50, 0)) }

  ghost function Acts(p: Pace, es: seq<Event>): seq<S.Action> { ActsOf(p, Begin(), es) }

  lemma ActsMore(p: Pace, es: seq<Event>, e: Event)
    ensures Run(p, Begin(), es + [e]) == Next(p, Run(p, Begin(), es), e)
    ensures Acts(p, es + [e]) == Acts(p, es) + ActsAt(p, Run(p, Begin(), es), e)
  {
    assert (es + [e])[..|es|] == es;
  }

  /** No event delivers a packet of the runtime. */
  predicate Packetless(es: seq<Event>) { forall e :: e in es ==> !(e.Work? && e.a.AProgress?) }

  /** No event is a tick that takes a snapshot. */
  predicate Lockless(es: seq<Event>) { forall e :: e in es ==> !(e.Tick? && e.taken.Some?) }

  // ---------------------------------------------------------------- packets handled so far

  /** When the talker is launched, writes its first packet, and how long it waits between two packets. */
  datatype Plan = Plan(launch: nat, first: nat, space: nat) {
    /** When packet i is written. */
    function At(i: nat): nat { first + i * space }
  }

  lemma NextAt(m: Plan, i: nat)
    ensures m.At(i + 1) == m.At(i) + m.space && m.At(0) == m.first
  {
  }

  /** Packet i has been handled. */
  ghost predicate Got(acts: seq<S.Action>, i: nat) { exists k: nat :: Arrives(acts, 0, i, k) }

  /** Step k, if it delivers a packet, delivers one of the first `count`, not before it was written. */
  ghost predicate Honest(acts: seq<S.Action>, m: Plan, count: nat, k: nat)
    requires k < |acts|
  {
    acts[k].AProgress? ==>
      && acts[k].p == 0 && 1 <= acts[k].counter <= count
      && m.At(acts[k].counter - 1) <= Tracking.Before(acts, k).now
  }

  /**
   * Process 0 was launched according to the plan; of its packets exactly the first `count` have
   * been handled.
   */
  ghost predicate Handed(acts: seq<S.Action>, m: Plan, count: nat) {
    && LaunchedAt(acts, 0, m.launch)
    && (forall k: nat {:trigger Honest(acts, m, count, k)} :: k < |acts| ==> Honest(acts, m, count, k))
    && (forall i: nat {:trigger Got(acts, i)} :: i < count ==> Got(acts, i))
  }

  lemma BeforeMore(acts: seq<S.Action>, a: S.Action, k: nat)
    requires k <= |acts|
    ensures Tracking.Before(acts + [a], k) == Tracking.Before(acts, k)
  {
    assert (acts + [a])[..k] == acts[..k];
  }

  lemma LaunchedMore(acts: seq<S.Action>, a: S.Action, c: S.ProcId, time: nat)
    requires LaunchedAt(acts, c, time)
    ensures LaunchedAt(acts + [a], c, time)
  {
    var k: nat :| Launches(acts, c, k) && Tracking.Before(acts, k).now == time;
    BeforeMore(acts, a, k);
    BeforeMore(acts, a, k + 1);
    assert Launches(acts + [a], c, k);
  }

  lemma GotMore(acts: seq<S.Action>, a: S.Action, i: nat)
    requires Got(acts, i)
    ensures Got(acts + [a], i)
  {
    var k: nat :| Arrives(acts, 0, i, k);
    BeforeMore(acts, a, k);
    assert Arrives(acts + [a], 0, i, k);
  }

  /** One more step, which handles the next packet or none. */
  lemma HandedMore(acts: seq<S.Action>, a: S.Action, m: Plan, count: nat, total: nat)
    requires Handed(acts, m, count)
    requires if total == count then !a.AProgress?
             else total == count + 1 && a == S.AProgress(0, total) && S.LockFree(S.Run(S.Init(true), acts))
                  && 0 in S.Run(S.Init(true), acts).owner && m.At(count) <= S.Run(S.Init(true), acts).now
    ensures Handed(acts + [a], m, total)
  {
    var acts' := acts + [a];
    LaunchedMore(acts, a, 0, m.launch);
    assert acts[..|acts|] == acts;
    forall k: nat | k < |acts'| ensures Honest(acts', m, total, k) {
      BeforeMore(acts, a, k);
      if k < |acts| { assert Honest(acts, m, count, k); }
    }
    forall i: nat | i < total ensures Got(acts', i) {
      if i < count {
        GotMore(acts, a, i);
      } else {
        BeforeMore(acts, a, |acts|);
        assert Arrives(acts', 0, count, |acts|);
      }
    }
  }

  lemma AtGrows(m: Plan, i: nat, j: nat)
    requires i <= j
    ensures m.At(i) <= m.At(j)
  {
    var d := j - i;
    assert j * m.space == i * m.space + d * m.space;
  }

  /** The handled packets are the delivered ones, if none other has had its delay. */
  lemma HandedDelivers(acts: seq<S.Action>, m: Plan, count: nat, at: seq<nat>, delay: nat)
    requires Handed(acts, m, count) && count <= |at|
    requires forall i :: 0 <= i < |at| ==> at[i] == m.At(i)
    requires count < |at| ==> S.Run(S.Init(true), acts).now < m.At(count) + delay
    ensures Delivers(acts, 0, at, delay)
  {
    forall k: nat | k < |acts| && acts[k].AProgress? && acts[k].p == 0
      ensures 1 <= acts[k].counter <= |at| && at[acts[k].counter-1] <= Tracking.Before(acts, k).now
    {
      assert Honest(acts, m, count, k);
    }
    forall i: nat | i < |at| && at[i] + delay <= S.Run(S.Init(true), acts).now ensures exists k: nat :: Arrives(acts, 0, i, k) {
      if i >= count { AtGrows(m, count, i); }
      assert Got(acts, i);
    }
  }

  // ---------------------------------------------------------------- the supervisor's side

  /** The talker is the only node and runs; `count` of its packets have been handled. */
  predicate Talks(w: S.World, count: nat) {
    && w.hasSafety && w.pending.None? && !w.estop && w.items == {0} && w.nodes.Keys == {0} && RunsOn(w, 0, 0)
    && w.owner[0] == 0 && w.nodes[0].ws == 0 && w.nodes[0].counter == count
  }

  lemma TalksWatched(w: S.World, count: nat)
    requires Talks(w, count)
    ensures Running(w) == {0} && Watched(w) == {0}
  {
    assert Running(w) == {0};
  }

  /** What a snapshot says whose only node has made progress at the given time. */
  function View(progress: nat): Snapshot { Snapshot(1, 1, Some(progress)) }

  lemma TalksSnapshot(w: S.World, count: nat, progress: nat)
    requires Talks(w, count) && w.nodes[0].lastProgress == Some(progress)
    ensures SnapshotOf(View(progress), w) && Watched(w) == {0}
  {
    hide Running, Watched;
    TalksWatched(w, count);
    assert 0 in Watched(w);
  }

  lemma NextPacket(w: S.World, count: nat)
    requires Talks(w, count)
    ensures var v := S.Progress(w, 0, count + 1);
      Talks(v, count + 1) && v.now == w.now && v.nodes[0].lastProgress == Some(w.now)
  {
  }

  // ---------------------------------------------------------------- histories

  /** After these events the talker runs and `count` of its packets have been handled; all ticks passed. */
  ghost predicate Story(p: Pace, es: seq<Event>, m: Plan, count: nat) {
    var s := Run(p, Begin(), es);
    && Ready(p, s) && s.passes == s.completed && Talks(s.w, count) && Handed(Acts(p, es), m, count)
  }

  lemma StoryWorld(p: Pace, es: seq<Event>)
    ensures S.Run(S.Init(true), Acts(p, es)) == Run(p, Begin(), es).w
  {
    SupervisorRuns(p, Begin(), es);
  }

  /** Time passes between ticks. */
  lemma Later(p: Pace, es: seq<Event>, m: Plan, count: nat, d: nat)
    requires Story(p, es, m, count)
    requires var s := Run(p, Begin(), es); s.w.now + d <= s.at + p.gap
    ensures var s := Run(p, Begin(), es);
      Run(p, Begin(), es + [Work(S.AAdvance(d))]) == s.(w := s.w.(now := s.w.now + d))
    ensures Story(p, es + [Work(S.AAdvance(d))], m, count)
  {
    hide Next, ActsAt, Handed, Talks, Ready, Run, ActsOf;
    var s, e := Run(p, Begin(), es), Work(S.AAdvance(d));
    ActsMore(p, es, e);
    LaterStep(p, s, d);
    HandedMore(Acts(p, es), e.a, m, count, count);
    TalksLater(s.w, count, s.w.now + d);
  }

  lemma LaterStep(p: Pace, s: Sys, d: nat)
    requires Ready(p, s) && s.w.now + d <= s.at + p.gap
    ensures var t := s.(w := s.w.(now := s.w.now + d));
      Next(p, s, Work(S.AAdvance(d))) == t && ActsAt(p, s, Work(S.AAdvance(d))) == [S.AAdvance(d)] && Ready(p, t)
  {
    Wait(p, s, s.w.now + d);
  }

  lemma TalksLater(w: S.World, count: nat, now: nat)
    requires Talks(w, count)
    ensures Talks(w.(now := now), count)
  {
  }

  /** The next packet is handled. */
  lemma Handle(p: Pace, es: seq<Event>, m: Plan, count: nat)
    requires Story(p, es, m, count) && m.At(count) <= Run(p, Begin(), es).w.now
    ensures var s := Run(p, Begin(), es);
      Run(p, Begin(), es + [Work(S.AProgress(0, count + 1))]) == s.(w := S.Progress(s.w, 0, count + 1))
    ensures Story(p, es + [Work(S.AProgress(0, count + 1))], m, count + 1)
  {
    hide Next, ActsAt, Handed, Ready, Run, ActsOf, S.Progress;
    var s, e := Run(p, Begin(), es), Work(S.AProgress(0, count + 1));
    ActsMore(p, es, e);
    StoryWorld(p, es);
    NextPacket(s.w, count);
    HandleStep(p, s, count);
    HandedMore(Acts(p, es), e.a, m, count, count + 1);
  }

  lemma HandleStep(p: Pace, s: Sys, count: nat)
    requires Ready(p, s) && Talks(s.w, count)
    ensures var t, e := s.(w := S.Progress(s.w, 0, count + 1)), Work(S.AProgress(0, count + 1));
      Next(p, s, e) == t && ActsAt(p, s, e) == [e.a] && Ready(p, t)
  {
    NextPacket(s.w, count);
    hide S.Progress;
  }

  /** Events that deliver no packet leave the account of the packets alone. */
  lemma {:induction false} HandedOn(p: Pace, es: seq<Event>, more: seq<Event>, m: Plan, count: nat)
    requires Handed(Acts(p, es), m, count) && Packetless(more)
    ensures Handed(Acts(p, es + more), m, count)
    decreases |more|
  {
    hide Handed;
    if more == [] {
      assert es + more == es;
    } else {
      var front, e := more[..|more|-1], more[|more|-1];
      assert e in more;
      HandedOn(p, es, front, m, count);
      assert es + more == (es + front) + [e];
      ActsMore(p, es + front, e);
      QuietEvent(p, es + front, e, m, count);
    }
  }

  lemma QuietEvent(p: Pace, es: seq<Event>, e: Event, m: Plan, count: nat)
    requires Handed(Acts(p, es), m, count) && !(e.Work? && e.a.AProgress?)
    ensures Handed(Acts(p, es) + ActsAt(p, Run(p, Begin(), es), e), m, count)
  {
    hide Handed;
    var acts := ActsAt(p, Run(p, Begin(), es), e);
    if acts == [] {
      assert Acts(p, es) + acts == Acts(p, es);
    } else {
      HandedMore(Acts(p, es), acts[0], m, count, count);
    }
  }

  lemma CycleQuiet(s: Sys, to: nat, taken: Option<Snapshot>)
    requires s.w.now <= to
    ensures Packetless(CycleEvents(s, to, taken))
    ensures taken.None? ==> Lockless(CycleEvents(s, to, taken))
  {
  }

  /** A healthy tick passes and handles no packet. */
  lemma TickPasses(p: Pace, es: seq<Event>, m: Plan, count: nat, to: nat, taken: Option<Snapshot>)
    requires Story(p, es, m, count)
    requires var s := Run(p, Begin(), es);
      && s.at < to && s.w.now <= to <= s.at + p.gap && Fits(to) && Healthy(Used(s, taken), to)
      && (taken.Some? ==> SnapshotOf(taken.value, s.w.(now := to)))
    ensures var s := Run(p, Begin(), es);
      var es' := es + CycleEvents(s, to, taken);
      Story(p, es', m, count) && Completed(p, s, Run(p, Begin(), es'), to, taken)
  {
    hide Handed, Talks, Ready, Run, CycleEvents, Healthy, SnapshotOf, ActsOf;
    var s := Run(p, Begin(), es);
    TalksFree(s.w, count);
    Cycle(p, s, to, taken);
    CycleQuiet(s, to, taken);
    RunSplit(p, Begin(), es, CycleEvents(s, to, taken));
    HandedOn(p, es, CycleEvents(s, to, taken), m, count);
    TalksLater(s.w, count, to);
  }

  lemma TalksFree(w: S.World, count: nat)
    requires Talks(w, count)
    ensures S.LockFree(w)
  {
  }

  // ---------------------------------------------------------------- before the snapshot: no packet handled yet

  predicate Silent(w: S.World, launch: nat) { 0 in w.nodes && w.nodes[0].lastProgress == Some(launch) }

  /** Ticks that get the lock, while no packet has been handled, until the next one may come at `to`. */
  lemma {:induction false} SilentTicks(p: Pace, es: seq<Event>, m: Plan, to: nat) returns (es': seq<Event>)
    requires Story(p, es, m, 0) && p.gap > 0
    requires var s := Run(p, Begin(), es); Silent(s.w, m.launch) && s.at < to && s.w.now <= to && to < m.launch + STALE && Fits(to)
    ensures Story(p, es', m, 0)
    ensures var t := Run(p, Begin(), es'); Silent(t.w, m.launch) && t.at < to <= t.at + p.gap && t.w.now <= to
    decreases (to - Run(p, Begin(), es).at)
  {
    hide Handed, Talks, Run, CycleEvents, SnapshotOf, ActsOf;
    var s := Run(p, Begin(), es);
    es' := es;
    if s.at + p.gap < to {
      var next := s.at + p.gap;
      TalksLater(s.w, 0, next);
      TalksSnapshot(s.w.(now := next), 0, m.launch);
      TickPasses(p, es, m, 0, next, Some(View(m.launch)));
      es' := SilentTicks(p, es + CycleEvents(s, next, Some(View(m.launch))), m, to);
    }
  }

  // ---------------------------------------------------------------- after it: packets handled as they come

  /** All packets written by now have been handled: the first `count`, the newest one no earlier than it was written. */
  ghost predicate Current(p: Pace, es: seq<Event>, m: Plan, count: nat) {
    var s := Run(p, Begin(), es);
    && Story(p, es, m, count) && s.w.now < m.At(count)
    && (count > 0 ==> m.At(count - 1) <= s.w.now && ProgressFrom(s.w, 0, m.At(count - 1)))
  }

  /** The packets still waiting are handled at once. */
  lemma {:induction false} CatchUp(p: Pace, es: seq<Event>, m: Plan, count: nat) returns (more: seq<Event>, all: nat)
    requires Story(p, es, m, count) && m.space > 0
    requires var s := Run(p, Begin(), es);
      count > 0 ==> m.At(count - 1) <= s.w.now && ProgressFrom(s.w, 0, m.At(count - 1))
    ensures Current(p, es + more, m, all) && Lockless(more)
    ensures var s, t := Run(p, Begin(), es), Run(p, Begin(), es + more); t == s.(w := t.w) && t.w.now == s.w.now
    decreases Run(p, Begin(), es).w.now + 1 - m.At(count)
  {
    hide Handed, Ready, Run, ActsOf;
    var s := Run(p, Begin(), es);
    more, all := [], count;
    assert es + more == es;
    if m.At(count) <= s.w.now {
      var e := Work(S.AProgress(0, count + 1));
      NextAt(m, count);
      Handle(p, es, m, count);
      NextPacket(s.w, count);
      hide Story, S.Progress;
      var rest;
      rest, all := CatchUp(p, es + [e], m, count + 1);
      more := [e] + rest;
      assert es + more == (es + [e]) + rest;
    }
  }

  /** One microsecond passes, and the packet that is written then, if any, is handled. */
  lemma OneMicro(p: Pace, es: seq<Event>, m: Plan, count: nat) returns (more: seq<Event>, all: nat)
    requires Current(p, es, m, count) && m.space > 0
    requires var s := Run(p, Begin(), es); s.w.now + 1 <= s.at + p.gap
    ensures Current(p, es + more, m, all) && Lockless(more)
    ensures var s, t := Run(p, Begin(), es), Run(p, Begin(), es + more); t == s.(w := t.w) && t.w.now == s.w.now + 1
  {
    hide Story, Run, ActsOf;
    var e := Work(S.AAdvance(1));
    Later(p, es, m, count, 1);
    NextAt(m, count);
    more, all := [e], count;
    if m.At(count) == Run(p, Begin(), es).w.now + 1 {
      var f := Work(S.AProgress(0, count + 1));
      StoryTalks(p, es + [e], m, count);
      Handle(p, es + [e], m, count);
      NextPacket(Run(p, Begin(), es + [e]).w, count);
      hide S.Progress;
      more, all := [e] + [f], count + 1;
      assert es + more == es + [e] + [f];
    }
  }

  /** Time passes, and the packets written meanwhile are handled as they come. */
  lemma {:induction false} BeatOn(p: Pace, es: seq<Event>, m: Plan, count: nat, n: nat) returns (more: seq<Event>, all: nat)
    requires Current(p, es, m, count) && m.space > 0
    requires var s := Run(p, Begin(), es); s.w.now + n <= s.at + p.gap
    ensures Current(p, es + more, m, all) && Lockless(more)
    ensures var s, t := Run(p, Begin(), es), Run(p, Begin(), es + more); t == s.(w := t.w) && t.w.now == s.w.now + n
    decreases n
  {
    hide Current, Run, ActsOf;
    more, all := [], count;
    assert es + more == es;
    if n > 0 {
      var step, soFar := OneMicro(p, es, m, count);
      var rest;
      rest, all := BeatOn(p, es + step, m, soFar, n - 1);
      more := step + rest;
      assert es + more == es + step + rest;
    }
  }

  lemma StoryTalks(p: Pace, es: seq<Event>, m: Plan, count: nat)
    requires Story(p, es, m, count)
    ensures Talks(Run(p, Begin(), es).w, count)
  {
  }

  /** k ticks that do not get the lock pass while the talker beats on. */
  lemma {:induction false} FailingTicks(p: Pace, es: seq<Event>, m: Plan, count: nat, progress: nat, k: nat)
      returns (more: seq<Event>, all: nat)
    requires Current(p, es, m, count) && p.gap > 0 && m.space > 0
    requires var s := Run(p, Begin(), es);
      s.snap == View(progress) && s.w.now == s.at && After(s.at, k, p.gap) < progress + STALE && Fits(progress + STALE)
    ensures Current(p, es + more, m, all) && Lockless(more)
    ensures var s, t := Run(p, Begin(), es), Run(p, Begin(), es + more);
      t.snap == s.snap && t.w.now == t.at == After(s.at, k, p.gap) && t.completed == s.completed + k
    decreases k
  {
    hide Story, Run, ActsOf, CycleEvents;
    more, all := [], count;
    assert es + more == es;
    if k > 0 {
      var s := Run(p, Begin(), es);
      OneMoreFirst(s.at, k - 1, p.gap);
      var beats, soFar := BeatOn(p, es, m, count, p.gap);
      var b := Run(p, Begin(), es + beats);
      var cycle := CycleEvents(b, b.w.now, None);
      TickPasses(p, es + beats, m, soFar, b.w.now, None);
      CycleQuiet(b, b.w.now, None);
      var rest;
      rest, all := FailingTicks(p, es + beats + cycle, m, soFar, progress, k - 1);
      more := beats + (cycle + rest);
      assert es + more == es + beats + cycle + rest;
    }
  }

  lemma OneMoreFirst(from: nat, k: nat, gap: nat)
    ensures After(from, k + 1, gap) == After(from + gap, k, gap) && from + gap <= After(from, k + 1, gap)
  {
  }
}
