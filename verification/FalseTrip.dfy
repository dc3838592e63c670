/**
 * The bound of NoFalseTrip is exact: as soon as the longest age of a beating node and the
 * ticks without the lock reach 40 ms, there is a run of the whole protocol, from the start of
 * the server, in which a runtime that keeps beating is reported unhealthy, because the
 * snapshot is too old.
 */
module FalseTrip {
  import opened Outcomes
  import S = Supervision
  import D = Watchdog
  import E = EStop
  import H = Heartbeat
  import opened SafetyLoop
  import opened SafetyProtocol
  import opened TickCycles
  import opened Stalls
  import opened Unwatched
  import opened Tracking
  import opened NoFalseTrip
  import opened SteadyTalker

  // ---------------------------------------------------------------- false reports

  /**
   * From b to s all watched nodes have stayed healthy: the same process runs unmarked, it has
   * gone on writing packets, and the newest one was handled within the last 40 ms.
   */
  ghost predicate StayedHealthy(b: Sys, s: Sys, written: map<S.NodeId, seq<nat>>, later: map<S.NodeId, seq<nat>>) {
    forall n :: n in Watched(b.w) ==>
      && n in Watched(s.w) && s.w.nodes[n].cmd == b.w.nodes[n].cmd
      && n in written && n in later && written[n] <= later[n] && ProgressedSince(s.w.nodes[n], s.at)
  }

  /** At least `space` between one instant and the next. */
  ghost predicate Spaced(at: seq<nat>, space: nat) {
    forall i, j :: 0 <= i && j == i + 1 && j < |at| ==> at[i] + space <= at[j]
  }

  /**
   * A false report: the packet that goes out at the end of the events says unhealthy, the given
   * number of ticks after the latest one that got the lock, all of which passed. Yet every
   * native node beat when the snapshot was taken, beats now, and has stayed healthy since. The
   * packets may also have a least distance.
   */
  ghost predicate FalseReport(p: Pace, es: seq<Event>, k: nat, written: map<S.NodeId, seq<nat>>, later: map<S.NodeId, seq<nat>>,
                              space: nat, gap: nat, delay: nat, failures: nat) {
    && LastLock(p, Begin(), es, k)
    && AllBeat(p, Begin(), es[..k], written, gap, delay) && AllBeat(p, Begin(), es, later, gap, delay)
    && var b, s := Run(p, Begin(), es[..k]), Run(p, Begin(), es);
    && StayedHealthy(b, s, written, later) && (forall n :: n in later ==> Spaced(later[n], space))
    && s.phase == Sent && s.w.now == s.at && !HealthBit(s) && s.passes == s.completed == b.completed + failures
  }

  // ---------------------------------------------------------------- the talker beats

  /** The first packets of a plan. */
  function Packets(m: Plan, count: nat): (at: seq<nat>)
    ensures |at| == count && forall i :: 0 <= i < count ==> at[i] == m.At(i)
  {
    seq(count, i requires 0 <= i < count => m.At(i))
  }

  lemma PacketsSpaced(m: Plan, count: nat, gap: nat)
    requires m.space < gap
    ensures H.Closer(Packets(m, count), gap) && Spaced(Packets(m, count), m.space)
  {
    forall i, j | 0 <= i && j == i + 1 && j < count ensures m.At(i) + m.space == m.At(j) { NextAt(m, i); }
  }

  lemma TalkerBeats(acts: seq<S.Action>, m: Plan, count: nat, written: nat, gap: nat, delay: nat)
    requires Handed(acts, m, count) && count <= written && 0 < m.space < gap && m.first < m.launch + gap
    requires var now := S.Run(S.Init(true), acts).now;
      && (count < written ==> now < m.At(count) + delay)
      && (if written == 0 then now < m.launch + gap else m.At(written - 1) <= now < m.At(written - 1) + gap)
    ensures Beats(acts, 0, Packets(m, written), gap, delay)
  {
    HandedDelivers(acts, m, count, Packets(m, written), delay);
    PacketsSpaced(m, written, gap);
    NextAt(m, 0);
  }

  lemma AllBeatOne(p: Pace, es: seq<Event>, at: seq<nat>, gap: nat, delay: nat, count: nat)
    requires Talks(Run(p, Begin(), es).w, count) && Beats(Acts(p, es), 0, at, gap, delay)
    ensures AllBeat(p, Begin(), es, map[0 := at], gap, delay) && Watched(Run(p, Begin(), es).w) == {0}
  {
    hide Beats, Run, Running, Watched;
    TalksWatched(Run(p, Begin(), es).w, count);
  }

  // ---------------------------------------------------------------- the run

  lemma LastLockAt(p: Pace, s: Sys, before: seq<Event>, e: Event, after: seq<Event>)
    requires e.Tick? && e.taken.Some? && Lockless(after)
    requires var t := Run(p, s, before); t.phase == Idle && S.LockFree(t.w) && SnapshotOf(e.taken.value, t.w)
    ensures var es := before + ([e] + after);
      es[..|before|] == before && es[|before|] == e && LastLock(p, s, es, |before|)
  {
    var es := before + ([e] + after);
    assert es[..|before|] == before && es[|before|] == e;
    forall j: nat | |before| < j < |es| ensures !GotLock(p, s, es, j) {
      assert es[j] == after[j - |before| - 1];
    }
  }

  lemma TalkerStory(p: Pace, m: Plan)
    requires m.launch <= p.gap && p.gap < 50_000
    ensures Story(p, StartTalker(m.launch), m, 0)
    ensures var s := Run(p, Begin(), StartTalker(m.launch)); s.w.now == m.launch && s.at == 0 && Silent(s.w, m.launch)
  {
    TalkerRuns(p, m.launch);
    TalkerWorld(m.launch);
    TalkerActs(p, m.launch);
    TalkerHanded(p, m);
  }

  function LaunchActs(launch: nat): seq<S.Action> {
    [S.AAdvance(launch)] + [S.ACreate] + [S.ARunCheck(0, Talker())] + [S.ARunStart(S.Starts)]
  }

  lemma TalkerActs(p: Pace, launch: nat)
    requires launch <= p.gap
    ensures Acts(p, StartTalker(launch)) == LaunchActs(launch)
  {
    hide S.Step;
    var a, b, c, d := Work(S.AAdvance(launch)), Work(S.ACreate), Work(S.ARunCheck(0, Talker())), Work(S.ARunStart(S.Starts));
    assert StartTalker(launch) == [] + [a] + [b] + [c] + [d];
    ActsMore(p, [], a);
    ActsMore(p, [] + [a], b);
    ActsMore(p, [] + [a] + [b], c);
    ActsMore(p, [] + [a] + [b] + [c], d);
  }

  lemma TalkerHanded(p: Pace, m: Plan)
    requires m.launch <= p.gap && p.gap < 50_000 && Acts(p, StartTalker(m.launch)) == LaunchActs(m.launch)
    ensures Handed(LaunchActs(m.launch), m, 0)
  {
    hide TalkerStarted, StartTalker, Run, S.Run, ActsOf;
    var acts := LaunchActs(m.launch);
    StoryWorld(p, StartTalker(m.launch));
    AfterLaunch(p, m.launch);
    assert acts[..4] == acts;
    BeforeLaunch(m.launch);
    assert Launches(acts, 0, 3);
  }

  lemma AfterLaunch(p: Pace, launch: nat)
    requires launch <= p.gap && p.gap < 50_000
    ensures 0 in Run(p, Begin(), StartTalker(launch)).w.owner
  {
    hide TalkerStarted;
    TalkerRuns(p, launch);
    TalkerWorld(launch);
  }

  lemma BeforeLaunch(launch: nat)
    ensures var w := Tracking.Before(LaunchActs(launch), 3); w.owner == map[] && w.now == launch
  {
    var acts := LaunchActs(launch);
    E.RunNext(S.Init(true), acts, 0);
    E.RunNext(S.Init(true), acts, 1);
    E.RunNext(S.Init(true), acts, 2);
    assert acts[..0] == [];
  }

  /** The final tick: no lock, and the snapshot is too old. */
  lemma LateTick(p: Pace, es: seq<Event>, progress: nat)
    requires var s := Run(p, Begin(), es); s.phase == Idle && s.snap == View(progress) && s.w.now >= progress + STALE
    ensures var s := Run(p, Begin(), es);
      var e := Tick(None, s.w.now * 1000);
      var t := Run(p, Begin(), es + [e]);
      && t.phase == Sent && t.at == s.w.now && t.w == s.w && !HealthBit(t)
      && t.passes == s.passes && t.completed == s.completed && Acts(p, es + [e]) == Acts(p, es)
  {
    var s := Run(p, Begin(), es);
    ActsMore(p, es, Tick(None, s.w.now * 1000));
    Post(s, s.w.now, None);
    FlagsArrive(s.snap, s.w.now, s.w.now * 1000);
  }

  /** What the witness needs of its numbers: the age of the progress at the snapshot, and the talker's plan. */
  predicate Chosen(p: Pace, gap: nat, delay: nat, failures: nat, age: nat, m: Plan) {
    && 0 < p.gap < 50_000 && 0 < m.space < gap && m.space <= STALE && failures >= 1 && age <= LongestAge(gap, delay)
    && After(1 + age, failures - 1, p.gap) < 1 + STALE <= After(1 + age, failures - 1, p.gap) + p.gap
    && m.launch == 1 && m.first == (if age + 1 < gap - 1 then 1 + (age + 1) else 1 + (gap - 1))
  }

  /** The number of packets written by the snapshot if the first is written before it; none of them is handled by then. */
  function Waiting(age: nat, m: Plan): nat
    requires m.space > 0
  {
    if m.first < 1 + age then (1 + age - m.first) / m.space + 1 else 0
  }

  /** Everything up to the tick that gets the lock for the last time. */
  ghost predicate Prepared(p: Pace, before: seq<Event>, age: nat, m: Plan) {
    var b := Run(p, Begin(), before);
    Story(p, before, m, 0) && Silent(b.w, 1) && b.w.now == 1 + age
  }

  /** The end of that tick. */
  ghost predicate TickDone(p: Pace, before: seq<Event>, after: seq<Event>, age: nat, m: Plan) {
    var b, t := Run(p, Begin(), before), Run(p, Begin(), after);
    && Story(p, after, m, 0) && t.w.now == t.at == 1 + age && t.snap == View(1) && t.completed == b.completed + 1
  }

  lemma Prepare(p: Pace, gap: nat, delay: nat, failures: nat, age: nat, m: Plan)
      returns (before: seq<Event>, tick: Event, pass: seq<Event>)
    requires Chosen(p, gap, delay, failures, age, m)
    ensures Prepared(p, before, age, m) && tick.Tick? && tick.taken == Some(View(1)) && Lockless(pass)
    ensures TickDone(p, before, before + ([tick] + pass), age, m)
  {
    hide Story, Run, PacketOf;
    TalkerStory(p, m);
    var es := SilentTicks(p, StartTalker(1), m, 1 + age);
    var s := Run(p, Begin(), es);
    var wait := Work(S.AAdvance(1 + age - s.w.now));
    SilentSnapshot(p, es, m, 1 + age);
    StoryReady(p, es, m, 0);
    TickPasses(p, es, m, 0, 1 + age, Some(View(1)));
    Later(p, es, m, 0, 1 + age - s.w.now);
    before := es + [wait];
    var to := 1 + age;
    var r := Received(s, to, Some(View(1)));
    tick, pass := Tick(Some(View(1)), to * 1000), [DogTurn(r, AllAt(to))] + [Answer(true)];
    assert es + CycleEvents(s, to, Some(View(1))) == before + ([tick] + pass);
  }

  lemma StoryReady(p: Pace, es: seq<Event>, m: Plan, count: nat)
    requires Story(p, es, m, count)
    ensures var s := Run(p, Begin(), es); Ready(p, s) && Talks(s.w, count) && s.passes == s.completed
  {
  }

  lemma SilentSnapshot(p: Pace, es: seq<Event>, m: Plan, to: nat)
    requires Story(p, es, m, 0) && Silent(Run(p, Begin(), es).w, 1)
    ensures SnapshotOf(View(1), Run(p, Begin(), es).w.(now := to))
  {
    hide Run, Handed;
    var w := Run(p, Begin(), es).w;
    TalksLater(w, 0, to);
    TalksSnapshot(w.(now := to), 0, 1);
  }

  /** After the tick that got the lock: the talker beats on, all but the last failing tick pass, the last one is unhealthy. */
  lemma Overdue(p: Pace, es: seq<Event>, gap: nat, delay: nat, failures: nat, age: nat, m: Plan)
      returns (tail: seq<Event>, count: nat)
    requires Chosen(p, gap, delay, failures, age, m) && Story(p, es, m, 0)
    requires var t := Run(p, Begin(), es); t.w.now == t.at == 1 + age && t.snap == View(1)
    ensures Lockless(tail) && Ended(p, Run(p, Begin(), es), es + tail, m, count, failures)
  {
    hide Story, Run, Lockless, HealthBit;
    StoryReady(p, es, m, 0);
    var caught, n1 := CatchUp(p, es, m, 0);
    var fails, n2 := FailingTicks(p, es + caught, m, n1, 1, failures - 1);
    var beats, n3 := BeatOn(p, es + caught + fails, m, n2, p.gap);
    var end := es + caught + fails + beats;
    var s := Run(p, Begin(), end);
    count := n3;
    CurrentReady(p, end, m, count);
    LateTick(p, end, 1);
    NextAt(m, 0);
    var e := Tick(None, s.w.now * 1000);
    tail := caught + (fails + (beats + [e]));
    assert es + tail == end + [e];
    LastLockless(e);
    JoinLockless(beats, [e]);
    JoinLockless(fails, beats + [e]);
    JoinLockless(caught, fails + (beats + [e]));
  }

  /** The talker has beaten to the end, where the packet that goes out says unhealthy. */
  ghost predicate Ended(p: Pace, t: Sys, es: seq<Event>, m: Plan, count: nat, failures: nat) {
    var s := Run(p, Begin(), es);
    && s.phase == Sent && s.w.now == s.at && !HealthBit(s) && s.passes == s.completed == t.completed + failures - 1
    && t.w.now < s.w.now && Talks(s.w, count) && Handed(Acts(p, es), m, count)
    && count > 0 && m.At(count - 1) <= s.w.now < m.At(count) && ProgressFrom(s.w, 0, m.At(count - 1))
  }

  lemma CurrentReady(p: Pace, es: seq<Event>, m: Plan, count: nat)
    requires Current(p, es, m, count)
    ensures var s := Run(p, Begin(), es);
      Ready(p, s) && s.passes == s.completed && Talks(s.w, count) && Handed(Acts(p, es), m, count)
  {
    hide Handed, Run, Ready, Talks;
  }

  lemma LastLockless(e: Event)
    requires e.Tick? && e.taken.None?
    ensures Lockless([e])
  {
  }

  lemma JoinLockless(a: seq<Event>, b: seq<Event>)
    requires Lockless(a) && Lockless(b)
    ensures Lockless(a + b)
  {
  }

  // ---------------------------------------------------------------- the bound

  /** Whenever a beating node's longest age and the ticks without the lock reach 40 ms, some run makes a false report. */
  lemma BoundIsTight(p: Pace, space: nat, gap: nat, delay: nat, failures: nat)
      returns (es: seq<Event>, k: nat, written: map<S.NodeId, seq<nat>>, later: map<S.NodeId, seq<nat>>)
    requires 0 < p.gap < 50_000 && 0 < space < gap && space <= 40_000 && failures >= 1
    requires After(0, failures - 1, p.gap) < 40_000 <= LongestAge(gap, delay) + After(0, failures, p.gap)
    ensures FalseReport(p, es, k, written, later, space, gap, delay, failures)
  {
    hide Run, LastLock, AllBeat, StayedHealthy, HealthBit, Story, Handed, Talks, Lockless, After, LongestAge, Silent, Packets, Spaced;
    var age, m := Choose(p, space, gap, delay, failures);
    var before, tick, pass := Prepare(p, gap, delay, failures, age, m);
    var after := before + ([tick] + pass);
    var tail, count := Overdue(p, after, gap, delay, failures, age, m);
    es, k := before + ([tick] + (pass + tail)), |before|;
    assert es == after + tail;
    written, later := map[0 := Packets(m, Waiting(age, m))], map[0 := Packets(m, count)];
    JoinLockless(pass, tail);
    LockThere(p, before, tick, pass + tail, age, m);
    BeatsBefore(p, before, gap, delay, failures, age, m);
    BeatsAfter(p, es, Run(p, Begin(), after), m, count, failures, gap, delay);
    PacketsSpaced(m, count, gap);
    Joined(p, before, es, age, m, count, Run(p, Begin(), after), failures);
  }

  lemma Choose(p: Pace, space: nat, gap: nat, delay: nat, failures: nat) returns (age: nat, m: Plan)
    requires 0 < p.gap < 50_000 && 0 < space < gap && space <= 40_000 && failures >= 1
    requires After(0, failures - 1, p.gap) < 40_000 <= LongestAge(gap, delay) + After(0, failures, p.gap)
    ensures Chosen(p, gap, delay, failures, age, m) && m.space == space
  {
    var room := STALE - 1 - After(0, failures - 1, p.gap);
    OneMore(0, failures - 1, p.gap);
    age := if LongestAge(gap, delay) < room then LongestAge(gap, delay) else room;
    m := Plan(1, if age + 1 < gap - 1 then 1 + (age + 1) else 1 + (gap - 1), space);
    Shifted(1 + age, failures - 1, p.gap);
  }

  lemma Shifted(from: nat, k: nat, gap: nat)
    ensures After(from, k, gap) == from + After(0, k, gap)
  {
  }

  lemma LockThere(p: Pace, before: seq<Event>, tick: Event, after: seq<Event>, age: nat, m: Plan)
    requires Prepared(p, before, age, m) && tick.Tick? && tick.taken == Some(View(1)) && Lockless(after)
    ensures var es := before + ([tick] + after); es[..|before|] == before && LastLock(p, Begin(), es, |before|)
  {
    var w := Run(p, Begin(), before).w;
    StoryReady(p, before, m, 0);
    TalksFree(w, 0);
    TalksSnapshot(w, 0, 1);
    LastLockAt(p, Begin(), before, tick, after);
  }

  /** The last waiting packet was written by the snapshot, the next one comes after it. */
  lemma WaitingFits(age: nat, m: Plan)
    requires m.space > 0 && m.first < 1 + age
    ensures var n := Waiting(age, m); n > 0 && m.At(n - 1) <= 1 + age < m.At(n)
  {
    var n := (1 + age - m.first) / m.space;
    assert 1 + age - m.first == n * m.space + (1 + age - m.first) % m.space;
    NextAt(m, n);
  }

  lemma BeatsBefore(p: Pace, before: seq<Event>, gap: nat, delay: nat, failures: nat, age: nat, m: Plan)
    requires Chosen(p, gap, delay, failures, age, m) && Prepared(p, before, age, m)
    ensures AllBeat(p, Begin(), before, map[0 := Packets(m, Waiting(age, m))], gap, delay)
  {
    hide After, Run, Handed, Talks, AllBeat, Beats;
    var n := Waiting(age, m);
    if n > 0 {
      WaitingFits(age, m);
      NextAt(m, n - 1);
      NextAt(m, 0);
    }
    hide Waiting;
    StoryWorld(p, before);
    TalkerBeats(Acts(p, before), m, 0, n, gap, delay);
    AllBeatOne(p, before, Packets(m, n), gap, delay, 0);
  }

  lemma BeatsAfter(p: Pace, es: seq<Event>, t: Sys, m: Plan, count: nat, failures: nat, gap: nat, delay: nat)
    requires Ended(p, t, es, m, count, failures) && 0 < m.space < gap && m.first < m.launch + gap
    ensures AllBeat(p, Begin(), es, map[0 := Packets(m, count)], gap, delay)
  {
    hide Run, Handed, Talks, HealthBit, AllBeat, Beats;
    StoryWorld(p, es);
    NextAt(m, count - 1);
    TalkerBeats(Acts(p, es), m, count, count, gap, delay);
    AllBeatOne(p, es, Packets(m, count), gap, delay, count);
  }

  lemma WrittenIsPrefix(age: nat, m: Plan, count: nat, now: nat)
    requires m.space > 0 && 1 + age <= now < m.At(count)
    ensures Packets(m, Waiting(age, m)) <= Packets(m, count)
  {
    if m.first < 1 + age {
      WaitingFits(age, m);
      if count < Waiting(age, m) { AtGrows(m, count, Waiting(age, m) - 1); }
    }
  }

  lemma Joined(p: Pace, before: seq<Event>, es: seq<Event>, age: nat, m: Plan, count: nat, t: Sys, failures: nat)
    requires Prepared(p, before, age, m) && Ended(p, t, es, m, count, failures) && failures >= 1
    requires 0 < m.space <= STALE && t.w.now == 1 + age
    ensures StayedHealthy(Run(p, Begin(), before), Run(p, Begin(), es),
                          map[0 := Packets(m, Waiting(age, m))], map[0 := Packets(m, count)])
  {
    hide Run, Running, Watched, Waiting, Packets, Handed, HealthBit;
    var b, s := Run(p, Begin(), before), Run(p, Begin(), es);
    StoryReady(p, before, m, 0);
    TalksWatched(b.w, 0);
    TalksWatched(s.w, count);
    WrittenIsPrefix(age, m, count, s.w.now);
    NextAt(m, count - 1);
  }

  /**
   * Exactly when a healthy node can be reported unhealthy: failed lock attempts that fit in
   * 40 ms by themselves can make a false report if and only if they do not fit in it together
   * with the longest age of a beating node, whatever the least distance of its packets.
   */
  lemma {:induction false} FalseReportIff(p: Pace, space: nat, gap: nat, delay: nat, failures: nat)
    requires p.reply <= p.gap && 0 < p.gap < 50_000 && 0 < space < gap && space <= 40_000
    requires failures >= 1 && After(0, failures - 1, p.gap) < 40_000
    ensures (exists es, k, written, later :: FalseReport(p, es, k, written, later, space, gap, delay, failures))
       <==> LongestAge(gap, delay) + After(0, failures, p.gap) >= 40_000
  {
    hide FalseReport, After, LongestAge;
    if LongestAge(gap, delay) + After(0, failures, p.gap) >= 40_000 {
      var es, k, written, later := BoundIsTight(p, space, gap, delay, failures);
    } else {
      forall es, k, written, later ensures !FalseReport(p, es, k, written, later, space, gap, delay, failures) {
        TrueReport(p, es, k, written, later, space, gap, delay, failures);
      }
    }
  }

  lemma TrueReport(p: Pace, es: seq<Event>, k: nat, written: map<S.NodeId, seq<nat>>, later: map<S.NodeId, seq<nat>>,
                   space: nat, gap: nat, delay: nat, failures: nat)
    requires p.reply <= p.gap && LongestAge(gap, delay) + After(0, failures, p.gap) < 40_000
    ensures !FalseReport(p, es, k, written, later, space, gap, delay, failures)
  {
    hide Run, AllBeat, StayedHealthy, HealthBit;
    if FalseReport(p, es, k, written, later, space, gap, delay, failures) {
      SinceLock(p, D.Init(50, 0), es, k);
      Shifted(Run(p, Begin(), es[..k]).w.now, failures, p.gap);
      HealthHolds(p, D.Init(50, 0), es, k, written, gap, delay, After(0, failures, p.gap));
    }
  }

  /**
   * A runtime that writes a packet every 10 ms or more, as wait_until does, and ticks every
   * 10 ms: two failed attempts are tolerated (TwoFailuresTolerated), three are not.
   */
  lemma ThreeFailuresAreNot(p: Pace, slack: nat, delay: nat)
      returns (es: seq<Event>, k: nat, written: map<S.NodeId, seq<nat>>, later: map<S.NodeId, seq<nat>>)
    requires p.gap == 10_000
    ensures FalseReport(p, es, k, written, later, 10_000, 15_000 + 5 * slack, delay, 3)
  {
    es, k, written, later := BoundIsTight(p, 10_000, 15_000 + 5 * slack, delay, 3);
  }
}
