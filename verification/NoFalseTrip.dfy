/**
 * A healthy runtime does not trip the E-Stop (crates/rosplus_core/src/heartbeat.rs:36-55,
 * pkg/server/process.go:268-283, pkg/server/safety.go:78-117): while the packets of every
 * watched node keep coming, the age the safety loop computes stays below the gap between
 * packets, their delay, and the ticks since the lock was last got.
 */
module NoFalseTrip {
  import opened Outcomes
  import S = Supervision
  import I = SupervisionInvariant
  import D = Watchdog
  import H = Heartbeat
  import opened SafetyLoop
  import opened SafetyProtocol
  import opened Stalls
  import opened Tracking
  import opened Unwatched

  /** The process was launched less than gap before its first packet, or before now if it has written none. */
  ghost predicate StartsInTime(acts: seq<S.Action>, c: S.ProcId, at: seq<nat>, gap: nat) {
    exists launch: nat :: LaunchedAt(acts, c, launch)
      && (if at == [] then S.Run(S.Init(true), acts).now else at[0]) < launch + gap
  }

  /**
   * Process c beats at the end of the supervisor's run: it has written packets at the given
   * instants, less than gap apart, none is overdue, and they are handled within the delay. As
   * long as no packet has had its delay, the launch of the process counts as one.
   */
  ghost predicate Beats(acts: seq<S.Action>, c: S.ProcId, at: seq<nat>, gap: nat, delay: nat) {
    var now := S.Run(S.Init(true), acts).now;
    && Delivers(acts, c, at, delay) && H.Closer(at, gap)
    && (at != [] ==> at[|at|-1] <= now < at[|at|-1] + gap)
    && (at == [] || now < at[0] + delay ==> StartsInTime(acts, c, at, gap))
  }

  /** The oldest progress time of a node that beats: its next packet has just not been handled. */
  function LongestAge(gap: nat, delay: nat): int { gap - 1 + (if delay > 0 then delay - 1 else 0) }

  lemma {:induction false} CloserAscends(at: seq<nat>, gap: nat)
    requires H.Closer(at, gap)
    ensures Ascending(at)
    decreases |at|
  {
    if |at| > 1 {
      var front := at[..|at|-1];
      CloserAscends(front, gap);
      assert at[|at|-2] <= at[|at|-1];
      forall i, j | 0 <= i < j < |at| ensures at[i] <= at[j] {
        assert i < |front| && at[i] == front[i];
        if j < |front| {
          assert front[i] <= front[j];
        } else {
          assert i < |at| - 2 ==> front[i] <= front[|at|-2];
        }
      }
    }
  }

  /** A watched node that beats has recent progress, also when it has just been launched. */
  lemma BeatingIsRecent(acts: seq<S.Action>, n: S.NodeId, at: seq<nat>, gap: nat, delay: nat)
    requires n in Watched(S.Run(S.Init(true), acts))
    requires var w := S.Run(S.Init(true), acts); Beats(acts, w.nodes[n].cmd, at, gap, delay)
    ensures var w := S.Run(S.Init(true), acts);
      w.nodes[n].lastProgress.Some? && w.now <= w.nodes[n].lastProgress.value + LongestAge(gap, delay)
  {
    var w := S.Run(S.Init(true), acts);
    var c := w.nodes[n].cmd;
    SafetyStays(acts);
    assert I.NodeOk(w, n);
    if at == [] || w.now < at[0] + delay {
      var launch: nat :| LaunchedAt(acts, c, launch) && (if at == [] then w.now else at[0]) < launch + gap;
      LaunchTracks(acts, n, c, launch);
    } else {
      H.NewestDelivered(at, gap, delay, LongestAge(gap, delay), w.now);
      var i :| 0 <= i < |at| && at[i] + delay <= w.now <= at[i] + LongestAge(gap, delay);
      CloserAscends(at, gap);
      ProgressTracks(acts, n, c, at, delay, i);
    }
  }

  /** If every watched node beats when the snapshot is taken, it stays healthy for a while. */
  lemma HealthLasts(acts: seq<S.Action>, snap: Snapshot, packets: map<S.NodeId, seq<nat>>, gap: nat, delay: nat, late: nat,
                    now: nat)
    requires SnapshotOf(snap, S.Run(S.Init(true), acts))
    requires var w := S.Run(S.Init(true), acts);
      forall n :: n in Watched(w) ==> n in packets && Beats(acts, w.nodes[n].cmd, packets[n], gap, delay)
    requires now <= S.Run(S.Init(true), acts).now + late && LongestAge(gap, delay) + late < 40_000
    ensures Healthy(snap, now)
  {
    var w := S.Run(S.Init(true), acts);
    if snap.oldest.Some? {
      var n :| n in Watched(w) && w.nodes[n].lastProgress == snap.oldest;
      BeatingIsRecent(acts, n, packets[n], gap, delay);
    }
  }

  // ---------------------------------------------------------------- ticks without the lock

  /** At most k ticks, at most gap apart, after the time `from`. */
  function After(from: nat, k: nat, gap: nat): nat { from + k * gap }

  lemma OneMore(from: nat, k: nat, gap: nat)
    ensures After(from, k + 1, gap) == After(from, k, gap) + gap
  {
  }

  /** The snapshot was taken at `from`, when `base` ticks were completed, and no tick got the lock since. */
  predicate Aging(p: Pace, t: Sys, snap: Snapshot, from: nat, base: nat) {
    && t.snap == snap && base <= t.completed
    && (t.phase == Sent ==> t.at <= After(from, t.completed - base, p.gap))
    && (t.phase == Idle ==> base < t.completed && t.at <= After(from, t.completed - base - 1, p.gap))
  }

  lemma AgingStep(p: Pace, t: Sys, e: Event, snap: Snapshot, from: nat, base: nat)
    requires Sane(p, t) && Aging(p, t, snap, from, base)
    requires e.Tick? && e.taken.Some? ==> !(t.phase == Idle && S.LockFree(t.w) && SnapshotOf(e.taken.value, t.w))
    ensures Aging(p, Next(p, t, e), snap, from, base)
  {
    if t.phase == Idle {
      OneMore(from, t.completed - base - 1, p.gap);
    }
  }

  lemma {:induction false} AgingRun(p: Pace, s: Sys, es: seq<Event>, k: nat)
    requires Sane(p, s) && LastLock(p, s, es, k)
    ensures var b := Run(p, s, es[..k]);
      Aging(p, Run(p, s, es), es[k].taken.value, b.w.now, b.completed)
    decreases |es|
  {
    var last := |es| - 1;
    var front, e := es[..last], es[last];
    RunOk(p, s, front);
    assert es == front + [e];
    if last > k {
      LastLockFront(p, s, front, e, k);
      assert front[..k] == es[..k];
      AgingRun(p, s, front, k);
      assert !GotLock(p, s, es, last);
      AgingStep(p, Run(p, s, front), e, es[k].taken.value, Run(p, s, es[..k]).w.now, Run(p, s, es[..k]).completed);
    }
  }

  /** What a run of the protocol keeps, seen from the latest tick that got the lock. */
  lemma {:induction false} SinceLock(p: Pace, dog: D.Dog, es: seq<Event>, k: nat)
    requires p.reply <= p.gap && LastLock(p, Start(S.Init(true), dog), es, k)
    ensures var s0 := Start(S.Init(true), dog);
      var b, s := Run(p, s0, es[..k]), Run(p, s0, es);
      && Sane(p, s) && Aging(p, s, es[k].taken.value, b.w.now, b.completed)
      && b.w == S.Run(S.Init(true), ActsOf(p, s0, es[..k])) && SnapshotOf(s.snap, b.w)
  {
    var s0 := Start(S.Init(true), dog);
    I.InitInv(true);
    StartOk(p, S.Init(true), dog);
    RunOk(p, s0, es);
    AgingRun(p, s0, es, k);
    SupervisorRuns(p, s0, es[..k]);
  }

  /** All native nodes that run unmarked at the end of the events beat. */
  ghost predicate AllBeat(p: Pace, s: Sys, es: seq<Event>, packets: map<S.NodeId, seq<nat>>, gap: nat, delay: nat) {
    forall n :: n in Watched(Run(p, s, es).w) ==>
      n in packets && Beats(ActsOf(p, s, es), Run(p, s, es).w.nodes[n].cmd, packets[n], gap, delay)
  }

  /**
   * No false trip: in every run of the protocol from the start of the server, if all native
   * nodes that the latest snapshot watches beat when it was taken, the packet that is out has
   * its health bit set, provided the longest age of a beating node and that of the snapshot
   * fit in 40 ms. Nodes that have just been launched are covered by their launch.
   */
  lemma {:induction false} HealthHolds(p: Pace, dog: D.Dog, es: seq<Event>, k: nat, packets: map<S.NodeId, seq<nat>>,
                                       gap: nat, delay: nat, late: nat)
    requires p.reply <= p.gap && LastLock(p, Start(S.Init(true), dog), es, k)
    requires AllBeat(p, Start(S.Init(true), dog), es[..k], packets, gap, delay)
    requires var s0 := Start(S.Init(true), dog);
      Run(p, s0, es).phase == Sent && Run(p, s0, es).at <= Run(p, s0, es[..k]).w.now + late
    requires LongestAge(gap, delay) + late < 40_000
    ensures HealthBit(Run(p, Start(S.Init(true), dog), es))
  {
    var s0 := Start(S.Init(true), dog);
    SinceLock(p, dog, es, k);
    HealthLasts(ActsOf(p, s0, es[..k]), Run(p, s0, es).snap, packets, gap, delay, late, Run(p, s0, es).at);
  }

  /**
   * Runtimes that wait in wait_until, whose scheduling slack and delivery delay fit in 5 ms (and 1 us),
   * and ticks at most 10 ms apart: two failed lock attempts in a row are always tolerated.
   */
  lemma {:induction false} TwoFailuresTolerated(p: Pace, dog: D.Dog, es: seq<Event>, k: nat, packets: map<S.NodeId, seq<nat>>,
                                                slack: nat, delay: nat)
    requires p.reply <= p.gap <= 10_000 && 5 * slack + delay <= 5_001 && LastLock(p, Start(S.Init(true), dog), es, k)
    requires AllBeat(p, Start(S.Init(true), dog), es[..k], packets, 15_000 + 5 * slack, delay)
    requires var s0 := Start(S.Init(true), dog);
      Run(p, s0, es).phase == Sent && Run(p, s0, es).completed <= Run(p, s0, es[..k]).completed + 2
    ensures HealthBit(Run(p, Start(S.Init(true), dog), es))
  {
    hide Run, AllBeat, Aging, Watched, HealthBit;
    var s0 := Start(S.Init(true), dog);
    var b, s := Run(p, s0, es[..k]), Run(p, s0, es);
    SinceLock(p, dog, es, k);
    AtMostTwo(p, s, es[k].taken.value, b.w.now, b.completed);
    HealthHolds(p, dog, es, k, packets, 15_000 + 5 * slack, delay, 20_000);
  }

  lemma AtMostTwo(p: Pace, t: Sys, snap: Snapshot, from: nat, base: nat)
    requires Aging(p, t, snap, from, base) && t.phase == Sent && t.completed <= base + 2 && p.gap <= 10_000
    ensures t.at <= from + 20_000
  {
    var k := t.completed - base;
    assert k == 0 || k == 1 || k == 2;
  }
}
