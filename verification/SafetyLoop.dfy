/**
 * The supervisor's safety loop (pkg/server/safety.go:72-158): the snapshot it takes when
 * it gets the server lock, the health bit it derives from the latest snapshot, and the
 * loop that sends, waits for the answer, and latches. Times are in microseconds.
 */
module SafetyLoop {
  import opened Outcomes
  import S = Supervision
  import I = SupervisionInvariant
  import E = EStop
  import Server
  import Packet

  /** An executor whose progress is this old is stale: 40 ms. */
  const STALE: nat := 40_000

  // ---------------------------------------------------------------- the zero time as "no minimum yet"

  /** Time.Before, where None is the zero time. */
  predicate Before(a: Option<nat>, b: Option<nat>) {
    b.Some? && (a.None? || a.value < b.value)
  }

  /** One turn of the minimum loop: the zero time stands for "none yet". */
  function Older(oldest: Option<nat>, progress: Option<nat>): Option<nat> {
    if oldest.None? || Before(progress, oldest) then progress else oldest
  }

  function Fold(list: seq<Option<nat>>): Option<nat>
    decreases |list|
  {
    if list == [] then None else Older(Fold(list[..|list|-1]), list[|list|-1])
  }

  predicate IsOldest(list: seq<Option<nat>>, m: Option<nat>) {
    m in list && forall x :: x in list ==> !Before(x, m)
  }

  /**
   * The loop finds the oldest progress exactly when no node has the zero time or the node
   * it visits last has it: a zero time followed by another node is forgotten.
   */
  lemma {:induction false} OldestIff(list: seq<Option<nat>>)
    requires list != []
    ensures IsOldest(list, Fold(list)) <==> None !in list || list[|list|-1] == None
    decreases |list|
  {
    var front, x := list[..|list|-1], list[|list|-1];
    assert list == front + [x];
    if front != [] {
      OldestIff(front);
      FoldNone(front);
    }
  }

  lemma {:induction false} FoldNone(list: seq<Option<nat>>)
    requires list != []
    ensures Fold(list) == None <==> list[|list|-1] == None
    ensures None !in list ==> Fold(list) in list
    decreases |list|
  {
    var front := list[..|list|-1];
    if front != [] {
      FoldNone(front);
    }
  }

  // ---------------------------------------------------------------- the snapshot

  datatype Snapshot = Snapshot(count: nat, native: nat, oldest: Option<nat>)

  function Running(w: S.World): set<S.NodeId> {
    set n | n in w.nodes && w.nodes[n].ws in w.items && w.nodes[n].status == S.Running
  }

  predicate IsWatched(x: S.Node) { x.native && !x.stopping }

  /** The native nodes whose progress counts: running and not stopping. */
  function Watched(w: S.World): set<S.NodeId> {
    set n | n in Running(w) && IsWatched(w.nodes[n])
  }

  /** oldest is the oldest progress time of the given nodes, None if there are none. */
  ghost predicate OldestOf(w: S.World, seen: set<S.NodeId>, oldest: Option<nat>)
    requires seen <= w.nodes.Keys
  {
    && (seen == {} <==> oldest.None?)
    && (forall n :: n in seen ==> w.nodes[n].lastProgress.Some?
                                  && (oldest.Some? ==> oldest.value <= w.nodes[n].lastProgress.value))
    && (oldest.Some? ==> exists n :: n in seen && w.nodes[n].lastProgress == oldest)
  }

  ghost predicate SnapshotOf(snap: Snapshot, w: S.World) {
    snap.count == |Running(w)| && snap.native == |Watched(w)| && OldestOf(w, Watched(w), snap.oldest)
  }

  /** What the snapshot relies on: listed nodes belong to their workspace, running ones are listed, native ones have a progress time. */
  ghost predicate Regular(w: S.World) {
    && w.items <= w.spaces.Keys
    && (forall v, n :: v in w.spaces && n in w.spaces[v].Values ==> n in w.nodes && w.nodes[n].ws == v)
    && (forall n :: n in Running(w) ==> n in w.spaces[w.nodes[n].ws].Values)
    && (forall n :: n in w.nodes && w.nodes[n].native ==> w.nodes[n].lastProgress.Some?)
  }

  /** It holds in every reachable state of a server whose safety monitor was started first. */
  lemma InvRegular(w: S.World)
    requires I.Inv(w) && w.hasSafety
    ensures Regular(w)
  {
    forall v, n | v in w.spaces && n in w.spaces[v].Values ensures n in w.nodes && w.nodes[n].ws == v {
      assert I.SpaceOk(w, v);
      var k :| k in w.spaces[v] && w.spaces[v][k] == n;
    }
    forall n | n in Running(w) ensures n in w.spaces[w.nodes[n].ws].Values {
      assert I.NodeOk(w, n);
      assert w.spaces[w.nodes[n].ws][w.nodes[n].name] == n;
    }
    forall n | n in w.nodes && w.nodes[n].native ensures w.nodes[n].lastProgress.Some? { assert I.NodeOk(w, n); }
  }

  function WatchedAmong(w: S.World, running: set<S.NodeId>): set<S.NodeId>
    requires running <= w.nodes.Keys
  {
    set n | n in running && IsWatched(w.nodes[n])
  }

  /** The counters after the nodes in `running` were visited. */
  ghost predicate Counted(w: S.World, running: set<S.NodeId>, count: nat, native: nat, oldest: Option<nat>) {
    && running <= Running(w) && count == |running|
    && native == |WatchedAmong(w, running)| && OldestOf(w, WatchedAmong(w, running), oldest)
  }

  lemma CountOne(w: S.World, running: set<S.NodeId>, n: S.NodeId, count: nat, native: nat, oldest: Option<nat>)
    requires Counted(w, running, count, native, oldest) && n in Running(w) && n !in running
    requires w.nodes[n].native ==> w.nodes[n].lastProgress.Some?
    ensures var x := w.nodes[n];
      if IsWatched(x) then Counted(w, running + {n}, count + 1, native + 1, Older(oldest, x.lastProgress))
      else Counted(w, running + {n}, count + 1, native, oldest)
  {
    var seen := WatchedAmong(w, running);
    if IsWatched(w.nodes[n]) {
      assert WatchedAmong(w, running + {n}) == seen + {n};
      var m := Older(oldest, w.nodes[n].lastProgress);
      assert exists k :: k in seen + {n} && w.nodes[k].lastProgress == m by {
        assert n in seen + {n};
        if m == oldest && oldest.Some? {
          var k :| k in seen && w.nodes[k].lastProgress == oldest;
          assert k in seen + {n};
        }
      }
    } else {
      assert WatchedAmong(w, running + {n}) == seen;
    }
  }

  /** `running` holds the running nodes of all listed workspaces outside `todo`. */
  ghost predicate Visited(w: S.World, running: set<S.NodeId>, todo: set<S.WorkspaceId>) {
    forall n :: n in running <==> n in Running(w) && w.nodes[n].ws !in todo
  }

  /** The inner loop: the nodes of one workspace. */
  method CountSpace(s: Server.Server, v: S.WorkspaceId, count0: nat, native0: nat, oldest0: Option<nat>,
                    ghost seen: set<S.NodeId>, ghost todo: set<S.WorkspaceId>)
      returns (count: nat, native: nat, oldest: Option<nat>, ghost running: set<S.NodeId>)
    requires s.Valid() && Regular(s.Abs()) && v in s.items && v !in todo
    requires Visited(s.Abs(), seen, todo + {v}) && Counted(s.Abs(), seen, count0, native0, oldest0)
    ensures Visited(s.Abs(), running, todo) && Counted(s.Abs(), running, count, native, oldest)
  {
    hide Counted;
    ghost var w := s.Abs();
    count, native, oldest, running := count0, native0, oldest0, seen;
    var rest := s.spaces[v].Values;
    while rest != {}
      invariant rest <= s.spaces[v].Values
      invariant forall n :: n in running <==> n in Running(w) && w.nodes[n].ws !in todo && n !in rest
      invariant Counted(w, running, count, native, oldest)
    {
      var n :| n in rest;
      rest := rest - {n};
      var x := s.nodes[n];
      assert x.Value() == w.nodes[n];
      if x.status == S.Running {
        CountOne(w, running, n, count, native, oldest);
        count := count + 1;
        running := running + {n};
        if x.native && !x.stopping {
          native := native + 1;
          if oldest.None? || Before(x.lastProgress, oldest) {
            oldest := x.lastProgress;
          }
        }
      }
    }
  }

  lemma CountedNone(w: S.World)
    requires Regular(w)
    ensures Counted(w, {}, 0, 0, None) && Visited(w, {}, w.items)
  {
    assert WatchedAmong(w, {}) == {};
  }

  lemma CountedAll(w: S.World, running: set<S.NodeId>, count: nat, native: nat, oldest: Option<nat>)
    requires Counted(w, running, count, native, oldest) && Visited(w, running, {})
    ensures SnapshotOf(Snapshot(count, native, oldest), w)
  {
    assert running == Running(w) && WatchedAmong(w, running) == Watched(w);
  }

  /** The loop over all nodes of all workspaces, in any order. */
  method TakeSnapshot(s: Server.Server) returns (snap: Snapshot)
    requires s.Valid() && Regular(s.Abs())
    ensures SnapshotOf(snap, s.Abs())
  {
    hide Counted, Visited, Regular, SnapshotOf;
    var count, native, oldest := 0, 0, None;
    ghost var w, running := s.Abs(), {};
    CountedNone(w);
    var todo := s.items;
    while todo != {}
      invariant todo <= s.items && Visited(w, running, todo)
      invariant Counted(w, running, count, native, oldest)
    {
      var v :| v in todo;
      assert (todo - {v}) + {v} == todo;
      todo := todo - {v};
      count, native, oldest, running := CountSpace(s, v, count, native, oldest, running, todo);
    }
    CountedAll(w, running, count, native, oldest);
    snap := Snapshot(count, native, oldest);
  }

  // ---------------------------------------------------------------- the health bit

  /** executorHealthy, or no native node at all. */
  predicate Healthy(snap: Snapshot, now: nat) {
    snap.native == 0 || (snap.oldest.Some? && now - snap.oldest.value < STALE)
  }

  function Flags(snap: Snapshot, now: nat): nat { if Healthy(snap, now) then 3 else 1 }

  function PacketOf(snap: Snapshot, now: nat, wall: nat): seq<Packet.byte> {
    Packet.Encode(Packet.Fields(wall, snap.count, Flags(snap, now)))
  }

  /** The watchdog reads the health bit as it was set. */
  lemma FlagsArrive(snap: Snapshot, now: nat, wall: nat)
    ensures Packet.Decode(PacketOf(snap, now, wall)).Some?
    ensures Packet.Good(Packet.Decode(PacketOf(snap, now, wall)).value.flags) <==> Healthy(snap, now)
  {
    Packet.RoundTrip(Packet.Fields(wall, snap.count, Flags(snap, now)));
  }

  predicate ProgressedSince(x: S.Node, now: nat) {
    x.lastProgress.Some? && now - x.lastProgress.value < STALE
  }

  /** With a fresh snapshot the health bit is exact: set iff every watched node has progress newer than 40 ms. */
  lemma HealthIff(snap: Snapshot, w: S.World, now: nat)
    requires SnapshotOf(snap, w)
    ensures Healthy(snap, now) <==> forall n :: n in Watched(w) ==> ProgressedSince(w.nodes[n], now)
  {
    if snap.oldest.Some? {
      var n :| n in Watched(w) && w.nodes[n].lastProgress == snap.oldest;
      assert Healthy(snap, now) ==> ProgressedSince(w.nodes[n], now);
    }
  }

  // ---------------------------------------------------------------- the same from the nodes' own fields

  /** The watched nodes, in every reachable state: native, running, unmarked, whatever their workspace and policy. */
  lemma WatchedIff(w: S.World, n: S.NodeId)
    requires I.Inv(w) && E.SweptOk(w)
    ensures n in Watched(w) <==>
      n in w.nodes && w.nodes[n].native && w.nodes[n].status == S.Running && !w.nodes[n].stopping
  {
    if n in w.nodes && w.nodes[n].native && w.nodes[n].status == S.Running && !w.nodes[n].stopping {
      assert I.NodeOk(w, n) && I.SpaceOk(w, w.nodes[n].ws);
      assert w.nodes[n].ws !in w.items ==> E.Halted(w, w.nodes[n].ws);
    }
  }

  /** What a snapshot says, in numbers. */
  lemma SnapshotSays(snap: Snapshot, w: S.World)
    requires SnapshotOf(snap, w)
    ensures snap.count == |set n | n in w.nodes && w.nodes[n].ws in w.items && w.nodes[n].status == S.Running|
    ensures snap.native == |set n | n in w.nodes && w.nodes[n].ws in w.items && w.nodes[n].status == S.Running
                                    && w.nodes[n].native && !w.nodes[n].stopping|
  {
    assert Running(w) == set n | n in w.nodes && w.nodes[n].ws in w.items && w.nodes[n].status == S.Running;
    assert Watched(w) == set n | n in w.nodes && w.nodes[n].ws in w.items && w.nodes[n].status == S.Running
                                 && w.nodes[n].native && !w.nodes[n].stopping;
  }

  /**
   * The packet of a tick that got the lock, as the watchdog reads it: flags 3 exactly if every
   * native node that runs unmarked has made progress less than 40 ms ago, else flags 1.
   */
  lemma FreshPacket(snap: Snapshot, w: S.World, now: nat, wall: nat)
    requires I.Inv(w) && E.SweptOk(w) && SnapshotOf(snap, w)
    ensures var recent := forall n :: n in w.nodes && w.nodes[n].native && w.nodes[n].status == S.Running && !w.nodes[n].stopping ==>
        w.nodes[n].lastProgress.Some? && now - w.nodes[n].lastProgress.value < 40_000;
      Packet.Decode(PacketOf(snap, now, wall)) == Some(Packet.Fields(
        wall % 0x1_0000_0000_0000_0000, snap.count % 0x1_0000_0000, if recent then 3 else 1))
  {
    Packet.RoundTrip(Packet.Fields(wall, snap.count, Flags(snap, now)));
    HealthIff(snap, w, now);
    forall n ensures n in Watched(w) <==>
      n in w.nodes && w.nodes[n].native && w.nodes[n].status == S.Running && !w.nodes[n].stopping
    {
      WatchedIff(w, n);
    }
  }

  // ---------------------------------------------------------------- one tick of the loop

  /** The loop's variables, which outlive a tick, and the status it publishes. */
  class Loop {
    var count: nat
    var nativeCount: nat
    var oldestProgress: Option<nat>
    var connected: bool
    var executorHealthy: bool
    var executorCount: nat
    var executorAge: nat

    ghost function Snap(): Snapshot
      reads this
    {
      Snapshot(count, nativeCount, oldestProgress)
    }

    constructor ()
      ensures Snap() == Snapshot(0, 0, None)
    {
      count, nativeCount, oldestProgress := 0, 0, None;
      connected, executorHealthy, executorCount, executorAge := false, false, 0, 0;
    }

    /** The snapshot of a tick: a new one if TryLock succeeds, else the old one stays. */
    method Refresh(s: Server.Server, locked: bool)
      requires s.Valid() && Regular(s.Abs())
      modifies this`count, this`nativeCount, this`oldestProgress
      ensures if locked then SnapshotOf(Snap(), old(s.Abs())) else Snap() == old(Snap())
    {
      if locked {
        var snap := TakeSnapshot(s);
        count, nativeCount, oldestProgress := snap.count, snap.native, snap.oldest;
        assert Snap() == snap;
      }
    }

    /** The packet of a tick, from the latest snapshot, aged on. */
    method Compose(now: nat, wall: nat) returns (packet: seq<Packet.byte>, healthy: bool, age: int)
      ensures packet == PacketOf(Snap(), now, wall) && (healthy <==> Healthy(Snap(), now))
      ensures nativeCount > 0 && oldestProgress.Some? ==> age == now - oldestProgress.value
    {
      age, healthy := 0, true;
      if nativeCount > 0 {
        age := if oldestProgress.Some? then now - oldestProgress.value else now;
        healthy := oldestProgress.Some? && age < STALE;
      }
      var flags := 1;
      if nativeCount == 0 || healthy {
        flags := 3;
      }
      packet := Packet.Encode(Packet.Fields(wall, count, flags));
    }

    /** After the answer: publish the status; latch on an error or any byte but 0. */
    method Conclude(s: Server.Server, answer: Option<Packet.byte>, healthy: bool, age: nat) returns (trip: bool)
      requires s.Valid() && s.hasSafety
      modifies this`connected, this`executorHealthy, this`executorCount, this`executorAge, s`estop
      ensures s.Valid() && s.Abs() == if answer == Some(0) then old(s.Abs()) else S.Latch(old(s.Abs()))
      ensures trip == s.estop && (connected <==> answer.Some?)
      ensures executorCount == nativeCount && (executorHealthy <==> nativeCount > 0 && healthy) && executorAge == age
    {
      connected := answer.Some?;
      executorHealthy, executorCount, executorAge := nativeCount > 0 && healthy, nativeCount, age;
      if answer != Some(0) {
        s.TripSafety();
      }
      trip := s.estop;
    }
  }

  /** One turn of the trip keeps every quiet workspace quiet and adds the one it stops. */
  lemma SweepOne(s: S.World, v: S.WorkspaceId)
    requires I.Inv(s) && s.estop && S.LockFree(s)
    ensures I.Inv(S.Stop(s, v, None))
    ensures forall w: S.WorkspaceId :: E.Quiet(s, w) || w == v ==> E.Quiet(S.Stop(s, v, None), w)
  {
    I.StopInv(s, v, None);
    E.SweepQuiets(s, v);
    forall w: S.WorkspaceId | E.Quiet(s, w) ensures E.Quiet(S.Stop(s, v, None), w) {
      E.QuietStep(s, S.AStop(v, None), w);
    }
  }

  /**
   * The trip: list the workspaces, stop each. Afterwards no workspace, listed or not, can
   * start a process again.
   */
  method Sweep(s: Server.Server)
    requires s.Valid() && s.estop && s.pending.None? && I.Inv(s.Abs()) && E.SweptOk(s.Abs())
    modifies s.nodes.Values
    ensures s.Valid() && forall w: S.WorkspaceId :: E.Quiet(s.Abs(), w)
  {
    hide E.Quiet, I.Inv, S.Stop;
    ghost var first := s.Abs();
    forall w: S.WorkspaceId | w !in s.items ensures E.Quiet(first, w) { E.UnlistedIsQuiet(first, w); }
    var list := s.ListItems();
    var k := 0;
    while k < |list|
      invariant k <= |list| && s.Valid() && s.nodes == old(s.nodes) && I.Inv(s.Abs())
      invariant forall w: S.WorkspaceId :: w !in s.items || w in list[..k] ==> E.Quiet(s.Abs(), w)
    {
      SweepOne(s.Abs(), list[k]);
      var _ := s.Stop(list[k], None);
      assert list[..k+1] == list[..k] + [list[k]];
      k := k + 1;
    }
    assert list[..|list|] == list;
  }
}
