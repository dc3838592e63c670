/**
 * The runtime's progress counter (crates/rosplus_core/src/heartbeat.rs): beats at most
 * every 10 ms, and a wait that keeps beating. Times are in microseconds. The clock object
 * stands for the operating system: reading it and writing to the pipe take up to `slack`,
 * and a sleep lasts its time and up to `slack` more.
 */
module Heartbeat {
  import opened Outcomes

  const PERIOD: nat := 10_000
  const NAP: nat := 5_000
  const WRAP: nat := 0x1_0000_0000_0000_0000

  class Clock {
    const slack: nat
    var now: nat

    constructor (s: nat, start: nat)
      ensures slack == s && now == start
    {
      slack, now := s, start;
    }

    /** Instant::now. */
    method Read() returns (t: nat)
      modifies this
      ensures old(now) <= t == now <= old(now) + slack
    {
      var late: nat :| late <= slack;
      now := now + late;
      t := now;
    }

    method Sleep(d: nat)
      modifies this
      ensures old(now) + d <= now <= old(now) + d + slack
    {
      var late: nat :| late <= slack;
      now := now + d + late;
    }

    /** Sleep towards the deadline, 5 ms at most, and look at the clock again. */
    method Nap(deadline: nat) returns (t: nat)
      modifies this
      ensures old(now) <= t == now <= old(now) + 5_000 + 3 * slack
      ensures old(now) < t || deadline <= t
    {
      var r := Read();
      var remaining := if r < deadline then deadline - r else 0;
      Sleep(if remaining < NAP then remaining else NAP);
      t := Read();
    }
  }

  /** A packet in the pipe: the counter and the instant it was written. */
  datatype Packet = Packet(counter: nat, at: nat)

  /** Packet i carries the counter i + 1, wrapped. */
  ghost predicate Counted(packets: seq<Packet>) {
    forall i :: 0 <= i < |packets| ==> packets[i].counter == (i + 1) % WRAP
  }

  lemma CountedGrows(packets: seq<Packet>, q: Packet)
    requires Counted(packets) && q.counter == (|packets| % WRAP + 1) % WRAP
    ensures Counted(packets + [q]) && q.counter == |packets + [q]| % WRAP
  {
  }

  class Heartbeat {
    const connected: bool
    var counter: nat
    var last: int
    var written: seq<Packet>

    ghost predicate Valid()
      reads this
    {
      && (!connected ==> written == []) && counter == |written| % WRAP && Counted(written)
      && (written != [] ==> written[|written|-1].at <= last)
    }

    /** from_env: the last beat is set one second back, so that the first check beats. */
    constructor (connected: bool, now: nat)
      ensures Valid() && written == [] && this.connected == connected && last == now - 1_000_000
    {
      this.connected, counter, last, written := connected, 0, now - 1_000_000, [];
    }

    /** `last` was read right after the newest packet was written. */
    ghost predicate Steady(slack: nat)
      reads this
    {
      connected ==> written != [] && written[|written|-1].at <= last <= written[|written|-1].at + slack
    }

    /** If the history from index first on has any packet, the next beat comes soon after its last one. */
    ghost predicate Soon(clock: Clock, first: nat, late: nat)
      reads this, clock
    {
      first < |written| ==> Steady(clock.slack) && clock.now - last < 15_000 + late * clock.slack
    }

    /** beat: unless forced, not before 10 ms have passed since the last one. */
    method Beat(clock: Clock, force: bool, ghost first: nat)
      requires Valid() && last <= clock.now && first <= |written|
      requires Dense(written, first, 15_000 + 5 * clock.slack) && Soon(clock, first, 3)
      modifies this, clock
      ensures Valid() && old(clock.now) <= clock.now <= old(clock.now) + 2 * clock.slack
      ensures last <= clock.now < last + 10_000
      ensures written == old(written) || (connected && |written| == |old(written)| + 1 && old(written) <= written)
      ensures written != old(written) ==>
        && old(clock.now) <= written[|old(written)|].at <= old(clock.now) + clock.slack
        && written[|old(written)|].at <= last <= written[|old(written)|].at + clock.slack
        && (force || written[|old(written)|].at - old(last) >= 10_000)
      ensures written == old(written) && connected ==> last == old(last) && !force
      ensures force ==> last == clock.now
      ensures old(Steady(clock.slack)) || written != old(written) ==> Steady(clock.slack)
      ensures Dense(written, first, 15_000 + 5 * clock.slack)
    {
      if !force {
        var t := clock.Read();
        if t - last < PERIOD {
          return;
        }
      }
      if connected {
        counter := (counter + 1) % WRAP;
        CountedGrows(written, Packet(counter, clock.now));
        DenseGrows(written, Packet(counter, clock.now), first, 15_000 + 5 * clock.slack);
        written := written + [Packet(counter, clock.now)];
      }
      last := clock.Read();
    }

    /**
     * wait_until: sleep in naps of at most 5 ms, beating in between. The packets from any
     * index first on stay dense, if the wait begins soon after the last of them; those it
     * writes are dense in any case. When it returns, the newest packet is less than 10 ms
     * (and the slack) old: the next wait begins soon enough if it begins within 5 ms.
     */
    method WaitUntil(clock: Clock, deadline: nat, ghost first: nat)
      requires Valid() && last <= clock.now && first <= |written|
      requires Dense(written, first, 15_000 + 5 * clock.slack) && Soon(clock, first, 2)
      modifies this, clock
      ensures Valid() && deadline <= clock.now && old(written) <= written
      ensures last <= clock.now < last + 10_000
      ensures old(Steady(clock.slack)) || written != old(written) ==> Steady(clock.slack)
      ensures Dense(written, first, 15_000 + 5 * clock.slack)
      ensures Closer(Instants(written[first..]), 15_000 + 5 * clock.slack)
    {
      hide Dense, Counted, Closer;
      var t := clock.Read();
      while t < deadline
        invariant Valid() && last <= t == clock.now && old(written) <= written
        invariant Soon(clock, first, 3) && Dense(written, first, 15_000 + 5 * clock.slack)
        invariant old(Steady(clock.slack)) || written != old(written) ==> Steady(clock.slack)
        decreases deadline - t
      {
        Beat(clock, false, first);
        t := clock.Nap(deadline);
      }
      Beat(clock, false, first);
      DenseIsCloser(written, first, 15_000 + 5 * clock.slack);
    }
  }

  /** Consecutive packets from index first on are in order and less than the gap apart. */
  ghost predicate Dense(packets: seq<Packet>, first: nat, gap: nat) {
    forall i, j :: first <= i < |packets| && j == i + 1 && j < |packets| ==>
      packets[i].at <= packets[j].at < packets[i].at + gap
  }

  lemma DenseGrows(packets: seq<Packet>, q: Packet, first: nat, gap: nat)
    requires Dense(packets, first, gap) && first <= |packets|
    requires first < |packets| ==> packets[|packets|-1].at <= q.at < packets[|packets|-1].at + gap
    ensures Dense(packets + [q], first, gap)
  {
  }

  function Instants(packets: seq<Packet>): (at: seq<nat>)
    ensures |at| == |packets|
  {
    seq(|packets|, i requires 0 <= i < |packets| => packets[i].at)
  }

  /** The instants of dense packets are closer than the gap. */
  lemma DenseIsCloser(packets: seq<Packet>, first: nat, gap: nat)
    requires first <= |packets| && Dense(packets, first, gap)
    ensures Closer(Instants(packets[first..]), gap)
  {
    var at := Instants(packets[first..]);
    forall i, j | 0 <= i && j == i + 1 && j < |at| ensures at[i] <= at[j] < at[i] + gap {
      assert at[i] == packets[first + i].at && at[j] == packets[first + j].at;
    }
  }

  // ---------------------------------------------------------------- the counter

  /** The counter of each packet is above the one before it, except after 2^64 packets, where it wraps to 0. */
  lemma CounterAdvancesIff(written: nat)
    ensures (written + 1) % 0x1_0000_0000_0000_0000 > written % 0x1_0000_0000_0000_0000
       <==> (written + 1) % 0x1_0000_0000_0000_0000 != 0
  {
    var q, r := written / WRAP, written % WRAP;
    assert written == WRAP * q + r;
    if r + 1 == WRAP {
      assert written + 1 == WRAP * (q + 1);
    } else {
      assert written + 1 == WRAP * q + (r + 1);
    }
  }

  // ---------------------------------------------------------------- no false trip

  /** Strictly less than gap between one instant and the next. */
  ghost predicate Closer(at: seq<nat>, gap: nat) {
    forall i, j :: 0 <= i && j == i + 1 && j < |at| ==> at[i] <= at[j] < at[i] + gap
  }

  /**
   * Packets less than gap apart, handled within delay, the last one no older than age: at any
   * time some handled packet is no older than age, if a gap and a delay fit in it.
   */
  lemma {:induction false} NewestDelivered(at: seq<nat>, gap: nat, delay: nat, age: nat, now: nat)
    requires at != [] && Closer(at, gap) && at[0] + delay <= now <= at[|at|-1] + age && gap + delay <= age + 2
    ensures exists i :: 0 <= i < |at| && at[i] + delay <= now <= at[i] + age
    decreases |at|
  {
    var k := |at| - 1;
    if at[k] + delay > now {
      assert at[k-1] <= at[k] < at[k-1] + gap;
      NewestDelivered(at[..k], gap, delay, age, now);
    }
  }
}
