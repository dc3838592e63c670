/**
 * Whole runs of the watchdog: the shape of its event log, what it accepts and when, and
 * when it trips.
 */
module WatchdogRuns {
  import opened Outcomes
  import opened Watchdog
  import Packet

  // ---------------------------------------------------------------- the event log

  /** The number of events before the final trip event. */
  function Body(d: Dog): int { if d.estop then |d.events| - 1 else |d.events| }

  /**
   * LOW first, then strictly alternating HIGH and LOW, and only once a heartbeat has been
   * accepted; a trip adds one final LOW.
   */
  predicate LogShape(d: Dog) {
    && 1 <= Body(d) && d.events[0] == Event(Low, Waiting)
    && (forall i :: 1 <= i < Body(d) ==> d.events[i] == Event(if i % 2 == 1 then High else Low, Pwm))
    && (d.estop ==> d.events[Body(d)] == Event(Low, EStop))
    && (d.accepts == [] ==> Body(d) == 1)
  }

  predicate HighOk(d: Dog) { (d.high <==> Body(d) % 2 == 0) && (d.estop ==> d.exited) }

  // ---------------------------------------------------------------- acceptance

  /** `last` and `lastTimestamp` are those of the latest accepted packet. */
  predicate LatestOk(d: Dog) {
    if d.accepts == [] then d.last.None? && d.lastTimestamp == 0
    else
      var a := d.accepts[|d.accepts|-1];
      d.last == Some(a.at) && d.lastTimestamp == a.timestamp
  }

  /** Each accepted packet is close to its wall clock, newer than the one before, and arrived before that one's deadline. */
  predicate Chain(accepts: seq<Accept>, timeout: nat)
    decreases |accepts|
  {
    accepts == [] ||
    var k := |accepts| - 1;
    && Apart(accepts[k].wall, accepts[k].timestamp) <= timeout * 1_000_000
    && accepts[k].received <= accepts[k].at && 0 < accepts[k].timestamp
    && (k > 0 ==> accepts[k-1].timestamp < accepts[k].timestamp
                  && accepts[k].received - accepts[k-1].at < timeout * 1000)
    && Chain(accepts[..k], timeout)
  }

  /** Accepted timestamps strictly increase and lie within the timeout of the wall clock. */
  lemma {:induction false} ChainAscends(accepts: seq<Accept>, timeout: nat, i: nat, j: nat)
    requires Chain(accepts, timeout) && i <= j < |accepts|
    ensures i < j ==> accepts[i].timestamp < accepts[j].timestamp
    ensures Apart(accepts[j].wall, accepts[j].timestamp) <= timeout * 1_000_000
    decreases |accepts|
  {
    var k := |accepts| - 1;
    if j < k {
      ChainAscends(accepts[..k], timeout, i, j);
    } else if i < j {
      ChainAscends(accepts[..k], timeout, i, k - 1);
    }
  }

  predicate DogOk(d: Dog) { LogShape(d) && HighOk(d) && LatestOk(d) && Chain(d.accepts, d.timeout) }

  lemma InitOk(timeout: nat, now: nat)
    ensures DogOk(Init(timeout, now))
  {
  }

  lemma ChainOne(accepts: seq<Accept>, a: Accept, timeout: nat)
    requires Chain(accepts, timeout)
    requires Apart(a.wall, a.timestamp) <= timeout * 1_000_000 && a.received <= a.at && 0 < a.timestamp
    requires accepts != [] ==> accepts[|accepts|-1].timestamp < a.timestamp && a.received - accepts[|accepts|-1].at < timeout * 1000
    ensures Chain(accepts + [a], timeout)
  {
    assert (accepts + [a])[..|accepts|] == accepts;
  }

  lemma TakeAccepts(d: Dog, f: Packet.Fields, wall: nat, t: Times)
    requires Chain(d.accepts, d.timeout) && LatestOk(d) && Ordered(t)
    ensures Chain(Take(d, f, wall, t).accepts, d.timeout) && LatestOk(Take(d, f, wall, t))
  {
    if Packet.Good(f.flags) && !d.estop && !Late(d, t.received) && Fresh(d, f.timestamp, wall) {
      ChainOne(d.accepts, Accept(f.timestamp, wall, t.received, t.accepted), d.timeout);
    }
  }

  lemma FinishKeepsAccepts(d: Dog, t: Times)
    ensures var e := Finish(d, t);
      e.accepts == d.accepts && e.last == d.last && e.lastTimestamp == d.lastTimestamp && e.timeout == d.timeout
  {
  }

  lemma IterateAccepts(d: Dog, r: Received, t: Times)
    requires Chain(d.accepts, d.timeout) && LatestOk(d) && Ordered(t)
    ensures Chain(Iterate(d, r, t).accepts, d.timeout) && LatestOk(Iterate(d, r, t))
  {
    if r.Datagram? && Packet.Decode(r.bytes).Some? {
      TakeAccepts(d, Packet.Decode(r.bytes).value, r.wall, t);
    }
    FinishKeepsAccepts(Receive(d, r, t), t);
  }

  /** Before the latch is set, a receive changes nothing that the log shows. */
  lemma ReceiveKeepsLog(d: Dog, r: Received, t: Times)
    requires !d.exited && !d.estop && LatestOk(d)
    ensures var e := Receive(d, r, t);
      && e.events == d.events && e.high == d.high && e.lastPwm == d.lastPwm && (d.accepts != [] ==> e.accepts != [])
      && (e.exited ==> !e.estop) && e.timeout == d.timeout
  {
  }

  lemma FinishLog(d: Dog, t: Times)
    requires !d.exited && LatestOk(d) && LogShape(d.(estop := false)) && HighOk(d.(estop := false))
    ensures LogShape(Finish(d, t)) && HighOk(Finish(d, t)) && Finish(d, t).timeout == d.timeout
  {
  }

  lemma IterateOk(d: Dog, r: Received, t: Times)
    requires DogOk(d) && Ordered(t)
    ensures DogOk(Iterate(d, r, t)) && Iterate(d, r, t).timeout == d.timeout
  {
    IterateAccepts(d, r, t);
    if !d.exited {
      ReceiveKeepsLog(d, r, t);
      var e := Receive(d, r, t);
      if !e.exited {
        if r.Datagram? && Packet.Decode(r.bytes).Some? {
          TakeAccepts(d, Packet.Decode(r.bytes).value, r.wall, t);
        }
        FinishLog(e, t);
      }
    }
  }

  /** In every run the log has its shape and the accepted packets are in order, on time and fresh. */
  lemma {:induction false} RunOk(timeout: nat, now: nat, turns: seq<Turn>)
    requires forall k :: 0 <= k < |turns| ==> Ordered(turns[k].times)
    ensures DogOk(Run(Init(timeout, now), turns)) && Run(Init(timeout, now), turns).timeout == timeout
    decreases |turns|
  {
    if turns == [] {
      InitOk(timeout, now);
    } else {
      RunOk(timeout, now, turns[..|turns|-1]);
      var k := |turns| - 1;
      IterateOk(Run(Init(timeout, now), turns[..|turns|-1]), turns[k].received, turns[k].times);
    }
  }

  /** After its exit the watchdog does nothing more: no event follows the trip, and the latch stays. */
  lemma {:induction false} ExitIsFinal(d: Dog, turns: seq<Turn>)
    requires d.exited
    ensures Run(d, turns) == d
    decreases |turns|
  {
    if turns != [] {
      ExitIsFinal(d, turns[..|turns|-1]);
    }
  }

  // ---------------------------------------------------------------- when it trips

  /** The datagram is a packet whose flags are not both set. */
  predicate BadFlags(r: Received) {
    r.Datagram? && Packet.Decode(r.bytes).Some? && !Packet.Good(Packet.Decode(r.bytes).value.flags)
  }

  /** The datagram is a packet with good flags that is accepted: in time, newer than the last one, close to the wall clock. */
  predicate Accepted(d: Dog, r: Received, t: Times) {
    && r.Datagram? && Packet.Decode(r.bytes).Some? && !BadFlags(r)
    && !d.estop && !Late(d, t.received) && Fresh(d, Packet.Decode(r.bytes).value.timestamp, r.wall)
  }

  /**
   * A running watchdog trips in an iteration exactly when it receives bad flags, or it is
   * armed and either deadline check fails (the second with the new deadline if it accepted).
   */
  lemma TripIff(d: Dog, r: Received, t: Times)
    requires !d.exited && !d.estop && Ordered(t)
    ensures Iterate(d, r, t).estop <==>
      || BadFlags(r)
      || (r.Datagram? && Packet.Decode(r.bytes).Some? && Late(d, t.received))
      || (!r.Broken? && (if Accepted(d, r, t) then t.checked - t.accepted >= d.timeout * 1000 else Late(d, t.checked)))
  {
  }

  /**
   * Until it is armed, only bad flags trip it, unless the very iteration that accepts the
   * first packet takes longer than the timeout.
   */
  lemma UnarmedTripIff(d: Dog, r: Received, t: Times)
    requires !d.exited && !d.estop && d.last.None? && Ordered(t)
    ensures Iterate(d, r, t).estop <==>
      BadFlags(r) || (Accepted(d, r, t) && t.checked - t.accepted >= d.timeout * 1000)
  {
    TripIff(d, r, t);
  }

  /** A packet is accepted exactly when Accepted says so: once the deadline has passed nothing is accepted. */
  lemma AcceptIff(d: Dog, r: Received, t: Times)
    requires !d.exited && !d.estop && Ordered(t)
    ensures Iterate(d, r, t).accepts != d.accepts <==> Accepted(d, r, t)
    ensures Iterate(d, r, t).accepts != d.accepts ==> Iterate(d, r, t).last == Some(t.accepted)
  {
  }

  /** The answer is 0 exactly for a packet with good flags that arrives before the deadline; it need not be fresh. */
  lemma ZeroReplyIff(d: Dog, r: Received, t: Times)
    requires !d.exited && !d.estop
    ensures Reply(d, r, t) == Some(false) <==>
      r.Datagram? && Packet.Decode(r.bytes).Some? && !BadFlags(r) && !Late(d, t.received)
  {
  }

  /**
   * A packet is answered 0 and yet not accepted exactly when its flags are good and it comes
   * in time, but its timestamp is not newer than the last one or too far from the clock.
   */
  lemma ZeroWithoutAcceptIff(d: Dog, r: Received, t: Times)
    requires !d.exited && !d.estop && Ordered(t)
    ensures Reply(d, r, t) == Some(false) && Iterate(d, r, t).accepts == d.accepts <==>
      && r.Datagram? && Packet.Decode(r.bytes).Some? && !BadFlags(r) && !Late(d, t.received)
      && !Fresh(d, Packet.Decode(r.bytes).value.timestamp, r.wall)
  {
    AcceptIff(d, r, t);
    ZeroReplyIff(d, r, t);
  }

  lemma OlderIgnored(bytes: seq<Packet.byte>, newer: seq<Packet.byte>, first: nat, second: nat)
    requires second < first && Packet.Decode(newer) == Some(Packet.Fields(first, 1, 3))
    requires Packet.Decode(bytes) == Some(Packet.Fields(second, 1, 3))
    ensures var e := Iterate(Init(50, 0), Datagram(newer, first), Times(10, 10, 10, 10, 10));
      var r := Datagram(bytes, second);
      && e.accepts == [Accept(first, first, 10, 10)] && !e.exited
      && Reply(e, r, Times(20, 20, 20, 20, 20)) == Some(false)
      && Iterate(e, r, Times(20, 20, 20, 20, 20)).accepts == e.accepts
  {
  }

  /**
   * The wall clock is stepped back between two ticks: the second packet carries an older
   * timestamp than the first; it is answered 0 and ignored.
   */
  lemma SteppedBackClock(first: nat, second: nat)
    requires second < first < 0x1_0000_0000_0000_0000
    ensures var e := Iterate(Init(50, 0), Datagram(Packet.Encode(Packet.Fields(first, 1, 3)), first), Times(10, 10, 10, 10, 10));
      var r := Datagram(Packet.Encode(Packet.Fields(second, 1, 3)), second);
      && e.accepts == [Accept(first, first, 10, 10)] && !e.exited
      && Reply(e, r, Times(20, 20, 20, 20, 20)) == Some(false)
      && Iterate(e, r, Times(20, 20, 20, 20, 20)).accepts == e.accepts
  {
    hide Packet.Encode, Packet.Decode;
    var f, g := Packet.Fields(first, 1, 3), Packet.Fields(second, 1, 3);
    Packet.RoundTrip(f);
    Packet.RoundTrip(g);
    assert first % 0x1_0000_0000_0000_0000 == first && second % 0x1_0000_0000_0000_0000 == second;
    hide Iterate, Reply;
    OlderIgnored(Packet.Encode(g), Packet.Encode(f), first, second);
  }

  /** An armed watchdog that is still running has just checked that its deadline lies ahead. */
  lemma RunningIsInTime(d: Dog, r: Received, t: Times)
    requires !d.exited && Ordered(t) && !Iterate(d, r, t).exited && Iterate(d, r, t).last.Some?
    ensures t.checked < Iterate(d, r, t).last.value + d.timeout * 1000
  {
  }

  /** The deadline check before turn k; the first follows the instant `from`. */
  function PreviousCheck(turns: seq<Turn>, from: nat, k: nat): nat
    requires k <= |turns|
  {
    if k == 0 then from else turns[k-1].times.checked
  }

  /** One deadline check follows the other within gap. */
  predicate Paced(turns: seq<Turn>, from: nat, gap: nat) {
    forall k: nat {:trigger PreviousCheck(turns, from, k)} :: k < |turns| ==>
      turns[k].times.checked <= PreviousCheck(turns, from, k) + gap
  }

  /**
   * Silence trips: while no further heartbeat is accepted and the watchdog has not exited,
   * every deadline check lies before the deadline, so the next one comes within one
   * iteration of it; the check after the deadline finds the watchdog exited.
   */
  lemma {:induction false} SilenceTrips(d: Dog, turns: seq<Turn>, gap: nat)
    requires !d.exited && d.last.Some? && turns != [] && 5 <= d.timeout
    requires Paced(turns, d.last.value, gap)
    requires forall k :: 0 <= k < |turns| ==> Ordered(turns[k].times)
    requires |Run(d, turns).accepts| == |d.accepts| && !Run(d, turns[..|turns|-1]).exited
    ensures var t := turns[|turns|-1].times;
      && t.checked < d.last.value + d.timeout * 1000 + gap
      && (t.checked >= d.last.value + d.timeout * 1000 ==> Run(d, turns).exited)
  {
    var k := |turns| - 1;
    var front := turns[..k];
    AcceptsGrow(d, front);
    AcceptsStep(Run(d, front), turns[k].received, turns[k].times);
    StillArmed(d, front);
    assert turns[k].times.checked <= PreviousCheck(turns, d.last.value, k) + gap;
    assert k > 0 ==> front[k-1] == turns[k-1];
  }

  lemma AcceptsStep(d: Dog, r: Received, t: Times)
    ensures |d.accepts| <= |Iterate(d, r, t).accepts| && Iterate(d, r, t).timeout == d.timeout
    ensures |Iterate(d, r, t).accepts| == |d.accepts| ==> Iterate(d, r, t).last == d.last
    ensures d.exited ==> Iterate(d, r, t).exited
  {
  }

  lemma {:induction false} AcceptsGrow(d: Dog, turns: seq<Turn>)
    ensures |d.accepts| <= |Run(d, turns).accepts| && Run(d, turns).timeout == d.timeout
    decreases |turns|
  {
    if turns != [] {
      AcceptsGrow(d, turns[..|turns|-1]);
      var k := |turns| - 1;
      AcceptsStep(Run(d, turns[..|turns|-1]), turns[k].received, turns[k].times);
    }
  }

  lemma {:induction false} StillArmed(d: Dog, turns: seq<Turn>)
    requires d.last.Some? && !Run(d, turns).exited && |Run(d, turns).accepts| == |d.accepts|
    requires forall k :: 0 <= k < |turns| ==> Ordered(turns[k].times)
    ensures Run(d, turns).last == d.last
    ensures turns != [] ==> turns[|turns|-1].times.checked < d.last.value + d.timeout * 1000
    decreases |turns|
  {
    if turns != [] {
      var k := |turns| - 1;
      var e := Run(d, turns[..k]);
      AcceptsGrow(d, turns[..k]);
      AcceptsStep(e, turns[k].received, turns[k].times);
      StillArmed(d, turns[..k]);
      RunningIsInTime(e, turns[k].received, turns[k].times);
    }
  }
}
