/**
 * One iteration of the watchdog in plain numbers (crates/rosplus_safety/src/main.rs:63-107),
 * for every state that a run can reach: what is accepted, what is answered, when it trips,
 * and when the output changes. Timeouts are in milliseconds, wall clocks in nanoseconds, the
 * other instants in microseconds.
 */
module WatchdogNumbers {
  import opened Outcomes
  import opened Watchdog
  import opened WatchdogRuns
  import Packet

  /**
   * A packet is accepted, and logged as it came, exactly if both flag bits are set, the last
   * accepted packet is less than the timeout old, the timestamp is newer than that packet's,
   * and it lies within the timeout of the wall clock.
   */
  lemma {:induction false} AcceptedInNumbers(timeout: nat, now: nat, turns: seq<Turn>, bytes: seq<Packet.byte>, f: Packet.Fields,
                                             wall: nat, t: Times)
    requires forall k :: 0 <= k < |turns| ==> Ordered(turns[k].times)
    requires var d := Run(Init(timeout, now), turns); !d.exited && !d.estop
    requires Packet.Decode(bytes) == Some(f) && Ordered(t)
    ensures var d := Run(Init(timeout, now), turns);
      var e := Iterate(d, Datagram(bytes, wall), t);
      e.accepts == d.accepts + [Accept(f.timestamp, wall, t.received, t.accepted)] <==>
        && f.flags % 4 == 3
        && (d.accepts != [] ==> t.received - d.accepts[|d.accepts|-1].at < timeout * 1_000)
        && f.timestamp > (if d.accepts == [] then 0 else d.accepts[|d.accepts|-1].timestamp)
        && wall - timeout * 1_000_000 <= f.timestamp <= wall + timeout * 1_000_000
    ensures var d := Run(Init(timeout, now), turns);
      var e := Iterate(d, Datagram(bytes, wall), t);
      e.accepts == d.accepts || e.accepts == d.accepts + [Accept(f.timestamp, wall, t.received, t.accepted)]
  {
    RunOk(timeout, now, turns);
    AcceptedHere(Run(Init(timeout, now), turns), bytes, f, wall, t);
  }

  lemma AcceptedHere(d: Dog, bytes: seq<Packet.byte>, f: Packet.Fields, wall: nat, t: Times)
    requires !d.exited && !d.estop && LatestOk(d) && Packet.Decode(bytes) == Some(f) && Ordered(t)
    ensures var e := Iterate(d, Datagram(bytes, wall), t);
      e.accepts == d.accepts + [Accept(f.timestamp, wall, t.received, t.accepted)] <==>
        && f.flags % 4 == 3
        && (d.accepts != [] ==> t.received - d.accepts[|d.accepts|-1].at < d.timeout * 1_000)
        && f.timestamp > (if d.accepts == [] then 0 else d.accepts[|d.accepts|-1].timestamp)
        && wall - d.timeout * 1_000_000 <= f.timestamp <= wall + d.timeout * 1_000_000
    ensures var e := Iterate(d, Datagram(bytes, wall), t);
      e.accepts == d.accepts || e.accepts == d.accepts + [Accept(f.timestamp, wall, t.received, t.accepted)]
  {
    FinishKeepsAccepts(Receive(d, Datagram(bytes, wall), t), t);
    assert d.accepts != d.accepts + [Accept(f.timestamp, wall, t.received, t.accepted)];
  }

  /** An accepted packet is at least the timeout old. */
  predicate Overdue(accepts: seq<Accept>, timeout: nat, now: nat) {
    accepts != [] && now - accepts[|accepts|-1].at >= timeout * 1_000
  }

  /** A datagram of 16 bytes is answered, 0 exactly if both flag bits are set and it comes in time; nothing else is. */
  lemma {:induction false} AnswerInNumbers(timeout: nat, now: nat, turns: seq<Turn>, r: Received, t: Times)
    requires forall k :: 0 <= k < |turns| ==> Ordered(turns[k].times)
    requires var d := Run(Init(timeout, now), turns); !d.exited && !d.estop
    ensures var d := Run(Init(timeout, now), turns);
      Reply(d, r, t) ==
        if r.Datagram? && |r.bytes| == 16 then
          Some(Packet.Decode(r.bytes).value.flags % 4 != 3 || Overdue(d.accepts, timeout, t.received))
        else None
  {
    RunOk(timeout, now, turns);
    AnswerHere(Run(Init(timeout, now), turns), r, t);
  }

  lemma AnswerHere(d: Dog, r: Received, t: Times)
    requires !d.exited && !d.estop && LatestOk(d)
    ensures Reply(d, r, t) ==
        if r.Datagram? && |r.bytes| == 16 then
          Some(Packet.Decode(r.bytes).value.flags % 4 != 3 || Overdue(d.accepts, d.timeout, t.received))
        else None
  {
  }

  /**
   * An iteration trips exactly if it receives a packet with a flag bit missing, or one that
   * comes too late, or finds at its second check that the latest accepted packet is too old;
   * a trip writes the final LOW and ends the watchdog.
   */
  lemma {:induction false} TripInNumbers(timeout: nat, now: nat, turns: seq<Turn>, r: Received, t: Times)
    requires forall k :: 0 <= k < |turns| ==> Ordered(turns[k].times)
    requires (var d := Run(Init(timeout, now), turns); !d.exited && !d.estop) && Ordered(t)
    ensures var d := Run(Init(timeout, now), turns);
      var e := Iterate(d, r, t);
      && (e.estop <==>
          || (r.Datagram? && |r.bytes| == 16
              && (Packet.Decode(r.bytes).value.flags % 4 != 3 || Overdue(d.accepts, timeout, t.received)))
          || (!r.Broken? && Overdue(e.accepts, timeout, t.checked)))
      && (e.estop ==> e.exited && e.events == d.events + [Event(Low, EStop)])
      && (!e.estop ==> (e.exited <==> r.Broken?))
  {
    RunOk(timeout, now, turns);
    TripHere(Run(Init(timeout, now), turns), r, t);
  }

  lemma TripHere(d: Dog, r: Received, t: Times)
    requires !d.exited && !d.estop && LatestOk(d) && Ordered(t)
    ensures var e := Iterate(d, r, t);
      && (e.estop <==>
          || (r.Datagram? && |r.bytes| == 16
              && (Packet.Decode(r.bytes).value.flags % 4 != 3 || Overdue(d.accepts, d.timeout, t.received)))
          || (!r.Broken? && Overdue(e.accepts, d.timeout, t.checked)))
      && (e.estop ==> e.exited && e.events == d.events + [Event(Low, EStop)])
      && (!e.estop ==> (e.exited <==> r.Broken?))
  {
    assert d.accepts != [] <==> d.last.Some?;
  }

  /**
   * The output changes, to the other level, in exactly those iterations that leave the
   * watchdog armed and running at least 500 us after the last change; the next 500 us count
   * from the end of the iteration.
   */
  lemma {:induction false} PulseInNumbers(timeout: nat, now: nat, turns: seq<Turn>, r: Received, t: Times)
    requires forall k :: 0 <= k < |turns| ==> Ordered(turns[k].times)
    requires Ordered(t) && !Iterate(Run(Init(timeout, now), turns), r, t).exited
    ensures var d := Run(Init(timeout, now), turns);
      var e := Iterate(d, r, t);
      if e.accepts != [] && t.pulsed - d.lastPwm >= 500 then
        && e.events == d.events + [Event(if |d.events| % 2 == 1 then High else Low, Pwm)] && e.lastPwm == t.ended
      else e.events == d.events && e.lastPwm == d.lastPwm
  {
    RunOk(timeout, now, turns);
    PulseHere(Run(Init(timeout, now), turns), r, t);
  }

  lemma PulseHere(d: Dog, r: Received, t: Times)
    requires DogOk(d) && Ordered(t) && !Iterate(d, r, t).exited
    ensures var e := Iterate(d, r, t);
      if e.accepts != [] && t.pulsed - d.lastPwm >= 500 then
        && e.events == d.events + [Event(if |d.events| % 2 == 1 then High else Low, Pwm)] && e.lastPwm == t.ended
      else e.events == d.events && e.lastPwm == d.lastPwm
  {
  }
}
