/**
 * The simulated watchdog (crates/rosplus_safety/src/main.rs:57-111): one object updated by
 * one loop iteration at a time, with every clock reading of the iteration explicit.
 * Instants are in microseconds on a monotonic clock, wall-clock readings in nanoseconds.
 */
module Watchdog {
  import opened Outcomes
  import Packet

  datatype Level = Low | High

  datatype Reason = Waiting | Pwm | EStop

  datatype Event = Event(level: Level, reason: Reason)

  /** What recv_from yields. */
  datatype Received = Nothing | Broken | Datagram(bytes: seq<Packet.byte>, wall: nat)

  /** The iteration's clock readings, in program order. */
  datatype Times = Times(received: nat, accepted: nat, checked: nat, pulsed: nat, ended: nat)

  /** A log entry for an accepted packet: its timestamp, the wall clock, its arrival, and the instant kept in `last`. */
  datatype Accept = Accept(timestamp: nat, wall: nat, received: nat, at: nat)

  datatype Dog = Dog(
    timeout: nat, last: Option<nat>, estop: bool, high: bool, lastTimestamp: nat, lastPwm: nat,
    exited: bool, events: seq<Event>, accepts: seq<Accept>)

  function Init(timeout: nat, now: nat): Dog {
    Dog(timeout, None, false, false, 0, now, false, [Event(Low, Waiting)], [])
  }

  predicate Ordered(t: Times) { t.received <= t.accepted <= t.checked <= t.pulsed <= t.ended }

  /** The last accepted packet is at least the timeout old. */
  predicate Late(d: Dog, now: nat) { d.last.Some? && now - d.last.value >= d.timeout * 1000 }

  function Apart(a: nat, b: nat): nat { if a < b then b - a else a - b }

  predicate Fresh(d: Dog, timestamp: nat, wall: nat) {
    timestamp > d.lastTimestamp && Apart(wall, timestamp) <= d.timeout * 1_000_000
  }

  /** A well-formed packet: check the deadline, then the flags, then accept if fresh; the reply is the latch. */
  function Take(d: Dog, f: Packet.Fields, wall: nat, t: Times): Dog {
    var late := d.estop || Late(d, t.received);
    if !Packet.Good(f.flags) then d.(estop := true)
    else if !late && Fresh(d, f.timestamp, wall) then
      d.(estop := late, last := Some(t.accepted), lastTimestamp := f.timestamp,
         accepts := d.accepts + [Accept(f.timestamp, wall, t.received, t.accepted)])
    else d.(estop := late)
  }

  function Receive(d: Dog, r: Received, t: Times): Dog {
    match r
    case Nothing => d
    case Broken => d.(exited := true)
    case Datagram(bytes, wall) =>
      match Packet.Decode(bytes)
      case None => d
      case Some(f) => Take(d, f, wall, t)
  }

  /** The byte sent back, if any. */
  function Reply(d: Dog, r: Received, t: Times): Option<bool> {
    if r.Datagram? && Packet.Decode(r.bytes).Some? then Some(Receive(d, r, t).estop) else None
  }

  /** The rest of the iteration: deadline, trip, pulse. */
  function Finish(d: Dog, t: Times): Dog {
    if d.exited then d
    else if d.estop || Late(d, t.checked) then
      d.(estop := true, exited := true, events := d.events + [Event(Low, EStop)])
    else if d.last.Some? && t.pulsed - d.lastPwm >= 500 then
      d.(high := !d.high, events := d.events + [Event(if d.high then Low else High, Pwm)], lastPwm := t.ended)
    else d
  }

  /** One iteration of the loop; an exited watchdog does nothing. */
  function Iterate(d: Dog, r: Received, t: Times): Dog {
    if d.exited then d else Finish(Receive(d, r, t), t)
  }

  datatype Turn = Turn(received: Received, times: Times)

  function Run(d: Dog, turns: seq<Turn>): Dog
    decreases |turns|
  {
    if turns == [] then d
    else Iterate(Run(d, turns[..|turns|-1]), turns[|turns|-1].received, turns[|turns|-1].times)
  }

  // ---------------------------------------------------------------- the program

  class Monitor {
    const timeout: nat
    var last: Option<nat>
    var estop: bool
    var high: bool
    var lastTimestamp: nat
    var lastPwm: nat
    var exited: bool
    var events: seq<Event>
    ghost var accepts: seq<Accept>

    ghost function Abs(): Dog
      reads this
    {
      Dog(timeout, last, estop, high, lastTimestamp, lastPwm, exited, events, accepts)
    }

    constructor (timeoutMs: nat, now: nat)
      requires 5 <= timeoutMs <= 1000
      ensures Abs() == Init(timeoutMs, now)
    {
      timeout, last, estop, high, lastTimestamp, lastPwm := timeoutMs, None, false, false, 0, now;
      exited, events, accepts := false, [Event(Low, Waiting)], [];
    }

    /** The receiving half of an iteration: the datagram, if any, and the byte sent back. */
    method Read(r: Received, t: Times) returns (reply: Option<bool>)
      requires !exited && Ordered(t)
      modifies this
      ensures Abs() == Receive(old(Abs()), r, t)
      ensures reply == Reply(old(Abs()), r, t)
    {
      reply := None;
      match r {
        case Nothing =>
        case Broken =>
          exited := true;
        case Datagram(bytes, wall) =>
          var f := Packet.Decode(bytes);
          if f.Some? {
            var timestamp, flags := f.value.timestamp, f.value.flags;
            if last.Some? && t.received - last.value >= timeout * 1000 {
              estop := true;
            }
            if !Packet.Good(flags) {
              estop := true;
            } else if !estop && timestamp > lastTimestamp && Apart(wall, timestamp) <= timeout * 1_000_000 {
              last, lastTimestamp := Some(t.accepted), timestamp;
              accepts := accepts + [Accept(timestamp, wall, t.received, t.accepted)];
            }
            reply := Some(estop);
          }
      }
    }

    /** One iteration of the loop. */
    method Step(r: Received, t: Times) returns (reply: Option<bool>)
      requires !exited && Ordered(t)
      modifies this
      ensures Abs() == Iterate(old(Abs()), r, t)
      ensures reply == Reply(old(Abs()), r, t)
    {
      hide Receive, Reply;
      reply := Read(r, t);
      if exited {
        return;
      }
      if last.Some? && t.checked - last.value >= timeout * 1000 {
        estop := true;
      }
      if estop {
        events, exited := events + [Event(Low, EStop)], true;
        return;
      }
      if last.Some? && t.pulsed - lastPwm >= 500 {
        high := !high;
        events := events + [Event(if high then High else Low, Pwm)];
        lastPwm := t.ended;
      }
    }
  }

  /** Start-up: the timeout must be 5..1000 ms. */
  method Open(timeoutMs: nat, now: nat) returns (r: Option<Monitor>)
    ensures r.Some? <==> 5 <= timeoutMs <= 1000
    ensures r.Some? ==> fresh(r.value) && r.value.Abs() == Init(timeoutMs, now)
  {
    if timeoutMs < 5 || timeoutMs > 1000 {
      return None;
    }
    var m := new Monitor(timeoutMs, now);
    return Some(m);
  }
}
