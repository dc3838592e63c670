/**
 * The tick loop of a native plugin (crates/rosplus_core/src/plugin.rs:166-234): the same
 * accounting as the executor's, inlined, with the loop's own exits.
 */
module PluginLoop {
  import opened Outcomes
  import opened Budget

  /** One callback: its time, its status, and whether its output fits the buffer. */
  datatype Turn = Turn(elapsed: nat, status: int, fits: bool)

  /** Stopped stands for the stop flag or the deadline: no further turn comes. */
  datatype Exit = Completed | Stopped | StatusError | BadOutput | TooSlow

  datatype Summary = Summary(exit: Exit, completed: nat, missed: nat, wcet: nat, ran: nat)

  function OutcomeOf(t: Turn): Outcome { Outcome(t.elapsed, t.status < 0 || !t.fits) }

  function History(turns: seq<Turn>): (os: seq<Outcome>)
    ensures |os| == |turns|
  {
    seq(|turns|, i requires 0 <= i < |turns| => OutcomeOf(turns[i]))
  }

  /** How the loop ends on a turn that breaks the rule: an error of the turn itself comes before the overruns. */
  function FaultExit(t: Turn): Exit {
    if t.status < 0 then StatusError else if !t.fits then BadOutput else TooSlow
  }

  /** The three faults by the turn's own fields. */
  lemma FaultMeans(t: Turn)
    ensures FaultExit(t) == StatusError <==> t.status < 0
    ensures FaultExit(t) == BadOutput <==> t.status >= 0 && !t.fits
    ensures FaultExit(t) == TooSlow <==> t.status >= 0 && t.fits
    ensures OutcomeOf(t) == Outcome(t.elapsed, FaultExit(t) != TooSlow)
  {
  }

  lemma HistoryFront(turns: seq<Turn>, k: nat)
    requires k < |turns|
    ensures History(turns[..k+1]) == History(turns[..k]) + [OutcomeOf(turns[k])]
    ensures History(turns[..k+1])[..k] == History(turns[..k])
  {
    assert History(turns[..k+1])[..k] == History(turns[..k]);
  }

  /**
   * The loop. Given the turns to come and the wanted number of ticks (0: no limit), it stops
   * at the same tick as the executor's rule, with the same counters, unless it has completed
   * the wanted ticks first.
   */
  method Run(period: nat, messages: nat, turns: seq<Turn>) returns (s: Summary)
    ensures s.ran <= |turns| && s.ran == Charged(period, History(turns[..s.ran])).ticks
    ensures var a := Charged(period, History(turns[..s.ran]));
      && s.missed == a.missed && s.wcet == a.wcet
      && (a.active <==> s.exit.Completed? || s.exit.Stopped?)
      && s.completed == (if a.active then s.ran else s.ran - 1)
      && (!a.active ==> s.exit == FaultExit(turns[s.ran-1]))
    ensures s.exit.Completed? <==> messages > 0 && s.completed == messages
    ensures s.exit.Stopped? ==> s.ran == |turns|
  {
    var completed, missed, wcet, consecutive, k := 0, 0, 0, 0, 0;
    while k < |turns| && (messages == 0 || completed < messages)
      invariant k <= |turns| && completed == k && (messages > 0 ==> completed <= messages)
      invariant var a := Charged(period, History(turns[..k]));
        a.active && a.ticks == k && a.missed == missed && a.wcet == wcet && a.consecutive == consecutive && a.budget == period
    {
      var t := turns[k];
      HistoryFront(turns, k);
      k := k + 1;
      wcet := Max(wcet, t.elapsed);
      if t.elapsed > period {
        missed := missed + 1;
      }
      if 10 * t.elapsed > 11 * period {
        consecutive := consecutive + 1;
      } else {
        consecutive := 0;
      }
      if t.status < 0 {
        return Summary(StatusError, completed, missed, wcet, k);
      }
      if !t.fits {
        return Summary(BadOutput, completed, missed, wcet, k);
      }
      if consecutive >= 3 {
        return Summary(TooSlow, completed, missed, wcet, k);
      }
      completed := completed + 1;
    }
    s := Summary(if messages > 0 && completed == messages then Completed else Stopped, completed, missed, wcet, k);
  }

  /** Without a limit on the ticks, loop and executor stop at the same tick of the same history. */
  lemma SameStop(period: nat, turns: seq<Turn>, ran: nat)
    requires ran <= |turns| && ran == Charged(period, History(turns[..ran])).ticks
    requires Charged(period, History(turns[..ran])).active ==> ran == |turns|
    ensures Charged(period, History(turns)).ticks == ran
    ensures Charged(period, History(turns)) == Charged(period, History(turns[..ran]))
  {
    if ran == |turns| {
      assert turns[..ran] == turns;
    } else {
      StaysStopped(period, turns, ran);
    }
  }

  lemma {:induction false} StaysStopped(period: nat, turns: seq<Turn>, ran: nat)
    requires ran <= |turns| && !Charged(period, History(turns[..ran])).active
    ensures Charged(period, History(turns)) == Charged(period, History(turns[..ran]))
    decreases |turns|
  {
    if ran < |turns| {
      var front := turns[..|turns|-1];
      assert front[..ran] == turns[..ran] && turns[..|turns|-1+1] == turns;
      StaysStopped(period, front, ran);
      HistoryFront(turns, |turns| - 1);
    } else {
      assert turns[..ran] == turns;
    }
  }

  /**
   * When both stop, they name the fault differently exactly if the stopping tick is at least
   * the third overrun in a row and also fails: the executor then reports the overruns, the
   * loop the failure. Otherwise both report the overruns, or both the tick's own error.
   */
  lemma FaultsDifferIff(period: nat, turns: seq<Turn>, ran: nat)
    requires !Charged(period, History(turns)).active && ran == Charged(period, History(turns)).ticks
    ensures 0 < ran <= |turns|
    ensures Charged(period, History(turns)).error == Some(Overruns) && FaultExit(turns[ran-1]) != TooSlow
       <==> Trailing(History(turns[..ran]), period) >= 3 && OutcomeOf(turns[ran-1]).failed
    ensures Charged(period, History(turns)).error == Some(TickFailed) ==> FaultExit(turns[ran-1]) != TooSlow
    ensures Charged(period, History(turns)).error.Some?
  {
    StopRule(period, History(turns));
    assert History(turns)[..ran] == History(turns[..ran]);
  }

  /** An input on which they differ: two overruns, then an overrun that fails. */
  lemma FaultsDiffer(period: nat)
    ensures var over := 2 * period + 1;
      var turns := [Turn(over, 0, true), Turn(over, 0, true), Turn(over, -1, true)];
      Charged(period, History(turns)).error == Some(Overruns) && FaultExit(turns[2]) == StatusError
  {
    var over := 2 * period + 1;
    var turns := [Turn(over, 0, true), Turn(over, 0, true), Turn(over, -1, true)];
    var o, f := Outcome(over, false), Outcome(over, true);
    var h := History(turns);
    assert h == [o, o, f];
    assert h[..2] == [o, o] && [o, o][..1] == [o] && [o][..0] == [];
    assert Charged(period, [o]) == Charge(Opened(period), o);
    assert Charged(period, [o, o]) == Charge(Charged(period, [o]), o);
    assert Charged(period, h) == Charge(Charged(period, [o, o]), f);
  }
}
