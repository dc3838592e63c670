/**
 * The budget rule shared by the cooperative executor and the plugin loop
 * (crates/rosplus_core/src/executor.rs:71-101, crates/rosplus_core/src/plugin.rs:199-234):
 * what the counters are after any history of ticks, and when a node is stopped.
 */
module Budget {
  import opened Outcomes

  /** One tick: how long it took, and whether it returned an error. */
  datatype Outcome = Outcome(elapsed: nat, failed: bool)

  datatype Fault = TickFailed | Overruns

  /** The counters of a node. */
  datatype Account = Account(
    budget: nat, ticks: nat, missed: nat, wcet: nat, consecutive: nat, active: bool, error: Option<Fault>)

  function Opened(budget: nat): Account { Account(budget, 0, 0, 0, 0, true, None) }

  /** More than 110% of the budget. */
  predicate Over(o: Outcome, budget: nat) { 10 * o.elapsed > 11 * budget }

  function Max(a: nat, b: nat): nat { if a < b then b else a }

  /** One tick of an active node. */
  function Charge(a: Account, o: Outcome): Account {
    var consecutive := if Over(o, a.budget) then a.consecutive + 1 else 0;
    var fault := if consecutive >= 3 then Some(Overruns) else if o.failed then Some(TickFailed) else None;
    a.(ticks := a.ticks + 1, wcet := Max(a.wcet, o.elapsed),
       missed := if o.elapsed > a.budget then a.missed + 1 else a.missed,
       consecutive := consecutive, active := fault.None?,
       error := if fault.Some? then fault else a.error)
  }

  /** The account after the given ticks; a stopped node is not ticked again. */
  function Charged(budget: nat, h: seq<Outcome>): Account
    decreases |h|
  {
    if h == [] then Opened(budget)
    else
      var a := Charged(budget, h[..|h|-1]);
      if a.active then Charge(a, h[|h|-1]) else a
  }

  // ---------------------------------------------------------------- the rule, stated on histories

  /** Ticks k, k+1 and k+2 overran. */
  predicate ThreeFrom(h: seq<Outcome>, budget: nat, k: nat) {
    k + 2 < |h| && Over(h[k], budget) && Over(h[k+1], budget) && Over(h[k+2], budget)
  }

  /** No tick failed and no three consecutive ticks overran. */
  ghost predicate Healthy(h: seq<Outcome>, budget: nat) {
    (forall i :: 0 <= i < |h| ==> !h[i].failed) && !exists k: nat :: ThreeFrom(h, budget, k)
  }

  /** The overruns at the end of h. */
  function Trailing(h: seq<Outcome>, budget: nat): nat
    decreases |h|
  {
    if h == [] || !Over(h[|h|-1], budget) then 0 else Trailing(h[..|h|-1], budget) + 1
  }

  function Missed(h: seq<Outcome>, budget: nat): nat
    decreases |h|
  {
    if h == [] then 0 else Missed(h[..|h|-1], budget) + (if h[|h|-1].elapsed > budget then 1 else 0)
  }

  /** Missed counts the ticks that took longer than their budget. */
  lemma {:induction false} MissedCounts(h: seq<Outcome>, budget: nat)
    ensures Missed(h, budget) == |set i | 0 <= i < |h| && h[i].elapsed > budget|
    decreases |h|
  {
    var late := set i | 0 <= i < |h| && h[i].elapsed > budget;
    if h != [] {
      var last := |h| - 1;
      MissedCounts(h[..last], budget);
      var before := set i | 0 <= i < last && h[..last][i].elapsed > budget;
      assert late == if h[last].elapsed > budget then before + {last} else before;
    }
  }

  lemma {:induction false} TrailingOver(h: seq<Outcome>, budget: nat, i: nat)
    requires |h| - Trailing(h, budget) <= i < |h|
    ensures Over(h[i], budget)
    decreases |h|
  {
    if i < |h| - 1 {
      TrailingOver(h[..|h|-1], budget, i);
    }
  }

  lemma {:induction false} TrailingLength(h: seq<Outcome>, budget: nat)
    ensures Trailing(h, budget) <= |h|
    decreases |h|
  {
    if h != [] {
      TrailingLength(h[..|h|-1], budget);
    }
  }

  lemma TrailingBreaks(h: seq<Outcome>, budget: nat)
    requires 0 < |h| - Trailing(h, budget)
    ensures !Over(h[|h| - Trailing(h, budget) - 1], budget)
    decreases |h|
  {
    if Trailing(h, budget) > 0 {
      TrailingBreaks(h[..|h|-1], budget);
    }
  }

  /** Three overruns in a row end at the last tick exactly when three or more trail. */
  lemma ThreeAtEnd(h: seq<Outcome>, budget: nat)
    requires |h| >= 3
    ensures ThreeFrom(h, budget, |h| - 3) <==> Trailing(h, budget) >= 3
  {
    TrailingLength(h, budget);
    if Trailing(h, budget) >= 3 {
      TrailingOver(h, budget, |h| - 3);
      TrailingOver(h, budget, |h| - 2);
      TrailingOver(h, budget, |h| - 1);
    } else {
      TrailingBreaks(h, budget);
    }
  }

  lemma HealthyGrows(h: seq<Outcome>, o: Outcome, budget: nat)
    ensures Healthy(h + [o], budget) <==> Healthy(h, budget) && !o.failed && Trailing(h + [o], budget) < 3
  {
    var g := h + [o];
    TrailingLength(g, budget);
    if |g| >= 3 {
      ThreeAtEnd(g, budget);
    }
    if Healthy(g, budget) {
      forall i | 0 <= i < |h| ensures !h[i].failed { assert g[i] == h[i]; }
      forall k: nat ensures !ThreeFrom(h, budget, k) { assert !ThreeFrom(g, budget, k); }
      assert g[|h|] == o;
      assert |g| >= 3 ==> !ThreeFrom(g, budget, |g| - 3);
    } else if Healthy(h, budget) && !o.failed && Trailing(g, budget) < 3 {
      forall k: nat ensures !ThreeFrom(g, budget, k) { assert !ThreeFrom(h, budget, k); }
    }
  }

  /** The longest time that a tick took, 0 before the first. */
  predicate Longest(longest: nat, ran: seq<Outcome>) {
    && (forall i :: 0 <= i < |ran| ==> ran[i].elapsed <= longest)
    && (longest > 0 ==> exists i :: 0 <= i < |ran| && ran[i].elapsed == longest)
  }

  lemma LongestGrows(longest: nat, ran: seq<Outcome>, o: Outcome)
    requires Longest(longest, ran)
    ensures Longest(Max(longest, o.elapsed), ran + [o])
  {
    var all := ran + [o];
    assert all[|ran|] == o;
    if longest > 0 {
      var i :| 0 <= i < |ran| && ran[i].elapsed == longest;
      assert all[i].elapsed == longest;
    }
  }

  /** What the counters are, as functions of the ticks the node really ran. */
  predicate Exact(a: Account, budget: nat, ran: seq<Outcome>) {
    && a.budget == budget && a.ticks == |ran| && a.missed == Missed(ran, budget)
    && a.consecutive == Trailing(ran, budget) && Longest(a.wcet, ran)
    && (a.error == Some(Overruns) <==> Trailing(ran, budget) >= 3)
    && (a.error == Some(TickFailed) <==> Trailing(ran, budget) < 3 && ran != [] && ran[|ran|-1].failed)
  }

  /** One more tick of a healthy node. */
  lemma ChargeOne(a: Account, budget: nat, ran: seq<Outcome>, o: Outcome)
    requires Exact(a, budget, ran) && Healthy(ran, budget) && a.active && a.error.None?
    ensures Exact(Charge(a, o), budget, ran + [o])
    ensures Charge(a, o).active <==> Healthy(ran + [o], budget)
    ensures Charge(a, o).error.None? <==> Charge(a, o).active
  {
    assert (ran + [o])[..|ran|] == ran;
    HealthyGrows(ran, o, budget);
    LongestGrows(a.wcet, ran, o);
  }

  /**
   * The budget rule by history: a node is active exactly while no tick failed and no three
   * consecutive ticks overran; it is stopped right after the first tick that breaks this,
   * and its counters are those of the ticks up to there.
   */
  lemma {:induction false} StopRule(budget: nat, h: seq<Outcome>)
    ensures var a := Charged(budget, h);
      && a.ticks <= |h| && Exact(a, budget, h[..a.ticks])
      && (a.active <==> Healthy(h, budget)) && (a.active <==> a.error.None?)
      && (a.active ==> a.ticks == |h|)
      && (!a.active ==> 0 < a.ticks && Healthy(h[..a.ticks-1], budget) && !Healthy(h[..a.ticks], budget))
    decreases |h|
  {
    if h != [] {
      var front, o := h[..|h|-1], h[|h|-1];
      var a := Charged(budget, front);
      StopRule(budget, front);
      assert h == front + [o];
      HealthyGrows(front, o, budget);
      if a.active {
        assert front[..a.ticks] == front && h[..|h|] == h;
        ChargeOne(a, budget, front, o);
      } else {
        assert h[..a.ticks] == front[..a.ticks] && h[..a.ticks-1] == front[..a.ticks-1];
      }
    }
  }

  /**
   * The rule in numbers: a node is still active after a history exactly if none of its ticks
   * failed and no three in a row took more than eleven tenths of the budget each.
   */
  lemma ActiveIff(budget: nat, h: seq<Outcome>)
    ensures Charged(budget, h).active <==>
      && (forall i :: 0 <= i < |h| ==> !h[i].failed)
      && !(exists i, j, k :: 0 <= i && j == i + 1 && k == j + 1 && k < |h|
             && 10 * h[i].elapsed > 11 * budget && 10 * h[j].elapsed > 11 * budget && 10 * h[k].elapsed > 11 * budget)
  {
    StopRule(budget, h);
    ThreeMeans(h, budget);
    hide Charged, Exact, ThreeFrom;
  }

  lemma ThreeMeans(h: seq<Outcome>, budget: nat)
    ensures (exists k: nat :: ThreeFrom(h, budget, k)) <==>
      exists i, j, k :: (0 <= i && j == i + 1 && k == j + 1 && k < |h|
        && 10 * h[i].elapsed > 11 * budget && 10 * h[j].elapsed > 11 * budget && 10 * h[k].elapsed > 11 * budget)
  {
    if i, j, k :| (0 <= i && j == i + 1 && k == j + 1 && k < |h|
                   && 10 * h[i].elapsed > 11 * budget && 10 * h[j].elapsed > 11 * budget && 10 * h[k].elapsed > 11 * budget) {
      assert ThreeFrom(h, budget, i);
    }
    if k: nat :| ThreeFrom(h, budget, k) {
      assert 10 * h[k].elapsed > 11 * budget && 10 * h[k+1].elapsed > 11 * budget && 10 * h[k+2].elapsed > 11 * budget;
    }
  }
}
