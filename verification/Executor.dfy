/**
 * The cooperative executor (crates/rosplus_core/src/executor.rs): nodes ordered by
 * priority, ticked in turn, stopped by the budget rule, each initialised once and shut
 * down exactly once.
 */
module Executor {
  import opened Outcomes
  import opened Budget

  /** What the executor called on a node. */
  datatype Call = Init | Tick | Shutdown

  /** An entry as a value; arrival is the number of nodes admitted before it, ran the outcomes of its ticks. */
  datatype Record = Record(
    name: string, priority: nat, arrival: nat, account: Account, ran: seq<Outcome>, calls: seq<Call>)

  class Entry {
    const name: string
    const priority: nat
    const budget: nat
    var consecutive: nat
    var ticks: nat
    var missed: nat
    var wcet: nat
    var active: bool
    var error: Option<Fault>
    ghost const arrival: nat
    ghost var ran: seq<Outcome>
    ghost var calls: seq<Call>

    ghost function Value(): Record
      reads this
    {
      Record(name, priority, arrival, Account(budget, ticks, missed, wcet, consecutive, active, error), ran, calls)
    }

    constructor (name: string, priority: nat, budget: nat, ghost arrival: nat)
      ensures Value() == Record(name, priority, arrival, Opened(budget), [], [Init])
    {
      this.name, this.priority, this.budget, this.arrival := name, priority, budget, arrival;
      consecutive, ticks, missed, wcet, active, error := 0, 0, 0, 0, true, None;
      ran, calls := [], [Init];
    }

    /** The body of the loop in tick, for an active entry. */
    method Turn(o: Outcome)
      requires active
      modifies this
      ensures Value() == Ticked(old(Value()), o)
    {
      ran, calls := ran + [o], calls + [Tick];
      ticks := ticks + 1;
      wcet := Max(wcet, o.elapsed);
      if o.elapsed > budget {
        missed := missed + 1;
      }
      if 10 * o.elapsed > 11 * budget {
        consecutive := consecutive + 1;
      } else {
        consecutive := 0;
      }
      if o.failed {
        error, active := Some(TickFailed), false;
      }
      if consecutive >= 3 {
        error, active := Some(Overruns), false;
      }
      if !active {
        calls := calls + [Shutdown];
      }
    }
  }

  /** A tick of one entry: an inactive one is skipped, one that stops is shut down. */
  function Ticked(r: Record, o: Outcome): Record {
    if !r.account.active then r
    else
      var a := Charge(r.account, o);
      r.(account := a, ran := r.ran + [o], calls := r.calls + [Tick] + (if a.active then [] else [Shutdown]))
  }

  // ---------------------------------------------------------------- order

  /** Higher priority first; among equals, first in first. */
  predicate Precedes(a: Record, b: Record) {
    a.priority > b.priority || (a.priority == b.priority && a.arrival < b.arrival)
  }

  ghost predicate Ordered(rs: seq<Record>) {
    forall i, j :: 0 <= i < j < |rs| ==> Precedes(rs[i], rs[j]) && rs[i].name != rs[j].name
  }

  /** Where the stable sort puts a newcomer: after every entry of its priority or higher. */
  function Slot(rs: seq<Record>, priority: nat): (k: nat)
    ensures k <= |rs|
    ensures forall i :: 0 <= i < k ==> rs[i].priority >= priority
    ensures k < |rs| ==> rs[k].priority < priority
  {
    if rs == [] || rs[0].priority < priority then 0 else 1 + Slot(rs[1..], priority)
  }

  function Insert(rs: seq<Record>, r: Record): seq<Record> {
    var k := Slot(rs, r.priority);
    rs[..k] + [r] + rs[k..]
  }

  lemma NamesDiffer(rs: seq<Record>)
    requires Ordered(rs)
    ensures forall i, j :: 0 <= i < |rs| && 0 <= j < |rs| && i != j ==> rs[i].name != rs[j].name
  {
  }

  lemma TickedIdle(r: Record, o: Outcome)
    ensures !r.account.active ==> Ticked(r, o) == r
    ensures Ticked(r, o).name == r.name && Ticked(r, o).priority == r.priority && Ticked(r, o).arrival == r.arrival
  {
  }

  /** A turn for every node keeps the order and the soundness of the records. */
  lemma TurnKeepsOrder(before: seq<Record>, after: seq<Record>, turn: string -> Outcome)
    requires Ordered(before) && |after| == |before|
    requires forall i :: 0 <= i < |before| ==> RecordOk(before[i]) && after[i] == Ticked(before[i], turn(before[i].name))
    ensures Ordered(after)
    ensures forall i :: 0 <= i < |after| ==> RecordOk(after[i]) && after[i].arrival == before[i].arrival
  {
    forall i | 0 <= i < |before| ensures RecordOk(after[i]) { TickedOk(before[i], turn(before[i].name)); }
  }

  lemma LifeEnds(r: Record)
    requires RecordOk(r)
    ensures r.calls + (if r.account.active then [Shutdown] else []) == Life(|r.ran|, true)
  {
  }

  /** A newly opened record joins records that are in order. */
  lemma InsertOk(rs: seq<Record>, r: Record, admitted: nat)
    requires forall i :: 0 <= i < |rs| ==> rs[i].arrival < admitted && RecordOk(rs[i])
    requires r.account == Opened(r.account.budget) && r.ran == [] && r.calls == [Init] && r.arrival == admitted
    ensures forall i :: 0 <= i < |Insert(rs, r)| ==>
      Insert(rs, r)[i].arrival < admitted + 1 && RecordOk(Insert(rs, r)[i])
  {
    OpenedOk(r.name, r.priority, r.arrival, r.account.budget);
    assert RecordOk(r);
  }

  lemma InsertOrdered(rs: seq<Record>, r: Record)
    requires Ordered(rs) && forall i :: 0 <= i < |rs| ==> rs[i].arrival < r.arrival && rs[i].name != r.name
    ensures Ordered(Insert(rs, r))
  {
    var k := Slot(rs, r.priority);
    var s := Insert(rs, r);
    forall i, j | 0 <= i < j < |s| ensures Precedes(s[i], s[j]) && s[i].name != s[j].name {
      if k < j && i == k {
        assert s[j] == rs[j-1];
        if k < j - 1 {
          assert Precedes(rs[k], rs[j-1]);
        }
      }
    }
  }

  /** In that order a node of higher priority comes first, and of two equal ones the one that was admitted first. */
  lemma HigherFirst(rs: seq<Record>, i: nat, j: nat)
    requires Ordered(rs) && i < |rs| && j < |rs| && i != j
    ensures i < j <==> rs[i].priority > rs[j].priority || (rs[i].priority == rs[j].priority && rs[i].arrival < rs[j].arrival)
  {
    assert i < j ==> Precedes(rs[i], rs[j]);
    assert j < i ==> Precedes(rs[j], rs[i]);
  }

  lemma HeadFirst(rs: seq<Record>, r: Record)
    requires Ordered(rs) && r in rs
    ensures r == rs[0] || Precedes(rs[0], r)
  {
  }

  lemma SameHead(a: seq<Record>, b: seq<Record>)
    requires Ordered(a) && Ordered(b) && a != [] && b != [] && a[0] in b && b[0] in a
    ensures a[0] == b[0]
  {
    HeadFirst(b, a[0]);
    HeadFirst(a, b[0]);
  }

  lemma SameBag(a: seq<Record>, b: seq<Record>)
    requires multiset(a) == multiset(b) && a != []
    ensures b != [] && a[0] in b && b[0] in a
  {
    assert |multiset(b)| == |a|;
    assert a[0] in multiset(b) && b[0] in multiset(a);
  }

  lemma TailBag(a: seq<Record>)
    requires a != []
    ensures multiset(a[1..]) == multiset(a) - multiset{a[0]}
  {
    assert a == [a[0]] + a[1..];
  }

  lemma TailOrdered(a: seq<Record>)
    requires Ordered(a) && a != []
    ensures Ordered(a[1..])
  {
  }

  /** Two such sequences of the same elements share their head, and so do their tails. */
  lemma SameHeadAndTail(a: seq<Record>, b: seq<Record>)
    requires Ordered(a) && Ordered(b) && multiset(a) == multiset(b) && a != []
    ensures b != [] && a[0] == b[0] && multiset(a[1..]) == multiset(b[1..])
    ensures Ordered(a[1..]) && Ordered(b[1..])
  {
    SameBag(a, b);
    SameHead(a, b);
    TailBag(a);
    TailBag(b);
    TailOrdered(a);
    TailOrdered(b);
  }

  /** A sequence in this order is determined by its elements, so Insert is what any stable sort yields. */
  lemma {:induction false} OrderUnique(a: seq<Record>, b: seq<Record>)
    requires Ordered(a) && Ordered(b) && multiset(a) == multiset(b)
    ensures a == b
    decreases |a|
  {
    if a == [] {
      assert |multiset(b)| == 0;
    } else {
      SameHeadAndTail(a, b);
      OrderUnique(a[1..], b[1..]);
      assert a == [a[0]] + a[1..] && b == [b[0]] + b[1..];
    }
  }

  // ---------------------------------------------------------------- one entry's life

  function Ticks(n: nat): seq<Call> {
    if n == 0 then [] else Ticks(n - 1) + [Tick]
  }

  /** Initialised once, then n ticks, then shut down once if it is down. */
  function Life(n: nat, down: bool): seq<Call> {
    [Init] + Ticks(n) + (if down then [Shutdown] else [])
  }

  /**
   * The entry's counters are exact for the ticks it ran; it is active iff they kept the
   * budget rule, which all of them but the last did; it was shut down once, after its last
   * tick, iff it stopped.
   */
  ghost predicate RecordOk(r: Record) {
    && Exact(r.account, r.account.budget, r.ran)
    && (r.account.active <==> Healthy(r.ran, r.account.budget)) && (r.account.active <==> r.account.error.None?)
    && (r.ran != [] ==> Healthy(r.ran[..|r.ran|-1], r.account.budget))
    && r.calls == Life(|r.ran|, !r.account.active)
  }

  lemma OpenedOk(name: string, priority: nat, arrival: nat, budget: nat)
    ensures RecordOk(Record(name, priority, arrival, Opened(budget), [], [Init]))
  {
    assert Life(0, false) == [Init];
  }

  lemma TickedOk(r: Record, o: Outcome)
    requires RecordOk(r)
    ensures RecordOk(Ticked(r, o))
  {
    hide Healthy, Exact;
    if r.account.active {
      ChargeOne(r.account, r.account.budget, r.ran, o);
      assert (r.ran + [o])[..|r.ran|] == r.ran;
      assert Ticks(|r.ran| + 1) == Ticks(|r.ran|) + [Tick];
      assert Ticked(r, o).calls == Life(|r.ran| + 1, !Ticked(r, o).account.active);
    }
  }

  function TickedAll(r: Record, os: seq<Outcome>): Record
    decreases |os|
  {
    if os == [] then r else Ticked(TickedAll(r, os[..|os|-1]), os[|os|-1])
  }

  lemma {:induction false} StaysOk(r: Record, os: seq<Outcome>)
    requires RecordOk(r)
    ensures RecordOk(TickedAll(r, os)) && TickedAll(r, os).account.budget == r.account.budget
    decreases |os|
  {
    if os != [] {
      StaysOk(r, os[..|os|-1]);
      TickedOk(TickedAll(r, os[..|os|-1]), os[|os|-1]);
    }
  }

  lemma {:induction false} AccountOfANode(r: Record, budget: nat, os: seq<Outcome>)
    requires r.account == Opened(budget) && r.ran == []
    ensures var s := TickedAll(r, os);
      s.account == Charged(budget, os) && s.account.ticks <= |os| && s.ran == os[..s.account.ticks]
    decreases |os|
  {
    hide Healthy, Exact;
    StopRule(budget, os);
    if os != [] {
      var front := os[..|os|-1];
      AccountOfANode(r, budget, front);
      var s := TickedAll(r, front);
      if s.account.active {
        StopRule(budget, front);
        assert front[..|front|] == front && os == front + [os[|os|-1]] && os[..|os|] == os;
      }
    }
  }

  /**
   * A node admitted and offered any outcomes: its account is that of the budget rule, it
   * ran exactly the ticks up to its stop, and it lived once: init, those ticks, and a
   * shutdown exactly if the outcomes broke the rule.
   */
  lemma LifeOfANode(r: Record, budget: nat, os: seq<Outcome>)
    requires r.account == Opened(budget) && r.ran == [] && r.calls == [Init]
    ensures var s := TickedAll(r, os);
      && s.account == Charged(budget, os) && s.account.ticks <= |os| && s.ran == os[..s.account.ticks]
      && s.calls == Life(s.account.ticks, !Healthy(os, budget))
  {
    OpenedOk(r.name, r.priority, r.arrival, budget);
    AccountOfANode(r, budget, os);
    StaysOk(r, os);
    StopRule(budget, os);
  }

  // ---------------------------------------------------------------- the runtime

  datatype AddError = DuplicateName | InitFailed

  ghost function Values(entries: seq<Entry>): (rs: seq<Record>)
    reads entries
    ensures |rs| == |entries|
    ensures forall i :: 0 <= i < |entries| ==> rs[i] == entries[i].Value()
  {
    seq(|entries|, i requires 0 <= i < |entries| reads entries => entries[i].Value())
  }

  lemma ValuesInserted(entries: seq<Entry>, k: nat, e: Entry)
    requires k <= |entries|
    ensures Values(entries[..k] + [e] + entries[k..]) == Values(entries)[..k] + [e.Value()] + Values(entries)[k..]
  {
  }

  class Runtime {
    var nodes: seq<Entry>
    ghost var admitted: nat

    ghost function Records(): (rs: seq<Record>)
      reads this, nodes
      ensures |rs| == |nodes|
    {
      Values(nodes)
    }

    ghost predicate Valid()
      reads this, nodes
    {
      && Ordered(Records())
      && forall i :: 0 <= i < |nodes| ==> Records()[i].arrival < admitted && RecordOk(Records()[i])
    }

    constructor ()
      ensures Valid() && Records() == []
    {
      nodes, admitted := [], 0;
    }

    /** Where the stable sort by descending priority puts a newcomer. */
    method Place(priority: nat) returns (k: nat)
      ensures k == Slot(Records(), priority)
    {
      k := 0;
      while k < |nodes| && nodes[k].priority >= priority
        invariant k <= |nodes| && Slot(Records(), priority) == k + Slot(Records()[k..], priority)
      {
        assert Records()[k..][1..] == Records()[k+1..];
        k := k + 1;
      }
    }

    method HasName(name: string) returns (found: bool)
      ensures found <==> exists i :: 0 <= i < |nodes| && Records()[i].name == name
    {
      var i := 0;
      while i < |nodes|
        invariant i <= |nodes| && forall j :: 0 <= j < i ==> Records()[j].name != name
      {
        if nodes[i].name == name {
          assert Records()[i].name == name;
          return true;
        }
        i := i + 1;
      }
      return false;
    }

    method Admit(e: Entry)
      requires Valid() && e.Value() == Record(e.name, e.priority, admitted, Opened(e.budget), [], [Init])
      requires forall i :: 0 <= i < |nodes| ==> Records()[i].name != e.name
      modifies this
      ensures Valid() && Records() == Insert(old(Records()), e.Value())
    {
      ghost var before := Records();
      InsertOrdered(before, e.Value());
      InsertOk(before, e.Value(), admitted);
      var k := Place(e.priority);
      ValuesInserted(nodes, k, e);
      nodes := nodes[..k] + [e] + nodes[k..];
      admitted := admitted + 1;
      assert Records() == Insert(before, e.Value());
    }

    /** add: refuse a duplicate name, initialise, admit at its place. */
    method Add(name: string, priority: nat, budget: nat, initOk: bool) returns (res: Result<(), AddError>)
      requires Valid()
      modifies this
      ensures Valid()
      ensures res == Err(DuplicateName) <==> exists i :: 0 <= i < |old(nodes)| && old(Records())[i].name == name
      ensures res.Ok? ==> initOk
      ensures res.Ok? ==>
        Records() == Insert(old(Records()), Record(name, priority, old(admitted), Opened(budget), [], [Init]))
      ensures res.Err? ==> Records() == old(Records()) && (res.error == InitFailed ==> !initOk)
    {
      var taken := HasName(name);
      if taken {
        return Err(DuplicateName);
      }
      if !initOk {
        return Err(InitFailed);
      }
      var e := new Entry(name, priority, budget, admitted);
      Admit(e);
      return Ok(());
    }

    /** tick: every active node once, in order. */
    method TickAll(turn: string -> Outcome)
      requires Valid()
      modifies nodes
      ensures Valid() && |Records()| == |old(Records())|
      ensures forall i :: 0 <= i < |nodes| ==> Records()[i] == Ticked(old(Records())[i], turn(nodes[i].name))
    {
      ghost var before := Records();
      NamesDiffer(before);
      var i := 0;
      while i < |nodes|
        invariant i <= |nodes| && nodes == old(nodes)
        invariant forall j :: 0 <= j < |nodes| ==>
          nodes[j].Value() == if j < i then Ticked(before[j], turn(nodes[j].name)) else before[j]
      {
        var e := nodes[i];
        assert forall j :: 0 <= j < |nodes| && j != i ==> before[j].name != e.name;
        if e.active {
          e.Turn(turn(e.name));
        } else {
          TickedIdle(before[i], turn(e.name));
        }
        i := i + 1;
      }
      TurnKeepsOrder(before, Records(), turn);
    }

    /** drop: shut down the nodes that are still active. */
    method Drop()
      requires Valid()
      modifies nodes
      ensures forall i :: 0 <= i < |nodes| ==> Records()[i].calls == Life(|Records()[i].ran|, true)
      ensures forall i :: 0 <= i < |nodes| ==> Records()[i].ran == old(Records())[i].ran
    {
      ghost var before := Records();
      NamesDiffer(before);
      forall j | 0 <= j < |nodes|
        ensures before[j].calls + (if before[j].account.active then [Shutdown] else []) == Life(|before[j].ran|, true)
      {
        LifeEnds(before[j]);
      }
      hide Ordered, RecordOk, Life;
      var i := 0;
      while i < |nodes|
        invariant i <= |nodes| && nodes == old(nodes)
        invariant forall j :: 0 <= j < |nodes| ==>
          nodes[j].Value() == if j < i && before[j].account.active then before[j].(calls := before[j].calls + [Shutdown]) else before[j]
      {
        var e := nodes[i];
        assert forall j :: 0 <= j < |nodes| && j != i ==> before[j].name != e.name;
        if e.active {
          e.calls := e.calls + [Shutdown];
        }
        i := i + 1;
      }
    }
  }
}
