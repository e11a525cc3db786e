/** Taking a node out of service: announce, ask clients to leave, wait a bounded time, close
    what is left; and putting it back. Driven by ticks that compare what is wanted with what
    has been signalled. */
module Drain {
  import opened Basics

  /** One step of the sequence, in the order they happen. */
  datatype Step = Unready | Announced | Closing | Settled | Forced(remaining: nat)

  const SETTLE_INTERVAL: nat := 50 * MILLISECOND

  datatype Action = Start | Reverse | Nothing

  function DrainStep(requested: bool, signalled: bool): Action
  {
    match (requested, signalled)
    case (true, false) => Start
    case (false, true) => Reverse
    case _ => Nothing
  }

  /** The node as anyone reading its signals would find it between two assignments. */
  datatype Snapshot = Snapshot(at: Time, mode: Mode, draining: bool, closing: bool)

  /** Clients are asked to leave only while the fleet has been told the node is draining. */
  predicate FleetTold(s: Snapshot)
  {
    s.draining ==> s.mode == Draining
  }

  /** One tick: how long after the last, whether the node is wanted drained, and how long the
      announcement and the final reading take if this tick starts a drain. */
  datatype Tick = Tick(after: nat, requested: bool, gossip: nat, lag: nat)

  /** How many maximal stretches of wanted-drained ticks there are. */
  function Stretches(ticks: seq<Tick>): nat
  {
    if ticks == [] then 0
    else
      var n := |ticks| - 1;
      Stretches(ticks[..n]) + if ticks[n].requested && !Wanted(ticks[..n]) then 1 else 0
  }

  /** What the last tick wanted. */
  predicate Wanted(ticks: seq<Tick>)
  {
    ticks != [] && ticks[|ticks| - 1].requested
  }

  /** A stretch begins at this tick: it wants a drain and the one before did not. */
  predicate RisesAt(ticks: seq<Tick>, i: int)
  {
    0 <= i < |ticks| && ticks[i].requested && (i == 0 || !ticks[i - 1].requested)
  }

  ghost function Rises(ticks: seq<Tick>): set<int>
  {
    set i | 0 <= i < |ticks| && RisesAt(ticks, i)
  }

  lemma RisesMore(ticks: seq<Tick>)
    requires ticks != []
    ensures var n := |ticks| - 1;
            Rises(ticks) == Rises(ticks[..n]) + if ticks[n].requested && !Wanted(ticks[..n]) then {n} else {}
  {
    var n := |ticks| - 1;
    assert forall i :: 0 <= i < n ==> (RisesAt(ticks, i) <==> RisesAt(ticks[..n], i));
  }

  /** Counting stretches counts the ticks at which one begins. */
  lemma {:induction false} StretchesAreRises(ticks: seq<Tick>)
    ensures Stretches(ticks) == |Rises(ticks)|
  {
    if ticks != [] {
      StretchesAreRises(ticks[..|ticks| - 1]);
      RisesMore(ticks);
    }
  }

  /** The moment of the `m`th look at whether anyone is left. */
  function LookAt(start: Time, nap: nat, m: nat): Time
  {
    if m == 0 then start else LookAt(start, nap, m - 1) + nap
  }

  /** A drain that ran: when clients were asked to leave, when the waiting stopped, when those left were
      last counted, and how it went. */
  datatype Outcome = Outcome(asked: Time, waited: Time, counted: Time, steps: seq<Step>)

  /** The order the sequence promises, the bound on its wait, and what a forced close takes. */
  predicate InOrder(o: Outcome, grace: nat, clients: Time -> nat)
  {
    && o.asked <= o.waited <= o.asked + grace + Min(50 * MILLISECOND, grace) && o.waited <= o.counted
    && |o.steps| == 4 && o.steps[..3] == [Unready, Announced, Closing]
    && (o.steps[3].Forced? || o.steps[3].Settled?)
    && (o.steps[3].Forced? ==>
          o.waited >= o.asked + grace && clients(o.waited) > 0 && o.steps[3].remaining == clients(o.counted))
    && (o.steps[3].Settled? ==> clients(o.waited) == 0)
  }

  class Drainer {
    const grace: nat
    /** How many clients are connected at each moment, whoever comes and goes. */
    const clients: Time -> nat
    var now: Time
    var mode: Mode
    var draining: bool
    var closing: bool
    ghost var trace: seq<Snapshot>

    constructor (grace: nat, clients: Time -> nat, now: Time)
      ensures this.grace == grace && this.clients == clients && this.now == now
      ensures InService() && trace == []
    {
      this.grace, this.clients, this.now := grace, clients, now;
      mode, draining, closing := Active, false, false;
      trace := [];
    }

    predicate InService()
      reads this
    {
      mode == Active && !draining && !closing
    }

    predicate OutOfService()
      reads this
    {
      mode == Draining && draining
    }

    ghost function Now(): Snapshot
      reads this
    {
      Snapshot(now, mode, draining, closing)
    }

    ghost predicate AlwaysAnnounced()
      reads this
    {
      forall s :: s in trace ==> FleetTold(s)
    }

    /** Waits for the last client to leave, or for the grace to run out. */
    method Settle() returns (gone: bool, ghost looks: nat)
      modifies this`now
      ensures now == LookAt(old(now), Min(SETTLE_INTERVAL, grace), looks)
      ensures forall m :: 0 <= m < looks ==> clients(LookAt(old(now), Min(SETTLE_INTERVAL, grace), m)) > 0
      ensures gone == (clients(now) == 0)
      ensures old(now) <= now <= old(now) + grace + Min(SETTLE_INTERVAL, grace)
      ensures !gone ==> now >= old(now) + grace
    {
      var deadline := now + grace;
      var nap := Min(SETTLE_INTERVAL, grace);
      looks := 0;
      while now < deadline
        invariant old(now) <= now <= deadline + nap
        invariant now == LookAt(old(now), nap, looks)
        invariant forall m :: 0 <= m < looks ==> clients(LookAt(old(now), nap, m)) > 0
        decreases Less(deadline, now)
      {
        if clients(now) == 0 {
          return true, looks;
        }
        now := now + nap;
        looks := looks + 1;
      }
      return clients(now) == 0, looks;
    }

    /** The sequence, with a snapshot noted after every assignment. */
    method Run(gossip: nat, lag: nat) returns (outcome: Outcome)
      requires InService() && AlwaysAnnounced()
      modifies this
      ensures OutOfService() && AlwaysAnnounced() && old(trace) <= trace
      ensures outcome.asked == old(now) + gossip && InOrder(outcome, grace, clients)
      ensures outcome.counted == now && (closing ==> now == outcome.waited + lag)
      ensures closing <==> outcome.steps[3].Forced?
      ensures forall s :: s in trace[|old(trace)|..] && s.closing ==> s.at >= outcome.asked + grace
      ensures forall s :: s in trace[|old(trace)|..] && s.draining ==> s.at >= outcome.asked
    {
      var steps := [Unready];
      mode := Draining;
      trace := trace + [Now()];
      now := now + gossip;
      steps := steps + [Announced];
      var asked := now;
      draining := true;
      trace := trace + [Now()];
      steps := steps + [Closing];
      var gone, _ := Settle();
      var waited := now;
      if gone {
        steps := steps + [Settled];
      } else {
        now := now + lag;
        var remaining := clients(now);
        closing := true;
        trace := trace + [Now()];
        steps := steps + [Forced(remaining)];
      }
      outcome := Outcome(asked, waited, now, steps);
    }

    /** Back into service: the signals first, so nobody is asked to leave a node called active. */
    method Undrain()
      requires OutOfService() && AlwaysAnnounced()
      modifies this
      ensures InService() && AlwaysAnnounced() && old(trace) <= trace && now == old(now)
    {
      draining := false;
      trace := trace + [Now()];
      closing := false;
      trace := trace + [Now()];
      mode := Active;
      trace := trace + [Now()];
    }

    /** What a tick does about the drain state. */
    method Follow(tick: Tick) returns (outcome: Option<Outcome>)
      requires InService() || OutOfService()
      requires AlwaysAnnounced()
      modifies this
      ensures AlwaysAnnounced() && old(trace) <= trace
      ensures if tick.requested then OutOfService() else InService()
      ensures outcome.Some? <==> tick.requested && !old(draining)
      ensures outcome.Some? ==> InOrder(outcome.value, grace, clients)
    {
      now := now + tick.after;
      var action := DrainStep(tick.requested, draining);
      outcome := None;
      if action.Start? {
        var ran := Run(tick.gossip, tick.lag);
        outcome := Some(ran);
      } else if action.Reverse? {
        Undrain();
      }
    }

    /** Any sequence of ticks: the sequence runs once per stretch of wanted-drained ticks, every
        assignment of every run leaves a signalled node announced, and every forced close came
        after a full grace with somebody still there. */
    method FollowAll(ticks: seq<Tick>) returns (drains: seq<Outcome>)
      requires InService() && trace == []
      modifies this
      ensures AlwaysAnnounced()
      ensures if Wanted(ticks) then OutOfService() else InService()
      ensures |drains| == Stretches(ticks)
      ensures forall i :: 0 <= i < |drains| ==> InOrder(drains[i], grace, clients)
    {
      drains := [];
      assert ticks[..0] == [];
      for n := 0 to |ticks|
        invariant AlwaysAnnounced()
        invariant if Wanted(ticks[..n]) then OutOfService() else InService()
        invariant |drains| == Stretches(ticks[..n])
        invariant forall i :: 0 <= i < |drains| ==> InOrder(drains[i], grace, clients)
      {
        assert ticks[..n + 1][..n] == ticks[..n];
        var outcome := Follow(ticks[n]);
        if outcome.Some? {
          drains := drains + [outcome.value];
        }
      }
      assert ticks[..|ticks|] == ticks;
    }
  }
}
