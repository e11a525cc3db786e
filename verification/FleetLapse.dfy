/** A sound run in which a lease lapses and is leased again before its first holder's next pass, so
    that the fleet's pools are together held to more than the cap. */
module FleetLapse {
  import opened Basics
  import opened Totals
  import opened Fleet
  import opened FleetTheorems
  import opened FleetCamps
  import opened FleetCourt
  import opened FleetLimits
  import opened QuotaPass
  import Shares
  import Split

  // ---------- the leader leases, and its lease lapses ----------

  /** By the end of the lease's life nothing is on the record. */
  lemma TakenLapses(config: Config, members: set<NodeId>, x: NodeId, group: set<NodeId>, lead: Node, t: Time, now: Time)
    requires config.Valid() && Presides(config, members, x, group, lead, t) && config.ttl > 0 && t + config.ttl <= now
    ensures Attends(config, members, x, group, Taken(config, x, lead, t), t)
    ensures Presides(config, members, x, group, Heard(Taken(config, x, lead, t), group, now), now)
  {
  }

  /** The leader takes the pool. */
  lemma FirstLease(config: Config, members: set<NodeId>, x: NodeId, group: set<NodeId>, y: NodeId, period: nat)
    returns (trace: seq<State>, events: seq<Event>, t: Time, lead: Node)
    requires CourtOk(config, members, x, group, y) && Paced(config, period) && config.Pool() > 0
    ensures Goes(config, CourtLinks(x, group, y), trace, events) && trace[0].nodes.Keys == members
    ensures Presides(config, members, x, group, lead, t)
    ensures Last(trace) == Court(config, members, x, y, t, Taken(config, x, lead, t), Fresh(config))
  {
    var links, start := CourtLinks(x, group, y), Court(config, members, x, y, 0, Fresh(config), Fresh(config));
    var first, opens, node := CourtOpens(config, members, x, group, y, period);
    t, lead := opens, node;
    var take := LeaderTakes(config, members, x, group, y, t, lead, Fresh(config));
    var end := Court(config, members, x, y, t, Taken(config, x, lead, t), Fresh(config));
    Then(config, links, start, first, Court(config, members, x, y, t, lead, Fresh(config)), [take], end);
    events := first + [take];
    assert start.nodes.Keys == members;
    trace := DrivenGoes(config, links, start, events, end);
  }

  /** The lease lapses, and the other node leases the pool. */
  lemma SecondLease(config: Config, members: set<NodeId>, x: NodeId, group: set<NodeId>, y: NodeId, t: Time, lead: Node,
                    period: nat, rounds: nat) returns (events: seq<Event>)
    requires CourtOk(config, members, x, group, y) && Presides(config, members, x, group, lead, t)
    requires Paced(config, period) && config.Pool() > 0 && config.ttl > 0
    requires After(t, period, rounds) >= t + config.ttl
    ensures var now := After(t, period, rounds);
            var later := Heard(Taken(config, x, lead, t), group, now);
            Drives(config, CourtLinks(x, group, y),
                   Court(config, members, x, y, t, Taken(config, x, lead, t), Fresh(config)), events,
                   Court(config, members, x, y, now, Granting(config, later, y, now),
                         Holder(config, x, Listener(config, x, now), now)))
  {
    var links, now, taken := CourtLinks(x, group, y), After(t, period, rounds), Taken(config, x, lead, t);
    var start, later := Court(config, members, x, y, t, taken, Fresh(config)), Heard(taken, group, now);
    TakenLapses(config, members, x, group, lead, t, now);
    events := CourtGoesOn(config, members, x, group, y, t, taken, Fresh(config), period, rounds);
    AskerHears(config, members, x, group, y, now, later, Fresh(config));
    Then(config, links, start, events, Court(config, members, x, y, now, later, Fresh(config)),
         [Hear(y, x, Active, true)], Court(config, members, x, y, now, later, Listener(config, x, now)));
    events := events + [Hear(y, x, Active, true)];
    var more := AskerLeases(config, members, x, group, y, now, later, Listener(config, x, now));
    Then(config, links, start, events, Court(config, members, x, y, now, later, Listener(config, x, now)), more,
         Court(config, members, x, y, now, Granting(config, later, y, now),
               Holder(config, x, Listener(config, x, now), now)));
    events := events + more;
  }

  // ---------- what each node is allowed when its pass reads ----------

  /** Two leases of the pool one after the other: one node is allowed it at the first state and
      another at the last, and everybody at least a portion throughout. */
  ghost predicate LeasedInTurn(config: Config, members: set<NodeId>, x: NodeId, y: NodeId, before: State, after: State)
    requires config.Valid()
  {
    && x in members && y in members && before.nodes.Keys == members == after.nodes.Keys
    && AllowanceMap(config, before)[x] == config.Portion() + config.Pool()
    && AllowanceMap(config, after)[y] == config.Portion() + config.Pool()
    && forall id :: id in members ==> AllowanceMap(config, after)[id] >= config.Portion()
  }

  lemma TurnsAllowed(config: Config, members: set<NodeId>, x: NodeId, group: set<NodeId>, y: NodeId, t: Time,
                     lead: Node, now: Time)
    requires CourtOk(config, members, x, group, y) && Presides(config, members, x, group, lead, t)
    requires config.ttl >= MILLISECOND
    ensures var taken := Taken(config, x, lead, t);
            LeasedInTurn(config, members, x, y, Court(config, members, x, y, t, taken, Fresh(config)),
                         Court(config, members, x, y, now, Granting(config, Heard(taken, group, now), y, now),
                               Holder(config, x, Listener(config, x, now), now)))
  {
    var taken := Taken(config, x, lead, t);
    var granting := Granting(config, Heard(taken, group, now), y, now);
    var holder := Holder(config, x, Listener(config, x, now), now);
    CourtShares(config, members, x, group, y, t, taken, Fresh(config), t);
    CourtShares(config, members, x, group, y, now, granting, holder, now);
    assert Leased(holder, now) == config.Pool();
    assert Leased(taken, t) == config.Pool();
  }

  /** The whole run: the first lease read at one state of it, the second at its last. */
  lemma LapseRun(config: Config, members: set<NodeId>, x: NodeId, group: set<NodeId>, y: NodeId, period: nat)
    returns (trace: seq<State>, events: seq<Event>, read: nat)
    requires CourtOk(config, members, x, group, y) && Paced(config, period)
    requires config.Pool() > 0 && config.ttl >= MILLISECOND
    ensures Sound(config, members, trace, events) && read < |trace|
    ensures LeasedInTurn(config, members, x, y, trace[read], Last(trace))
  {
    var before, first, t, lead := FirstLease(config, members, x, group, y, period);
    AfterIsLater(t, period, config.ttl);
    var second := SecondLease(config, members, x, group, y, t, lead, period, config.ttl);
    var now := After(t, period, config.ttl);
    var later := Heard(Taken(config, x, lead, t), group, now);
    var end := Court(config, members, x, y, now, Granting(config, later, y, now),
      Holder(config, x, Listener(config, x, now), now));
    trace := GoesFurther(config, CourtLinks(x, group, y), before, first, second, end);
    events, read := first + second, |before| - 1;
    TurnsAllowed(config, members, x, group, y, t, lead, now);
    GoesHeeds(config, CourtLinks(x, group, y), trace, events);
    CourtIsExclusive(config, x, group, y, trace, events);
  }

  // ---------- the passes ----------

  /** A pass over a node's one pool on the server, that read this allowance. */
  ghost function PassOf(server: ServerId, allowance: nat, readAt: nat): Pass
  {
    var key := PoolKey(server, "", "");
    Pass(World({server}, map[], _ => Reading(Allowance(allowance, 0), None), allowance), [Row(key, 0, 0, 0)], map[],
         map[key := allowance], readAt)
  }

  /** It leaves that pool with all of it. */
  lemma PassLeaves(server: ServerId, allowance: nat, readAt: nat)
    requires allowance <= U32_MAX
    ensures var pass := PassOf(server, allowance, readAt);
            && Finished(pass) && LimitsOn(pass, server) == allowance && ReadWithin(pass, server, allowance)
  {
    var pass := PassOf(server, allowance, readAt);
    var rows := PoolsFor(pass.all, server);
    assert pass.all[..0] == [] && PoolsFor([], server) == [];
    assert rows == pass.all;
    assert Position(pass.all, 0) == 0;
    Shares.SharesSumToTotal(allowance, Demands(rows));
    var shares := Shares.AllShares(allowance, Demands(rows));
    assert shares[1..] == [];
    assert LimitOf(pass.world, pass.all, 0) == allowance;
    var limits := ServerLimits(pass.after, rows);
    assert limits[1..] == [];
  }

  /** Each node's last pass: the first holder's read at its own lease, everyone else's at the end. */
  ghost function Passes(config: Config, members: set<NodeId>, x: NodeId, trace: seq<State>, read: nat,
                        server: ServerId): map<NodeId, Pass>
    requires config.Valid() && read < |trace|
  {
    map n | n in members ::
      PassOf(server, AllowedAt(config, trace, ReadAt(x, trace, read, n), n), ReadAt(x, trace, read, n))
  }

  ghost function ReadAt(x: NodeId, trace: seq<State>, read: nat, n: NodeId): nat
    requires read < |trace|
  {
    if n == x then read else |trace| - 1
  }

  /** A pass that finished, having read what its node was allowed, and left all of it. */
  ghost predicate ReadAndLeft(config: Config, trace: seq<State>, server: ServerId, n: NodeId, pass: Pass, at: nat)
    requires config.Valid() && trace != []
  {
    ReadInRun(config, trace, |trace| - 1, n, pass, server)
    && LimitsOn(pass, server) == AllowedAt(config, trace, at, n)
  }

  lemma PassesRead(config: Config, members: set<NodeId>, x: NodeId, trace: seq<State>, read: nat, server: ServerId,
                   n: NodeId)
    requires config.Valid() && config.cap <= U32_MAX && read < |trace| && n in members
    requires trace[read].nodes.Keys == members == Last(trace).nodes.Keys
    requires AllowedAt(config, trace, ReadAt(x, trace, read, n), n) <= config.cap
    ensures ReadAndLeft(config, trace, server, n, Passes(config, members, x, trace, read, server)[n],
                        ReadAt(x, trace, read, n))
  {
    var at := ReadAt(x, trace, read, n);
    PassLeaves(server, AllowedAt(config, trace, at, n), at);
  }

  /** No node alone is allowed more than the cap. */
  lemma AllowedWithinCap(config: Config, members: set<NodeId>, trace: seq<State>, events: seq<Event>, k: nat, n: NodeId)
    requires config.Valid() && Sound(config, members, trace, events) && config.SizeOk(|members|)
    ensures AllowedAt(config, trace, k, n) <= config.cap
  {
    if k < |trace| && n in trace[k].nodes {
      CapHoldsWithoutBridges(config, members, trace, events, k);
      TotalRemove(AllowanceMap(config, trace[k]), n);
    }
  }

  ghost function Same(limits: map<NodeId, nat>, each: nat): map<NodeId, nat>
  {
    map n | n in limits :: each
  }

  ghost function Pair(limits: map<NodeId, nat>, x: NodeId, y: NodeId, extra: nat): map<NodeId, nat>
  {
    map n | n in limits :: if n in {x, y} then extra else 0
  }

  lemma PairTotal(limits: map<NodeId, nat>, x: NodeId, y: NodeId, extra: nat)
    requires x in limits && y in limits && x != y
    ensures Total(Pair(limits, x, y, extra)) == 2 * extra
  {
    var two := {x, y};
    assert |two| == 2;
    TotalAmong(Pair(limits, x, y, extra), two, extra);
  }

  lemma SameTotal(limits: map<NodeId, nat>, each: nat)
    ensures Total(Same(limits, each)) == |limits.Keys| * each
  {
    assert Same(limits, each).Keys == limits.Keys;
    TotalConstant(Same(limits, each), each);
  }

  lemma TwiceOver(limits: map<NodeId, nat>, x: NodeId, y: NodeId, each: nat, extra: nat)
    requires x in limits && y in limits && x != y && limits[x] == each + extra == limits[y]
    requires forall n :: n in limits ==> limits[n] >= each
    ensures Total(limits) >= Total(Same(limits, each)) + 2 * extra
  {
    var same, more := Same(limits, each), Pair(limits, x, y, extra);
    PairTotal(limits, x, y, extra);
    TotalBoth(same, more);
    TotalMonotone(Both(same, more), limits);
  }

  ghost predicate AllAllowed(config: Config, trace: seq<State>)
    requires config.Valid()
  {
    forall k: nat, n :: AllowedAt(config, trace, k, n) <= config.cap
  }

  lemma PassesAll(config: Config, members: set<NodeId>, x: NodeId, trace: seq<State>, read: nat, server: ServerId)
    requires config.Valid() && config.cap <= U32_MAX && read < |trace| && AllAllowed(config, trace)
    requires trace[read].nodes.Keys == members == Last(trace).nodes.Keys
    ensures var passes := Passes(config, members, x, trace, read, server);
            forall n :: n in members ==>
              ReadAndLeft(config, trace, server, n, passes[n], ReadAt(x, trace, read, n))
  {
    var passes := Passes(config, members, x, trace, read, server);
    forall n | n in members
      ensures ReadAndLeft(config, trace, server, n, passes[n], ReadAt(x, trace, read, n))
    {
      PassesRead(config, members, x, trace, read, server, n);
    }
  }

  lemma LimitsAsAllowed(config: Config, members: set<NodeId>, x: NodeId, trace: seq<State>, read: nat, server: ServerId,
                        passes: map<NodeId, Pass>)
    requires config.Valid() && read < |trace| && passes.Keys == members == Last(trace).nodes.Keys
    requires forall n :: n in members ==> ReadAndLeft(config, trace, server, n, passes[n], ReadAt(x, trace, read, n))
    ensures AllRead(config, trace, |trace| - 1, server, passes)
    ensures forall n :: n in members ==>
      LimitMap(passes, server)[n] == AllowedAt(config, trace, ReadAt(x, trace, read, n), n)
  {
    forall n | n in members
      ensures ReadInRun(config, trace, |trace| - 1, n, passes[n], server)
      ensures LimitMap(passes, server)[n] == AllowedAt(config, trace, ReadAt(x, trace, read, n), n)
    {
      assert ReadAndLeft(config, trace, server, n, passes[n], ReadAt(x, trace, read, n));
    }
  }

  lemma AlwaysAllowed(config: Config, members: set<NodeId>, trace: seq<State>, events: seq<Event>)
    requires config.Valid() && Sound(config, members, trace, events) && config.SizeOk(|members|)
    ensures AllAllowed(config, trace)
  {
    forall k: nat, n
      ensures AllowedAt(config, trace, k, n) <= config.cap
    {
      AllowedWithinCap(config, members, trace, events, k, n);
    }
  }

  lemma AtLeastPortions(config: Config, members: set<NodeId>, x: NodeId, y: NodeId, trace: seq<State>, read: nat,
                        limits: map<NodeId, nat>)
    requires config.Valid() && read < |trace| && LeasedInTurn(config, members, x, y, trace[read], Last(trace)) && x != y
    requires limits.Keys == members
    requires forall n :: n in members ==>
      limits[n] == AllowedAt(config, trace, ReadAt(x, trace, read, n), n)
    ensures limits[x] == config.Portion() + config.Pool() == limits[y]
    ensures forall n :: n in limits ==> limits[n] >= config.Portion()
  {
  }

  lemma LimitsInTurn(config: Config, members: set<NodeId>, x: NodeId, y: NodeId, trace: seq<State>, read: nat,
                     server: ServerId)
    requires config.Valid() && config.cap <= U32_MAX && read < |trace| && AllAllowed(config, trace) && x != y
    requires LeasedInTurn(config, members, x, y, trace[read], Last(trace))
    ensures var passes := Passes(config, members, x, trace, read, server);
            && AllRead(config, trace, |trace| - 1, server, passes)
            && Total(LimitMap(passes, server)) >= |members| * config.Portion() + 2 * config.Pool()
  {
    var passes := Passes(config, members, x, trace, read, server);
    PassesAll(config, members, x, trace, read, server);
    assert passes.Keys == members;
    LimitsAsAllowed(config, members, x, trace, read, server, passes);
    var limits := LimitMap(passes, server);
    assert limits.Keys == members;
    AtLeastPortions(config, members, x, y, trace, read, limits);
    TwiceOver(limits, x, y, config.Portion(), config.Pool());
    SameTotal(limits, config.Portion());
  }

  /** In any fleet of an allowed size, at any pace, a sound run and passes that each read what their
      node was allowed, after which the fleet's pools are held to a portion for everyone and the pool
      twice. */
  lemma LapsedLimits(config: Config, members: set<NodeId>, x: NodeId, group: set<NodeId>, y: NodeId, server: ServerId,
                     period: nat) returns (trace: seq<State>, events: seq<Event>, passes: map<NodeId, Pass>)
    requires CourtOk(config, members, x, group, y) && Paced(config, period) && config.SizeOk(|members|)
    requires config.Pool() > 0 && config.ttl >= MILLISECOND && config.cap <= U32_MAX
    ensures Sound(config, members, trace, events) && AllRead(config, trace, |trace| - 1, server, passes)
    ensures Total(LimitMap(passes, server)) >= |members| * config.Portion() + 2 * config.Pool()
  {
    var read;
    trace, events, read := LapseRun(config, members, x, group, y, period);
    passes := Passes(config, members, x, trace, read, server);
    AlwaysAllowed(config, members, trace, events);
    LimitsInTurn(config, members, x, y, trace, read, server);
  }

  /** At the configured size that is more than the cap whenever the pool is larger than what the
      portions leave over. */
  lemma LapsePassesCap(config: Config, members: set<NodeId>, x: NodeId, group: set<NodeId>, y: NodeId, server: ServerId,
                       period: nat) returns (trace: seq<State>, events: seq<Event>, passes: map<NodeId, Pass>)
    requires CourtOk(config, members, x, group, y) && Paced(config, period) && |members| == config.fleetSize
    requires config.Pool() > Split.GuaranteedTotal(config.cap, config.fraction) % config.fleetSize
    requires config.ttl >= MILLISECOND && config.cap <= U32_MAX
    ensures Sound(config, members, trace, events) && AllRead(config, trace, |trace| - 1, server, passes)
    ensures Total(LimitMap(passes, server)) > config.cap
  {
    Split.PortionsLeave(Split.GuaranteedTotal(config.cap, config.fraction), config.fleetSize);
    trace, events, passes := LapsedLimits(config, members, x, group, y, server, period);
  }
}
