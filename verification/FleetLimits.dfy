/** From the lease protocol to the pools: the limits a whole fleet's pools are held to, against the
    cap of the server they connect to. */
module FleetLimits {
  import opened Basics
  import opened Totals
  import opened Fleet
  import opened FleetTheorems
  import opened QuotaPass
  import Shares
  import Split

  /** A finished pass on one node: what it read, the pools it found, the limits it left, and the
      state of the run it read its allowance at. */
  datatype Pass = Pass(world: World, all: seq<Row>, before: map<PoolKey, nat>, after: map<PoolKey, nat>, readAt: nat)

  ghost predicate Finished(pass: Pass)
  {
    Passed(pass.world, pass.all, pass.before, pass.after)
  }

  /** What a node's pools on a server may open together. */
  ghost function LimitsOn(pass: Pass, server: ServerId): nat
  {
    Shares.Sum(ServerLimits(pass.after, PoolsFor(pass.all, server)))
  }

  /** The pass read no more than the node was allowed. */
  ghost predicate ReadWithin(pass: Pass, server: ServerId, allowance: nat)
  {
    Declared(pass.world, server) ==>
      LastRead(pass.world, server, Held(pass.all, server)).Total() <= allowance
  }

  lemma NodeWithinAllowance(pass: Pass, server: ServerId, allowance: nat)
    requires Finished(pass) && ReadWithin(pass, server, allowance)
    ensures LimitsOn(pass, server) <= allowance
  {
    PassHoldsServer(pass.world, pass.all, pass.before, pass.after, server);
  }

  /** Node `n`'s pass finished, having read what the node was allowed at its own state of the run. */
  ghost predicate ReadInRun(config: Config, trace: seq<State>, k: nat, n: NodeId, pass: Pass, server: ServerId)
    requires config.Valid() && k < |trace|
  {
    && Finished(pass) && pass.readAt <= k && n in trace[pass.readAt].nodes
    && ReadWithin(pass, server, AllowanceMap(config, trace[pass.readAt])[n])
  }

  ghost function LimitMap(passes: map<NodeId, Pass>, server: ServerId): map<NodeId, nat>
  {
    map n | n in passes :: LimitsOn(passes[n], server)
  }

  ghost function AllowedAt(config: Config, trace: seq<State>, k: nat, n: NodeId): nat
    requires config.Valid()
  {
    if k < |trace| && n in trace[k].nodes then AllowanceMap(config, trace[k])[n] else 0
  }

  ghost function LeasedAt(trace: seq<State>, k: nat, n: NodeId): nat
  {
    if k < |trace| && n in trace[k].nodes then Leased(trace[k].nodes[n], trace[k].now) else 0
  }

  /** How much of what each node's pass read it is no longer allowed. */
  ghost function LapsedMap(config: Config, trace: seq<State>, k: nat, passes: map<NodeId, Pass>): map<NodeId, nat>
    requires config.Valid()
  {
    map n | n in passes :: Less(AllowedAt(config, trace, passes[n].readAt, n), AllowedAt(config, trace, k, n))
  }

  /** In a fleet no larger than configured a node's guaranteed share never moves: nothing it can see
      changes the divisor. */
  lemma ShareNeverMoves(config: Config, trace: seq<State>, events: seq<Event>, k: nat, n: NodeId)
    requires config.Valid() && IsRun(config, trace, events) && k < |trace| && n in trace[k].nodes
    requires |trace[0].nodes.Keys| <= config.fleetSize
    ensures Guaranteed(config, trace[k].nodes[n], trace[k].now) == config.Portion()
  {
    var peers, now := trace[k].nodes[n].peers, trace[k].now;
    ViewsHold(config, trace, events, k);
    MembersFixed(config, trace, events, k);
    SubsetSize(ViewSet(config, peers, now), trace[0].nodes.Keys);
    Split.ShareShrinksWithSight(config.cap, config.fraction, config.fleetSize, Seen(config, peers, now));
  }

  /** So there only a lease can lapse. */
  lemma OnlyLeasesLapse(config: Config, trace: seq<State>, events: seq<Event>, j: nat, k: nat, n: NodeId)
    requires config.Valid() && IsRun(config, trace, events) && j <= k < |trace| && n in trace[0].nodes
    requires |trace[0].nodes.Keys| <= config.fleetSize
    ensures Less(AllowedAt(config, trace, j, n), AllowedAt(config, trace, k, n))
         == Less(LeasedAt(trace, j, n), LeasedAt(trace, k, n))
  {
    MembersFixed(config, trace, events, j);
    MembersFixed(config, trace, events, k);
    ShareNeverMoves(config, trace, events, j, n);
    ShareNeverMoves(config, trace, events, k, n);
  }

  /** Every node's last pass, each having read its allowance at its own state of the run. */
  ghost predicate AllRead(config: Config, trace: seq<State>, k: nat, server: ServerId, passes: map<NodeId, Pass>)
    requires config.Valid() && k < |trace|
  {
    && passes.Keys == trace[k].nodes.Keys
    && forall n :: n in passes ==> ReadInRun(config, trace, k, n, passes[n], server)
  }

  /** A node's limits are within what it is allowed now and what has lapsed since its pass. */
  ghost predicate WithinLapse(config: Config, trace: seq<State>, k: nat, n: NodeId, pass: Pass, server: ServerId)
    requires config.Valid()
  {
    LimitsOn(pass, server)
    <= AllowedAt(config, trace, k, n) + Less(AllowedAt(config, trace, pass.readAt, n), AllowedAt(config, trace, k, n))
  }

  lemma EachWithinLapse(config: Config, trace: seq<State>, k: nat, server: ServerId, passes: map<NodeId, Pass>)
    requires config.Valid() && k < |trace| && AllRead(config, trace, k, server, passes)
    ensures forall n :: n in passes ==> WithinLapse(config, trace, k, n, passes[n], server)
  {
    forall n | n in passes
      ensures WithinLapse(config, trace, k, n, passes[n], server)
    {
      assert ReadInRun(config, trace, k, n, passes[n], server);
      NodeWithinAllowance(passes[n], server, AllowedAt(config, trace, passes[n].readAt, n));
    }
  }

  lemma PoolsWithinLapse(config: Config, trace: seq<State>, k: nat, server: ServerId, passes: map<NodeId, Pass>)
    requires config.Valid() && k < |trace| && passes.Keys == trace[k].nodes.Keys
    requires forall n :: n in passes ==> WithinLapse(config, trace, k, n, passes[n], server)
    ensures Total(LimitMap(passes, server))
         <= Total(AllowanceMap(config, trace[k])) + Total(LapsedMap(config, trace, k, passes))
  {
    var allowances, lapsed := AllowanceMap(config, trace[k]), LapsedMap(config, trace, k, passes);
    var limits := LimitMap(passes, server);
    forall n | n in passes
      ensures limits[n] <= Both(allowances, lapsed)[n]
    {
      assert WithinLapse(config, trace, k, n, passes[n], server);
    }
    TotalBoth(allowances, lapsed);
    TotalMonotone(limits, Both(allowances, lapsed));
  }

  /** From the protocol to the pools, between passes as well as at them: in every run of the cap
      theorem, whenever each node last ran its pass, all the pools of the fleet together exceed the
      server's cap by no more than what has lapsed since those passes. */
  lemma PoolsFitCap(config: Config, members: set<NodeId>, trace: seq<State>, events: seq<Event>, k: nat,
                    server: ServerId, passes: map<NodeId, Pass>)
    requires config.Valid() && Sound(config, members, trace, events) && k < |trace| && config.SizeOk(|members|)
    requires AllRead(config, trace, k, server, passes)
    ensures Total(LimitMap(passes, server)) <= config.cap + Total(LapsedMap(config, trace, k, passes))
  {
    CapHoldsWithoutBridges(config, members, trace, events, k);
    EachWithinLapse(config, trace, k, server, passes);
    PoolsWithinLapse(config, trace, k, server, passes);
  }

  /** So they are within it whenever nothing a pass read has lapsed; in a fleet no larger than
      configured, whenever no lease has. */
  lemma PoolsFitWhileLeasesLast(config: Config, members: set<NodeId>, trace: seq<State>, events: seq<Event>, k: nat,
                                server: ServerId, passes: map<NodeId, Pass>)
    requires config.Valid() && Sound(config, members, trace, events) && k < |trace| && config.SizeOk(|members|)
    requires AllRead(config, trace, k, server, passes)
    requires forall n :: n in passes ==>
      || AllowedAt(config, trace, passes[n].readAt, n) <= AllowedAt(config, trace, k, n)
      || (|members| <= config.fleetSize && LeasedAt(trace, passes[n].readAt, n) <= LeasedAt(trace, k, n))
    ensures Total(LimitMap(passes, server)) <= config.cap
  {
    PoolsFitCap(config, members, trace, events, k, server, passes);
    MembersFixed(config, trace, events, k);
    forall n | n in passes
      ensures LapsedMap(config, trace, k, passes)[n] == 0
    {
      assert ReadInRun(config, trace, k, n, passes[n], server);
      if |members| <= config.fleetSize {
        OnlyLeasesLapse(config, trace, events, passes[n].readAt, k, n);
      }
    }
    TotalConstant(LapsedMap(config, trace, k, passes), 0);
  }
}
