/** Runs that take the fleet as far as it can go, and with them the exact conditions on its size: when
    the cap holds whatever the network does, and when it holds in every sound run. */
module FleetExact {
  import opened Basics
  import opened Totals
  import opened Fleet
  import opened FleetTheorems
  import opened FleetIssuers
  import opened FleetBreaches
  import opened FleetCamps
  import Ledger
  import Split

  // ---------- a camp hands out the pool ----------

  /** A leader that has attended its camp through the wait could take the whole pool. */
  lemma SeatedIsPoised(config: Config, members: set<NodeId>, leaders: set<NodeId>, links: Links, t: Time, x: NodeId)
    requires config.Valid() && config.suspectAfter > 0 && config.deadAfter > 0
    requires Campable(config, members, leaders, links) && x in leaders && t >= config.Lease().wait
    ensures Poised(config, Seated(config, members, leaders, links, t), x)
  {
    assert Contacts(links[x], links[x], t, t) == Hearing(links[x], t);
    CampLeads(config, members, x, links[x], links[x], t, t);
    assert Ledger.Live(map[], t) == map[];
  }

  lemma AllPoised(config: Config, members: set<NodeId>, leaders: set<NodeId>, links: Links, t: Time)
    requires config.Valid() && config.suspectAfter > 0 && config.deadAfter > 0
    requires Campable(config, members, leaders, links) && t >= config.Lease().wait
    ensures forall x :: x in leaders ==> Poised(config, Seated(config, members, leaders, links, t), x)
  {
    forall x | x in leaders
      ensures Poised(config, Seated(config, members, leaders, links, t), x)
    {
      SeatedIsPoised(config, members, leaders, links, t, x);
    }
  }

  lemma SeatedHoldNothing(config: Config, members: set<NodeId>, leaders: set<NodeId>, links: Links, t: Time)
    ensures var st := Seated(config, members, leaders, links, t);
            st.nodes.Keys == members && forall id :: id in st.nodes ==> Leased(st.nodes[id], t) == 0
  {
  }

  /** Nobody sees more than was configured, so everyone has a whole portion. */
  lemma SeatedShares(config: Config, members: set<NodeId>, leaders: set<NodeId>, links: Links, t: Time)
    requires config.Valid() && Campable(config, members, leaders, links)
    ensures Total(ShareMap(config, Seated(config, members, leaders, links, t))) == |members| * config.Portion()
  {
    var st := Seated(config, members, leaders, links, t);
    assert st.nodes.Keys == members == ShareMap(config, st).Keys;
    forall id | id in members
      ensures ShareMap(config, st)[id] == config.Portion()
    {
      var peers := st.nodes[id].peers;
      if id in leaders {
        assert CampOk(config, members, id, links[id]);
        SubsetSize(ViewSet(config, peers, t), links[id]);
      } else {
        assert ViewSet(config, peers, t) == {};
      }
      Split.ShareShrinksWithSight(config.cap, config.fraction, config.fleetSize, Seen(config, peers, t));
    }
    TotalConstant(ShareMap(config, st), config.Portion());
  }

  lemma {:induction false} AsksDrive(config: Config, links: Links, st: State, asks: seq<(NodeId, nat)>)
    returns (events: seq<Event>)
    requires config.Valid()
    ensures Drives(config, links, st, events, AskAll(config, st, asks))
    decreases |asks|
  {
    if asks == [] {
      events := [];
      Stay(config, links, st);
    } else {
      var before, last := asks[..|asks| - 1], asks[|asks| - 1];
      var first := AsksDrive(config, links, st, before);
      var mid := AskAll(config, st, before);
      One(config, links, mid, Ask(last.0, last.1));
      Then(config, links, st, first, mid, [Ask(last.0, last.1)], AskAll(config, st, asks));
      events := first + [Ask(last.0, last.1)];
    }
  }

  /** Each of the leaders asks for all it can have, once everyone has attended through the wait. */
  lemma LeadersAsk(config: Config, members: set<NodeId>, leaders: set<NodeId>, links: Links, t: Time)
    returns (asks: seq<(NodeId, nat)>)
    requires config.Valid() && config.ttl > 0 && config.suspectAfter > 0 && config.deadAfter > 0
    requires Campable(config, members, leaders, links) && leaders <= members && t >= config.Lease().wait
    ensures var b := AskAll(config, Seated(config, members, leaders, links, t), asks);
            && Total(LeasedMap(b)) == |leaders| * config.Pool()
            && Total(ShareMap(config, b)) == |members| * config.Portion()
  {
    var st := Seated(config, members, leaders, links, t);
    SeatedShares(config, members, leaders, links, t);
    SeatedHoldNothing(config, members, leaders, links, t);
    if config.Pool() == 0 {
      asks := [];
      TotalBound(LeasedMap(st), 0);
    } else {
      AllPoised(config, members, leaders, links, t);
      asks := EachTakes(config, st, leaders);
      TakenTotal(config, st, AskAll(config, st, asks), leaders);
    }
  }

  lemma FreshSeats(config: Config, members: set<NodeId>, links: Links)
    ensures IsInitial(config, Seated(config, members, {}, links, 0))
    ensures Seated(config, members, {}, links, 0).nodes.Keys == members
  {
  }

  /** Any camps at all, at any pace: a run along their links that ends with the pool handed out once
      for each of them and a whole portion believed by every member. */
  lemma CampsHandOut(config: Config, members: set<NodeId>, leaders: set<NodeId>, links: Links, period: nat)
    returns (trace: seq<State>, events: seq<Event>)
    requires config.Valid() && config.ttl > 0 && Paced(config, period)
    requires Campable(config, members, leaders, links) && leaders <= members
    ensures Goes(config, links, trace, events) && trace[0].nodes.Keys == members
    ensures Total(LeasedMap(Last(trace))) == |leaders| * config.Pool()
    ensures Total(ShareMap(config, Last(trace))) == |members| * config.Portion()
  {
    var start, t := Seated(config, members, {}, links, 0), After(0, period, config.Lease().wait);
    var first := CampsLast(config, members, leaders, links, period, config.Lease().wait);
    AfterIsLater(0, period, config.Lease().wait);
    var mid := Seated(config, members, leaders, links, t);
    var asks := LeadersAsk(config, members, leaders, links, t);
    var second := AsksDrive(config, links, mid, asks);
    Then(config, links, start, first, mid, second, AskAll(config, mid, asks));
    FreshSeats(config, members, links);
    events := first + second;
    trace := DrivenGoes(config, links, start, events, AskAll(config, mid, asks));
  }

  // ---------- whatever the network does ----------

  lemma BridgeCamp(config: Config, members: set<NodeId>, top: set<NodeId>, x: NodeId)
    requires Topmost(members, top) && |top| == config.Majority() - 1 && x in members && x !in top
    ensures CampOk(config, members, x, {x} + top)
  {
    assert ({x} + top) - {x} == top;
  }

  function BridgeLinks(leaders: set<NodeId>, top: set<NodeId>): Links
  {
    map x | x in leaders :: {x} + top
  }

  lemma AllBridged(config: Config, members: set<NodeId>, top: set<NodeId>)
    requires Topmost(members, top) && |top| == config.Majority() - 1
    ensures Campable(config, members, members - top, BridgeLinks(members - top, top))
  {
    var leaders := members - top;
    forall x | x in leaders
      ensures x in BridgeLinks(leaders, top) && CampOk(config, members, x, BridgeLinks(leaders, top)[x])
    {
      BridgeCamp(config, members, top, x);
    }
  }

  lemma RestSize(members: set<NodeId>, top: set<NodeId>)
    requires top <= members
    ensures |members - top| == |members| - |top|
  {
    assert members == (members - top) + top;
  }

  /** Every member below the highest few leads a camp of itself and those few. */
  lemma BridgeCamps(config: Config, members: set<NodeId>) returns (leaders: set<NodeId>, links: Links)
    ensures Campable(config, members, leaders, links) && leaders <= members
    ensures |leaders| == Seats(config, |members|)
  {
    if |members| < config.Majority() {
      leaders, links := {}, map[];
    } else {
      var top := TopOf(members, config.Majority() - 1);
      leaders, links := members - top, BridgeLinks(members - top, top);
      AllBridged(config, members, top);
      RestSize(members, top);
    }
  }

  /** The worst case is reached: nodes that all hear the same few, and not each other, each take the
      pool. */
  lemma WorstCaseReached(config: Config, members: set<NodeId>, period: nat)
    returns (trace: seq<State>, events: seq<Event>)
    requires config.Valid() && config.ttl > 0 && Paced(config, period)
    ensures SteadyFor(config, members, trace, events)
    ensures Total(LeasedMap(Last(trace))) == Seats(config, |members|) * config.Pool()
    ensures Total(AllowanceMap(config, Last(trace))) == WorstCase(config, |members|)
  {
    var leaders, links := BridgeCamps(config, members);
    trace, events := CampsHandOut(config, members, leaders, links, period);
    GoesHeeds(config, links, trace, events);
    AllowanceIsShareAndLease(config, Last(trace));
  }

  /** Windows longer than a moment leave room for some pace. */
  predicate Unhurried(config: Config)
  {
    config.suspectAfter > 1 && config.deadAfter > 1
  }

  ghost predicate SteadyFor(config: Config, members: set<NodeId>, trace: seq<State>, events: seq<Event>)
    requires config.Valid()
  {
    Steady(config, trace, events) && trace[0].nodes.Keys == members
  }

  ghost predicate SteadilyCapped(config: Config, members: set<NodeId>)
    requires config.Valid()
  {
    forall trace, events, k :: SteadyFor(config, members, trace, events) && 0 <= k < |trace| ==>
      Total(AllowanceMap(config, trace[k])) <= config.cap
  }

  /** Whatever the network does, these members never pass the cap in a steady run exactly when their
      worst case is within it. */
  lemma AnyNetworkExactly(config: Config, members: set<NodeId>)
    requires config.Valid() && config.ttl > 0 && Unhurried(config)
    ensures SteadilyCapped(config, members) <==> WorstCase(config, |members|) <= config.cap
  {
    if WorstCase(config, |members|) <= config.cap {
      forall trace, events, k | SteadyFor(config, members, trace, events) && 0 <= k < |trace|
        ensures Total(AllowanceMap(config, trace[k])) <= config.cap
      {
        WorstCaseBounds(config, trace, events, k);
      }
    } else {
      var trace, events := WorstCaseReached(config, members, 1);
      assert Last(trace) == trace[|trace| - 1];
    }
  }

  /** At the configured size that is: one seat, or a pool that, handed out again for every seat but
      the first, fits what the portions leave over. */
  lemma WorstCaseConfigured(config: Config)
    requires config.Valid()
    ensures WorstCase(config, config.fleetSize) <= config.cap
       <==> (Seats(config, config.fleetSize) - 1) * config.Pool()
              <= Split.GuaranteedTotal(config.cap, config.fraction) % config.fleetSize
  {
    var g, f, s, p := Split.GuaranteedTotal(config.cap, config.fraction), config.fleetSize,
      Seats(config, config.fleetSize), config.Pool();
    Split.PortionsLeave(g, f);
    ButOne(s, p);
  }

  lemma ButOne(n: nat, each: nat)
    ensures (n - 1) * each == n * each - each
  {
  }

  /** So a bridge that lasts breaks the cap of every fleet run at its configured size whose pool is
      larger than what the portions leave over, for three nodes, and in proportion for more. */
  lemma BridgePassesCap(config: Config, members: set<NodeId>, period: nat)
    returns (trace: seq<State>, events: seq<Event>)
    requires config.Valid() && config.ttl > 0 && Paced(config, period) && |members| == config.fleetSize
    requires (Seats(config, config.fleetSize) - 1) * config.Pool()
               > Split.GuaranteedTotal(config.cap, config.fraction) % config.fleetSize
    ensures SteadyFor(config, members, trace, events)
    ensures Total(LeasedMap(Last(trace))) == (config.fleetSize + 1) / 2 * config.Pool()
    ensures Total(AllowanceMap(config, Last(trace))) > config.cap
  {
    WorstCaseConfigured(config);
    assert Seats(config, config.fleetSize) == (config.fleetSize + 1) / 2;
    trace, events := WorstCaseReached(config, members, period);
  }

  // ---------- sound runs ----------

  lemma {:induction false} Lowest(group: set<NodeId>) returns (low: NodeId)
    requires group != {}
    ensures low in group && forall g :: g in group ==> low <= g
    decreases |group|
  {
    var x :| x in group;
    var rest := group - {x};
    low := x;
    if rest != {} {
      var other := Lowest(rest);
      low := Min(x, other);
    }
    forall g | g in group
      ensures low <= g
    {
      assert g == x || g in rest;
    }
  }

  ghost predicate CampsApart(config: Config, members: set<NodeId>, links: Links)
  {
    Campable(config, members, links.Keys, links) && Apart(links) && links.Keys <= members
  }

  lemma AnotherCamp(config: Config, members: set<NodeId>, group: set<NodeId>, x: NodeId, rest: Links)
    requires CampOk(config, members, x, group) && CampsApart(config, members - group, rest)
    ensures CampsApart(config, members, rest[x := group]) && x !in rest
  {
    var links := rest[x := group];
    forall y | y in links.Keys
      ensures CampOk(config, members, y, links[y]) && (y != x ==> y in rest && links[y] !! group)
    {
      assert y != x ==> CampOk(config, members - group, y, rest[y]);
    }
  }

  /** As many camps with nobody in common as there are majorities in the members. */
  lemma {:induction false} DisjointCamps(config: Config, members: set<NodeId>, n: nat) returns (links: Links)
    requires n * config.Majority() <= |members|
    ensures CampsApart(config, members, links) && |links.Keys| == n
    decreases n
  {
    if n == 0 {
      links := map[];
    } else {
      OnceMore(n, config.Majority());
      var group := TopOf(members, config.Majority());
      var x := Lowest(group);
      assert members == (members - group) + group;
      var rest := DisjointCamps(config, members - group, n - 1);
      AnotherCamp(config, members, group, x, rest);
      links := rest[x := group];
      assert links.Keys == rest.Keys + {x};
    }
  }

  /** A sound run takes the pool as often as there are majorities with nobody in common. */
  lemma SoundRunReaches(config: Config, members: set<NodeId>, period: nat)
    returns (trace: seq<State>, events: seq<Event>)
    requires config.Valid() && config.ttl > 0 && Paced(config, period)
    ensures Sound(config, members, trace, events)
    ensures Total(LeasedMap(Last(trace))) == |members| / config.Majority() * config.Pool()
    ensures Total(ShareMap(config, Last(trace))) == |members| * config.Portion()
  {
    var links := DisjointCamps(config, members, |members| / config.Majority());
    trace, events := CampsHandOut(config, members, links.Keys, links, period);
    ApartIsSound(config, links, trace, events);
  }

  /** In every sound run the shares fit the guaranteed part and the leases fit the pool. */
  ghost predicate BothPartsFit(config: Config, members: set<NodeId>)
    requires config.Valid()
  {
    forall trace, events, k :: Sound(config, members, trace, events) && 0 <= k < |trace| ==>
      && Total(ShareMap(config, trace[k])) <= Split.GuaranteedTotal(config.cap, config.fraction)
      && Total(LeasedMap(trace[k])) <= config.Pool()
  }

  ghost predicate SoundlyCapped(config: Config, members: set<NodeId>)
    requires config.Valid()
  {
    forall trace, events, k :: Sound(config, members, trace, events) && 0 <= k < |trace| ==>
      Total(AllowanceMap(config, trace[k])) <= config.cap
  }

  /** Two majorities with nobody in common lease the pool twice. */
  lemma TwoMajorities(config: Config, n: nat)
    requires n >= 2 * config.Majority() && config.Pool() > 0
    ensures n / config.Majority() * config.Pool() > config.Pool()
  {
    var m := config.Majority();
    assert n / m >= 2;
    Split.FewerTimes(2, n / m, config.Pool());
  }

  /** Both parts fit in every sound run exactly when the fleet's size is one that is allowed: any two
      majorities of it meet, and a portion for every node fits the guaranteed part. */
  lemma FleetSizeExactly(config: Config, members: set<NodeId>)
    requires config.Valid() && config.ttl > 0 && config.Pool() > 0 && Unhurried(config)
    ensures BothPartsFit(config, members) <==> config.SizeOk(|members|)
  {
    if config.SizeOk(|members|) {
      forall trace, events, k | Sound(config, members, trace, events) && 0 <= k < |trace|
        ensures Total(ShareMap(config, trace[k])) <= Split.GuaranteedTotal(config.cap, config.fraction)
        ensures Total(LeasedMap(trace[k])) <= config.Pool()
      {
        SoundIsOrderly(config, members, trace, events);
        LeasesFitPool(config, trace, events, k);
        MembersFixed(config, trace, events, k);
        SharesFit(config, trace[k]);
      }
    } else {
      var trace, events := SoundRunReaches(config, members, 1);
      assert Last(trace) == trace[|trace| - 1];
      if |members| >= 2 * config.Majority() {
        TwoMajorities(config, |members|);
      }
    }
  }

  /** A portion too many leaves room for a majority as well. */
  lemma PortionsNeedMajority(config: Config, n: nat)
    requires config.Valid() && n * config.Portion() > Split.GuaranteedTotal(config.cap, config.fraction)
    ensures n / config.Majority() >= 1
  {
    if n <= config.fleetSize {
      Split.SharesOfTotal(n, config.fleetSize, Split.GuaranteedTotal(config.cap, config.fraction));
    }
    assert n >= config.Majority();
  }

  /** When the portions do not fit, or the pool taken once for every majority does not fit beside
      them, a sound run passes the cap. */
  lemma SoundRunPassesCap(config: Config, members: set<NodeId>, period: nat)
    returns (trace: seq<State>, events: seq<Event>)
    requires config.Valid() && config.ttl > 0 && Paced(config, period)
    requires || |members| * config.Portion() > Split.GuaranteedTotal(config.cap, config.fraction)
             || |members| * config.Portion() + |members| / config.Majority() * config.Pool() > config.cap
    ensures Sound(config, members, trace, events)
    ensures Total(AllowanceMap(config, Last(trace))) > config.cap
  {
    trace, events := SoundRunReaches(config, members, period);
    AllowanceIsShareAndLease(config, Last(trace));
    if |members| * config.Portion() > Split.GuaranteedTotal(config.cap, config.fraction) {
      PortionsNeedMajority(config, |members|);
      Split.FewerTimes(1, |members| / config.Majority(), config.Pool());
    }
  }

  /** Where any two majorities meet, the cap holds in every sound run exactly when the portions fit. */
  lemma PortionsExactly(config: Config, members: set<NodeId>)
    requires config.Valid() && config.ttl > 0 && Unhurried(config) && |members| < 2 * config.Majority()
    ensures SoundlyCapped(config, members)
       <==> |members| * config.Portion() <= Split.GuaranteedTotal(config.cap, config.fraction)
  {
    if |members| * config.Portion() <= Split.GuaranteedTotal(config.cap, config.fraction) {
      forall trace, events, k | Sound(config, members, trace, events) && 0 <= k < |trace|
        ensures Total(AllowanceMap(config, trace[k])) <= config.cap
      {
        CapHoldsWithoutBridges(config, members, trace, events, k);
      }
    } else {
      var trace, events := SoundRunPassesCap(config, members, 1);
      assert Last(trace) == trace[|trace| - 1];
    }
  }
}
