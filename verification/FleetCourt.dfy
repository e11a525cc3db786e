/** A leader that attends its camp, and one other node that hears only the leader and leases the whole
    pool from it. */
module FleetCourt {
  import opened Basics
  import opened Totals
  import opened Fleet
  import opened FleetSafety
  import opened FleetTheorems
  import opened FleetCamps
  import Ledger
  import LeaseWire
  import Split

  ghost predicate CourtOk(config: Config, members: set<NodeId>, x: NodeId, group: set<NodeId>, y: NodeId)
  {
    && config.Valid() && config.fleetSize >= 2 && config.suspectAfter > 0 && config.deadAfter > 0
    && CampOk(config, members, x, group) && y in members && y != x
  }

  function CourtLinks(x: NodeId, group: set<NodeId>, y: NodeId): Links
  {
    map[x := group, y := {x}]
  }

  ghost function Court(config: Config, members: set<NodeId>, x: NodeId, y: NodeId, t: Time, lead: Node,
                       asker: Node): State
  {
    State(t, map id | id in members :: if id == x then lead else if id == y then asker else Fresh(config))
  }

  /** In office since the start and past its wait, hearing its camp this instant, nothing on record. */
  ghost predicate Presides(config: Config, members: set<NodeId>, x: NodeId, group: set<NodeId>, lead: Node, t: Time)
  {
    && Attends(config, members, x, group, lead, t)
    && lead.book == Ledger.Book(config.Pool(), map[], Some(0)) && t >= config.Lease().wait
  }

  // ---------- one leader ----------

  /** Only the leader ever hears enough to grant. */
  lemma OnlyLeaderGrants(config: Config, x: NodeId, group: set<NodeId>, y: NodeId, trace: seq<State>,
                         events: seq<Event>, k: nat, id: NodeId)
    requires config.Valid() && config.fleetSize >= 2 && x != y
    requires IsRun(config, trace, events) && Heeds(CourtLinks(x, group, y), events) && k < |trace|
    requires CanGrant(config, trace[k], id) || LeadsNow(config, trace[k], id)
    ensures id == x
  {
    var links, node := CourtLinks(x, group, y), trace[k].nodes[id];
    HeardAlong(config, links, trace, events, k, id);
    SubsetSize(AliveSet(config, node.peers, trace[k].now), LinksOf(links, id));
    SubsetSize(AliveSet(config, node.peers, node.observed), LinksOf(links, id));
  }

  lemma CourtIsExclusive(config: Config, x: NodeId, group: set<NodeId>, y: NodeId, trace: seq<State>,
                         events: seq<Event>)
    requires config.Valid() && config.fleetSize >= 2 && x != y
    requires IsRun(config, trace, events) && Heeds(CourtLinks(x, group, y), events)
    ensures Exclusive(config, trace) && NoLongBridge(config, trace)
  {
    forall k, id: NodeId | 0 <= k < |trace| && (CanGrant(config, trace[k], id) || LeadsNow(config, trace[k], id))
      ensures id == x
    {
      OnlyLeaderGrants(config, x, group, y, trace, events, k, id);
    }
    forall k, lo, hi | 0 <= k < |trace|
      ensures !Bridged(config, trace[k], lo, hi)
    {
    }
  }

  // ---------- the leader ----------

  lemma SeatedIsCourt(config: Config, members: set<NodeId>, x: NodeId, group: set<NodeId>, y: NodeId, t: Time)
    requires CourtOk(config, members, x, group, y)
    ensures Seated(config, members, {x}, CourtLinks(x, group, y), t)
         == Court(config, members, x, y, t, Heard(Opening(config, group, group), group, t), Fresh(config))
    ensures t >= config.Lease().wait ==>
      Presides(config, members, x, group, Heard(Opening(config, group, group), group, t), t)
  {
  }

  /** The leader holds court once it has waited. */
  lemma CourtOpens(config: Config, members: set<NodeId>, x: NodeId, group: set<NodeId>, y: NodeId, period: nat)
    returns (events: seq<Event>, t: Time, lead: Node)
    requires CourtOk(config, members, x, group, y) && Paced(config, period)
    ensures Drives(config, CourtLinks(x, group, y), Court(config, members, x, y, 0, Fresh(config), Fresh(config)),
                   events,
                   Court(config, members, x, y, t, lead, Fresh(config)))
    ensures Presides(config, members, x, group, lead, t)
    ensures lead.held.None? && lead.exchange.None? && lead.past == []
  {
    var links := CourtLinks(x, group, y);
    t := After(0, period, config.Lease().wait);
    AfterIsLater(0, period, config.Lease().wait);
    assert CampOk(config, members, x, links[x]);
    events := CampsLast(config, members, {x}, links, period, config.Lease().wait);
    lead := Heard(Opening(config, group, group), group, t);
    SeatedIsCourt(config, members, x, group, y, t);
    assert Seated(config, members, {}, links, 0) == Court(config, members, x, y, 0, Fresh(config), Fresh(config));
  }

  /** The leader attends on while the other waits. */
  lemma CourtGoesOn(config: Config, members: set<NodeId>, x: NodeId, group: set<NodeId>, y: NodeId, t: Time,
                    lead: Node, asker: Node, period: nat, rounds: nat) returns (events: seq<Event>)
    requires CourtOk(config, members, x, group, y) && Paced(config, period)
    requires Attends(config, members, x, group, lead, t)
    ensures var later := After(t, period, rounds);
            Drives(config, CourtLinks(x, group, y), Court(config, members, x, y, t, lead, asker), events,
                   Court(config, members, x, y, later, Heard(lead, group, later), asker))
  {
    var links, st := CourtLinks(x, group, y), Court(config, members, x, y, t, lead, asker);
    assert st.nodes.Keys == members;
    assert AttendsIn(config, st, x, links, t);
    events := Rounds(config, links, st, {x}, period, rounds);
    var later := After(t, period, rounds);
    assert AllHeard(st, {x}, links, later).nodes
        == Court(config, members, x, y, later, Heard(lead, group, later), asker).nodes;
  }

  // ---------- the asker ----------

  /** A node that has heard nobody but the leader, last at `at`, and holds no office. */
  ghost predicate Hears(config: Config, x: NodeId, asker: Node, at: Time)
  {
    && asker.peers == map[x := Contact(Active, at)]
    && asker.book == Ledger.Book(config.Pool(), map[], None)
  }

  lemma AskerHears(config: Config, members: set<NodeId>, x: NodeId, group: set<NodeId>, y: NodeId, t: Time,
                   lead: Node, asker: Node)
    requires CourtOk(config, members, x, group, y)
    requires asker == Fresh(config) || exists at: nat :: at <= t && Hears(config, x, asker, at)
    ensures var heard := asker.(peers := map[x := Contact(Active, t)], observed := t);
            && Drives(config, CourtLinks(x, group, y), Court(config, members, x, y, t, lead, asker),
                      [Hear(y, x, Active, true)], Court(config, members, x, y, t, lead, heard))
            && Hears(config, x, heard, t)
  {
    var st, peers := Court(config, members, x, y, t, lead, asker), map[x := Contact(Active, t)];
    var heard := asker.(peers := peers, observed := t);
    assert HeardFrom(asker.peers, x, Active, true, t) == peers;
    assert Observe(config, y, asker.(peers := peers), t) == heard by {
      assert (map m | m in peers && InView(config, peers[m], t) :: peers[m]) == peers;
      assert Ledger.Reap(asker.book, t) == asker.book;
    }
    One(config, CourtLinks(x, group, y), st, Hear(y, x, Active, true));
    assert Step(config, st, Hear(y, x, Active, true)).nodes == Court(config, members, x, y, t, lead, heard).nodes;
  }

  /** A node that has done nothing but hear the leader now. */
  ghost function Listener(config: Config, x: NodeId, now: Time): Node
  {
    Fresh(config).(peers := map[x := Contact(Active, now)], observed := now)
  }

  function Request(x: NodeId, want: nat, t: Time): Exchange
  {
    Exchange(x, want, t, true, false, None, None)
  }

  /** Hearing only the leader, it has no majority of its own and asks the leader. */
  lemma AskerAsks(config: Config, members: set<NodeId>, x: NodeId, group: set<NodeId>, y: NodeId, t: Time, lead: Node,
                  asker: Node, want: nat) returns (event: Event)
    requires CourtOk(config, members, x, group, y) && Hears(config, x, asker, t) && want > 0
    requires Leased(asker, t) == 0 && (asker.exchange.Some? ==> !asker.exchange.value.open)
    ensures var asked := asker.(exchange := Some(Request(x, want, t)), past := Retired(asker));
            Drives(config, CourtLinks(x, group, y), Court(config, members, x, y, t, lead, asker), [event],
                   Court(config, members, x, y, t, lead, asked))
  {
    var st := Court(config, members, x, y, t, lead, asker);
    var asked := asker.(exchange := Some(Request(x, want, t)), past := Retired(asker));
    var demand := Guaranteed(config, asker, t) + want - 1;
    event := Ask(y, demand);
    SubsetSize(AliveSet(config, asker.peers, t), {x});
    assert IsLeader(config, asker.peers, x, t);
    assert forall m :: IsLeader(config, asker.peers, m, t) ==> m == x;
    One(config, CourtLinks(x, group, y), st, event);
    assert Step(config, st, event).nodes == Court(config, members, x, y, t, lead, asked).nodes;
  }

  /** The record with the whole pool granted to the asker. */
  ghost function Granting(config: Config, lead: Node, y: NodeId, t: Time): Node
  {
    lead.(book := lead.book.(grants := map[y := Ledger.Grant(config.Pool(), t + config.ttl)]))
  }

  ghost function Answer(config: Config, x: NodeId, t: Time): Exchange
  {
    Request(x, config.Pool(), t).(
      answered := true,
      reply := Some(Reply(config.Pool(), LeaseWire.WireTtl(t + config.ttl, t), x, t, t)))
  }

  /** Presiding, the leader grants the whole pool to whoever asks for it first. */
  lemma GrantsWhole(config: Config, st: State, x: NodeId, group: set<NodeId>, y: NodeId)
    requires config.Valid() && config.suspectAfter > 0 && config.deadAfter > 0 && config.Pool() > 0
    requires x in st.nodes && Presides(config, st.nodes.Keys, x, group, st.nodes[x], st.now)
    ensures Answered(config, st, x, y, config.Pool())
         == (Granting(config, st.nodes[x], y, st.now).book, Ledger.Granted(config.Pool(), st.now + config.ttl))
  {
    var book, t := st.nodes[x].book, st.now;
    assert Contacts(group, group, t, t) == Hearing(group, t);
    CampLeads(config, st.nodes.Keys, x, group, group, t, t);
    assert Ledger.Live(book.grants - {y}, t) == map[];
    assert book.grants[y := Ledger.Grant(config.Pool(), t + config.ttl)]
        == map[y := Ledger.Grant(config.Pool(), t + config.ttl)];
  }

  /** The leader's answer changes its record and the asker's exchange. */
  lemma ServesWhole(config: Config, st: State, x: NodeId, group: set<NodeId>, y: NodeId)
    requires config.Valid() && config.suspectAfter > 0 && config.deadAfter > 0 && config.Pool() > 0
    requires x in st.nodes && Presides(config, st.nodes.Keys, x, group, st.nodes[x], st.now)
    requires y in st.nodes && y != x && st.nodes[y].exchange == Some(Request(x, config.Pool(), st.now))
    ensures StepServe(config, st, y, 0)
         == st.(nodes := st.nodes[x := Granting(config, st.nodes[x], y, st.now)]
                                 [y := st.nodes[y].(exchange := Some(Answer(config, x, st.now)))])
  {
    GrantsWhole(config, st, x, group, y);
  }

  lemma LeaderServes(config: Config, members: set<NodeId>, x: NodeId, group: set<NodeId>, y: NodeId, t: Time,
                     lead: Node, asker: Node)
    requires CourtOk(config, members, x, group, y) && Presides(config, members, x, group, lead, t)
    requires config.Pool() > 0 && asker.exchange == Some(Request(x, config.Pool(), t))
    ensures Drives(config, CourtLinks(x, group, y), Court(config, members, x, y, t, lead, asker), [Serve(y, 0)],
                   Court(config, members, x, y, t, Granting(config, lead, y, t),
                         asker.(exchange := Some(Answer(config, x, t)))))
  {
    var st := Court(config, members, x, y, t, lead, asker);
    var granting, answered := Granting(config, lead, y, t), asker.(exchange := Some(Answer(config, x, t)));
    assert st.nodes.Keys == members;
    assert Court(config, members, x, y, t, granting, answered).nodes == st.nodes[x := granting][y := answered];
    ServesWhole(config, st, x, group, y);
    One(config, CourtLinks(x, group, y), st, Serve(y, 0));
  }

  /** The leader with the whole pool in its own hands. */
  ghost function Taken(config: Config, x: NodeId, lead: Node, t: Time): Node
  {
    Granting(config, lead, x, t).(held := Some(Lease(config.Pool(), t + config.ttl, x, t)))
  }

  /** Asking its own ledger, the leader changes only itself. */
  lemma TakesWhole(config: Config, st: State, x: NodeId, group: set<NodeId>)
    requires config.Valid() && config.suspectAfter > 0 && config.deadAfter > 0 && config.Pool() > 0
    requires x in st.nodes && Presides(config, st.nodes.Keys, x, group, st.nodes[x], st.now)
    requires Leased(st.nodes[x], st.now) == 0 && st.nodes[x].exchange.None?
    ensures StepAsk(config, st, x, Guaranteed(config, st.nodes[x], st.now) + config.Pool() - 1)
         == st.(nodes := st.nodes[x := Taken(config, x, st.nodes[x], st.now)])
  {
    GrantsWhole(config, st, x, group, x);
  }

  lemma LeaderTakes(config: Config, members: set<NodeId>, x: NodeId, group: set<NodeId>, y: NodeId, t: Time, lead: Node,
                    asker: Node) returns (event: Event)
    requires CourtOk(config, members, x, group, y) && Presides(config, members, x, group, lead, t)
    requires config.Pool() > 0 && Leased(lead, t) == 0 && lead.exchange.None?
    ensures Drives(config, CourtLinks(x, group, y), Court(config, members, x, y, t, lead, asker), [event],
                   Court(config, members, x, y, t, Taken(config, x, lead, t), asker))
  {
    var st, end := Court(config, members, x, y, t, lead, asker),
      Court(config, members, x, y, t, Taken(config, x, lead, t), asker);
    assert st.nodes.Keys == members && end.nodes == st.nodes[x := Taken(config, x, lead, t)];
    event := Ask(x, Guaranteed(config, lead, t) + config.Pool() - 1);
    TakesWhole(config, st, x, group);
    One(config, CourtLinks(x, group, y), st, event);
  }

  /** The lease as the asker places it. */
  ghost function Placed(config: Config, x: NodeId, t: Time): Lease
  {
    Lease(config.Pool(), t + LeaseWire.WireTtl(t + config.ttl, t), x, t)
  }

  lemma AskerReads(config: Config, members: set<NodeId>, x: NodeId, group: set<NodeId>, y: NodeId, t: Time, lead: Node,
                   asker: Node)
    requires CourtOk(config, members, x, group, y) && asker.exchange == Some(Answer(config, x, t))
    ensures Drives(config, CourtLinks(x, group, y), Court(config, members, x, y, t, lead, asker), [Read(y)],
                   Court(config, members, x, y, t, lead,
                         asker.(exchange := Some(Answer(config, x, t).(read := Some(t))))))
  {
    var st := Court(config, members, x, y, t, lead, asker);
    One(config, CourtLinks(x, group, y), st, Read(y));
    assert Step(config, st, Read(y)).nodes
        == Court(config, members, x, y, t, lead,
                 asker.(exchange := Some(Answer(config, x, t).(read := Some(t))))).nodes;
  }

  lemma AskerPlaces(config: Config, members: set<NodeId>, x: NodeId, group: set<NodeId>, y: NodeId, t: Time, lead: Node,
                    asker: Node)
    requires CourtOk(config, members, x, group, y)
    requires asker.exchange == Some(Answer(config, x, t).(read := Some(t)))
    ensures var closed := Answer(config, x, t).(read := Some(t), open := false, reply := None);
            Drives(config, CourtLinks(x, group, y), Court(config, members, x, y, t, lead, asker), [Place(y)],
                   Court(config, members, x, y, t, lead,
                         asker.(held := Some(Placed(config, x, t)), exchange := Some(closed))))
  {
    var st := Court(config, members, x, y, t, lead, asker);
    var closed := Answer(config, x, t).(read := Some(t), open := false, reply := None);
    One(config, CourtLinks(x, group, y), st, Place(y));
    assert Step(config, st, Place(y)).nodes
        == Court(config, members, x, y, t, lead,
                 asker.(held := Some(Placed(config, x, t)), exchange := Some(closed))).nodes;
  }

  /** The asker with the answer read and not yet placed, */
  ghost function Reader(config: Config, x: NodeId, asker: Node, t: Time): Node
  {
    asker.(exchange := Some(Answer(config, x, t).(read := Some(t))), past := Retired(asker))
  }

  /** and with the whole pool in hand. */
  ghost function Holder(config: Config, x: NodeId, asker: Node, t: Time): Node
  {
    asker.(
      held := Some(Placed(config, x, t)),
      exchange := Some(Answer(config, x, t).(read := Some(t), open := false, reply := None)),
      past := Retired(asker))
  }

  /** Asked, served and read in one moment. */
  lemma AskerIsAnswered(config: Config, members: set<NodeId>, x: NodeId, group: set<NodeId>, y: NodeId, t: Time,
                        lead: Node, asker: Node) returns (events: seq<Event>)
    requires CourtOk(config, members, x, group, y) && Presides(config, members, x, group, lead, t)
    requires Hears(config, x, asker, t) && config.Pool() > 0
    requires Leased(asker, t) == 0 && (asker.exchange.Some? ==> !asker.exchange.value.open)
    ensures Drives(config, CourtLinks(x, group, y), Court(config, members, x, y, t, lead, asker), events,
                   Court(config, members, x, y, t, Granting(config, lead, y, t), Reader(config, x, asker, t)))
  {
    var links, st := CourtLinks(x, group, y), Court(config, members, x, y, t, lead, asker);
    var granting := Granting(config, lead, y, t);
    var ask := AskerAsks(config, members, x, group, y, t, lead, asker, config.Pool());
    var asked := asker.(exchange := Some(Request(x, config.Pool(), t)), past := Retired(asker));
    LeaderServes(config, members, x, group, y, t, lead, asked);
    var served := asked.(exchange := Some(Answer(config, x, t)));
    Then(config, links, st, [ask], Court(config, members, x, y, t, lead, asked), [Serve(y, 0)],
         Court(config, members, x, y, t, granting, served));
    AskerReads(config, members, x, group, y, t, granting, served);
    Then(config, links, st, [ask] + [Serve(y, 0)], Court(config, members, x, y, t, granting, served), [Read(y)],
         Court(config, members, x, y, t, granting, Reader(config, x, asker, t)));
    events := [ask] + [Serve(y, 0)] + [Read(y)];
  }

  /** And placed in the same moment: the whole pool is the asker's. */
  lemma AskerLeases(config: Config, members: set<NodeId>, x: NodeId, group: set<NodeId>, y: NodeId, t: Time, lead: Node,
                    asker: Node) returns (events: seq<Event>)
    requires CourtOk(config, members, x, group, y) && Presides(config, members, x, group, lead, t)
    requires Hears(config, x, asker, t) && config.Pool() > 0
    requires Leased(asker, t) == 0 && (asker.exchange.Some? ==> !asker.exchange.value.open)
    ensures Drives(config, CourtLinks(x, group, y), Court(config, members, x, y, t, lead, asker), events,
                   Court(config, members, x, y, t, Granting(config, lead, y, t), Holder(config, x, asker, t)))
  {
    var granting, reader := Granting(config, lead, y, t), Reader(config, x, asker, t);
    events := AskerIsAnswered(config, members, x, group, y, t, lead, asker);
    AskerPlaces(config, members, x, group, y, t, granting, reader);
    Then(config, CourtLinks(x, group, y), Court(config, members, x, y, t, lead, asker), events,
         Court(config, members, x, y, t, granting, reader), [Place(y)],
         Court(config, members, x, y, t, granting, Holder(config, x, asker, t)));
    events := events + [Place(y)];
  }

  // ---------- what a court comes to ----------

  /** Nobody in a court sees more than was configured, so everyone has a whole portion. */
  lemma CourtShares(config: Config, members: set<NodeId>, x: NodeId, group: set<NodeId>, y: NodeId, t: Time,
                    lead: Node, asker: Node, at: Time)
    requires CourtOk(config, members, x, group, y)
    requires lead.peers == Hearing(group, at) && asker.peers.Keys <= {x}
    ensures forall id :: id in members ==>
      Guaranteed(config, Court(config, members, x, y, t, lead, asker).nodes[id], t) == config.Portion()
  {
    var st := Court(config, members, x, y, t, lead, asker);
    forall id | id in members
      ensures Guaranteed(config, st.nodes[id], t) == config.Portion()
    {
      var peers, seen := st.nodes[id].peers, if id == x then group else {x};
      SubsetSize(ViewSet(config, peers, t), seen);
      Split.ShareShrinksWithSight(config.cap, config.fraction, config.fleetSize, Seen(config, peers, t));
    }
  }

  lemma CourtShareTotal(config: Config, members: set<NodeId>, x: NodeId, group: set<NodeId>, y: NodeId, t: Time,
                        lead: Node, asker: Node, at: Time)
    requires CourtOk(config, members, x, group, y)
    requires lead.peers == Hearing(group, at) && asker.peers.Keys <= {x}
    ensures Total(ShareMap(config, Court(config, members, x, y, t, lead, asker))) == |members| * config.Portion()
  {
    var st := Court(config, members, x, y, t, lead, asker);
    CourtShares(config, members, x, group, y, t, lead, asker, at);
    assert ShareMap(config, st).Keys == members;
    forall id | id in members
      ensures ShareMap(config, st)[id] == config.Portion()
    {
      assert Guaranteed(config, st.nodes[id], t) == config.Portion();
    }
    TotalConstant(ShareMap(config, st), config.Portion());
  }
}
