/** Building runs: nodes that hear only whom they are linked to, at any pace inside the doubt window,
    with some of them kept in office for as long as one likes. */
module FleetCamps {
  import opened Basics
  import opened Totals
  import opened Fleet
  import opened FleetSafety
  import opened FleetTheorems
  import Ledger

  // ---------- runs along links ----------

  /** Whom each node ever hears; a node left out hears nobody. */
  type Links = map<NodeId, set<NodeId>>

  ghost function LinksOf(links: Links, id: NodeId): set<NodeId>
  {
    if id in links then links[id] else {}
  }

  predicate Along(links: Links, event: Event)
  {
    match event
    case Hear(node, from, _, _) => node in links && from in links[node]
    case Tick(node) => node in links && node in links[node]
    case _ => true
  }

  /** How long an asker waits for its leader's answer. */
  const PEER_TIMEOUT: nat := 2 * SECOND

  /** A request is given up on no sooner than the timeout. */
  ghost predicate PatientAt(st: State, event: Event)
  {
    event.GiveUp? && event.node in st.nodes && st.nodes[event.node].exchange.Some? ==>
      st.nodes[event.node].exchange.value.sent + PEER_TIMEOUT <= st.now
  }

  /** Everyone gives up no sooner than the timeout. */
  ghost predicate Patient(trace: seq<State>, events: seq<Event>)
    requires |trace| == |events| + 1
  {
    forall i :: 0 <= i < |events| ==> PatientAt(trace[i], events[i])
  }

  /** What holds of every step of these runs: an arrival came along a link, nothing is answered late,
      a lease is placed promptly and a request waits out its timeout. */
  ghost predicate Tame(links: Links, st: State, event: Event)
  {
    Along(links, event) && !event.ServeLate? && PromptAt(st, event) && PatientAt(st, event)
  }

  ghost predicate Hop(config: Config, links: Links, a: State, event: Event, b: State)
    requires config.Valid()
  {
    Tame(links, a, event) && b == Step(config, a, event)
  }

  /** The events lead from one state to another, every step such a hop. */
  ghost predicate Drives(config: Config, links: Links, a: State, events: seq<Event>, b: State)
    requires config.Valid()
    decreases |events|, 1
  {
    if events == [] then a == b else exists mid :: LastHop(config, links, a, events, mid, b)
  }

  ghost predicate LastHop(config: Config, links: Links, a: State, events: seq<Event>, mid: State, b: State)
    requires config.Valid() && events != []
    decreases |events|, 0
  {
    var n := |events| - 1;
    Drives(config, links, a, events[..n], mid) && Hop(config, links, mid, events[n], b)
  }

  lemma Stay(config: Config, links: Links, a: State)
    requires config.Valid()
    ensures Drives(config, links, a, [], a)
  {
  }

  lemma One(config: Config, links: Links, a: State, event: Event)
    requires config.Valid() && Tame(links, a, event)
    ensures Drives(config, links, a, [event], Step(config, a, event))
  {
    assert [event][..0] == [];
    assert LastHop(config, links, a, [event], a, Step(config, a, event));
  }

  lemma {:induction false} Then(config: Config, links: Links, a: State, first: seq<Event>, b: State,
                                second: seq<Event>, c: State)
    requires config.Valid() && Drives(config, links, a, first, b) && Drives(config, links, b, second, c)
    ensures Drives(config, links, a, first + second, c)
    decreases |second|
  {
    if second == [] {
      assert first + second == first;
    } else {
      var n := |second| - 1;
      var mid :| LastHop(config, links, b, second, mid, c);
      Then(config, links, a, first, b, second[..n], mid);
      assert (first + second)[..|first| + n] == first + second[..n];
      assert LastHop(config, links, a, first + second, mid, c);
    }
  }

  /** A run of such steps. */
  ghost predicate Goes(config: Config, links: Links, trace: seq<State>, events: seq<Event>)
    requires config.Valid()
  {
    IsRun(config, trace, events) && forall i :: 0 <= i < |events| ==> Tame(links, trace[i], events[i])
  }

  ghost function Last(trace: seq<State>): State
    requires trace != []
  {
    trace[|trace| - 1]
  }

  /** One step more makes a run one step longer. */
  lemma AppendStep(config: Config, trace: seq<State>, events: seq<Event>, event: Event)
    requires config.Valid() && IsRun(config, trace, events)
    ensures IsRun(config, trace + [Step(config, Last(trace), event)], events + [event])
  {
    var longer, n := trace + [Step(config, Last(trace), event)], |events|;
    forall i | 0 <= i < n + 1
      ensures longer[i + 1] == Step(config, longer[i], (events + [event])[i])
    {
      if i < n {
        assert trace[i + 1] == Step(config, trace[i], events[i]);
      }
    }
  }

  lemma GoOn(config: Config, links: Links, trace: seq<State>, events: seq<Event>, event: Event)
    requires config.Valid() && Goes(config, links, trace, events)
    requires Tame(links, Last(trace), event)
    ensures Goes(config, links, trace + [Step(config, Last(trace), event)], events + [event])
  {
    AppendStep(config, trace, events, event);
  }

  /** What events drive is a run, */
  lemma {:induction false} DrivenGoes(config: Config, links: Links, a: State, events: seq<Event>, b: State)
    returns (trace: seq<State>)
    requires config.Valid() && IsInitial(config, a) && Drives(config, links, a, events, b)
    ensures Goes(config, links, trace, events) && trace[0] == a && Last(trace) == b
  {
    trace := GoesFurther(config, links, [a], [], events, b);
    assert [] + events == events;
  }

  /** and further events carry a run further. */
  lemma {:induction false} GoesFurther(config: Config, links: Links, before: seq<State>, first: seq<Event>,
                                       second: seq<Event>, b: State)
    returns (trace: seq<State>)
    requires config.Valid() && Goes(config, links, before, first) && Drives(config, links, Last(before), second, b)
    ensures Goes(config, links, trace, first + second) && before <= trace && Last(trace) == b
    decreases |second|
  {
    if second == [] {
      trace := before;
      assert first + second == first;
    } else {
      var n := |second| - 1;
      var mid :| LastHop(config, links, Last(before), second, mid, b);
      var most := GoesFurther(config, links, before, first, second[..n], mid);
      assert first + second == first + second[..n] + [second[n]];
      GoOn(config, links, most, first + second[..n], second[n]);
      trace := most + [b];
    }
  }

  ghost predicate Heeds(links: Links, events: seq<Event>)
  {
    forall i :: 0 <= i < |events| ==> Along(links, events[i])
  }

  lemma GoesHeeds(config: Config, links: Links, trace: seq<State>, events: seq<Event>)
    requires config.Valid() && Goes(config, links, trace, events)
    ensures Heeds(links, events) && Steady(config, trace, events)
  {
    forall i | 0 <= i < |events|
      ensures Along(links, events[i]) && PromptAt(trace[i], events[i]) && LateFits(config, trace[i], events[i])
    {
      assert Tame(links, trace[i], events[i]);
    }
  }

  /** Nobody has heard anyone but along its links. */
  lemma {:induction false} HeardAlong(config: Config, links: Links, trace: seq<State>, events: seq<Event>, k: nat,
                                      id: NodeId)
    requires config.Valid() && IsRun(config, trace, events) && k < |trace| && id in trace[k].nodes
    requires Heeds(links, events)
    ensures trace[k].nodes[id].peers.Keys <= LinksOf(links, id)
  {
    if k > 0 {
      MembersFixed(config, trace, events, k - 1);
      MembersFixed(config, trace, events, k);
      HeardAlong(config, links, trace, events, k - 1, id);
      assert trace[k] == Step(config, trace[k - 1], events[k - 1]);
      HeardStep(config, links, trace[k - 1], events[k - 1], id);
    }
  }

  lemma HeardStep(config: Config, links: Links, st: State, event: Event, id: NodeId)
    requires config.Valid() && id in st.nodes && st.nodes[id].peers.Keys <= LinksOf(links, id) && Along(links, event)
    ensures id in Step(config, st, event).nodes
    ensures Step(config, st, event).nodes[id].peers.Keys <= LinksOf(links, id)
  {
    if !event.Hear? && !event.Tick? {
      ViewUntouched(config, st, event, id);
    }
  }

  ghost predicate Apart(links: Links)
  {
    forall x, y :: x in links && y in links && x != y ==> links[x] !! links[y]
  }

  /** Nodes that hear nobody in common are never bridged, so such a run is sound. */
  lemma ApartIsSound(config: Config, links: Links, trace: seq<State>, events: seq<Event>)
    requires config.Valid() && Goes(config, links, trace, events) && Apart(links)
    ensures Sound(config, trace[0].nodes.Keys, trace, events)
  {
    GoesHeeds(config, links, trace, events);
    forall k, lo, hi | 0 <= k < |trace|
      ensures !Bridged(config, trace[k], lo, hi)
    {
      if lo in trace[k].nodes && hi in trace[k].nodes {
        HeardAlong(config, links, trace, events, k, lo);
        HeardAlong(config, links, trace, events, k, hi);
      }
    }
  }

  // ---------- hearing a whole camp ----------

  /** A pace of gossip inside both windows. */
  predicate Paced(config: Config, period: nat)
  {
    0 < period < config.suspectAfter && period < config.deadAfter
  }

  /** A camp is a bare majority with its leader lowest. */
  predicate CampOk(config: Config, members: set<NodeId>, x: NodeId, group: set<NodeId>)
  {
    x in group && group <= members && |group| == config.Majority() && forall g :: g in group ==> x <= g
  }

  /** The camp's contacts when some were heard `now` and the others were last heard at `was`. */
  function Contacts(group: set<NodeId>, heard: set<NodeId>, was: Time, now: Time): map<NodeId, Contact>
  {
    map g | g in group :: Contact(Active, if g in heard then now else was)
  }

  function Hearing(group: set<NodeId>, now: Time): map<NodeId, Contact>
  {
    map g | g in group :: Contact(Active, now)
  }

  /** A node that has just heard its whole camp again. */
  function Heard(node: Node, group: set<NodeId>, now: Time): Node
  {
    node.(peers := Hearing(group, now), observed := now, book := Ledger.Reap(node.book, now))
  }

  /** With its whole camp heard inside the windows, the leader leads. */
  lemma CampLeads(config: Config, members: set<NodeId>, x: NodeId, group: set<NodeId>, heard: set<NodeId>,
                  was: Time, now: Time)
    requires config.Valid() && CampOk(config, members, x, group)
    requires was <= now && now - was < config.suspectAfter && now - was < config.deadAfter
    ensures var peers := Contacts(group, heard, was, now);
            && Leading(config, peers, x, now)
            && forall g :: g in peers ==> InView(config, peers[g], now)
  {
    var peers := Contacts(group, heard, was, now);
    assert AliveSet(config, peers, now) == group;
  }

  /** A node in office that has heard its camp at `t`, with nothing on record that has expired. */
  ghost predicate Attends(config: Config, members: set<NodeId>, x: NodeId, group: set<NodeId>, node: Node, t: Time)
  {
    && CampOk(config, members, x, group)
    && node.peers == Hearing(group, t) && node.observed == t && node.mode == Active
    && node.book.office.Some? && node.book.pool == config.Pool() && Ledger.Reap(node.book, t) == node.book
  }

  /** One more member heard: only its contact and the moment of looking move. */
  lemma HearsOne(config: Config, st: State, x: NodeId, group: set<NodeId>, heard: set<NodeId>, was: Time, g: NodeId)
    requires config.Valid() && CampOk(config, st.nodes.Keys, x, group) && g in group
    requires was <= st.now && st.now - was < config.suspectAfter && st.now - was < config.deadAfter
    requires st.nodes[x].peers == Contacts(group, heard, was, st.now)
    requires st.nodes[x].book.office.Some? && st.nodes[x].book.pool == config.Pool()
    ensures StepHear(config, st, x, g, Active, true)
         == st.(nodes := st.nodes[x := st.nodes[x].(peers := Contacts(group, heard + {g}, was, st.now),
                                                    observed := st.now,
                                                    book := Ledger.Reap(st.nodes[x].book, st.now))])
  {
    var peers := Contacts(group, heard + {g}, was, st.now);
    assert HeardFrom(st.nodes[x].peers, g, Active, true, st.now) == peers;
    CampLeads(config, st.nodes.Keys, x, group, heard + {g}, was, st.now);
    var kept := map m | m in peers && InView(config, peers[m], st.now) :: peers[m];
    assert kept == peers;
    assert st.nodes[x].book.(pool := config.Pool()) == st.nodes[x].book;
  }

  function ArrivalOf(x: NodeId, g: NodeId): Event
  {
    if g == x then Tick(x) else Hear(x, g, Active, true)
  }

  ghost predicate Within(config: Config, was: Time, now: Time)
  {
    was <= now && now - was < config.suspectAfter && now - was < config.deadAfter
  }

  /** Part of the camp heard again, the rest last heard at `was`. */
  ghost predicate Midway(config: Config, links: Links, st: State, x: NodeId, rest: set<NodeId>, was: Time)
  {
    && x in links && rest <= links[x] && CampOk(config, st.nodes.Keys, x, links[x]) && Within(config, was, st.now)
    && st.nodes[x].peers == Contacts(links[x], links[x] - rest, was, st.now) && st.nodes[x].mode == Active
    && st.nodes[x].book.office.Some? && st.nodes[x].book.pool == config.Pool()
  }

  /** This node has just heard its whole camp. */
  ghost function Freshened(st: State, x: NodeId, links: Links): State
    requires x in st.nodes && x in links
  {
    st.(nodes := st.nodes[x := Heard(st.nodes[x], links[x], st.now)])
  }

  lemma FreshenedAlike(st: State, x: NodeId, links: Links, peers: map<NodeId, Contact>)
    requires x in st.nodes && x in links
    ensures var on := st.(nodes := st.nodes[x := st.nodes[x].(peers := peers, observed := st.now,
                                                              book := Ledger.Reap(st.nodes[x].book, st.now))]);
            && on.nodes.Keys == st.nodes.Keys && Freshened(on, x, links) == Freshened(st, x, links)
            && (peers == Hearing(links[x], st.now) ==> on == Freshened(st, x, links))
  {
    Ledger.ReapTwice(st.nodes[x].book, st.now, st.now);
  }

  lemma HearsNext(config: Config, links: Links, st: State, x: NodeId, rest: set<NodeId>, was: Time, g: NodeId)
    returns (on: State)
    requires config.Valid() && Midway(config, links, st, x, rest, was) && g in rest
    ensures Drives(config, links, st, [ArrivalOf(x, g)], on) && Midway(config, links, on, x, rest - {g}, was)
    ensures Freshened(on, x, links) == Freshened(st, x, links)
    ensures rest == {g} ==> on == Freshened(st, x, links)
  {
    var group := links[x];
    HearsOne(config, st, x, group, group - rest, was, g);
    assert group - rest + {g} == group - (rest - {g});
    One(config, links, st, ArrivalOf(x, g));
    on := Step(config, st, ArrivalOf(x, g));
    FreshenedAlike(st, x, links, Contacts(group, group - (rest - {g}), was, st.now));
    assert rest == {g} ==> Contacts(group, group - (rest - {g}), was, st.now) == Hearing(group, st.now);
  }

  /** The rest of a camp heard, one after another, in one moment. */
  lemma {:induction false} HearsRest(config: Config, links: Links, st: State, x: NodeId, rest: set<NodeId>, was: Time)
    returns (events: seq<Event>)
    requires config.Valid() && Midway(config, links, st, x, rest, was) && rest != {}
    ensures Drives(config, links, st, events, Freshened(st, x, links))
    decreases |rest|
  {
    var g :| g in rest;
    var on := HearsNext(config, links, st, x, rest, was, g);
    events := [ArrivalOf(x, g)];
    if rest != {g} {
      var more := HearsRest(config, links, on, x, rest - {g}, was);
      Then(config, links, st, events, on, more, Freshened(st, x, links));
      events := events + more;
    }
  }

  // ---------- rounds ----------

  /** Every one of these nodes has just heard its camp; nobody else has changed. */
  ghost function AllHeard(st: State, leaders: set<NodeId>, links: Links, now: Time): State
  {
    State(now, map id | id in st.nodes ::
                 if id in leaders && id in links then Heard(st.nodes[id], links[id], now) else st.nodes[id])
  }

  ghost predicate AttendsIn(config: Config, st: State, x: NodeId, links: Links, t: Time)
  {
    x in links && x in st.nodes && Attends(config, st.nodes.Keys, x, links[x], st.nodes[x], t)
  }

  ghost predicate AllAttend(config: Config, st: State, leaders: set<NodeId>, links: Links, t: Time)
  {
    forall x :: x in leaders ==> AttendsIn(config, st, x, links, t)
  }

  lemma WholeCampHeard(config: Config, links: Links, st: State, x: NodeId, was: Time) returns (events: seq<Event>)
    requires config.Valid() && AttendsIn(config, st, x, links, was) && Within(config, was, st.now)
    ensures Drives(config, links, st, events, Freshened(st, x, links))
  {
    assert Contacts(links[x], links[x] - links[x], was, st.now) == Hearing(links[x], was);
    events := HearsRest(config, links, st, x, links[x], was);
  }

  lemma OthersAttend(config: Config, st: State, leaders: set<NodeId>, links: Links, was: Time, x: NodeId)
    requires AllAttend(config, st, leaders, links, was) && x in leaders
    ensures AttendsIn(config, st, x, links, was)
    ensures AllAttend(config, Freshened(st, x, links), leaders - {x}, links, was)
    ensures AllHeard(Freshened(st, x, links), leaders - {x}, links, st.now) == AllHeard(st, leaders, links, st.now)
  {
    assert AttendsIn(config, st, x, links, was);
    var mid := Freshened(st, x, links);
    assert mid.nodes.Keys == st.nodes.Keys;
    forall y | y in leaders - {x}
      ensures AttendsIn(config, mid, y, links, was)
    {
      assert AttendsIn(config, st, y, links, was);
    }
    assert AllHeard(mid, leaders - {x}, links, st.now).nodes == AllHeard(st, leaders, links, st.now).nodes;
  }

  lemma {:induction false} RoundOf(config: Config, links: Links, st: State, leaders: set<NodeId>, was: Time)
    returns (events: seq<Event>)
    requires config.Valid() && AllAttend(config, st, leaders, links, was) && Within(config, was, st.now)
    ensures Drives(config, links, st, events, AllHeard(st, leaders, links, st.now))
    decreases |leaders|
  {
    if leaders == {} {
      events := [];
      assert AllHeard(st, {}, links, st.now).nodes == st.nodes;
      Stay(config, links, st);
    } else {
      var x :| x in leaders;
      OthersAttend(config, st, leaders, links, was, x);
      var first := WholeCampHeard(config, links, st, x, was);
      var mid := Freshened(st, x, links);
      var second := RoundOf(config, links, mid, leaders - {x}, was);
      Then(config, links, st, first, mid, second, AllHeard(st, leaders, links, st.now));
      events := first + second;
    }
  }

  lemma StillAttend(config: Config, st: State, leaders: set<NodeId>, links: Links, t: Time, later: Time)
    requires AllAttend(config, st, leaders, links, t) && t <= later
    ensures AllAttend(config, AllHeard(st, leaders, links, later), leaders, links, later)
  {
    var b := AllHeard(st, leaders, links, later);
    assert b.nodes.Keys == st.nodes.Keys;
    forall x | x in leaders
      ensures AttendsIn(config, b, x, links, later)
    {
      assert AttendsIn(config, st, x, links, t);
      Ledger.ReapTwice(st.nodes[x].book, later, later);
    }
  }

  lemma NothingHeard(config: Config, st: State, leaders: set<NodeId>, links: Links)
    requires AllAttend(config, st, leaders, links, st.now)
    ensures AllHeard(st, leaders, links, st.now) == st
  {
    forall x | x in leaders
      ensures x in links && x in st.nodes && Heard(st.nodes[x], links[x], st.now) == st.nodes[x]
    {
      assert AttendsIn(config, st, x, links, st.now);
    }
  }

  lemma HeardOver(st: State, leaders: set<NodeId>, links: Links, t: Time, later: Time)
    requires t <= later
    ensures AllHeard(AllHeard(st, leaders, links, t), leaders, links, later) == AllHeard(st, leaders, links, later)
  {
    forall id | id in st.nodes && id in leaders && id in links
      ensures Heard(Heard(st.nodes[id], links[id], t), links[id], later) == Heard(st.nodes[id], links[id], later)
    {
      Ledger.ReapTwice(st.nodes[id].book, t, later);
    }
  }

  lemma OneRound(config: Config, links: Links, st: State, leaders: set<NodeId>, period: nat)
    returns (events: seq<Event>)
    requires config.Valid() && Paced(config, period) && AllAttend(config, st, leaders, links, st.now)
    ensures Drives(config, links, st, events, AllHeard(st, leaders, links, st.now + period))
  {
    var on := st.(now := st.now + period);
    One(config, links, st, Advance(period));
    forall x | x in leaders
      ensures AttendsIn(config, on, x, links, st.now)
    {
      assert AttendsIn(config, st, x, links, st.now);
    }
    events := RoundOf(config, links, on, leaders, st.now);
    assert AllHeard(on, leaders, links, on.now) == AllHeard(st, leaders, links, on.now);
    Then(config, links, st, [Advance(period)], on, events, AllHeard(st, leaders, links, on.now));
    events := [Advance(period)] + events;
  }

  /** The time any number of periods on. */
  function After(t: Time, period: nat, n: nat): Time
  {
    if n == 0 then t else After(t, period, n - 1) + period
  }

  lemma {:induction false} AfterIsLater(t: Time, period: nat, n: nat)
    requires period > 0
    ensures After(t, period, n) >= t + n
  {
    if n > 0 {
      AfterIsLater(t, period, n - 1);
    }
  }

  /** Any number of rounds, one period apart: everyone who attends goes on attending. */
  lemma {:induction false} Rounds(config: Config, links: Links, st: State, leaders: set<NodeId>, period: nat, n: nat)
    returns (events: seq<Event>)
    requires config.Valid() && Paced(config, period) && AllAttend(config, st, leaders, links, st.now)
    ensures Drives(config, links, st, events, AllHeard(st, leaders, links, After(st.now, period, n)))
    decreases n
  {
    if n == 0 {
      events := [];
      NothingHeard(config, st, leaders, links);
      Stay(config, links, st);
    } else {
      var first := Rounds(config, links, st, leaders, period, n - 1);
      var t := After(st.now, period, n - 1);
      AfterIsLater(st.now, period, n - 1);
      var mid := AllHeard(st, leaders, links, t);
      StillAttend(config, st, leaders, links, st.now, t);
      var second := OneRound(config, links, mid, leaders, period);
      HeardOver(st, leaders, links, t, t + period);
      Then(config, links, st, first, mid, second, AllHeard(st, leaders, links, t + period));
      events := first + second;
    }
  }

  // ---------- taking office ----------

  /** A node that has heard these of its camp at the start, and takes office with the last. */
  function Opening(config: Config, group: set<NodeId>, heard: set<NodeId>): Node
  {
    var office := if heard == group then Some(0) else None;
    Fresh(config).(peers := Hearing(heard, 0), book := Ledger.Book(config.Pool(), map[], office))
  }

  /** With part of its camp heard at the start, a node leads only if that is all of it. */
  lemma LeadsWhenWhole(config: Config, members: set<NodeId>, x: NodeId, group: set<NodeId>, heard: set<NodeId>)
    requires config.Valid() && CampOk(config, members, x, group) && Within(config, 0, 0) && heard <= group
    ensures Leading(config, Hearing(heard, 0), x, 0) <==> heard == group
    ensures forall m :: m in heard ==> InView(config, Hearing(heard, 0)[m], 0)
  {
    assert AliveSet(config, Hearing(heard, 0), 0) == heard;
    SubsetSize(heard, group);
  }

  lemma OpensOne(config: Config, st: State, x: NodeId, group: set<NodeId>, heard: set<NodeId>, g: NodeId)
    requires config.Valid() && CampOk(config, st.nodes.Keys, x, group) && Within(config, 0, 0) && st.now == 0
    requires heard < group && g in group - heard && st.nodes[x] == Opening(config, group, heard)
    ensures StepHear(config, st, x, g, Active, true)
         == st.(nodes := st.nodes[x := Opening(config, group, heard + {g})])
  {
    var peers := Hearing(heard + {g}, 0);
    assert HeardFrom(st.nodes[x].peers, g, Active, true, 0) == peers;
    LeadsWhenWhole(config, st.nodes.Keys, x, group, heard + {g});
    var kept := map m | m in peers && InView(config, peers[m], 0) :: peers[m];
    assert kept == peers;
    var none: map<NodeId, Ledger.Grant> := map[];
    assert Ledger.Reap(Ledger.Book(config.Pool(), none, Some(0)), 0) == Ledger.Book(config.Pool(), none, Some(0));
    assert Ledger.Reap(Ledger.Book(config.Pool(), none, None), 0) == Ledger.Book(config.Pool(), none, None);
  }

  ghost predicate Opens(config: Config, links: Links, st: State, x: NodeId, heard: set<NodeId>)
  {
    && x in links && CampOk(config, st.nodes.Keys, x, links[x]) && Within(config, 0, 0) && st.now == 0
    && heard <= links[x] && st.nodes[x] == Opening(config, links[x], heard)
  }

  ghost function Opened(config: Config, links: Links, st: State, x: NodeId): State
    requires x in links && x in st.nodes
  {
    st.(nodes := st.nodes[x := Opening(config, links[x], links[x])])
  }

  lemma OpensNext(config: Config, links: Links, st: State, x: NodeId, heard: set<NodeId>, g: NodeId)
    returns (on: State)
    requires config.Valid() && Opens(config, links, st, x, heard) && g in links[x] - heard
    ensures Drives(config, links, st, [ArrivalOf(x, g)], on) && Opens(config, links, on, x, heard + {g})
    ensures Opened(config, links, on, x) == Opened(config, links, st, x)
  {
    OpensOne(config, st, x, links[x], heard, g);
    One(config, links, st, ArrivalOf(x, g));
    on := Step(config, st, ArrivalOf(x, g));
    assert on.nodes.Keys == st.nodes.Keys;
    assert Opened(config, links, on, x).nodes == Opened(config, links, st, x).nodes;
  }

  lemma {:induction false} OpensRest(config: Config, links: Links, st: State, x: NodeId, heard: set<NodeId>)
    returns (events: seq<Event>)
    requires config.Valid() && Opens(config, links, st, x, heard)
    ensures Drives(config, links, st, events, Opened(config, links, st, x))
    decreases |links[x] - heard|
  {
    var rest := links[x] - heard;
    if rest == {} {
      events := [];
      assert links[x] == heard + rest;
      assert st.nodes[x := Opening(config, links[x], links[x])] == st.nodes;
      Stay(config, links, st);
    } else {
      var g :| g in rest;
      var on := OpensNext(config, links, st, x, heard, g);
      assert links[x] - (heard + {g}) == rest - {g};
      var more := OpensRest(config, links, on, x, heard + {g});
      Then(config, links, st, [ArrivalOf(x, g)], on, more, Opened(config, links, st, x));
      events := [ArrivalOf(x, g)] + more;
    }
  }

  /** The fleet at `t`: these nodes in office since the start and attending, the rest untouched. */
  ghost function Seated(config: Config, members: set<NodeId>, leaders: set<NodeId>, links: Links, t: Time): State
  {
    State(t, map id | id in members ::
               if id in leaders && id in links then Heard(Opening(config, links[id], links[id]), links[id], t)
               else Fresh(config))
  }

  ghost predicate Campable(config: Config, members: set<NodeId>, leaders: set<NodeId>, links: Links)
  {
    forall x :: x in leaders ==> x in links && CampOk(config, members, x, links[x])
  }

  lemma OpeningHeard(config: Config, group: set<NodeId>)
    ensures Heard(Opening(config, group, group), group, 0) == Opening(config, group, group)
  {
    var none: map<NodeId, Ledger.Grant> := map[];
    assert Ledger.Reap(Ledger.Book(config.Pool(), none, Some(0)), 0) == Ledger.Book(config.Pool(), none, Some(0));
  }

  lemma SeatsOne(config: Config, members: set<NodeId>, leaders: set<NodeId>, links: Links, x: NodeId)
    requires Campable(config, members, leaders, links) && x in leaders && Within(config, 0, 0)
    ensures var mid := Seated(config, members, leaders - {x}, links, 0);
            && Opens(config, links, mid, x, {})
            && Opened(config, links, mid, x) == Seated(config, members, leaders, links, 0)
  {
    var mid := Seated(config, members, leaders - {x}, links, 0);
    assert mid.nodes.Keys == members;
    assert Hearing({}, 0) == map[];
    OpeningHeard(config, links[x]);
    assert Opened(config, links, mid, x).nodes == Seated(config, members, leaders, links, 0).nodes;
  }

  lemma {:induction false} OpensAll(config: Config, members: set<NodeId>, leaders: set<NodeId>, links: Links)
    returns (events: seq<Event>)
    requires config.Valid() && Within(config, 0, 0) && Campable(config, members, leaders, links)
    ensures Drives(config, links, Seated(config, members, {}, links, 0), events,
                   Seated(config, members, leaders, links, 0))
    decreases |leaders|
  {
    var start := Seated(config, members, {}, links, 0);
    if leaders == {} {
      events := [];
      Stay(config, links, start);
    } else {
      var x :| x in leaders;
      var first := OpensAll(config, members, leaders - {x}, links);
      var mid := Seated(config, members, leaders - {x}, links, 0);
      SeatsOne(config, members, leaders, links, x);
      var second := OpensRest(config, links, mid, x, {});
      Then(config, links, start, first, mid, second, Seated(config, members, leaders, links, 0));
      events := first + second;
    }
  }

  /** Any camps can be kept in office together for any number of rounds at any pace. */
  lemma CampsLast(config: Config, members: set<NodeId>, leaders: set<NodeId>, links: Links, period: nat, n: nat)
    returns (events: seq<Event>)
    requires config.Valid() && Paced(config, period) && Campable(config, members, leaders, links)
    ensures Drives(config, links, Seated(config, members, {}, links, 0), events,
                   Seated(config, members, leaders, links, After(0, period, n)))
  {
    var start, open := Seated(config, members, {}, links, 0), Seated(config, members, leaders, links, 0);
    var first := OpensAll(config, members, leaders, links);
    SeatedAttend(config, members, leaders, links);
    var second := Rounds(config, links, open, leaders, period, n);
    var end := Seated(config, members, leaders, links, After(0, period, n));
    SeatedLater(config, members, leaders, links, After(0, period, n));
    Then(config, links, start, first, open, second, end);
    events := first + second;
  }

  lemma SeatedAttend(config: Config, members: set<NodeId>, leaders: set<NodeId>, links: Links)
    requires Campable(config, members, leaders, links)
    ensures AllAttend(config, Seated(config, members, leaders, links, 0), leaders, links, 0)
  {
    var st := Seated(config, members, leaders, links, 0);
    assert st.nodes.Keys == members;
    forall x | x in leaders
      ensures AttendsIn(config, st, x, links, 0)
    {
      OpeningHeard(config, links[x]);
    }
  }

  lemma SeatedLater(config: Config, members: set<NodeId>, leaders: set<NodeId>, links: Links, t: Time)
    ensures AllHeard(Seated(config, members, leaders, links, 0), leaders, links, t)
         == Seated(config, members, leaders, links, t)
  {
    forall id | id in members && id in leaders && id in links
      ensures Heard(Heard(Opening(config, links[id], links[id]), links[id], 0), links[id], t)
           == Heard(Opening(config, links[id], links[id]), links[id], t)
    {
      OpeningHeard(config, links[id]);
    }
  }
}
