/** A run in which nothing is wrong with the network, one leader serves throughout, every request waits
    out its timeout and every lease is placed at once, and a request its asker gave up on still takes
    the fleet past the pool and past the cap. */
module FleetLateRun {
  import opened Basics
  import opened Totals
  import opened Fleet
  import opened FleetSafety
  import opened FleetTheorems
  import opened FleetBreaches
  import opened FleetCamps
  import opened FleetCourt
  import Split

  // ---------- asked for a little, given up on ----------

  /** The asker after its first request, for one connection sent at `t`, is given up on. */
  ghost function GaveUp(config: Config, x: NodeId, t: Time): Node
  {
    Fresh(config).(peers := map[x := Contact(Active, t)], observed := t,
                   exchange := Some(Request(x, 1, t).(open := false)))
  }

  /** It hears the leader and asks for one connection. */
  lemma AsksForOne(config: Config, members: set<NodeId>, x: NodeId, group: set<NodeId>, y: NodeId, t: Time, lead: Node)
    returns (events: seq<Event>)
    requires CourtOk(config, members, x, group, y)
    ensures Drives(config, CourtLinks(x, group, y), Court(config, members, x, y, t, lead, Fresh(config)), events,
                   Court(config, members, x, y, t, lead, GaveUp(config, x, t).(exchange := Some(Request(x, 1, t)))))
  {
    var blank := Fresh(config);
    AskerHears(config, members, x, group, y, t, lead, blank);
    var heard := blank.(peers := map[x := Contact(Active, t)], observed := t);
    var ask := AskerAsks(config, members, x, group, y, t, lead, heard, 1);
    Then(config, CourtLinks(x, group, y), Court(config, members, x, y, t, lead, blank), [Hear(y, x, Active, true)],
         Court(config, members, x, y, t, lead, heard), [ask],
         Court(config, members, x, y, t, lead, GaveUp(config, x, t).(exchange := Some(Request(x, 1, t)))));
    events := [Hear(y, x, Active, true)] + [ask];
  }

  /** Once the timeout has passed it gives up. */
  lemma GivesUp(config: Config, members: set<NodeId>, x: NodeId, group: set<NodeId>, y: NodeId, t: Time, now: Time,
                lead: Node)
    requires CourtOk(config, members, x, group, y) && t + PEER_TIMEOUT <= now
    ensures Drives(config, CourtLinks(x, group, y),
                   Court(config, members, x, y, now, lead, GaveUp(config, x, t).(exchange := Some(Request(x, 1, t)))),
                   [GiveUp(y)], Court(config, members, x, y, now, lead, GaveUp(config, x, t)))
  {
    var st := Court(config, members, x, y, now, lead, GaveUp(config, x, t).(exchange := Some(Request(x, 1, t))));
    One(config, CourtLinks(x, group, y), st, GiveUp(y));
    assert Step(config, st, GiveUp(y)).nodes == Court(config, members, x, y, now, lead, GaveUp(config, x, t)).nodes;
  }

  // ---------- then asked for everything ----------

  ghost function HeardAgain(config: Config, x: NodeId, t: Time, now: Time): Node
  {
    GaveUp(config, x, t).(peers := map[x := Contact(Active, now)], observed := now)
  }

  /** It hears the leader again and leases the whole pool. */
  lemma ThenLeases(config: Config, members: set<NodeId>, x: NodeId, group: set<NodeId>, y: NodeId, t: Time, now: Time,
                   lead: Node) returns (events: seq<Event>)
    requires CourtOk(config, members, x, group, y) && Presides(config, members, x, group, lead, now) && t <= now
    requires config.Pool() > 0
    ensures Drives(config, CourtLinks(x, group, y), Court(config, members, x, y, now, lead, GaveUp(config, x, t)),
                   events,
                   Court(config, members, x, y, now, Granting(config, lead, y, now),
                         Holder(config, x, HeardAgain(config, x, t, now), now)))
  {
    var gone, heard := GaveUp(config, x, t), HeardAgain(config, x, t, now);
    assert Hears(config, x, gone, t);
    AskerHears(config, members, x, group, y, now, lead, gone);
    var more := AskerLeases(config, members, x, group, y, now, lead, heard);
    Then(config, CourtLinks(x, group, y), Court(config, members, x, y, now, lead, gone), [Hear(y, x, Active, true)],
         Court(config, members, x, y, now, lead, heard), more,
         Court(config, members, x, y, now, Granting(config, lead, y, now), Holder(config, x, heard, now)));
    events := [Hear(y, x, Active, true)] + more;
  }

  lemma StillPresides(config: Config, members: set<NodeId>, x: NodeId, group: set<NodeId>, lead: Node, t: Time,
                      now: Time)
    requires Presides(config, members, x, group, lead, t) && t <= now
    ensures Presides(config, members, x, group, Heard(lead, group, now), now)
  {
  }

  /** Both requests: the first out for at least the timeout while the leader goes on attending. */
  lemma AsksTwice(config: Config, members: set<NodeId>, x: NodeId, group: set<NodeId>, y: NodeId, t: Time, lead: Node,
                  period: nat, rounds: nat) returns (events: seq<Event>)
    requires CourtOk(config, members, x, group, y) && Presides(config, members, x, group, lead, t)
    requires Paced(config, period) && After(t, period, rounds) >= t + PEER_TIMEOUT && config.Pool() > 0
    ensures var now := After(t, period, rounds);
            Drives(config, CourtLinks(x, group, y), Court(config, members, x, y, t, lead, Fresh(config)), events,
                   Court(config, members, x, y, now, Granting(config, Heard(lead, group, now), y, now),
                         Holder(config, x, HeardAgain(config, x, t, now), now)))
  {
    var links, now := CourtLinks(x, group, y), After(t, period, rounds);
    var later := Heard(lead, group, now);
    var start := Court(config, members, x, y, t, lead, Fresh(config));
    var asking := GaveUp(config, x, t).(exchange := Some(Request(x, 1, t)));
    events := AsksForOne(config, members, x, group, y, t, lead);
    var wait := CourtGoesOn(config, members, x, group, y, t, lead, asking, period, rounds);
    Then(config, links, start, events, Court(config, members, x, y, t, lead, asking), wait,
         Court(config, members, x, y, now, later, asking));
    events := events + wait;
    GivesUp(config, members, x, group, y, t, now, later);
    Then(config, links, start, events, Court(config, members, x, y, now, later, asking), [GiveUp(y)],
         Court(config, members, x, y, now, later, GaveUp(config, x, t)));
    events := events + [GiveUp(y)];
    StillPresides(config, members, x, group, lead, t, now);
    var more := ThenLeases(config, members, x, group, y, t, now, later);
    Then(config, links, start, events, Court(config, members, x, y, now, later, GaveUp(config, x, t)), more,
         Court(config, members, x, y, now, Granting(config, later, y, now),
               Holder(config, x, HeardAgain(config, x, t, now), now)));
    events := events + more;
  }

  // ---------- the run ----------

  /** The state the late answer finds. */
  ghost function Held(config: Config, members: set<NodeId>, x: NodeId, y: NodeId, lead: Node, t: Time, now: Time): State
  {
    Court(config, members, x, y, now, Granting(config, lead, y, now),
          Holder(config, x, HeardAgain(config, x, t, now), now))
  }

  lemma HeldIsPending(config: Config, members: set<NodeId>, x: NodeId, group: set<NodeId>, y: NodeId, lead: Node,
                      t: Time, now: Time)
    requires CourtOk(config, members, x, group, y) && Presides(config, members, x, group, lead, now)
    requires config.ttl >= MILLISECOND && lead.exchange.None?
    ensures LatePending(config, Held(config, members, x, y, lead, t, now), x, y, 0, Placed(config, x, now))
    ensures Held(config, members, x, y, lead, t, now).nodes[y].past[0].want == 1
  {
    var st := Held(config, members, x, y, lead, t, now);
    assert Contacts(group, group, now, now) == Hearing(group, now);
    CampLeads(config, members, x, group, group, now, now);
    assert st.nodes[y].past == [Request(x, 1, t).(open := false)];
  }

  /** A run as far as the late answer: everything the cap's law asks of a run holds of it. */
  lemma HeldWhole(config: Config, members: set<NodeId>, x: NodeId, group: set<NodeId>, y: NodeId, period: nat)
    returns (trace: seq<State>, events: seq<Event>, lead: Node, t: Time, now: Time)
    requires CourtOk(config, members, x, group, y) && Paced(config, period) && config.Pool() > 0
    ensures Goes(config, CourtLinks(x, group, y), trace, events) && trace[0].nodes.Keys == members
    ensures Last(trace) == Held(config, members, x, y, lead, t, now)
    ensures Presides(config, members, x, group, lead, now) && lead.exchange.None?
  {
    var links, rounds := CourtLinks(x, group, y), PEER_TIMEOUT;
    var start := Court(config, members, x, y, 0, Fresh(config), Fresh(config));
    var first, opens, before := CourtOpens(config, members, x, group, y, period);
    t := opens;
    AfterIsLater(t, period, rounds);
    var second := AsksTwice(config, members, x, group, y, t, before, period, rounds);
    now := After(t, period, rounds);
    lead := Heard(before, group, now);
    StillPresides(config, members, x, group, before, t, now);
    var end := Held(config, members, x, y, lead, t, now);
    Then(config, links, start, first, Court(config, members, x, y, t, before, Fresh(config)), second, end);
    events := first + second;
    assert start.nodes.Keys == members;
    trace := DrivenGoes(config, links, start, events, end);
  }

  /** The conditions of the cap's law except the one on late answers, and everyone patient. */
  ghost predicate LateOnly(config: Config, members: set<NodeId>, trace: seq<State>, events: seq<Event>)
    requires config.Valid()
  {
    && IsRun(config, trace, events) && trace[0].nodes.Keys == members
    && Prompt(trace, events) && Patient(trace, events) && Exclusive(config, trace) && NoLongBridge(config, trace)
  }

  /** Then the leader answers the request given up on, and asks for itself. */
  lemma LateEnd(config: Config, members: set<NodeId>, x: NodeId, group: set<NodeId>, y: NodeId, trace: seq<State>,
                events: seq<Event>, demand: nat) returns (after: seq<State>, more: seq<Event>)
    requires CourtOk(config, members, x, group, y) && trace != [] && trace[0].nodes.Keys == members
    requires Goes(config, CourtLinks(x, group, y), trace, events)
    ensures LateOnly(config, members, after, more) && Last(after) == AfterLate(config, Last(trace), y, 0, x, demand)
  {
    var late := Step(config, Last(trace), ServeLate(y, 0));
    AppendStep(config, trace, events, ServeLate(y, 0));
    AppendStep(config, trace + [late], events + [ServeLate(y, 0)], Ask(x, demand));
    after, more := trace + [late] + [Step(config, late, Ask(x, demand))], events + [ServeLate(y, 0)] + [Ask(x, demand)];
    forall i | 0 <= i < |more|
      ensures PromptAt(after[i], more[i]) && PatientAt(after[i], more[i]) && Along(CourtLinks(x, group, y), more[i])
    {
      if i < |events| {
        assert after[i] == trace[i] && more[i] == events[i];
        assert Tame(CourtLinks(x, group, y), trace[i], events[i]);
      }
    }
    CourtIsExclusive(config, x, group, y, after, more);
  }

  /** Up to the late answer the law's conditions hold, so everything live is the leader's issue. */
  lemma HeldIsSound(config: Config, x: NodeId, group: set<NodeId>, y: NodeId, trace: seq<State>, events: seq<Event>)
    requires config.Valid() && config.fleetSize >= 2 && x != y && Goes(config, CourtLinks(x, group, y), trace, events)
    requires CanGrant(config, Last(trace), x)
    ensures Inv(config, Last(trace)) && SoleIssuer(config, Last(trace), x)
  {
    GoesHeeds(config, CourtLinks(x, group, y), trace, events);
    CourtIsExclusive(config, x, group, y, trace, events);
    SteadyInv(config, trace, events, |trace| - 1);
    forall h, c | LiveClaim(config, Last(trace), h, c)
      ensures c.issuer == x
    {
      OneIssuer(config, trace, events, |trace| - 1, h, c);
    }
  }

  /** The law is false even with one leader, a whole network, patient askers and prompt placing: in any
      fleet of two or more, at any pace, there is a run in which a request given up on and answered
      last ends with all but one of the pool leased twice over. */
  lemma LateRequestRun(config: Config, members: set<NodeId>, x: NodeId, group: set<NodeId>, y: NodeId, period: nat)
    returns (trace: seq<State>, events: seq<Event>)
    requires CourtOk(config, members, x, group, y) && Paced(config, period)
    requires config.ttl >= MILLISECOND && config.Pool() > 1
    ensures LateOnly(config, members, trace, events)
    ensures Total(LeasedMap(Last(trace))) == 2 * config.Pool() - 1
    ensures Total(AllowanceMap(config, Last(trace))) == |members| * config.Portion() + 2 * config.Pool() - 1
  {
    var before, first, lead, t, now := HeldWhole(config, members, x, group, y, period);
    var st := Last(before);
    HeldIsPending(config, members, x, group, y, lead, t, now);
    HeldIsSound(config, x, group, y, before, first);
    var demand := LateRequestBreaches(config, st, x, y, 0, Placed(config, x, now));
    trace, events := LateEnd(config, members, x, group, y, before, first, demand);
    AfterLateShares(config, st, x, y, 0, demand);
    CourtShareTotal(config, members, x, group, y, now, Granting(config, lead, y, now),
                    Holder(config, x, HeardAgain(config, x, t, now), now), now);
    AllowanceIsShareAndLease(config, Last(trace));
  }

  /** At the configured size that run passes the cap whenever the pool is larger than one more than
      what the portions leave over. */
  lemma LateRequestPassesCap(config: Config, members: set<NodeId>, x: NodeId, group: set<NodeId>, y: NodeId,
                             period: nat)
    returns (trace: seq<State>, events: seq<Event>)
    requires CourtOk(config, members, x, group, y) && Paced(config, period)
    requires |members| == config.fleetSize && config.ttl >= MILLISECOND
    requires config.Pool() > Split.GuaranteedTotal(config.cap, config.fraction) % config.fleetSize + 1
    ensures LateOnly(config, members, trace, events)
    ensures Total(AllowanceMap(config, Last(trace))) > config.cap
  {
    Split.PortionsLeave(Split.GuaranteedTotal(config.cap, config.fraction), config.fleetSize);
    trace, events := LateRequestRun(config, members, x, group, y, period);
  }
}
