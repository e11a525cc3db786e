/** A run in which one leader serves throughout and nothing is answered late, and a lease placed only
    once the leader's record of it has lapsed takes the fleet past the pool and past the cap. */
module FleetSlowRun {
  import opened Basics
  import opened Totals
  import opened Fleet
  import opened FleetSafety
  import opened FleetTheorems
  import opened FleetCamps
  import opened FleetCourt
  import LeaseWire
  import Split

  /** The record lapses while the answer lies read and unplaced. */
  lemma RecordLapses(config: Config, members: set<NodeId>, x: NodeId, group: set<NodeId>, y: NodeId, lead: Node,
                     t: Time, now: Time)
    requires config.Valid() && Presides(config, members, x, group, lead, t) && config.ttl > 0 && t + config.ttl <= now
    ensures Attends(config, members, x, group, Granting(config, lead, y, t), t)
    ensures Presides(config, members, x, group, Heard(Granting(config, lead, y, t), group, now), now)
  {
  }

  /** The state before the answer is placed: the leader has taken the pool back and leased it. */
  ghost function Unplaced(config: Config, members: set<NodeId>, x: NodeId, group: set<NodeId>, y: NodeId, lead: Node,
                          t: Time, now: Time): State
  {
    Court(config, members, x, y, now, Taken(config, x, Heard(Granting(config, lead, y, t), group, now), now),
          Reader(config, x, Listener(config, x, t), t))
  }

  /** The asker is answered, a lease's life passes, and the leader leases the pool to itself. */
  lemma ReadAndWait(config: Config, members: set<NodeId>, x: NodeId, group: set<NodeId>, y: NodeId, lead: Node, t: Time,
                    period: nat, rounds: nat) returns (events: seq<Event>)
    requires CourtOk(config, members, x, group, y) && Presides(config, members, x, group, lead, t) && config.Pool() > 0
    requires Paced(config, period) && config.ttl > 0 && After(t, period, rounds) >= t + config.ttl
    requires lead.held.None? && lead.exchange.None?
    ensures Drives(config, CourtLinks(x, group, y), Court(config, members, x, y, t, lead, Fresh(config)), events,
                   Unplaced(config, members, x, group, y, lead, t, After(t, period, rounds)))
  {
    var links, now := CourtLinks(x, group, y), After(t, period, rounds);
    var start, listener := Court(config, members, x, y, t, lead, Fresh(config)), Listener(config, x, t);
    var granting, reader := Granting(config, lead, y, t), Reader(config, x, listener, t);
    AskerHears(config, members, x, group, y, t, lead, Fresh(config));
    events := [Hear(y, x, Active, true)];
    var answered := AskerIsAnswered(config, members, x, group, y, t, lead, listener);
    Then(config, links, start, events, Court(config, members, x, y, t, lead, listener), answered,
         Court(config, members, x, y, t, granting, reader));
    events := events + answered;
    RecordLapses(config, members, x, group, y, lead, t, now);
    var wait := CourtGoesOn(config, members, x, group, y, t, granting, reader, period, rounds);
    var later := Heard(granting, group, now);
    Then(config, links, start, events, Court(config, members, x, y, t, granting, reader), wait,
         Court(config, members, x, y, now, later, reader));
    events := events + wait;
    var take := LeaderTakes(config, members, x, group, y, now, later, reader);
    Then(config, links, start, events, Court(config, members, x, y, now, later, reader), [take],
         Unplaced(config, members, x, group, y, lead, t, now));
    events := events + [take];
  }

  /** The conditions of the cap's law except the one on placing, and everyone patient. */
  ghost predicate SlowOnly(config: Config, members: set<NodeId>, trace: seq<State>, events: seq<Event>)
    requires config.Valid()
  {
    && IsRun(config, trace, events) && trace[0].nodes.Keys == members
    && NeverShrunk(config, trace, events) && Patient(trace, events)
    && Exclusive(config, trace) && NoLongBridge(config, trace)
  }

  /** Then the answer is placed. */
  lemma SlowEnd(config: Config, members: set<NodeId>, x: NodeId, group: set<NodeId>, y: NodeId, trace: seq<State>,
                events: seq<Event>) returns (after: seq<State>, more: seq<Event>)
    requires CourtOk(config, members, x, group, y) && trace != [] && trace[0].nodes.Keys == members
    requires Goes(config, CourtLinks(x, group, y), trace, events)
    ensures SlowOnly(config, members, after, more) && Last(after) == StepPlace(Last(trace), y)
  {
    AppendStep(config, trace, events, Place(y));
    after, more := trace + [Step(config, Last(trace), Place(y))], events + [Place(y)];
    forall i | 0 <= i < |more|
      ensures LateFits(config, after[i], more[i]) && PatientAt(after[i], more[i])
      ensures Along(CourtLinks(x, group, y), more[i])
    {
      if i < |events| {
        assert after[i] == trace[i] && more[i] == events[i];
        assert Tame(CourtLinks(x, group, y), trace[i], events[i]);
      }
    }
    CourtIsExclusive(config, x, group, y, after, more);
  }

  /** The asker once it has placed the answer at last. */
  ghost function Overdue(config: Config, x: NodeId, t: Time, now: Time): Node
  {
    Reader(config, x, Listener(config, x, t), t).(
      held := Some(Lease(config.Pool(), now + LeaseWire.WireTtl(t + config.ttl, t), x, t)),
      exchange := Some(Answer(config, x, t).(read := Some(t), open := false, reply := None)))
  }

  lemma PlacedAtLast(config: Config, members: set<NodeId>, x: NodeId, group: set<NodeId>, y: NodeId, lead: Node,
                     t: Time, now: Time)
    requires CourtOk(config, members, x, group, y) && config.ttl >= MILLISECOND
    ensures var taken := Taken(config, x, Heard(Granting(config, lead, y, t), group, now), now);
            var end := Court(config, members, x, y, now, taken, Overdue(config, x, t, now));
            && StepPlace(Unplaced(config, members, x, group, y, lead, t, now), y) == end
            && Total(LeasedMap(end)) == 2 * config.Pool()
  {
    var taken := Taken(config, x, Heard(Granting(config, lead, y, t), group, now), now);
    var end, two := Court(config, members, x, y, now, taken, Overdue(config, x, t, now)), {x, y};
    assert StepPlace(Unplaced(config, members, x, group, y, lead, t, now), y).nodes == end.nodes;
    assert |two| == 2;
    TotalAmong(LeasedMap(end), two, config.Pool());
  }

  /** With one leader, a whole network and nothing late, in any fleet of two or more, at any pace, an
      answer that lies unplaced for a lease's life ends with the pool leased twice. */
  lemma SlowPlacingRun(config: Config, members: set<NodeId>, x: NodeId, group: set<NodeId>, y: NodeId, period: nat)
    returns (trace: seq<State>, events: seq<Event>)
    requires CourtOk(config, members, x, group, y) && Paced(config, period)
    requires config.ttl >= MILLISECOND && config.Pool() > 0
    ensures SlowOnly(config, members, trace, events)
    ensures Total(LeasedMap(Last(trace))) == 2 * config.Pool()
    ensures Total(AllowanceMap(config, Last(trace))) == |members| * config.Portion() + 2 * config.Pool()
  {
    var links, start := CourtLinks(x, group, y), Court(config, members, x, y, 0, Fresh(config), Fresh(config));
    var first, t, lead := CourtOpens(config, members, x, group, y, period);
    AfterIsLater(t, period, config.ttl);
    var second := ReadAndWait(config, members, x, group, y, lead, t, period, config.ttl);
    var now := After(t, period, config.ttl);
    var unplaced := Unplaced(config, members, x, group, y, lead, t, now);
    Then(config, links, start, first, Court(config, members, x, y, t, lead, Fresh(config)), second, unplaced);
    assert start.nodes.Keys == members;
    var before := DrivenGoes(config, links, start, first + second, unplaced);
    trace, events := SlowEnd(config, members, x, group, y, before, first + second);
    PlacedAtLast(config, members, x, group, y, lead, t, now);
    CourtShareTotal(config, members, x, group, y, now,
                    Taken(config, x, Heard(Granting(config, lead, y, t), group, now), now),
                    Overdue(config, x, t, now), now);
    AllowanceIsShareAndLease(config, Last(trace));
  }

  /** At the configured size that run passes the cap whenever the pool is larger than what the
      portions leave over. */
  lemma SlowPlacingPassesCap(config: Config, members: set<NodeId>, x: NodeId, group: set<NodeId>, y: NodeId,
                             period: nat)
    returns (trace: seq<State>, events: seq<Event>)
    requires CourtOk(config, members, x, group, y) && Paced(config, period)
    requires |members| == config.fleetSize && config.ttl >= MILLISECOND
    requires config.Pool() > Split.GuaranteedTotal(config.cap, config.fraction) % config.fleetSize
    ensures SlowOnly(config, members, trace, events)
    ensures Total(AllowanceMap(config, Last(trace))) > config.cap
  {
    Split.PortionsLeave(Split.GuaranteedTotal(config.cap, config.fraction), config.fleetSize);
    trace, events := SlowPlacingRun(config, members, x, group, y, period);
  }
}
