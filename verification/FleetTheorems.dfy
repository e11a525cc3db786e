/** The fleet's central law over whole runs, and exactly what it rests on. */
module FleetTheorems {
  import opened Basics
  import opened Totals
  import opened Fleet
  import opened FleetSafety
  import Ledger
  import Split

  // ---------- where leases come from ----------

  ghost predicate Sourced(config: Config, st: State, h: NodeId, c: Lease)
  {
    || (CanGrant(config, st, c.issuer) && c.issued == st.now)
    || (h in st.nodes && exists d :: IsClaim(config, st.nodes[h], d) && d.issuer == c.issuer && d.issued == c.issued)
  }

  lemma AskSources(config: Config, st: State, id: NodeId, demand: nat, h: NodeId, c: Lease)
    requires config.Valid()
    requires var b := StepAsk(config, st, id, demand); h in b.nodes && IsClaim(config, b.nodes[h], c)
    ensures Sourced(config, st, h, c)
  {
    if StepAsk(config, st, id, demand) != st {
      AskEffect(config, st, id, demand);
    }
  }

  lemma ServeSources(config: Config, st: State, holder: NodeId, lag: nat, h: NodeId, c: Lease)
    requires var b := StepServe(config, st, holder, lag); h in b.nodes && IsClaim(config, b.nodes[h], c)
    ensures Sourced(config, st, h, c)
  {
    if StepServe(config, st, holder, lag) != st {
      ServeGrants(config, st, holder, lag);
    }
  }

  /** A claim after a step was there before it, or was granted in it by a node that could. */
  lemma StepSources(config: Config, st: State, event: Event, h: NodeId, c: Lease)
    requires config.Valid()
    requires var b := Step(config, st, event); h in b.nodes && IsClaim(config, b.nodes[h], c)
    ensures Sourced(config, st, h, c)
  {
    match event
    case Ask(id, demand) => AskSources(config, st, id, demand, h, c);
    case Serve(holder, lag) => ServeSources(config, st, holder, lag, h, c);
    case Place(id) =>
      if h == id && StepPlace(st, id) != st {
        var d := Incoming(config, st.nodes[h]).value;
        assert IsClaim(config, st.nodes[h], d);
      }
    case _ =>
      assert IsClaim(config, st.nodes[h], c);
  }

  ghost predicate GrantedAt(config: Config, trace: seq<State>, p: nat, c: Lease)
  {
    p < |trace| && CanGrant(config, trace[p], c.issuer) && trace[p].now == c.issued
  }

  /** Every claim in the state at `k` was granted at some earlier state of the run. */
  ghost predicate Traced(config: Config, trace: seq<State>, k: nat)
    requires k < |trace|
  {
    forall h, c :: h in trace[k].nodes && IsClaim(config, trace[k].nodes[h], c) ==>
      exists p: nat :: p <= k && GrantedAt(config, trace, p, c)
  }

  lemma TracedStep(config: Config, trace: seq<State>, events: seq<Event>, k: nat)
    requires config.Valid() && IsRun(config, trace, events)
    requires k < |events| && Traced(config, trace, k)
    ensures Traced(config, trace, k + 1)
  {
    var after := trace[k + 1];
    assert after == Step(config, trace[k], events[k]);
    forall h, c | h in after.nodes && IsClaim(config, after.nodes[h], c)
      ensures exists p: nat :: p <= k + 1 && GrantedAt(config, trace, p, c)
    {
      StepSources(config, trace[k], events[k], h, c);
      if CanGrant(config, trace[k], c.issuer) && c.issued == trace[k].now {
        assert GrantedAt(config, trace, k, c);
      } else {
        var d :| IsClaim(config, trace[k].nodes[h], d) && d.issuer == c.issuer && d.issued == c.issued;
        var p: nat :| p <= k && GrantedAt(config, trace, p, d);
        assert GrantedAt(config, trace, p, c);
      }
    }
  }

  /** A run in which every lease is placed promptly and no late answer shrinks what its asker holds. */
  ghost predicate Steady(config: Config, trace: seq<State>, events: seq<Event>)
    requires config.Valid()
  {
    IsRun(config, trace, events) && NeverShrunk(config, trace, events) && Prompt(trace, events)
  }

  /** A steady run in which no two nodes can grant within one lease life of each other. */
  ghost predicate Orderly(config: Config, trace: seq<State>, events: seq<Event>)
    requires config.Valid()
  {
    Steady(config, trace, events) && Exclusive(config, trace)
  }

  /** Whatever the network does, in every steady run what each node has issued fits the pool. */
  lemma {:induction false} SteadyInv(config: Config, trace: seq<State>, events: seq<Event>, k: nat)
    requires config.Valid() && Steady(config, trace, events) && k < |trace|
    ensures Inv(config, trace[k]) && Traced(config, trace, k)
  {
    if k == 0 {
      InitialInv(config, trace[0]);
    } else {
      SteadyInv(config, trace, events, k - 1);
      TracedStep(config, trace, events, k - 1);
      assert PromptAt(trace[k - 1], events[k - 1]) && LateFits(config, trace[k - 1], events[k - 1]);
      StepKeeps(config, trace[k - 1], events[k - 1]);
      assert trace[k] == Step(config, trace[k - 1], events[k - 1]);
    }
  }

  /** In an orderly run everything live has one issuer, the node able to grant if there is one. */
  lemma OneIssuer(config: Config, trace: seq<State>, events: seq<Event>, k: nat, h: NodeId, c: Lease)
    requires config.Valid() && Orderly(config, trace, events) && k < |trace| && LiveClaim(config, trace[k], h, c)
    ensures forall g, d :: LiveClaim(config, trace[k], g, d) ==> d.issuer == c.issuer
    ensures forall x :: CanGrant(config, trace[k], x) ==> x == c.issuer
  {
    SteadyInv(config, trace, events, k);
    var p: nat :| p <= k && GrantedAt(config, trace, p, c);
    assert ClaimOk(config, trace[k], h, c);
    forall g, d | LiveClaim(config, trace[k], g, d)
      ensures d.issuer == c.issuer
    {
      assert ClaimOk(config, trace[k], g, d);
      var q: nat :| q <= k && GrantedAt(config, trace, q, d);
    }
  }

  /** What everyone holds of one node's issue fits what anyone could be holding of it. */
  lemma HeldFromOne(config: Config, st: State, x: NodeId)
    requires forall h, c :: LiveClaim(config, st, h, c) ==> c.issuer == x
    ensures Total(LeasedMap(st)) <= Total(WeightMap(config, st, x))
  {
    forall h | h in st.nodes
      ensures LeasedMap(st)[h] <= WeightMap(config, st, x)[h]
    {
      if Leased(st.nodes[h], st.now) > 0 {
        assert LiveClaim(config, st, h, st.nodes[h].held.value);
      }
    }
    TotalMonotone(LeasedMap(st), WeightMap(config, st, x));
  }

  /** In every orderly run, at every state, the unexpired leases in all nodes' hands fit the pool. */
  lemma LeasesFitPool(config: Config, trace: seq<State>, events: seq<Event>, k: nat)
    requires config.Valid() && Orderly(config, trace, events) && k < |trace|
    ensures Total(LeasedMap(trace[k])) <= config.Pool()
  {
    SteadyInv(config, trace, events, k);
    if h, c :| LiveClaim(config, trace[k], h, c) {
      OneIssuer(config, trace, events, k, h, c);
      HeldFromOne(config, trace[k], c.issuer);
      assert IssueFits(config, trace[k], c.issuer);
    } else {
      HeldFromOne(config, trace[k], 0);
      assert IssueFits(config, trace[k], 0);
    }
  }

  /** While some node can grant, every unexpired lease in hand is on that node's record, for no
      fewer connections and no less long, and together they are within what it has outstanding. */
  lemma HoldersWithinRecord(config: Config, trace: seq<State>, events: seq<Event>, k: nat, x: NodeId)
    requires config.Valid() && Orderly(config, trace, events) && k < |trace| && CanGrant(config, trace[k], x)
    ensures forall h, c :: LiveClaim(config, trace[k], h, c) ==> Recorded(trace[k].nodes[x].book.grants, h, c)
    ensures Total(LeasedMap(trace[k])) <= Ledger.Outstanding(trace[k].nodes[x].book.grants, trace[k].now)
  {
    var st := trace[k];
    SteadyInv(config, trace, events, k);
    forall h, c | LiveClaim(config, st, h, c)
      ensures c.issuer == x && Recorded(st.nodes[x].book.grants, h, c)
    {
      OneIssuer(config, trace, events, k, h, c);
      OnRecord(config, st, x, h, c);
    }
    HeldFromOne(config, st, x);
    CoveredByRecord(config, st, x);
  }

  lemma {:induction false} MembersFixed(config: Config, trace: seq<State>, events: seq<Event>, k: nat)
    requires config.Valid() && IsRun(config, trace, events) && k < |trace|
    ensures trace[k].nodes.Keys == trace[0].nodes.Keys
  {
    if k > 0 {
      MembersFixed(config, trace, events, k - 1);
      assert trace[k] == Step(config, trace[k - 1], events[k - 1]);
    }
  }

  ghost function SeenMap(config: Config, st: State): map<NodeId, nat>
  {
    map id | id in st.nodes :: Seen(config, st.nodes[id].peers, st.now)
  }

  ghost function ShareMap(config: Config, st: State): map<NodeId, nat>
    requires config.Valid()
  {
    Split.Shares(config.cap, config.fraction, config.fleetSize, SeenMap(config, st))
  }

  /** A fleet a portion each fits promises itself no more than the guaranteed part, whatever each
      node sees. */
  lemma SharesFit(config: Config, st: State)
    requires config.Valid()
    requires |st.nodes.Keys| * config.Portion() <= Split.GuaranteedTotal(config.cap, config.fraction)
    ensures Total(ShareMap(config, st)) <= Split.GuaranteedTotal(config.cap, config.fraction)
  {
    var seen := SeenMap(config, st);
    assert seen.Keys == st.nodes.Keys;
    Split.GuaranteesFitExactly(config.cap, config.fraction, config.fleetSize, seen.Keys);
  }

  lemma AllowanceIsShareAndLease(config: Config, st: State)
    requires config.Valid()
    ensures Total(AllowanceMap(config, st)) == Total(ShareMap(config, st)) + Total(LeasedMap(st))
  {
    var shares, leased, both := ShareMap(config, st), LeasedMap(st), AllowanceMap(config, st);
    assert shares.Keys == leased.Keys == both.Keys == st.nodes.Keys;
    TotalSum(shares, leased, both);
  }

  /** The cap holds: in every orderly run of nodes whose portions fit, at every state, what all
      nodes together believe they may open is within the server's cap. */
  lemma CapHolds(config: Config, trace: seq<State>, events: seq<Event>, k: nat)
    requires config.Valid() && Orderly(config, trace, events) && k < |trace|
    requires |trace[0].nodes.Keys| * config.Portion() <= Split.GuaranteedTotal(config.cap, config.fraction)
    ensures Total(AllowanceMap(config, trace[k])) <= config.cap
  {
    MembersFixed(config, trace, events, k);
    LeasesFitPool(config, trace, events, k);
    SharesFit(config, trace[k]);
    AllowanceIsShareAndLease(config, trace[k]);
  }

  /** Nodes that each see as many as there are promise themselves no more than the guaranteed part,
      however many were configured. */
  lemma SharesFitInSight(config: Config, st: State)
    requires config.Valid()
    requires forall id :: id in st.nodes ==> Seen(config, st.nodes[id].peers, st.now) >= |st.nodes.Keys|
    ensures Total(ShareMap(config, st)) <= Split.GuaranteedTotal(config.cap, config.fraction)
  {
    var seen := SeenMap(config, st);
    assert seen.Keys == st.nodes.Keys && |seen| == |st.nodes.Keys|;
    Split.SeersFit(config.cap, config.fraction, config.fleetSize, seen);
  }

  /** So the cap holds, at any state of an orderly run at which everyone sees everyone, for a fleet of
      any size. */
  lemma CapHoldsInSight(config: Config, trace: seq<State>, events: seq<Event>, k: nat)
    requires config.Valid() && Orderly(config, trace, events) && k < |trace|
    requires forall id :: id in trace[k].nodes ==>
      Seen(config, trace[k].nodes[id].peers, trace[k].now) >= |trace[k].nodes.Keys|
    ensures Total(AllowanceMap(config, trace[k])) <= config.cap
  {
    LeasesFitPool(config, trace, events, k);
    SharesFitInSight(config, trace[k]);
    AllowanceIsShareAndLease(config, trace[k]);
  }

  // ---------- who can grant, and when ----------

  ghost predicate InOffice(st: State, x: NodeId)
  {
    x in st.nodes && st.nodes[x].book.office.Some?
  }

  /** Office recorded as begun at `since` was held at every state from then on. */
  lemma {:induction false} OfficeSpan(config: Config, trace: seq<State>, events: seq<Event>, k: nat, x: NodeId)
    returns (from: int)
    requires config.Valid() && IsRun(config, trace, events) && k < |trace| && InOffice(trace[k], x)
    ensures 0 <= from <= k && trace[from].now == trace[k].nodes[x].book.office.value
    ensures forall i :: from <= i <= k ==>
      InOffice(trace[i], x) && trace[i].nodes[x].book.office == trace[k].nodes[x].book.office
  {
    if k == 0 {
      from := 0;
    } else {
      var before, after := trace[k - 1], trace[k];
      assert after == Step(config, before, events[k - 1]);
      OfficeStep(config, before, events[k - 1], x);
      if after.nodes[x].book.office == Some(after.now) {
        from := k;
      } else {
        from := OfficeSpan(config, trace, events, k - 1, x);
      }
    }
  }

  /** Office is only ever begun by an observation made now. */
  lemma OfficeStep(config: Config, st: State, event: Event, x: NodeId)
    requires config.Valid() && InOffice(Step(config, st, event), x)
    ensures var b := Step(config, st, event);
            || b.nodes[x].book.office == Some(b.now)
            || (InOffice(st, x) && st.nodes[x].book.office == b.nodes[x].book.office)
  {
  }

  lemma {:induction false} TimeMonotone(config: Config, trace: seq<State>, events: seq<Event>, i: nat, j: nat)
    requires config.Valid() && IsRun(config, trace, events) && i <= j < |trace|
    ensures trace[i].now <= trace[j].now
    decreases j - i
  {
    if i < j {
      TimeMonotone(config, trace, events, i, j - 1);
      assert trace[j] == Step(config, trace[j - 1], events[j - 1]);
    }
  }

  // ---------- what asking does ----------

  /** Asking does nothing for a node inside its allowance or with a request already out. One able to
      grant leases to itself what it lacks, or what others leave of the pool, and turns nowhere else when
      they leave nothing. One that is not asks the lowest active node it sees, if that is another. */
  lemma AskExactly(config: Config, st: State, id: NodeId, demand: nat)
    requires config.Valid() && id in st.nodes
    ensures var node, b := st.nodes[id], StepAsk(config, st, id, demand);
            var share, lease := Guaranteed(config, node, st.now), Leased(node, st.now);
            var others := Ledger.Outstanding(node.book.grants - {id}, st.now);
            if demand < share + lease || (node.exchange.Some? && node.exchange.value.open) then b == st
            else if CanGrant(config, st, id) then
              if node.book.pool <= others then b == st
              else b.nodes[id].held
                   == Some(Lease(Min(demand - share + 1, node.book.pool - others), st.now + config.ttl, id, st.now))
            else
              && (forall leader :: IsLeader(config, node.peers, leader, st.now) && leader != id ==>
                    var request := Exchange(leader, demand - share + 1, st.now, true, false, None, None);
                    b.nodes[id] == node.(exchange := Some(request), past := Retired(node)))
              && ((forall leader :: IsLeader(config, node.peers, leader, st.now) ==> leader == id) ==> b == st)
  {
  }

  // ---------- a request is answered once ----------

  ghost predicate AnsweredPast(st: State, h: NodeId, i: nat)
  {
    h in st.nodes && i < |st.nodes[h].past| && st.nodes[h].past[i].answered
  }

  lemma AnsweredStays(config: Config, st: State, event: Event, h: NodeId, i: nat)
    requires config.Valid() && AnsweredPast(st, h, i)
    ensures AnsweredPast(Step(config, st, event), h, i)
  {
  }

  lemma {:induction false} AnsweredForGood(config: Config, trace: seq<State>, events: seq<Event>, j: nat, k: nat,
                                           h: NodeId, i: nat)
    requires config.Valid() && IsRun(config, trace, events) && j <= k < |trace| && AnsweredPast(trace[j], h, i)
    ensures AnsweredPast(trace[k], h, i)
    decreases k
  {
    if j < k {
      AnsweredForGood(config, trace, events, j, k - 1, h, i);
      assert trace[k] == Step(config, trace[k - 1], events[k - 1]);
      AnsweredStays(config, trace[k - 1], events[k - 1], h, i);
    }
  }

  /** However often a request given up on reaches the leader, it is granted at most once in a run. */
  lemma AnsweredLateOnce(config: Config, trace: seq<State>, events: seq<Event>, j: nat, k: nat, h: NodeId, i: nat)
    requires config.Valid() && IsRun(config, trace, events) && j < k < |events|
    requires events[j] == ServeLate(h, i) == events[k] && trace[j + 1] != trace[j]
    ensures trace[k + 1] == trace[k]
  {
    assert trace[j + 1] == Step(config, trace[j], events[j]);
    assert AnsweredPast(trace[j + 1], h, i);
    AnsweredForGood(config, trace, events, j + 1, k, h, i);
    assert trace[k + 1] == Step(config, trace[k], events[k]);
  }

  // ---------- what a node in office has seen ----------

  /** A node in office was leading at its last observation, and what it has heard came from members
      and no later than that. */
  ghost predicate ViewOk(config: Config, members: set<NodeId>, now: Time, id: NodeId, node: Node)
  {
    && node.observed <= now
    && (node.book.office.Some? ==>
          node.book.office.value <= node.observed && Leading(config, node.peers, id, node.observed))
    && node.peers.Keys <= members
    && forall m :: m in node.peers ==> node.peers[m].at <= node.observed
  }

  /** Leading is decided by the members still in view, so dropping the dead changes nothing. */
  lemma LeadingAfterReap(config: Config, peers: map<NodeId, Contact>, id: NodeId, now: Time)
    ensures var kept := map m | m in peers && InView(config, peers[m], now) :: peers[m];
            Leading(config, peers, id, now) <==> Leading(config, kept, id, now)
  {
    var kept := map m | m in peers && InView(config, peers[m], now) :: peers[m];
    assert AliveSet(config, peers, now) == AliveSet(config, kept, now);
    assert forall m :: ActiveInView(config, peers, m, now) <==> ActiveInView(config, kept, m, now);
  }

  /** Only an arrival or a tick touches what a node has heard, and only then does it observe. */
  lemma ViewUntouched(config: Config, st: State, event: Event, id: NodeId)
    requires config.Valid() && !event.Hear? && !event.Tick? && id in st.nodes
    ensures var b := Step(config, st, event);
            && st.now <= b.now && b.nodes.Keys == st.nodes.Keys
            && (|| b.nodes[id] == Fresh(config).(past := b.nodes[id].past)
                || (&& b.nodes[id].peers == st.nodes[id].peers
                    && b.nodes[id].observed == st.nodes[id].observed
                    && b.nodes[id].book.office == st.nodes[id].book.office))
  {
  }

  lemma ViewHear(config: Config, st: State, id: NodeId, from: NodeId, mode: Mode, newer: bool)
    requires id in st.nodes && from in st.nodes && ViewOk(config, st.nodes.Keys, st.now, id, st.nodes[id])
    ensures var b := StepHear(config, st, id, from, mode, newer);
            ViewOk(config, st.nodes.Keys, st.now, id, b.nodes[id])
  {
    LeadingAfterReap(config, HeardFrom(st.nodes[id].peers, from, mode, newer, st.now), id, st.now);
  }

  lemma ViewStep(config: Config, st: State, event: Event, id: NodeId)
    requires config.Valid() && id in st.nodes && ViewOk(config, st.nodes.Keys, st.now, id, st.nodes[id])
    ensures var b := Step(config, st, event);
            b.nodes.Keys == st.nodes.Keys && ViewOk(config, b.nodes.Keys, b.now, id, b.nodes[id])
  {
    if event.Hear? {
      if event.node == id && event.from in st.nodes {
        ViewHear(config, st, id, event.from, event.mode, event.newer);
      }
    } else if event.Tick? {
      if event.node == id {
        ViewHear(config, st, id, id, st.nodes[id].mode, true);
      }
    } else {
      ViewUntouched(config, st, event, id);
    }
  }

  lemma {:induction false} ViewsHold(config: Config, trace: seq<State>, events: seq<Event>, k: nat)
    requires config.Valid() && IsRun(config, trace, events) && k < |trace|
    ensures forall id :: id in trace[k].nodes ==>
      ViewOk(config, trace[k].nodes.Keys, trace[k].now, id, trace[k].nodes[id])
  {
    if k > 0 {
      ViewsHold(config, trace, events, k - 1);
      MembersFixed(config, trace, events, k - 1);
      MembersFixed(config, trace, events, k);
      assert trace[k] == Step(config, trace[k - 1], events[k - 1]);
      forall id | id in trace[k].nodes
        ensures ViewOk(config, trace[k].nodes.Keys, trace[k].now, id, trace[k].nodes[id])
      {
        ViewStep(config, trace[k - 1], events[k - 1], id);
      }
    }
  }

  /** Two majorities share a member of any fleet smaller than both together. */
  lemma MajoritiesMeet(members: set<NodeId>, a: set<NodeId>, b: set<NodeId>)
    requires a <= members && b <= members && |members| < |a| + |b|
    ensures exists c :: c in a && c in b
  {
    if a !! b {
      assert |a + b| == |a| + |b|;
      SubsetSize(a + b, members);
    }
  }

  // ---------- who is really serving ----------

  /** In office, and still looking: the last observation is within the doubt window. A leader that
      has stopped is not serving, whatever its ledger says. */
  ghost predicate Serving(config: Config, st: State, x: NodeId)
  {
    InOffice(st, x) && st.now < st.nodes[x].observed + config.suspectAfter
  }

  lemma AnotherAlive(config: Config, peers: map<NodeId, Contact>, now: Time, from: NodeId)
    requires config.fleetSize >= 2 && Quorum(config, peers, now)
    ensures exists c :: c in AliveSet(config, peers, now) && c != from
  {
    if AliveSet(config, peers, now) <= {from} {
      SubsetSize(AliveSet(config, peers, now), {from});
    }
  }

  /** Staying in office takes a majority, so someone besides the node just heard was heard within the
      doubt window, and before this observation. */
  lemma HeardInTime(config: Config, st: State, x: NodeId, from: NodeId, mode: Mode, newer: bool)
    requires config.fleetSize >= 2 && x in st.nodes && ViewOk(config, st.nodes.Keys, st.now, x, st.nodes[x])
    requires Quorum(config, HeardFrom(st.nodes[x].peers, from, mode, newer, st.now), st.now)
    ensures st.now < st.nodes[x].observed + config.suspectAfter
  {
    var heard := HeardFrom(st.nodes[x].peers, from, mode, newer, st.now);
    AnotherAlive(config, heard, st.now, from);
    var c :| c in AliveSet(config, heard, st.now) && c != from;
    assert c in st.nodes[x].peers && heard[c] == st.nodes[x].peers[c];
  }

  /** A node still serving after a step that left it in office was serving before it. */
  lemma ServingBefore(config: Config, st: State, event: Event, x: NodeId)
    requires config.Valid() && config.fleetSize >= 2
    requires InOffice(st, x) && ViewOk(config, st.nodes.Keys, st.now, x, st.nodes[x])
    requires Serving(config, Step(config, st, event), x)
    ensures Serving(config, st, x)
  {
    if event.Hear? && event.node == x && event.from in st.nodes {
      HeardInTime(config, st, x, event.from, event.mode, event.newer);
    } else if event.Tick? && event.node == x {
      HeardInTime(config, st, x, x, st.nodes[x].mode, true);
    }
  }

  /** A node able to grant has been serving for as long as it has been in office. */
  lemma {:induction false} ServingSince(config: Config, trace: seq<State>, events: seq<Event>, i: nat, j: nat,
                                        x: NodeId)
    requires config.Valid() && config.fleetSize >= 2 && IsRun(config, trace, events) && i <= j < |trace|
    requires CanGrant(config, trace[j], x) && forall k :: i <= k <= j ==> InOffice(trace[k], x)
    ensures Serving(config, trace[i], x)
    decreases j - i
  {
    ViewsHold(config, trace, events, i);
    assert InOffice(trace[i], x);
    if i == j {
      AnotherAlive(config, trace[j].nodes[x].peers, trace[j].now, x);
    } else {
      ServingSince(config, trace, events, i + 1, j, x);
      assert trace[i + 1] == Step(config, trace[i], events[i]);
      ServingBefore(config, trace[i], events[i], x);
    }
  }

  ghost predicate BothServing(config: Config, st: State, x: NodeId, y: NodeId)
  {
    Serving(config, st, x) && Serving(config, st, y)
  }

  ghost predicate DualSpan(config: Config, trace: seq<State>, i: nat, j: nat, x: NodeId, y: NodeId)
  {
    i <= j < |trace| && forall k :: i <= k <= j ==> BothServing(config, trace[k], x, y)
  }

  /** No two nodes are both serving for longer than the wait leaves slack for: the doubt window, or
      more where a longer wait is configured. */
  ghost predicate NoLongDualOffice(config: Config, trace: seq<State>)
  {
    forall i: nat, j: nat, x, y :: x != y && DualSpan(config, trace, i, j, x, y) ==>
      trace[j].now <= trace[i].now + config.Slack()
  }

  /** Two nodes able to grant less than a lease life apart have been serving together for longer
      than the slack: the takeover wait covers both. */
  lemma CloseGrantersOverlap(config: Config, trace: seq<State>, events: seq<Event>, i: nat, j: nat, x: NodeId,
                             y: NodeId)
    returns (start: nat)
    requires config.Valid() && config.fleetSize >= 2 && IsRun(config, trace, events)
    requires i <= j < |trace| && x != y && CanGrant(config, trace[i], x) && CanGrant(config, trace[j], y)
    requires trace[j].now < trace[i].now + config.ttl
    ensures DualSpan(config, trace, start, i, x, y) && trace[start].now + config.Slack() < trace[i].now
  {
    TimeMonotone(config, trace, events, i, j);
    var fromX := OfficeSpan(config, trace, events, i, x);
    var fromY := OfficeSpan(config, trace, events, j, y);
    if fromY > i {
      TimeMonotone(config, trace, events, i, fromY);
    }
    start := Max(fromX, fromY);
    forall k | start <= k <= i
      ensures BothServing(config, trace[k], x, y)
    {
      ServingSince(config, trace, events, k, i, x);
      ServingSince(config, trace, events, k, j, y);
    }
  }

  /** The takeover wait covers a lease's life and the slack together: if no two nodes serve together
      for longer than the slack, grants by different nodes are a lease life apart. */
  lemma WaitSeparatesGranters(config: Config, trace: seq<State>, events: seq<Event>)
    requires config.Valid() && config.fleetSize >= 2 && IsRun(config, trace, events)
    requires NoLongDualOffice(config, trace)
    ensures Exclusive(config, trace)
  {
    forall i, j, x: NodeId, y: NodeId | 0 <= i <= j < |trace| && x != y
      && CanGrant(config, trace[i], x) && CanGrant(config, trace[j], y)
      ensures trace[i].now + config.ttl <= trace[j].now
    {
      if trace[j].now < trace[i].now + config.ttl {
        var start := CloseGrantersOverlap(config, trace, events, i, j, x, y);
      }
    }
  }

  lemma Alone(members: set<NodeId>, x: NodeId)
    requires |members| <= 1 && x in members
    ensures members == {x}
  {
    assert members == {x} + (members - {x});
  }

  /** A node alone has nobody to share the pool with. */
  lemma LoneIsExclusive(config: Config, trace: seq<State>, events: seq<Event>)
    requires config.Valid() && IsRun(config, trace, events) && |trace[0].nodes.Keys| <= 1
    ensures Exclusive(config, trace)
  {
    forall i, j, x: NodeId, y: NodeId | 0 <= i <= j < |trace|
      && CanGrant(config, trace[i], x) && CanGrant(config, trace[j], y)
      ensures x == y
    {
      MembersFixed(config, trace, events, i);
      MembersFixed(config, trace, events, j);
      Alone(trace[0].nodes.Keys, x);
    }
  }

  // ---------- what serving together takes ----------

  /** A node that leads the view it took within the doubt window. */
  ghost predicate LeadsNow(config: Config, st: State, x: NodeId)
  {
    && x in st.nodes
    && Leading(config, st.nodes[x].peers, x, st.nodes[x].observed)
    && st.now < st.nodes[x].observed + config.suspectAfter
  }

  ghost predicate HeardByBoth(config: Config, l: Node, h: Node, c: NodeId)
  {
    c in AliveSet(config, l.peers, l.observed) && c in AliveSet(config, h.peers, h.observed)
  }

  /** A bridge between two nodes that both lead: the higher does not have the lower in view as
      active, yet some member other than the lower is heard by both. That member is a third node, or
      the higher node itself where only its own hearing fails. */
  ghost predicate Bridged(config: Config, st: State, lo: NodeId, hi: NodeId)
  {
    && lo < hi && LeadsNow(config, st, lo) && LeadsNow(config, st, hi)
    && (var l, h := st.nodes[lo], st.nodes[hi];
        && !ActiveInView(config, h.peers, lo, h.observed)
        && exists c :: c != lo && HeardByBoth(config, l, h, c))
  }

  /** A node that has stopped for the doubt window, or has told itself it is draining, bridges with
      nobody: losing a leader and draining one are no exceptions to what follows. */
  lemma StoppedOrDrainingBridgesNobody(config: Config, st: State, x: NodeId, y: NodeId)
    requires x in st.nodes
    requires var node := st.nodes[x];
             || node.observed + config.suspectAfter <= st.now
             || (x in node.peers && node.peers[x].mode.Draining?)
    ensures !Bridged(config, st, x, y) && !Bridged(config, st, y, x)
  {
  }

  /** Two nodes serve together only across a bridge. */
  lemma DualOfficeIsBridged(config: Config, st: State, lo: NodeId, hi: NodeId)
    requires config.Valid() && |st.nodes.Keys| < 2 * config.Majority()
    requires forall id :: id in st.nodes ==> ViewOk(config, st.nodes.Keys, st.now, id, st.nodes[id])
    requires lo < hi && BothServing(config, st, lo, hi)
    ensures Bridged(config, st, lo, hi)
  {
    var l, h := st.nodes[lo], st.nodes[hi];
    MajoritiesMeet(st.nodes.Keys, AliveSet(config, l.peers, l.observed), AliveSet(config, h.peers, h.observed));
    var c :| c in AliveSet(config, l.peers, l.observed) && c in AliveSet(config, h.peers, h.observed);
    assert HeardByBoth(config, l, h, c);
  }

  ghost predicate BridgeSpan(config: Config, trace: seq<State>, i: nat, j: nat, lo: NodeId, hi: NodeId)
  {
    i <= j < |trace| && forall k :: i <= k <= j ==> Bridged(config, trace[k], lo, hi)
  }

  /** No pair of nodes that both lead stays bridged for longer than the slack. */
  ghost predicate NoLongBridge(config: Config, trace: seq<State>)
  {
    forall i: nat, j: nat, lo, hi :: BridgeSpan(config, trace, i, j, lo, hi) ==>
      trace[j].now <= trace[i].now + config.Slack()
  }

  lemma BridgesBoundOffice(config: Config, trace: seq<State>, events: seq<Event>)
    requires config.Valid() && IsRun(config, trace, events) && |trace[0].nodes.Keys| < 2 * config.Majority()
    requires NoLongBridge(config, trace)
    ensures NoLongDualOffice(config, trace)
  {
    forall i: nat, j: nat, x, y | x != y && DualSpan(config, trace, i, j, x, y)
      ensures trace[j].now <= trace[i].now + config.Slack()
    {
      var lo, hi := Min(x, y), Max(x, y);
      forall k | i <= k <= j ensures Bridged(config, trace[k], lo, hi) {
        MembersFixed(config, trace, events, k);
        ViewsHold(config, trace, events, k);
        assert BothServing(config, trace[k], x, y);
        DualOfficeIsBridged(config, trace[k], lo, hi);
      }
      assert BridgeSpan(config, trace, i, j, lo, hi);
    }
  }

  /** A run whose network and request order are what the law needs: no bridge keeps two nodes leading
      for longer than the slack, no late answer takes back what its asker holds, and leases are
      placed promptly. */
  ghost predicate Sound(config: Config, members: set<NodeId>, trace: seq<State>, events: seq<Event>)
    requires config.Valid()
  {
    Steady(config, trace, events) && trace[0].nodes.Keys == members && NoLongBridge(config, trace)
  }

  /** Where any two majorities meet, a sound run is orderly. */
  lemma SoundIsOrderly(config: Config, members: set<NodeId>, trace: seq<State>, events: seq<Event>)
    requires config.Valid() && Sound(config, members, trace, events) && |members| < 2 * config.Majority()
    ensures Orderly(config, trace, events)
  {
    if config.fleetSize == 1 {
      LoneIsExclusive(config, trace, events);
    } else {
      BridgesBoundOffice(config, trace, events);
      WaitSeparatesGranters(config, trace, events);
    }
  }

  /** The cap, from the fleet's size and conditions on the network and the request order alone:
      whatever is lost, delayed, reordered or partitioned, whoever stops, drains or restarts, in every
      sound run of a fleet of a size that is allowed, the fleet never believes it may open more than
      the cap. */
  lemma CapHoldsWithoutBridges(config: Config, members: set<NodeId>, trace: seq<State>, events: seq<Event>, k: nat)
    requires config.Valid() && Sound(config, members, trace, events) && k < |trace|
    requires config.SizeOk(|members|)
    ensures Total(AllowanceMap(config, trace[k])) <= config.cap
  {
    SoundIsOrderly(config, members, trace, events);
    CapHolds(config, trace, events, k);
  }
}
