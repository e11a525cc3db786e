/** Where the fleet's law stops, at one moment: what the nodes able to grant can hand out between
    them, and what a request answered late adds to it, each of them exactly. */
module FleetBreaches {
  import opened Basics
  import opened Totals
  import opened Fleet
  import opened FleetSafety
  import opened FleetTheorems
  import Ledger
  import Split

  // ---------- everyone able to grant ----------

  /** Every node asks for what it likes, one after another, at one instant. */
  ghost function AskAll(config: Config, st: State, asks: seq<(NodeId, nat)>): State
    requires config.Valid()
  {
    if asks == [] then st
    else
      var last := asks[|asks| - 1];
      StepAsk(config, AskAll(config, st, asks[..|asks| - 1]), last.0, last.1)
  }

  /** Nothing in hand, nothing on record and nothing asked for. */
  ghost predicate Idle(node: Node, now: Time)
  {
    && (node.exchange.Some? ==> !node.exchange.value.open)
    && Leased(node, now) == 0
    && Ledger.Live(node.book.grants, now) == map[]
  }

  ghost predicate Unleased(config: Config, st: State)
  {
    forall id :: id in st.nodes ==> Idle(st.nodes[id], st.now) && st.nodes[id].book.pool == config.Pool()
  }

  ghost function Granters(config: Config, st: State): set<NodeId>
  {
    set x | x in st.nodes && CanGrant(config, st, x)
  }

  /** The most a node can be leased at this instant: the pool if it can grant, and else nothing. */
  ghost function Most(config: Config, st: State, id: NodeId): nat
  {
    if CanGrant(config, st, id) then config.Pool() else 0
  }

  /** What asking leaves of a node: its view and its office, and no more than its most in hand. */
  ghost predicate AskedWithin(config: Config, st: State, b: State, id: NodeId)
    requires id in st.nodes && id in b.nodes
  {
    var was, now := st.nodes[id], b.nodes[id];
    && now.peers == was.peers && now.book.office == was.book.office && now.book.pool == config.Pool()
    && Leased(now, b.now) <= Most(config, st, id)
  }

  ghost predicate AllAskedWithin(config: Config, st: State, b: State)
  {
    && b.now == st.now && b.nodes.Keys == st.nodes.Keys
    && forall id :: id in st.nodes ==> AskedWithin(config, st, b, id)
  }

  lemma AskStaysWithin(config: Config, st: State, b: State, id: NodeId, demand: nat)
    requires config.Valid() && AllAskedWithin(config, st, b)
    ensures AllAskedWithin(config, st, StepAsk(config, b, id, demand))
  {
    var c := StepAsk(config, b, id, demand);
    if c != b {
      AskEffect(config, b, id, demand);
      assert AskedWithin(config, st, b, id);
      assert CanGrant(config, b, id) == CanGrant(config, st, id);
      forall other | other in st.nodes
        ensures AskedWithin(config, st, c, other)
      {
        assert AskedWithin(config, st, b, other);
      }
    }
  }

  lemma {:induction false} AsksStayWithin(config: Config, st: State, asks: seq<(NodeId, nat)>)
    requires config.Valid() && Unleased(config, st)
    ensures AllAskedWithin(config, st, AskAll(config, st, asks))
  {
    if asks != [] {
      var last := asks[|asks| - 1];
      AsksStayWithin(config, st, asks[..|asks| - 1]);
      AskStaysWithin(config, st, AskAll(config, st, asks[..|asks| - 1]), last.0, last.1);
    }
  }

  /** No asking changes anybody's share, or passes the pool once for every node able to grant. */
  lemma AsksAtMost(config: Config, st: State, asks: seq<(NodeId, nat)>)
    requires config.Valid() && Unleased(config, st)
    ensures var b := AskAll(config, st, asks);
            && ShareMap(config, b) == ShareMap(config, st)
            && Total(LeasedMap(b)) <= |Granters(config, st)| * config.Pool()
  {
    var b := AskAll(config, st, asks);
    AsksStayWithin(config, st, asks);
    AskedShares(config, st, b);
    AskedLeases(config, st, b);
  }

  lemma AskedShares(config: Config, st: State, b: State)
    requires config.Valid() && AllAskedWithin(config, st, b)
    ensures ShareMap(config, b) == ShareMap(config, st)
  {
    forall id | id in st.nodes
      ensures b.nodes[id].peers == st.nodes[id].peers
    {
      assert AskedWithin(config, st, b, id);
    }
    assert SeenMap(config, b) == SeenMap(config, st);
  }

  ghost function MostMap(config: Config, st: State): map<NodeId, nat>
  {
    map id | id in st.nodes :: Most(config, st, id)
  }

  lemma AskedLeases(config: Config, st: State, b: State)
    requires AllAskedWithin(config, st, b)
    ensures Total(LeasedMap(b)) <= |Granters(config, st)| * config.Pool()
  {
    forall id | id in st.nodes
      ensures LeasedMap(b)[id] <= MostMap(config, st)[id]
    {
      assert AskedWithin(config, st, b, id);
    }
    TotalMonotone(LeasedMap(b), MostMap(config, st));
    TotalAmong(MostMap(config, st), Granters(config, st), config.Pool());
  }

  /** A node that could lease itself the whole pool. */
  ghost predicate Poised(config: Config, st: State, x: NodeId)
  {
    CanGrant(config, st, x) && Idle(st.nodes[x], st.now) && st.nodes[x].book.pool == config.Pool()
  }

  /** A granter with nothing on record gives itself the whole pool, and changes nobody else. */
  lemma TakesWholePool(config: Config, st: State, x: NodeId) returns (demand: nat, b: State)
    requires config.Valid() && Poised(config, st, x) && config.ttl > 0 && config.Pool() > 0
    ensures b == StepAsk(config, st, x, demand)
    ensures b.now == st.now && b.nodes == st.nodes[x := b.nodes[x]]
    ensures Leased(b.nodes[x], b.now) == config.Pool() && b.nodes[x].peers == st.nodes[x].peers
  {
    demand := Guaranteed(config, st.nodes[x], st.now) + config.Pool();
    b := StepAsk(config, st, x, demand);
    assert Ledger.Live(st.nodes[x].book.grants - {x}, st.now) == map[];
  }

  /** Each of these holds the whole pool; nobody else has changed, and nobody's view has. */
  ghost predicate HasTaken(config: Config, st: State, b: State, takers: set<NodeId>, id: NodeId)
    requires id in st.nodes && id in b.nodes
  {
    && b.nodes[id].peers == st.nodes[id].peers
    && (if id in takers then Leased(b.nodes[id], b.now) == config.Pool() else b.nodes[id] == st.nodes[id])
  }

  ghost predicate AllTaken(config: Config, st: State, b: State, takers: set<NodeId>)
  {
    && b.now == st.now && b.nodes.Keys == st.nodes.Keys
    && forall id :: id in st.nodes ==> HasTaken(config, st, b, takers, id)
  }

  lemma {:induction false} EachTakes(config: Config, st: State, takers: set<NodeId>) returns (asks: seq<(NodeId, nat)>)
    requires config.Valid() && config.ttl > 0 && config.Pool() > 0
    requires forall x :: x in takers ==> Poised(config, st, x)
    ensures AllTaken(config, st, AskAll(config, st, asks), takers)
    decreases |takers|
  {
    if takers == {} {
      asks := [];
    } else {
      var x :| x in takers;
      var before := EachTakes(config, st, takers - {x});
      var mid := AskAll(config, st, before);
      assert HasTaken(config, st, mid, takers - {x}, x);
      assert Poised(config, mid, x);
      var demand, b := TakesWholePool(config, mid, x);
      asks := before + [(x, demand)];
      assert asks[..|asks| - 1] == before;
      forall id | id in st.nodes
        ensures HasTaken(config, st, b, takers, id)
      {
        assert HasTaken(config, st, mid, takers - {x}, id);
      }
    }
  }

  lemma TakenTotal(config: Config, st: State, b: State, takers: set<NodeId>)
    requires config.Valid() && AllTaken(config, st, b, takers) && takers <= st.nodes.Keys
    requires forall id :: id in st.nodes && id !in takers ==> Leased(st.nodes[id], st.now) == 0
    ensures ShareMap(config, b) == ShareMap(config, st)
    ensures Total(LeasedMap(b)) == |takers| * config.Pool()
  {
    forall id | id in st.nodes
      ensures b.nodes[id].peers == st.nodes[id].peers
      ensures LeasedMap(b)[id] == if id in takers then config.Pool() else 0
    {
      assert HasTaken(config, st, b, takers, id);
    }
    assert SeenMap(config, b) == SeenMap(config, st);
    TotalAmong(LeasedMap(b), takers, config.Pool());
  }

  /** Somebody's asking hands the pool out once for every node able to grant. */
  lemma AsksCanReach(config: Config, st: State) returns (asks: seq<(NodeId, nat)>)
    requires config.Valid() && config.ttl > 0 && Unleased(config, st)
    ensures var b := AskAll(config, st, asks);
            && ShareMap(config, b) == ShareMap(config, st)
            && Total(LeasedMap(b)) == |Granters(config, st)| * config.Pool()
  {
    if config.Pool() == 0 {
      asks := [];
      AsksAtMost(config, st, asks);
    } else {
      asks := EachTakes(config, st, Granters(config, st));
      TakenTotal(config, st, AskAll(config, st, asks), Granters(config, st));
    }
  }

  /** From any state with nothing leased, no pattern of asking at that instant can pass the pool
      exactly when at most one node is able to grant. */
  lemma PoolSafeExactly(config: Config, st: State)
    requires config.Valid() && config.ttl > 0 && config.Pool() > 0 && Unleased(config, st)
    ensures (forall asks :: Total(LeasedMap(AskAll(config, st, asks))) <= config.Pool())
       <==> |Granters(config, st)| <= 1
  {
    if |Granters(config, st)| <= 1 {
      forall asks ensures Total(LeasedMap(AskAll(config, st, asks))) <= config.Pool() {
        AsksAtMost(config, st, asks);
        Split.FewerTimes(|Granters(config, st)|, 1, config.Pool());
      }
    } else {
      var asks := AsksCanReach(config, st);
      Split.FewerTimes(2, |Granters(config, st)|, config.Pool());
    }
  }

  /** Nor the cap, exactly when everyone's share and the pool for each node able to grant fit it. */
  lemma CapSafeExactly(config: Config, st: State)
    requires config.Valid() && config.ttl > 0 && Unleased(config, st)
    ensures (forall asks :: Total(AllowanceMap(config, AskAll(config, st, asks))) <= config.cap)
       <==> Total(ShareMap(config, st)) + |Granters(config, st)| * config.Pool() <= config.cap
  {
    forall asks
      ensures Total(AllowanceMap(config, AskAll(config, st, asks)))
           <= Total(ShareMap(config, st)) + |Granters(config, st)| * config.Pool()
    {
      AsksAtMost(config, st, asks);
      AllowanceIsShareAndLease(config, AskAll(config, st, asks));
    }
    var asks := AsksCanReach(config, st);
    AllowanceIsShareAndLease(config, AskAll(config, st, asks));
  }

  // ---------- a late request ----------

  /** Everything live was issued by this node. */
  ghost predicate SoleIssuer(config: Config, st: State, leader: NodeId)
  {
    forall h, c :: LiveClaim(config, st, h, c) ==> c.issuer == leader
  }

  /** Every live entry on the record but the leader's own is in its holder's hands. */
  ghost predicate InHands(st: State, leader: NodeId)
    requires leader in st.nodes
  {
    var grants := st.nodes[leader].book.grants;
    forall h :: h in grants && h != leader && st.now < grants[h].expires ==>
      h in st.nodes && grants[h].count <= Leased(st.nodes[h], st.now)
  }

  /** A leader whose grants have all arrived, free to ask for itself, and a holder with a lease in
      hand and an older request to that leader still unanswered. */
  ghost predicate LatePending(config: Config, st: State, leader: NodeId, holder: NodeId, index: nat, lease: Lease)
  {
    && CanGrant(config, st, leader) && InHands(st, leader)
    && (st.nodes[leader].exchange.Some? ==> !st.nodes[leader].exchange.value.open)
    && holder in st.nodes && holder != leader
    && st.nodes[holder].held == Some(lease) && st.now < lease.expires
    && index < |st.nodes[holder].past|
    && st.nodes[holder].past[index].target == leader && !st.nodes[holder].past[index].answered
  }

  ghost function AfterLate(config: Config, st: State, holder: NodeId, index: nat, leader: NodeId, demand: nat): State
    requires config.Valid()
  {
    StepAsk(config, StepServeLate(config, st, holder, index), leader, demand)
  }

  /** The record a late answer leaves: one entry replaced, by what was asked for if that is less
      than the lease in hand, and by no less than the lease otherwise. */
  ghost predicate Rewritten(st: State, late: State, leader: NodeId, holder: NodeId, lease: Lease, want: nat, pool: nat)
    requires leader in st.nodes && leader in late.nodes
  {
    var was, now := st.nodes[leader].book.grants, late.nodes[leader].book.grants;
    && holder in was && holder in now && now == was[holder := now[holder]]
    && lease.count <= was[holder].count && st.now < now[holder].expires
    && (if want < lease.count then now[holder].count == want else lease.count <= now[holder].count)
    && Ledger.Outstanding(was - {holder}, st.now) + was[holder].count <= pool
  }

  /** A late answer changes nobody's hands, and of the leader only its record. */
  lemma LateLeaves(config: Config, st: State, leader: NodeId, holder: NodeId, index: nat)
    requires leader in st.nodes && holder in st.nodes && holder != leader && index < |st.nodes[holder].past|
    requires st.nodes[holder].past[index].target == leader && CanGrant(config, st, leader)
    ensures var late := StepServeLate(config, st, holder, index);
            && late.now == st.now && late.nodes.Keys == st.nodes.Keys && CanGrant(config, late, leader)
            && late.nodes[leader] == st.nodes[leader].(book := late.nodes[leader].book)
            && late.nodes[leader].book.pool == st.nodes[leader].book.pool
            && LeasedMap(late) == LeasedMap(st)
  {
    var late := StepServeLate(config, st, holder, index);
    assert forall id :: id in st.nodes ==> late.nodes[id].held == st.nodes[id].held;
  }

  lemma LateRewrites(config: Config, st: State, leader: NodeId, holder: NodeId, index: nat, lease: Lease)
    requires config.Valid() && Inv(config, st) && SoleIssuer(config, st, leader)
    requires LatePending(config, st, leader, holder, index, lease)
    ensures var late := StepServeLate(config, st, holder, index);
            && leader in late.nodes && st.nodes[leader].book.pool == config.Pool()
            && Rewritten(st, late, leader, holder, lease, st.nodes[holder].past[index].want, config.Pool())
  {
    var book := st.nodes[leader].book;
    assert LiveClaim(config, st, holder, lease);
    OnRecord(config, st, leader, holder, lease);
    assert NodeOk(config, st.now, st.nodes[leader]);
    Ledger.LiveWithGrant(book.grants, holder, book.grants[holder], st.now);
    assert book.grants[holder := book.grants[holder]] == book.grants;
  }

  /** What everyone but the leader holds, and what the leader has on record for them. */
  ghost function Others(st: State, leader: NodeId): nat
  {
    Total(LeasedMap(st) - {leader})
  }

  ghost function OnBooks(st: State, leader: NodeId): nat
    requires leader in st.nodes
  {
    Ledger.Outstanding(st.nodes[leader].book.grants - {leader}, st.now)
  }

  /** The record without the leader's own entry, before and after one other entry is replaced. */
  lemma RecordedAfter(st: State, late: State, leader: NodeId, holder: NodeId)
    requires leader in st.nodes && leader in late.nodes && leader != holder && st.now == late.now
    requires var was, now := st.nodes[leader].book.grants, late.nodes[leader].book.grants;
             holder in now && now == was[holder := now[holder]] && st.now < now[holder].expires
    ensures var was, now := st.nodes[leader].book.grants, late.nodes[leader].book.grants;
            OnBooks(late, leader) == Ledger.Outstanding(was - {holder} - {leader}, st.now) + now[holder].count
  {
    var was, now := st.nodes[leader].book.grants, late.nodes[leader].book.grants;
    Ledger.LiveWithGrant(was - {leader}, holder, now[holder], st.now);
    assert now - {leader} == (was - {leader})[holder := now[holder]];
    assert was - {leader} - {holder} == was - {holder} - {leader};
  }

  /** What a node other than the leader holds is on the record for just that many. */
  lemma HandMatchesEntry(config: Config, st: State, leader: NodeId, h: NodeId)
    requires Inv(config, st) && SoleIssuer(config, st, leader) && CanGrant(config, st, leader) && InHands(st, leader)
    requires h in st.nodes && h != leader && Leased(st.nodes[h], st.now) > 0
    ensures var live := Ledger.Live(st.nodes[leader].book.grants - {leader}, st.now);
            h in live && live[h] == Leased(st.nodes[h], st.now)
  {
    var c := st.nodes[h].held.value;
    assert LiveClaim(config, st, h, c);
    OnRecord(config, st, leader, h, c);
  }

  lemma HandsMatchRecord(config: Config, st: State, leader: NodeId)
    requires Inv(config, st) && SoleIssuer(config, st, leader) && CanGrant(config, st, leader) && InHands(st, leader)
    ensures Others(st, leader) == OnBooks(st, leader)
  {
    var held, live := LeasedMap(st) - {leader}, Ledger.Live(st.nodes[leader].book.grants - {leader}, st.now);
    forall h | h in held && held[h] > 0
      ensures h in live && held[h] == live[h]
    {
      HandMatchesEntry(config, st, leader, h);
    }
    TotalMonotone(held, live);
    forall h | h in live
      ensures h in held && live[h] <= held[h]
    {
    }
    TotalMonotone(live, held);
  }

  /** One entry of the record apart from the rest. */
  lemma EntryApart(grants: map<NodeId, Ledger.Grant>, leader: NodeId, holder: NodeId, now: Time)
    requires leader != holder && holder in grants && now < grants[holder].expires
    ensures Ledger.Outstanding(grants - {leader}, now)
         == Ledger.Outstanding(grants - {holder} - {leader}, now) + grants[holder].count
    ensures Ledger.Outstanding(grants - {holder} - {leader}, now) <= Ledger.Outstanding(grants - {holder}, now)
  {
    var rest := grants - {leader};
    Ledger.LiveWithGrant(rest, holder, grants[holder], now);
    assert rest[holder := grants[holder]] == rest;
    assert rest - {holder} == grants - {holder} - {leader};
    Ledger.OutstandingShrinks(grants - {holder}, grants - {holder} - {leader}, now, now);
  }

  /** With a late request smaller than the lease, others hold more than the leader has on record, by
      just the difference. */
  lemma ShrunkBelow(config: Config, st: State, leader: NodeId, holder: NodeId, index: nat, lease: Lease)
    requires config.Valid() && Inv(config, st) && SoleIssuer(config, st, leader)
    requires LatePending(config, st, leader, holder, index, lease)
    requires st.nodes[holder].past[index].want < lease.count
    ensures var late, want := StepServeLate(config, st, holder, index), st.nodes[holder].past[index].want;
            OnBooks(late, leader) + lease.count - want == Others(late, leader) && OnBooks(late, leader) < config.Pool()
  {
    var late := StepServeLate(config, st, holder, index);
    LateLeaves(config, st, leader, holder, index);
    LateRewrites(config, st, leader, holder, index, lease);
    RecordedAfter(st, late, leader, holder);
    HandsMatchRecord(config, st, leader);
    HandMatchesEntry(config, st, leader, holder);
    EntryApart(st.nodes[leader].book.grants, leader, holder, st.now);
  }

  /** With one no smaller, others hold no more than the leader has on record. */
  lemma StillCovered(config: Config, st: State, leader: NodeId, holder: NodeId, index: nat, lease: Lease)
    requires config.Valid() && Inv(config, st) && SoleIssuer(config, st, leader)
    requires LatePending(config, st, leader, holder, index, lease)
    requires lease.count <= st.nodes[holder].past[index].want
    ensures var late := StepServeLate(config, st, holder, index);
            Others(late, leader) <= OnBooks(late, leader)
  {
    var late := StepServeLate(config, st, holder, index);
    LateLeaves(config, st, leader, holder, index);
    LateRewrites(config, st, leader, holder, index, lease);
    var live := Ledger.Live(late.nodes[leader].book.grants - {leader}, st.now);
    var held := LeasedMap(late) - {leader};
    forall h | h in held
      ensures held[h] == 0 || (h in live && held[h] <= live[h])
    {
      if held[h] > 0 {
        var c := st.nodes[h].held.value;
        assert LiveClaim(config, st, h, c);
        OnRecord(config, st, leader, h, c);
      }
    }
    TotalMonotone(held, live);
  }

  /** What the leader may then give itself: no more than its record leaves of the pool. */
  lemma LeaderTakesAtMost(config: Config, st: State, leader: NodeId, demand: nat)
    requires config.Valid() && CanGrant(config, st, leader) && st.nodes[leader].book.pool == config.Pool()
    ensures var b := StepAsk(config, st, leader, demand);
            && leader in b.nodes
            && (b.nodes[leader].held == st.nodes[leader].held
                || Leased(b.nodes[leader], b.now) <= Less(config.Pool(), OnBooks(st, leader)))
            && b.now == st.now && LeasedMap(b) - {leader} == LeasedMap(st) - {leader}
  {
  }

  /** And all of that, if it asks for enough. */
  lemma LeaderTakesAll(config: Config, st: State, leader: NodeId) returns (demand: nat)
    requires config.Valid() && config.ttl > 0
    requires CanGrant(config, st, leader) && st.nodes[leader].book.pool == config.Pool()
    requires OnBooks(st, leader) < config.Pool()
    requires st.nodes[leader].exchange.Some? ==> !st.nodes[leader].exchange.value.open
    ensures var b := StepAsk(config, st, leader, demand);
            leader in b.nodes && Leased(b.nodes[leader], st.now) == config.Pool() - OnBooks(st, leader)
  {
    demand := Guaranteed(config, st.nodes[leader], st.now) + Leased(st.nodes[leader], st.now) + config.Pool();
  }

  /** A late request smaller than the lease in hand lets the leader give the difference away,
      whoever else it has granted to and whatever it holds itself. */
  lemma LateRequestBreaches(config: Config, st: State, leader: NodeId, holder: NodeId, index: nat, lease: Lease)
    returns (demand: nat)
    requires config.Valid() && Inv(config, st) && SoleIssuer(config, st, leader)
    requires LatePending(config, st, leader, holder, index, lease)
    requires st.nodes[holder].past[index].want < lease.count
    ensures Total(LeasedMap(AfterLate(config, st, holder, index, leader, demand)))
         == config.Pool() + lease.count - st.nodes[holder].past[index].want
  {
    assert LiveClaim(config, st, holder, lease) && ClaimOk(config, st, holder, lease);
    var late := StepServeLate(config, st, holder, index);
    LateLeaves(config, st, leader, holder, index);
    LateRewrites(config, st, leader, holder, index, lease);
    ShrunkBelow(config, st, leader, holder, index, lease);
    demand := LeaderTakesAll(config, late, leader);
    LeaderTakesAtMost(config, late, leader, demand);
    TotalRemove(LeasedMap(StepAsk(config, late, leader, demand)), leader);
  }

  /** And never more than the difference. */
  lemma LateRequestAtMost(config: Config, st: State, leader: NodeId, holder: NodeId, index: nat, lease: Lease,
                          demand: nat)
    requires config.Valid() && Inv(config, st) && SoleIssuer(config, st, leader)
    requires LatePending(config, st, leader, holder, index, lease)
    requires st.nodes[holder].past[index].want < lease.count
    ensures Total(LeasedMap(AfterLate(config, st, holder, index, leader, demand)))
         <= config.Pool() + lease.count - st.nodes[holder].past[index].want
  {
    var late := StepServeLate(config, st, holder, index);
    LateLeaves(config, st, leader, holder, index);
    LateRewrites(config, st, leader, holder, index, lease);
    ShrunkBelow(config, st, leader, holder, index, lease);
    LeaderTakesAtMost(config, late, leader, demand);
    HandsFit(config, st, leader);
    TotalRemove(LeasedMap(StepAsk(config, late, leader, demand)), leader);
  }

  lemma AfterLateShares(config: Config, st: State, leader: NodeId, holder: NodeId, index: nat, demand: nat)
    requires config.Valid()
    ensures ShareMap(config, AfterLate(config, st, holder, index, leader, demand)) == ShareMap(config, st)
  {
    var late := StepServeLate(config, st, holder, index);
    var b := StepAsk(config, late, leader, demand);
    assert late.nodes.Keys == st.nodes.Keys == b.nodes.Keys;
    forall id | id in st.nodes
      ensures b.nodes[id].peers == st.nodes[id].peers
    {
      assert late.nodes[id].peers == st.nodes[id].peers;
    }
    assert SeenMap(config, b) == SeenMap(config, st);
  }

  /** At once, a late answer smaller than the lease in hand keeps the cap, whatever the leader then
      gives itself, exactly when the shares leave room for the pool and the difference. */
  lemma LateCapExactly(config: Config, st: State, leader: NodeId, holder: NodeId, index: nat, lease: Lease)
    requires config.Valid() && Inv(config, st) && SoleIssuer(config, st, leader)
    requires LatePending(config, st, leader, holder, index, lease)
    requires st.nodes[holder].past[index].want < lease.count
    ensures (forall demand: nat ::
               Total(AllowanceMap(config, AfterLate(config, st, holder, index, leader, demand))) <= config.cap)
       <==> Total(ShareMap(config, st)) + config.Pool() + lease.count - st.nodes[holder].past[index].want <= config.cap
  {
    forall demand: nat
      ensures Total(AllowanceMap(config, AfterLate(config, st, holder, index, leader, demand)))
           <= Total(ShareMap(config, st)) + config.Pool() + lease.count - st.nodes[holder].past[index].want
    {
      AllowanceIsShareAndLease(config, AfterLate(config, st, holder, index, leader, demand));
      AfterLateShares(config, st, leader, holder, index, demand);
      LateRequestAtMost(config, st, leader, holder, index, lease, demand);
    }
    var most := LateRequestBreaches(config, st, leader, holder, index, lease);
    AllowanceIsShareAndLease(config, AfterLate(config, st, holder, index, leader, most));
    AfterLateShares(config, st, leader, holder, index, most);
  }

  /** A late answer is harmless at once, whatever the leader then gives itself, exactly when the
      request asked for no less than its asker now holds. */
  lemma LateRequestExactly(config: Config, st: State, leader: NodeId, holder: NodeId, index: nat, lease: Lease)
    requires config.Valid() && Inv(config, st) && SoleIssuer(config, st, leader)
    requires LatePending(config, st, leader, holder, index, lease)
    ensures (forall demand: nat ::
               Total(LeasedMap(AfterLate(config, st, holder, index, leader, demand))) <= config.Pool())
       <==> lease.count <= st.nodes[holder].past[index].want
  {
    if st.nodes[holder].past[index].want < lease.count {
      var demand := LateRequestBreaches(config, st, leader, holder, index, lease);
    } else {
      forall demand: nat
        ensures Total(LeasedMap(AfterLate(config, st, holder, index, leader, demand))) <= config.Pool()
      {
        LateStaysWithin(config, st, leader, holder, index, lease, demand);
      }
    }
  }

  lemma LateStaysWithin(config: Config, st: State, leader: NodeId, holder: NodeId, index: nat, lease: Lease,
                        demand: nat)
    requires config.Valid() && Inv(config, st) && SoleIssuer(config, st, leader)
    requires LatePending(config, st, leader, holder, index, lease)
    requires lease.count <= st.nodes[holder].past[index].want
    ensures Total(LeasedMap(AfterLate(config, st, holder, index, leader, demand))) <= config.Pool()
  {
    var late := StepServeLate(config, st, holder, index);
    LateLeaves(config, st, leader, holder, index);
    LateRewrites(config, st, leader, holder, index, lease);
    StillCovered(config, st, leader, holder, index, lease);
    LeaderTakesAtMost(config, late, leader, demand);
    HandsFit(config, st, leader);
    TotalRemove(LeasedMap(StepAsk(config, late, leader, demand)), leader);
  }

  /** All that is in hand fits the pool, the leader's own part and the others' together. */
  lemma HandsFit(config: Config, st: State, leader: NodeId)
    requires Inv(config, st) && SoleIssuer(config, st, leader) && leader in st.nodes
    ensures Leased(st.nodes[leader], st.now) + Others(st, leader) == Total(LeasedMap(st)) <= config.Pool()
  {
    TotalRemove(LeasedMap(st), leader);
    HeldFromOne(config, st, leader);
    assert IssueFits(config, st, leader);
  }
}
