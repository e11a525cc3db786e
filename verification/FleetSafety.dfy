/** What every run of the fleet keeps: the leases in hand never add up to more than the
    free pool, and with the guaranteed shares never to more than the cap. */
module FleetSafety {
  import opened Basics
  import opened Totals
  import opened Fleet
  import Ledger
  import LeaseWire
  import Split

  // ---------- what a node could hold ----------

  /** The answer still on its way to a node that would accept it, as the lease it could become. */
  ghost function Incoming(config: Config, node: Node): Option<Lease>
  {
    if node.exchange.Some? && node.exchange.value.open && node.exchange.value.reply.Some? then
      var r := node.exchange.value.reply.value;
      Some(Lease(r.count, r.issued + config.ttl, r.issuer, r.issued))
    else None
  }

  ghost predicate IsClaim(config: Config, node: Node, c: Lease)
  {
    node.held == Some(c) || Incoming(config, node) == Some(c)
  }

  ghost predicate LiveClaim(config: Config, st: State, h: NodeId, c: Lease)
  {
    h in st.nodes && IsClaim(config, st.nodes[h], c) && st.now < c.expires
  }

  /** What a claim counts for with one issuer. */
  ghost function Worth(claim: Option<Lease>, x: NodeId, now: Time): nat
  {
    if claim.Some? && claim.value.issuer == x && now < claim.value.expires then claim.value.count else 0
  }

  /** The most a node could be holding of what `x` has issued. */
  ghost function Weight(config: Config, node: Node, x: NodeId, now: Time): nat
  {
    Max(Worth(node.held, x, now), Worth(Incoming(config, node), x, now))
  }

  ghost function WeightMap(config: Config, st: State, x: NodeId): map<NodeId, nat>
  {
    map h | h in st.nodes :: Weight(config, st.nodes[h], x, st.now)
  }

  /** All that one node has issued and that is still live fits the pool. */
  ghost predicate IssueFits(config: Config, st: State, x: NodeId)
  {
    Total(WeightMap(config, st, x)) <= config.Pool()
  }

  // ---------- the invariant ----------

  ghost predicate BookOk(config: Config, now: Time, node: Node)
  {
    && node.book.pool == config.Pool()
    && (node.book.office.None? ==> node.book.grants == map[])
    && Ledger.Outstanding(node.book.grants, now) <= config.Pool()
  }

  ghost predicate ExchangeOk(config: Config, now: Time, node: Node)
  {
    node.exchange.Some? ==>
      var e := node.exchange.value;
      && e.sent <= now
      && Leased(node, now) <= e.want
      && (!e.answered ==> e.reply.None? && e.read.None?)
      && (e.reply.Some? ==>
            var r := e.reply.value;
            && r.count <= e.want
            && e.sent <= r.issued <= r.wired
            && r.ttl == LeaseWire.WireTtl(r.issued + config.ttl, r.wired))
      && (e.read.Some? ==> e.read.value <= now && (e.reply.Some? ==> e.reply.value.wired <= e.read.value))
  }

  ghost predicate NodeOk(config: Config, now: Time, node: Node)
  {
    BookOk(config, now, node) && ExchangeOk(config, now, node)
  }

  /** A live claim was issued in the past by a member, and its issuer still has it on record
      if it has held office without a break since. */
  ghost predicate ClaimOk(config: Config, st: State, h: NodeId, c: Lease)
  {
    && c.issuer in st.nodes
    && c.issued <= st.now
    && c.expires <= c.issued + config.ttl
    && (var book := st.nodes[c.issuer].book;
        book.office.Some? && book.office.value < c.issued ==>
          h in book.grants && c.count <= book.grants[h].count && c.expires <= book.grants[h].expires)
  }

  ghost predicate AllNodesOk(config: Config, st: State)
  {
    forall id :: id in st.nodes ==> NodeOk(config, st.now, st.nodes[id])
  }

  ghost predicate AllClaimsOk(config: Config, st: State)
  {
    forall h, c :: LiveClaim(config, st, h, c) ==> ClaimOk(config, st, h, c)
  }

  ghost predicate Inv(config: Config, st: State)
  {
    AllNodesOk(config, st) && AllClaimsOk(config, st) && forall x :: IssueFits(config, st, x)
  }

  // ---------- conditions on a run ----------

  /** No two nodes are ever able to grant within one lease life of each other. */
  ghost predicate Exclusive(config: Config, trace: seq<State>)
  {
    forall i, j, x, y :: 0 <= i <= j < |trace| && x != y
      && CanGrant(config, trace[i], x) && CanGrant(config, trace[j], y)
      ==> trace[i].now + config.ttl <= trace[j].now
  }

  /** A request answered after its asker has moved on asks for no less than the asker could
      now be holding from the same leader. */
  ghost predicate LateFits(config: Config, st: State, event: Event)
  {
    event.ServeLate? && event.holder in st.nodes && event.index < |st.nodes[event.holder].past| ==>
      var e := st.nodes[event.holder].past[event.index];
      forall c :: LiveClaim(config, st, event.holder, c) && c.issuer == e.target ==> c.count <= e.want
  }

  ghost predicate NeverShrunk(config: Config, trace: seq<State>, events: seq<Event>)
    requires |trace| == |events| + 1
  {
    forall i :: 0 <= i < |events| ==> LateFits(config, trace[i], events[i])
  }

  /** A lease is placed no longer after the elapsed reading than its request took to arrive. */
  ghost predicate PromptAt(st: State, event: Event)
  {
    event.Place? && event.node in st.nodes && st.nodes[event.node].exchange.Some? ==>
      var e := st.nodes[event.node].exchange.value;
      e.reply.Some? && e.read.Some? ==>
        st.now + e.sent <= e.read.value + e.reply.value.wired
  }

  ghost predicate Prompt(trace: seq<State>, events: seq<Event>)
    requires |trace| == |events| + 1
  {
    forall i :: 0 <= i < |events| ==> PromptAt(trace[i], events[i])
  }

  // ---------- each step keeps the invariant ----------

  lemma InitialInv(config: Config, st: State)
    requires IsInitial(config, st)
    ensures Inv(config, st)
  {
    forall x ensures IssueFits(config, st, x) {
      TotalBound(WeightMap(config, st, x), 0);
    }
    forall id | id in st.nodes ensures NodeOk(config, st.now, st.nodes[id]) {
      assert Ledger.Live(st.nodes[id].book.grants, st.now) == map[];
    }
  }

  /** Office kept means nothing unexpired left the record; office begun is begun now. */
  ghost predicate Continues(before: Ledger.Book, after: Ledger.Book, now: Time)
  {
    after.office.Some? ==>
      || after.office.value == now
      || (&& before.office == after.office
          && forall h :: h in before.grants && now < before.grants[h].expires ==>
               h in after.grants && after.grants[h] == before.grants[h])
  }

  /** A claim that was there before, under the same issue, for at least as long. */
  ghost predicate Shadows(d: Lease, c: Lease)
  {
    d.count == c.count && d.issuer == c.issuer && d.issued == c.issued && c.expires <= d.expires
  }

  ghost predicate Inherited(config: Config, node: Node, c: Lease)
  {
    exists d :: IsClaim(config, node, d) && Shadows(d, c)
  }

  lemma OneNodeClaims(config: Config, st: State, id: NodeId, node: Node)
    requires AllClaimsOk(config, st) && id in st.nodes
    requires forall c :: IsClaim(config, node, c) && st.now < c.expires ==> Inherited(config, st.nodes[id], c)
    requires Continues(st.nodes[id].book, node.book, st.now)
    ensures AllClaimsOk(config, st.(nodes := st.nodes[id := node]))
  {
    var b := st.(nodes := st.nodes[id := node]);
    forall h, c | LiveClaim(config, b, h, c) ensures ClaimOk(config, b, h, c) {
      var d := c;
      if h == id {
        d :| IsClaim(config, st.nodes[id], d) && Shadows(d, c);
      }
      assert LiveClaim(config, st, h, d);
      assert ClaimOk(config, st, h, d);
    }
  }

  /** A step that changes one node, and only returns capacity, keeps the invariant. */
  lemma OneNodeKeeps(config: Config, st: State, id: NodeId, node: Node)
    requires Inv(config, st) && id in st.nodes
    requires NodeOk(config, st.now, node)
    requires forall c :: IsClaim(config, node, c) && st.now < c.expires ==> Inherited(config, st.nodes[id], c)
    requires Continues(st.nodes[id].book, node.book, st.now)
    ensures Inv(config, st.(nodes := st.nodes[id := node]))
  {
    OneNodeClaims(config, st, id, node);
    var b := st.(nodes := st.nodes[id := node]);
    forall x ensures IssueFits(config, b, x) {
      WeightInherited(config, st.nodes[id], node, x, st.now);
      assert IssueFits(config, st, x);
      TotalMonotone(WeightMap(config, b, x), WeightMap(config, st, x));
    }
  }

  lemma WeightInherited(config: Config, before: Node, after: Node, x: NodeId, now: Time)
    requires forall c :: IsClaim(config, after, c) && c.issuer == x && now < c.expires ==> Inherited(config, before, c)
    ensures Weight(config, after, x, now) <= Weight(config, before, x, now)
  {
    if after.held.Some? && now < after.held.value.expires {
      assert IsClaim(config, after, after.held.value);
    }
    var c := Incoming(config, after);
    if c.Some? && now < c.value.expires {
      assert IsClaim(config, after, c.value);
    }
  }

  lemma AdvanceKeeps(config: Config, st: State, span: nat)
    requires Inv(config, st)
    ensures Inv(config, st.(now := st.now + span))
  {
    var b := st.(now := st.now + span);
    forall id | id in b.nodes ensures NodeOk(config, b.now, b.nodes[id]) {
      assert NodeOk(config, st.now, st.nodes[id]);
      Ledger.OutstandingShrinks(st.nodes[id].book.grants, st.nodes[id].book.grants, st.now, b.now);
    }
    forall h, c | LiveClaim(config, b, h, c) ensures ClaimOk(config, b, h, c) {
      assert LiveClaim(config, st, h, c);
    }
    forall x ensures IssueFits(config, b, x) {
      assert IssueFits(config, st, x);
      TotalMonotone(WeightMap(config, b, x), WeightMap(config, st, x));
    }
  }

  /** Taking, keeping or leaving office, then reaping, only ever returns capacity. */
  lemma LeadingReturnsCapacity(config: Config, book: Ledger.Book, leading: bool, now: Time)
    requires book.pool == config.Pool() && Ledger.Outstanding(book.grants, now) <= config.Pool()
    requires book.office.None? ==> book.grants == map[]
    ensures var after := Ledger.Reap(Ledger.Lead(book, leading, now), now);
            && Continues(book, after, now)
            && after.pool == config.Pool()
            && (after.office.None? ==> after.grants == map[])
            && Ledger.Outstanding(after.grants, now) <= config.Pool()
  {
    var after := Ledger.Reap(Ledger.Lead(book, leading, now), now);
    Ledger.OutstandingShrinks(book.grants, after.grants, now, now);
  }

  /** An observation leaves hands and requests alone and keeps the record sound. */
  lemma ObserveOk(config: Config, id: NodeId, node: Node, heard: map<NodeId, Contact>, now: Time)
    requires NodeOk(config, now, node)
    ensures var after := Observe(config, id, node.(peers := heard), now);
            && NodeOk(config, now, after) && Continues(node.book, after.book, now)
            && after.held == node.held && after.exchange == node.exchange
  {
    LeadingReturnsCapacity(config, node.book, Leading(config, heard, id, now), now);
    assert node.book.(pool := config.Pool()) == node.book;
  }

  lemma HearKeeps(config: Config, st: State, id: NodeId, from: NodeId, mode: Mode, newer: bool)
    requires Inv(config, st) && id in st.nodes && from in st.nodes
    ensures Inv(config, StepHear(config, st, id, from, mode, newer))
  {
    var before := st.nodes[id];
    assert NodeOk(config, st.now, before);
    var heard := HeardFrom(before.peers, from, mode, newer, st.now);
    var after := Observe(config, id, before.(peers := heard), st.now);
    ObserveOk(config, id, before, heard, st.now);
    assert forall c :: IsClaim(config, after, c) ==> IsClaim(config, before, c) && Shadows(c, c);
    OneNodeKeeps(config, st, id, after);
  }

  /** Restarting, giving up, reading the answer and changing mode only let go of claims. */
  lemma LettingGoKeeps(config: Config, st: State, id: NodeId, after: Node)
    requires Inv(config, st) && id in st.nodes
    requires NodeOk(config, st.now, after)
    requires after.held.Some? ==> after.held == st.nodes[id].held
    requires Incoming(config, after).Some? ==> Incoming(config, after) == Incoming(config, st.nodes[id])
    requires after.book == st.nodes[id].book || after.book.office.None?
    ensures Inv(config, st.(nodes := st.nodes[id := after]))
  {
    assert forall c :: IsClaim(config, after, c) ==> IsClaim(config, st.nodes[id], c) && Shadows(c, c);
    OneNodeKeeps(config, st, id, after);
  }

  /** Placing a lease turns the incoming claim into a held one that expires no later. */
  lemma PlaceKeeps(config: Config, st: State, id: NodeId)
    requires Inv(config, st) && PromptAt(st, Place(id))
    ensures Inv(config, StepPlace(st, id))
  {
    var b := StepPlace(st, id);
    if b != st {
      assert NodeOk(config, st.now, st.nodes[id]);
      var e := st.nodes[id].exchange.value;
      var r := e.reply.value;
      LeaseWire.PromptNeverOverholds(e.sent, r.issued + config.ttl, r.wired, e.read.value, st.now);
      var d := Incoming(config, st.nodes[id]).value;
      var after := b.nodes[id];
      forall c | IsClaim(config, after, c) && st.now < c.expires ensures Inherited(config, st.nodes[id], c) {
        assert IsClaim(config, st.nodes[id], d) && Shadows(d, c);
      }
      OneNodeKeeps(config, st, id, after);
    }
  }

  // ---------- granting ----------

  ghost predicate Recorded(grants: map<NodeId, Ledger.Grant>, h: NodeId, c: Lease)
  {
    h in grants && c.count <= grants[h].count && c.expires <= grants[h].expires
  }

  /** A node's live issue, all of it on the node's record, adds up to no more than that record. */
  lemma CoveredByRecord(config: Config, st: State, x: NodeId)
    requires x in st.nodes
    requires forall h, c :: LiveClaim(config, st, h, c) && c.issuer == x ==> Recorded(st.nodes[x].book.grants, h, c)
    ensures Total(WeightMap(config, st, x)) <= Ledger.Outstanding(st.nodes[x].book.grants, st.now)
  {
    var weights, live := WeightMap(config, st, x), Ledger.Live(st.nodes[x].book.grants, st.now);
    forall h | h in weights ensures weights[h] == 0 || (h in live && weights[h] <= live[h]) {
      var node := st.nodes[h];
      if Worth(node.held, x, st.now) > 0 {
        assert LiveClaim(config, st, h, node.held.value);
      }
      var c := Incoming(config, node);
      if Worth(c, x, st.now) > 0 {
        assert LiveClaim(config, st, h, c.value);
      }
    }
    TotalMonotone(weights, live);
  }

  /** A live claim issued by a node able to grant is still on that node's record: it is
      younger than a lease life, and the node has held office for longer than that. */
  lemma OnRecord(config: Config, st: State, x: NodeId, h: NodeId, c: Lease)
    requires Inv(config, st) && CanGrant(config, st, x) && LiveClaim(config, st, h, c) && c.issuer == x
    ensures Recorded(st.nodes[x].book.grants, h, c)
  {
    assert ClaimOk(config, st, h, c);
  }

  /** What a grant does to the fleet: one record gains an entry, one holder a claim. */
  ghost predicate GrantStep(config: Config, st: State, b: State, x: NodeId, h: NodeId, want: nat)
    requires x in st.nodes
  {
    var (book, answer) := Answered(config, st, x, h, want);
    && answer.Granted?
    && h in st.nodes && b.now == st.now && b.nodes.Keys == st.nodes.Keys
    && b.nodes[x].book == book
    && (forall id :: id in st.nodes && id != x ==> b.nodes[id].book == st.nodes[id].book)
    && (forall id, c :: id in st.nodes && IsClaim(config, b.nodes[id], c) ==>
          || IsClaim(config, st.nodes[id], c)
          || (id == h && c == Lease(answer.count, answer.expires, x, st.now)))
  }

  /** After a grant everything live that the granter has issued is on its record. */
  lemma GrantCovers(config: Config, st: State, b: State, x: NodeId, h: NodeId, want: nat, id: NodeId, c: Lease)
    requires Inv(config, st) && x in st.nodes
    requires GrantStep(config, st, b, x, h, want)
    requires forall d :: LiveClaim(config, st, h, d) && d.issuer == x ==> d.count <= want
    requires LiveClaim(config, b, id, c) && c.issuer == x
    ensures Recorded(b.nodes[x].book.grants, id, c)
    ensures c.issued <= b.now && c.expires <= c.issued + config.ttl
  {
    assert CanGrant(config, st, x);
    var was := st.nodes[x].book;
    Ledger.GrantStaysInPool(config.Lease(), was, h, want, st.now);
    if IsClaim(config, st.nodes[id], c) {
      assert LiveClaim(config, st, id, c) && ClaimOk(config, st, id, c);
      OnRecord(config, st, x, id, c);
      if id != h {
        assert id in (was.grants - {h}) && (was.grants - {h})[id] == was.grants[id];
      } else if c.count > 0 {
        assert NodeOk(config, st.now, st.nodes[x]);
        Ledger.RenewalNeverShrinks(config.Lease(), was, h, want, st.now, c.count);
      }
    }
  }

  /** What any other node has issued is as it was. */
  lemma GrantLeavesOthers(config: Config, st: State, b: State, x: NodeId, h: NodeId, want: nat, y: NodeId)
    requires Inv(config, st) && x in st.nodes && y != x
    requires GrantStep(config, st, b, x, h, want)
    ensures IssueFits(config, b, y)
    ensures forall id, c :: LiveClaim(config, b, id, c) && c.issuer == y ==> ClaimOk(config, b, id, c)
  {
    forall id | id in b.nodes
      ensures Weight(config, b.nodes[id], y, b.now) <= Weight(config, st.nodes[id], y, st.now)
    {
      assert forall c :: IsClaim(config, b.nodes[id], c) && c.issuer == y ==>
          IsClaim(config, st.nodes[id], c) && Shadows(c, c);
      WeightInherited(config, st.nodes[id], b.nodes[id], y, st.now);
    }
    assert IssueFits(config, st, y);
    TotalMonotone(WeightMap(config, b, y), WeightMap(config, st, y));
    forall id, c | LiveClaim(config, b, id, c) && c.issuer == y
      ensures ClaimOk(config, b, id, c)
    {
      assert LiveClaim(config, st, id, c) && ClaimOk(config, st, id, c);
    }
  }

  lemma GrantKeeps(config: Config, st: State, b: State, x: NodeId, h: NodeId, want: nat)
    requires Inv(config, st) && x in st.nodes
    requires GrantStep(config, st, b, x, h, want)
    requires forall c :: LiveClaim(config, st, h, c) && c.issuer == x ==> c.count <= want
    requires forall id :: id in b.nodes ==> ExchangeOk(config, b.now, b.nodes[id])
    ensures Inv(config, b)
  {
    forall id, c | LiveClaim(config, b, id, c)
      ensures ClaimOk(config, b, id, c)
      ensures c.issuer == x ==> Recorded(b.nodes[x].book.grants, id, c)
    {
      if c.issuer == x {
        GrantCovers(config, st, b, x, h, want, id, c);
      } else {
        GrantLeavesOthers(config, st, b, x, h, want, c.issuer);
      }
    }
    Ledger.GrantStaysInPool(config.Lease(), st.nodes[x].book, h, want, st.now);
    forall id | id in b.nodes ensures NodeOk(config, b.now, b.nodes[id]) {
      assert NodeOk(config, st.now, st.nodes[id]);
      assert NodeOk(config, st.now, st.nodes[x]);
    }
    CoveredByRecord(config, b, x);
    assert NodeOk(config, b.now, b.nodes[x]);
    forall y ensures IssueFits(config, b, y) {
      if y != x {
        GrantLeavesOthers(config, st, b, x, h, want, y);
      }
    }
  }

  /** Serving a request is a grant step, or changes nothing. */
  lemma ServeGrants(config: Config, st: State, h: NodeId, lag: nat)
    requires StepServe(config, st, h, lag) != st
    ensures var b := StepServe(config, st, h, lag);
            var e := st.nodes[h].exchange.value;
            && e.target in st.nodes && GrantStep(config, st, b, e.target, h, e.want)
            && forall id :: id in b.nodes && id != h ==>
                 b.nodes[id].exchange == st.nodes[id].exchange && b.nodes[id].held == st.nodes[id].held
  {
    var b := StepServe(config, st, h, lag);
    var e := st.nodes[h].exchange.value;
    assert b.nodes.Keys == st.nodes.Keys;
  }

  lemma ServeKeepsExchanges(config: Config, st: State, h: NodeId, lag: nat)
    requires StepServe(config, st, h, lag) != st
    requires forall id :: id in st.nodes ==> ExchangeOk(config, st.now, st.nodes[id])
    ensures var b := StepServe(config, st, h, lag);
            forall id :: id in b.nodes ==> ExchangeOk(config, b.now, b.nodes[id])
  {
    var e := st.nodes[h].exchange.value;
    Ledger.GrantStaysInPool(config.Lease(), st.nodes[e.target].book, h, e.want, st.now);
  }

  /** While a request is out, the holder has nothing larger in hand than it asked for. */
  lemma ClaimsWithinWant(config: Config, st: State, h: NodeId)
    requires h in st.nodes && st.nodes[h].exchange.Some?
    requires ExchangeOk(config, st.now, st.nodes[h])
    ensures forall c :: LiveClaim(config, st, h, c) ==> c.count <= st.nodes[h].exchange.value.want
  {
  }

  lemma AllExchangesOk(config: Config, st: State)
    requires Inv(config, st)
    ensures forall id :: id in st.nodes ==> ExchangeOk(config, st.now, st.nodes[id])
  {
    forall id | id in st.nodes ensures ExchangeOk(config, st.now, st.nodes[id]) {
      assert NodeOk(config, st.now, st.nodes[id]);
    }
  }

  lemma ServeKeeps(config: Config, st: State, h: NodeId, lag: nat)
    requires Inv(config, st)
    ensures Inv(config, StepServe(config, st, h, lag))
  {
    var b := StepServe(config, st, h, lag);
    if b != st {
      AllExchangesOk(config, st);
      ServeGrants(config, st, h, lag);
      ServeKeepsExchanges(config, st, h, lag);
      ClaimsWithinWant(config, st, h);
      var e := st.nodes[h].exchange.value;
      GrantKeeps(config, st, b, e.target, h, e.want);
    }
  }

  lemma LateGrants(config: Config, st: State, h: NodeId, index: nat)
    requires StepServeLate(config, st, h, index) != st
    ensures h in st.nodes && index < |st.nodes[h].past|
    ensures var b := StepServeLate(config, st, h, index);
            var e := st.nodes[h].past[index];
            && e.target in st.nodes && GrantStep(config, st, b, e.target, h, e.want)
            && forall id :: id in b.nodes ==>
                 b.nodes[id] == st.nodes[id].(book := b.nodes[id].book, past := b.nodes[id].past)
  {
    var b := StepServeLate(config, st, h, index);
    var e := st.nodes[h].past[index];
    assert b.nodes.Keys == st.nodes.Keys;
  }

  /** A late answer that takes nothing off the record keeps the invariant. */
  lemma ServeLateKeeps(config: Config, st: State, h: NodeId, index: nat)
    requires Inv(config, st) && LateFits(config, st, ServeLate(h, index))
    ensures Inv(config, StepServeLate(config, st, h, index))
  {
    var b := StepServeLate(config, st, h, index);
    if b != st {
      AllExchangesOk(config, st);
      LateGrants(config, st, h, index);
      var e := st.nodes[h].past[index];
      GrantKeeps(config, st, b, e.target, h, e.want);
    }
  }

  /** Asking is a grant from the node's own ledger, or opens an exchange that it may hold
      nothing larger than. */
  lemma AskEffect(config: Config, st: State, id: NodeId, demand: nat)
    requires config.Valid() && StepAsk(config, st, id, demand) != st
    ensures id in st.nodes
    ensures var b := StepAsk(config, st, id, demand);
            var node := st.nodes[id];
            var want := Split.WantsMore(demand, Guaranteed(config, node, st.now), Leased(node, st.now));
            && (node.exchange.Some? ==> !node.exchange.value.open)
            && want.Some?
            && b == st.(nodes := st.nodes[id := b.nodes[id]])
            && ExchangeOk(config, st.now, b.nodes[id])
            && (if Answered(config, st, id, id, want.value).1.Granted?
                then GrantStep(config, st, b, id, id, want.value)
                else (&& b.nodes[id].held == node.held
                      && b.nodes[id].book == node.book
                      && Incoming(config, b.nodes[id]).None?))
  {
    assert StepAsk(config, st, id, demand).nodes.Keys == st.nodes.Keys;
  }

  lemma AskKeeps(config: Config, st: State, id: NodeId, demand: nat)
    requires config.Valid() && Inv(config, st)
    ensures Inv(config, StepAsk(config, st, id, demand))
  {
    var b := StepAsk(config, st, id, demand);
    if b != st {
      AskEffect(config, st, id, demand);
      var node := st.nodes[id];
      var want := Split.WantsMore(demand, Guaranteed(config, node, st.now), Leased(node, st.now)).value;
      assert NodeOk(config, st.now, node);
      if Answered(config, st, id, id, want).1.Granted? {
        forall other | other in b.nodes ensures ExchangeOk(config, b.now, b.nodes[other]) {
          assert NodeOk(config, st.now, st.nodes[other]);
        }
        forall c | LiveClaim(config, st, id, c) ensures c.count <= want {
          assert Incoming(config, node).None?;
        }
        GrantKeeps(config, st, b, id, id, want);
      } else {
        LettingGoKeeps(config, st, id, b.nodes[id]);
      }
    }
  }

  /** The remaining steps touch one node and let go at most. */
  lemma LetGoAt(config: Config, st: State, id: NodeId, after: Node)
    requires Inv(config, st) && id in st.nodes
    requires NodeOk(config, st.now, st.nodes[id]) ==> NodeOk(config, st.now, after)
    requires after.held.Some? ==> after.held == st.nodes[id].held
    requires Incoming(config, after).Some? ==> Incoming(config, after) == Incoming(config, st.nodes[id])
    requires after.book == st.nodes[id].book || after.book.office.None?
    ensures Inv(config, st.(nodes := st.nodes[id := after]))
  {
    assert NodeOk(config, st.now, st.nodes[id]);
    LettingGoKeeps(config, st, id, after);
  }

  lemma SetModeKeeps(config: Config, st: State, id: NodeId, mode: Mode)
    requires config.Valid() && Inv(config, st)
    ensures Inv(config, Step(config, st, SetMode(id, mode)))
  {
    if id in st.nodes {
      LetGoAt(config, st, id, st.nodes[id].(mode := mode));
    }
  }

  lemma RestartKeeps(config: Config, st: State, id: NodeId)
    requires config.Valid() && Inv(config, st)
    ensures Inv(config, Step(config, st, Restart(id)))
  {
    if id in st.nodes {
      assert Ledger.Live(map[], st.now) == map[];
      LetGoAt(config, st, id, Fresh(config).(past := Retired(st.nodes[id])));
    }
  }

  lemma ReadKeeps(config: Config, st: State, id: NodeId)
    requires Inv(config, st)
    ensures Inv(config, StepRead(st, id))
  {
    var b := StepRead(st, id);
    if b != st {
      LetGoAt(config, st, id, b.nodes[id]);
    }
  }

  lemma GiveUpKeeps(config: Config, st: State, id: NodeId)
    requires config.Valid() && Inv(config, st)
    ensures Inv(config, Step(config, st, GiveUp(id)))
  {
    if id in st.nodes && st.nodes[id].exchange.Some? {
      var closed := st.nodes[id].exchange.value.(open := false);
      LetGoAt(config, st, id, st.nodes[id].(exchange := Some(closed)));
    }
  }

  lemma LeaseStepKeeps(config: Config, st: State, event: Event)
    requires config.Valid() && Inv(config, st)
    requires LateFits(config, st, event) && PromptAt(st, event)
    requires event.Ask? || event.Serve? || event.ServeLate? || event.Place?
    ensures Inv(config, Step(config, st, event))
  {
    match event
    case Ask(node, demand) => AskKeeps(config, st, node, demand);
    case Serve(holder, lag) => ServeKeeps(config, st, holder, lag);
    case ServeLate(holder, index) => ServeLateKeeps(config, st, holder, index);
    case Place(node) => PlaceKeeps(config, st, node);
  }

  lemma ViewStepKeeps(config: Config, st: State, event: Event)
    requires config.Valid() && Inv(config, st)
    requires event.Hear? || event.Tick?
    ensures Inv(config, Step(config, st, event))
  {
    if event.Hear? {
      if event.node in st.nodes && event.from in st.nodes {
        HearKeeps(config, st, event.node, event.from, event.mode, event.newer);
      }
    } else if event.node in st.nodes {
      HearKeeps(config, st, event.node, event.node, st.nodes[event.node].mode, true);
    }
  }

  lemma OtherStepKeeps(config: Config, st: State, event: Event)
    requires config.Valid() && Inv(config, st)
    requires !(event.Ask? || event.Serve? || event.ServeLate? || event.Place?)
    ensures Inv(config, Step(config, st, event))
  {
    match event
    case Advance(span) => AdvanceKeeps(config, st, span);
    case Hear(_, _, _, _) => ViewStepKeeps(config, st, event);
    case Tick(_) => ViewStepKeeps(config, st, event);
    case SetMode(id, mode) => SetModeKeeps(config, st, id, mode);
    case Restart(id) => RestartKeeps(config, st, id);
    case Read(id) => ReadKeeps(config, st, id);
    case GiveUp(id) => GiveUpKeeps(config, st, id);
  }

  /** One step of the fleet keeps the invariant. */
  lemma StepKeeps(config: Config, st: State, event: Event)
    requires config.Valid() && Inv(config, st)
    requires LateFits(config, st, event) && PromptAt(st, event)
    ensures Inv(config, Step(config, st, event))
  {
    if event.Ask? || event.Serve? || event.ServeLate? || event.Place? {
      LeaseStepKeeps(config, st, event);
    } else {
      OtherStepKeeps(config, st, event);
    }
  }
}
