/** What a node believes about its peers, from what reached it and nothing else: contact is the latest
    arrival, the mode is the one the latest kept digest carried, and a digest rejected as stale
    proves its sender alive without being believed about anything. */
module FleetGossip {
  import opened Basics
  import opened Totals
  import opened Fleet
  import opened FleetTheorems
  import Split

  // ---------- arrivals ----------

  /** Something from `m` reaches `id` at this step: gossip, or the node's own tick. */
  ghost predicate Arrives(trace: seq<State>, events: seq<Event>, i: nat, id: NodeId, m: NodeId)
    requires |trace| == |events| + 1
  {
    && i < |events| && id in trace[i].nodes && m in trace[i].nodes
    && match events[i]
       case Hear(node, from, _, _) => node == id && from == m
       case Tick(node) => node == id && m == id
       case _ => false
  }

  /** And says this mode in a digest worth keeping. */
  ghost predicate Says(trace: seq<State>, events: seq<Event>, i: nat, id: NodeId, m: NodeId, mode: Mode)
    requires |trace| == |events| + 1
  {
    && Arrives(trace, events, i, id, m)
    && match events[i]
       case Hear(_, _, said, newer) => newer && said == mode
       case _ => trace[i].nodes[id].mode == mode
  }

  ghost predicate Believes(st: State, id: NodeId, m: NodeId, contact: Contact)
  {
    id in st.nodes && m in st.nodes[id].peers && st.nodes[id].peers[m] == contact
  }

  // ---------- one arrival ----------

  /** What `m` is to `id` after an arrival from it: heard now; as it says, if that is worth keeping, and
      as it was before, if not; and nobody, if it was nobody before and says nothing worth keeping. */
  lemma SenderAfter(config: Config, trace: seq<State>, events: seq<Event>, i: nat, id: NodeId, m: NodeId)
    requires config.Valid() && config.deadAfter > 0 && IsRun(config, trace, events) && Arrives(trace, events, i, id, m)
    ensures forall mode :: Says(trace, events, i, id, m, mode) ==>
      Believes(trace[i + 1], id, m, Contact(mode, trace[i].now))
    ensures (forall mode :: !Says(trace, events, i, id, m, mode)) ==>
      if m in trace[i].nodes[id].peers
      then Believes(trace[i + 1], id, m, Contact(trace[i].nodes[id].peers[m].mode, trace[i].now))
      else m !in trace[i + 1].nodes[id].peers
  {
    ViewsHold(config, trace, events, i);
    assert ViewOk(config, trace[i].nodes.Keys, trace[i].now, id, trace[i].nodes[id]);
    assert trace[i + 1] == Step(config, trace[i], events[i]);
    assert Says(trace, events, i, id, m, Active) || Says(trace, events, i, id, m, Draining)
        || (events[i].Hear? && !events[i].newer);
  }

  /** And anyone else: what it was, unless it has been silent for the death window. */
  lemma OthersAfter(config: Config, trace: seq<State>, events: seq<Event>, i: nat, id: NodeId, m: NodeId, other: NodeId)
    requires config.Valid() && IsRun(config, trace, events) && Arrives(trace, events, i, id, m) && other != m
    ensures var was := trace[i].nodes[id].peers;
            if other in was && trace[i].now < was[other].at + config.deadAfter
            then Believes(trace[i + 1], id, other, was[other])
            else other !in trace[i + 1].nodes[id].peers
  {
    ViewsHold(config, trace, events, i);
    assert ViewOk(config, trace[i].nodes.Keys, trace[i].now, id, trace[i].nodes[id]);
    assert trace[i + 1] == Step(config, trace[i], events[i]);
  }

  /** A step that brings a node nothing changes nothing it believes, unless it restarts, and then it
      believes nothing. */
  lemma QuietAfter(config: Config, trace: seq<State>, events: seq<Event>, i: nat, id: NodeId)
    requires config.Valid() && IsRun(config, trace, events) && i < |events| && id in trace[i].nodes
    requires forall m :: !Arrives(trace, events, i, id, m)
    ensures id in trace[i + 1].nodes
    ensures trace[i + 1].nodes[id].peers == if events[i] == Restart(id) then map[] else trace[i].nodes[id].peers
  {
    assert trace[i + 1] == Step(config, trace[i], events[i]);
    if events[i].Tick? && events[i].node == id {
      assert Arrives(trace, events, i, id, id);
    } else if events[i].Hear? && events[i].node == id && events[i].from in trace[i].nodes {
      assert Arrives(trace, events, i, id, events[i].from);
    }
  }

  /** A stale digest is believed about nothing: whoever is known after one was known before, in the
      same mode. */
  lemma StaleSaysNothing(config: Config, trace: seq<State>, events: seq<Event>, i: nat, id: NodeId, from: NodeId,
                         mode: Mode, m: NodeId)
    requires config.Valid() && IsRun(config, trace, events) && i < |events| && events[i] == Hear(id, from, mode, false)
    requires id in trace[i + 1].nodes && m in trace[i + 1].nodes[id].peers
    ensures id in trace[i].nodes && m in trace[i].nodes[id].peers
    ensures trace[i + 1].nodes[id].peers[m].mode == trace[i].nodes[id].peers[m].mode
  {
    assert trace[i + 1] == Step(config, trace[i], events[i]);
  }

  // ---------- whole runs ----------

  /** Nothing worth keeping came from `m`, and the node did not restart, strictly between two steps. */
  ghost predicate SaidNothing(trace: seq<State>, events: seq<Event>, j: nat, k: nat, id: NodeId, m: NodeId)
    requires |trace| == |events| + 1
  {
    forall i: nat :: j < i < k && i < |events| ==>
      events[i] != Restart(id) && !Says(trace, events, i, id, m, Active) && !Says(trace, events, i, id, m, Draining)
  }

  /** Nor did anything else come from it. */
  ghost predicate Silent(trace: seq<State>, events: seq<Event>, j: nat, k: nat, id: NodeId, m: NodeId)
    requires |trace| == |events| + 1
  {
    forall i: nat :: j < i < k ==> !Arrives(trace, events, i, id, m)
  }

  /** Step `j` is the last before `k` at which `m` said anything, and `a` the last it was heard at. */
  ghost predicate Grounded(trace: seq<State>, events: seq<Event>, k: nat, id: NodeId, m: NodeId, contact: Contact,
                           j: nat, a: nat)
    requires |trace| == |events| + 1 && k < |trace|
  {
    && j <= a < k && Says(trace, events, j, id, m, contact.mode) && SaidNothing(trace, events, j, k, id, m)
    && Arrives(trace, events, a, id, m) && Silent(trace, events, a, k, id, m) && contact.at == trace[a].now
  }

  lemma ArrivalGrounds(config: Config, trace: seq<State>, events: seq<Event>, k: nat, id: NodeId, m: NodeId,
                       contact: Contact, j: nat, a: nat) returns (said: nat)
    requires config.Valid() && config.deadAfter > 0 && IsRun(config, trace, events) && k < |events|
    requires Arrives(trace, events, k, id, m) && Believes(trace[k + 1], id, m, contact)
    requires m in trace[k].nodes[id].peers ==>
      Grounded(trace, events, k, id, m, trace[k].nodes[id].peers[m], j, a)
    ensures Grounded(trace, events, k + 1, id, m, contact, said, k)
  {
    SenderAfter(config, trace, events, k, id, m);
    if Says(trace, events, k, id, m, contact.mode) {
      said := k;
    } else {
      assert forall mode :: !Says(trace, events, k, id, m, mode);
      said := j;
    }
  }

  lemma StillGrounded(config: Config, trace: seq<State>, events: seq<Event>, k: nat, id: NodeId, m: NodeId,
                      contact: Contact, j: nat, a: nat)
    requires config.Valid() && IsRun(config, trace, events) && k < |events| && id in trace[k].nodes
    requires !Arrives(trace, events, k, id, m) && Believes(trace[k + 1], id, m, contact)
    requires m in trace[k].nodes[id].peers ==>
      Grounded(trace, events, k, id, m, trace[k].nodes[id].peers[m], j, a)
    ensures Grounded(trace, events, k + 1, id, m, contact, j, a)
  {
    if from :| Arrives(trace, events, k, id, from) {
      OthersAfter(config, trace, events, k, id, from, m);
    } else {
      QuietAfter(config, trace, events, k, id);
    }
  }

  lemma KnownBefore(config: Config, trace: seq<State>, events: seq<Event>, k: nat, id: NodeId)
    requires config.Valid() && IsRun(config, trace, events) && k < |events| && id in trace[k + 1].nodes
    ensures id in trace[k].nodes
  {
    MembersFixed(config, trace, events, k);
    MembersFixed(config, trace, events, k + 1);
  }

  lemma GroundsOn(config: Config, trace: seq<State>, events: seq<Event>, k: nat, id: NodeId, m: NodeId,
                  contact: Contact, j: nat, a: nat) returns (said: nat, heard: nat)
    requires config.Valid() && config.deadAfter > 0 && IsRun(config, trace, events) && k < |events|
    requires id in trace[k].nodes && Believes(trace[k + 1], id, m, contact)
    requires m in trace[k].nodes[id].peers ==>
      Grounded(trace, events, k, id, m, trace[k].nodes[id].peers[m], j, a)
    ensures Grounded(trace, events, k + 1, id, m, contact, said, heard)
  {
    if Arrives(trace, events, k, id, m) {
      said := ArrivalGrounds(config, trace, events, k, id, m, contact, j, a);
      heard := k;
    } else {
      StillGrounded(config, trace, events, k, id, m, contact, j, a);
      said, heard := j, a;
    }
  }

  /** Everything a node believes about a peer at any state of any run: the mode is the one the last
      kept digest from it carried, and the contact is the last arrival from it, both since the node
      last restarted. */
  lemma {:induction false} BeliefIsGrounded(config: Config, trace: seq<State>, events: seq<Event>, k: nat, id: NodeId,
                                            m: NodeId, contact: Contact) returns (j: nat, a: nat)
    requires config.Valid() && config.deadAfter > 0 && IsRun(config, trace, events) && k < |trace|
    requires Believes(trace[k], id, m, contact)
    ensures Grounded(trace, events, k, id, m, contact, j, a)
    decreases k
  {
    if k == 0 {
      assert false;
    } else {
      var n := k - 1;
      KnownBefore(config, trace, events, n, id);
      var s, b := 0, 0;
      if m in trace[n].nodes[id].peers {
        s, b := BeliefIsGrounded(config, trace, events, n, id, m, trace[n].nodes[id].peers[m]);
      }
      j, a := GroundsOn(config, trace, events, n, id, m, contact, s, b);
    }
  }

  /** A node last heard to be draining, in a digest worth keeping, counts toward no majority and leads
      nothing in the hearer's eyes until it says it is active again, whatever stale digests of it
      arrive. */
  lemma DrainStands(config: Config, trace: seq<State>, events: seq<Event>, j: nat, k: nat, id: NodeId, m: NodeId,
                    t: Time)
    requires config.Valid() && config.deadAfter > 0 && IsRun(config, trace, events) && j < k < |trace|
    requires Says(trace, events, j, id, m, Draining)
    requires forall i: nat :: j < i < k ==> !Says(trace, events, i, id, m, Active)
    ensures id in trace[k].nodes
    ensures m !in AliveSet(config, trace[k].nodes[id].peers, t) && !IsLeader(config, trace[k].nodes[id].peers, m, t)
  {
    MembersFixed(config, trace, events, j);
    MembersFixed(config, trace, events, k);
    var peers := trace[k].nodes[id].peers;
    if m in peers && peers[m].mode.Active? {
      var s, a := BeliefIsGrounded(config, trace, events, k, id, m, peers[m]);
    }
  }

  /** So a node that has told itself it is draining grants nothing until it takes that back. */
  lemma DrainingGrantsNothing(config: Config, trace: seq<State>, events: seq<Event>, j: nat, k: nat, id: NodeId)
    requires config.Valid() && config.deadAfter > 0 && IsRun(config, trace, events) && j < k < |trace|
    requires events[j] == Tick(id) && id in trace[j].nodes && trace[j].nodes[id].mode.Draining?
    requires forall i: nat :: j < i < k ==> !Says(trace, events, i, id, id, Active)
    ensures !CanGrant(config, trace[k], id)
  {
    assert Says(trace, events, j, id, id, Draining);
    ViewsHold(config, trace, events, k);
    if id in trace[k].nodes {
      DrainStands(config, trace, events, j, k, id, id, trace[k].nodes[id].observed);
      assert ViewOk(config, trace[k].nodes.Keys, trace[k].now, id, trace[k].nodes[id]);
    }
  }

  /** Known, with contact no older than this. */
  ghost predicate Known(st: State, id: NodeId, m: NodeId, since: Time)
  {
    id in st.nodes && m in st.nodes[id].peers && st.nodes[id].peers[m].at >= since
  }

  lemma KnownStep(config: Config, trace: seq<State>, events: seq<Event>, n: nat, id: NodeId, m: NodeId, since: Time)
    requires config.Valid() && IsRun(config, trace, events) && n < |events| && events[n] != Restart(id)
    requires Known(trace[n], id, m, since) && since <= trace[n].now < since + config.deadAfter
    ensures Known(trace[n + 1], id, m, since)
  {
    if Arrives(trace, events, n, id, m) {
      SenderAfter(config, trace, events, n, id, m);
      assert (forall said :: !Says(trace, events, n, id, m, said))
          || Says(trace, events, n, id, m, Active) || Says(trace, events, n, id, m, Draining);
    } else if from :| Arrives(trace, events, n, id, from) {
      OthersAfter(config, trace, events, n, id, from, m);
    } else {
      QuietAfter(config, trace, events, n, id);
    }
  }

  lemma KnownAtOnce(config: Config, trace: seq<State>, events: seq<Event>, n: nat, id: NodeId, m: NodeId, mode: Mode)
    requires config.Valid() && config.deadAfter > 0 && IsRun(config, trace, events) && n < |events|
    requires Says(trace, events, n, id, m, mode)
    ensures Known(trace[n + 1], id, m, trace[n].now)
  {
    SenderAfter(config, trace, events, n, id, m);
  }

  /** Heard in a kept digest within the death window, a peer is known, unless the hearer restarted. */
  lemma {:induction false} KnownWhileHeard(config: Config, trace: seq<State>, events: seq<Event>, j: nat, k: nat,
                                           id: NodeId, m: NodeId, mode: Mode)
    requires config.Valid() && IsRun(config, trace, events) && j < k < |trace|
    requires Says(trace, events, j, id, m, mode) && trace[k].now < trace[j].now + config.deadAfter
    requires forall i: nat :: j < i < k ==> events[i] != Restart(id)
    ensures Known(trace[k], id, m, trace[j].now)
    decreases k
  {
    var n := k - 1;
    TimeMonotone(config, trace, events, j, n);
    TimeMonotone(config, trace, events, n, k);
    if j == n {
      KnownAtOnce(config, trace, events, j, id, m, mode);
    } else {
      KnownWhileHeard(config, trace, events, j, n, id, m, mode);
      KnownStep(config, trace, events, n, id, m, trace[j].now);
    }
  }

  // ---------- what a node does with what it believes ----------

  /** Heard now, in a digest worth keeping, and the hearer has not restarted since. */
  ghost predicate HeardWithin(config: Config, trace: seq<State>, events: seq<Event>, j: nat, k: nat, id: NodeId,
                              m: NodeId, mode: Mode)
    requires |trace| == |events| + 1 && k < |trace|
  {
    && j < k && Says(trace, events, j, id, m, mode) && trace[k].now < trace[j].now + config.deadAfter
    && forall i: nat :: j < i < k ==> events[i] != Restart(id)
  }

  /** Everyone heard within the death window divides the guaranteed part, suspect or draining though they
      may be. */
  lemma ShareCountsHeard(config: Config, trace: seq<State>, events: seq<Event>, k: nat, id: NodeId, heard: set<NodeId>)
    requires config.Valid() && IsRun(config, trace, events) && k < |trace| && id in trace[k].nodes
    requires forall m :: m in heard ==> exists j: nat, mode :: HeardWithin(config, trace, events, j, k, id, m, mode)
    ensures Guaranteed(config, trace[k].nodes[id], trace[k].now) * |heard|
         <= Split.GuaranteedTotal(config.cap, config.fraction)
  {
    var node, now := trace[k].nodes[id], trace[k].now;
    forall m | m in heard
      ensures m in ViewSet(config, node.peers, now)
    {
      var j: nat, mode :| HeardWithin(config, trace, events, j, k, id, m, mode);
      KnownWhileHeard(config, trace, events, j, k, id, m, mode);
      TimeMonotone(config, trace, events, j, k);
    }
    SubsetSize(heard, ViewSet(config, node.peers, now));
    var seen := Seen(config, node.peers, now);
    Split.ShareIsWholePart(config.cap, config.fraction, config.fleetSize, seen);
    Split.MulKeepsOrder(|heard|, Max(config.fleetSize, seen), Guaranteed(config, node, now));
  }

  /** A node that has heard a lower active one within the death window grants nothing, though that one
      may be suspect: it still leads until it is dead or says otherwise. */
  lemma LowerHeardForbids(config: Config, trace: seq<State>, events: seq<Event>, j: nat, k: nat, id: NodeId, m: NodeId)
    requires config.Valid() && IsRun(config, trace, events) && k < |trace| && m < id
    requires HeardWithin(config, trace, events, j, k, id, m, Active)
    requires forall i: nat :: j < i < k ==> !Says(trace, events, i, id, m, Draining)
    ensures !CanGrant(config, trace[k], id)
  {
    KnownWhileHeard(config, trace, events, j, k, id, m, Active);
    ViewsHold(config, trace, events, k);
    assert ViewOk(config, trace[k].nodes.Keys, trace[k].now, id, trace[k].nodes[id]);
    var peers := trace[k].nodes[id].peers;
    if peers[m].mode.Draining? {
      var s, a := BeliefIsGrounded(config, trace, events, k, id, m, peers[m]);
    }
    assert trace[k].nodes[id].observed <= trace[k].now;
  }

  /** A peer whose latest word, kept and not taken back, was that it is active, and which was heard from
      within the doubt window. */
  ghost predicate Vouched(config: Config, trace: seq<State>, events: seq<Event>, k: nat, id: NodeId, m: NodeId)
    requires |trace| == |events| + 1 && k < |trace|
  {
    exists j: nat, a: nat, at: Time :: trace[k].now < at + config.suspectAfter
      && Grounded(trace, events, k, id, m, Contact(Active, at), j, a)
  }

  /** A node able to grant has a majority of the configured fleet vouching for themselves so. */
  lemma GrantNeedsMajority(config: Config, trace: seq<State>, events: seq<Event>, k: nat, id: NodeId)
    returns (majority: set<NodeId>)
    requires config.Valid() && config.deadAfter > 0 && IsRun(config, trace, events) && k < |trace|
    requires CanGrant(config, trace[k], id)
    ensures 2 * |majority| > config.fleetSize
    ensures forall m :: m in majority ==> Vouched(config, trace, events, k, id, m)
  {
    var peers := trace[k].nodes[id].peers;
    majority := AliveSet(config, peers, trace[k].now);
    ViewsHold(config, trace, events, k);
    assert ViewOk(config, trace[k].nodes.Keys, trace[k].now, id, trace[k].nodes[id]);
    forall m | m in majority
      ensures Vouched(config, trace, events, k, id, m)
    {
      var j, a := BeliefIsGrounded(config, trace, events, k, id, m, peers[m]);
      assert peers[m] == Contact(Active, peers[m].at);
    }
  }
}
