/** What the fleet can come to whatever the network does: the nodes that can ever issue a lease, what
    they can have issued between them, and so the most everyone can believe they may open. */
module FleetIssuers {
  import opened Basics
  import opened Totals
  import opened Fleet
  import opened FleetSafety
  import opened FleetTheorems
  import Split

  // ---------- who can ever issue ----------

  function Above(members: set<NodeId>, x: NodeId): set<NodeId>
  {
    set m | m in members && x < m
  }

  /** The members with enough others above them to lead a majority. */
  function Eligible(config: Config, members: set<NodeId>): set<NodeId>
  {
    set x | x in members && |Above(members, x)| + 1 >= config.Majority()
  }

  /** How many of a fleet of `n` can lead a majority. */
  function Seats(config: Config, n: nat): nat
  {
    Less(n + 1, config.Majority())
  }

  lemma {:induction false} Highest(members: set<NodeId>) returns (top: NodeId)
    requires members != {}
    ensures top in members && forall m :: m in members ==> m <= top
    decreases |members|
  {
    var x :| x in members;
    var rest := members - {x};
    top := x;
    if rest != {} {
      var other := Highest(rest);
      top := Max(x, other);
    }
    forall m | m in members
      ensures m <= top
    {
      assert m == x || m in rest;
    }
  }

  ghost predicate Topmost(members: set<NodeId>, top: set<NodeId>)
  {
    top <= members && forall t, m :: t in top && m in members && m !in top ==> m < t
  }

  /** The highest members, any number of them. */
  lemma {:induction false} TopOf(members: set<NodeId>, n: nat) returns (top: set<NodeId>)
    requires n <= |members|
    ensures |top| == n && Topmost(members, top)
    decreases n
  {
    if n == 0 {
      top := {};
    } else {
      var h := Highest(members);
      var next := TopOf(members - {h}, n - 1);
      top := next + {h};
    }
  }

  /** Exactly the members below the highest few can lead. */
  lemma EligibleCount(config: Config, members: set<NodeId>)
    ensures |Eligible(config, members)| == Seats(config, |members|)
  {
    var need := config.Majority() - 1;
    if |members| < need {
      forall x | x in members
        ensures x !in Eligible(config, members)
      {
        SubsetSize(Above(members, x), members);
      }
      assert Eligible(config, members) == {};
    } else {
      var top := TopOf(members, need);
      forall x | x in members
        ensures x in Eligible(config, members) <==> x !in top
      {
        BelowTop(members, top, x);
      }
      assert Eligible(config, members) == members - top;
      assert members == (members - top) + top;
    }
  }

  lemma BelowTop(members: set<NodeId>, top: set<NodeId>, x: NodeId)
    requires Topmost(members, top) && x in members
    ensures if x in top then |Above(members, x)| < |top| else |top| <= |Above(members, x)|
  {
    if x in top {
      assert Above(members, x) <= top - {x};
      SubsetSize(Above(members, x), top - {x});
    } else {
      SubsetSize(top, Above(members, x));
    }
  }

  /** A node able to grant leads a majority of members none of which is below it. */
  lemma GranterIsEligible(config: Config, trace: seq<State>, events: seq<Event>, k: nat, x: NodeId)
    requires config.Valid() && IsRun(config, trace, events) && k < |trace| && CanGrant(config, trace[k], x)
    ensures x in Eligible(config, trace[0].nodes.Keys)
  {
    MembersFixed(config, trace, events, k);
    ViewsHold(config, trace, events, k);
    var members, node := trace[0].nodes.Keys, trace[k].nodes[x];
    assert ViewOk(config, members, trace[k].now, x, node);
    var alive := AliveSet(config, node.peers, node.observed);
    SubsetSize(alive, Above(members, x) + {x});
  }

  // ---------- what they can have issued ----------

  /** What a node holds that one of these issued. */
  ghost function HeldFrom(node: Node, issuers: set<NodeId>, now: Time): nat
  {
    if node.held.Some? && node.held.value.issuer in issuers then Leased(node, now) else 0
  }

  ghost function LeasedFrom(st: State, issuers: set<NodeId>): map<NodeId, nat>
  {
    map h | h in st.nodes :: HeldFrom(st.nodes[h], issuers, st.now)
  }

  /** Adding an issuer adds no more than fits the pool. */
  lemma OneMoreIssuer(config: Config, st: State, rest: set<NodeId>, x: NodeId)
    requires IssueFits(config, st, x) && x !in rest
    ensures Total(LeasedFrom(st, rest + {x})) <= Total(LeasedFrom(st, rest)) + config.Pool()
  {
    var few, one, all := LeasedFrom(st, rest), LeasedFrom(st, {x}), LeasedFrom(st, rest + {x});
    assert few.Keys == one.Keys == all.Keys == st.nodes.Keys;
    forall h | h in st.nodes
      ensures all[h] == few[h] + one[h] && one[h] <= Weight(config, st.nodes[h], x, st.now)
    {
    }
    TotalMonotone(one, WeightMap(config, st, x));
    TotalSum(few, one, all);
  }

  lemma OnceMore(n: nat, each: nat)
    requires n > 0
    ensures n * each == (n - 1) * each + each
  {
  }

  lemma {:induction false} IssuersFit(config: Config, st: State, issuers: set<NodeId>)
    requires forall x :: x in issuers ==> IssueFits(config, st, x)
    ensures Total(LeasedFrom(st, issuers)) <= |issuers| * config.Pool()
    decreases |issuers|
  {
    if issuers == {} {
      TotalBound(LeasedFrom(st, issuers), 0);
    } else {
      var x :| x in issuers;
      var rest := issuers - {x};
      IssuersFit(config, st, rest);
      OneMoreIssuer(config, st, rest, x);
      assert rest + {x} == issuers;
      OnceMore(|issuers|, config.Pool());
    }
  }

  /** Whatever the network does, in every steady run the leases in hand come to no more than the pool
      once for each member that can lead a majority. */
  lemma LeasesFitSeats(config: Config, trace: seq<State>, events: seq<Event>, k: nat)
    requires config.Valid() && Steady(config, trace, events) && k < |trace|
    ensures Total(LeasedMap(trace[k])) <= Seats(config, |trace[0].nodes.Keys|) * config.Pool()
  {
    var st, members := trace[k], trace[0].nodes.Keys;
    SteadyInv(config, trace, events, k);
    var leased, from := LeasedMap(st), LeasedFrom(st, Eligible(config, members));
    forall h | h in leased
      ensures leased[h] == 0 || leased[h] <= from[h]
    {
      if leased[h] > 0 {
        var c := st.nodes[h].held.value;
        assert IsClaim(config, st.nodes[h], c);
        var p: nat :| p <= k && GrantedAt(config, trace, p, c);
        GranterIsEligible(config, trace, events, p, c.issuer);
      }
    }
    TotalMonotone(leased, from);
    IssuersFit(config, st, Eligible(config, members));
    EligibleCount(config, members);
  }

  lemma SharesAtMostPortions(config: Config, st: State)
    requires config.Valid()
    ensures Total(ShareMap(config, st)) <= |st.nodes.Keys| * config.Portion()
  {
    forall id | id in st.nodes
      ensures ShareMap(config, st)[id] <= config.Portion()
    {
      Split.ShareShrinksWithSight(config.cap, config.fraction, config.fleetSize,
                                  Seen(config, st.nodes[id].peers, st.now));
    }
    assert ShareMap(config, st).Keys == st.nodes.Keys;
    TotalBound(ShareMap(config, st), config.Portion());
  }

  /** The most a fleet of `n` can come to: a portion for everyone and the pool for every seat. */
  function WorstCase(config: Config, n: nat): nat
    requires config.Valid()
  {
    n * config.Portion() + Seats(config, n) * config.Pool()
  }

  /** Whatever the network does, in every steady run no more than that is believed allowed. */
  lemma WorstCaseBounds(config: Config, trace: seq<State>, events: seq<Event>, k: nat)
    requires config.Valid() && Steady(config, trace, events) && k < |trace|
    ensures Total(AllowanceMap(config, trace[k])) <= WorstCase(config, |trace[0].nodes.Keys|)
  {
    MembersFixed(config, trace, events, k);
    LeasesFitSeats(config, trace, events, k);
    SharesAtMostPortions(config, trace[k]);
    AllowanceIsShareAndLease(config, trace[k]);
  }
}
