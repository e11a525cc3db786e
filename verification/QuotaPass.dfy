/** One pass of the quota loop: every server this node holds pools for is visited, its
    allowance divided over those pools, and each pool held to its part. */
module QuotaPass {
  import opened Basics
  import opened Totals
  import Shares
  import Split

  datatype PoolKey = PoolKey(server: ServerId, database: string, user: string)

  /** One pool as the pass found it. */
  datatype Row = Row(key: PoolKey, active: nat, idle: nat, waiting: nat) {
    function Demand(): nat { active + idle + waiting }
  }

  datatype Allowance = Allowance(guaranteed: nat, leased: nat) {
    function Total(): nat { guaranteed + leased }
  }

  /** What the cluster layer answers for one server during the pass: the allowance, and the
      allowance read again after a lease was granted, if one was. */
  datatype Reading = Reading(first: Allowance, renewed: Option<Allowance>)

  /** Everything outside the pools that the pass reads. */
  datatype World = World(
    document: set<ServerId>,
    primaries: map<ServerId, ServerId>,
    readings: ServerId -> Reading,
    maxSize: nat
  )

  /** Whether the document caps this server, by name or through the primary it replicates. */
  predicate Declared(world: World, server: ServerId)
  {
    || server in world.document
    || (server in world.primaries && world.primaries[server] in world.document)
  }

  predicate Distinct(all: seq<Row>)
  {
    forall i, j :: 0 <= i < j < |all| ==> all[i].key != all[j].key
  }

  // ---------- the pools of one server ----------

  function PoolsFor(all: seq<Row>, server: ServerId): seq<Row>
  {
    if all == [] then []
    else
      var n := |all| - 1;
      PoolsFor(all[..n], server) + if all[n].key.server == server then [all[n]] else []
  }

  function Demands(rows: seq<Row>): seq<nat>
  {
    seq(|rows|, i requires 0 <= i < |rows| => rows[i].Demand())
  }

  /** Which of its server's pools row `i` is. */
  function Position(all: seq<Row>, i: nat): nat
    requires i < |all|
  {
    |PoolsFor(all[..i], all[i].key.server)|
  }

  lemma {:induction false} PoolsForPrefix(all: seq<Row>, server: ServerId, k: nat)
    requires k <= |all|
    ensures PoolsFor(all[..k], server) <= PoolsFor(all, server)
    decreases |all|
  {
    if k < |all| {
      var n := |all| - 1;
      PoolsForPrefix(all[..n], server, k);
      assert all[..n][..k] == all[..k];
    } else {
      assert all[..k] == all;
    }
  }

  lemma PositionFinds(all: seq<Row>, i: nat)
    requires i < |all|
    ensures var rows := PoolsFor(all, all[i].key.server);
            Position(all, i) < |rows| && rows[Position(all, i)] == all[i]
  {
    PoolsForPrefix(all, all[i].key.server, i + 1);
    assert all[..i + 1][..i] == all[..i];
  }

  /** Every row of a server sits at one position, and every position is some row's. */
  lemma {:induction false} PositionCovers(all: seq<Row>, server: ServerId, p: nat) returns (i: nat)
    requires p < |PoolsFor(all, server)|
    ensures i < |all| && all[i].key.server == server && Position(all, i) == p
    decreases |all|
  {
    var n := |all| - 1;
    if p < |PoolsFor(all[..n], server)| {
      i := PositionCovers(all[..n], server, p);
      assert all[..n][..i] == all[..i];
    } else {
      i := n;
    }
  }

  // ---------- what the pass sets ----------

  function Held(all: seq<Row>, server: ServerId): nat
  {
    Shares.Sum(Demands(PoolsFor(all, server)))
  }

  /** The allowance last read: the second reading only if more was wanted and granted. */
  function LastRead(world: World, server: ServerId, held: nat): Allowance
  {
    var reading := world.readings(server);
    var want := Split.WantsMore(held, reading.first.guaranteed, reading.first.leased);
    if want.Some? && reading.renewed.Some? then reading.renewed.value else reading.first
  }

  function ShareAt(allowance: Allowance, demand: seq<nat>, p: nat): nat
    requires p < |demand|
  {
    if |demand| > U32_MAX then 0
    else Shares.ShareOf(Min(allowance.Total(), U32_MAX), demand, p)
  }

  /** The limit the pass gives row `i`. */
  function LimitOf(world: World, all: seq<Row>, i: nat): nat
    requires i < |all|
  {
    var server := all[i].key.server;
    PositionFinds(all, i);
    if Declared(world, server)
    then Min(world.maxSize,
             ShareAt(LastRead(world, server, Held(all, server)), Demands(PoolsFor(all, server)), Position(all, i)))
    else 0
  }

  /** What these pools are limited to, in the order the pass found them. */
  ghost function ServerLimits(limits: map<PoolKey, nat>, rows: seq<Row>): seq<nat>
  {
    seq(|rows|, i requires 0 <= i < |rows| => if rows[i].key in limits then limits[rows[i].key] else 0)
  }

  /** Limits as a finished pass leaves them: every pool in the snapshot at its own limit, every
      other pool as it was. */
  ghost predicate Passed(world: World, all: seq<Row>, before: map<PoolKey, nat>, after: map<PoolKey, nat>)
  {
    && (forall i :: 0 <= i < |all| ==> all[i].key in after && after[all[i].key] == LimitOf(world, all, i))
    && (forall key :: key in before && (forall i :: 0 <= i < |all| ==> all[i].key != key) ==>
          key in after && after[key] == before[key])
  }

  lemma {:induction false} SumMonotone(a: seq<nat>, b: seq<nat>)
    requires |a| == |b| && forall i :: 0 <= i < |a| ==> a[i] <= b[i]
    ensures Shares.Sum(a) <= Shares.Sum(b)
  {
    if a != [] {
      SumMonotone(a[1..], b[1..]);
    }
  }

  lemma {:induction false} PoolsForMembers(all: seq<Row>, server: ServerId)
    ensures forall row :: row in PoolsFor(all, server) ==> row in all && row.key.server == server
  {
    if all != [] {
      PoolsForMembers(all[..|all| - 1], server);
    }
  }

  /** The limit a pass leaves on the `p`th pool of a server. */
  lemma RowLimit(world: World, all: seq<Row>, before: map<PoolKey, nat>, after: map<PoolKey, nat>, server: ServerId,
                 p: nat)
    requires Passed(world, all, before, after) && p < |PoolsFor(all, server)|
    ensures var rows := PoolsFor(all, server);
            && rows[p].key in after
            && after[rows[p].key] ==
               if Declared(world, server)
               then Min(world.maxSize, ShareAt(LastRead(world, server, Held(all, server)), Demands(rows), p))
               else 0
  {
    var i := PositionCovers(all, server, p);
    PositionFinds(all, i);
  }

  /** Limits no larger than the shares add up to no more than was shared. */
  lemma SharesBound(limits: seq<nat>, allowance: Allowance, demand: seq<nat>)
    requires |limits| == |demand|
    requires forall p :: 0 <= p < |limits| ==> limits[p] <= ShareAt(allowance, demand, p)
    ensures Shares.Sum(limits) <= allowance.Total()
  {
    if demand == [] {
    } else if |demand| <= U32_MAX {
      var total := Min(allowance.Total(), U32_MAX);
      Shares.SharesSumToTotal(total, demand);
      SumMonotone(limits, Shares.AllShares(total, demand));
    } else {
      Shares.SumConstant(limits, 0);
    }
  }

  lemma {:induction false} DistinctRows(all: seq<Row>, server: ServerId)
    requires Distinct(all)
    ensures Distinct(PoolsFor(all, server))
  {
    if all != [] {
      var n := |all| - 1;
      DistinctRows(all[..n], server);
      PoolsForMembers(all[..n], server);
    }
  }

  /** After a pass the pools of a declared server are limited, together, to the allowance last
      read for it, and those of an undeclared server to nothing. */
  lemma PassHoldsServer(world: World, all: seq<Row>, before: map<PoolKey, nat>, after: map<PoolKey, nat>,
                        server: ServerId)
    requires Passed(world, all, before, after)
    ensures var rows := PoolsFor(all, server);
            && (forall i :: 0 <= i < |rows| ==> rows[i].key in after)
            && (Declared(world, server) ==>
                  Shares.Sum(ServerLimits(after, rows)) <= LastRead(world, server, Held(all, server)).Total())
            && (!Declared(world, server) ==> forall i :: 0 <= i < |rows| ==> after[rows[i].key] == 0)
            && (!Declared(world, server) ==> Shares.Sum(ServerLimits(after, rows)) == 0)
  {
    var rows := PoolsFor(all, server);
    forall p: nat | p < |rows|
      ensures rows[p].key in after
      ensures Declared(world, server) ==>
        after[rows[p].key] <= ShareAt(LastRead(world, server, Held(all, server)), Demands(rows), p)
      ensures !Declared(world, server) ==> after[rows[p].key] == 0
    {
      RowLimit(world, all, before, after, server, p);
    }
    if Declared(world, server) {
      SharesBound(ServerLimits(after, rows), LastRead(world, server, Held(all, server)), Demands(rows));
    } else {
      Shares.SumConstant(ServerLimits(after, rows), 0);
    }
  }

  // ---------- what a pass comes to, from the readings and the rows ----------

  /** The connections a server's pools account for: in use, idle and waited for. */
  ghost function Accounted(all: seq<Row>, server: ServerId): nat
  {
    if all == [] then 0
    else
      var last := all[|all| - 1];
      Accounted(all[..|all| - 1], server)
      + if last.key.server == server then last.active + last.idle + last.waiting else 0
  }

  lemma {:induction false} HeldIsAccounted(all: seq<Row>, server: ServerId)
    ensures Held(all, server) == Accounted(all, server)
  {
    if all != [] {
      var n := |all| - 1;
      HeldIsAccounted(all[..n], server);
      if all[n].key.server == server {
        var few := PoolsFor(all[..n], server);
        assert Demands(few + [all[n]]) == Demands(few) + [all[n].Demand()];
        SumAppend(Demands(few), all[n].Demand());
      } else {
        assert PoolsFor(all, server) == PoolsFor(all[..n], server);
      }
    }
  }

  /** These pools divide so many connections, as far as 32 bits go: all of them handed out, the busier
      pool first and the earlier of two as busy, and each then held to the size of a pool. */
  ghost predicate Dividing(maxSize: nat, rows: seq<Row>, limits: seq<nat>, total: nat)
  {
    && |limits| == |rows| && Shares.Sum(limits) <= total
    && (|rows| > 0xFFFF_FFFF ==> forall p :: 0 <= p < |limits| ==> limits[p] == 0)
    && (0 < |rows| <= 0xFFFF_FFFF ==> exists shares :: Divided(maxSize, rows, limits, Min(total, 0xFFFF_FFFF), shares))
  }

  ghost predicate Divided(maxSize: nat, rows: seq<Row>, limits: seq<nat>, total: nat, shares: seq<nat>)
    requires |limits| == |rows|
  {
    && Shares.ServesInOrder(Demands(rows), shares) && Shares.Sum(shares) == total
    && forall p :: 0 <= p < |rows| ==> limits[p] == Min(maxSize, shares[p])
  }

  /** What a pass leaves a server's pools: what the cluster layer allows now, if they account for all
      it allowed at first and it then granted more; what it allowed at first, otherwise; and nothing,
      for a server the document caps neither itself nor through the primary it replicates. */
  ghost predicate HeldTo(world: World, all: seq<Row>, limits: map<PoolKey, nat>, server: ServerId)
  {
    var rows, reading := PoolsFor(all, server), world.readings(server);
    var given, first := ServerLimits(limits, rows), reading.first.guaranteed + reading.first.leased;
    if !(server in world.document || (server in world.primaries && world.primaries[server] in world.document)) then
      Shares.Sum(given) == 0
    else if Accounted(all, server) >= first && reading.renewed.Some? then
      Dividing(world.maxSize, rows, given, reading.renewed.value.guaranteed + reading.renewed.value.leased)
    else
      Dividing(world.maxSize, rows, given, first)
  }

  lemma LimitsDivide(maxSize: nat, rows: seq<Row>, limits: seq<nat>, allowance: Allowance)
    requires |limits| == |rows|
    requires forall p :: 0 <= p < |rows| ==> limits[p] == Min(maxSize, ShareAt(allowance, Demands(rows), p))
    ensures Dividing(maxSize, rows, limits, allowance.guaranteed + allowance.leased)
  {
    SharesBound(limits, allowance, Demands(rows));
    if 0 < |rows| <= U32_MAX {
      var total := Min(allowance.Total(), U32_MAX);
      var shares := Shares.AllShares(total, Demands(rows));
      Shares.SharesHold(total, Demands(rows));
      assert Divided(maxSize, rows, limits, total, shares);
    }
  }

  /** Every finished pass leaves every server's pools so. */
  lemma PassHoldsTo(world: World, all: seq<Row>, before: map<PoolKey, nat>, after: map<PoolKey, nat>, server: ServerId)
    requires Passed(world, all, before, after)
    ensures HeldTo(world, all, after, server)
  {
    HeldIsAccounted(all, server);
    PassHoldsServer(world, all, before, after, server);
    var rows := PoolsFor(all, server);
    if Declared(world, server) {
      forall p: nat | p < |rows|
        ensures after[rows[p].key]
             == Min(world.maxSize, ShareAt(LastRead(world, server, Held(all, server)), Demands(rows), p))
      {
        RowLimit(world, all, before, after, server, p);
      }
      LimitsDivide(world.maxSize, rows, ServerLimits(after, rows), LastRead(world, server, Held(all, server)));
    }
  }

  /** With pools large enough nothing is held back. */
  lemma DividedWhole(maxSize: nat, rows: seq<Row>, limits: seq<nat>, total: nat)
    requires Dividing(maxSize, rows, limits, total) && 0 < |rows| <= U32_MAX && Min(total, U32_MAX) <= maxSize
    ensures Shares.Sum(limits) == Min(total, U32_MAX) && Shares.ServesInOrder(Demands(rows), limits)
  {
    var shares :| Divided(maxSize, rows, limits, Min(total, U32_MAX), shares);
    forall p | 0 <= p < |rows|
      ensures shares[p] <= Min(total, U32_MAX)
    {
      OneOfSum(shares, p);
    }
    assert limits == shares;
  }

  lemma {:induction false} OneOfSum(s: seq<nat>, p: nat)
    requires p < |s|
    ensures s[p] <= Shares.Sum(s)
  {
    if p > 0 {
      OneOfSum(s[1..], p - 1);
    }
  }

  /** Nodes whose allowances for a server fit a cap, each with its pools held to its own
      allowance, have limits that fit it together. */
  lemma LimitsFitCap(allowances: map<NodeId, nat>, limits: map<NodeId, nat>, cap: nat)
    requires limits.Keys == allowances.Keys && Total(allowances) <= cap
    requires forall n :: n in limits ==> limits[n] <= allowances[n]
    ensures Total(limits) <= cap
  {
    TotalMonotone(limits, allowances);
  }

  // ---------- the pass as it runs ----------

  /** Every distinct server, in the order first met. */
  method ServersWithPools(all: seq<Row>) returns (servers: seq<ServerId>)
    ensures forall i, j :: 0 <= i < j < |servers| ==> servers[i] != servers[j]
    ensures forall s :: s in servers <==> exists i :: 0 <= i < |all| && all[i].key.server == s
  {
    var seen: set<ServerId> := {};
    servers := [];
    for n := 0 to |all|
      invariant forall s :: s in seen <==> s in servers
      invariant forall i, j :: 0 <= i < j < |servers| ==> servers[i] != servers[j]
      invariant forall s :: s in servers <==> exists i :: 0 <= i < n && all[i].key.server == s
    {
      var server := all[n].key.server;
      if server !in seen {
        seen := seen + {server};
        servers := servers + [server];
      }
    }
  }

  /** This server's pools and the connections they account for. */
  method PoolsHeld(all: seq<Row>, server: ServerId) returns (rows: seq<Row>, held: nat)
    ensures rows == PoolsFor(all, server) && held == Held(all, server)
  {
    rows, held := [], 0;
    assert all[..0] == [];
    for n := 0 to |all|
      invariant rows == PoolsFor(all[..n], server) && held == Shares.Sum(Demands(rows))
    {
      assert all[..n + 1][..n] == all[..n];
      if all[n].key.server == server {
        SumAppend(Demands(rows), all[n].Demand());
        assert Demands(rows + [all[n]]) == Demands(rows) + [all[n].Demand()];
        rows := rows + [all[n]];
        held := held + all[n].Demand();
      } else {
        assert PoolsFor(all[..n + 1], server) == rows;
      }
    }
    assert all[..|all|] == all;
  }

  lemma {:induction false} SumAppend(s: seq<nat>, v: nat)
    ensures Shares.Sum(s + [v]) == Shares.Sum(s) + v
  {
    if s == [] {
    } else {
      SumAppend(s[1..], v);
      assert (s + [v])[1..] == s[1..] + [v];
    }
  }

  /** The node's pools, as far as the pass can reach them. */
  class Pools {
    const maxSize: nat
    var limits: map<PoolKey, nat>

    constructor (maxSize: nat)
      ensures this.maxSize == maxSize && limits == map[]
    {
      this.maxSize := maxSize;
      limits := map[];
    }

    method SetLimit(key: PoolKey, limit: nat)
      modifies this
      ensures limits == old(limits)[key := Min(maxSize, limit)]
    {
      limits := limits[key := Min(limit, maxSize)];
    }

    /** Holds the rows to the given limits, and touches no other pool. */
    method SetAll(rows: seq<Row>, shares: seq<nat>)
      requires |shares| == |rows| && Distinct(rows)
      modifies this
      ensures forall i :: 0 <= i < |rows| ==> rows[i].key in limits && limits[rows[i].key] == Min(maxSize, shares[i])
      ensures forall key :: (forall i :: 0 <= i < |rows| ==> rows[i].key != key) ==>
        (key in limits <==> key in old(limits)) && (key in limits ==> limits[key] == old(limits)[key])
    {
      for n := 0 to |rows|
        invariant forall i :: 0 <= i < n ==> rows[i].key in limits && limits[rows[i].key] == Min(maxSize, shares[i])
        invariant forall key :: (forall i :: 0 <= i < |rows| ==> rows[i].key != key) ==>
          (key in limits <==> key in old(limits)) && (key in limits ==> limits[key] == old(limits)[key])
      {
        SetLimit(rows[n].key, shares[n]);
      }
    }

    /** One server's turn: its pools go to zero, or share what the cluster layer allows. */
    method HoldServer(world: World, all: seq<Row>, server: ServerId)
      requires Distinct(all) && world.maxSize == maxSize
      modifies this
      ensures forall i :: 0 <= i < |all| && all[i].key.server == server ==>
        all[i].key in limits && limits[all[i].key] == LimitOf(world, all, i)
      ensures forall key: PoolKey :: key.server != server ==>
        (key in limits <==> key in old(limits)) && (key in limits ==> limits[key] == old(limits)[key])
      ensures forall key: PoolKey :: (forall i :: 0 <= i < |all| ==> all[i].key != key) ==>
        (key in limits <==> key in old(limits)) && (key in limits ==> limits[key] == old(limits)[key])
    {
      var rows, held := PoolsHeld(all, server);
      DistinctRows(all, server);
      PoolsForMembers(all, server);
      var shares;
      if !Declared(world, server) {
        shares := seq(|rows|, _ => 0);
      } else {
        var allowance := world.readings(server).first;
        if Split.WantsMore(held, allowance.guaranteed, allowance.leased).Some? {
          if world.readings(server).renewed.Some? {
            allowance := world.readings(server).renewed.value;
          }
        }
        shares := Shares.SharesAcrossPools(allowance.guaranteed, allowance.leased, Demands(rows));
        assert allowance == LastRead(world, server, held);
      }
      SetAll(rows, shares);
      forall i | 0 <= i < |all| && all[i].key.server == server
        ensures all[i].key in limits && limits[all[i].key] == LimitOf(world, all, i)
      {
        PositionFinds(all, i);
      }
    }

    /** The whole pass, over one snapshot of the pools. */
    method ApplyQuota(world: World, all: seq<Row>)
      requires Distinct(all) && world.maxSize == maxSize
      modifies this
      ensures Passed(world, all, old(limits), limits)
      ensures forall server :: HeldTo(world, all, limits, server)
    {
      var servers := ServersWithPools(all);
      for n := 0 to |servers|
        invariant forall i :: 0 <= i < |all| && all[i].key.server in servers[..n] ==>
          all[i].key in limits && limits[all[i].key] == LimitOf(world, all, i)
        invariant forall key: PoolKey :: (forall i :: 0 <= i < |all| ==> all[i].key != key) ==>
          (key in limits <==> key in old(limits)) && (key in limits ==> limits[key] == old(limits)[key])
      {
        HoldServer(world, all, servers[n]);
        assert servers[..n + 1] == servers[..n] + [servers[n]];
      }
      assert servers[..|servers|] == servers;
      forall server ensures HeldTo(world, all, limits, server) {
        PassHoldsTo(world, all, old(limits), limits, server);
      }
    }
  }
}
