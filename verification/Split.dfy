/** How one server's connection cap divides: a share per node that needs no
    coordination, and a free pool the leader leases out. */
module Split {
  import opened Basics
  import opened Totals

  datatype QuotaSplit = QuotaSplit(perNode: nat, freePool: nat, cap: nat, nodes: nat)

  function Clamp(fraction: real): real
  {
    if fraction < 0.0 then 0.0 else if fraction > 1.0 then 1.0 else fraction
  }

  /** The part of the cap set aside for guaranteed shares, rounded down. */
  function GuaranteedTotal(cap: nat, fraction: real): (total: nat)
    ensures total <= cap
  {
    var exact := cap as real * Clamp(fraction);
    assert 0.0 <= exact <= cap as real;
    exact.Floor
  }

  function Divide(cap: nat, nodes: nat, fraction: real): QuotaSplit
  {
    if nodes == 0 then QuotaSplit(0, cap, cap, 0)
    else
      var guaranteed := GuaranteedTotal(cap, fraction);
      QuotaSplit(guaranteed / nodes, cap - guaranteed, cap, nodes)
  }

  /** Every share used and the pool fully leased stays inside the cap, whatever the
      fraction, and the pool does not move with the node count. */
  lemma DivideWithinCap(cap: nat, nodes: nat, fraction: real, other: nat)
    requires nodes > 0 && other > 0
    ensures var s := Divide(cap, nodes, fraction);
            && s.perNode * nodes + s.freePool <= cap
            && cap < s.perNode * nodes + s.freePool + nodes
            && s.freePool == Divide(cap, other, fraction).freePool
  {
    var g := GuaranteedTotal(cap, fraction);
    assert g / nodes * nodes + g % nodes == g;
  }

  /** With nobody to promise anything to, nothing is promised and all of it is the pool. */
  lemma DivideAmongNone(cap: nat, fraction: real)
    ensures Divide(cap, 0, fraction).perNode == 0 && Divide(cap, 0, fraction).freePool == cap
  {
  }

  /** One node's guaranteed share: it divides by the larger of the configured fleet
      and what the node can see. */
  function Share(cap: nat, fraction: real, fleet: nat, seen: nat): nat
    requires fleet > 0
  {
    Divide(cap, Max(fleet, seen), fraction).perNode
  }

  /** How much more to ask for, or nothing when the node is inside its allowance. */
  function WantsMore(demand: nat, guaranteed: nat, leased: nat): (want: Option<nat>)
    ensures want.Some? ==> want.value > leased
    ensures want.None? <==> demand < guaranteed + leased
  {
    if demand >= guaranteed + leased then Some(Less(demand, guaranteed) + 1) else None
  }

  /** What every node believes it is guaranteed, given how many members each one sees. */
  ghost function Shares(cap: nat, fraction: real, fleet: nat, seen: map<NodeId, nat>): map<NodeId, nat>
    requires fleet > 0
  {
    map n | n in seen :: Share(cap, fraction, fleet, seen[n])
  }

  lemma ShareShrinksWithSight(cap: nat, fraction: real, fleet: nat, seen: nat)
    requires fleet > 0
    ensures Share(cap, fraction, fleet, seen) <= GuaranteedTotal(cap, fraction) / fleet
    ensures seen <= fleet ==> Share(cap, fraction, fleet, seen) == GuaranteedTotal(cap, fraction) / fleet
  {
    DivideByMore(GuaranteedTotal(cap, fraction), fleet, Max(fleet, seen));
  }

  /** The share is the whole part of the guaranteed total over whichever is larger, the configured
      fleet or what the node sees. */
  lemma ShareIsWholePart(cap: nat, fraction: real, fleet: nat, seen: nat)
    requires fleet > 0
    ensures var d := Max(fleet, seen);
            && Share(cap, fraction, fleet, seen) * d <= GuaranteedTotal(cap, fraction)
            && GuaranteedTotal(cap, fraction) < (Share(cap, fraction, fleet, seen) + 1) * d
  {
    var g, d := GuaranteedTotal(cap, fraction), Max(fleet, seen);
    assert g == g / d * d + g % d;
    assert (g / d + 1) * d == g / d * d + d;
  }

  /** And the guaranteed total is the whole part of the fraction of the cap, a fraction outside zero
      to one counting as the nearer of them. */
  lemma GuaranteedIsWholePart(cap: nat, fraction: real)
    ensures 0.0 <= fraction <= 1.0 ==>
      var g := GuaranteedTotal(cap, fraction) as real; g <= cap as real * fraction < g + 1.0
    ensures fraction <= 0.0 ==> GuaranteedTotal(cap, fraction) == 0
    ensures fraction >= 1.0 ==> GuaranteedTotal(cap, fraction) == cap
  {
    var exact := cap as real * Clamp(fraction);
    assert exact.Floor as real <= exact < exact.Floor as real + 1.0;
    if fraction <= 0.0 {
      assert exact == 0.0;
    } else if fraction >= 1.0 {
      assert exact == cap as real;
    }
  }

  /** Nodes that each see all of their number fit the guaranteed part together, however many were
      configured. */
  lemma SeersFit(cap: nat, fraction: real, fleet: nat, seen: map<NodeId, nat>)
    requires fleet > 0 && forall n :: n in seen ==> seen[n] >= |seen|
    ensures Total(Shares(cap, fraction, fleet, seen)) <= GuaranteedTotal(cap, fraction)
  {
    var shares := Shares(cap, fraction, fleet, seen);
    assert shares.Keys == seen.Keys && |shares| == |seen|;
    if |seen| > 0 {
      var each := GuaranteedTotal(cap, fraction) / |seen|;
      forall n | n in shares ensures shares[n] <= each {
        DivideByMore(GuaranteedTotal(cap, fraction), |seen|, Max(fleet, seen[n]));
      }
      TotalBound(shares, each);
      SharesOfTotal(|seen|, |seen|, GuaranteedTotal(cap, fraction));
    } else {
      TotalBound(shares, 0);
    }
  }

  lemma MulKeepsOrder(a: nat, b: nat, c: nat)
    ensures a <= b ==> a * c <= b * c
  {
    if a <= b {
      assert b * c == a * c + (b - a) * c;
    }
  }

  lemma DivideByMore(total: nat, few: nat, many: nat)
    requires 0 < few <= many
    ensures total / many <= total / few
  {
    var q, r := total / few, total / many;
    assert r * many <= total < (q + 1) * few;
    MulKeepsOrder(few, many, r);
    MulKeepsOrder(q + 1, r, few);
  }

  ghost predicate GuaranteesFit(cap: nat, fraction: real, fleet: nat, nodes: set<NodeId>)
    requires fleet > 0
  {
    forall seen: map<NodeId, nat> :: seen.Keys == nodes ==>
      Total(Shares(cap, fraction, fleet, seen)) <= GuaranteedTotal(cap, fraction)
  }

  /** The shares fit the guaranteed part of the cap for every pattern of who sees whom
      exactly when the running fleet, each node on the configured share, fits it. */
  lemma GuaranteesFitExactly(cap: nat, fraction: real, fleet: nat, nodes: set<NodeId>)
    requires fleet > 0
    ensures GuaranteesFit(cap, fraction, fleet, nodes)
       <==> |nodes| * (GuaranteedTotal(cap, fraction) / fleet) <= GuaranteedTotal(cap, fraction)
  {
    var each := GuaranteedTotal(cap, fraction) / fleet;
    var blind: map<NodeId, nat> := map n | n in nodes :: 0;
    assert blind.Keys == nodes;
    var worst := Shares(cap, fraction, fleet, blind);
    assert worst.Keys == nodes && |worst| == |nodes|;
    ShareShrinksWithSight(cap, fraction, fleet, 0);
    TotalConstant(worst, each);
    forall seen: map<NodeId, nat> | seen.Keys == nodes
      ensures Total(Shares(cap, fraction, fleet, seen)) <= |nodes| * each
    {
      var shares := Shares(cap, fraction, fleet, seen);
      assert shares.Keys == nodes && |shares| == |nodes|;
      forall n | n in shares ensures shares[n] <= each {
        ShareShrinksWithSight(cap, fraction, fleet, seen[n]);
      }
      TotalBound(shares, each);
    }
  }

  lemma FewerTimes(few: nat, many: nat, each: nat)
    requires few <= many
    ensures few * each <= many * each
  {
  }

  /** What equal portions leave over. */
  lemma PortionsLeave(total: nat, n: nat)
    requires n > 0
    ensures n * (total / n) == total - total % n
  {
  }

  lemma SharesOfTotal(few: nat, many: nat, total: nat)
    requires 0 < many && few <= many
    ensures few * (total / many) <= total
  {
    FewerTimes(few, many, total / many);
    assert total / many * many + total % many == total;
  }

  /** A fleet no larger than configured always fits. */
  lemma ConfiguredFleetFits(cap: nat, fraction: real, fleet: nat, nodes: set<NodeId>)
    requires 0 < fleet && |nodes| <= fleet
    ensures GuaranteesFit(cap, fraction, fleet, nodes)
  {
    var g := GuaranteedTotal(cap, fraction);
    SharesOfTotal(|nodes|, fleet, g);
    GuaranteesFitExactly(cap, fraction, fleet, nodes);
  }
}
