/** How a node's allowance for a server is split across the pools it holds there: whole
    connections, the floor to everyone, and what is left to the pools with most demand. */
module Shares {
  import opened Basics
  import opened Totals

  // ---------- who comes first ----------

  /** Pool `a` is served before pool `b`: more demand, or as much and an earlier position. */
  predicate Precedes(demand: seq<nat>, a: nat, b: nat)
    requires a < |demand| && b < |demand|
  {
    demand[a] > demand[b] || (demand[a] == demand[b] && a < b)
  }

  function Ahead(demand: seq<nat>, i: nat): set<nat>
    requires i < |demand|
  {
    set j: nat | j < |demand| && Precedes(demand, j, i)
  }

  /** How many pools come before pool `i`. */
  function Rank(demand: seq<nat>, i: nat): nat
    requires i < |demand|
  {
    |Ahead(demand, i)|
  }

  /** Pool `i`'s share of `total` connections. */
  function ShareOf(total: nat, demand: seq<nat>, i: nat): nat
    requires i < |demand|
  {
    total / |demand| + if Rank(demand, i) < total % |demand| then 1 else 0
  }

  function AllShares(total: nat, demand: seq<nat>): seq<nat>
  {
    seq(|demand|, i requires 0 <= i < |demand| => ShareOf(total, demand, i))
  }

  function Sum(s: seq<nat>): nat
  {
    if s == [] then 0 else s[0] + Sum(s[1..])
  }

  // ---------- the order the remainder is handed out in ----------

  predicate Ordered(demand: seq<nat>, order: seq<nat>)
  {
    && (forall p :: 0 <= p < |order| ==> order[p] < |demand|)
    && (forall p, q :: 0 <= p < q < |order| ==> Precedes(demand, order[p], order[q]))
  }

  /** Places index `k` among indices already in order. */
  function Insert(demand: seq<nat>, order: seq<nat>, k: nat): (r: seq<nat>)
    requires k < |demand| && Ordered(demand, order) && k !in order
    ensures Ordered(demand, r) && |r| == |order| + 1
    ensures forall i :: i in r <==> i == k || i in order
  {
    if order == [] then [k]
    else if Precedes(demand, k, order[0]) then [k] + order
    else
      var rest := Insert(demand, order[1..], k);
      assert forall x :: x in rest ==> x < |demand| && Precedes(demand, order[0], x);
      [order[0]] + rest
  }

  /** The first `k` indices by falling demand, ties by position. */
  function Order(demand: seq<nat>, k: nat): (r: seq<nat>)
    requires k <= |demand|
    ensures Ordered(demand, r) && |r| == k
    ensures forall i :: i in r <==> 0 <= i < k
  {
    if k == 0 then [] else Insert(demand, Order(demand, k - 1), k - 1)
  }

  lemma RankAt(demand: seq<nat>, q: nat)
    requires q < |demand|
    ensures var order := Order(demand, |demand|);
            order[q] < |demand| && Rank(demand, order[q]) == q
  {
    var order := Order(demand, |demand|);
    var i, first := order[q], order[..q];
    forall j: nat | j < |demand|
      ensures j in Ahead(demand, i) <==> j in first
    {
      assert j in order;
    }
    assert Ahead(demand, i) == SetOf(first);
    DistinctSize(demand, first);
  }

  /** The pool in position `p` of the order has exactly `p` pools ahead of it, and no other does. */
  lemma PositionIsRank(demand: seq<nat>, p: nat)
    requires p < |demand|
    ensures var order := Order(demand, |demand|);
            && order[p] < |demand| && Rank(demand, order[p]) == p
            && forall i: nat :: i < |demand| && Rank(demand, i) == p ==> i == order[p]
  {
    var order := Order(demand, |demand|);
    RankAt(demand, p);
    forall i: nat | i < |demand| && Rank(demand, i) == p
      ensures i == order[p]
    {
      assert i in order;
      var q :| 0 <= q < |order| && order[q] == i;
      RankAt(demand, q);
    }
  }

  function SetOf(s: seq<nat>): set<nat>
  {
    set x | x in s
  }

  lemma {:induction false} DistinctSize(demand: seq<nat>, s: seq<nat>)
    requires Ordered(demand, s)
    ensures |SetOf(s)| == |s|
  {
    if s != [] {
      var n := |s| - 1;
      DistinctSize(demand, s[..n]);
      assert SetOf(s) == SetOf(s[..n]) + {s[n]};
      assert s[n] !in s[..n];
    }
  }

  // ---------- nothing lost, nothing invented ----------

  lemma {:induction false} SumUpdate(s: seq<nat>, i: nat, v: nat)
    requires i < |s|
    ensures Sum(s[i := v]) + s[i] == Sum(s) + v
  {
    if i == 0 {
      assert s[0 := v][1..] == s[1..];
    } else {
      assert s[i := v][1..] == s[1..][i - 1 := v];
      SumUpdate(s[1..], i - 1, v);
    }
  }

  lemma {:induction false} SumConstant(s: seq<nat>, v: nat)
    requires forall i :: 0 <= i < |s| ==> s[i] == v
    ensures Sum(s) == |s| * v
  {
    if s != [] {
      SumConstant(s[1..], v);
    }
  }

  /** The shares once `handed` extra connections have gone out over a floor of `base`. */
  function Handed(base: nat, demand: seq<nat>, handed: nat): seq<nat>
  {
    seq(|demand|, i requires 0 <= i < |demand| => base + if Rank(demand, i) < handed then 1 else 0)
  }

  lemma HandTo(base: nat, demand: seq<nat>, handed: nat, i: nat)
    requires i < |demand| && Rank(demand, i) == handed
    requires forall j: nat :: j < |demand| && Rank(demand, j) == handed ==> j == i
    ensures Handed(base, demand, handed)[i] == base
    ensures Handed(base, demand, handed + 1) == Handed(base, demand, handed)[i := base + 1]
  {
  }

  lemma HandOne(base: nat, demand: seq<nat>, handed: nat)
    requires handed < |demand|
    ensures var i := Order(demand, |demand|)[handed];
            && i < |demand|
            && Handed(base, demand, handed)[i] == base
            && Handed(base, demand, handed + 1) == Handed(base, demand, handed)[i := base + 1]
  {
    PositionIsRank(demand, handed);
    HandTo(base, demand, handed, Order(demand, |demand|)[handed]);
  }

  lemma {:induction false} HandedSum(base: nat, demand: seq<nat>, handed: nat)
    requires handed <= |demand|
    ensures Sum(Handed(base, demand, handed)) == |demand| * base + handed
  {
    if handed == 0 {
      SumConstant(Handed(base, demand, 0), base);
    } else {
      HandedSum(base, demand, handed - 1);
      HandOne(base, demand, handed - 1);
      var i := Order(demand, |demand|)[handed - 1];
      SumUpdate(Handed(base, demand, handed - 1), i, base + 1);
    }
  }

  /** Every connection allowed is handed to some pool, and no more. */
  lemma SharesSumToTotal(total: nat, demand: seq<nat>)
    requires demand != []
    ensures Sum(AllShares(total, demand)) == total
  {
    HandedSum(total / |demand|, demand, total % |demand|);
    assert AllShares(total, demand) == Handed(total / |demand|, demand, total % |demand|);
    assert total / |demand| * |demand| + total % |demand| == total;
  }

  // ---------- no paradoxes ----------

  lemma OneMore(total: nat, n: nat)
    requires n > 0
    ensures if total % n == n - 1
            then (total + 1) / n == total / n + 1 && (total + 1) % n == 0
            else (total + 1) / n == total / n && (total + 1) % n == total % n + 1
  {
    var q, r := total / n, total % n;
    assert total == q * n + r;
    if r == n - 1 {
      assert total + 1 == (q + 1) * n;
      Quotient(total + 1, n, q + 1, 0);
    } else {
      Quotient(total + 1, n, q, r + 1);
    }
  }

  lemma Quotient(x: nat, n: nat, q: nat, r: nat)
    requires n > 0 && r < n && x == q * n + r
    ensures x / n == q && x % n == r
  {
    var a, b := x / n, x % n;
    assert x == a * n + b && b < n;
    Scale(a + 1, q, n);
    Scale(q + 1, a, n);
  }

  lemma Scale(a: nat, b: nat, n: nat)
    ensures a <= b ==> a * n <= b * n
  {
  }

  lemma RankBelow(demand: seq<nat>, i: nat)
    requires i < |demand|
    ensures Rank(demand, i) < |demand|
  {
    SubsetSize(Ahead(demand, i), Below(|demand|) - {i});
  }

  function Below(n: nat): (s: set<nat>)
    ensures |s| == n && forall j :: j in s <==> 0 <= j < n
  {
    if n == 0 then {} else Below(n - 1) + {n - 1}
  }

  /** A larger allowance never lowers any pool's share. */
  lemma {:induction false} GrowingTotal(total: nat, more: nat, demand: seq<nat>, i: nat)
    requires total <= more && i < |demand|
    ensures ShareOf(total, demand, i) <= ShareOf(more, demand, i)
    decreases more - total
  {
    if total < more {
      OneMore(total, |demand|);
      RankBelow(demand, i);
      GrowingTotal(total + 1, more, demand, i);
    }
  }

  /** More demand at one pool never lowers that pool's share. */
  lemma GrowingDemand(total: nat, demand: seq<nat>, i: nat, more: nat)
    requires i < |demand| && demand[i] <= more
    ensures ShareOf(total, demand, i) <= ShareOf(total, demand[i := more], i)
  {
    SubsetSize(Ahead(demand[i := more], i), Ahead(demand, i));
  }

  /** Two shares differ by at most one, and the larger never sits with the lesser demand. */
  lemma Fair(total: nat, demand: seq<nat>, i: nat, j: nat)
    requires i < |demand| && j < |demand|
    ensures ShareOf(total, demand, i) <= ShareOf(total, demand, j) + 1
    ensures ShareOf(total, demand, i) > ShareOf(total, demand, j) ==> demand[i] >= demand[j]
  {
    if Precedes(demand, j, i) {
      assert Ahead(demand, j) <= Ahead(demand, i);
      SubsetSize(Ahead(demand, j), Ahead(demand, i));
    }
  }

  /** What a split owes the pools, from their demands alone: nobody is two connections ahead of
      anybody, more demand is never given less, and as much demand is not given less for coming
      earlier. */
  ghost predicate ServesInOrder(demand: seq<nat>, shares: seq<nat>)
  {
    && |shares| == |demand|
    && (forall i, j :: 0 <= i < |demand| && 0 <= j < |demand| ==> shares[i] <= shares[j] + 1)
    && (forall i, j :: 0 <= i < |demand| && 0 <= j < |demand| && demand[i] > demand[j] ==> shares[i] >= shares[j])
    && (forall i, j :: 0 <= i < j < |demand| && demand[i] == demand[j] ==> shares[i] >= shares[j])
  }

  lemma SharesServeInOrder(total: nat, demand: seq<nat>)
    ensures ServesInOrder(demand, AllShares(total, demand))
  {
    forall i: nat, j: nat | i < |demand| && j < |demand|
      ensures ShareOf(total, demand, i) <= ShareOf(total, demand, j) + 1
      ensures demand[i] > demand[j] || (demand[i] == demand[j] && i < j) ==>
        ShareOf(total, demand, i) >= ShareOf(total, demand, j)
    {
      Fair(total, demand, i, j);
      if Precedes(demand, i, j) {
        assert Ahead(demand, i) <= Ahead(demand, j);
        SubsetSize(Ahead(demand, i), Ahead(demand, j));
      }
    }
  }

  /** Floor and remainder come to the shares, which keep both halves of the promise. */
  lemma SharesHold(total: nat, demand: seq<nat>)
    requires demand != []
    ensures Handed(total / |demand|, demand, total % |demand|) == AllShares(total, demand)
    ensures Sum(AllShares(total, demand)) == total && ServesInOrder(demand, AllShares(total, demand))
  {
    SharesSumToTotal(total, demand);
    SharesServeInOrder(total, demand);
  }

  lemma {:induction false} SumBelow(a: seq<nat>, b: seq<nat>)
    requires |a| == |b| && forall i :: 0 <= i < |a| ==> a[i] <= b[i]
    ensures Sum(a) <= Sum(b) && (a != b ==> Sum(a) < Sum(b))
  {
    if a != [] {
      SumBelow(a[1..], b[1..]);
      assert a == [a[0]] + a[1..] && b == [b[0]] + b[1..];
    }
  }

  /** A split that gives some pool less than another split gives no pool more. */
  lemma LessAnywhere(demand: seq<nat>, a: seq<nat>, b: seq<nat>, i: nat)
    requires ServesInOrder(demand, a) && ServesInOrder(demand, b) && i < |demand| && a[i] < b[i]
    ensures Sum(a) < Sum(b)
  {
    forall j | 0 <= j < |demand|
      ensures a[j] <= b[j]
    {
      if j != i && (demand[j] > demand[i] || (demand[j] == demand[i] && j < i)) {
        assert b[j] >= b[i] && a[j] <= a[i] + 1;
      } else if j != i {
        assert demand[i] > demand[j] || (demand[i] == demand[j] && i < j);
        assert a[j] <= a[i] && b[i] <= b[j] + 1;
      }
    }
    SumBelow(a, b);
  }

  /** Those promises and the total leave one split and no other. */
  lemma OneSplit(demand: seq<nat>, a: seq<nat>, b: seq<nat>)
    requires ServesInOrder(demand, a) && ServesInOrder(demand, b) && Sum(a) == Sum(b)
    ensures a == b
  {
    if i: nat :| i < |demand| && a[i] != b[i] {
      if a[i] < b[i] {
        LessAnywhere(demand, a, b, i);
      } else {
        LessAnywhere(demand, b, a, i);
      }
    }
  }

  lemma NothingShared(demand: seq<nat>, shares: seq<nat>)
    requires |shares| == |demand| && forall i :: 0 <= i < |shares| ==> shares[i] == 0
    ensures Sum(shares) == 0 && ServesInOrder(demand, shares)
  {
    SumConstant(shares, 0);
  }

  // ---------- the loop ----------

  /** One limit per pool, in the order the demands arrived. */
  method SharesAcrossPools(guaranteed: nat, leased: nat, demand: seq<nat>) returns (shares: seq<nat>)
    ensures |shares| == |demand|
    ensures |demand| <= U32_MAX ==> shares == AllShares(Min(guaranteed + leased, U32_MAX), demand)
    ensures |demand| > U32_MAX ==> forall i :: 0 <= i < |shares| ==> shares[i] == 0
    ensures ServesInOrder(demand, shares)
    ensures Sum(shares) <= guaranteed + leased
    ensures Sum(shares) == Min(guaranteed + leased, U32_MAX)
       <==> (demand != [] && |demand| <= U32_MAX) || guaranteed + leased == 0
  {
    var total := Min(guaranteed + leased, U32_MAX);
    if |demand| > U32_MAX {
      shares := seq(|demand|, _ => 0);
      NothingShared(demand, shares);
      return;
    }
    var count := |demand|;
    if count == 0 {
      return [];
    }
    SharesHold(total, demand);
    shares := HandOut(total / count, total % count, demand);
  }

  /** The remainder goes out whole, one connection each, down the order until it is gone. */
  method HandOut(base: nat, extra: nat, demand: seq<nat>) returns (shares: seq<nat>)
    requires extra < |demand|
    ensures shares == Handed(base, demand, extra)
  {
    shares := seq(|demand|, _ => base);
    var remainder := extra;
    var order := Order(demand, |demand|);
    var next := 0;
    while next < |order| && remainder > 0
      invariant 0 <= remainder && 0 <= next <= |order| && remainder + next == extra
      invariant shares == Handed(base, demand, next)
    {
      HandOne(base, demand, next);
      shares := shares[order[next] := shares[order[next]] + 1];
      remainder := remainder - 1;
      next := next + 1;
    }
  }
}
