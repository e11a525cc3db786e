/** Totals over finite maps, shared by the ledger, the fleet, the sample printer
    and the load client's tallies. */
module Totals {

  /** The sum of every value in the map, in whatever order the keys are visited. */
  ghost function Total<K>(m: map<K, nat>): (t: nat)
  {
    if m == map[] then 0
    else
      var k :| k in m;
      m[k] + Total(m - {k})
  }

  /** Any key may be the one visited first. */
  lemma {:induction false} TotalRemove<K>(m: map<K, nat>, k: K)
    requires k in m
    ensures Total(m) == m[k] + Total(m - {k})
    decreases |m|
  {
    var first :| first in m && Total(m) == m[first] + Total(m - {first});
    if first != k {
      TotalRemove(m - {first}, k);
      TotalRemove(m - {k}, first);
      assert m - {first} - {k} == m - {k} - {first};
    }
  }

  lemma TotalInsert<K>(m: map<K, nat>, k: K, v: nat)
    requires k !in m
    ensures Total(m[k := v]) == Total(m) + v
  {
    TotalRemove(m[k := v], k);
    assert m[k := v] - {k} == m;
  }

  lemma TotalUpdate<K>(m: map<K, nat>, k: K, v: nat)
    requires k in m
    ensures Total(m[k := v]) + m[k] == Total(m) + v
  {
    TotalRemove(m, k);
    TotalRemove(m[k := v], k);
    assert m[k := v] - {k} == m - {k};
  }

  /** A map dominated key by key has the smaller total; a zero needs no partner. */
  lemma {:induction false} TotalMonotone<K>(a: map<K, nat>, b: map<K, nat>)
    requires forall k :: k in a ==> a[k] == 0 || (k in b && a[k] <= b[k])
    ensures Total(a) <= Total(b)
    decreases |a|
  {
    if a != map[] {
      var k :| k in a;
      TotalRemove(a, k);
      TotalMonotone(a - {k}, b - {k});
      if k in b {
        TotalRemove(b, k);
      } else {
        assert b - {k} == b;
      }
    }
  }

  /** Totals add key by key. */
  lemma {:induction false} TotalSum<K>(a: map<K, nat>, b: map<K, nat>, c: map<K, nat>)
    requires a.Keys == b.Keys == c.Keys
    requires forall k :: k in a ==> c[k] == a[k] + b[k]
    ensures Total(c) == Total(a) + Total(b)
    decreases |a|
  {
    if a != map[] {
      var k :| k in a;
      TotalRemove(a, k);
      TotalRemove(b, k);
      TotalRemove(c, k);
      TotalSum(a - {k}, b - {k}, c - {k});
    } else {
      assert b == map[] && c == map[];
    }
  }

  ghost function Both<K>(a: map<K, nat>, b: map<K, nat>): map<K, nat>
    requires a.Keys == b.Keys
  {
    map k | k in a :: a[k] + b[k]
  }

  lemma TotalBoth<K>(a: map<K, nat>, b: map<K, nat>)
    requires a.Keys == b.Keys
    ensures Total(Both(a, b)) == Total(a) + Total(b)
  {
    assert Both(a, b).Keys == a.Keys;
    TotalSum(a, b, Both(a, b));
  }

  /** A map whose values are all `v` totals its size times `v`. */
  lemma {:induction false} TotalConstant<K>(m: map<K, nat>, v: nat)
    requires forall k :: k in m ==> m[k] == v
    ensures Total(m) == |m| * v
    decreases |m|
  {
    if m != map[] {
      var k :| k in m;
      TotalRemove(m, k);
      TotalConstant(m - {k}, v);
      assert (m - {k}).Keys == m.Keys - {k};
      assert |m - {k}| == |m| - 1;
    }
  }

  /** A map whose values are all at most `v` totals at most its size times `v`. */
  lemma TotalBound<K>(m: map<K, nat>, v: nat)
    requires forall k :: k in m ==> m[k] <= v
    ensures Total(m) <= |m| * v
  {
    var full := map k | k in m :: v;
    TotalMonotone(m, full);
    TotalConstant(full, v);
    assert full.Keys == m.Keys;
    assert |full| == |full.Keys| == |m.Keys| == |m|;
  }

  /** The same value at some keys and nothing elsewhere. */
  lemma TotalAmong<K>(m: map<K, nat>, keys: set<K>, v: nat)
    requires keys <= m.Keys
    requires forall k :: k in m ==> m[k] == if k in keys then v else 0
    ensures Total(m) == |keys| * v
  {
    var same: map<K, nat> := map k | k in keys :: v;
    assert same.Keys == keys;
    TotalMonotone(m, same);
    TotalMonotone(same, m);
    TotalConstant(same, v);
  }

  /** A subset is no larger, and a proper one is smaller. */
  lemma {:induction false} SubsetSize<T>(a: set<T>, b: set<T>)
    requires a <= b
    ensures |a| <= |b|
    ensures a != b ==> |a| < |b|
    decreases a
  {
    if a != {} {
      var x :| x in a;
      SubsetSize(a - {x}, b - {x});
    }
  }

  /** One more under a key, which starts from nothing. */
  function Bump<K>(counts: map<K, nat>, key: K): map<K, nat>
  {
    counts[key := 1 + if key in counts then counts[key] else 0]
  }

  lemma BumpTotal<K>(counts: map<K, nat>, key: K)
    ensures Total(Bump(counts, key)) == Total(counts) + 1
  {
    if key in counts {
      TotalUpdate(counts, key, counts[key] + 1);
    } else {
      TotalInsert(counts, key, 1);
    }
  }
}
