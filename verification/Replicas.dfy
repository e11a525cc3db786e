/** The replica sets a node watches: one generation per primary and ordered replica list,
    shared by the sessions whose grants name that list, polled by a loop that does not keep
    it alive, and evicted once nobody holds it and nobody has asked for a while. */
module Replicas {
  import opened Basics

  datatype Backend = Backend(server: ServerId, database: string, user: string)

  datatype Grant = Grant(primary: Backend, replicas: seq<Backend>)

  /** A generation's key: the primary and the ordered list together. */
  datatype WatchKey = WatchKey(primary: ServerId, replicas: seq<ServerId>)

  function Servers(backends: seq<Backend>): seq<ServerId>
  {
    seq(|backends|, i requires 0 <= i < |backends| => backends[i].server)
  }

  function KeyOf(grant: Grant): WatchKey
  {
    WatchKey(grant.primary.server, Servers(grant.replicas))
  }

  /** A watch is identified by the order it was created in. */
  type WatchId = nat

  datatype Watched = Watched(watch: WatchId, lastUsed: Time)

  const WATCH_GRACE: nat := 60 * SECOND

  // ---------- the lookup, as the registry does it under its lock ----------

  /** Keeps what somebody holds or a grant has asked for within the grace. */
  function Evict(watches: map<WatchKey, Watched>, held: set<WatchId>, now: Time): map<WatchKey, Watched>
  {
    map key | key in watches && (watches[key].watch in held || Less(now, watches[key].lastUsed) < WATCH_GRACE)
      :: watches[key]
  }

  /** The map after a grant with replicas asks at `now`; `next` names a watch made by the call. */
  function Lookup(watches: map<WatchKey, Watched>, key: WatchKey, held: set<WatchId>, next: WatchId, now: Time):
    (r: map<WatchKey, Watched>)
    ensures key in r
  {
    var kept := Evict(watches, held, now);
    kept[key := Watched(if key in kept then kept[key].watch else next, now)]
  }

  class ReplicaSets {
    var watches: map<WatchKey, Watched>
    var next: WatchId

    constructor ()
      ensures watches == map[] && next == 0
    {
      watches := map[];
      next := 0;
    }

    method EvictUnused(held: set<WatchId>, now: Time)
      modifies this`watches
      ensures watches == Evict(old(watches), held, now)
    {
      watches := map key | key in watches
                   && (watches[key].watch in held || Less(now, watches[key].lastUsed) < WATCH_GRACE)
                   :: watches[key];
    }

    /** The watch for a grant's replicas, and whether this call made it and must start its loop. */
    method WatchFor(grant: Grant, held: set<WatchId>, now: Time) returns (watch: Option<WatchId>, made: bool)
      modifies this
      ensures grant.replicas == [] ==> watch.None? && !made && watches == old(watches) && next == old(next)
      ensures grant.replicas != [] ==>
        && watches == Lookup(old(watches), KeyOf(grant), held, old(next), now)
        && watch == Some(watches[KeyOf(grant)].watch)
        && made == (KeyOf(grant) !in Evict(old(watches), held, now))
        && next == old(next) + if made then 1 else 0
    {
      if grant.replicas == [] {
        return None, false;
      }
      var key := KeyOf(grant);
      EvictUnused(held, now);
      if key in watches {
        watches := watches[key := Watched(watches[key].watch, now)];
        return Some(watches[key].watch), false;
      }
      watches := watches[key := Watched(next, now)];
      watch, made := Some(next), true;
      next := next + 1;
    }

    /** The primary a server replicates, visiting the generations in no particular order. */
    method PrimaryOf(server: ServerId) returns (primary: Option<ServerId>)
      ensures primary == SolePrimary(watches.Keys, server)
    {
      var found: Option<ServerId> := None;
      var left := watches.Keys;
      while left != {}
        invariant left <= watches.Keys
        invariant forall key :: key in watches.Keys - left && server in key.replicas ==> found == Some(key.primary)
        invariant found.Some? ==> found.value in Naming(watches.Keys, server)
        decreases left
      {
        var key :| key in left;
        left := left - {key};
        if server in key.replicas {
          assert key.primary in Naming(watches.Keys, server);
          if found.Some? && found.value != key.primary {
            TwoPrimaries(watches.Keys, server, found.value, key.primary);
            return None;
          }
          found := Some(key.primary);
        }
      }
      OnePrimary(watches.Keys, server, found);
      return found;
    }
  }

  /** The primaries some generation names this server a replica of. */
  ghost function Naming(keys: set<WatchKey>, server: ServerId): set<ServerId>
  {
    set key | key in keys && server in key.replicas :: key.primary
  }

  /** The one primary, if exactly one names it. */
  ghost function SolePrimary(keys: set<WatchKey>, server: ServerId): (r: Option<ServerId>)
    ensures forall p :: r == Some(p) <==> Naming(keys, server) == {p}
  {
    if exists p :: Naming(keys, server) == {p} then
      var p :| Naming(keys, server) == {p};
      assert forall q :: {p} == {q} ==> p in {q};
      Some(p)
    else None
  }

  lemma TwoPrimaries(keys: set<WatchKey>, server: ServerId, p: ServerId, q: ServerId)
    requires p in Naming(keys, server) && q in Naming(keys, server) && p != q
    ensures SolePrimary(keys, server) == None
  {
  }

  lemma OnePrimary(keys: set<WatchKey>, server: ServerId, found: Option<ServerId>)
    requires forall key :: key in keys && server in key.replicas ==> found == Some(key.primary)
    requires found.Some? ==> found.value in Naming(keys, server)
    ensures SolePrimary(keys, server) == found
  {
    if found.Some? {
      assert Naming(keys, server) == {found.value};
    } else {
      assert Naming(keys, server) == {};
    }
  }

  // ---------- routing ----------

  datatype RouteTarget = Primary | Replica(index: nat)

  function PrimaryOrOverride(grant: Grant, overrides: map<ServerId, Backend>): Backend
  {
    if grant.primary.server in overrides then overrides[grant.primary.server] else grant.primary
  }

  function BackendFor(grant: Grant, target: RouteTarget, overrides: map<ServerId, Backend>): Backend
  {
    if target.Replica? && target.index < |grant.replicas| then grant.replicas[target.index]
    else PrimaryOrOverride(grant, overrides)
  }
}
