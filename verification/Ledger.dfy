/** The leader's record of what it has leased out of one server's free pool. */
module Ledger {
  import opened Basics
  import opened Totals

  /** How leases are timed: their life, and the wait after taking office. */
  datatype LeaseConfig = LeaseConfig(ttl: nat, wait: nat)

  datatype Grant = Grant(count: nat, expires: Time)

  datatype Book = Book(pool: nat, grants: map<NodeId, Grant>, office: Option<Time>)

  /** What a leader answers a request with. */
  datatype Answer = Granted(count: nat, expires: Time) | NoLeader | Exhausted

  /** The unexpired grants, by holder. */
  function Live(grants: map<NodeId, Grant>, now: Time): map<NodeId, nat>
  {
    map holder | holder in grants && now < grants[holder].expires :: grants[holder].count
  }

  ghost function Outstanding(grants: map<NodeId, Grant>, now: Time): nat
  {
    Total(Live(grants, now))
  }

  /** The entries of `m` under the given keys. */
  ghost function Only(m: map<NodeId, nat>, keys: set<NodeId>): map<NodeId, nat>
  {
    map h | h in keys && h in m :: m[h]
  }

  predicate CanGrant(config: LeaseConfig, book: Book, now: Time)
  {
    book.office.Some? && now >= book.office.value + config.wait
  }

  /** Office starts on a false-to-true transition and the record is dropped on the way out. */
  function Lead(book: Book, leading: bool, now: Time): Book
  {
    if leading && book.office.None? then book.(office := Some(now))
    else if !leading && book.office.Some? then book.(office := None, grants := map[])
    else book
  }

  function Reap(book: Book, now: Time): Book
  {
    book.(grants := map holder | holder in book.grants && now < book.grants[holder].expires
                      :: book.grants[holder])
  }

  /** A request against the record: a renewal replaces the holder's own grant. */
  ghost function Request(config: LeaseConfig, book: Book, holder: NodeId, want: nat, now: Time): (Book, Answer)
  {
    var others := Outstanding(book.grants - {holder}, now);
    if !CanGrant(config, book, now) then (book, NoLeader)
    else if others >= book.pool then (book, Exhausted)
    else
      var count := Min(want, book.pool - others);
      var expires := now + config.ttl;
      (book.(grants := book.grants[holder := Grant(count, expires)]), Granted(count, expires))
  }

  /** The answer, from the record alone: nothing from a ledger out of office or still waiting; nothing
      while others have all of the pool; and otherwise what was wanted, or what the others leave of it,
      which is something for whoever wants something. */
  lemma AnswerExactly(config: LeaseConfig, book: Book, holder: NodeId, want: nat, now: Time)
    ensures var others := Outstanding(book.grants - {holder}, now);
            var (after, answer) := Request(config, book, holder, want, now);
            && (answer.NoLeader? <==> book.office.None? || now < book.office.value + config.wait)
            && (answer.Exhausted? <==> !answer.NoLeader? && book.pool <= others)
            && (!answer.Granted? ==> after == book)
            && (answer.Granted? ==>
                  && (answer.count == want || answer.count == book.pool - others) && answer.count <= want
                  && answer.count + others <= book.pool && (want > 0 ==> answer.count > 0)
                  && answer.expires == now + config.ttl
                  && after == book.(grants := book.grants[holder := Grant(answer.count, answer.expires)]))
  {
  }

  /** Whatever was outstanding before, a grant leaves no more than the pool outstanding,
      touches no other holder, and never offers more than was wanted. */
  lemma GrantStaysInPool(config: LeaseConfig, book: Book, holder: NodeId, want: nat, now: Time)
    ensures var (after, answer) := Request(config, book, holder, want, now);
            answer.Granted? ==>
              && Outstanding(after.grants, now) <= book.pool
              && answer.count <= want
              && after.grants - {holder} == book.grants - {holder}
              && after.grants[holder] == Grant(answer.count, answer.expires)
  {
    var (after, answer) := Request(config, book, holder, want, now);
    if answer.Granted? {
      LiveWithGrant(book.grants, holder, Grant(answer.count, answer.expires), now);
      assert (after.grants - {holder}).Keys == (book.grants - {holder}).Keys;
    }
  }

  lemma LiveWithGrant(grants: map<NodeId, Grant>, holder: NodeId, grant: Grant, now: Time)
    ensures Outstanding(grants[holder := grant], now)
         == Outstanding(grants - {holder}, now) + if now < grant.expires then grant.count else 0
  {
    var others := Live(grants - {holder}, now);
    assert holder !in others;
    if now < grant.expires {
      assert Live(grants[holder := grant], now) == others[holder := grant.count];
      TotalInsert(others, holder, grant.count);
    } else {
      assert Live(grants[holder := grant], now) == others;
    }
  }

  /** A renewal never comes back below what the holder had on record and wants to keep,
      so long as the record was within the pool. */
  lemma RenewalNeverShrinks(config: LeaseConfig, book: Book, holder: NodeId, want: nat, now: Time, keep: nat)
    requires Outstanding(book.grants, now) <= book.pool
    requires holder in book.grants && now < book.grants[holder].expires
    requires 0 < keep <= book.grants[holder].count && keep <= want
    requires CanGrant(config, book, now)
    ensures var (_, answer) := Request(config, book, holder, want, now);
            answer.Granted? && answer.count >= keep
  {
    var live := Live(book.grants, now);
    TotalRemove(live, holder);
    assert live - {holder} == Live(book.grants - {holder}, now);
  }

  /** Time and housekeeping only ever return capacity. */
  lemma OutstandingShrinks(grants: map<NodeId, Grant>, fewer: map<NodeId, Grant>, now: Time, later: Time)
    requires now <= later
    requires forall h :: h in fewer ==> h in grants && fewer[h] == grants[h]
    ensures Outstanding(fewer, later) <= Outstanding(grants, now)
  {
    TotalMonotone(Live(fewer, later), Live(grants, now));
  }

  /** Reaping is housekeeping: it changes no total and no answer, then or later. */
  lemma ReapChangesNoAnswer(config: LeaseConfig, book: Book, holder: NodeId, want: nat, now: Time, later: Time)
    requires now <= later
    ensures Outstanding(Reap(book, now).grants, later) == Outstanding(book.grants, later)
    ensures Request(config, Reap(book, now), holder, want, later).1 == Request(config, book, holder, want, later).1
  {
    var kept := Reap(book, now).grants;
    assert Live(kept, later) == Live(book.grants, later);
    assert Live(kept - {holder}, later) == Live(book.grants - {holder}, later);
  }

  /** What was reaped once stays reaped. */
  lemma ReapTwice(book: Book, now: Time, later: Time)
    requires now <= later
    ensures Reap(Reap(book, now), later) == Reap(book, later)
  {
    assert Reap(Reap(book, now), later).grants == Reap(book, later).grants;
  }

  /** The ledger as the leader keeps it, updated in place. */
  class LeaseLedger {
    const config: LeaseConfig
    var pool: nat
    var grants: map<NodeId, Grant>
    var office: Option<Time>

    ghost function Value(): Book
      reads this
    {
      Book(pool, grants, office)
    }

    constructor (pool: nat, config: LeaseConfig)
      ensures Value() == Book(pool, map[], None) && this.config == config
    {
      this.config := config;
      this.pool := pool;
      grants := map[];
      office := None;
    }

    method SetPool(pool: nat)
      modifies this
      ensures Value() == old(Value()).(pool := pool)
    {
      this.pool := pool;
    }

    method ObserveLeadership(leading: bool, now: Time)
      modifies this
      ensures Value() == Lead(old(Value()), leading, now)
    {
      match (leading, office) {
        case (true, None) => office := Some(now);
        case (false, Some(_)) =>
          office := None;
          grants := map[];
        case _ =>
      }
    }

    method ReapExpired(now: Time)
      modifies this
      ensures Value() == Reap(old(Value()), now)
    {
      grants := map holder | holder in grants && now < grants[holder].expires :: grants[holder];
    }

    /** Unexpired connections leased to everyone but `holder`. */
    method HeldByOthers(holder: NodeId, now: Time) returns (sum: nat)
      ensures sum == Outstanding(grants - {holder}, now)
    {
      ghost var all := Live(grants - {holder}, now);
      var left := grants.Keys - {holder};
      sum := 0;
      assert Only(all, left) == all;
      while left != {}
        invariant left <= grants.Keys - {holder}
        invariant sum + Total(Only(all, left)) == Total(all)
        decreases left
      {
        ghost var rest := Only(all, left);
        var h :| h in left;
        left := left - {h};
        if now < grants[h].expires {
          TotalRemove(rest, h);
          assert rest - {h} == Only(all, left);
          sum := sum + grants[h].count;
        } else {
          assert rest == Only(all, left);
        }
      }
      assert Only(all, left) == map[];
    }

    method Serve(holder: NodeId, want: nat, now: Time) returns (answer: Answer)
      modifies this
      ensures (Value(), answer) == Request(config, old(Value()), holder, want, now)
    {
      if office.None? || now < office.value + config.wait {
        return NoLeader;
      }
      var others := HeldByOthers(holder, now);
      var available := Less(pool, others);
      if available == 0 {
        return Exhausted;
      }
      var count := Min(want, available);
      var expires := now + config.ttl;
      grants := grants[holder := Grant(count, expires)];
      return Granted(count, expires);
    }
  }
}
