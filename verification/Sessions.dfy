/** What a node is serving: the client registry, kept in place, refined against the history of
    every call made to it. */
module Sessions {
  import opened Basics
  import opened Totals

  type ConnId = nat
  type TenantId = string

  datatype ClientState = Idle | Active | Waiting

  datatype Entry = Entry(
    tenant: TenantId,
    node: NodeId,
    state: ClientState,
    since: Time,
    pinned: Option<string>,
    budget: nat,
    closed: bool,
    idle: bool
  )

  const SHED_WINDOW: nat := 60 * SECOND

  // ---------- the history ----------

  /** Every call, whether or not it found a client. */
  datatype Event =
    | Registered(conn: ConnId, tenant: TenantId, node: NodeId, at: Time, budget: nat)
    | StateSet(conn: ConnId, state: ClientState, at: Time)
    | Pinned(conn: ConnId, reason: string)
    | ShedAsked(conn: ConnId, at: Time)
    | IdleAsked(conn: ConnId)
    | Dropped(conn: ConnId)

  type History = seq<Event>

  /** The client's current life began at entry `r`. */
  predicate Begins(log: History, r: nat, conn: ConnId)
  {
    && r < |log| && log[r].Registered? && log[r].conn == conn
    && forall i :: r < i < |log| && log[i].conn == conn ==> !log[i].Registered? && !log[i].Dropped?
  }

  ghost predicate LiveIn(log: History, conn: ConnId)
  {
    exists r: nat :: Begins(log, r, conn)
  }

  /** A life that goes on through an event was there before it. */
  lemma LifeWas(log: History, event: Event, conn: ConnId, r: nat)
    requires Begins(log + [event], r, conn) && r < |log|
    ensures Begins(log, r, conn)
  {
    assert forall i :: 0 <= i < |log| ==> (log + [event])[i] == log[i];
  }

  /** And one there before it goes on, unless the event begins or ends one. */
  lemma LifeGoesOn(log: History, event: Event, conn: ConnId, r: nat)
    requires Begins(log, r, conn) && (event.conn == conn ==> !event.Registered? && !event.Dropped?)
    ensures Begins(log + [event], r, conn)
  {
    assert forall i :: 0 <= i < |log| ==> (log + [event])[i] == log[i];
  }

  lemma LiveStep(log: History, event: Event, conn: ConnId)
    ensures LiveIn(log + [event], conn) <==>
      if event.conn == conn then event.Registered? || (LiveIn(log, conn) && !event.Dropped?) else LiveIn(log, conn)
  {
    var more := log + [event];
    assert more[|log|] == event;
    if event.conn == conn && event.Registered? {
      assert Begins(more, |log|, conn);
    } else {
      if r: nat :| Begins(more, r, conn) {
        LifeWas(log, event, conn, r);
      }
      if LiveIn(log, conn) && !(event.conn == conn && event.Dropped?) {
        var r: nat :| Begins(log, r, conn);
        LifeGoesOn(log, event, conn, r);
      }
    }
  }

  /** What the entry for a client must say, given where its life began (`r`) and where its state
      last really changed (`k`). */
  ghost predicate EntryOk(log: History, conn: ConnId, e: Entry, r: nat, k: nat)
  {
    && Begins(log, r, conn) && r <= k < |log| && log[k].conn == conn
    && e.tenant == log[r].tenant && e.node == log[r].node && e.budget == log[r].budget
    && LastChange(log, conn, e, r, k)
    && (e.closed <==> exists i :: AskedToLeave(log, r, i, conn))
    && (e.idle <==> exists i :: AskedForIdling(log, r, i, conn))
    && (match e.pinned
        case None => forall i :: r < i < |log| && log[i].conn == conn ==> !log[i].Pinned?
        case Some(reason) => exists i :: LastPin(log, r, i, conn, reason))
  }

  /** Entry `k` put the client in its state, from a different one unless it is the registration,
      and nothing since has put it in another. */
  ghost predicate LastChange(log: History, conn: ConnId, e: Entry, r: nat, k: nat)
    requires r <= k < |log| && log[r].Registered?
  {
    && (if k == r then e.state == Idle && e.since == log[r].at
        else log[k].StateSet? && log[k].state == e.state && log[k].at == e.since
             && StateAt(log, r, k, conn) != e.state)
    && forall i :: k < i < |log| && log[i].conn == conn && log[i].StateSet? ==> log[i].state == e.state
  }

  /** The client's state just before entry `k` of the log. */
  ghost function StateAt(log: History, r: nat, k: nat, conn: ConnId): ClientState
    requires r < k <= |log|
  {
    if k == r + 1 then Idle
    else if log[k - 1].conn == conn && log[k - 1].StateSet? then log[k - 1].state
    else StateAt(log, r, k - 1, conn)
  }

  ghost predicate AskedToLeave(log: History, r: nat, i: int, conn: ConnId)
  {
    r < i < |log| && log[i].conn == conn && (log[i].ShedAsked? || log[i].IdleAsked?)
  }

  ghost predicate AskedForIdling(log: History, r: nat, i: int, conn: ConnId)
  {
    r < i < |log| && log[i].conn == conn && log[i].IdleAsked?
  }

  ghost predicate LastPin(log: History, r: nat, i: int, conn: ConnId, reason: string)
  {
    && r < i < |log| && log[i] == Pinned(conn, reason)
    && forall j :: i < j < |log| && log[j].conn == conn ==> !log[j].Pinned?
  }

  // ---------- counting over the history ----------

  /** Calls of one kind that found a live client. */
  datatype Kind = Pins | Sheds | IdleCloses

  predicate IsKind(event: Event, kind: Kind)
  {
    match kind
    case Pins => event.Pinned?
    case Sheds => event.ShedAsked?
    case IdleCloses => event.IdleAsked?
  }

  ghost function Hits(log: History, kind: Kind): nat
  {
    if log == [] then 0
    else
      var n := |log| - 1;
      Hits(log[..n], kind) + if IsKind(log[n], kind) && LiveIn(log[..n], log[n].conn) then 1 else 0
  }

  /** The tenant a live client was registered under. */
  ghost function TenantIn(log: History, conn: ConnId): TenantId
    requires LiveIn(log, conn)
  {
    var r: nat :| Begins(log, r, conn);
    log[r].tenant
  }

  /** When each successful shed of a tenant happened, oldest first, nothing forgotten. */
  ghost function ShedTimes(log: History, tenant: TenantId): seq<Time>
  {
    if log == [] then []
    else
      var n := |log| - 1;
      ShedTimes(log[..n], tenant) +
        if log[n].ShedAsked? && LiveIn(log[..n], log[n].conn) && TenantIn(log[..n], log[n].conn) == tenant
        then [log[n].at] else []
  }

  function CountWithin(times: seq<Time>, now: Time): nat
  {
    if times == [] then 0
    else (if Less(now, times[0]) <= SHED_WINDOW then 1 else 0) + CountWithin(times[1..], now)
  }

  predicate Ascending(times: seq<Time>, clock: Time)
  {
    && (forall i, j :: 0 <= i < j < |times| ==> times[i] <= times[j])
    && (forall i :: 0 <= i < |times| ==> times[i] <= clock)
  }

  /** Entries already outside the window count for nothing, now and later. */
  lemma {:induction false} StaleCountsNothing(times: seq<Time>, d: nat, now: Time)
    requires d <= |times| && forall i :: 0 <= i < d ==> Less(now, times[i]) > SHED_WINDOW
    ensures CountWithin(times, now) == CountWithin(times[d..], now)
  {
    if d > 0 {
      StaleCountsNothing(times[1..], d - 1, now);
      assert times[1..][d - 1..] == times[d..];
    } else {
      assert times[0..] == times;
    }
  }

  lemma {:induction false} FreshCountsAll(times: seq<Time>, now: Time)
    requires forall i :: 0 <= i < |times| ==> Less(now, times[i]) <= SHED_WINDOW
    ensures CountWithin(times, now) == |times|
  {
    if times != [] {
      FreshCountsAll(times[1..], now);
    }
  }

  /** The entries no older than sixty seconds. */
  ghost function InWindow(times: seq<Time>, now: Time): set<int>
  {
    set i | 0 <= i < |times| && now <= times[i] + 60 * SECOND
  }

  lemma {:induction false} CountWithinAppend(times: seq<Time>, t: Time, now: Time)
    ensures CountWithin(times + [t], now) == CountWithin(times, now) + if now <= t + 60 * SECOND then 1 else 0
  {
    if times == [] {
      assert [t][1..] == [];
    } else {
      CountWithinAppend(times[1..], t, now);
      assert (times + [t])[1..] == times[1..] + [t];
    }
  }

  lemma InWindowMore(times: seq<Time>, n: nat, now: Time)
    requires |times| == n + 1
    ensures |InWindow(times, now)| == |InWindow(times[..n], now)| + if now <= times[n] + 60 * SECOND then 1 else 0
  {
    assert InWindow(times, now) == InWindow(times[..n], now) + if now <= times[n] + 60 * SECOND then {n} else {};
  }

  lemma {:induction false} CountWithinIs(times: seq<Time>, now: Time)
    ensures CountWithin(times, now) == |InWindow(times, now)|
  {
    if times != [] {
      var n := |times| - 1;
      CountWithinIs(times[..n], now);
      assert times == times[..n] + [times[n]];
      CountWithinAppend(times[..n], times[n], now);
      InWindowMore(times, n, now);
    }
  }

  // ---------- one entry through one event ----------

  lemma Prefix(log: History, event: Event)
    ensures (log + [event])[..|log|] == log
    ensures forall i :: 0 <= i < |log| ==> (log + [event])[i] == log[i]
  {
  }

  lemma {:induction false} StateAtPrefix(log: History, event: Event, r: nat, k: nat, conn: ConnId)
    requires r < k <= |log|
    ensures StateAt(log + [event], r, k, conn) == StateAt(log, r, k, conn)
  {
    if k > r + 1 {
      StateAtPrefix(log, event, r, k - 1, conn);
    }
  }

  /** Nothing has changed the state since `k`, so it is still the entry's. */
  lemma {:induction false} StateStands(log: History, conn: ConnId, e: Entry, r: nat, k: nat, j: nat)
    requires EntryOk(log, conn, e, r, k) && k < j <= |log|
    ensures StateAt(log, r, j, conn) == e.state
  {
    if j > k + 1 {
      StateStands(log, conn, e, r, k, j - 1);
    }
  }

  /** What an event about this client makes of its entry. */
  function Apply(e: Entry, event: Event): Entry
  {
    match event
    case StateSet(_, state, at) => if e.state != state then e.(state := state, since := at) else e
    case Pinned(_, reason) => e.(pinned := Some(reason))
    case ShedAsked(_, _) => e.(closed := true)
    case IdleAsked(_) => e.(closed := true, idle := true)
    case _ => e
  }

  /** An entry stays true through any event that does not begin or end a life: another client's
      leaves it alone, its own is applied. */
  lemma EntryStep(log: History, event: Event, conn: ConnId, e: Entry, r: nat, k: nat)
    requires EntryOk(log, conn, e, r, k)
    requires event.conn == conn ==> !event.Registered? && !event.Dropped?
    ensures var after := if event.conn == conn then Apply(e, event) else e;
            var changed := event.conn == conn && event.StateSet? && event.state != e.state;
            EntryOk(log + [event], conn, after, r, if changed then |log| else k)
  {
    var more := log + [event];
    var after := if event.conn == conn then Apply(e, event) else e;
    Prefix(log, event);
    StateStands(log, conn, e, r, k, |log|);
    StateAtPrefix(log, event, r, |log|, conn);
    if k > r { StateAtPrefix(log, event, r, k, conn); }
    LeaveStep(log, event, conn, r);
    PinStep(log, event, conn, e, r, k);
  }

  lemma LeaveStep(log: History, event: Event, conn: ConnId, r: nat)
    requires r < |log|
    ensures var more := log + [event];
            && ((exists i :: AskedToLeave(more, r, i, conn)) <==>
                  (exists i :: AskedToLeave(log, r, i, conn)) || (event.conn == conn
                    && (event.ShedAsked? || event.IdleAsked?)))
            && ((exists i :: AskedForIdling(more, r, i, conn)) <==>
                  (exists i :: AskedForIdling(log, r, i, conn)) || (event.conn == conn && event.IdleAsked?))
  {
    var more := log + [event];
    if i :| AskedToLeave(more, r, i, conn) { assert i == |log| || AskedToLeave(log, r, i, conn); }
    if i :| AskedForIdling(more, r, i, conn) { assert i == |log| || AskedForIdling(log, r, i, conn); }
    if i :| AskedToLeave(log, r, i, conn) { assert AskedToLeave(more, r, i, conn); }
    if i :| AskedForIdling(log, r, i, conn) { assert AskedForIdling(more, r, i, conn); }
    if event.conn == conn && (event.ShedAsked? || event.IdleAsked?) { assert AskedToLeave(more, r, |log|, conn); }
    if event.conn == conn && event.IdleAsked? { assert AskedForIdling(more, r, |log|, conn); }
  }

  lemma PinStep(log: History, event: Event, conn: ConnId, e: Entry, r: nat, k: nat)
    requires EntryOk(log, conn, e, r, k)
    ensures var more := log + [event];
            if event.conn == conn && event.Pinned? then LastPin(more, r, |log|, conn, event.reason)
            else match e.pinned
                 case None => forall i :: r < i < |more| && more[i].conn == conn ==> !more[i].Pinned?
                 case Some(reason) => exists i :: LastPin(more, r, i, conn, reason)
  {
    var more := log + [event];
    if e.pinned.Some? && !(event.conn == conn && event.Pinned?) {
      var i :| LastPin(log, r, i, conn, e.pinned.value);
      assert LastPin(more, r, i, conn, e.pinned.value);
    }
  }

  /** A registration makes a client idle from that moment, unpinned, with nothing fired. */
  lemma EntryBegins(log: History, event: Event)
    requires event.Registered?
    ensures EntryOk(log + [event], event.conn,
                    Entry(event.tenant, event.node, Idle, event.at, None, event.budget, false, false), |log|, |log|)
  {
    var more := log + [event];
    assert more[|log|] == event;
  }

  // ---------- the whole table through one event ----------

  ghost predicate Faithful(log: History, conn: ConnId, e: Entry)
  {
    exists r: nat, k: nat :: EntryOk(log, conn, e, r, k)
  }

  /** A client is in the table exactly when it is registered and not dropped, and its entry is what
      its own history says. */
  ghost predicate ConnOk(live: map<ConnId, Entry>, log: History, conn: ConnId)
  {
    && (conn in live <==> LiveIn(log, conn))
    && (conn in live ==> Faithful(log, conn, live[conn]))
  }

  ghost predicate LiveOk(live: map<ConnId, Entry>, log: History)
  {
    forall conn :: ConnOk(live, log, conn)
  }

  function After(live: map<ConnId, Entry>, event: Event): map<ConnId, Entry>
  {
    match event
    case Registered(conn, tenant, node, at, budget) =>
      live[conn := Entry(tenant, node, Idle, at, None, budget, false, false)]
    case Dropped(conn) => live - {conn}
    case _ => if event.conn in live then live[event.conn := Apply(live[event.conn], event)] else live
  }

  lemma ConnKeeps(live: map<ConnId, Entry>, log: History, event: Event, conn: ConnId)
    requires ConnOk(live, log, conn)
    ensures ConnOk(After(live, event), log + [event], conn)
  {
    LiveStep(log, event, conn);
    if event.conn == conn && event.Registered? {
      EntryBegins(log, event);
    } else if conn in After(live, event) {
      var r: nat, k: nat :| EntryOk(log, conn, live[conn], r, k);
      EntryStep(log, event, conn, live[conn], r, k);
    }
  }

  lemma LiveKeeps(live: map<ConnId, Entry>, log: History, event: Event)
    requires LiveOk(live, log)
    ensures LiveOk(After(live, event), log + [event])
  {
    var after, more := After(live, event), log + [event];
    forall conn
      ensures ConnOk(after, more, conn)
    {
      assert ConnOk(live, log, conn);
      ConnKeeps(live, log, event, conn);
    }
  }

  lemma OneLife(log: History, r: nat, s: nat, conn: ConnId)
    requires Begins(log, r, conn) && Begins(log, s, conn)
    ensures r == s
  {
  }

  /** The tenant in the table is the tenant in the history. */
  lemma TenantAgrees(live: map<ConnId, Entry>, log: History, conn: ConnId)
    requires ConnOk(live, log, conn) && conn in live
    ensures LiveIn(log, conn) && TenantIn(log, conn) == live[conn].tenant
  {
    var r: nat, k: nat :| EntryOk(log, conn, live[conn], r, k);
    var s: nat :| Begins(log, s, conn) && TenantIn(log, conn) == log[s].tenant;
    OneLife(log, r, s, conn);
  }

  /** What a client in the table looks like, read off the history with no table in sight. */
  lemma HistoryOf(live: map<ConnId, Entry>, log: History, conn: ConnId, r: nat)
    requires ConnOk(live, log, conn) && Begins(log, r, conn)
    ensures conn in live
    ensures live[conn].state == StateAt(log, r, |log|, conn)
    ensures exists k: nat :: r <= k < |log| && LastChange(log, conn, live[conn], r, k)
    ensures live[conn].closed <==> exists i :: AskedToLeave(log, r, i, conn)
    ensures live[conn].idle <==> exists i :: AskedForIdling(log, r, i, conn)
  {
    assert LiveIn(log, conn);
    var s: nat, k: nat :| EntryOk(log, conn, live[conn], s, k);
    OneLife(log, r, s, conn);
    StateStands(log, conn, live[conn], r, k, |log|);
  }

  // ---------- the registry as a value ----------

  datatype Tables = Tables(
    live: map<ConnId, Entry>,
    recent: map<TenantId, seq<Time>>,
    pins: nat,
    sheds: nat,
    idleTimeouts: nat
  )

  function Moved(t: Tables, event: Event): Tables
  {
    var hit := event.conn in t.live;
    Tables(After(t.live, event),
           if event.ShedAsked? && hit
           then t.recent[t.live[event.conn].tenant := Queue(t.recent, t.live[event.conn].tenant) + [event.at]]
           else t.recent,
           t.pins + (if event.Pinned? && hit then 1 else 0),
           t.sheds + (if event.ShedAsked? && hit then 1 else 0),
           t.idleTimeouts + (if event.IdleAsked? && hit then 1 else 0))
  }

  /** Only sheds and readings carry a time the queues are trimmed by. */
  function ClockAfter(clock: Time, event: Event): Time
  {
    if event.ShedAsked? then event.at else clock
  }

  /** Everything the registry holds is what its history says it should hold. */
  ghost predicate Agrees(t: Tables, log: History, clock: Time)
  {
    && LiveOk(t.live, log)
    && RecentOk(t.recent, log, clock)
    && CountersOk(t, log)
  }

  lemma HitsStep(log: History, event: Event, kind: Kind)
    ensures Hits(log + [event], kind)
         == Hits(log, kind) + if IsKind(event, kind) && LiveIn(log, event.conn) then 1 else 0
  {
    Prefix(log, event);
  }

  ghost predicate CountersOk(t: Tables, log: History)
  {
    t.pins == Hits(log, Pins) && t.sheds == Hits(log, Sheds) && t.idleTimeouts == Hits(log, IdleCloses)
  }

  lemma CountersKeep(t: Tables, log: History, event: Event)
    requires LiveOk(t.live, log) && CountersOk(t, log)
    ensures CountersOk(Moved(t, event), log + [event])
  {
    assert ConnOk(t.live, log, event.conn);
    HitsStep(log, event, Pins);
    HitsStep(log, event, Sheds);
    HitsStep(log, event, IdleCloses);
  }

  /** One call keeps the registry and its history in step. */
  lemma TablesKeep(t: Tables, log: History, clock: Time, event: Event)
    requires Agrees(t, log, clock)
    requires event.ShedAsked? ==> clock <= event.at
    ensures Agrees(Moved(t, event), log + [event], ClockAfter(clock, event))
  {
    LiveKeeps(t.live, log, event);
    QueuesKeep(t, log, clock, event);
    CountersKeep(t, log, event);
  }

  // ---------- the shed queues ----------

  function Queue(recent: map<TenantId, seq<Time>>, tenant: TenantId): seq<Time>
  {
    if tenant in recent then recent[tenant] else []
  }

  /** A queue is the full history less some entries at its front that have already left the
      window. */
  ghost predicate QueueOk(queue: seq<Time>, times: seq<Time>, clock: Time)
  {
    && |queue| <= |times| && queue == times[|times| - |queue|..]
    && Ascending(times, clock)
    && forall i :: 0 <= i < |times| - |queue| ==> Less(clock, times[i]) > SHED_WINDOW
  }

  ghost predicate TenantOk(recent: map<TenantId, seq<Time>>, log: History, clock: Time, tenant: TenantId)
  {
    QueueOk(Queue(recent, tenant), ShedTimes(log, tenant), clock)
  }

  ghost predicate RecentOk(recent: map<TenantId, seq<Time>>, log: History, clock: Time)
  {
    forall tenant :: TenantOk(recent, log, clock, tenant)
  }

  /** How one event extends one tenant's shed history. */
  lemma ShedTimesStep(log: History, event: Event, tenant: TenantId)
    ensures ShedTimes(log + [event], tenant) == ShedTimes(log, tenant) +
      if event.ShedAsked? && LiveIn(log, event.conn) && TenantIn(log, event.conn) == tenant
      then [event.at] else []
  {
    Prefix(log, event);
  }

  lemma QueueKeeps(t: Tables, log: History, clock: Time, event: Event, tenant: TenantId)
    requires TenantOk(t.recent, log, clock, tenant) && ConnOk(t.live, log, event.conn)
    requires event.ShedAsked? ==> clock <= event.at
    ensures TenantOk(Moved(t, event).recent, log + [event], ClockAfter(clock, event), tenant)
  {
    var queue, times := Queue(t.recent, tenant), ShedTimes(log, tenant);
    ShedTimesStep(log, event, tenant);
    if event.ShedAsked? {
      Pushed(queue, times, clock, event.at);
      if event.conn in t.live {
        TenantAgrees(t.live, log, event.conn);
        PushedQueue(t, event, tenant);
      }
    }
  }

  lemma PushedQueue(t: Tables, event: Event, tenant: TenantId)
    requires event.ShedAsked? && event.conn in t.live
    ensures Queue(Moved(t, event).recent, tenant)
         == Queue(t.recent, tenant) + if t.live[event.conn].tenant == tenant then [event.at] else []
  {
  }

  lemma QueuesKeep(t: Tables, log: History, clock: Time, event: Event)
    requires RecentOk(t.recent, log, clock) && LiveOk(t.live, log)
    requires event.ShedAsked? ==> clock <= event.at
    ensures RecentOk(Moved(t, event).recent, log + [event], ClockAfter(clock, event))
  {
    var recent, more, at := Moved(t, event).recent, log + [event], ClockAfter(clock, event);
    assert ConnOk(t.live, log, event.conn);
    forall tenant
      ensures TenantOk(recent, more, at, tenant)
    {
      assert TenantOk(t.recent, log, clock, tenant);
      QueueKeeps(t, log, clock, event, tenant);
    }
  }

  lemma Pushed(queue: seq<Time>, times: seq<Time>, clock: Time, now: Time)
    requires QueueOk(queue, times, clock) && clock <= now
    ensures QueueOk(queue, times, now) && QueueOk(queue + [now], times + [now], now)
  {
    var d := |times| - |queue|;
    assert (times + [now])[d..] == times[d..] + [now];
  }

  /** Trimming stops at the first entry still in the window, and the queue's length is then the
      count over the whole history. */
  lemma TrimmedCounts(queue: seq<Time>, times: seq<Time>, now: Time)
    requires QueueOk(queue, times, now)
    requires queue != [] ==> Less(now, queue[0]) <= SHED_WINDOW
    ensures |queue| == CountWithin(times, now)
  {
    var d := |times| - |queue|;
    StaleCountsNothing(times, d, now);
    forall i | 0 <= i < |queue|
      ensures Less(now, queue[i]) <= SHED_WINDOW
    {
      assert queue[i] == times[d + i] && queue[0] == times[d];
    }
    FreshCountsAll(queue, now);
  }

  /** Pops from the front while the front is outside the window. */
  method TrimFront(queue: seq<Time>, ghost times: seq<Time>, now: Time) returns (rest: seq<Time>)
    requires QueueOk(queue, times, now)
    ensures QueueOk(rest, times, now)
    ensures rest != [] ==> Less(now, rest[0]) <= SHED_WINDOW
  {
    rest := queue;
    while rest != [] && Less(now, rest[0]) > SHED_WINDOW
      invariant QueueOk(rest, times, now)
    {
      Trimmed(rest, times, now);
      rest := rest[1..];
    }
  }

  lemma Trimmed(queue: seq<Time>, times: seq<Time>, now: Time)
    requires QueueOk(queue, times, now) && queue != [] && Less(now, queue[0]) > SHED_WINDOW
    ensures QueueOk(queue[1..], times, now)
  {
    var d := |times| - |queue|;
    assert times[d] == queue[0];
    assert queue[1..] == times[d + 1..];
  }

  lemma TrimmedOk(recent: map<TenantId, seq<Time>>, log: History, clock: Time, tenant: TenantId, queue: seq<Time>)
    requires RecentOk(recent, log, clock)
    requires QueueOk(queue, ShedTimes(log, tenant), clock)
    ensures RecentOk(recent[tenant := queue], log, clock)
  {
    var after := recent[tenant := queue];
    forall other
      ensures TenantOk(after, log, clock, other)
    {
      assert TenantOk(recent, log, clock, other);
    }
  }

  /** Time passing takes nothing into a window. */
  lemma LaterAgrees(t: Tables, log: History, clock: Time, now: Time, tenant: TenantId)
    requires Agrees(t, log, clock) && clock <= now
    ensures Agrees(t, log, now) && QueueOk(Queue(t.recent, tenant), ShedTimes(log, tenant), now)
  {
    forall other
      ensures TenantOk(t.recent, log, now, other)
    {
      assert TenantOk(t.recent, log, clock, other);
    }
    assert TenantOk(t.recent, log, now, tenant);
  }

  /** A trimmed queue agrees with the history as well as the longer one did, and counts it. */
  lemma TrimmedAgrees(t: Tables, log: History, now: Time, tenant: TenantId, queue: seq<Time>)
    requires Agrees(t, log, now) && QueueOk(queue, ShedTimes(log, tenant), now)
    requires queue != [] ==> Less(now, queue[0]) <= SHED_WINDOW
    ensures Agrees(t.(recent := t.recent[tenant := queue]), log, now)
    ensures |queue| == CountWithin(ShedTimes(log, tenant), now)
  {
    TrimmedOk(t.recent, log, now, tenant, queue);
    TrimmedCounts(queue, ShedTimes(log, tenant), now);
  }

  // ---------- counts per tenant ----------

  predicate Counts(e: Entry, activeOnly: bool)
  {
    !activeOnly || e.state == ClientState.Active
  }

  /** Which of some clients are counted: all of them, or those holding an upstream connection. */
  ghost function Counted(live: map<ConnId, Entry>, among: set<ConnId>, activeOnly: bool): set<ConnId>
  {
    set conn | conn in among && conn in live && Counts(live[conn], activeOnly)
  }

  ghost function Clients(live: map<ConnId, Entry>, among: set<ConnId>, tenant: TenantId, activeOnly: bool): set<ConnId>
  {
    set conn | conn in Counted(live, among, activeOnly) && live[conn].tenant == tenant
  }

  ghost predicate CountOf(counts: map<TenantId, nat>, live: map<ConnId, Entry>, among: set<ConnId>,
                          tenant: TenantId, activeOnly: bool)
  {
    if tenant in counts then counts[tenant] == |Clients(live, among, tenant, activeOnly)| > 0
    else Clients(live, among, tenant, activeOnly) == {}
  }

  /** A table of counts that says of each tenant exactly how many of its clients are counted, and
      names no tenant that has none. */
  ghost predicate CountsOf(counts: map<TenantId, nat>, live: map<ConnId, Entry>, among: set<ConnId>, activeOnly: bool)
  {
    forall tenant :: CountOf(counts, live, among, tenant, activeOnly)
  }

  /** Moving on to one more client adds it to its own tenant's clients and to nobody else's. */
  lemma OneMore(live: map<ConnId, Entry>, among: set<ConnId>, conn: ConnId, tenant: TenantId, activeOnly: bool)
    requires conn in live && conn !in among
    ensures Counted(live, among + {conn}, activeOnly)
         == Counted(live, among, activeOnly) + if Counts(live[conn], activeOnly) then {conn} else {}
    ensures Clients(live, among + {conn}, tenant, activeOnly)
         == Clients(live, among, tenant, activeOnly)
          + if Counts(live[conn], activeOnly) && live[conn].tenant == tenant then {conn} else {}
  {
  }

  lemma CountsStep(counts: map<TenantId, nat>, live: map<ConnId, Entry>, among: set<ConnId>, conn: ConnId,
                   activeOnly: bool)
    requires conn in live && conn !in among && CountsOf(counts, live, among, activeOnly)
    ensures CountsOf(if Counts(live[conn], activeOnly) then Bump(counts, live[conn].tenant) else counts,
                     live, among + {conn}, activeOnly)
    ensures |Counted(live, among + {conn}, activeOnly)|
         == |Counted(live, among, activeOnly)| + if Counts(live[conn], activeOnly) then 1 else 0
  {
    var after := if Counts(live[conn], activeOnly) then Bump(counts, live[conn].tenant) else counts;
    var more := among + {conn};
    forall tenant
      ensures CountOf(after, live, more, tenant, activeOnly)
    {
      OneMore(live, among, conn, tenant, activeOnly);
      assert CountOf(counts, live, among, tenant, activeOnly);
    }
    OneMore(live, among, conn, live[conn].tenant, activeOnly);
  }

  /** Both counting loops: over everyone for the client counts, over the active ones for the
      upstream counts. */
  method CountPerTenant(live: map<ConnId, Entry>, activeOnly: bool) returns (counts: map<TenantId, nat>)
    ensures CountsOf(counts, live, live.Keys, activeOnly)
    ensures Total(counts) == |Counted(live, live.Keys, activeOnly)|
  {
    counts := map[];
    var rest := live.Keys;
    assert live.Keys - rest == {};
    while rest != {}
      invariant rest <= live.Keys
      invariant CountsOf(counts, live, live.Keys - rest, activeOnly)
      invariant Total(counts) == |Counted(live, live.Keys - rest, activeOnly)|
      decreases |rest|
    {
      var conn :| conn in rest;
      CountsStep(counts, live, live.Keys - rest, conn, activeOnly);
      assert live.Keys - rest + {conn} == live.Keys - (rest - {conn});
      if Counts(live[conn], activeOnly) {
        BumpTotal(counts, live[conn].tenant);
        counts := Bump(counts, live[conn].tenant);
      }
      rest := rest - {conn};
    }
    assert live.Keys - rest == live.Keys;
  }

  function NumberOf(counts: map<TenantId, nat>, tenant: TenantId): nat
  {
    if tenant in counts then counts[tenant] else 0
  }

  /** A tenant's clients, and those of them with a statement running, who hold an upstream
      connection. */
  ghost function OfTenant(live: map<ConnId, Entry>, tenant: TenantId): set<ConnId>
  {
    set conn | conn in live && live[conn].tenant == tenant
  }

  ghost function BusyOfTenant(live: map<ConnId, Entry>, tenant: TenantId): set<ConnId>
  {
    set conn | conn in live && live[conn].tenant == tenant && live[conn].state == ClientState.Active
  }

  /** What a table of counts says of a tenant is how many clients it has, or how many busy ones. */
  lemma NumberIs(counts: map<TenantId, nat>, live: map<ConnId, Entry>, tenant: TenantId, activeOnly: bool)
    requires CountsOf(counts, live, live.Keys, activeOnly)
    ensures NumberOf(counts, tenant) == if activeOnly then |BusyOfTenant(live, tenant)| else |OfTenant(live, tenant)|
  {
    assert CountOf(counts, live, live.Keys, tenant, activeOnly);
    assert Clients(live, live.Keys, tenant, activeOnly)
        == if activeOnly then BusyOfTenant(live, tenant) else OfTenant(live, tenant);
  }

  // ---------- the registry ----------

  class Registry {
    var live: map<ConnId, Entry>
    var recent: map<TenantId, seq<Time>>
    var pins: nat
    var sheds: nat
    var idleTimeouts: nat

    ghost var log: History
    ghost var clock: Time

    ghost function Contents(): Tables
      reads this
    {
      Tables(live, recent, pins, sheds, idleTimeouts)
    }

    ghost predicate Valid()
      reads this
    {
      Agrees(Contents(), log, clock)
    }

    constructor ()
      ensures Valid() && log == [] && clock == 0
    {
      live, recent, pins, sheds, idleTimeouts := map[], map[], 0, 0, 0;
      log, clock := [], 0;
    }

    method Register(conn: ConnId, tenant: TenantId, node: NodeId, now: Time, budget: nat)
      requires Valid()
      modifies this
      ensures Valid() && clock == old(clock)
      ensures log == old(log) + [Registered(conn, tenant, node, now, budget)]
      ensures Contents() == Moved(old(Contents()), Registered(conn, tenant, node, now, budget))
    {
      ghost var event := Registered(conn, tenant, node, now, budget);
      TablesKeep(Contents(), log, clock, event);
      log, clock := log + [event], ClockAfter(clock, event);
      live := live[conn := Entry(tenant, node, Idle, now, None, budget, false, false)];
      assert live == After(old(live), event);
    }

    /** Dropping a registration. */
    method Drop(conn: ConnId)
      requires Valid()
      modifies this
      ensures Valid() && clock == old(clock)
      ensures log == old(log) + [Dropped(conn)]
      ensures Contents() == Moved(old(Contents()), Dropped(conn))
    {
      ghost var event := Dropped(conn);
      TablesKeep(Contents(), log, clock, event);
      log, clock := log + [event], ClockAfter(clock, event);
      live := live - {conn};
    }

    method SetState(conn: ConnId, state: ClientState, now: Time)
      requires Valid()
      modifies this
      ensures Valid() && clock == old(clock)
      ensures log == old(log) + [StateSet(conn, state, now)]
      ensures Contents() == Moved(old(Contents()), StateSet(conn, state, now))
    {
      ghost var event := StateSet(conn, state, now);
      TablesKeep(Contents(), log, clock, event);
      log, clock := log + [event], ClockAfter(clock, event);
      if conn in live {
        var entry := live[conn];
        if entry.state != state {
          live := live[conn := entry.(state := state, since := now)];
        }
      }
      assert live == After(old(live), event);
    }

    method SetPinned(conn: ConnId, reason: string)
      requires Valid()
      modifies this
      ensures Valid() && clock == old(clock)
      ensures log == old(log) + [Pinned(conn, reason)]
      ensures Contents() == Moved(old(Contents()), Pinned(conn, reason))
    {
      ghost var event := Pinned(conn, reason);
      TablesKeep(Contents(), log, clock, event);
      log, clock := log + [event], ClockAfter(clock, event);
      if conn in live {
        live := live[conn := live[conn].(pinned := Some(reason))];
        pins := pins + 1;
      }
      assert live == After(old(live), event);
    }

    method Shed(conn: ConnId, now: Time) returns (found: bool)
      requires Valid() && clock <= now
      modifies this
      ensures Valid() && clock == now
      ensures log == old(log) + [ShedAsked(conn, now)]
      ensures Contents() == Moved(old(Contents()), ShedAsked(conn, now))
      ensures found <==> LiveIn(old(log), conn)
    {
      ghost var event := ShedAsked(conn, now);
      assert ConnOk(live, log, conn);
      TablesKeep(Contents(), log, clock, event);
      log, clock := log + [event], ClockAfter(clock, event);
      if conn !in live {
        return false;
      }
      var entry := live[conn];
      live := live[conn := entry.(closed := true)];
      sheds := sheds + 1;
      recent := recent[entry.tenant := Queue(recent, entry.tenant) + [now]];
      assert live == After(old(live), event);
      return true;
    }

    method CloseIdle(conn: ConnId) returns (found: bool)
      requires Valid()
      modifies this
      ensures Valid() && clock == old(clock)
      ensures log == old(log) + [IdleAsked(conn)]
      ensures Contents() == Moved(old(Contents()), IdleAsked(conn))
      ensures found <==> LiveIn(old(log), conn)
    {
      ghost var event := IdleAsked(conn);
      assert ConnOk(live, log, conn);
      TablesKeep(Contents(), log, clock, event);
      log, clock := log + [event], ClockAfter(clock, event);
      if conn !in live {
        return false;
      }
      live := live[conn := live[conn].(idle := true)];
      live := live[conn := live[conn].(closed := true)];
      idleTimeouts := idleTimeouts + 1;
      assert live == After(old(live), event);
      return true;
    }

    method WasIdleTimeout(conn: ConnId) returns (yes: bool)
      requires Valid()
      ensures yes <==> exists r: nat, i :: Begins(log, r, conn) && AskedForIdling(log, r, i, conn)
    {
      yes := conn in live && live[conn].idle;
      assert ConnOk(live, log, conn);
      if conn in live {
        ghost var r: nat :| Begins(log, r, conn);
        HistoryOf(live, log, conn, r);
        forall s: nat | Begins(log, s, conn) { OneLife(log, r, s, conn); }
      }
    }

    /** The queue is trimmed on read; the answer is the count over the untrimmed history, and the
        history, which decides every later answer, is untouched. */
    method RecentSheds(tenant: TenantId, now: Time) returns (count: nat)
      requires Valid() && clock <= now
      modifies this
      ensures Valid() && clock == now && log == old(log)
      ensures live == old(live) && pins == old(pins) && sheds == old(sheds) && idleTimeouts == old(idleTimeouts)
      ensures count == Min(CountWithin(ShedTimes(log, tenant), now), U32_MAX)
      ensures count == Min(|InWindow(ShedTimes(log, tenant), now)|, 0xFFFF_FFFF)
    {
      CountWithinIs(ShedTimes(log, tenant), now);
      LaterAgrees(Contents(), log, clock, now, tenant);
      clock := now;
      if tenant !in recent {
        TrimmedCounts([], ShedTimes(log, tenant), now);
        return 0;
      }
      var queue := TrimFront(recent[tenant], ShedTimes(log, tenant), now);
      TrimmedAgrees(Contents(), log, now, tenant, queue);
      recent := recent[tenant := queue];
      return Min(|queue|, U32_MAX);
    }

    method PerTenant() returns (counts: map<TenantId, nat>)
      requires Valid()
      ensures CountsOf(counts, live, live.Keys, false) && Total(counts) == |live.Keys|
      ensures forall tenant :: NumberOf(counts, tenant) == |OfTenant(live, tenant)|
    {
      counts := CountPerTenant(live, false);
      assert Counted(live, live.Keys, false) == live.Keys;
      forall tenant ensures NumberOf(counts, tenant) == |OfTenant(live, tenant)| {
        NumberIs(counts, live, tenant, false);
      }
    }

    method PerTenantUpstream() returns (counts: map<TenantId, nat>)
      requires Valid()
      ensures CountsOf(counts, live, live.Keys, true) && Total(counts) == |Counted(live, live.Keys, true)|
      ensures forall tenant :: NumberOf(counts, tenant) == |BusyOfTenant(live, tenant)|
    {
      counts := CountPerTenant(live, true);
      forall tenant ensures NumberOf(counts, tenant) == |BusyOfTenant(live, tenant)| {
        NumberIs(counts, live, tenant, true);
      }
    }
  }
}
