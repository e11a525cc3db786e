/** Whole runs of the replica registry: sessions come and go, loops poll and stop, and what
    index `i` means never drifts between a session's grant and the watch it reads. */
module ReplicaRuns {
  import opened Basics
  import opened Replicas

  type SessionId = nat

  datatype Session = Session(grant: Grant, watch: WatchId)

  /** The registry and everything that refers into it. `origins` remembers the grant each watch
      was made for, which is also the list its loop probes; `loops` are the loops still running
      and `polling` those in the middle of a poll, which holds the watch until it finishes. */
  datatype State = State(
    now: Time,
    watches: map<WatchKey, Watched>,
    next: WatchId,
    origins: map<WatchId, Grant>,
    sessions: map<SessionId, Session>,
    loops: set<WatchId>,
    polling: set<WatchId>
  )

  datatype Event =
    | Advance(span: nat)
    | Ask(session: SessionId, grant: Grant)
    | Leave(session: SessionId)
    | PollTick(watch: WatchId)
    | PollDone(watch: WatchId)

  /** Watches with a reference besides the map's own. */
  function Held(st: State): set<WatchId>
  {
    st.polling + (set s | s in st.sessions :: st.sessions[s].watch)
  }

  predicate InMap(st: State, w: WatchId)
  {
    w in st.origins && KeyOf(st.origins[w]) in st.watches && st.watches[KeyOf(st.origins[w])].watch == w
  }

  /** Some strong reference to the watch exists, so a loop can still upgrade to it. */
  predicate Alive(st: State, w: WatchId)
  {
    InMap(st, w) || w in Held(st)
  }

  function StepAsk(st: State, id: SessionId, grant: Grant): State
  {
    if id in st.sessions || grant.replicas == [] then st
    else
      var key := KeyOf(grant);
      var watches := Lookup(st.watches, key, Held(st), st.next, st.now);
      var joined := st.(watches := watches, sessions := st.sessions[id := Session(grant, watches[key].watch)]);
      if key in Evict(st.watches, Held(st), st.now) then joined
      else joined.(next := st.next + 1, origins := st.origins[st.next := grant], loops := st.loops + {st.next})
  }

  function Step(st: State, event: Event): State
  {
    match event
    case Advance(span) => st.(now := st.now + span)
    case Ask(id, grant) => StepAsk(st, id, grant)
    case Leave(id) => st.(sessions := st.sessions - {id})
    case PollTick(w) =>
      if w !in st.loops || w in st.polling then st
      else if Alive(st, w) then st.(polling := st.polling + {w})
      else st.(loops := st.loops - {w})
    case PollDone(w) => st.(polling := st.polling - {w})
  }

  predicate IsInitial(st: State)
  {
    st.watches == map[] && st.next == 0 && st.origins == map[] && st.sessions == map[] && st.loops == {}
      && st.polling == {}
  }

  predicate IsRun(trace: seq<State>, events: seq<Event>)
  {
    && |trace| == |events| + 1 && IsInitial(trace[0])
    && forall i :: 0 <= i < |events| ==> trace[i + 1] == Step(trace[i], events[i])
  }

  predicate MapOk(st: State)
  {
    forall key :: key in st.watches ==>
      && st.watches[key].watch in st.origins
      && st.watches[key].watch in st.loops
      && KeyOf(st.origins[st.watches[key].watch]) == key
      && st.watches[key].lastUsed <= st.now
  }

  predicate SessionsOk(st: State)
  {
    forall s :: s in st.sessions ==>
      InMap(st, st.sessions[s].watch) && KeyOf(st.sessions[s].grant) == KeyOf(st.origins[st.sessions[s].watch])
  }

  predicate LoopsOk(st: State)
  {
    && (forall w :: w in st.polling ==> InMap(st, w) && w in st.loops)
    && (forall w :: w in st.origins ==> w < st.next)
    && (forall w :: w in st.loops ==> w in st.origins)
  }

  /** Every reference is to the one generation its key names. */
  predicate Inv(st: State)
  {
    MapOk(st) && SessionsOk(st) && LoopsOk(st)
  }

  /** A held generation survives any lookup. */
  lemma HeldSurvives(st: State, key: WatchKey, w: WatchId)
    requires Inv(st) && w in Held(st)
    ensures var watches := Lookup(st.watches, key, Held(st), st.next, st.now);
            && InMap(st, w) && KeyOf(st.origins[w]) in watches
            && watches[KeyOf(st.origins[w])].watch == w
  {
  }

  lemma AskMap(st: State, id: SessionId, grant: Grant)
    requires Inv(st)
    ensures MapOk(StepAsk(st, id, grant))
  {
  }

  /** Whoever held a generation before an ask holds the same one after it. */
  lemma AskKeepsHeld(st: State, id: SessionId, grant: Grant, w: WatchId)
    requires Inv(st) && w in Held(st)
    ensures InMap(StepAsk(st, id, grant), w) && StepAsk(st, id, grant).origins[w] == st.origins[w]
  {
    HeldSurvives(st, KeyOf(grant), w);
  }

  lemma AskSessions(st: State, id: SessionId, grant: Grant)
    requires Inv(st)
    ensures SessionsOk(StepAsk(st, id, grant))
  {
    var b := StepAsk(st, id, grant);
    if b != st {
      AskMap(st, id, grant);
      forall s | s in b.sessions
        ensures InMap(b, b.sessions[s].watch) && KeyOf(b.sessions[s].grant) == KeyOf(b.origins[b.sessions[s].watch])
      {
        if s != id {
          assert st.sessions[s].watch in Held(st);
          AskKeepsHeld(st, id, grant, st.sessions[s].watch);
        }
      }
    }
  }

  lemma AskLoops(st: State, id: SessionId, grant: Grant)
    requires Inv(st)
    ensures LoopsOk(StepAsk(st, id, grant))
  {
    var b := StepAsk(st, id, grant);
    forall w | w in b.polling ensures InMap(b, w) && w in b.loops {
      AskKeepsHeld(st, id, grant, w);
    }
  }

  lemma StepKeeps(st: State, event: Event)
    requires Inv(st)
    ensures Inv(Step(st, event))
  {
    if event.Ask? {
      AskMap(st, event.session, event.grant);
      AskSessions(st, event.session, event.grant);
      AskLoops(st, event.session, event.grant);
    } else if event.PollTick? && event.watch in st.loops && Alive(st, event.watch) {
      assert event.watch in Held(st) ==> InMap(st, event.watch);
    }
  }

  lemma {:induction false} RunKeeps(trace: seq<State>, events: seq<Event>, k: nat)
    requires IsRun(trace, events) && k < |trace|
    ensures Inv(trace[k])
  {
    if k > 0 {
      RunKeeps(trace, events, k - 1);
      StepKeeps(trace[k - 1], events[k - 1]);
    }
  }

  /** At every state of every run, slot `i` of the watch a session reads is probed against the
      server its own grant puts at `i`, which is the server routing to `i` reaches. */
  lemma SlotsAgree(trace: seq<State>, events: seq<Event>, k: nat, s: SessionId, i: nat, overrides: map<ServerId,
                   Backend>)
    requires IsRun(trace, events) && k < |trace| && s in trace[k].sessions
    requires i < |trace[k].sessions[s].grant.replicas|
    ensures var session := trace[k].sessions[s];
            && session.watch in trace[k].origins
            && |trace[k].origins[session.watch].replicas| == |session.grant.replicas|
            && trace[k].origins[session.watch].replicas[i].server == session.grant.replicas[i].server
            && BackendFor(session.grant, Replica(i), overrides).server == session.grant.replicas[i].server
  {
    RunKeeps(trace, events, k);
    var session := trace[k].sessions[s];
    var a, b := session.grant.replicas, trace[k].origins[session.watch].replicas;
    assert Servers(a)[i] == Servers(b)[i] && |Servers(a)| == |Servers(b)|;
  }

  /** Two grants name the same primary and the same replicas in the same order. */
  predicate SameSet(a: Grant, b: Grant)
  {
    && a.primary.server == b.primary.server && |a.replicas| == |b.replicas|
    && forall i :: 0 <= i < |a.replicas| ==> a.replicas[i].server == b.replicas[i].server
  }

  lemma SameKey(a: Grant, b: Grant)
    ensures KeyOf(a) == KeyOf(b) <==> SameSet(a, b)
  {
    var left, right := Servers(a.replicas), Servers(b.replicas);
    assert forall i :: 0 <= i < |left| ==> left[i] == a.replicas[i].server;
    assert forall i :: 0 <= i < |right| ==> right[i] == b.replicas[i].server;
    assert SameSet(a, b) ==> left == right;
  }

  /** Sessions at any state of any run share a watch exactly when their grants name the same primary and
      the same replicas in the same order. */
  lemma SharersExactly(trace: seq<State>, events: seq<Event>, k: nat, s: SessionId, t: SessionId)
    requires IsRun(trace, events) && k < |trace| && s in trace[k].sessions && t in trace[k].sessions
    ensures trace[k].sessions[s].watch == trace[k].sessions[t].watch
       <==> SameSet(trace[k].sessions[s].grant, trace[k].sessions[t].grant)
  {
    RunKeeps(trace, events, k);
    SameKey(trace[k].sessions[s].grant, trace[k].sessions[t].grant);
  }

  /** At every state of every run there is at most one live watch for any key. */
  lemma OneLivePerKey(trace: seq<State>, events: seq<Event>, k: nat, v: WatchId, w: WatchId)
    requires IsRun(trace, events) && k < |trace|
    requires v in trace[k].origins && w in trace[k].origins && Alive(trace[k], v) && Alive(trace[k], w)
    requires KeyOf(trace[k].origins[v]) == KeyOf(trace[k].origins[w])
    ensures v == w
  {
    RunKeeps(trace, events, k);
  }

  /** No step of any run drops a generation a session or a poll in flight still holds. */
  lemma HeldNeverDropped(trace: seq<State>, events: seq<Event>, k: nat, w: WatchId)
    requires IsRun(trace, events) && k < |events| && w in Held(trace[k + 1])
    ensures InMap(trace[k + 1], w)
  {
    RunKeeps(trace, events, k + 1);
  }

  /** Right after any lookup, every generation in the map is held, was asked for within the
      grace, or is the one just asked for. */
  lemma EvictionSuffices(trace: seq<State>, events: seq<Event>, k: nat, key: WatchKey)
    requires IsRun(trace, events) && k < |events| && events[k].Ask? && events[k].session !in trace[k].sessions
    requires events[k].grant.replicas != [] && key in trace[k + 1].watches
    ensures var entry := trace[k + 1].watches[key];
            || entry.watch in Held(trace[k + 1])
            || trace[k + 1].now < entry.lastUsed + WATCH_GRACE
            || key == KeyOf(events[k].grant)
    ensures KeyOf(events[k].grant) in trace[k + 1].watches
  {
    RunKeeps(trace, events, k);
    assert trace[k + 1] == StepAsk(trace[k], events[k].session, events[k].grant);
    assert Held(trace[k]) <= Held(trace[k + 1]) by {
      assert forall s :: s in trace[k].sessions ==>
        s in trace[k + 1].sessions && trace[k + 1].sessions[s] == trace[k].sessions[s];
    }
  }

  /** A watch that is gone stays gone: nothing later in the run brings it back. */
  lemma {:induction false} GoneForGood(trace: seq<State>, events: seq<Event>, k: nat, j: nat, w: WatchId)
    requires IsRun(trace, events) && k <= j < |trace|
    requires w in trace[k].origins && !Alive(trace[k], w)
    ensures w in trace[j].origins && !Alive(trace[j], w)
    decreases j - k
  {
    if k < j {
      GoneForGood(trace, events, k, j - 1, w);
      RunKeeps(trace, events, j - 1);
      GoneStep(trace[j - 1], events[j - 1], w);
    }
  }

  lemma GoneStep(st: State, event: Event, w: WatchId)
    requires Inv(st) && w in st.origins && !Alive(st, w)
    ensures w in Step(st, event).origins && !Alive(Step(st, event), w)
  {
    if event.Ask? {
      GoneAsk(st, event.session, event.grant, w);
    }
  }

  lemma GoneAsk(st: State, id: SessionId, grant: Grant, w: WatchId)
    requires Inv(st) && w in st.origins && !Alive(st, w)
    ensures w in StepAsk(st, id, grant).origins && !Alive(StepAsk(st, id, grant), w)
  {
    var b := StepAsk(st, id, grant);
    if b != st {
      assert b.origins[w] == st.origins[w];
      assert b.watches[KeyOf(grant)].watch != w;
    }
  }

  /** An evicted generation's loop stops at its next tick, whenever that comes. */
  lemma EvictedLoopStops(trace: seq<State>, events: seq<Event>, k: nat, j: nat, w: WatchId)
    requires IsRun(trace, events) && k <= j < |events|
    requires w in trace[k].origins && !Alive(trace[k], w)
    requires events[j] == PollTick(w)
    ensures w !in trace[j + 1].loops && w !in trace[j + 1].polling
  {
    GoneForGood(trace, events, k, j, w);
    assert trace[j + 1] == Step(trace[j], events[j]);
  }

  // ---------- how long a generation lasts ----------

  /** A session came in at this step, asking for this key. */
  ghost predicate AsksFor(trace: seq<State>, events: seq<Event>, i: nat, key: WatchKey)
    requires |trace| == |events| + 1
  {
    && i < |events| && events[i].Ask? && events[i].session !in trace[i].sessions
    && events[i].grant.replicas != [] && KeyOf(events[i].grant) == key
  }

  /** The watch the session that came in at this step was given. */
  ghost function Given(trace: seq<State>, events: seq<Event>, i: nat): WatchId
    requires |trace| == |events| + 1 && i < |events| && events[i].Ask? && events[i].session in trace[i + 1].sessions
  {
    trace[i + 1].sessions[events[i].session].watch
  }

  /** Some session comes in at this step, for whatever key, which is when generations are dropped. */
  ghost predicate AsksAtAll(trace: seq<State>, events: seq<Event>, i: nat)
    requires |trace| == |events| + 1
  {
    && i < |events| && events[i].Ask? && events[i].session !in trace[i].sessions && events[i].grant.replicas != []
  }

  /** The generation last asked for at step `i` outlives a lookup at step `a`: somebody holds it, or
      less than sixty seconds have passed. */
  ghost predicate Outlives(trace: seq<State>, w: WatchId, i: nat, a: nat)
    requires i < |trace| && a < |trace|
  {
    w in Held(trace[a]) || trace[a].now < trace[i].now + 60 * SECOND
  }

  /** Between two askings for a key its entry stays as the first left it. */
  ghost predicate Entered(trace: seq<State>, events: seq<Event>, i: nat, k: nat, key: WatchKey)
    requires |trace| == |events| + 1 && i < k < |trace|
    requires events[i].Ask? && events[i].session in trace[i + 1].sessions
  {
    key in trace[k].watches && trace[k].watches[key] == Watched(Given(trace, events, i), trace[i].now)
  }

  lemma AskEnters(trace: seq<State>, events: seq<Event>, i: nat, key: WatchKey)
    requires IsRun(trace, events) && AsksFor(trace, events, i, key)
    ensures events[i].session in trace[i + 1].sessions && Entered(trace, events, i, i + 1, key)
  {
    assert trace[i + 1] == StepAsk(trace[i], events[i].session, events[i].grant);
  }

  /** The entry of a key nobody asks for now: a lookup for another keeps it exactly while its
      generation is held or young enough, and nothing else touches it. */
  lemma EntryStep(st: State, event: Event, key: WatchKey)
    requires Inv(st) && !(event.Ask? && event.session !in st.sessions && event.grant.replicas != []
                          && KeyOf(event.grant) == key)
    ensures var b := Step(st, event);
            && (key in b.watches ==> key in st.watches && b.watches[key] == st.watches[key])
            && (key in st.watches ==>
                  (key in b.watches <==>
                   || !(event.Ask? && event.session !in st.sessions && event.grant.replicas != [])
                   || st.watches[key].watch in Held(st)
                   || st.now < st.watches[key].lastUsed + 60 * SECOND))
  {
  }

  /** While nobody else asks for the key, its entry stays exactly as long as its generation outlives
      every lookup. */
  lemma {:induction false} EntryLasts(trace: seq<State>, events: seq<Event>, i: nat, k: nat, key: WatchKey)
    requires IsRun(trace, events) && AsksFor(trace, events, i, key) && i < k < |trace|
    requires forall a :: i < a < k ==> !AsksFor(trace, events, a, key)
    ensures events[i].session in trace[i + 1].sessions
    ensures if OutlivesAll(trace, events, Given(trace, events, i), i, k)
            then Entered(trace, events, i, k, key) else key !in trace[k].watches
    decreases k
  {
    AskEnters(trace, events, i, key);
    if k > i + 1 {
      EntryLasts(trace, events, i, k - 1, key);
      RunKeeps(trace, events, k - 1);
      assert !AsksFor(trace, events, k - 1, key);
      assert trace[k] == Step(trace[k - 1], events[k - 1]);
      EntryStep(trace[k - 1], events[k - 1], key);
      OutlivesOneMore(trace, events, Given(trace, events, i), i, k - 1);
    }
  }

  /** It outlives every lookup between the two steps. */
  ghost predicate OutlivesAll(trace: seq<State>, events: seq<Event>, w: WatchId, i: nat, k: nat)
    requires |trace| == |events| + 1 && i < |trace| && k < |trace|
  {
    forall a: nat :: i < a < k && AsksAtAll(trace, events, a) ==> Outlives(trace, w, i, a)
  }

  lemma OutlivesOneMore(trace: seq<State>, events: seq<Event>, w: WatchId, i: nat, k: nat)
    requires |trace| == |events| + 1 && i < k < |events|
    ensures OutlivesAll(trace, events, w, i, k + 1)
       <==> OutlivesAll(trace, events, w, i, k) && (AsksAtAll(trace, events, k) ==> Outlives(trace, w, i, k))
  {
  }

  /** Two sessions that ask for one key, with nobody asking for it between them, are given the same
      watch exactly when the generation outlives every lookup up to the second: at each it is held,
      or sixty seconds have not yet passed since the first asked. */
  lemma SameWatchExactly(trace: seq<State>, events: seq<Event>, i: nat, j: nat, key: WatchKey)
    requires IsRun(trace, events) && i < j
    requires AsksFor(trace, events, i, key) && AsksFor(trace, events, j, key)
    requires forall a :: i < a < j ==> !AsksFor(trace, events, a, key)
    ensures events[i].session in trace[i + 1].sessions && events[j].session in trace[j + 1].sessions
    ensures Given(trace, events, i) == Given(trace, events, j)
       <==> OutlivesAll(trace, events, Given(trace, events, i), i, j + 1)
  {
    EntryLasts(trace, events, i, j, key);
    RunKeeps(trace, events, i + 1);
    RunKeeps(trace, events, j);
    AskEnters(trace, events, i, key);
    AskEnters(trace, events, j, key);
    OutlivesOneMore(trace, events, Given(trace, events, i), i, j);
    GivenBefore(trace, events, i, j);
    LookupGives(trace[j], events[j].session, events[j].grant);
  }

  /** What an asking session is given: what the key's entry names if that outlives the lookup, and
      a watch that never was before otherwise. */
  lemma LookupGives(st: State, id: SessionId, grant: Grant)
    requires Inv(st) && id !in st.sessions && grant.replicas != []
    ensures var b, key := StepAsk(st, id, grant), KeyOf(grant);
            && id in b.sessions
            && b.sessions[id].watch ==
               if key in st.watches
                  && (st.watches[key].watch in Held(st) || st.now < st.watches[key].lastUsed + 60 * SECOND)
               then st.watches[key].watch else st.next
  {
  }

  /** A watch given at one step is named below every later one. */
  lemma {:induction false} GivenBefore(trace: seq<State>, events: seq<Event>, i: nat, k: nat)
    requires IsRun(trace, events) && i < k < |trace| && events[i].Ask? && events[i].session in trace[i + 1].sessions
    ensures Given(trace, events, i) < trace[k].next
    decreases k
  {
    if k == i + 1 {
      RunKeeps(trace, events, k);
      assert InMap(trace[k], Given(trace, events, i));
    } else {
      GivenBefore(trace, events, i, k - 1);
      assert trace[k] == Step(trace[k - 1], events[k - 1]);
    }
  }

  /** So within sixty seconds of one asking for a key, whoever left in between, the next is given
      the same watch, and every one after it within sixty seconds of the one before. */
  lemma SameWatchWithinGrace(trace: seq<State>, events: seq<Event>, i: nat, j: nat, key: WatchKey)
    requires IsRun(trace, events) && i < j
    requires AsksFor(trace, events, i, key) && AsksFor(trace, events, j, key)
    requires trace[j].now < trace[i].now + 60 * SECOND
    ensures events[i].session in trace[i + 1].sessions && events[j].session in trace[j + 1].sessions
    ensures Given(trace, events, i) == Given(trace, events, j)
    decreases j - i
  {
    if a: nat :| i < a < j && AsksFor(trace, events, a, key) {
      TimeMoves(trace, events, i, a);
      TimeMoves(trace, events, a, j);
      SameWatchWithinGrace(trace, events, i, a, key);
      SameWatchWithinGrace(trace, events, a, j, key);
    } else {
      forall a: nat | i < a < j + 1 && AsksAtAll(trace, events, a)
        ensures trace[a].now < trace[i].now + 60 * SECOND
      {
        TimeMoves(trace, events, a, j);
      }
      AskEnters(trace, events, i, key);
      SameWatchExactly(trace, events, i, j, key);
    }
  }

  lemma {:induction false} TimeMoves(trace: seq<State>, events: seq<Event>, i: nat, j: nat)
    requires IsRun(trace, events) && i <= j < |trace|
    ensures trace[i].now <= trace[j].now
    decreases j
  {
    if i < j {
      TimeMoves(trace, events, i, j - 1);
      assert trace[j] == Step(trace[j - 1], events[j - 1]);
    }
  }

  // ---------- polls and loops ----------

  /** A tick of this watch's loop finds the watch still there, and polls. */
  ghost predicate PollsAt(trace: seq<State>, events: seq<Event>, j: nat, w: WatchId)
    requires |trace| == |events| + 1
  {
    j < |events| && events[j] == PollTick(w) && w in trace[j].loops && Alive(trace[j], w)
  }

  ghost predicate NotDone(events: seq<Event>, j: nat, k: nat, w: WatchId)
  {
    forall a :: j < a < k && a < |events| ==> events[a] != PollDone(w)
  }

  /** A poll holds its watch exactly from the tick that finds it to the end of that poll. */
  lemma {:induction false} PollingExactly(trace: seq<State>, events: seq<Event>, k: nat, w: WatchId)
    requires IsRun(trace, events) && k < |trace|
    ensures w in trace[k].polling <==>
      exists j: nat :: j < k && PollsAt(trace, events, j, w) && NotDone(events, j, k, w)
  {
    if k > 0 {
      var n := k - 1;
      PollingExactly(trace, events, n, w);
      RunKeeps(trace, events, n);
      PollStep(trace[n], events[n], w);
      assert trace[k] == Step(trace[n], events[n]);
      forall j: nat | j < n
        ensures NotDone(events, j, k, w) <==> NotDone(events, j, n, w) && events[n] != PollDone(w)
      {
      }
      if PollsAt(trace, events, n, w) {
        assert NotDone(events, n, k, w);
      }
    }
  }

  lemma PollStep(st: State, event: Event, w: WatchId)
    requires Inv(st)
    ensures w in Step(st, event).polling <==>
      (w in st.polling && event != PollDone(w)) || (event == PollTick(w) && w in st.loops && Alive(st, w))
  {
  }

  /** A loop runs exactly from when its watch is made to the first tick that finds the watch gone. */
  lemma {:induction false} LoopsExactly(trace: seq<State>, events: seq<Event>, k: nat, w: WatchId)
    requires IsRun(trace, events) && k < |trace|
    ensures w in trace[k].loops <==>
      && w in trace[k].origins
      && forall j: nat :: j < k && w in trace[j].origins && events[j] == PollTick(w) ==> Alive(trace[j], w)
  {
    if k > 0 {
      var n := k - 1;
      LoopsExactly(trace, events, n, w);
      RunKeeps(trace, events, n);
      LoopStep(trace[n], events[n], w);
      assert trace[k] == Step(trace[n], events[n]);
      if w in trace[k].origins && w !in trace[n].origins {
        NotBefore(trace, events, n, w);
      }
    }
  }

  lemma LoopStep(st: State, event: Event, w: WatchId)
    requires Inv(st)
    ensures var b := Step(st, event);
            && (w in st.origins ==> w in b.origins)
            && (w !in st.origins ==> (w in b.loops <==> w in b.origins))
            && (w in st.origins ==>
                  (w in b.loops <==> w in st.loops && (event == PollTick(w) ==> Alive(st, w))))
  {
  }

  lemma {:induction false} NotBefore(trace: seq<State>, events: seq<Event>, k: nat, w: WatchId)
    requires IsRun(trace, events) && k < |trace| && w !in trace[k].origins
    ensures forall j: nat :: j <= k ==> w !in trace[j].origins
    decreases k
  {
    if k > 0 {
      var n := k - 1;
      RunKeeps(trace, events, n);
      LoopStep(trace[n], events[n], w);
      assert trace[k] == Step(trace[n], events[n]);
      NotBefore(trace, events, n, w);
    }
  }
}
