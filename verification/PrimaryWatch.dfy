/** Watching each primary for its own demotion: one loop per primary, an edge-triggered flag,
    one invalidation and one refresh on the edge, and an override that routing reads. */
module PrimaryWatch {
  import opened Basics
  import opened Replicas

  /** What a node's resolver lets it do about a demotion. */
  datatype Config = Config(canInvalidate: bool, canRefresh: bool)

  /** `watched` holds each primary's demoted flag; `loops`, `invalidated` and `refreshed` list
      every loop spawned and every call made, in order; `refreshing` are loops awaiting one. */
  datatype State = State(
    watched: map<ServerId, bool>,
    overrides: map<ServerId, Backend>,
    loops: seq<ServerId>,
    invalidated: seq<ServerId>,
    refreshed: seq<ServerId>,
    refreshing: set<ServerId>
  )

  datatype Event =
    | Ensure(primary: Backend)
    | Probed(server: ServerId, recovering: Option<bool>)
    | Refreshed(server: ServerId, answer: Option<Backend>)

  const EMPTY: State := State(map[], map[], [], [], [], {})

  function StepEnsure(st: State, primary: Backend): State
  {
    if primary.server in st.watched then st
    else st.(watched := st.watched[primary.server := false], loops := st.loops + [primary.server])
  }

  /** Whether a loop for this server is running and free to probe. */
  predicate Probing(st: State, server: ServerId)
  {
    server in st.loops && server in st.watched && server !in st.refreshing
  }

  function StepProbed(config: Config, st: State, server: ServerId, recovering: Option<bool>): State
  {
    if !Probing(st, server) || recovering != Some(true) || st.watched[server] then st
    else
      var marked := st.(
        watched := st.watched[server := true],
        invalidated := if config.canInvalidate then st.invalidated + [server] else st.invalidated);
      if config.canRefresh
      then marked.(refreshed := st.refreshed + [server], refreshing := st.refreshing + {server})
      else marked
  }

  function StepRefreshed(st: State, server: ServerId, answer: Option<Backend>): State
  {
    if server !in st.refreshing then st
    else
      var done := st.(refreshing := st.refreshing - {server});
      if answer.Some? then done.(overrides := st.overrides[server := answer.value]) else done
  }

  function Step(config: Config, st: State, event: Event): State
  {
    match event
    case Ensure(primary) => StepEnsure(st, primary)
    case Probed(server, recovering) => StepProbed(config, st, server, recovering)
    case Refreshed(server, answer) => StepRefreshed(st, server, answer)
  }

  predicate IsRun(config: Config, trace: seq<State>, events: seq<Event>)
  {
    && |trace| == |events| + 1 && trace[0] == EMPTY
    && forall i :: 0 <= i < |events| ==> trace[i + 1] == Step(config, trace[i], events[i])
  }

  /** A probe of a watched primary, by a loop not waiting for a refresh, that succeeded and said the
      primary is in recovery. */
  predicate SawRecovery(st: State, event: Event, server: ServerId)
  {
    event == Probed(server, Some(true)) && server in st.watched && server !in st.refreshing
  }

  // ---------- what every step keeps ----------

  function Times(calls: seq<ServerId>, server: ServerId): nat
  {
    multiset(calls)[server]
  }

  predicate ServerOk(config: Config, st: State, s: ServerId)
  {
    var demoted := s in st.watched && st.watched[s];
    && Times(st.loops, s) == (if s in st.watched then 1 else 0)
    && Times(st.invalidated, s) == (if demoted && config.canInvalidate then 1 else 0)
    && Times(st.refreshed, s) == (if demoted && config.canRefresh then 1 else 0)
    && (s in st.refreshing ==> demoted && config.canRefresh && s !in st.overrides)
    && (s in st.overrides ==> demoted && config.canRefresh && s !in st.refreshing)
  }

  lemma TimesAppend(calls: seq<ServerId>, made: ServerId, s: ServerId)
    ensures Times(calls + [made], s) == Times(calls, s) + if made == s then 1 else 0
  {
    assert multiset(calls + [made]) == multiset(calls) + multiset{made};
  }

  lemma EnsureKeeps(config: Config, st: State, primary: Backend, s: ServerId)
    requires ServerOk(config, st, s)
    ensures ServerOk(config, StepEnsure(st, primary), s)
  {
    TimesAppend(st.loops, primary.server, s);
  }

  lemma ProbedKeeps(config: Config, st: State, server: ServerId, recovering: Option<bool>, s: ServerId)
    requires ServerOk(config, st, s)
    ensures ServerOk(config, StepProbed(config, st, server, recovering), s)
  {
    TimesAppend(st.invalidated, server, s);
    TimesAppend(st.refreshed, server, s);
  }

  lemma StepKeeps(config: Config, st: State, event: Event, s: ServerId)
    requires ServerOk(config, st, s)
    ensures ServerOk(config, Step(config, st, event), s)
  {
    match event {
      case Ensure(primary) => EnsureKeeps(config, st, primary, s);
      case Probed(server, recovering) => ProbedKeeps(config, st, server, recovering, s);
      case Refreshed(server, answer) =>
    }
  }

  lemma {:induction false} RunKeeps(config: Config, trace: seq<State>, events: seq<Event>, k: nat)
    requires IsRun(config, trace, events) && k < |trace|
    ensures forall s :: ServerOk(config, trace[k], s)
  {
    if k > 0 {
      RunKeeps(config, trace, events, k - 1);
      forall s ensures ServerOk(config, trace[k], s) {
        assert ServerOk(config, trace[k - 1], s);
        StepKeeps(config, trace[k - 1], events[k - 1], s);
      }
    }
  }

  /** However often it is asked for and whatever the probes say, a primary has exactly one loop
      once watched, and at most one invalidation and one refresh, each exactly on its demotion. */
  lemma OnceEach(config: Config, trace: seq<State>, events: seq<Event>, k: nat, s: ServerId)
    requires IsRun(config, trace, events) && k < |trace| && s in trace[k].watched
    ensures Times(trace[k].loops, s) == 1
    ensures Times(trace[k].invalidated, s) == if trace[k].watched[s] && config.canInvalidate then 1 else 0
    ensures Times(trace[k].refreshed, s) == if trace[k].watched[s] && config.canRefresh then 1 else 0
  {
    RunKeeps(config, trace, events, k);
    assert ServerOk(config, trace[k], s);
  }

  ghost predicate SeenBy(trace: seq<State>, events: seq<Event>, k: nat, s: ServerId)
    requires k <= |events| && |trace| == |events| + 1
  {
    exists j :: 0 <= j < k && SawRecovery(trace[j], events[j], s)
  }

  /** The demoted flag says exactly whether some successful probe has reported recovery. */
  lemma {:induction false} DemotedExactly(config: Config, trace: seq<State>, events: seq<Event>, k: nat, s: ServerId)
    requires IsRun(config, trace, events) && k < |trace|
    ensures Demoted(trace[k], s) <==> SeenBy(trace, events, k, s)
  {
    if k > 0 {
      DemotedExactly(config, trace, events, k - 1, s);
      var before, event := trace[k - 1], events[k - 1];
      assert trace[k] == Step(config, before, event);
      RunKeeps(config, trace, events, k - 1);
      assert ServerOk(config, before, s);
      FlagStep(config, before, event, s);
      assert SeenBy(trace, events, k, s) <==> SeenBy(trace, events, k - 1, s) || SawRecovery(before, event, s);
    }
  }

  predicate Demoted(st: State, s: ServerId)
  {
    s in st.watched && st.watched[s]
  }

  lemma FlagStep(config: Config, st: State, event: Event, s: ServerId)
    requires ServerOk(config, st, s)
    ensures Demoted(Step(config, st, event), s) <==> Demoted(st, s) || SawRecovery(st, event, s)
  {
  }

  // ---------- what routing sees ----------

  lemma {:induction false} OverrideFixed(config: Config, trace: seq<State>, events: seq<Event>, j: nat, k: nat,
                                         s: ServerId)
    requires IsRun(config, trace, events) && j <= k < |trace| && s in trace[j].overrides
    ensures s in trace[k].overrides && trace[k].overrides[s] == trace[j].overrides[s]
    decreases k - j
  {
    if j < k {
      OverrideFixed(config, trace, events, j, k - 1, s);
      RunKeeps(config, trace, events, k - 1);
      assert ServerOk(config, trace[k - 1], s);
      assert trace[k] == Step(config, trace[k - 1], events[k - 1]);
    }
  }

  /** In a whole run the backend a grant's primary resolves to changes at most once. */
  lemma AnswerChangesOnce(config: Config, trace: seq<State>, events: seq<Event>, grant: Grant, i: nat, j: nat, k: nat)
    requires IsRun(config, trace, events) && i <= j <= k < |trace|
    requires BackendFor(grant, Primary, trace[i].overrides) != BackendFor(grant, Primary, trace[j].overrides)
    ensures BackendFor(grant, Primary, trace[k].overrides) == BackendFor(grant, Primary, trace[j].overrides)
  {
    var s := grant.primary.server;
    if s in trace[i].overrides {
      OverrideFixed(config, trace, events, i, j, s);
    }
    OverrideFixed(config, trace, events, j, k, s);
  }

  /** And only after a demotion: until a probe has seen recovery, the grant's own primary stands. */
  lemma AnswerStandsUntilDemoted(config: Config, trace: seq<State>, events: seq<Event>, grant: Grant, k: nat)
    requires IsRun(config, trace, events) && k < |trace| && !SeenBy(trace, events, k, grant.primary.server)
    ensures BackendFor(grant, Primary, trace[k].overrides) == grant.primary
  {
    RunKeeps(config, trace, events, k);
    DemotedExactly(config, trace, events, k, grant.primary.server);
    assert ServerOk(config, trace[k], grant.primary.server);
  }

  // ---------- the answer, from what happened ----------

  /** This step is the first probe to see the primary in recovery. */
  ghost predicate DemotesAt(trace: seq<State>, events: seq<Event>, j: nat, s: ServerId)
    requires |trace| == |events| + 1
  {
    j < |events| && SawRecovery(trace[j], events[j], s) && !SeenBy(trace, events, j, s)
  }

  /** The refresh a demotion starts has come back at this step, the first time anything did. */
  ghost predicate AnswersAt(config: Config, trace: seq<State>, events: seq<Event>, i: nat, s: ServerId,
                            answer: Option<Backend>)
    requires |trace| == |events| + 1
  {
    && config.canRefresh && i < |events| && events[i] == Refreshed(s, answer)
    && exists j: nat :: j < i && DemotesAt(trace, events, j, s) && Unanswered(events, j, i, s)
  }

  ghost predicate Unanswered(events: seq<Event>, j: nat, i: nat, s: ServerId)
  {
    forall a :: j < a < i && a < |events| ==> !(events[a].Refreshed? && events[a].server == s)
  }

  /** A server is watched exactly when some grant named it as its primary. */
  lemma {:induction false} WatchedExactly(config: Config, trace: seq<State>, events: seq<Event>, k: nat, s: ServerId)
    requires IsRun(config, trace, events) && k < |trace|
    ensures s in trace[k].watched <==> exists i :: 0 <= i < k && events[i].Ensure? && events[i].primary.server == s
  {
    if k > 0 {
      var n := k - 1;
      WatchedExactly(config, trace, events, n, s);
      assert trace[k] == Step(config, trace[n], events[n]);
      assert s in trace[k].watched <==>
             s in trace[n].watched || (events[n].Ensure? && events[n].primary.server == s);
    }
  }

  /** A loop awaits a refresh exactly between its primary's demotion and the answer. */
  lemma {:induction false} AwaitsExactly(config: Config, trace: seq<State>, events: seq<Event>, k: nat, s: ServerId)
    requires IsRun(config, trace, events) && k < |trace|
    ensures s in trace[k].refreshing <==>
      config.canRefresh && exists j: nat :: j < k && DemotesAt(trace, events, j, s) && Unanswered(events, j, k, s)
  {
    if k > 0 {
      var n := k - 1;
      AwaitsExactly(config, trace, events, n, s);
      DemotedExactly(config, trace, events, n, s);
      assert trace[k] == Step(config, trace[n], events[n]);
      RunKeeps(config, trace, events, n);
      assert ServerOk(config, trace[n], s);
      AwaitsStep(config, trace[n], events[n], s);
      if DemotesAt(trace, events, n, s) {
        assert Unanswered(events, n, k, s);
      }
      forall j: nat | j < n
        ensures Unanswered(events, j, k, s) <==>
                Unanswered(events, j, n, s) && !(events[n].Refreshed? && events[n].server == s)
      {
      }
      SingleDemotion(trace, events, k, s);
    }
  }

  lemma AwaitsStep(config: Config, st: State, event: Event, s: ServerId)
    requires ServerOk(config, st, s)
    ensures s in Step(config, st, event).refreshing <==>
      || (s in st.refreshing && !(event.Refreshed? && event.server == s))
      || (config.canRefresh && SawRecovery(st, event, s) && !Demoted(st, s))
  {
  }

  lemma SingleDemotion(trace: seq<State>, events: seq<Event>, k: nat, s: ServerId)
    requires |trace| == |events| + 1 && k <= |events|
    ensures forall i: nat, j: nat :: DemotesAt(trace, events, i, s) && DemotesAt(trace, events, j, s) ==> i == j
  {
  }

  /** What a grant's primary resolves to, from what happened alone: the backend the refresh after its
      demotion came back with, and until there is one the grant's own. */
  lemma AnswerExactly(config: Config, trace: seq<State>, events: seq<Event>, grant: Grant, k: nat)
    requires IsRun(config, trace, events) && k < |trace|
    ensures forall i: nat, backend ::
              i < k && AnswersAt(config, trace, events, i, grant.primary.server, Some(backend)) ==>
      BackendFor(grant, Primary, trace[k].overrides) == backend
    ensures (forall i: nat, backend :: i < k ==>
               !AnswersAt(config, trace, events, i, grant.primary.server, Some(backend))) ==>
      BackendFor(grant, Primary, trace[k].overrides) == grant.primary
  {
    var s := grant.primary.server;
    OverrideExactly(config, trace, events, k, s);
  }

  /** Routing past the end of a grant's replicas is routing to its primary. */
  lemma PastTheEnd(grant: Grant, index: nat, overrides: map<ServerId, Backend>)
    ensures index >= |grant.replicas| ==>
      BackendFor(grant, Replica(index), overrides) == BackendFor(grant, Primary, overrides)
    ensures index < |grant.replicas| ==> BackendFor(grant, Replica(index), overrides) == grant.replicas[index]
  {
  }

  lemma {:induction false} OverrideExactly(config: Config, trace: seq<State>, events: seq<Event>, k: nat, s: ServerId)
    requires IsRun(config, trace, events) && k < |trace|
    ensures forall i: nat, backend :: i < k && AnswersAt(config, trace, events, i, s, Some(backend)) ==>
      s in trace[k].overrides && trace[k].overrides[s] == backend
    ensures s in trace[k].overrides ==>
      exists i: nat, backend :: i < k && AnswersAt(config, trace, events, i, s, Some(backend))
  {
    if k > 0 {
      var n := k - 1;
      OverrideExactly(config, trace, events, n, s);
      AwaitsExactly(config, trace, events, n, s);
      RunKeeps(config, trace, events, n);
      assert ServerOk(config, trace[n], s);
      assert trace[k] == Step(config, trace[n], events[n]);
      if events[n].Refreshed? && events[n].server == s && events[n].answer.Some? {
        assert s in trace[n].refreshing <==> AnswersAt(config, trace, events, n, s, events[n].answer);
      }
    }
  }

  // ---------- the registry in place ----------

  class PrimaryWatches {
    const config: Config
    var watched: map<ServerId, bool>
    var overrides: map<ServerId, Backend>
    var loops: seq<ServerId>
    var invalidated: seq<ServerId>
    var refreshed: seq<ServerId>
    var refreshing: set<ServerId>

    ghost function Value(): State
      reads this
    {
      State(watched, overrides, loops, invalidated, refreshed, refreshing)
    }

    constructor (config: Config)
      ensures this.config == config && Value() == EMPTY
    {
      this.config := config;
      watched, overrides, loops, invalidated, refreshed, refreshing := map[], map[], [], [], [], {};
    }

    method EnsureWatched(primary: Backend)
      modifies this
      ensures Value() == StepEnsure(old(Value()), primary)
    {
      if primary.server in watched {
        return;
      }
      watched := watched[primary.server := false];
      loops := loops + [primary.server];
    }

    /** Acts on one probe; says whether this call made the transition. */
    method Handle(server: ServerId, recovering: Option<bool>) returns (demoted: bool)
      requires server in watched
      modifies this`watched, this`invalidated
      ensures demoted == (recovering == Some(true) && !old(watched)[server])
      ensures watched == if demoted then old(watched)[server := true] else old(watched)
      ensures invalidated == if demoted && config.canInvalidate then old(invalidated) + [server] else old(invalidated)
    {
      if recovering != Some(true) {
        return false;
      }
      var was := watched[server];
      watched := watched[server := true];
      if was {
        assert watched == old(watched);
        return false;
      }
      if config.canInvalidate {
        invalidated := invalidated + [server];
      }
      return true;
    }

    /** One turn of a primary's loop, up to the point where it awaits a refresh. */
    method Poll(server: ServerId, recovering: Option<bool>)
      requires Probing(Value(), server)
      modifies this
      ensures Value() == StepProbed(config, old(Value()), server, recovering)
    {
      var demoted := Handle(server, recovering);
      if demoted && config.canRefresh {
        refreshed := refreshed + [server];
        refreshing := refreshing + {server};
      }
    }

    method FinishRefresh(server: ServerId, answer: Option<Backend>)
      requires server in refreshing
      modifies this
      ensures Value() == StepRefreshed(old(Value()), server, answer)
    {
      refreshing := refreshing - {server};
      if answer.Some? {
        overrides := overrides[server := answer.value];
      }
    }
  }
}
