/** A fleet of proxy nodes holding one server's connection cap between them, as a state
    machine over one clock.

    Gossip is whatever arrives: any node may hear any other, in any mode, fresh or
    stale, at any time or never, so loss, delay, reordering, partitions and one-way links
    are all runs of this machine. A node observes its own view on every arrival and every
    tick, takes office when it is the lowest active node it can see and hears a majority,
    and answers quota requests from its ledger once it has waited. Nodes restart, drain
    and give up on answers at any point. */
module Fleet {
  import opened Basics
  import Ledger
  import LeaseWire
  import Split

  datatype Contact = Contact(mode: Mode, at: Time)

  datatype Config = Config(
    fleetSize: nat,
    ttl: nat,
    takeoverWait: nat,
    suspectAfter: nat,
    deadAfter: nat,
    cap: nat,
    fraction: real
  ) {
    predicate Valid() { fleetSize > 0 }

    /** The wait actually used: never shorter than a lease's life plus the doubt window. */
    function Lease(): Ledger.LeaseConfig
    {
      Ledger.LeaseConfig(ttl, Max(takeoverWait, ttl + suspectAfter))
    }

    function Pool(): nat
    {
      cap - Split.GuaranteedTotal(cap, fraction)
    }

    /** How long two nodes may serve together before the second can grant within a lease's life of
        the first: all of the wait but that life. */
    function Slack(): nat
    {
      Lease().wait - ttl
    }

    /** How many members make a majority of the configured fleet. */
    function Majority(): nat
    {
      fleetSize / 2 + 1
    }

    /** What a node is guaranteed while it sees no more nodes than were configured. */
    function Portion(): nat
      requires Valid()
    {
      Split.GuaranteedTotal(cap, fraction) / fleetSize
    }

    /** The sizes a running fleet may have: any two majorities of it meet, and a portion for every
        node fits the guaranteed part. */
    predicate SizeOk(n: nat)
      requires Valid()
    {
      n < 2 * Majority() && n * Portion() <= Split.GuaranteedTotal(cap, fraction)
    }
  }

  /** A lease in a node's hands. `issuer` and `issued` record where it came from. */
  datatype Lease = Lease(count: nat, expires: Time, issuer: NodeId, issued: Time)

  /** A grant on its way back to the asker, as a duration. */
  datatype Reply = Reply(count: nat, ttl: nat, issuer: NodeId, issued: Time, wired: Time)

  /** One request to a leader. It stays servable after the asker has given up on it, until it has
      been granted once. */
  datatype Exchange = Exchange(
    target: NodeId,
    want: nat,
    sent: Time,
    open: bool,
    answered: bool,
    reply: Option<Reply>,
    read: Option<Time>
  )

  datatype Node = Node(
    peers: map<NodeId, Contact>,
    mode: Mode,
    observed: Time,
    book: Ledger.Book,
    held: Option<Lease>,
    exchange: Option<Exchange>,
    past: seq<Exchange>
  )

  datatype State = State(now: Time, nodes: map<NodeId, Node>)

  datatype Event =
    | Advance(span: nat)
    | Hear(node: NodeId, from: NodeId, mode: Mode, newer: bool)
    | Tick(node: NodeId)
    | SetMode(node: NodeId, mode: Mode)
    | Restart(node: NodeId)
    | Ask(node: NodeId, demand: nat)
    | Serve(holder: NodeId, lag: nat)
    | ServeLate(holder: NodeId, index: nat)
    | Read(node: NodeId)
    | Place(node: NodeId)
    | GiveUp(node: NodeId)

  // ---------- one node's view ----------

  predicate InView(config: Config, contact: Contact, now: Time)
  {
    Less(now, contact.at) < config.deadAfter
  }

  /** Heard from recently enough to count toward a majority. */
  predicate IsAlive(config: Config, contact: Contact, now: Time)
  {
    contact.mode.Active? && InView(config, contact, now) && Less(now, contact.at) < config.suspectAfter
  }

  function AliveSet(config: Config, peers: map<NodeId, Contact>, now: Time): set<NodeId>
  {
    set m | m in peers && IsAlive(config, peers[m], now)
  }

  predicate Quorum(config: Config, peers: map<NodeId, Contact>, now: Time)
  {
    2 * |AliveSet(config, peers, now)| > Max(config.fleetSize, 1)
  }

  predicate ActiveInView(config: Config, peers: map<NodeId, Contact>, m: NodeId, now: Time)
  {
    m in peers && peers[m].mode.Active? && InView(config, peers[m], now)
  }

  /** The lowest active node in the view. */
  predicate IsLeader(config: Config, peers: map<NodeId, Contact>, id: NodeId, now: Time)
  {
    && ActiveInView(config, peers, id, now)
    && forall m :: m in peers && ActiveInView(config, peers, m, now) ==> id <= m
  }

  predicate Leading(config: Config, peers: map<NodeId, Contact>, id: NodeId, now: Time)
  {
    IsLeader(config, peers, id, now) && Quorum(config, peers, now)
  }

  function ViewSet(config: Config, peers: map<NodeId, Contact>, now: Time): set<NodeId>
  {
    set m | m in peers && InView(config, peers[m], now)
  }

  function Seen(config: Config, peers: map<NodeId, Contact>, now: Time): nat
  {
    |ViewSet(config, peers, now)|
  }

  function Guaranteed(config: Config, node: Node, now: Time): nat
    requires config.Valid()
  {
    Split.Share(config.cap, config.fraction, config.fleetSize, Seen(config, node.peers, now))
  }

  function Leased(node: Node, now: Time): nat
  {
    if node.held.Some? && now < node.held.value.expires then node.held.value.count else 0
  }

  function Fresh(config: Config): Node
  {
    Node(map[], Active, 0, Ledger.Book(config.Pool(), map[], None), None, None, [])
  }

  function Observe(config: Config, id: NodeId, node: Node, now: Time): Node
  {
    var leading := Leading(config, node.peers, id, now);
    node.(
      peers := map m | m in node.peers && InView(config, node.peers[m], now) :: node.peers[m],
      observed := now,
      book := Ledger.Reap(Ledger.Lead(node.book.(pool := config.Pool()), leading, now), now)
    )
  }

  /** An arrival: contact always moves forward, the mode only on a digest worth keeping. */
  function HeardFrom(peers: map<NodeId, Contact>, from: NodeId, mode: Mode, newer: bool, now: Time): map<NodeId,
                     Contact>
  {
    if from in peers && now < peers[from].at then peers
    else if newer then peers[from := Contact(mode, now)]
    else if from in peers then peers[from := Contact(peers[from].mode, now)]
    else peers
  }

  /** A ledger's answer stands only while the node also hears a majority right now. */
  ghost function Answered(config: Config, st: State, leader: NodeId, holder: NodeId, want: nat): (Ledger.Book,
                          Ledger.Answer)
    requires leader in st.nodes
  {
    var node := st.nodes[leader];
    if Quorum(config, node.peers, st.now)
    then Ledger.Request(config.Lease(), node.book, holder, want, st.now)
    else (node.book, Ledger.NoLeader)
  }

  /** Whether a request reaching this node now would be considered at all. */
  predicate CanGrant(config: Config, st: State, id: NodeId)
  {
    && id in st.nodes
    && Quorum(config, st.nodes[id].peers, st.now)
    && Ledger.CanGrant(config.Lease(), st.nodes[id].book, st.now)
  }

  function Retired(node: Node): seq<Exchange>
  {
    if node.exchange.Some? then node.past + [node.exchange.value] else node.past
  }

  // ---------- the steps ----------

  function StepHear(config: Config, st: State, id: NodeId, from: NodeId, mode: Mode, newer: bool): State
  {
    if id in st.nodes && from in st.nodes then
      var heard := HeardFrom(st.nodes[id].peers, from, mode, newer, st.now);
      st.(nodes := st.nodes[id := Observe(config, id, st.nodes[id].(peers := heard), st.now)])
    else st
  }

  /** Asking: the local ledger first, then the leader this node sees. One exchange at a time. */
  ghost function StepAsk(config: Config, st: State, id: NodeId, demand: nat): State
    requires config.Valid()
  {
    if id !in st.nodes then st else
    var node := st.nodes[id];
    if node.exchange.Some? && node.exchange.value.open then st else
    var want := Split.WantsMore(demand, Guaranteed(config, node, st.now), Leased(node, st.now));
    if want.None? then st else
    var (book, answer) := Answered(config, st, id, id, want.value);
    match answer {
      case Granted(count, expires) =>
        st.(nodes := st.nodes[id := node.(book := book, held := Some(Lease(count, expires, id, st.now)),
                                          exchange := None, past := Retired(node))])
      case Exhausted => st
      case NoLeader =>
        if exists leader :: IsLeader(config, node.peers, leader, st.now) && leader != id then
          var leader :| IsLeader(config, node.peers, leader, st.now) && leader != id;
          var request := Exchange(leader, want.value, st.now, true, false, None, None);
          st.(nodes := st.nodes[id := node.(exchange := Some(request), past := Retired(node))])
        else st
    }
  }

  /** The leader answers the holder's latest request, reading the clock `lag` later for the
      duration it sends. */
  ghost function StepServe(config: Config, st: State, holder: NodeId, lag: nat): State
  {
    if holder !in st.nodes || st.nodes[holder].exchange.None? then st else
    var e := st.nodes[holder].exchange.value;
    if e.target !in st.nodes || e.target == holder || e.answered then st else
    var (book, answer) := Answered(config, st, e.target, holder, e.want);
    if !answer.Granted? then st else
    var reply := Reply(answer.count, LeaseWire.WireTtl(answer.expires, st.now + lag), e.target, st.now, st.now + lag);
    st.(nodes := st.nodes[e.target := st.nodes[e.target].(book := book)]
                         [holder := st.nodes[holder].(exchange := Some(e.(answered := true, reply := Some(reply))))])
  }

  /** The leader answers a request whose asker has since asked again: the record changes and
      the answer goes nowhere. */
  ghost function StepServeLate(config: Config, st: State, holder: NodeId, index: nat): State
  {
    if holder !in st.nodes || index >= |st.nodes[holder].past| then st else
    var e := st.nodes[holder].past[index];
    if e.target !in st.nodes || e.target == holder || e.answered then st else
    var (book, answer) := Answered(config, st, e.target, holder, e.want);
    if !answer.Granted? then st else
    st.(nodes := st.nodes[e.target := st.nodes[e.target].(book := book)]
                         [holder := st.nodes[holder].(past := st.nodes[holder].past[index := e.(answered := true)])])
  }

  /** The answer has arrived: the asker takes its elapsed reading. */
  function StepRead(st: State, id: NodeId): State
  {
    if id !in st.nodes || st.nodes[id].exchange.None? then st else
    var e := st.nodes[id].exchange.value;
    if !e.open || e.reply.None? || e.read.Some? || st.now < e.reply.value.wired then st else
    st.(nodes := st.nodes[id := st.nodes[id].(exchange := Some(e.(read := Some(st.now))))])
  }

  /** The asker adds what is left to the time now and holds the lease. */
  function StepPlace(st: State, id: NodeId): State
  {
    if id !in st.nodes || st.nodes[id].exchange.None? then st else
    var e := st.nodes[id].exchange.value;
    if !e.open || e.reply.None? || e.read.None? || e.read.value < e.sent then st else
    var r := e.reply.value;
    var deadline := LeaseWire.HolderDeadline(e.sent, r.ttl, e.read.value, st.now);
    st.(nodes := st.nodes[id := st.nodes[id].(held := Some(Lease(r.count, deadline, r.issuer, r.issued)),
                                              exchange := Some(e.(open := false, reply := None)))])
  }

  ghost function Step(config: Config, st: State, event: Event): State
    requires config.Valid()
  {
    match event
    case Advance(span) => st.(now := st.now + span)
    case Hear(id, from, mode, newer) => StepHear(config, st, id, from, mode, newer)
    case Tick(id) => if id in st.nodes then StepHear(config, st, id, id, st.nodes[id].mode, true) else st
    case SetMode(id, mode) =>
      if id in st.nodes then st.(nodes := st.nodes[id := st.nodes[id].(mode := mode)]) else st
    case Restart(id) =>
      if id in st.nodes
      then st.(nodes := st.nodes[id := Fresh(config).(past := Retired(st.nodes[id]))])
      else st
    case Ask(id, demand) => StepAsk(config, st, id, demand)
    case Serve(holder, lag) => StepServe(config, st, holder, lag)
    case ServeLate(holder, index) => StepServeLate(config, st, holder, index)
    case Read(id) => StepRead(st, id)
    case Place(id) => StepPlace(st, id)
    case GiveUp(id) =>
      if id in st.nodes && st.nodes[id].exchange.Some?
      then st.(nodes := st.nodes[id := st.nodes[id].(exchange := Some(st.nodes[id].exchange.value.(open := false)))])
      else st
  }

  // ---------- runs ----------

  ghost predicate IsInitial(config: Config, st: State)
  {
    forall id :: id in st.nodes ==> st.nodes[id] == Fresh(config)
  }

  /** `trace` is every state of the run that `events` drives, first to last. */
  ghost predicate IsRun(config: Config, trace: seq<State>, events: seq<Event>)
    requires config.Valid()
  {
    && |trace| == |events| + 1
    && IsInitial(config, trace[0])
    && forall i :: 0 <= i < |events| ==> trace[i + 1] == Step(config, trace[i], events[i])
  }

  /** Everything the nodes hold on lease, node by node. */
  ghost function LeasedMap(st: State): map<NodeId, nat>
  {
    map id | id in st.nodes :: Leased(st.nodes[id], st.now)
  }

  /** Everything the nodes believe they may open, node by node. */
  ghost function AllowanceMap(config: Config, st: State): map<NodeId, nat>
    requires config.Valid()
  {
    map id | id in st.nodes :: Guaranteed(config, st.nodes[id], st.now) + Leased(st.nodes[id], st.now)
  }
}
