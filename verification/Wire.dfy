/** What one node tells another about itself and its clients, there and back. */
module Wire {
  import opened Basics
  import opened Text
  import Sessions
  import Metrics

  // ---------- server addresses ----------

  /** A server identifier is made only from a host and a port. */
  function NewServer(host: string, port: nat): ServerId
  {
    host + ":" + Digits(port)
  }

  /** A decimal 16-bit number: an optional plus sign, then at least one digit. */
  function ParsePort(text: string): (port: Option<nat>)
  {
    var digits := if text != [] && text[0] == '+' then text[1..] else text;
    if digits == [] || !AllDigits(digits) || Value(digits) > U16_MAX then None else Some(Value(digits))
  }

  /** The split is at the last colon, so an IPv6 host keeps its own. */
  function ParseServer(text: string): Option<ServerId>
  {
    match UpToLast(text, ':')
    case None => None
    case Some((host, port)) =>
      if host == [] then None
      else
        match ParsePort(port)
        case None => None
        case Some(n) => if n == 0 then None else Some(NewServer(host, n))
  }

  /** A port is any decimal number of 16 bits, with or without a plus sign and however many zeros, and
      nothing else is one. */
  lemma PortExactly(text: string, n: nat)
    ensures ParsePort(Digits(n)) == ParsePort("+" + Digits(n)) == if n <= 65535 then Some(n) else None
    ensures AllDigits(text) && text != [] ==>
      ParsePort(text) == if Value(text) <= 65535 then Some(Value(text)) else None
    ensures ParsePort(text).Some? ==> text != [] && AllDigits(if text[0] == '+' then text[1..] else text)
  {
    DigitsRead(n);
    assert ("+" + Digits(n))[1..] == Digits(n);
  }

  /** The identifier came from a host and a 16-bit port. */
  ghost predicate Made(id: ServerId, host: string, port: nat)
  {
    port <= U16_MAX && id == NewServer(host, port)
  }

  /** An address parses back to itself unless its host is empty or its port is zero, and then it
      does not parse at all. */
  lemma ServerRoundTrip(id: ServerId, host: string, port: nat)
    requires Made(id, host, port)
    ensures ParseServer(id) == if host == [] || port == 0 then None else Some(id)
  {
    var digits := Digits(port);
    UpToLastFinds(host, ':', digits);
    DigitsRead(port);
  }

  /** An identifier names one host and one port. */
  lemma ServerInjective(id: ServerId, host: string, port: nat, other: string, otherPort: nat)
    requires Made(id, host, port) && Made(id, other, otherPort)
    ensures host == other && port == otherPort
  {
    UpToLastFinds(host, ':', Digits(port));
    UpToLastFinds(other, ':', Digits(otherPort));
    DigitsRead(port);
    DigitsRead(otherPort);
  }

  /** What parses is always an identifier that parses back. */
  lemma ParsedIsMade(text: string)
    requires ParseServer(text).Some?
    ensures exists host, port :: Made(ParseServer(text).value, host, port) && host != [] && port > 0
    ensures ParseServer(ParseServer(text).value) == ParseServer(text)
  {
    var cut := UpToLast(text, ':').value;
    var port := ParsePort(cut.1).value;
    assert Made(ParseServer(text).value, cut.0, port);
    ServerRoundTrip(ParseServer(text).value, cut.0, port);
  }

  // ---------- digests ----------

  datatype Digest = Digest(
    node: NodeId,
    mode: Mode,
    clientConns: nat,
    upstreamConns: seq<(ServerId, nat)>,
    tenantUsage: seq<(string, nat)>,
    version: nat
  )

  datatype DigestWire = DigestWire(
    node: NodeId,
    mode: string,
    version: nat,
    clientConns: nat,
    upstreamConns: seq<(string, nat)>,
    tenantUsage: seq<(string, nat)>
  )

  function ModeName(mode: Mode): string
  {
    match mode
    case Active => "active"
    case Draining => "draining"
  }

  function ToWire(d: Digest): DigestWire
  {
    DigestWire(d.node, ModeName(d.mode), d.version, d.clientConns, d.upstreamConns, d.tenantUsage)
  }

  ghost predicate AddressesParse(conns: seq<(string, nat)>)
  {
    forall i :: 0 <= i < |conns| ==> ParseServer(conns[i].0).Some?
  }

  /** All or nothing: refused exactly when some address fails, and otherwise every entry in its
      place. */
  ghost function DigestOf(wire: DigestWire): Option<Digest>
  {
    if !AddressesParse(wire.upstreamConns) then None
    else
      Some(Digest(
             wire.node,
             if wire.mode == "draining" then Draining else Active,
             wire.clientConns,
             seq(|wire.upstreamConns|, i requires 0 <= i < |wire.upstreamConns| =>
                   (ParseServer(wire.upstreamConns[i].0).value, wire.upstreamConns[i].1)),
             wire.tenantUsage,
             wire.version))
  }

  method ParseDigest(wire: DigestWire) returns (digest: Option<Digest>)
    ensures digest == DigestOf(wire)
  {
    var upstream: seq<(ServerId, nat)> := [];
    for i := 0 to |wire.upstreamConns|
      invariant |upstream| == i
      invariant forall j :: 0 <= j < i ==>
                  && ParseServer(wire.upstreamConns[j].0).Some?
                  && upstream[j] == (ParseServer(wire.upstreamConns[j].0).value, wire.upstreamConns[j].1)
    {
      var (server, count) := wire.upstreamConns[i];
      var parsed := ParseServer(server);
      if parsed.None? {
        return None;
      }
      upstream := upstream + [(parsed.value, count)];
    }
    var mode := if wire.mode == "draining" then Draining else Active;
    digest := Some(Digest(wire.node, mode, wire.clientConns, upstream, wire.tenantUsage, wire.version));
    assert upstream == DigestOf(wire).value.upstreamConns;
  }

  /** What a mode is on the wire, and what is made of one that is neither: a node is draining only if
      it says so. */
  lemma ModeOnWire(d: Digest, wire: DigestWire)
    ensures ToWire(d).mode == if d.mode == Draining then "draining" else "active"
    ensures DigestOf(wire).Some? ==> (DigestOf(wire).value.mode == Draining <==> wire.mode == "draining")
  {
  }

  /** Every server in it came from a host and a port. */
  ghost predicate AllMade(d: Digest)
  {
    forall i :: 0 <= i < |d.upstreamConns| ==> exists host, port :: Made(d.upstreamConns[i].0, host, port)
  }

  /** Every server in it has a host and a port something can listen on. */
  ghost predicate Dialable(d: Digest)
  {
    forall i, host, port :: 0 <= i < |d.upstreamConns| && Made(d.upstreamConns[i].0, host, port) ==>
      host != [] && port != 0
  }

  lemma DialableParses(d: Digest)
    requires AllMade(d)
    ensures Dialable(d) <==> AddressesParse(d.upstreamConns)
  {
    forall i, host, port | 0 <= i < |d.upstreamConns| && Made(d.upstreamConns[i].0, host, port)
      ensures ParseServer(d.upstreamConns[i].0).Some? <==> host != [] && port != 0
    {
      ServerRoundTrip(d.upstreamConns[i].0, host, port);
    }
  }

  /** A digest comes back as it left exactly when all its servers are dialable; with one that is
      not, the whole digest is refused. */
  lemma DigestRoundTrip(d: Digest)
    requires AllMade(d)
    ensures DigestOf(ToWire(d)) == if Dialable(d) then Some(d) else None
  {
    DialableParses(d);
    if Dialable(d) {
      var back := DigestOf(ToWire(d)).value;
      forall i | 0 <= i < |d.upstreamConns|
        ensures back.upstreamConns[i] == d.upstreamConns[i]
      {
        var host, port :| Made(d.upstreamConns[i].0, host, port);
        ServerRoundTrip(d.upstreamConns[i].0, host, port);
      }
      assert back.upstreamConns == d.upstreamConns;
    }
  }

  // ---------- clients ----------

  const SECRETS: nat := 0x1_0000_0000_0000

  /** A connection id carries its node above a 48-bit secret. */
  function NewConn(node: NodeId, secret: nat): nat
  {
    node * SECRETS + secret % SECRETS
  }

  function ConnNode(conn: nat): NodeId
  {
    conn / SECRETS
  }

  function ConnSecret(conn: nat): nat
  {
    conn % SECRETS
  }

  datatype Client = Client(
    conn: nat,
    tenant: string,
    node: NodeId,
    state: Sessions.ClientState,
    since: Time,
    pinned: Option<string>
  )

  datatype ClientWire = ClientWire(
    node: NodeId,
    conn: nat,
    tenant: string,
    state: string,
    sinceMs: nat,
    pinned: Option<string>
  )

  function ClientToWire(c: Client): ClientWire
  {
    ClientWire(c.node, ConnSecret(c.conn), c.tenant, Metrics.StateName(c.state),
               Min(c.since / MILLISECOND, U64_MAX), c.pinned)
  }

  /** A state no reader knows is read as idle. */
  function ParseClient(wire: ClientWire): Client
  {
    var state := if wire.state == "active" then Sessions.ClientState.Active
                 else if wire.state == "waiting" then Sessions.Waiting
                 else Sessions.Idle;
    Client(NewConn(wire.node, wire.conn), wire.tenant, wire.node, state, wire.sinceMs * MILLISECOND, wire.pinned)
  }

  /** What a state is on the wire, and what is made of one nobody knows: idle. */
  lemma StateOnWire(c: Client, wire: ClientWire)
    ensures ClientToWire(c).state ==
      match c.state case Idle => "idle" case Active => "active" case Waiting => "waiting"
    ensures ParseClient(wire).state.Active? <==> wire.state == "active"
    ensures ParseClient(wire).state.Waiting? <==> wire.state == "waiting"
  {
  }

  /** A connection id is its node and its secret. */
  lemma ConnParts(node: NodeId, secret: nat)
    ensures ConnNode(NewConn(node, secret)) == node
    ensures ConnSecret(NewConn(node, secret)) == secret % 0x1_0000_0000_0000
    ensures NewConn(ConnNode(secret), ConnSecret(secret)) == secret
  {
  }

  /** An age on the wire: whole milliseconds, as many as 64 bits hold. */
  function WireAge(since: Time): Time
  {
    Min(since / MILLISECOND, U64_MAX) * MILLISECOND
  }

  /** An age that fits loses less than a millisecond. */
  lemma AgeKept(since: Time)
    ensures WireAge(since) <= since
    ensures since - WireAge(since) < MILLISECOND <==> since / MILLISECOND <= U64_MAX
  {
    assert since == since / MILLISECOND * MILLISECOND + since % MILLISECOND;
  }

  /** A client comes back as it left, but for its age on the wire, exactly when its connection id
      carries the node serving it; otherwise only the connection id differs. */
  lemma ClientRoundTrip(c: Client)
    ensures ParseClient(ClientToWire(c)) == c.(since := WireAge(c.since)) <==> ConnNode(c.conn) == c.node
    ensures ParseClient(ClientToWire(c)).(conn := c.conn) == c.(since := WireAge(c.since))
  {
    ConnParts(c.node, c.conn);
    ConnParts(c.node, ConnSecret(c.conn));
  }
}
