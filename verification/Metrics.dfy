/** Printing the client and upstream gauges, and reading them back. */
module Metrics {
  import opened Basics
  import opened Totals
  import opened Text
  import opened Exposition
  import opened Sessions

  const OTHER: string := "other"

  datatype View = View(tenant: string, state: ClientState)

  /** A pool's gauges, under its server's address. */
  datatype PoolView = PoolView(server: string, active: nat, idle: nat)

  function StateName(state: ClientState): string
  {
    match state
    case Idle => "idle"
    case Active => "active"
    case Waiting => "waiting"
  }

  function LabelFor(allowed: set<string>, tenant: string): string
  {
    if tenant in allowed then tenant else OTHER
  }

  function NodeName(node: NodeId): string
  {
    "node-" + Digits(node)
  }

  // ---------- counting clients by cell ----------

  /** A state and a tenant label for the client gauge; a server and a state for the upstream one. */
  type Cell = (string, string)

  function CellOf(view: View, allowed: set<string>): (cell: Cell)
    ensures Plain(cell.0)
  {
    (StateName(view.state), LabelFor(allowed, view.tenant))
  }

  function CountIn(clients: seq<View>, allowed: set<string>, cell: Cell): nat
  {
    if clients == [] then 0
    else
      var n := |clients| - 1;
      CountIn(clients[..n], allowed, cell) + if CellOf(clients[n], allowed) == cell then 1 else 0
  }

  /** The table of clients: each cell some client is in, with how many are. */
  ghost function CellCounts(clients: seq<View>, allowed: set<string>): map<Cell, nat>
  {
    map cell | cell in CellSet(clients, allowed) :: CountIn(clients, allowed, cell)
  }

  ghost function CellSet(clients: seq<View>, allowed: set<string>): set<Cell>
  {
    set view | view in clients :: CellOf(view, allowed)
  }

  lemma {:induction false} CountedCells(clients: seq<View>, allowed: set<string>, cell: Cell)
    ensures CountIn(clients, allowed, cell) > 0 <==> cell in CellSet(clients, allowed)
  {
    if clients != [] {
      var n := |clients| - 1;
      CountedCells(clients[..n], allowed, cell);
      assert clients == clients[..n] + [clients[n]];
    }
  }

  lemma CountMore(clients: seq<View>, allowed: set<string>, view: View, cell: Cell)
    ensures CountIn(clients + [view], allowed, cell)
         == CountIn(clients, allowed, cell) + if CellOf(view, allowed) == cell then 1 else 0
  {
    assert (clients + [view])[..|clients|] == clients;
  }

  lemma CellSetMore(clients: seq<View>, allowed: set<string>, view: View)
    ensures CellSet(clients + [view], allowed) == CellSet(clients, allowed) + {CellOf(view, allowed)}
  {
    assert forall v :: v in clients + [view] <==> v in clients || v == view;
  }

  /** One more client is one more in its own cell. */
  lemma CellsStep(clients: seq<View>, allowed: set<string>, view: View)
    ensures CellCounts(clients + [view], allowed) == Bump(CellCounts(clients, allowed), CellOf(view, allowed))
  {
    var more, after := CellCounts(clients + [view], allowed), Bump(CellCounts(clients, allowed), CellOf(view, allowed));
    CellSetMore(clients, allowed, view);
    CountedCells(clients, allowed, CellOf(view, allowed));
    forall cell | cell in more
      ensures cell in after && more[cell] == after[cell]
    {
      CountMore(clients, allowed, view, cell);
    }
    assert more.Keys == after.Keys;
  }

  lemma CellsTake(clients: seq<View>, allowed: set<string>, i: nat)
    requires i < |clients|
    ensures CellCounts(clients[..i + 1], allowed)
      == Bump(CellCounts(clients[..i], allowed), CellOf(clients[i], allowed))
  {
    CellsStep(clients[..i], allowed, clients[i]);
    assert clients[..i + 1] == clients[..i] + [clients[i]];
  }

  /** The counts of any first clients add up to how many they are. */
  lemma {:induction false} CellsAddUp(clients: seq<View>, allowed: set<string>, n: nat)
    requires n <= |clients|
    ensures Total(CellCounts(clients[..n], allowed)) == n
  {
    if n == 0 {
      assert CellCounts(clients[..0], allowed) == map[];
    } else {
      CellsAddUp(clients, allowed, n - 1);
      CellsTake(clients, allowed, n - 1);
      BumpTotal(CellCounts(clients[..n - 1], allowed), CellOf(clients[n - 1], allowed));
    }
  }

  method CountByStateAndTenant(clients: seq<View>, allowed: set<string>) returns (counts: map<Cell, nat>)
    ensures counts == CellCounts(clients, allowed)
  {
    counts := map[];
    for i := 0 to |clients|
      invariant counts == CellCounts(clients[..i], allowed)
    {
      CellsTake(clients, allowed, i);
      counts := Bump(counts, CellOf(clients[i], allowed));
    }
    assert clients[..|clients|] == clients;
  }

  /** A client shows under this state and this tenant label: its own state, and its own tenant if that
      is one of those allowed or `other` if it is not. */
  predicate Shows(view: View, allowed: set<string>, state: string, shownAs: string)
  {
    && (match view.state
        case Idle => state == "idle"
        case Active => state == "active"
        case Waiting => state == "waiting")
    && (if view.tenant in allowed then shownAs == view.tenant else shownAs == "other")
  }

  ghost function Showing(clients: seq<View>, allowed: set<string>, state: string, shownAs: string): set<int>
  {
    set i | 0 <= i < |clients| && Shows(clients[i], allowed, state, shownAs)
  }

  lemma {:induction false} CountIsShowing(clients: seq<View>, allowed: set<string>, state: string, shownAs: string)
    ensures CountIn(clients, allowed, (state, shownAs)) == |Showing(clients, allowed, state, shownAs)|
  {
    if clients != [] {
      var n := |clients| - 1;
      CountIsShowing(clients[..n], allowed, state, shownAs);
      assert Showing(clients, allowed, state, shownAs)
          == Showing(clients[..n], allowed, state, shownAs)
           + if Shows(clients[n], allowed, state, shownAs) then {n} else {};
    }
  }

  // ---------- escaping ----------

  lemma {:induction false} EscapeAppend(v: string, c: char)
    ensures Escape(v + [c]) == Escape(v) + EscapeChar(c)
  {
    if v == [] {
      assert [c][1..] == [];
      assert Escape([c]) == EscapeChar(c) + Escape([]);
    } else {
      EscapeAppend(v[1..], c);
      assert (v + [c])[1..] == v[1..] + [c];
    }
  }

  method EscapeLabelValue(value: string) returns (escaped: string)
    ensures escaped == Escape(value)
  {
    if '\\' in value || '"' in value || '\n' in value {
      escaped := [];
      for i := 0 to |value|
        invariant escaped == Escape(value[..i])
      {
        EscapeAppend(value[..i], value[i]);
        assert value[..i + 1] == value[..i] + [value[i]];
        if value[i] == '\\' {
          escaped := escaped + "\\\\";
        } else if value[i] == '"' {
          escaped := escaped + "\\\"";
        } else if value[i] == '\n' {
          escaped := escaped + "\\n";
        } else {
          escaped := escaped + [value[i]];
        }
      }
      assert value[..|value|] == value;
    } else {
      PlainEscape(value);
      escaped := value;
    }
  }

  // ---------- what is printed, and what is read back ----------

  datatype Gauge = ClientConns | UpstreamConns

  /** The label set of a cell; node and state are printed as they are, the rest escaped. */
  function LabelSet(gauge: Gauge, node: NodeId, cell: Cell): seq<(string, string)>
  {
    match gauge
    case ClientConns => [("node", NodeName(node)), ("state", cell.0), ("tenant", cell.1)]
    case UpstreamConns => [("node", NodeName(node)), ("server", cell.0), ("state", cell.1)]
  }

  function SampleFor(gauge: Gauge, name: string, node: NodeId, cell: Cell, count: nat): Sample
  {
    Sample(name, LabelSet(gauge, node, cell), count)
  }

  predicate MetricName(name: string)
  {
    '{' !in name && '\n' !in name
  }

  lemma SampleWellFormed(gauge: Gauge, name: string, node: NodeId, cell: Cell, count: nat)
    requires MetricName(name)
    ensures WellFormed(SampleFor(gauge, name, node, cell, count))
  {
  }

  lemma PlainNode(node: NodeId)
    ensures Escape(NodeName(node)) == NodeName(node)
  {
    PlainEscape(NodeName(node));
  }

  function Pair(key: string, text: string): string
  {
    key + "=" + ("\"" + text + "\"")
  }

  /** The line as the printer formats it. */
  function Formatted(name: string, node: NodeId, key1: string, text1: string, key2: string, text2: string,
                     count: nat): string
  {
    var labels := Pair("node", NodeName(node)) + ("," + (Pair(key1, text1) + ("," + (Pair(key2, text2) + "}"))));
    name + "{" + labels + " " + Digits(count) + "\n"
  }

  lemma ThreeLabels(labels: seq<(string, string)>)
    requires |labels| == 3
    ensures RenderLabels(labels) == RenderPair(labels[0].0, labels[0].1) +
      ([','] + (RenderPair(labels[1].0, labels[1].1) + ([','] + (RenderPair(labels[2].0, labels[2].1) + ['}']))))
  {
    var two := labels[1..];
    assert two[1..] == [labels[2]];
    assert RenderLabels(two) ==
      RenderPair(labels[1].0, labels[1].1) + ([','] + (RenderPair(labels[2].0, labels[2].1) + ['}']));
  }

  lemma FormattedIsLine(gauge: Gauge, name: string, node: NodeId, cell: Cell, count: nat)
    ensures RenderLine(SampleFor(gauge, name, node, cell, count)) == LineFor(gauge, name, node, cell, count)
  {
    PlainNode(node);
    ThreeLabels(LabelSet(gauge, node, cell));
  }

  ghost function LineFor(gauge: Gauge, name: string, node: NodeId, cell: Cell, count: nat): string
  {
    match gauge
    case ClientConns => Formatted(name, node, "state", Escape(cell.0), "tenant", Escape(cell.1), count)
    case UpstreamConns => Formatted(name, node, "server", Escape(cell.0), "state", Escape(cell.1), count)
  }

  ghost function SamplesFor(gauge: Gauge, name: string, node: NodeId, cells: seq<Cell>, counts: map<Cell,
                            nat>): seq<Sample>
    requires forall i :: 0 <= i < |cells| ==> cells[i] in counts
  {
    seq(|cells|, i requires 0 <= i < |cells| => SampleFor(gauge, name, node, cells[i], counts[cells[i]]))
  }

  ghost predicate Sampled(samples: seq<Sample>, gauge: Gauge, name: string, node: NodeId, counts: map<Cell, nat>,
                          cell: Cell)
    requires cell in counts
  {
    SampleFor(gauge, name, node, cell, counts[cell]) in samples
  }

  /** The samples are exactly one table: one sample per cell, no two with the same label set. */
  ghost predicate Recovers(samples: seq<Sample>, gauge: Gauge, name: string, node: NodeId, counts: map<Cell, nat>)
  {
    && |samples| == |counts|
    && (forall cell {:trigger Sampled(samples, gauge, name, node, counts, cell)} ::
          cell in counts ==> Sampled(samples, gauge, name, node, counts, cell))
    && (forall i :: 0 <= i < |samples| ==>
          exists cell :: cell in counts && samples[i] == SampleFor(gauge, name, node, cell, counts[cell]))
    && (forall i, j :: 0 <= i < j < |samples| ==> samples[i].labels != samples[j].labels)
  }

  /** The cells printed so far: each once, and none left over. */
  ghost predicate Listed(cells: seq<Cell>, among: set<Cell>)
  {
    && (forall i, j :: 0 <= i < j < |cells| ==> cells[i] != cells[j])
    && (forall cell :: cell in cells <==> cell in among)
  }

  lemma {:induction false} ListedSize(cells: seq<Cell>, among: set<Cell>)
    requires Listed(cells, among)
    ensures |cells| == |among|
  {
    if cells == [] {
      assert among == {};
    } else {
      var n := |cells| - 1;
      assert cells == cells[..n] + [cells[n]];
      ListedSize(cells[..n], among - {cells[n]});
    }
  }

  lemma LabelSetInjective(gauge: Gauge, node: NodeId, a: Cell, b: Cell)
    requires LabelSet(gauge, node, a) == LabelSet(gauge, node, b)
    ensures a == b
  {
    var left, right := LabelSet(gauge, node, a), LabelSet(gauge, node, b);
    assert left[1] == right[1] && left[2] == right[2];
  }

  lemma PrintedRecovers(gauge: Gauge, name: string, node: NodeId, cells: seq<Cell>, counts: map<Cell, nat>)
    requires Listed(cells, counts.Keys)
    ensures Recovers(SamplesFor(gauge, name, node, cells, counts), gauge, name, node, counts)
  {
    var samples := SamplesFor(gauge, name, node, cells, counts);
    ListedSize(cells, counts.Keys);
    forall cell | cell in counts
      ensures Sampled(samples, gauge, name, node, counts, cell)
    {
      var i :| 0 <= i < |cells| && cells[i] == cell;
      assert samples[i] == SampleFor(gauge, name, node, cell, counts[cell]);
    }
    forall i | 0 <= i < |samples|
      ensures exists cell :: cell in counts && samples[i] == SampleFor(gauge, name, node, cell, counts[cell])
    {
      assert cells[i] in counts;
    }
    DistinctLabels(gauge, name, node, cells, counts);
  }

  lemma DistinctLabels(gauge: Gauge, name: string, node: NodeId, cells: seq<Cell>, counts: map<Cell, nat>)
    requires Listed(cells, counts.Keys)
    ensures var samples := SamplesFor(gauge, name, node, cells, counts);
            forall i, j :: 0 <= i < j < |samples| ==> samples[i].labels != samples[j].labels
  {
    forall i, j | 0 <= i < j < |cells|
      ensures LabelSet(gauge, node, cells[i]) != LabelSet(gauge, node, cells[j])
    {
      if LabelSet(gauge, node, cells[i]) == LabelSet(gauge, node, cells[j]) {
        LabelSetInjective(gauge, node, cells[i], cells[j]);
      }
    }
  }

  /** Everything a scrape of this gauge promises. */
  ghost predicate ReadsBack(out: string, gauge: Gauge, name: string, node: NodeId, counts: map<Cell, nat>)
  {
    var read := ReadAll(out);
    && read.Some?
    && Recovers(read.value, gauge, name, node, counts)
    && AllWellFormed(read.value) && out == RenderAll(read.value)
  }

  /** The output so far is the lines of these cells. */
  ghost predicate Printed(out: string, gauge: Gauge, name: string, node: NodeId, cells: seq<Cell>, counts: map<Cell,
                          nat>)
  {
    && (forall i :: 0 <= i < |cells| ==> cells[i] in counts)
    && AllWellFormed(SamplesFor(gauge, name, node, cells, counts))
    && out == RenderAll(SamplesFor(gauge, name, node, cells, counts))
  }

  lemma SamplesMore(gauge: Gauge, name: string, node: NodeId, cells: seq<Cell>, cell: Cell, counts: map<Cell, nat>)
    requires cell in counts && forall i :: 0 <= i < |cells| ==> cells[i] in counts
    ensures forall i :: 0 <= i < |cells + [cell]| ==> (cells + [cell])[i] in counts
    ensures SamplesFor(gauge, name, node, cells + [cell], counts)
         == SamplesFor(gauge, name, node, cells, counts) + [SampleFor(gauge, name, node, cell, counts[cell])]
  {
  }

  lemma PrintedMore(out: string, gauge: Gauge, name: string, node: NodeId, cells: seq<Cell>, cell: Cell,
                    counts: map<Cell, nat>)
    requires Printed(out, gauge, name, node, cells, counts) && cell in counts && MetricName(name)
    ensures Printed(out + LineFor(gauge, name, node, cell, counts[cell]), gauge, name, node, cells + [cell], counts)
  {
    SamplesMore(gauge, name, node, cells, cell, counts);
    SampleWellFormed(gauge, name, node, cell, counts[cell]);
    RenderAppend(SamplesFor(gauge, name, node, cells, counts), SampleFor(gauge, name, node, cell, counts[cell]));
    FormattedIsLine(gauge, name, node, cell, counts[cell]);
  }

  lemma PrintedReads(out: string, gauge: Gauge, name: string, node: NodeId, cells: seq<Cell>, counts: map<Cell, nat>)
    requires Printed(out, gauge, name, node, cells, counts) && Listed(cells, counts.Keys)
    ensures ReadsBack(out, gauge, name, node, counts)
  {
    AllRead(SamplesFor(gauge, name, node, cells, counts));
    PrintedRecovers(gauge, name, node, cells, counts);
  }

  lemma ListedMore(cells: seq<Cell>, among: set<Cell>, cell: Cell)
    requires Listed(cells, among) && cell !in among
    ensures Listed(cells + [cell], among + {cell})
  {
  }

  /** Reading a scrape of the client gauge gives the (state, tenant label) counts, one sample
      each. */
  method ClientSamples(name: string, clients: seq<View>, node: NodeId, allowed: set<string>) returns (out: string)
    requires MetricName(name)
    ensures ReadsBack(out, ClientConns, name, node, CellCounts(clients, allowed))
    ensures Total(CellCounts(clients, allowed)) == |clients|
    ensures ClientsScraped(out, name, clients, node, allowed)
  {
    CellsAddUp(clients, allowed, |clients|);
    assert clients[..|clients|] == clients;
    var counts := CountByStateAndTenant(clients, allowed);
    PlainStates(clients, allowed);
    out := PrintCells(name, node, counts);
    CellsScraped(out, name, clients, node, allowed);
  }

  /** The one sample of the client gauge for a state and a tenant label. */
  function ClientSample(name: string, node: NodeId, state: string, shownAs: string, value: nat): Sample
  {
    Sample(name, [("node", "node-" + Digits(node)), ("state", state), ("tenant", shownAs)], value)
  }

  /** What a scrape of the client gauge says, from the clients alone: for every state and label, how many
      clients show under them if any do, once, and nothing else. */
  ghost predicate ClientsScraped(out: string, name: string, clients: seq<View>, node: NodeId, allowed: set<string>)
  {
    var read := ReadAll(out);
    && read.Some?
    && (forall state, shownAs :: Showing(clients, allowed, state, shownAs) != {} ==>
          ClientSample(name, node, state, shownAs, |Showing(clients, allowed, state, shownAs)|) in read.value)
    && (forall s :: s in read.value ==>
          exists state, shownAs :: Showing(clients, allowed, state, shownAs) != {}
            && s == ClientSample(name, node, state, shownAs, |Showing(clients, allowed, state, shownAs)|))
    && (forall i, j :: 0 <= i < j < |read.value| ==> read.value[i].labels != read.value[j].labels)
  }

  lemma CellsScraped(out: string, name: string, clients: seq<View>, node: NodeId, allowed: set<string>)
    requires ReadsBack(out, ClientConns, name, node, CellCounts(clients, allowed))
    ensures ClientsScraped(out, name, clients, node, allowed)
  {
    var read, counts := ReadAll(out).value, CellCounts(clients, allowed);
    forall state, shownAs | Showing(clients, allowed, state, shownAs) != {}
      ensures ClientSample(name, node, state, shownAs, |Showing(clients, allowed, state, shownAs)|) in read
    {
      CountIsShowing(clients, allowed, state, shownAs);
      CountedCells(clients, allowed, (state, shownAs));
      assert Sampled(read, ClientConns, name, node, counts, (state, shownAs));
    }
    forall s | s in read
      ensures exists state, shownAs :: Showing(clients, allowed, state, shownAs) != {}
                && s == ClientSample(name, node, state, shownAs, |Showing(clients, allowed, state, shownAs)|)
    {
      var i :| 0 <= i < |read| && read[i] == s;
      var cell :| cell in counts && read[i] == SampleFor(ClientConns, name, node, cell, counts[cell]);
      CountIsShowing(clients, allowed, cell.0, cell.1);
      CountedCells(clients, allowed, cell);
    }
  }

  /** A tenant that is not on the list is named in no sample, whatever clients it has. */
  lemma OffListUnnamed(out: string, name: string, clients: seq<View>, node: NodeId, allowed: set<string>, s: Sample)
    requires ClientsScraped(out, name, clients, node, allowed) && s in ReadAll(out).value
    ensures |s.labels| == 3 && s.labels[2].0 == "tenant" && (s.labels[2].1 in allowed || s.labels[2].1 == "other")
  {
    var state, shownAs :| Showing(clients, allowed, state, shownAs) != {}
      && s == ClientSample(name, node, state, shownAs, |Showing(clients, allowed, state, shownAs)|);
    var i :| i in Showing(clients, allowed, state, shownAs);
  }

  lemma PlainStates(clients: seq<View>, allowed: set<string>)
    ensures forall cell :: cell in CellCounts(clients, allowed) ==> Plain(cell.0)
  {
  }

  /** Where printing stands: these cells are out, each once. */
  ghost predicate Going(out: string, gauge: Gauge, name: string, node: NodeId, cells: seq<Cell>, counts: map<Cell, nat>,
                        done: set<Cell>)
  {
    Listed(cells, done) && Printed(out, gauge, name, node, cells, counts)
  }

  lemma GoingStart(gauge: Gauge, name: string, node: NodeId, counts: map<Cell, nat>)
    ensures Going("", gauge, name, node, [], counts, {})
  {
  }

  method PrintCell(before: string, name: string, node: NodeId, counts: map<Cell, nat>, cell: Cell,
                   ghost cells: seq<Cell>, ghost done: set<Cell>)
      returns (out: string, ghost more: seq<Cell>)
    requires Going(before, ClientConns, name, node, cells, counts, done) && MetricName(name)
    requires cell in counts && cell !in done && Plain(cell.0)
    ensures Going(out, ClientConns, name, node, more, counts, done + {cell})
  {
    PrintedMore(before, ClientConns, name, node, cells, cell, counts);
    ListedMore(cells, done, cell);
    PlainEscape(cell.0);
    var tenant := EscapeLabelValue(cell.1);
    out := before + Formatted(name, node, "state", cell.0, "tenant", tenant, counts[cell]);
    more := cells + [cell];
  }

  /** Prints every cell's line, in some order. */
  method PrintCells(name: string, node: NodeId, counts: map<Cell, nat>) returns (out: string)
    requires MetricName(name) && forall cell :: cell in counts ==> Plain(cell.0)
    ensures ReadsBack(out, ClientConns, name, node, counts)
  {
    out := "";
    var rest := counts.Keys;
    ghost var cells: seq<Cell>, done: set<Cell> := [], {};
    GoingStart(ClientConns, name, node, counts);
    while rest != {}
      invariant rest !! done && rest + done == counts.Keys
      invariant Going(out, ClientConns, name, node, cells, counts, done)
      decreases |rest|
    {
      var cell :| cell in rest;
      out, cells := PrintCell(out, name, node, counts, cell, cells, done);
      done := done + {cell};
      rest := rest - {cell};
    }
    assert done == counts.Keys;
    PrintedReads(out, ClientConns, name, node, cells, counts);
  }

  // ---------- upstream connections ----------

  function Gauged(pool: PoolView, state: string): nat
  {
    if state == "active" then pool.active else pool.idle
  }

  function SumFor(pools: seq<PoolView>, server: string, state: string): nat
  {
    if pools == [] then 0
    else
      var n := |pools| - 1;
      SumFor(pools[..n], server, state) + if pools[n].server == server then Gauged(pools[n], state) else 0
  }

  ghost function ServersOf(pools: seq<PoolView>): set<string>
  {
    set pool | pool in pools :: pool.server
  }

  /** Each server some pool is on, with its two sums. */
  ghost function ServerSums(pools: seq<PoolView>): map<string, (nat, nat)>
  {
    map server | server in ServersOf(pools) :: (SumFor(pools, server, "active"), SumFor(pools, server, "idle"))
  }

  function AddPool(totals: map<string, (nat, nat)>, pool: PoolView): map<string, (nat, nat)>
  {
    var so := if pool.server in totals then totals[pool.server] else (0, 0);
    totals[pool.server := (so.0 + pool.active, so.1 + pool.idle)]
  }

  lemma {:induction false} AbsentSum(pools: seq<PoolView>, server: string, state: string)
    requires server !in ServersOf(pools)
    ensures SumFor(pools, server, state) == 0
  {
    if pools != [] {
      var n := |pools| - 1;
      assert pools == pools[..n] + [pools[n]];
      AbsentSum(pools[..n], server, state);
    }
  }

  lemma SumMore(pools: seq<PoolView>, pool: PoolView, server: string, state: string)
    ensures SumFor(pools + [pool], server, state)
         == SumFor(pools, server, state) + if pool.server == server then Gauged(pool, state) else 0
  {
    assert (pools + [pool])[..|pools|] == pools;
  }

  lemma ServersMore(pools: seq<PoolView>, pool: PoolView)
    ensures ServersOf(pools + [pool]) == ServersOf(pools) + {pool.server}
  {
    assert forall p :: p in pools + [pool] <==> p in pools || p == pool;
  }

  lemma SumAt(pools: seq<PoolView>, pool: PoolView, server: string)
    requires server in ServersOf(pools) || server == pool.server
    ensures var after := AddPool(ServerSums(pools), pool);
            server in after && after[server]
              == (SumFor(pools + [pool], server, "active"), SumFor(pools + [pool], server, "idle"))
  {
    SumMore(pools, pool, server, "active");
    SumMore(pools, pool, server, "idle");
    if server !in ServersOf(pools) {
      AbsentSum(pools, server, "active");
      AbsentSum(pools, server, "idle");
    }
  }

  /** One more pool adds to its own server's sums. */
  lemma SumsStep(pools: seq<PoolView>, pool: PoolView)
    ensures ServerSums(pools + [pool]) == AddPool(ServerSums(pools), pool)
  {
    var more, after := ServerSums(pools + [pool]), AddPool(ServerSums(pools), pool);
    ServersMore(pools, pool);
    forall server | server in more
      ensures server in after && more[server] == after[server]
    {
      SumAt(pools, pool, server);
    }
    assert more.Keys == after.Keys;
  }

  lemma SumsTake(pools: seq<PoolView>, i: nat)
    requires i < |pools|
    ensures ServerSums(pools[..i + 1]) == AddPool(ServerSums(pools[..i]), pools[i])
  {
    SumsStep(pools[..i], pools[i]);
    assert pools[..i + 1] == pools[..i] + [pools[i]];
  }

  method SumByServer(pools: seq<PoolView>) returns (totals: map<string, (nat, nat)>)
    ensures totals == ServerSums(pools)
  {
    totals := map[];
    for i := 0 to |pools|
      invariant totals == ServerSums(pools[..i])
    {
      SumsTake(pools, i);
      totals := AddPool(totals, pools[i]);
    }
    assert pools[..|pools|] == pools;
  }

  /** The upstream table: an active and an idle cell for each server some pool is on. */
  ghost function UpstreamCounts(pools: seq<PoolView>): map<Cell, nat>
  {
    map cell: Cell | cell in Cells(ServersOf(pools)) :: SumFor(pools, cell.0, cell.1)
  }

  ghost function TableOf(totals: map<string, (nat, nat)>): map<Cell, nat>
  {
    map cell: Cell | cell in Cells(totals.Keys) :: if cell.1 == "active" then totals[cell.0].0 else totals[cell.0].1
  }

  ghost function Cells(servers: set<string>): set<Cell>
  {
    (set server | server in servers :: (server, "active")) + (set server | server in servers :: (server, "idle"))
  }

  lemma TableIsUpstream(pools: seq<PoolView>)
    ensures TableOf(ServerSums(pools)) == UpstreamCounts(pools)
  {
    assert ServerSums(pools).Keys == ServersOf(pools);
  }

  lemma CellsMore(servers: set<string>, server: string)
    ensures Cells(servers + {server}) == Cells(servers) + {(server, "active")} + {(server, "idle")}
    ensures server !in servers ==> (server, "active") !in Cells(servers) && (server, "idle") !in Cells(servers)
  {
  }

  lemma BothListed(cells: seq<Cell>, servers: set<string>, server: string)
    requires Listed(cells, Cells(servers)) && server !in servers
    ensures Listed(cells + [(server, "active")] + [(server, "idle")], Cells(servers + {server}))
  {
    CellsMore(servers, server);
    ListedMore(cells, Cells(servers), (server, "active"));
    ListedMore(cells + [(server, "active")], Cells(servers) + {(server, "active")}, (server, "idle"));
  }

  lemma BothPrinted(out: string, name: string, node: NodeId, cells: seq<Cell>, counts: map<Cell, nat>, server: string)
    requires Printed(out, UpstreamConns, name, node, cells, counts) && MetricName(name)
    requires (server, "active") in counts && (server, "idle") in counts
    ensures Printed(out + LineFor(UpstreamConns, name, node, (server, "active"), counts[(server, "active")])
                        + LineFor(UpstreamConns, name, node, (server, "idle"), counts[(server, "idle")]),
                    UpstreamConns, name, node, cells + [(server, "active")] + [(server, "idle")], counts)
  {
    var active: Cell, idle: Cell := (server, "active"), (server, "idle");
    PrintedMore(out, UpstreamConns, name, node, cells, active, counts);
    PrintedMore(out + LineFor(UpstreamConns, name, node, active, counts[active]), UpstreamConns, name, node,
                cells + [active], idle, counts);
  }

  lemma UpstreamLine(name: string, node: NodeId, server: string, state: string, count: nat)
    requires Plain(state)
    ensures Formatted(name, node, "server", Escape(server), "state", state, count)
         == LineFor(UpstreamConns, name, node, (server, state), count)
  {
    PlainEscape(state);
  }

  /** The two lines of one server. */
  method ServerLines(before: string, name: string, node: NodeId, server: string, active: nat, idle: nat)
      returns (out: string)
    ensures out == before + LineFor(UpstreamConns, name, node, (server, "active"), active)
                          + LineFor(UpstreamConns, name, node, (server, "idle"), idle)
  {
    var escaped := EscapeLabelValue(server);
    UpstreamLine(name, node, server, "active", active);
    UpstreamLine(name, node, server, "idle", idle);
    out := before + Formatted(name, node, "server", escaped, "state", "active", active);
    out := out + Formatted(name, node, "server", escaped, "state", "idle", idle);
  }

  lemma ServerGoing(out: string, name: string, node: NodeId, cells: seq<Cell>, totals: map<string, (nat, nat)>,
                    done: set<string>, server: string)
    requires Going(out, UpstreamConns, name, node, cells, TableOf(totals), Cells(done)) && MetricName(name)
    requires server in totals && server !in done
    ensures Going(out + LineFor(UpstreamConns, name, node, (server, "active"), totals[server].0)
                      + LineFor(UpstreamConns, name, node, (server, "idle"), totals[server].1),
                  UpstreamConns, name, node, cells + [(server, "active")] + [(server, "idle")], TableOf(totals),
                  Cells(done + {server}))
  {
    ServerCells(totals, server);
    BothListed(cells, done, server);
    BothPrinted(out, name, node, cells, TableOf(totals), server);
  }

  method PrintServer(before: string, name: string, node: NodeId, totals: map<string, (nat, nat)>, server: string,
                     ghost cells: seq<Cell>, ghost done: set<string>)
      returns (out: string, ghost more: seq<Cell>)
    requires Going(before, UpstreamConns, name, node, cells, TableOf(totals), Cells(done)) && MetricName(name)
    requires server in totals && server !in done
    ensures Going(out, UpstreamConns, name, node, more, TableOf(totals), Cells(done + {server}))
  {
    ServerGoing(before, name, node, cells, totals, done, server);
    out := ServerLines(before, name, node, server, totals[server].0, totals[server].1);
    more := cells + [(server, "active")] + [(server, "idle")];
  }

  /** Prints every server's two lines, in some order. */
  method PrintServers(name: string, node: NodeId, totals: map<string, (nat, nat)>) returns (out: string)
    requires MetricName(name)
    ensures ReadsBack(out, UpstreamConns, name, node, TableOf(totals))
  {
    out := "";
    var rest := totals.Keys;
    ghost var cells: seq<Cell>, done: set<string> := [], {};
    GoingStart(UpstreamConns, name, node, TableOf(totals));
    assert Cells({}) == {};
    while rest != {}
      invariant rest !! done && rest + done == totals.Keys
      invariant Going(out, UpstreamConns, name, node, cells, TableOf(totals), Cells(done))
      decreases |rest|
    {
      var server :| server in rest;
      out, cells := PrintServer(out, name, node, totals, server, cells, done);
      done := done + {server};
      rest := rest - {server};
    }
    assert done == totals.Keys;
    TableReads(out, name, node, cells, totals);
  }

  lemma TableReads(out: string, name: string, node: NodeId, cells: seq<Cell>, totals: map<string, (nat, nat)>)
    requires Going(out, UpstreamConns, name, node, cells, TableOf(totals), Cells(totals.Keys))
    ensures ReadsBack(out, UpstreamConns, name, node, TableOf(totals))
  {
    assert Cells(totals.Keys) == TableOf(totals).Keys;
    PrintedReads(out, UpstreamConns, name, node, cells, TableOf(totals));
  }

  lemma ServerCells(totals: map<string, (nat, nat)>, server: string)
    requires server in totals
    ensures var counts := TableOf(totals);
            && (server, "active") in counts && counts[(server, "active")] == totals[server].0
            && (server, "idle") in counts && counts[(server, "idle")] == totals[server].1
  {
  }

  /** The connections in use, and the idle ones, that some pools hold on a server. */
  function InUse(pools: seq<PoolView>, server: string): nat
  {
    if pools == [] then 0
    else InUse(pools[..|pools| - 1], server)
         + if pools[|pools| - 1].server == server then pools[|pools| - 1].active else 0
  }

  function Spare(pools: seq<PoolView>, server: string): nat
  {
    if pools == [] then 0
    else Spare(pools[..|pools| - 1], server)
         + if pools[|pools| - 1].server == server then pools[|pools| - 1].idle else 0
  }

  lemma {:induction false} SumsAre(pools: seq<PoolView>, server: string)
    ensures SumFor(pools, server, "active") == InUse(pools, server)
    ensures SumFor(pools, server, "idle") == Spare(pools, server)
  {
    if pools != [] {
      SumsAre(pools[..|pools| - 1], server);
    }
  }

  function UpstreamSample(name: string, node: NodeId, server: string, state: string, value: nat): Sample
  {
    Sample(name, [("node", "node-" + Digits(node)), ("server", server), ("state", state)], value)
  }

  /** A server's two samples: its connections in use, and its idle ones. */
  ghost function BusySample(name: string, pools: seq<PoolView>, node: NodeId, server: string): Sample
  {
    UpstreamSample(name, node, server, "active", InUse(pools, server))
  }

  ghost function SpareSample(name: string, pools: seq<PoolView>, node: NodeId, server: string): Sample
  {
    UpstreamSample(name, node, server, "idle", Spare(pools, server))
  }

  ghost predicate ServerRead(read: seq<Sample>, name: string, pools: seq<PoolView>, node: NodeId, server: string)
  {
    BusySample(name, pools, node, server) in read && SpareSample(name, pools, node, server) in read
  }

  /** A sample of the server it names. */
  ghost predicate OfItsServer(s: Sample, name: string, pools: seq<PoolView>, node: NodeId)
  {
    && |s.labels| == 3 && s.labels[1].1 in ServersOf(pools)
    && (s == BusySample(name, pools, node, s.labels[1].1) || s == SpareSample(name, pools, node, s.labels[1].1))
  }

  /** What a scrape of the upstream gauge says, from the pools alone: two samples for every server some
      pool is on, its connections in use and its idle ones, and nothing else. */
  ghost predicate UpstreamScraped(out: string, name: string, pools: seq<PoolView>, node: NodeId)
  {
    ReadAll(out).Some? && UpstreamRead(ReadAll(out).value, name, pools, node)
  }

  ghost predicate UpstreamRead(read: seq<Sample>, name: string, pools: seq<PoolView>, node: NodeId)
  {
    && (forall i, j :: 0 <= i < j < |read| ==> read[i].labels != read[j].labels)
    && (forall server :: server in ServersOf(pools) ==> ServerRead(read, name, pools, node, server))
    && (forall i :: 0 <= i < |read| ==> OfItsServer(read[i], name, pools, node))
  }

  /** A cell's sample is its server's. */
  lemma CellSample(name: string, pools: seq<PoolView>, node: NodeId, server: string)
    ensures SampleFor(UpstreamConns, name, node, (server, "active"), SumFor(pools, server, "active"))
         == BusySample(name, pools, node, server)
    ensures SampleFor(UpstreamConns, name, node, (server, "idle"), SumFor(pools, server, "idle"))
         == SpareSample(name, pools, node, server)
  {
    SumsAre(pools, server);
  }

  lemma UpstreamCells(pools: seq<PoolView>, server: string)
    requires server in ServersOf(pools)
    ensures var counts := UpstreamCounts(pools);
            && (server, "active") in counts && counts[(server, "active")] == SumFor(pools, server, "active")
            && (server, "idle") in counts && counts[(server, "idle")] == SumFor(pools, server, "idle")
  {
  }

  lemma ServerScraped(read: seq<Sample>, name: string, pools: seq<PoolView>, node: NodeId, server: string)
    requires Recovers(read, UpstreamConns, name, node, UpstreamCounts(pools)) && server in ServersOf(pools)
    ensures ServerRead(read, name, pools, node, server)
  {
    UpstreamCells(pools, server);
    CellSample(name, pools, node, server);
    var active: Cell, idle: Cell := (server, "active"), (server, "idle");
    assert Sampled(read, UpstreamConns, name, node, UpstreamCounts(pools), active);
    assert Sampled(read, UpstreamConns, name, node, UpstreamCounts(pools), idle);
  }

  lemma ScrapedFromServer(read: seq<Sample>, name: string, pools: seq<PoolView>, node: NodeId, i: nat)
    requires Recovers(read, UpstreamConns, name, node, UpstreamCounts(pools)) && i < |read|
    ensures OfItsServer(read[i], name, pools, node)
  {
    var counts := UpstreamCounts(pools);
    var cell :| cell in counts && read[i] == SampleFor(UpstreamConns, name, node, cell, counts[cell]);
    CellSample(name, pools, node, cell.0);
  }

  lemma ServersScraped(read: seq<Sample>, name: string, pools: seq<PoolView>, node: NodeId)
    requires Recovers(read, UpstreamConns, name, node, UpstreamCounts(pools))
    ensures UpstreamRead(read, name, pools, node)
  {
    forall server | server in ServersOf(pools)
      ensures ServerRead(read, name, pools, node, server)
    {
      ServerScraped(read, name, pools, node, server);
    }
    forall i | 0 <= i < |read|
      ensures OfItsServer(read[i], name, pools, node)
    {
      ScrapedFromServer(read, name, pools, node, i);
    }
  }

  /** Two pools on one server never print the same label set: they are summed, and reading the
      scrape gives each server's sums. */
  method UpstreamSamples(name: string, pools: seq<PoolView>, node: NodeId) returns (out: string)
    requires MetricName(name)
    ensures ReadsBack(out, UpstreamConns, name, node, UpstreamCounts(pools))
    ensures UpstreamScraped(out, name, pools, node)
  {
    var totals := SumByServer(pools);
    TableIsUpstream(pools);
    out := PrintServers(name, node, totals);
    ServersScraped(ReadAll(out).value, name, pools, node);
  }
}
