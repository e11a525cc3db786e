/** The load client's session: what it sends for each statement, what it remembers having prepared,
    and what it reports when a transaction fails. */
module LoadClient {
  import opened Basics

  datatype SessionError =
    | Server(code: string, message: string)
    | Disconnected
    | Io(detail: string)
    | Frame(detail: string)
    | Auth(detail: string)

  const ADMIN_SHUTDOWN: string := "57P01"
  const REPLICA_HINT: string := "/* pgprox:replica */ "

  datatype Failed = Failed(error: SessionError, workLost: bool)

  /** A node sending the client elsewhere, with nothing lost. */
  predicate IsRelocation(failed: Failed)
  {
    !failed.workLost && failed.error.Server? && failed.error.code == ADMIN_SHUTDOWN
  }

  // ---------- reading until the server is ready ----------

  /** What the next read yields: a frame, or the reason there is none. */
  datatype Incoming =
    | Ready
    | ErrorResponse(code: string, message: string)
    | OtherFrame
    | Broken(error: SessionError)

  predicate Ends(read: Incoming)
  {
    read.Ready? || read.Broken?
  }

  /** How many frames come before the one that ends the wait. */
  function Waited(frames: seq<Incoming>): (n: nat)
    ensures n <= |frames|
    ensures forall i :: 0 <= i < n ==> !Ends(frames[i])
    ensures n < |frames| ==> Ends(frames[n])
  {
    if frames == [] || Ends(frames[0]) then 0 else 1 + Waited(frames[1..])
  }

  function FirstError(frames: seq<Incoming>): Option<SessionError>
  {
    if frames == [] then None
    else if frames[0].ErrorResponse? then Some(Server(frames[0].code, frames[0].message))
    else FirstError(frames[1..])
  }

  /** What a wait comes to: the first error the server sent while it lasted, unless the bytes stop
      making sense; a socket that closes after an error reports the error. */
  function Verdict(frames: seq<Incoming>): Option<SessionError>
  {
    var n := Waited(frames);
    var told := FirstError(frames[..n]);
    var end := if n < |frames| then frames[n] else Broken(Disconnected);
    if end.Ready? then told
    else if told.Some? && (end.error.Disconnected? || end.error.Io?) then told
    else Some(end.error)
  }

  function AfterWait(frames: seq<Incoming>): seq<Incoming>
  {
    var n := Waited(frames);
    if n < |frames| then frames[n + 1..] else []
  }

  lemma {:induction false} FirstErrorAppend(frames: seq<Incoming>, read: Incoming)
    ensures FirstError(frames + [read]) ==
      if FirstError(frames).Some? then FirstError(frames)
      else if read.ErrorResponse? then Some(Server(read.code, read.message)) else None
  {
    if frames == [] {
      assert [read][1..] == [];
    } else {
      FirstErrorAppend(frames[1..], read);
      assert (frames + [read])[1..] == frames[1..] + [read];
    }
  }

  lemma {:induction false} WaitedAt(frames: seq<Incoming>, n: nat)
    requires n <= |frames| && (forall i :: 0 <= i < n ==> !Ends(frames[i])) && (n < |frames| ==> Ends(frames[n]))
    ensures Waited(frames) == n
  {
    if n > 0 {
      WaitedAt(frames[1..], n - 1);
    }
  }

  /** The wait is over at read `e`, the first that says the server is ready or that nothing more can be
      read; at the end of what there is, the socket has closed. */
  ghost predicate WaitEnds(frames: seq<Incoming>, e: nat)
  {
    && e <= |frames| && (forall i :: 0 <= i < e ==> frames[i].ErrorResponse? || frames[i].OtherFrame?)
    && (e < |frames| ==> frames[e].Ready? || frames[e].Broken?)
  }

  /** The first error the server sent before read `e`. */
  ghost predicate FirstTold(frames: seq<Incoming>, e: nat, i: nat)
  {
    i < e <= |frames| && frames[i].ErrorResponse? && forall j :: 0 <= j < i ==> !frames[j].ErrorResponse?
  }

  lemma {:induction false} FirstErrorIs(frames: seq<Incoming>, e: nat)
    requires e <= |frames|
    ensures (forall i: nat :: !FirstTold(frames, e, i)) ==> FirstError(frames[..e]) == None
    ensures forall i: nat :: FirstTold(frames, e, i) ==>
      FirstError(frames[..e]) == Some(Server(frames[i].code, frames[i].message))
    decreases e
  {
    if e > 0 {
      var n := e - 1;
      FirstErrorIs(frames, n);
      assert frames[..e] == frames[..n] + [frames[n]];
      FirstErrorAppend(frames[..n], frames[n]);
      forall i: nat | FirstTold(frames, n, i)
        ensures FirstTold(frames, e, i)
      {
      }
      if forall i: nat :: !FirstTold(frames, n, i) {
        NoneTold(frames, n);
        assert frames[n].ErrorResponse? ==> FirstTold(frames, e, n);
      }
    }
  }

  lemma {:induction false} NoneTold(frames: seq<Incoming>, e: nat)
    requires e <= |frames| && forall i: nat :: !FirstTold(frames, e, i)
    ensures forall i :: 0 <= i < e ==> !frames[i].ErrorResponse?
    decreases e
  {
    if e > 0 {
      var n := e - 1;
      forall i: nat
        ensures !FirstTold(frames, n, i)
      {
        assert !FirstTold(frames, e, i);
      }
      NoneTold(frames, n);
      assert !FirstTold(frames, e, n);
    }
  }

  /** What a wait comes to, read off the frames: ready with nothing told is success; ready with an error
      told is the first one told; and a wait that breaks off reports what broke it, unless an error
      was told and the socket merely closed or failed, when it reports that. Reading goes on after the
      frame that ended the wait. */
  lemma VerdictExactly(frames: seq<Incoming>, e: nat)
    requires WaitEnds(frames, e)
    ensures var ready := e < |frames| && frames[e].Ready?;
            var broke := if e < |frames| && frames[e].Broken? then frames[e].error else Disconnected;
            && ((forall i: nat :: !FirstTold(frames, e, i)) ==> Verdict(frames) == if ready then None else Some(broke))
            && (forall i: nat :: FirstTold(frames, e, i) ==>
                  Verdict(frames) == if ready || broke.Disconnected? || broke.Io?
                                     then Some(Server(frames[i].code, frames[i].message)) else Some(broke))
    ensures AfterWait(frames) == if e < |frames| then frames[e + 1..] else []
  {
    WaitedAt(frames, e);
    FirstErrorIs(frames, e);
  }

  /** Reads until the server is ready, keeping the first error. */
  method UntilReady(frames: seq<Incoming>) returns (error: Option<SessionError>, rest: seq<Incoming>)
    ensures error == Verdict(frames) && rest == AfterWait(frames)
  {
    var failure: Option<SessionError> := None;
    var i := 0;
    while i < |frames|
      invariant i <= |frames| && forall j :: 0 <= j < i ==> !Ends(frames[j])
      invariant failure == FirstError(frames[..i])
    {
      if Ends(frames[i]) {
        WaitedAt(frames, i);
        rest := frames[i + 1..];
        if frames[i].Ready? {
          return failure, rest;
        }
        var broken := frames[i].error;
        if failure.Some? && (broken.Disconnected? || broken.Io?) {
          return failure, rest;
        }
        return Some(broken), rest;
      }
      FirstErrorAppend(frames[..i], frames[i]);
      assert frames[..i + 1] == frames[..i] + [frames[i]];
      if frames[i].ErrorResponse? && failure.None? {
        failure := Some(Server(frames[i].code, frames[i].message));
      }
      i := i + 1;
    }
    WaitedAt(frames, i);
    rest := [];
    error := if failure.Some? then failure else Some(Disconnected);
  }

  /** What a batch comes to: the write may fail, or find the socket closed; otherwise the wait
      decides. Each entry of `writes` is what becomes of one write. */
  function Reply(writes: seq<Option<string>>, frames: seq<Incoming>): Option<SessionError>
  {
    if writes == [] then Some(Io("closed"))
    else if writes[0].Some? then Some(Io(writes[0].value))
    else Verdict(frames)
  }

  /** A batch that could not be written is reported as a failed write, whatever could still be read. */
  lemma UnwrittenFails(writes: seq<Option<string>>, frames: seq<Incoming>)
    ensures writes == [] ==> Reply(writes, frames).Some? && Reply(writes, frames).value.Io?
    ensures writes != [] && writes[0].Some? ==> Reply(writes, frames) == Some(Io(writes[0].value))
    ensures writes != [] && writes[0].None? ==> Reply(writes, frames) == Verdict(frames)
  {
  }

  // ---------- what a session sends ----------

  datatype Request = Simple(sql: string) | Extended(name: string, sql: string)

  datatype Message = Query(sql: string) | Parse(name: string, sql: string) | Bind(name: string) | Execute | Sync

  /** One round trip: what was asked, and what came of it. */
  datatype Step = Step(request: Request, error: Option<SessionError>) {
    predicate Ok() { error.None? }
  }

  function StatementName(name: string): string
  {
    "pgload_" + name
  }

  /** The names some step has used, and the names some step has used and succeeded with. */
  function Asked(steps: seq<Step>): set<string>
  {
    if steps == [] then {}
    else
      var last := steps[|steps| - 1];
      Asked(steps[..|steps| - 1]) + if last.request.Extended? then {StatementName(last.request.name)} else {}
  }

  function Succeeded(steps: seq<Step>): set<string>
  {
    if steps == [] then {}
    else
      var last := steps[|steps| - 1];
      Succeeded(steps[..|steps| - 1]) +
        if last.request.Extended? && last.Ok() then {StatementName(last.request.name)} else {}
  }

  /** The batch a request goes out as, given the names already prepared. */
  function Batch(prepared: set<string>, request: Request): seq<Message>
  {
    match request
    case Simple(sql) => [Query(sql)]
    case Extended(name, sql) =>
      var statement := StatementName(name);
      (if statement in prepared then [] else [Parse(statement, sql)]) + [Bind(statement), Execute, Sync]
  }

  /** Everything a connection sends over its steps. */
  function Wire(steps: seq<Step>): seq<Message>
  {
    if steps == [] then []
    else
      var n := |steps| - 1;
      Wire(steps[..n]) + Batch(Succeeded(steps[..n]), steps[n].request)
  }

  predicate ParsedBefore(sent: seq<Message>, j: nat, name: string)
  {
    exists i :: 0 <= i < j && i < |sent| && sent[i].Parse? && sent[i].name == name
  }

  lemma WireMore(steps: seq<Step>, step: Step)
    ensures Wire(steps + [step]) == Wire(steps) + Batch(Succeeded(steps), step.request)
    ensures Succeeded(steps + [step]) ==
      Succeeded(steps) + if step.request.Extended? && step.Ok() then {StatementName(step.request.name)} else {}
    ensures Asked(steps + [step]) ==
      Asked(steps) + if step.request.Extended? then {StatementName(step.request.name)} else {}
  {
    assert (steps + [step])[..|steps|] == steps;
  }

  lemma ParsedLater(sent: seq<Message>, more: seq<Message>, name: string)
    requires ParsedBefore(sent, |sent|, name)
    ensures ParsedBefore(sent + more, |sent|, name)
  {
    var i :| 0 <= i < |sent| && sent[i].Parse? && sent[i].name == name;
    assert (sent + more)[i] == sent[i];
  }

  /** The names parsed on a connection are exactly the names asked for on it. */
  lemma {:induction false} ParsedIsAsked(steps: seq<Step>, name: string)
    ensures Succeeded(steps) <= Asked(steps)
    ensures name in Asked(steps) <==> ParsedBefore(Wire(steps), |Wire(steps)|, name)
  {
    if steps != [] {
      var n := |steps| - 1;
      var before, step := steps[..n], steps[n];
      assert steps == before + [step];
      WireMore(before, step);
      ParsedIsAsked(before, name);
      var sent, batch := Wire(before), Batch(Succeeded(before), step.request);
      if ParsedBefore(sent, |sent|, name) {
        ParsedLater(sent, batch, name);
      }
      BatchParses(sent, Succeeded(before), step.request, name);
    }
  }

  /** A batch adds at most one parsed name: the one it asks for, if it is not prepared. */
  lemma BatchParses(sent: seq<Message>, prepared: set<string>, request: Request, name: string)
    ensures var all := sent + Batch(prepared, request);
            ParsedBefore(all, |all|, name) <==>
              || ParsedBefore(sent, |sent|, name)
              || (request.Extended? && StatementName(request.name) == name && name !in prepared)
  {
    var batch := Batch(prepared, request);
    var all := sent + batch;
    if i :| 0 <= i < |all| && all[i].Parse? && all[i].name == name {
      assert i < |sent| ==> sent[i] == all[i];
      assert i >= |sent| ==> batch[i - |sent|] == all[i];
    }
    if ParsedBefore(sent, |sent|, name) {
      ParsedLater(sent, batch, name);
    }
    if request.Extended? && StatementName(request.name) == name && name !in prepared {
      assert all[|sent|] == Parse(name, request.sql);
    }
  }

  ghost predicate BindKnown(sent: seq<Message>, j: nat)
    requires j < |sent|
  {
    sent[j].Bind? ==> ParsedBefore(sent, j, sent[j].name)
  }

  /** Whatever succeeds or fails, every Bind names a statement parsed earlier on the connection or
      in the same batch. */
  lemma {:induction false} BindsKnown(steps: seq<Step>)
    ensures forall j: nat :: j < |Wire(steps)| ==> BindKnown(Wire(steps), j)
  {
    if steps != [] {
      var n := |steps| - 1;
      var before, step := steps[..n], steps[n];
      BindsKnown(before);
      forall j: nat | j < |Wire(steps)|
        ensures BindKnown(Wire(steps), j)
      {
        BindStep(before, step.request, j);
      }
    }
  }

  lemma BindStep(before: seq<Step>, request: Request, j: nat)
    requires forall i: nat :: i < |Wire(before)| ==> BindKnown(Wire(before), i)
    requires j < |Wire(before) + Batch(Succeeded(before), request)|
    ensures BindKnown(Wire(before) + Batch(Succeeded(before), request), j)
  {
    var sent, batch := Wire(before), Batch(Succeeded(before), request);
    if j < |sent| {
      assert BindKnown(sent, j);
      BindStands(sent, batch, j);
    } else if request.Extended? {
      var name := StatementName(request.name);
      ParsedIsAsked(before, name);
      BindNew(sent, Succeeded(before), request, j);
    }
  }

  lemma BindStands(sent: seq<Message>, batch: seq<Message>, j: nat)
    requires j < |sent| && BindKnown(sent, j)
    ensures BindKnown(sent + batch, j)
  {
    var all := sent + batch;
    assert all[j] == sent[j];
    if sent[j].Bind? {
      var i :| 0 <= i < j && i < |sent| && sent[i].Parse? && sent[i].name == sent[j].name;
      assert all[i] == sent[i];
    }
  }

  lemma BindNew(sent: seq<Message>, prepared: set<string>, request: Request, j: nat)
    requires request.Extended? && |sent| <= j < |sent + Batch(prepared, request)|
    requires StatementName(request.name) in prepared ==> ParsedBefore(sent, |sent|, StatementName(request.name))
    ensures BindKnown(sent + Batch(prepared, request), j)
  {
    var name, batch := StatementName(request.name), Batch(prepared, request);
    var all := sent + batch;
    assert all[j] == batch[j - |sent|];
    if name in prepared {
      ParsedLater(sent, batch, name);
    } else {
      assert all[|sent|] == batch[0];
    }
  }

  // ---------- the shape of what is sent ----------

  /** A Parse is bound at once, and a Bind is executed and synced at once. */
  ghost predicate Complete(sent: seq<Message>, j: nat)
    requires j < |sent|
  {
    && (sent[j].Parse? ==> j + 1 < |sent| && sent[j + 1] == Bind(sent[j].name))
    && (sent[j].Bind? ==> j + 2 < |sent| && sent[j + 1] == Execute && sent[j + 2] == Sync)
  }

  /** Nothing is left half said, whatever succeeds or fails. */
  lemma {:induction false} SentComplete(steps: seq<Step>, j: nat)
    requires j < |Wire(steps)|
    ensures Complete(Wire(steps), j)
  {
    if steps != [] {
      var n := |steps| - 1;
      var sent, batch := Wire(steps[..n]), Batch(Succeeded(steps[..n]), steps[n].request);
      if j < |sent| {
        SentComplete(steps[..n], j);
        assert Complete(sent, j);
      } else {
        assert (sent + batch)[j] == batch[j - |sent|];
      }
    }
  }

  /** How many answers of readiness the server owes for these messages. */
  function Owed(sent: seq<Message>): nat
  {
    if sent == [] then 0
    else Owed(sent[..|sent| - 1]) + match sent[|sent| - 1] case Query(_) => 1 case Sync => 1 case _ => 0
  }

  lemma {:induction false} OwedTogether(a: seq<Message>, b: seq<Message>)
    ensures Owed(a + b) == Owed(a) + Owed(b)
    decreases |b|
  {
    if b == [] {
      assert a + b == a;
    } else {
      OwedTogether(a, b[..|b| - 1]);
      assert (a + b)[..|a + b| - 1] == a + b[..|b| - 1];
    }
  }

  /** Each round trip asks for readiness once, so each wait gets its own answer. */
  lemma {:induction false} OneWaitEach(steps: seq<Step>)
    ensures Owed(Wire(steps)) == |steps|
  {
    if steps != [] {
      var n := |steps| - 1;
      OneWaitEach(steps[..n]);
      var prepared, request := Succeeded(steps[..n]), steps[n].request;
      OwedTogether(Wire(steps[..n]), Batch(prepared, request));
      OwedOnce(prepared, request);
    }
  }

  lemma OwedOnce(prepared: set<string>, request: Request)
    ensures Owed(Batch(prepared, request)) == 1
  {
    match request
    case Simple(sql) =>
      assert Owed([Query(sql)]) == 1;
    case Extended(name, sql) =>
      var statement := StatementName(name);
      var tail := [Bind(statement), Execute, Sync];
      assert tail[..2] == [Bind(statement), Execute] && tail[..2][..1] == [Bind(statement)];
      assert tail[..1] == [Bind(statement)] && tail[..1][..0] == [];
      assert Owed(tail[..1]) == 0;
      assert Owed(tail[..2]) == 0;
      if statement !in prepared {
        OwedTogether([Parse(statement, sql)], tail);
      } else {
        assert [] + tail == tail;
      }
  }

  /** Everything sent was asked for: the text of a query, or of a statement under its own name. */
  lemma {:induction false} SentAsAsked(steps: seq<Step>, j: nat)
    requires j < |Wire(steps)|
    ensures Wire(steps)[j].Query? ==> exists k :: 0 <= k < |steps| && steps[k].request == Simple(Wire(steps)[j].sql)
    ensures Wire(steps)[j].Parse? ==>
      exists k, name :: 0 <= k < |steps| && steps[k].request == Extended(name, Wire(steps)[j].sql)
                        && Wire(steps)[j].name == "pgload_" + name
  {
    if steps != [] {
      var n := |steps| - 1;
      var sent, batch := Wire(steps[..n]), Batch(Succeeded(steps[..n]), steps[n].request);
      if j < |sent| {
        SentAsAsked(steps[..n], j);
        assert Wire(steps)[j] == sent[j];
      } else {
        assert (sent + batch)[j] == batch[j - |sent|];
        assert steps[n].request.Extended? ==>
            steps[n].request == Extended(steps[n].request.name, steps[n].request.sql);
      }
    }
  }

  // ---------- no name is parsed twice ----------

  ghost predicate ParsedOnce(sent: seq<Message>)
  {
    forall i, j :: 0 <= i < j < |sent| && sent[i].Parse? && sent[j].Parse? ==> sent[i].name != sent[j].name
  }

  /** Step `k` asks for a name that was asked for before and has never succeeded. */
  predicate Retries(steps: seq<Step>, k: nat)
  {
    k < |steps| && steps[k].request.Extended? &&
    var name := StatementName(steps[k].request.name);
    name in Asked(steps[..k]) && name !in Succeeded(steps[..k])
  }

  lemma OnceAppend(sent: seq<Message>, batch: seq<Message>)
    requires batch != [] && forall i :: 0 < i < |batch| ==> !batch[i].Parse?
    ensures ParsedOnce(sent + batch) <==>
      ParsedOnce(sent) && (batch[0].Parse? ==> !ParsedBefore(sent, |sent|, batch[0].name))
  {
    var all := sent + batch;
    assert forall i :: 0 <= i < |sent| ==> all[i] == sent[i];
    assert forall i :: |sent| < i < |all| ==> all[i] == batch[i - |sent|];
    assert all[|sent|] == batch[0];
  }

  lemma OnceMore(before: seq<Step>, request: Request)
    ensures ParsedOnce(Wire(before) + Batch(Succeeded(before), request)) <==>
      && ParsedOnce(Wire(before))
      && !(request.Extended? && StatementName(request.name) in Asked(before)
           && StatementName(request.name) !in Succeeded(before))
  {
    OnceAppend(Wire(before), Batch(Succeeded(before), request));
    if request.Extended? {
      ParsedIsAsked(before, StatementName(request.name));
    }
  }

  ghost predicate NeverRetries(steps: seq<Step>)
  {
    forall k: nat :: !Retries(steps, k)
  }

  lemma NeverRetriesMore(steps: seq<Step>)
    requires steps != []
    ensures var n: nat := |steps| - 1;
            NeverRetries(steps) <==> NeverRetries(steps[..n]) && !Retries(steps, n)
  {
    var n: nat := |steps| - 1;
    forall k: nat | k < n
      ensures Retries(steps, k) <==> Retries(steps[..n], k)
    {
      assert steps[..n][..k] == steps[..k];
    }
  }

  /** A connection parses no name twice exactly when it never asks again for a name that failed and
      has not succeeded. */
  lemma {:induction false} ParsedOnceExactly(steps: seq<Step>)
    ensures ParsedOnce(Wire(steps)) <==> NeverRetries(steps)
  {
    if steps != [] {
      var n := |steps| - 1;
      ParsedOnceExactly(steps[..n]);
      OnceMore(steps[..n], steps[n].request);
      NeverRetriesMore(steps);
    }
  }

  predicate AllOk(steps: seq<Step>)
  {
    forall k :: 0 <= k < |steps| ==> steps[k].Ok()
  }

  /** Only the last step may have failed: how the load loop leaves every session. */
  predicate OnlyLastFails(steps: seq<Step>)
  {
    forall k :: 0 <= k < |steps| - 1 ==> steps[k].Ok()
  }

  lemma {:induction false} AllOkAskedSucceeded(steps: seq<Step>)
    requires AllOk(steps)
    ensures Asked(steps) == Succeeded(steps)
  {
    if steps != [] {
      AllOkAskedSucceeded(steps[..|steps| - 1]);
    }
  }

  lemma DrivenParsesOnce(steps: seq<Step>)
    requires OnlyLastFails(steps)
    ensures ParsedOnce(Wire(steps))
  {
    forall k: nat
      ensures !Retries(steps, k)
    {
      if k < |steps| {
        AllOkAskedSucceeded(steps[..k]);
      }
    }
    ParsedOnceExactly(steps);
  }

  // ---------- the session ----------

  datatype Statement = Statement(name: string, sql: string, prepared: bool, replicaEligible: bool)

  function RequestFor(statement: Statement): Request
  {
    var sql := if statement.replicaEligible then REPLICA_HINT + statement.sql else statement.sql;
    if statement.prepared then Extended(statement.name, sql) else Simple(sql)
  }

  function Requests(statements: seq<Statement>): seq<Request>
  {
    seq(|statements|, i requires 0 <= i < |statements| => RequestFor(statements[i]))
  }

  /** The steps of a transaction: more than one statement is wrapped. */
  function Plan(statements: seq<Statement>): seq<Request>
  {
    if |statements| > 1 then [Simple("BEGIN")] + Requests(statements) + [Simple("COMMIT")] else Requests(statements)
  }

  /** The first `m` steps of a plan, all successful. */
  function Done(plan: seq<Request>, m: nat): seq<Step>
    requires m <= |plan|
  {
    if m == 0 then [] else Done(plan, m - 1) + [Step(plan[m - 1], None)]
  }

  /** The plan has been followed for `m` steps. */
  ghost predicate Follows(before: seq<Step>, steps: seq<Step>, plan: seq<Request>, m: nat)
  {
    m <= |plan| && steps == before + Done(plan, m)
  }

  /** The plan was followed for `m` steps and the next one failed: the report gives that step's
      error, and says work was lost exactly when some step before it succeeded. */
  ghost predicate Broke(before: seq<Step>, steps: seq<Step>, plan: seq<Request>, m: nat, failed: Failed)
  {
    && m < |plan|
    && steps == before + Done(plan, m) + [Step(plan[m], Some(failed.error))]
    && (failed.workLost <==> m > 0)
  }

  lemma {:induction false} DoneOk(plan: seq<Request>, m: nat)
    requires m <= |plan|
    ensures |Done(plan, m)| == m && forall k :: 0 <= k < m ==> Done(plan, m)[k] == Step(plan[k], None)
  {
    if m > 0 {
      DoneOk(plan, m - 1);
    }
  }

  /** A failed transaction is a node sending the client elsewhere exactly when it failed at its first
      step, told 57P01: after any success there is work lost, and that is an error. */
  lemma RelocationExactly(before: seq<Step>, steps: seq<Step>, plan: seq<Request>, m: nat, failed: Failed)
    requires Broke(before, steps, plan, m, failed)
    ensures IsRelocation(failed) <==> m == 0 && exists message :: failed.error == Server("57P01", message)
  {
    if failed.error.Server? {
      assert failed.error == Server(failed.error.code, failed.error.message);
    }
  }

  /** What goes out for a statement: its own text, with the routing hint before it exactly when a
      replica may serve it, prepared exactly when it is to be. */
  lemma RequestSays(statement: Statement)
    ensures var text := if statement.replicaEligible then "/* pgprox:replica */ " + statement.sql else statement.sql;
            RequestFor(statement) == Extended(statement.name, text) || RequestFor(statement) == Simple(text)
    ensures RequestFor(statement).Extended? <==> statement.prepared
  {
  }

  class LoadSession {
    var prepared: set<string>
    /** The batch being put together, and everything handed to the socket so far. */
    var write: seq<Message>
    var sent: seq<Message>
    /** What the server will send, and what will become of each write. */
    var incoming: seq<Incoming>
    var writes: seq<Option<string>>

    ghost var steps: seq<Step>

    /** What was sent and what is remembered are what the steps so far determine. */
    ghost predicate Valid()
      reads this
    {
      sent == Wire(steps) && prepared == Succeeded(steps)
    }

    constructor (incoming: seq<Incoming>, writes: seq<Option<string>>)
      ensures Valid() && steps == []
    {
      this.incoming, this.writes := incoming, writes;
      prepared, write, sent, steps := {}, [], [], [];
    }

    /** Hands the batch to the socket and waits. A socket with no writes left is closed. */
    method Exchange() returns (error: Option<SessionError>)
      modifies this`sent, this`writes, this`incoming
      ensures sent == old(sent) + write
      ensures error == Reply(old(writes), old(incoming))
    {
      sent := sent + write;
      if writes == [] {
        return Some(Io("closed"));
      }
      var refused := writes[0];
      writes := writes[1..];
      if refused.Some? {
        return Some(Io(refused.value));
      }
      error, incoming := UntilReady(incoming);
    }

    method SimpleQuery(sql: string) returns (error: Option<SessionError>)
      requires Valid()
      modifies this
      ensures Valid() && steps == old(steps) + [Step(Simple(sql), error)]
      ensures error == Reply(old(writes), old(incoming))
    {
      write := [Query(sql)];
      error := Exchange();
      WireMore(steps, Step(Simple(sql), error));
      steps := steps + [Step(Simple(sql), error)];
    }

    /** Parses only a name not prepared yet, and remembers it only if the whole batch succeeded. */
    method ExtendedQuery(name: string, sql: string) returns (error: Option<SessionError>)
      requires Valid()
      modifies this
      ensures Valid() && steps == old(steps) + [Step(Extended(name, sql), error)]
      ensures error == Reply(old(writes), old(incoming))
    {
      var statement := StatementName(name);
      write := [];
      if statement !in prepared {
        write := write + [Parse(statement, sql)];
      }
      write := write + [Bind(statement), Execute, Sync];
      assert write == Batch(prepared, Extended(name, sql));
      error := Exchange();
      if error.None? {
        prepared := prepared + {statement};
      }
      WireMore(steps, Step(Extended(name, sql), error));
      steps := steps + [Step(Extended(name, sql), error)];
    }

    method Perform(request: Request) returns (error: Option<SessionError>)
      requires Valid()
      modifies this
      ensures Valid() && steps == old(steps) + [Step(request, error)]
    {
      match request {
        case Simple(sql) => error := SimpleQuery(sql);
        case Extended(name, sql) => error := ExtendedQuery(name, sql);
      }
    }

    /** The next step of a transaction. `started` is whether anything in it has succeeded yet. */
    method Next(request: Request, started: bool, ghost before: seq<Step>, ghost plan: seq<Request>, ghost m: nat)
        returns (failed: Option<Failed>)
      requires Valid() && Follows(before, steps, plan, m) && (started <==> m > 0)
      requires m < |plan| && plan[m] == request
      modifies this
      ensures Valid()
      ensures failed.None? ==> Follows(before, steps, plan, m + 1)
      ensures failed.Some? ==> Broke(before, steps, plan, m, failed.value)
    {
      var error := Perform(request);
      if error.Some? {
        return Some(Failed(error.value, started));
      }
      assert before + Done(plan, m) + [Step(plan[m], None)] == before + Done(plan, m + 1);
      return None;
    }

    /** The statements of a transaction, in order, up to one that fails. They are the plan's from
        `at`, which is as far as it has been followed. */
    method AskAll(statements: seq<Statement>, at: nat, ghost before: seq<Step>, ghost plan: seq<Request>)
        returns (failed: Option<Failed>)
      requires Valid() && Follows(before, steps, plan, at) && Holds(plan, at, statements)
      modifies this
      ensures Valid()
      ensures failed.None? ==> Follows(before, steps, plan, at + |statements|)
      ensures failed.Some? ==> exists m: nat :: Broke(before, steps, plan, m, failed.value)
    {
      failed := None;
      var started := at > 0;
      ghost var m := at;
      for i := 0 to |statements|
        invariant Valid() && failed.None?
        invariant m == at + i && Follows(before, steps, plan, m)
        invariant started <==> m > 0
      {
        HoldsAt(plan, at, statements, i, m);
        assert m < |plan| && plan[m] == RequestFor(statements[i]);
        failed := Next(RequestFor(statements[i]), started, before, plan, m);
        if failed.Some? {
          return;
        }
        started, m := true, m + 1;
      }
    }

    /** Every step of the plan succeeded, or the plan broke at one and the report gives its error
        and whether any before it had succeeded, BEGIN included. */
    method Transaction(statements: seq<Statement>) returns (failed: Option<Failed>)
      requires Valid()
      modifies this
      ensures Valid()
      ensures failed.None? ==> Follows(old(steps), steps, Plan(statements), |Plan(statements)|)
      ensures failed.Some? ==> exists m: nat :: Broke(old(steps), steps, Plan(statements), m, failed.value)
    {
      ghost var before, plan := steps, Plan(statements);
      PlanHolds(statements);
      assert before + Done(plan, 0) == before;
      var wrapped := |statements| > 1;
      if wrapped {
        failed := Next(Simple("BEGIN"), false, before, plan, 0);
        if failed.Some? {
          return;
        }
      }
      failed := AskAll(statements, if wrapped then 1 else 0, before, plan);
      if failed.None? && wrapped {
        failed := Next(Simple("COMMIT"), true, before, plan, |statements| + 1);
      }
    }
  }

  /** The plan asks these statements, in order, from position `at`. */
  ghost predicate Holds(plan: seq<Request>, at: nat, statements: seq<Statement>)
  {
    at + |statements| <= |plan| && plan[at..at + |statements|] == Requests(statements)
  }

  lemma HoldsAt(plan: seq<Request>, at: nat, statements: seq<Statement>, i: nat, m: nat)
    requires Holds(plan, at, statements) && i < |statements| && m == at + i
    ensures m < |plan| && plan[m] == RequestFor(statements[i])
  {
    assert plan[m] == plan[at..at + |statements|][i];
  }

  lemma PlanHolds(statements: seq<Statement>)
    ensures var plan, n := Plan(statements), |statements|;
            if n > 1 then
              |plan| == n + 2 && plan[0] == Simple("BEGIN") && plan[n + 1] == Simple("COMMIT")
                && Holds(plan, 1, statements)
            else
              |plan| == n && Holds(plan, 0, statements)
  {
  }

  lemma FollowedOk(before: seq<Step>, steps: seq<Step>, plan: seq<Request>, m: nat)
    requires Follows(before, steps, plan, m) && AllOk(before)
    ensures AllOk(steps)
  {
    DoneOk(plan, m);
  }

  lemma BrokeAtLast(before: seq<Step>, steps: seq<Step>, plan: seq<Request>, m: nat, failed: Failed)
    requires Broke(before, steps, plan, m, failed) && AllOk(before)
    ensures OnlyLastFails(steps)
  {
    DoneOk(plan, m);
  }

  /** How the load loop uses a session: transactions until one fails, then no more. */
  method Drive(session: LoadSession, transactions: seq<seq<Statement>>) returns (failed: Option<Failed>)
    requires session.Valid() && session.steps == []
    modifies session
    ensures session.Valid() && OnlyLastFails(session.steps)
    ensures ParsedOnce(session.sent)
    ensures forall j: nat :: j < |session.sent| ==> BindKnown(session.sent, j)
  {
    failed := None;
    for i := 0 to |transactions|
      invariant session.Valid() && failed.None? && AllOk(session.steps)
    {
      ghost var before, plan := session.steps, Plan(transactions[i]);
      failed := session.Transaction(transactions[i]);
      if failed.Some? {
        ghost var m: nat :| Broke(before, session.steps, plan, m, failed.value);
        BrokeAtLast(before, session.steps, plan, m, failed.value);
        break;
      }
      FollowedOk(before, session.steps, plan, |plan|);
    }
    assert OnlyLastFails(session.steps);
    DrivenParsesOnce(session.steps);
    BindsKnown(session.steps);
  }
}
