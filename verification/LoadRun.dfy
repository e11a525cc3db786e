/** A load run: what each connection tallies, and the report made of all of them. */
module LoadRun {
  import opened Basics
  import opened LoadClient
  import opened LoadReport

  /** Why a connection could not be opened. */
  datatype Refused = Local(detail: string) | Told(error: SessionError)

  /** One transaction as the loop saw it end. */
  datatype Result = Finished(micros: nat) | Failure(failed: Failed, at: Time)

  /** One connection attempt: turned away, or served some transactions. What a session would go on
      to do after a failure is in `results` too; the loop does not get there. */
  datatype Attempt = Turned(refused: Refused, at: Time) | Served(results: seq<Result>)

  // ---------- what happened ----------

  datatype Event = Done(micros: nat) | Refusal(refused: Refused, at: Time) | Loss(failed: Failed, at: Time)

  /** A session's transactions up to and including its first failure. */
  function Used(results: seq<Result>): seq<Event>
  {
    if results == [] then []
    else
      match results[0]
      case Finished(micros) => [Done(micros)] + Used(results[1..])
      case Failure(failed, at) => [Loss(failed, at)]
  }

  /** Everything that happened on one connection, in order. */
  function History(attempts: seq<Attempt>): seq<Event>
  {
    if attempts == [] then []
    else
      var n := |attempts| - 1;
      History(attempts[..n]) +
        match attempts[n]
        case Turned(refused, at) => [Refusal(refused, at)]
        case Served(results) => Used(results)
  }

  function Shown(error: SessionError): string
  {
    match error
    case Server(_, message) => "server: " + message
    case Disconnected => "disconnected"
    case Io(detail) => "io: " + detail
    case Frame(detail) => "frame: " + detail
    case Auth(detail) => "authentication: " + detail
  }

  /** The code and message an error is counted under. */
  function ToldAs(error: SessionError): (string, string)
  {
    if error.Server? then (error.code, error.message) else (NO_SQLSTATE, Shown(error))
  }

  function RefusedAs(refused: Refused): (string, string)
  {
    match refused
    case Local(detail) => (NO_SQLSTATE, detail)
    case Told(error) => ToldAs(error)
  }

  predicate Relocates(refused: Refused)
  {
    refused.Told? && refused.error.Server? && refused.error.code == ADMIN_SHUTDOWN
  }

  predicate IsRelocationEvent(e: Event)
  {
    (e.Refusal? && Relocates(e.refused)) || (e.Loss? && IsRelocation(e.failed))
  }

  predicate IsError(e: Event)
  {
    !e.Done? && !IsRelocationEvent(e)
  }

  /** The text a failure is reported as. */
  function Text(e: Event): string
    requires !e.Done?
  {
    if e.Loss? then Shown(e.failed.error)
    else if e.refused.Local? then e.refused.detail
    else Shown(e.refused.error)
  }

  function CodeUsed(e: Event): string
    requires !e.Done?
  {
    CodeOf(if e.Loss? then ToldAs(e.failed.error).0 else RefusedAs(e.refused).0)
  }

  function CountDone(h: seq<Event>): nat
  {
    if h == [] then 0 else CountDone(h[..|h| - 1]) + if h[|h| - 1].Done? then 1 else 0
  }

  function CountErrors(h: seq<Event>): nat
  {
    if h == [] then 0 else CountErrors(h[..|h| - 1]) + if IsError(h[|h| - 1]) then 1 else 0
  }

  function CountRelocations(h: seq<Event>): nat
  {
    if h == [] then 0 else CountRelocations(h[..|h| - 1]) + if IsRelocationEvent(h[|h| - 1]) then 1 else 0
  }

  function CountCode(h: seq<Event>, code: string): nat
  {
    if h == [] then 0
    else CountCode(h[..|h| - 1], code) + if !h[|h| - 1].Done? && CodeUsed(h[|h| - 1]) == code then 1 else 0
  }

  function Latencies(h: seq<Event>): seq<nat>
  {
    if h == [] then []
    else Latencies(h[..|h| - 1]) + if h[|h| - 1].Done? then [h[|h| - 1].micros] else []
  }

  // ---------- what the counts mean ----------

  /** The server told the client to go elsewhere, with 57P01 and nothing lost by it. */
  predicate SentAway(e: Event)
  {
    match e
    case Done(_) => false
    case Refusal(refused, _) => refused.Told? && refused.error.Server? && refused.error.code == "57P01"
    case Loss(failed, _) => failed.error.Server? && failed.error.code == "57P01" && !failed.workLost
  }

  function TheDone(h: seq<Event>): set<int>
  {
    set i | 0 <= i < |h| && h[i].Done?
  }

  function TheSentAway(h: seq<Event>): set<int>
  {
    set i | 0 <= i < |h| && SentAway(h[i])
  }

  lemma SentAwayIs(e: Event)
    ensures IsRelocationEvent(e) <==> SentAway(e)
    ensures IsError(e) <==> !e.Done? && !SentAway(e)
  {
  }

  lemma KindsMore(h: seq<Event>, n: nat)
    requires |h| == n + 1
    ensures |TheDone(h)| == |TheDone(h[..n])| + if h[n].Done? then 1 else 0
    ensures |TheSentAway(h)| == |TheSentAway(h[..n])| + if SentAway(h[n]) then 1 else 0
  {
    assert TheDone(h) == TheDone(h[..n]) + if h[n].Done? then {n} else {};
    assert TheSentAway(h) == TheSentAway(h[..n]) + if SentAway(h[n]) then {n} else {};
  }

  /** The three counts are of three kinds of event: finished, sent away, and everything else. */
  lemma {:induction false} CountsAre(h: seq<Event>)
    ensures CountDone(h) == |TheDone(h)| && CountRelocations(h) == |TheSentAway(h)|
    ensures CountDone(h) + CountRelocations(h) + CountErrors(h) == |h|
    ensures |Latencies(h)| == CountDone(h)
  {
    if h != [] {
      var n := |h| - 1;
      CountsAre(h[..n]);
      SentAwayIs(h[n]);
      KindsMore(h, n);
    }
  }

  /** The code the server gave, and `local` for whatever the server gave no code to. */
  lemma CodeSays(e: Event)
    requires !e.Done?
    ensures CodeUsed(e) ==
      match e
      case Refusal(Told(Server(code, _)), _) => if code == "" then "local" else code
      case Loss(Failed(Server(code, _), _), _) => if code == "" then "local" else code
      case _ => "local"
  {
  }

  /** A session's events are its transactions up to and including the first that failed. */
  lemma {:induction false} UsedIs(results: seq<Result>, i: nat)
    requires i < |results| && forall j :: 0 <= j < i ==> results[j].Finished?
    ensures |Used(results)| > i && (results[i].Failure? ==> |Used(results)| == i + 1)
    ensures Used(results)[i] ==
      match results[i] case Finished(micros) => Done(micros) case Failure(failed, at) => Loss(failed, at)
  {
    if i > 0 {
      UsedIs(results[1..], i - 1);
    }
  }

  /** Failures are stamped with a clock that does not go backward. */
  ghost predicate Ordered(h: seq<Event>)
  {
    forall i, j :: 0 <= i < j < |h| && !h[i].Done? && !h[j].Done? ==> h[i].at <= h[j].at
  }

  // ---------- one connection's tally ----------

  datatype Tally = Tally(
    transactions: nat,
    errors: nat,
    relocations: nat,
    latencies: seq<nat>,
    outcomes: Outcomes,
    lastFailure: Option<string>,
    lastFailureAt: Option<Time>
  )

  const EMPTY: Tally := Tally(0, 0, 0, [], map[], None, None)

  /** Entry `k` is the last failure there is. */
  ghost predicate LastError(h: seq<Event>, k: nat)
  {
    && k < |h| && IsError(h[k])
    && forall j :: k < j < |h| ==> !IsError(h[j])
  }

  /** The tally is what the history adds up to. */
  ghost predicate Agrees(t: Tally, h: seq<Event>)
  {
    && t.transactions == CountDone(h) && t.latencies == Latencies(h)
    && t.errors == CountErrors(h) && t.relocations == CountRelocations(h)
    && AllWellCounted(t.outcomes)
    && Failures(t.outcomes) == t.errors + t.relocations
    && (forall code :: CodeAgrees(t.outcomes, h, code))
    && LastAgrees(t, h)
  }

  predicate CodeAgrees(outcomes: Outcomes, h: seq<Event>, code: string)
  {
    Under(outcomes, code).count == CountCode(h, code)
  }

  ghost predicate LastAgrees(t: Tally, h: seq<Event>)
  {
    if t.lastFailure.None? then t.lastFailureAt.None? && forall k :: 0 <= k < |h| ==> !IsError(h[k])
    else exists k: nat :: LastError(h, k) && t.lastFailure == Some(Text(h[k])) && t.lastFailureAt == Some(h[k].at)
  }

  function Noted(t: Tally, e: Event): Tally
  {
    if e.Done? then t.(transactions := t.transactions + 1, latencies := t.latencies + [e.micros])
    else
      var (code, message) := if e.Loss? then ToldAs(e.failed.error) else RefusedAs(e.refused);
      var recorded := t.(outcomes := Record(t.outcomes, code, message));
      if IsRelocationEvent(e) then recorded.(relocations := t.relocations + 1)
      else recorded.(errors := t.errors + 1, lastFailure := Some(Text(e)), lastFailureAt := Some(e.at))
  }

  lemma NotedLast(t: Tally, h: seq<Event>, e: Event)
    requires LastAgrees(t, h)
    ensures LastAgrees(Noted(t, e), h + [e])
  {
    var more := h + [e];
    assert forall i :: 0 <= i < |h| ==> more[i] == h[i];
    assert more[|h|] == e;
    if IsError(e) {
      assert LastError(more, |h|);
    } else if t.lastFailure.Some? {
      var k: nat :| LastError(h, k) && t.lastFailure == Some(Text(h[k])) && t.lastFailureAt == Some(h[k].at);
      assert LastError(more, k);
    }
  }

  lemma NotedCounted(t: Tally, e: Event)
    requires AllWellCounted(t.outcomes) && Failures(t.outcomes) == t.errors + t.relocations
    ensures var after := Noted(t, e);
            AllWellCounted(after.outcomes) && Failures(after.outcomes) == after.errors + after.relocations
  {
    if !e.Done? {
      var (code, message) := if e.Loss? then ToldAs(e.failed.error) else RefusedAs(e.refused);
      RecordCounts(t.outcomes, code, message);
    }
  }

  lemma NotedCode(t: Tally, h: seq<Event>, e: Event, c: string)
    requires CodeAgrees(t.outcomes, h, c)
    ensures CodeAgrees(Noted(t, e).outcomes, h + [e], c)
  {
    assert (h + [e])[..|h|] == h;
    if !e.Done? {
      var (code, message) := if e.Loss? then ToldAs(e.failed.error) else RefusedAs(e.refused);
      RecordUnder(t.outcomes, code, message, c);
    }
  }

  /** Noting one more event keeps the tally and the history in step. */
  lemma NotedAgrees(t: Tally, h: seq<Event>, e: Event)
    requires Agrees(t, h)
    ensures Agrees(Noted(t, e), h + [e])
  {
    assert (h + [e])[..|h|] == h;
    NotedLast(t, h, e);
    NotedCounted(t, e);
    var after, more := Noted(t, e).outcomes, h + [e];
    forall code
      ensures CodeAgrees(after, more, code)
    {
      assert CodeAgrees(t.outcomes, h, code);
      NotedCode(t, h, e, code);
    }
  }

  method NoteLoss(t: Tally, failed: Failed, at: Time) returns (after: Tally)
    ensures after == Noted(t, Loss(failed, at))
  {
    var (code, message) := ToldAs(failed.error);
    after := t.(outcomes := Record(t.outcomes, code, message));
    if IsRelocation(failed) {
      after := after.(relocations := after.relocations + 1);
    } else {
      after := after.(errors := after.errors + 1);
      after := after.(lastFailure := Some(Shown(failed.error)), lastFailureAt := Some(at));
    }
  }

  method NoteRefusal(t: Tally, refused: Refused, at: Time) returns (after: Tally)
    ensures after == Noted(t, Refusal(refused, at))
  {
    var (code, message) := RefusedAs(refused);
    after := t.(outcomes := Record(t.outcomes, code, message));
    if Relocates(refused) {
      after := after.(relocations := after.relocations + 1);
    } else {
      after := after.(errors := after.errors + 1);
      after := after.(lastFailure := Some(if refused.Local? then refused.detail else Shown(refused.error)),
                      lastFailureAt := Some(at));
    }
  }

  lemma UsedStep(results: seq<Result>, i: nat, h: seq<Event>)
    requires i < |results|
    ensures results[i].Finished? ==>
              h + Used(results[i..]) == h + [Done(results[i].micros)] + Used(results[i + 1..])
    ensures results[i].Failure? ==>
              h + Used(results[i..]) == h + [Loss(results[i].failed, results[i].at)]
  {
    assert results[i..][1..] == results[i + 1..];
  }

  /** Transactions on one session until one fails. */
  method OneSession(t: Tally, results: seq<Result>, ghost h: seq<Event>) returns (after: Tally)
    requires Agrees(t, h)
    ensures Agrees(after, h + Used(results))
  {
    after := t;
    ghost var now := h;
    assert results[0..] == results;
    for i := 0 to |results|
      invariant Agrees(after, now) && now + Used(results[i..]) == h + Used(results)
    {
      UsedStep(results, i, now);
      match results[i] {
        case Finished(micros) =>
          NotedAgrees(after, now, Done(micros));
          after := after.(transactions := after.transactions + 1, latencies := after.latencies + [micros]);
          now := now + [Done(micros)];
        case Failure(failed, at) =>
          NotedAgrees(after, now, Loss(failed, at));
          after := NoteLoss(after, failed, at);
          return;
      }
    }
    assert now + Used(results[|results|..]) == now;
  }

  lemma HistoryMore(attempts: seq<Attempt>, i: nat)
    requires i < |attempts|
    ensures History(attempts[..i + 1]) == History(attempts[..i]) +
      match attempts[i]
      case Turned(refused, at) => [Refusal(refused, at)]
      case Served(results) => Used(results)
  {
    assert attempts[..i + 1][..i] == attempts[..i];
  }

  lemma NothingYet()
    ensures Agrees(EMPTY, [])
  {
    assert Counts(EMPTY.outcomes) == map[];
  }

  /** Keeps one connection working: every attempt, each session replaced after its first
      failure. */
  method OneConnection(attempts: seq<Attempt>) returns (tally: Tally)
    ensures Agrees(tally, History(attempts))
  {
    tally := EMPTY;
    NothingYet();
    for i := 0 to |attempts|
      invariant Agrees(tally, History(attempts[..i]))
    {
      HistoryMore(attempts, i);
      match attempts[i] {
        case Turned(refused, at) =>
          NotedAgrees(tally, History(attempts[..i]), Refusal(refused, at));
          tally := NoteRefusal(tally, refused, at);
        case Served(results) =>
          tally := OneSession(tally, results, History(attempts[..i]));
      }
    }
    assert attempts[..|attempts|] == attempts;
  }

  // ---------- the report ----------

  datatype Report = Report(
    transactions: nat,
    errors: nat,
    relocations: nat,
    samples: seq<nat>,
    outcomes: Outcomes,
    firstError: Option<string>
  )

  /** What a run with no transaction says: its newest failure, or what was told, or that nothing
      was attempted. */
  datatype Silence = NewestFailure(text: string) | ToldOnly(outcomes: Outcomes) | NothingAttempted

  datatype Summary = Summed(report: Report) | NoConnection(detail: Silence)

  // Sums over the first `n` connections.

  function AllDone(hs: seq<seq<Event>>, n: nat): nat
    requires n <= |hs|
  {
    if n == 0 then 0 else AllDone(hs, n - 1) + CountDone(hs[n - 1])
  }

  function AllErrors(hs: seq<seq<Event>>, n: nat): nat
    requires n <= |hs|
  {
    if n == 0 then 0 else AllErrors(hs, n - 1) + CountErrors(hs[n - 1])
  }

  function AllRelocations(hs: seq<seq<Event>>, n: nat): nat
    requires n <= |hs|
  {
    if n == 0 then 0 else AllRelocations(hs, n - 1) + CountRelocations(hs[n - 1])
  }

  function AllLatencies(hs: seq<seq<Event>>, n: nat): seq<nat>
    requires n <= |hs|
  {
    if n == 0 then [] else AllLatencies(hs, n - 1) + Latencies(hs[n - 1])
  }

  /** How often the first `n` connections were told this code. */
  function AllCode(hs: seq<seq<Event>>, n: nat, code: string): nat
    requires n <= |hs|
  {
    if n == 0 then 0 else AllCode(hs, n - 1, code) + CountCode(hs[n - 1], code)
  }

  predicate CodeTotalled(outcomes: Outcomes, hs: seq<seq<Event>>, n: nat, code: string)
    requires n <= |hs|
  {
    Under(outcomes, code).count == AllCode(hs, n, code)
  }

  /** Event `k` of connection `i`, one of the first `n`, is a failure. */
  predicate ErrorAt(hs: seq<seq<Event>>, n: nat, i: int, k: int)
    requires n <= |hs|
  {
    0 <= i < n && 0 <= k < |hs[i]| && IsError(hs[i][k])
  }

  predicate Errs(h: seq<Event>, k: int)
  {
    0 <= k < |h| && IsError(h[k])
  }

  /** The failures of one more connection. */
  lemma ErrorSplit(hs: seq<seq<Event>>, n: nat, m: nat)
    requires m == n + 1 <= |hs|
    ensures forall i, k :: ErrorAt(hs, n, i, k) ==> ErrorAt(hs, m, i, k)
    ensures forall i, k :: ErrorAt(hs, m, i, k) ==> ErrorAt(hs, n, i, k) || (i == n && Errs(hs[n], k))
    ensures forall k :: Errs(hs[n], k) ==> ErrorAt(hs, m, n, k)
  {
  }

  /** Event `k` is the last failure of connection `i`, one of the first `n`, and said this then; every
      failure of the connections before it is earlier. */
  ghost predicate FirstAt(hs: seq<seq<Event>>, n: nat, i: int, k: nat, text: string, at: Time)
    requires n <= |hs|
  {
    && 0 <= i < n && LastError(hs[i], k) && Text(hs[i][k]) == text && hs[i][k].at == at
    && forall i', k' :: ErrorAt(hs, n, i', k') && i' < i ==> hs[i'][k'].at < at
  }

  /** No failure of the first `n` connections is later than this one, and of several as late it is the
      one of the first of them. */
  ghost predicate Newest(hs: seq<seq<Event>>, n: nat, text: string, at: Time)
    requires n <= |hs|
  {
    && (exists i, k :: FirstAt(hs, n, i, k, text, at))
    && (forall i, k :: ErrorAt(hs, n, i, k) ==> hs[i][k].at <= at)
  }

  lemma InHandErrs(text: Option<string>, at: Option<Time>, hs: seq<seq<Event>>, n: nat)
    requires n <= |hs| && NewestInHand(text, at, hs, n)
    ensures text.Some? <==> !NoErrors(hs, n)
  {
    if text.Some? {
      var i, k: nat :| FirstAt(hs, n, i, k, text.value, at.value);
      assert ErrorAt(hs, n, i, k);
    }
  }

  ghost predicate NoErrors(hs: seq<seq<Event>>, n: nat)
    requires n <= |hs|
  {
    forall i, k :: !ErrorAt(hs, n, i, k)
  }

  /** What the loop over the tallies has in hand. */
  ghost predicate Totalled(r: Report, at: Option<Time>, hs: seq<seq<Event>>, n: nat)
    requires n <= |hs|
  {
    && r.transactions == AllDone(hs, n) && r.samples == AllLatencies(hs, n)
    && r.errors == AllErrors(hs, n) && r.relocations == AllRelocations(hs, n)
    && AllWellCounted(r.outcomes) && Failures(r.outcomes) == r.errors + r.relocations
    && (forall code :: CodeTotalled(r.outcomes, hs, n, code))
    && NewestInHand(r.firstError, at, hs, n)
  }

  ghost predicate NewestInHand(text: Option<string>, at: Option<Time>, hs: seq<seq<Event>>, n: nat)
    requires n <= |hs|
  {
    if text.None? then at.None? && NoErrors(hs, n) else at.Some? && Newest(hs, n, text.value, at.value)
  }

  /** In one connection's history the last failure is a newest one. */
  lemma LastIsNewest(h: seq<Event>, k: nat)
    requires Ordered(h) && LastError(h, k)
    ensures forall j :: Errs(h, j) ==> h[j].at <= h[k].at
  {
  }

  /** Taking one more tally, and its failure only if it is strictly newer. */
  lemma NewestMore(text: Option<string>, at: Option<Time>, hs: seq<seq<Event>>, n: nat, t: Tally)
    requires n < |hs| && NewestInHand(text, at, hs, n) && LastAgrees(t, hs[n]) && Ordered(hs[n])
    ensures if t.lastFailureAt.Some? && (at.None? || t.lastFailureAt.value > at.value)
            then NewestInHand(t.lastFailure, t.lastFailureAt, hs, n + 1)
            else NewestInHand(text, at, hs, n + 1)
  {
    var m := n + 1;
    ErrorSplit(hs, n, m);
    if t.lastFailure.Some? {
      var k: nat :| LastError(hs[n], k) && t.lastFailure == Some(Text(hs[n][k]))
        && t.lastFailureAt == Some(hs[n][k].at);
      LastIsNewest(hs[n], k);
      assert Errs(hs[n], k);
      if at.None? || hs[n][k].at > at.value {
        assert FirstAt(hs, m, n, k, Text(hs[n][k]), hs[n][k].at);
      }
    }
    if text.Some? {
      var i, k: nat :| FirstAt(hs, n, i, k, text.value, at.value);
      assert FirstAt(hs, m, i, k, text.value, at.value);
    }
  }

  /** The tallies come in whatever order their connections finished. */
  ghost predicate AllAgree(tallies: seq<Tally>, hs: seq<seq<Event>>)
  {
    |tallies| == |hs| && forall i :: 0 <= i < |hs| ==> AgreesAt(tallies, hs, i)
  }

  ghost predicate AgreesAt(tallies: seq<Tally>, hs: seq<seq<Event>>, i: int)
    requires 0 <= i < |hs| == |tallies|
  {
    Agrees(tallies[i], hs[i]) && Ordered(hs[i])
  }

  /** Merging one more connection's counts in keeps every code's sum. */
  lemma CodesMore(sofar: Outcomes, theirs: Outcomes, merged: Outcomes, hs: seq<seq<Event>>, n: nat, m: nat)
    requires m == n + 1 <= |hs| && Merged(merged, sofar, theirs)
    requires forall code :: CodeTotalled(sofar, hs, n, code)
    requires forall code :: CodeAgrees(theirs, hs[n], code)
    ensures forall code :: CodeTotalled(merged, hs, m, code)
  {
    forall code
      ensures CodeTotalled(merged, hs, m, code)
    {
      assert CountSums(merged, sofar, theirs, code);
      assert CodeTotalled(sofar, hs, n, code) && CodeAgrees(theirs, hs[n], code);
    }
  }

  /** Takes one tally in; its failure is kept only if it is strictly newer than the one in hand. */
  method AddOne(r: Report, at: Option<Time>, t: Tally, ghost hs: seq<seq<Event>>, ghost n: nat)
      returns (next: Report, nextAt: Option<Time>)
    requires n < |hs| && Totalled(r, at, hs, n) && Agrees(t, hs[n]) && Ordered(hs[n])
    ensures Totalled(next, nextAt, hs, n + 1)
  {
    var outcomes := Merge(r.outcomes, t.outcomes);
    CodesMore(r.outcomes, t.outcomes, outcomes, hs, n, n + 1);
    NewestMore(r.firstError, at, hs, n, t);
    var first := r.firstError;
    nextAt := at;
    if t.lastFailureAt.Some? && (at.None? || t.lastFailureAt.value > at.value) {
      nextAt, first := t.lastFailureAt, t.lastFailure;
    }
    next := Report(r.transactions + t.transactions, r.errors + t.errors, r.relocations + t.relocations,
                   r.samples + t.latencies, outcomes, first);
  }

  method AddUp(tallies: seq<Tally>, ghost hs: seq<seq<Event>>) returns (r: Report, at: Option<Time>)
    requires AllAgree(tallies, hs)
    ensures Totalled(r, at, hs, |hs|)
  {
    r, at := Report(0, 0, 0, [], map[], None), None;
    NothingTotalled(hs);
    for i := 0 to |tallies|
      invariant Totalled(r, at, hs, i)
    {
      r, at := AddNext(r, at, tallies, hs, i);
    }
  }

  method AddNext(r: Report, at: Option<Time>, tallies: seq<Tally>, ghost hs: seq<seq<Event>>, i: nat)
      returns (next: Report, nextAt: Option<Time>)
    requires AllAgree(tallies, hs) && i < |tallies| && Totalled(r, at, hs, i)
    ensures Totalled(next, nextAt, hs, i + 1)
  {
    assert AgreesAt(tallies, hs, i);
    next, nextAt := AddOne(r, at, tallies[i], hs, i);
  }

  lemma NothingTotalled(hs: seq<seq<Event>>)
    ensures Totalled(Report(0, 0, 0, [], map[], None), None, hs, 0)
  {
    var none: Outcomes := map[];
    assert Counts(none) == map[];
  }

  /** What a summary promises about the run it is made from. */
  ghost predicate Faithful(summary: Summary, hs: seq<seq<Event>>)
  {
    match summary
    case Summed(r) =>
      && r.transactions == AllDone(hs, |hs|) > 0 && |r.samples| == r.transactions && r.samples == AllLatencies(hs, |hs|)
      && r.errors == AllErrors(hs, |hs|) && r.relocations == AllRelocations(hs, |hs|)
      && Failures(r.outcomes) == r.errors + r.relocations
      && (forall code :: CodeTotalled(r.outcomes, hs, |hs|, code))
      && (r.firstError.None? <==> r.errors == 0)
      && (r.firstError.Some? ==> exists at :: Newest(hs, |hs|, r.firstError.value, at))
    case NoConnection(detail) =>
      && AllDone(hs, |hs|) == 0
      && (detail.NewestFailure? <==> AllErrors(hs, |hs|) > 0)
      && (detail.NewestFailure? ==> exists at :: Newest(hs, |hs|, detail.text, at))
      && (detail.NothingAttempted? <==> AllErrors(hs, |hs|) + AllRelocations(hs, |hs|) == 0)
  }

  method Summarise(tallies: seq<Tally>, ghost hs: seq<seq<Event>>) returns (summary: Summary)
    requires AllAgree(tallies, hs)
    ensures Faithful(summary, hs)
  {
    var r, at := AddUp(tallies, hs);
    SamplesAreDone(hs, |hs|);
    ErrorsAreErrors(hs, |hs|);
    NothingCounted(r.outcomes);
    InHandErrs(r.firstError, at, hs, |hs|);
    if r.transactions > 0 {
      return Summed(r);
    }
    summary := NoConnection(if r.firstError.Some? then NewestFailure(r.firstError.value)
                            else if |r.outcomes| == 0 then NothingAttempted
                            else ToldOnly(r.outcomes));
  }

  /** The whole run: every connection that finished, in the order they did. */
  method Run(finished: seq<seq<Attempt>>) returns (summary: Summary)
    requires forall i :: 0 <= i < |finished| ==> Ordered(History(finished[i]))
    ensures Faithful(summary, Histories(finished))
  {
    var tallies: seq<Tally> := [];
    for i := 0 to |finished|
      invariant |tallies| == i && forall j :: 0 <= j < i ==> Agrees(tallies[j], History(finished[j]))
    {
      var tally := OneConnection(finished[i]);
      tallies := tallies + [tally];
    }
    ghost var hs := Histories(finished);
    assert forall i :: 0 <= i < |hs| ==> AgreesAt(tallies, hs, i);
    summary := Summarise(tallies, hs);
  }

  function Histories(finished: seq<seq<Attempt>>): seq<seq<Event>>
  {
    seq(|finished|, i requires 0 <= i < |finished| => History(finished[i]))
  }

  lemma {:induction false} LatenciesAreDone(h: seq<Event>)
    ensures |Latencies(h)| == CountDone(h)
  {
    if h != [] {
      LatenciesAreDone(h[..|h| - 1]);
    }
  }

  lemma {:induction false} SamplesAreDone(hs: seq<seq<Event>>, n: nat)
    requires n <= |hs|
    ensures |AllLatencies(hs, n)| == AllDone(hs, n)
  {
    if n > 0 {
      SamplesAreDone(hs, n - 1);
      LatenciesAreDone(hs[n - 1]);
    }
  }

  lemma {:induction false} CountedErrors(h: seq<Event>)
    ensures CountErrors(h) == 0 <==> forall k :: !Errs(h, k)
  {
    if h != [] {
      var n := |h| - 1;
      var but := h[..n];
      CountedErrors(but);
      forall k
        ensures Errs(h, k) <==> Errs(but, k) || (k == n && IsError(h[n]))
      {
        assert 0 <= k < n ==> but[k] == h[k];
      }
      assert IsError(h[n]) ==> Errs(h, n);
    }
  }

  lemma {:induction false} ErrorsAreErrors(hs: seq<seq<Event>>, n: nat)
    requires n <= |hs|
    ensures AllErrors(hs, n) == 0 <==> NoErrors(hs, n)
  {
    if n > 0 {
      ErrorsAreErrors(hs, n - 1);
      CountedErrors(hs[n - 1]);
      ErrorSplit(hs, n - 1, n);
    }
  }
}
