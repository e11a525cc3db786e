/** What the clients of a load run were told, counted by SQLSTATE. */
module LoadReport {
  import opened Totals

  const NO_SQLSTATE: string := "local"
  const MESSAGE_VARIANTS: nat := 8

  datatype Outcome = Outcome(count: nat, messages: map<string, nat>)

  type Outcomes = map<string, Outcome>

  /** The messages under a code account for its count, exactly so while they are below the cap. */
  ghost predicate WellCounted(o: Outcome)
  {
    && |o.messages| <= MESSAGE_VARIANTS
    && Total(o.messages) <= o.count
    && (|o.messages| < MESSAGE_VARIANTS ==> Total(o.messages) == o.count)
  }

  /** A code is there because something was counted under it. */
  ghost predicate AllWellCounted(outcomes: Outcomes)
  {
    forall code :: code in outcomes ==> WellCounted(outcomes[code]) && outcomes[code].count > 0
  }

  function CodeOf(code: string): string
  {
    if code == "" then NO_SQLSTATE else code
  }

  function Under(outcomes: Outcomes, code: string): Outcome
  {
    if code in outcomes then outcomes[code] else Outcome(0, map[])
  }

  ghost function Counts(outcomes: Outcomes): map<string, nat>
  {
    map code | code in outcomes :: outcomes[code].count
  }

  /** How many failures are counted. */
  ghost function Failures(outcomes: Outcomes): nat
  {
    Total(Counts(outcomes))
  }

  /** Some more under one message, unless that would be one message too many. */
  function AddMessage(messages: map<string, nat>, message: string, count: nat): map<string, nat>
  {
    if message in messages then messages[message := messages[message] + count]
    else if |messages| < MESSAGE_VARIANTS then messages[message := count]
    else messages
  }

  function Record(outcomes: Outcomes, code: string, message: string): Outcomes
  {
    var o := Under(outcomes, CodeOf(code));
    outcomes[CodeOf(code) := Outcome(o.count + 1, AddMessage(o.messages, message, 1))]
  }

  lemma AddSeen(messages: map<string, nat>, message: string, count: nat)
    requires message in messages
    ensures var added := messages[message := messages[message] + count];
            added.Keys == messages.Keys && |added| == |messages| && Total(added) == Total(messages) + count
  {
    TotalUpdate(messages, message, messages[message] + count);
    assert messages[message := messages[message] + count].Keys == messages.Keys;
  }

  lemma AddNew(messages: map<string, nat>, message: string, count: nat)
    requires message !in messages
    ensures var added := messages[message := count];
            added.Keys == messages.Keys + {message} && |added| == |messages| + 1
              && Total(added) == Total(messages) + count
  {
    TotalInsert(messages, message, count);
    assert messages[message := count].Keys == messages.Keys + {message};
  }

  /** A message under the cap is counted in full; over it, the count is all that is kept. */
  ghost predicate Added(messages: map<string, nat>, added: map<string, nat>, message: string, count: nat)
  {
    && |messages| <= |added| <= MESSAGE_VARIANTS && messages.Keys <= added.Keys
    && Total(messages) <= Total(added) <= Total(messages) + count
    && (|added| < MESSAGE_VARIANTS ==> message in added && Total(added) == Total(messages) + count)
  }

  lemma AddMessageTotal(messages: map<string, nat>, message: string, count: nat)
    requires |messages| <= MESSAGE_VARIANTS
    ensures Added(messages, AddMessage(messages, message, count), message, count)
  {
    if message in messages {
      AddSeen(messages, message, count);
    } else if |messages| < MESSAGE_VARIANTS {
      AddNew(messages, message, count);
    }
  }

  lemma CountsUpdate(outcomes: Outcomes, code: string, o: Outcome)
    ensures Failures(outcomes[code := o]) == Failures(outcomes) + o.count - Under(outcomes, code).count
  {
    var counts := Counts(outcomes);
    assert Counts(outcomes[code := o]) == counts[code := o.count];
    if code in outcomes {
      TotalUpdate(counts, code, o.count);
    } else {
      TotalInsert(counts, code, o.count);
    }
  }

  lemma RecordWellCounted(o: Outcome, message: string)
    requires WellCounted(o)
    ensures WellCounted(Outcome(o.count + 1, AddMessage(o.messages, message, 1)))
  {
    AddMessageTotal(o.messages, message, 1);
  }

  lemma UnderUpdate(outcomes: Outcomes, code: string, o: Outcome, c: string)
    ensures Under(outcomes[code := o], c) == if c == code then o else Under(outcomes, c)
  {
    assert c in outcomes[code := o] <==> c == code || c in outcomes;
  }

  /** Recording counts exactly one more failure. */
  lemma RecordCounts(outcomes: Outcomes, code: string, message: string)
    requires AllWellCounted(outcomes)
    ensures AllWellCounted(Record(outcomes, code, message))
    ensures Failures(Record(outcomes, code, message)) == Failures(outcomes) + 1
  {
    var o := Under(outcomes, CodeOf(code));
    RecordWellCounted(o, message);
    var more := Outcome(o.count + 1, AddMessage(o.messages, message, 1));
    CountsUpdate(outcomes, CodeOf(code), more);
    WellCountedUpdate(outcomes, CodeOf(code), more);
  }

  lemma WellCountedUpdate(outcomes: Outcomes, code: string, o: Outcome)
    requires AllWellCounted(outcomes) && WellCounted(o) && o.count > 0
    ensures AllWellCounted(outcomes[code := o])
  {
  }

  /** Nothing counted means nothing there. */
  lemma NothingCounted(outcomes: Outcomes)
    requires AllWellCounted(outcomes)
    ensures Failures(outcomes) == 0 <==> |outcomes| == 0
  {
    if |outcomes| == 0 {
      assert Counts(outcomes) == map[];
    } else {
      var code :| code in outcomes;
      TotalRemove(Counts(outcomes), code);
    }
  }

  /** It is counted under its own code and no other, one without a code under `local`. */
  lemma RecordUnder(outcomes: Outcomes, code: string, message: string, c: string)
    ensures Under(Record(outcomes, code, message), c).count
         == Under(outcomes, c).count + if c == (if code == "" then "local" else code) then 1 else 0
  {
    var o := Under(outcomes, CodeOf(code));
    UnderUpdate(outcomes, CodeOf(code), Outcome(o.count + 1, AddMessage(o.messages, message, 1)), c);
  }

  function Times(messages: map<string, nat>, message: string): nat
  {
    if message in messages then messages[message] else 0
  }

  /** And under its own message, unless that is new and eight others are there already; no other
      message's count moves. */
  lemma RecordSays(outcomes: Outcomes, code: string, message: string, m: string)
    requires code != ""
    ensures var was, now := Under(outcomes, code).messages, Under(Record(outcomes, code, message), code).messages;
            Times(now, m) == Times(was, m) + if m == message && (m in was || |was| < 8) then 1 else 0
  {
    var o := Under(outcomes, code);
    UnderUpdate(outcomes, code, Outcome(o.count + 1, AddMessage(o.messages, message, 1)), code);
  }

  /** With `rest` still to come, no message has lost or gained anything, and while there is room for
      more none will have missed anything. */
  ghost predicate Folded(all: map<string, nat>, rest: map<string, nat>, mine: map<string, nat>,
                         theirs: map<string, nat>, m: string)
  {
    && Times(mine, m) <= Times(all, m) && Times(all, m) + Times(rest, m) <= Times(mine, m) + Times(theirs, m)
    && (|all| < 8 ==> Times(all, m) + Times(rest, m) == Times(mine, m) + Times(theirs, m))
  }

  lemma FoldOne(all: map<string, nat>, rest: map<string, nat>, mine: map<string, nat>, theirs: map<string, nat>,
                message: string)
    requires message in rest && forall m :: Folded(all, rest, mine, theirs, m)
    ensures forall m :: Folded(AddMessage(all, message, rest[message]), rest - {message}, mine, theirs, m)
  {
    var more, fewer := AddMessage(all, message, rest[message]), rest - {message};
    forall m
      ensures Folded(more, fewer, mine, theirs, m)
    {
      assert Folded(all, rest, mine, theirs, m);
      assert |more| >= |all|;
    }
  }

  /** Folds one code's messages into another's, in any order. */
  method MergeMessages(mine: map<string, nat>, theirs: map<string, nat>) returns (all: map<string, nat>)
    requires |mine| <= MESSAGE_VARIANTS
    ensures |mine| <= |all| <= MESSAGE_VARIANTS
    ensures Total(all) <= Total(mine) + Total(theirs)
    ensures |all| < MESSAGE_VARIANTS ==> theirs.Keys <= all.Keys && Total(all) == Total(mine) + Total(theirs)
    ensures forall m :: Folded(all, map[], mine, theirs, m)
  {
    all := mine;
    var rest := theirs;
    while |rest| > 0
      invariant rest.Keys <= theirs.Keys && forall m :: m in rest ==> rest[m] == theirs[m]
      invariant |mine| <= |all| <= MESSAGE_VARIANTS
      invariant Total(all) + Total(rest) <= Total(mine) + Total(theirs)
      invariant |all| < MESSAGE_VARIANTS ==>
                  theirs.Keys - rest.Keys <= all.Keys && Total(all) + Total(rest) == Total(mine) + Total(theirs)
      invariant forall m :: Folded(all, rest, mine, theirs, m)
      decreases |rest|
    {
      var message :| message in rest;
      AddMessageTotal(all, message, rest[message]);
      TotalRemove(rest, message);
      FoldOne(all, rest, mine, theirs, message);
      all := AddMessage(all, message, rest[message]);
      rest := rest - {message};
    }
    assert rest == map[];
  }

  ghost predicate CountSums(all: Outcomes, mine: Outcomes, theirs: Outcomes, code: string)
  {
    Under(all, code).count == Under(mine, code).count + Under(theirs, code).count
  }

  /** And the messages, as far as there is room for them. */
  ghost predicate MessagesFold(all: Outcomes, mine: Outcomes, theirs: Outcomes, code: string)
  {
    forall m :: Folded(Under(all, code).messages, map[], Under(mine, code).messages, Under(theirs, code).messages, m)
  }

  /** Merging adds the counts and the messages code by code, and they still account for one another. */
  ghost predicate Merged(all: Outcomes, mine: Outcomes, theirs: Outcomes)
  {
    && AllWellCounted(all)
    && (forall code :: CountSums(all, mine, theirs, code) && MessagesFold(all, mine, theirs, code))
    && Failures(all) == Failures(mine) + Failures(theirs)
  }

  method MergeOutcome(mine: Outcome, theirs: Outcome) returns (both: Outcome)
    requires WellCounted(mine) && WellCounted(theirs)
    ensures WellCounted(both) && both.count == mine.count + theirs.count
    ensures forall m :: Folded(both.messages, map[], mine.messages, theirs.messages, m)
  {
    var messages := MergeMessages(mine.messages, theirs.messages);
    both := Outcome(mine.count + theirs.count, messages);
    if |messages| < MESSAGE_VARIANTS {
      SubsetSize(theirs.messages.Keys, messages.Keys);
    }
  }

  ghost function Part(outcomes: Outcomes, codes: set<string>): Outcomes
  {
    map code | code in outcomes && code in codes :: outcomes[code]
  }

  lemma PartMore(outcomes: Outcomes, rest: set<string>, code: string)
    requires code in outcomes && code in rest
    ensures code !in Part(outcomes, outcomes.Keys - rest)
    ensures Part(outcomes, outcomes.Keys - rest)[code := outcomes[code]]
      == Part(outcomes, outcomes.Keys - (rest - {code}))
  {
  }

  method Merge(mine: Outcomes, theirs: Outcomes) returns (all: Outcomes)
    requires AllWellCounted(mine) && AllWellCounted(theirs)
    ensures Merged(all, mine, theirs)
  {
    all := mine;
    var rest := theirs.Keys;
    MergedNone(mine);
    assert Part(theirs, theirs.Keys - rest) == map[];
    while rest != {}
      invariant rest <= theirs.Keys
      invariant Merged(all, mine, Part(theirs, theirs.Keys - rest))
      decreases |rest|
    {
      var code :| code in rest;
      PartMore(theirs, rest, code);
      all := MergeCode(all, code, theirs[code], mine, Part(theirs, theirs.Keys - rest));
      rest := rest - {code};
    }
    assert Part(theirs, theirs.Keys - rest) == theirs;
  }

  method MergeCode(all: Outcomes, code: string, theirs: Outcome, ghost mine: Outcomes, ghost done: Outcomes)
      returns (more: Outcomes)
    requires Merged(all, mine, done) && code !in done && WellCounted(theirs) && theirs.count > 0
    ensures Merged(more, mine, done[code := theirs])
  {
    var both := MergeOutcome(Under(all, code), theirs);
    MergedMore(all, mine, done, code, theirs, both);
    more := all[code := both];
  }

  lemma MergedNone(mine: Outcomes)
    requires AllWellCounted(mine)
    ensures Merged(mine, mine, map[])
  {
    var none: Outcomes := map[];
    assert Counts(none) == map[];
  }

  lemma MergedMore(all: Outcomes, mine: Outcomes, done: Outcomes, code: string, theirs: Outcome, both: Outcome)
    requires Merged(all, mine, done) && code !in done
    requires WellCounted(both) && both.count == Under(all, code).count + theirs.count && theirs.count > 0
    requires forall m :: Folded(both.messages, map[], Under(all, code).messages, theirs.messages, m)
    ensures Merged(all[code := both], mine, done[code := theirs])
  {
    WellCountedUpdate(all, code, both);
    CountsUpdate(all, code, both);
    CountsUpdate(done, code, theirs);
    var more, next := all[code := both], done[code := theirs];
    forall c
      ensures CountSums(more, mine, next, c) && MessagesFold(more, mine, next, c)
    {
      UnderUpdate(all, code, both, c);
      UnderUpdate(done, code, theirs, c);
      assert CountSums(all, mine, done, c) && MessagesFold(all, mine, done, c);
      MessagesMore(all, mine, done, code, theirs, both);
    }
  }

  lemma MessagesMore(all: Outcomes, mine: Outcomes, done: Outcomes, code: string, theirs: Outcome, both: Outcome)
    requires code !in done && MessagesFold(all, mine, done, code)
    requires forall m :: Folded(both.messages, map[], Under(all, code).messages, theirs.messages, m)
    ensures forall m :: Folded(both.messages, map[], Under(mine, code).messages, theirs.messages, m)
  {
    forall m
      ensures Folded(both.messages, map[], Under(mine, code).messages, theirs.messages, m)
    {
      assert Folded(Under(all, code).messages, map[], Under(mine, code).messages, Under(done, code).messages, m);
      assert Folded(both.messages, map[], Under(all, code).messages, theirs.messages, m);
    }
  }
}
