/** The text format the metrics are printed in: what a scraper reads, defined apart from the
    printer. */
module Exposition {
  import opened Basics
  import opened Text

  datatype Sample = Sample(name: string, labels: seq<(string, string)>, value: nat)

  // ---------- label values ----------

  function EscapeChar(c: char): string
  {
    if c == '\\' then ['\\', '\\']
    else if c == '"' then ['\\', '"']
    else if c == '\n' then ['\\', 'n']
    else [c]
  }

  function Escape(v: string): string
  {
    if v == [] then [] else EscapeChar(v[0]) + Escape(v[1..])
  }

  /** Reads a quoted value up to its closing quote, undoing the escapes. */
  function Quoted(s: string): (r: Option<(string, string)>)
    ensures r.Some? ==> |r.value.1| < |s|
  {
    if s == [] then None
    else if s[0] == '"' then Some(([], s[1..]))
    else if s[0] != '\\' then Prepend(s[0], Quoted(s[1..]))
    else if |s| == 1 then None
    else if s[1] == '\\' || s[1] == '"' then Prepend(s[1], Quoted(s[2..]))
    else if s[1] == 'n' then Prepend('\n', Quoted(s[2..]))
    else None
  }

  function Prepend(c: char, r: Option<(string, string)>): Option<(string, string)>
  {
    match r
    case None => None
    case Some((v, rest)) => Some(([c] + v, rest))
  }

  lemma QuotedStep(c: char, tail: string)
    ensures Quoted(EscapeChar(c) + tail) == Prepend(c, Quoted(tail))
  {
    var s := EscapeChar(c) + tail;
    assert s[|EscapeChar(c)|..] == tail;
  }

  /** Whatever the value, its escaped form reads back, and reading stops at its own closing
      quote. */
  lemma {:induction false} QuotedFinds(v: string, rest: string)
    ensures Quoted(Escape(v) + ['"'] + rest) == Some((v, rest))
  {
    if v == [] {
      assert (Escape(v) + ['"'] + rest)[1..] == rest;
    } else {
      var tail := Escape(v[1..]) + ['"'] + rest;
      assert Escape(v) + ['"'] + rest == EscapeChar(v[0]) + tail;
      QuotedFinds(v[1..], rest);
      QuotedStep(v[0], tail);
      assert v == [v[0]] + v[1..];
    }
  }

  lemma EscapeInjective(v: string, w: string)
    requires Escape(v) == Escape(w)
    ensures v == w
  {
    QuotedFinds(v, []);
    QuotedFinds(w, []);
  }

  lemma {:induction false} EscapeOneLine(v: string)
    ensures '\n' !in Escape(v)
  {
    if v != [] {
      EscapeOneLine(v[1..]);
    }
  }

  predicate Plain(v: string)
  {
    forall i :: 0 <= i < |v| ==> v[i] != '\\' && v[i] != '"' && v[i] != '\n'
  }

  lemma {:induction false} PlainEscape(v: string)
    requires Plain(v)
    ensures Escape(v) == v
  {
    if v != [] {
      PlainEscape(v[1..]);
      assert v == [v[0]] + v[1..];
    }
  }

  // ---------- label sets ----------

  function RenderPair(key: string, value: string): string
  {
    key + ['='] + (['"'] + Escape(value) + ['"'])
  }

  /** Reads one `key="value"`. */
  function ReadPair(s: string): (r: Option<((string, string), string)>)
    ensures r.Some? ==> |r.value.1| < |s|
  {
    match UpTo(s, '=')
    case None => None
    case Some((key, inner)) =>
      if inner == [] || inner[0] != '"' then None
      else
        match Quoted(inner[1..])
        case None => None
        case Some((value, rest)) => Some(((key, value), rest))
  }

  lemma PairRead(key: string, value: string, rest: string)
    requires '=' !in key
    ensures ReadPair(RenderPair(key, value) + rest) == Some(((key, value), rest))
  {
    var quoted := Escape(value) + ['"'] + rest;
    assert RenderPair(key, value) + rest == key + ['='] + (['"'] + quoted);
    UpToFinds(key, '=', ['"'] + quoted);
    assert (['"'] + quoted)[1..] == quoted;
    QuotedFinds(value, rest);
  }

  function RenderLabels(labels: seq<(string, string)>): string
    requires labels != []
  {
    RenderPair(labels[0].0, labels[0].1) +
      if |labels| == 1 then ['}'] else [','] + RenderLabels(labels[1..])
  }

  /** Reads pairs up to the closing brace. */
  function ReadLabels(s: string): (r: Option<(seq<(string, string)>, string)>)
    ensures r.Some? ==> |r.value.1| < |s|
    decreases |s|
  {
    match ReadPair(s)
    case None => None
    case Some((pair, rest)) =>
      if rest == [] then None
      else if rest[0] == '}' then Some(([pair], rest[1..]))
      else if rest[0] != ',' then None
      else
        match ReadLabels(rest[1..])
        case None => None
        case Some((more, after)) => Some(([pair] + more, after))
  }

  ghost predicate KeysPlain(labels: seq<(string, string)>)
  {
    forall i :: 0 <= i < |labels| ==> '=' !in labels[i].0 && '\n' !in labels[i].0
  }

  lemma {:induction false} LabelsRead(labels: seq<(string, string)>, rest: string)
    requires labels != [] && KeysPlain(labels)
    ensures ReadLabels(RenderLabels(labels) + rest) == Some((labels, rest))
  {
    var pair := RenderPair(labels[0].0, labels[0].1);
    if |labels| == 1 {
      assert RenderLabels(labels) + rest == pair + (['}'] + rest);
      PairRead(labels[0].0, labels[0].1, ['}'] + rest);
      assert labels == [labels[0]];
    } else {
      var more := RenderLabels(labels[1..]) + rest;
      assert RenderLabels(labels) + rest == pair + ([','] + more);
      PairRead(labels[0].0, labels[0].1, [','] + more);
      LabelsRead(labels[1..], rest);
      assert labels == [labels[0]] + labels[1..];
    }
  }

  lemma {:induction false} LabelsOneLine(labels: seq<(string, string)>)
    requires labels != [] && KeysPlain(labels)
    ensures '\n' !in RenderLabels(labels)
  {
    EscapeOneLine(labels[0].1);
    if |labels| > 1 {
      LabelsOneLine(labels[1..]);
    }
  }

  // ---------- lines ----------

  ghost predicate WellFormed(sample: Sample)
  {
    && '{' !in sample.name && '\n' !in sample.name
    && sample.labels != [] && KeysPlain(sample.labels)
  }

  /** A sample's line without its newline. */
  function RenderBody(sample: Sample): string
    requires sample.labels != []
  {
    sample.name + ['{'] + RenderLabels(sample.labels) + [' '] + Digits(sample.value)
  }

  function RenderLine(sample: Sample): string
    requires sample.labels != []
  {
    RenderBody(sample) + ['\n']
  }

  /** Reads the value after a label set, up to the end of the line. */
  function ReadValue(s: string): (r: Option<(nat, string)>)
    ensures r.Some? ==> |r.value.1| < |s|
  {
    if s == [] || s[0] != ' ' then None
    else
      match UpTo(s[1..], '\n')
      case None => None
      case Some((number, rest)) =>
        if number == [] || !AllDigits(number) then None else Some((Value(number), rest))
  }

  lemma ValueRead(value: nat, rest: string)
    ensures ReadValue([' '] + Digits(value) + ['\n'] + rest) == Some((value, rest))
  {
    var s := [' '] + Digits(value) + ['\n'] + rest;
    assert s[1..] == Digits(value) + ['\n'] + rest;
    UpToFinds(Digits(value), '\n', rest);
    DigitsRead(value);
  }

  function ReadLine(s: string): (r: Option<(Sample, string)>)
    ensures r.Some? ==> |r.value.1| < |s|
  {
    match UpTo(s, '{')
    case None => None
    case Some((name, inner)) =>
      match ReadLabels(inner)
      case None => None
      case Some((labels, after)) =>
        match ReadValue(after)
        case None => None
        case Some((value, rest)) => Some((Sample(name, labels, value), rest))
  }

  lemma LineRead(sample: Sample, rest: string)
    requires WellFormed(sample)
    ensures ReadLine(RenderLine(sample) + rest) == Some((sample, rest))
  {
    var after := [' '] + Digits(sample.value) + ['\n'] + rest;
    var inner := RenderLabels(sample.labels) + after;
    assert RenderLine(sample) + rest == sample.name + ['{'] + inner;
    UpToFinds(sample.name, '{', inner);
    LabelsRead(sample.labels, after);
    ValueRead(sample.value, rest);
  }

  /** No sample spreads over two lines. */
  lemma BodyOneLine(sample: Sample)
    requires WellFormed(sample)
    ensures '\n' !in RenderBody(sample)
  {
    LabelsOneLine(sample.labels);
  }

  // ---------- a whole scrape ----------

  function RenderAll(samples: seq<Sample>): string
    requires forall i :: 0 <= i < |samples| ==> samples[i].labels != []
  {
    if samples == [] then [] else RenderLine(samples[0]) + RenderAll(samples[1..])
  }

  function ReadAll(s: string): Option<seq<Sample>>
    decreases |s|
  {
    if s == [] then Some([])
    else
      match ReadLine(s)
      case None => None
      case Some((sample, rest)) =>
        match ReadAll(rest)
        case None => None
        case Some(more) => Some([sample] + more)
  }

  ghost predicate AllWellFormed(samples: seq<Sample>)
  {
    forall i :: 0 <= i < |samples| ==> WellFormed(samples[i])
  }

  lemma ReadMore(s: string, sample: Sample, rest: string, more: seq<Sample>)
    requires s != [] && ReadLine(s) == Some((sample, rest)) && ReadAll(rest) == Some(more)
    ensures ReadAll(s) == Some([sample] + more)
  {
  }

  lemma {:induction false} AllRead(samples: seq<Sample>)
    requires AllWellFormed(samples)
    ensures ReadAll(RenderAll(samples)) == Some(samples)
  {
    if samples != [] {
      var line, rest := RenderLine(samples[0]), RenderAll(samples[1..]);
      AllRead(samples[1..]);
      LineRead(samples[0], rest);
      ReadMore(line + rest, samples[0], rest, samples[1..]);
      assert samples == [samples[0]] + samples[1..];
    }
  }

  lemma {:induction false} RenderAppend(samples: seq<Sample>, last: Sample)
    requires AllWellFormed(samples) && WellFormed(last)
    ensures AllWellFormed(samples + [last])
    ensures RenderAll(samples + [last]) == RenderAll(samples) + RenderLine(last)
  {
    if samples == [] {
      assert RenderAll([last]) == RenderLine(last) + RenderAll([]);
    } else {
      RenderAppend(samples[1..], last);
      assert (samples + [last])[1..] == samples[1..] + [last];
    }
  }
}
