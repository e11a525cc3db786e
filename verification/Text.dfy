/** Decimal numbers as text, and cutting text at a character. */
module Text {
  import opened Basics

  function DigitChar(d: nat): char
    requires d < 10
  {
    ('0' as int + d) as char
  }

  function Digits(n: nat): (s: string)
    ensures s != [] && AllDigits(s)
  {
    if n < 10 then [DigitChar(n)] else Digits(n / 10) + [DigitChar(n % 10)]
  }

  predicate AllDigits(s: string)
  {
    forall i :: 0 <= i < |s| ==> '0' <= s[i] <= '9'
  }

  function Value(s: string): nat
    requires AllDigits(s)
  {
    if s == [] then 0
    else Value(s[..|s| - 1]) * 10 + (s[|s| - 1] as int - '0' as int)
  }

  lemma {:induction false} DigitsRead(n: nat)
    ensures Value(Digits(n)) == n
  {
    if n >= 10 {
      DigitsRead(n / 10);
      var s := Digits(n / 10);
      assert (s + [DigitChar(n % 10)])[..|s|] == s;
    }
  }

  /** In tens, the most significant first. */
  lemma Decimal()
    ensures Digits(120) == "120" && Value("120") == 120
  {
    assert Digits(12) == "12" && Digits(1) == "1";
    assert "120"[..2] == "12" && "12"[..1] == "1" && "1"[..0] == "";
    assert Value("1") == 1 && Value("12") == 12;
  }

  /** What comes before the first `stop`, and what comes after it. */
  function UpTo(s: string, stop: char): (r: Option<(string, string)>)
    ensures r.Some? ==> s == r.value.0 + [stop] + r.value.1 && stop !in r.value.0
    ensures r.None? ==> stop !in s
  {
    if s == [] then None
    else if s[0] == stop then Some(([], s[1..]))
    else
      match UpTo(s[1..], stop)
      case None => None
      case Some((head, rest)) => Some(([s[0]] + head, rest))
  }

  lemma {:induction false} UpToFinds(head: string, stop: char, rest: string)
    requires stop !in head
    ensures UpTo(head + [stop] + rest, stop) == Some((head, rest))
  {
    var s := head + [stop] + rest;
    if head == [] {
      assert s[1..] == rest;
    } else {
      assert s[0] == head[0];
      assert s[1..] == head[1..] + [stop] + rest;
      UpToFinds(head[1..], stop, rest);
      assert [head[0]] + head[1..] == head;
    }
  }

  /** What comes before the last `stop`, and what comes after it. */
  function UpToLast(s: string, stop: char): (r: Option<(string, string)>)
    ensures r.Some? ==> s == r.value.0 + [stop] + r.value.1 && stop !in r.value.1
    ensures r.None? ==> stop !in s
  {
    if s == [] then None
    else
      var n := |s| - 1;
      if s[n] == stop then Some((s[..n], []))
      else
        match UpToLast(s[..n], stop)
        case None => None
        case Some((head, rest)) => Some((head, rest + [s[n]]))
  }

  lemma {:induction false} UpToLastFinds(head: string, stop: char, rest: string)
    requires stop !in rest
    ensures UpToLast(head + [stop] + rest, stop) == Some((head, rest))
  {
    var s := head + [stop] + rest;
    if rest == [] {
      assert s[..|s| - 1] == head;
    } else {
      var n := |rest| - 1;
      assert s[..|s| - 1] == head + [stop] + rest[..n];
      UpToLastFinds(head, stop, rest[..n]);
      assert rest[..n] + [rest[n]] == rest;
    }
  }
}
