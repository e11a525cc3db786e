/** The keyword scan that second-guesses the statement classifier: one pass with a word start and a
    comment depth, against what it means for a keyword to stand outside every quote and comment. */
module Scanner {
  import opened Basics

  const DML: set<string> := {"insert", "update", "delete", "merge", "truncate"}

  function LowerChar(c: char): char
  {
    if 'A' <= c <= 'Z' then (c as int + 32) as char else c
  }

  function Lower(s: string): string
  {
    seq(|s|, i requires 0 <= i < |s| => LowerChar(s[i]))
  }

  predicate IsWord(c: char)
  {
    'a' <= c <= 'z' || 'A' <= c <= 'Z' || '0' <= c <= '9' || c == '_'
  }

  predicate At(s: string, i: nat, first: char, second: char)
  {
    i + 1 < |s| && s[i] == first && s[i + 1] == second
  }

  // ---------- regions ----------

  predicate OpensQuote(s: string, i: nat)
  {
    i < |s| && (s[i] == '\'' || s[i] == '"')
  }

  predicate OpensLine(s: string, i: nat)
  {
    At(s, i, '-', '-')
  }

  predicate OpensBlock(s: string, i: nat)
  {
    At(s, i, '/', '*')
  }

  /** A byte that opens a region hides the word that runs up to it. */
  predicate Opens(s: string, i: nat)
  {
    OpensQuote(s, i) || OpensLine(s, i) || OpensBlock(s, i)
  }

  /** The first `c` at or after `i`, or the end. */
  function FirstFrom(s: string, i: nat, c: char): (r: nat)
    requires i <= |s|
    ensures i <= r <= |s|
    ensures forall k :: i <= k < r ==> s[k] != c
    ensures r < |s| ==> s[r] == c
    decreases |s| - i
  {
    if i == |s| || s[i] == c then i else FirstFrom(s, i + 1, c)
  }

  /** Where the comment whose inside starts at `i` ends: a comment inside it ends first. There is
      no counter here; nesting is recursion. */
  function CommentEnd(s: string, i: nat): (r: nat)
    requires i <= |s|
    ensures i <= r <= |s|
    decreases |s| - i
  {
    if i == |s| then i
    else if At(s, i, '/', '*') then CommentEnd(s, CommentEnd(s, i + 2))
    else if At(s, i, '*', '/') then i + 2
    else CommentEnd(s, i + 1)
  }

  /** Where the scan looks after looking at `i`. */
  function Next(s: string, i: nat): (r: nat)
    requires i < |s|
    ensures r > i
    ensures Opens(s, i) ==> r > i + 1
  {
    if OpensQuote(s, i) then FirstFrom(s, i + 1, s[i]) + 1
    else if OpensLine(s, i) then FirstFrom(s, i + 2, '\n')
    else if OpensBlock(s, i) then CommentEnd(s, i + 2)
    else i + 1
  }

  /** Position `i` is outside every region, counting from `start`. */
  predicate Outside(s: string, start: nat, i: nat)
    decreases i - start
  {
    if start >= i then start == i
    else start < |s| && Outside(s, Next(s, start), i)
  }

  // ---------- words ----------

  predicate WordByte(s: string, k: nat)
  {
    k < |s| && Outside(s, 0, k) && IsWord(s[k])
  }

  /** A maximal word outside every region. */
  predicate MaximalWord(s: string, a: nat, b: nat)
  {
    && a < b <= |s|
    && (forall k: nat :: a <= k < b ==> WordByte(s, k))
    && (a > 0 ==> !WordByte(s, a - 1))
    && !WordByte(s, b)
  }

  predicate Keyword(s: string, a: nat, b: nat)
  {
    MaximalWord(s, a, b) && !Opens(s, b) && s[a..b] in DML
  }

  // ---------- what is outside ----------

  lemma {:induction false} OutsideNext(s: string, start: nat, i: nat)
    requires Outside(s, start, i) && i < |s|
    ensures Outside(s, start, Next(s, i))
    decreases i - start
  {
    if start < i {
      OutsideNext(s, Next(s, start), i);
    }
  }

  lemma {:induction false} OutsideOrder(s: string, start: nat, j: nat, k: nat)
    requires Outside(s, start, j) && Outside(s, start, k) && j < k
    ensures j < |s| && Next(s, j) <= k
    decreases j - start
  {
    if start < j {
      OutsideOrder(s, Next(s, start), j, k);
    } else {
      assert Outside(s, Next(s, j), k);
    }
  }

  /** Everything strictly inside a region is not outside. */
  lemma Interior(s: string, j: nat, k: nat)
    requires Outside(s, 0, j) && j < |s| && j < k < Next(s, j)
    ensures !Outside(s, 0, k)
  {
    if Outside(s, 0, k) {
      OutsideOrder(s, 0, j, k);
    }
  }

  /** Nothing between an opener and the end of its region is a word byte. */
  lemma RegionHasNoWords(s: string, i: nat)
    requires Outside(s, 0, i) && i < |s| && Opens(s, i)
    ensures forall k: nat :: i <= k < Next(s, i) ==> !WordByte(s, k)
  {
    forall k: nat | i <= k < Next(s, i)
      ensures !WordByte(s, k)
    {
      if k > i {
        Interior(s, i, k);
      }
    }
  }

  // ---------- where each region ends ----------

  /** The scan leaves a region for position `n` and comes to nothing inside it. */
  ghost predicate Leaves(s: string, i: nat, n: nat)
  {
    Outside(s, 0, n) && forall k: nat :: i < k < n ==> !Outside(s, 0, k)
  }

  lemma LeavesAt(s: string, i: nat)
    requires Outside(s, 0, i) && i < |s|
    ensures Leaves(s, i, Next(s, i))
  {
    OutsideNext(s, 0, i);
    forall k: nat | i < k < Next(s, i)
      ensures !Outside(s, 0, k)
    {
      Interior(s, i, k);
    }
  }

  /** A quote ends just past the next quote of its own kind, or runs past the end. */
  lemma QuoteCloses(s: string, i: nat, n: nat)
    requires Outside(s, 0, i) && i < n <= |s| && (s[i] == '\'' || s[i] == '"')
    requires (forall k :: i < k < n ==> s[k] != s[i]) && (n < |s| ==> s[n] == s[i])
    ensures Leaves(s, i, n + 1)
  {
    LeavesAt(s, i);
  }

  /** A line comment ends at its newline, which is outside it, or runs to the end. */
  lemma LineCloses(s: string, i: nat, n: nat)
    requires Outside(s, 0, i) && i + 2 <= n <= |s| && s[i] == '-' && s[i + 1] == '-'
    requires (forall k :: i + 2 <= k < n ==> s[k] != '\n') && (n < |s| ==> s[n] == '\n')
    ensures Leaves(s, i, n)
  {
    LeavesAt(s, i);
  }

  /** Neither end of a block comment stands here. */
  predicate NoMark(s: string, k: nat)
  {
    k < |s| && !(k + 1 < |s| && s[k] == '/' && s[k + 1] == '*') && !(k + 1 < |s| && s[k] == '*' && s[k + 1] == '/')
  }

  lemma {:induction false} SkipsToMark(s: string, i: nat, n: nat)
    requires i <= n <= |s| && forall k :: i <= k < n ==> NoMark(s, k)
    ensures CommentEnd(s, i) == CommentEnd(s, n)
    decreases n - i
  {
    if i < n {
      assert NoMark(s, i);
      SkipsToMark(s, i + 1, n);
    }
  }

  /** A block comment with none inside it ends just past the first close. */
  lemma BlockCloses(s: string, i: nat, n: nat)
    requires Outside(s, 0, i) && i + 2 <= n && n + 1 < |s| && s[i] == '/' && s[i + 1] == '*'
    requires (forall k :: i + 2 <= k < n ==> NoMark(s, k)) && s[n] == '*' && s[n + 1] == '/'
    ensures Leaves(s, i, n + 2)
  {
    SkipsToMark(s, i + 2, n);
    LeavesAt(s, i);
  }

  /** One with another inside it ends where it would if the inner one were not there. */
  lemma BlockNests(s: string, i: nat, j: nat)
    requires i <= j && j + 1 < |s| && (forall k :: i <= k < j ==> NoMark(s, k)) && s[j] == '/' && s[j + 1] == '*'
    ensures CommentEnd(s, i) == CommentEnd(s, CommentEnd(s, j + 2))
  {
    SkipsToMark(s, i, j);
  }

  // ---------- text with no regions ----------

  /** No quote and no comment opens anywhere. */
  predicate Bare(s: string)
  {
    && (forall k :: 0 <= k < |s| ==> s[k] != '\'' && s[k] != '"')
    && (forall k :: 0 <= k < |s| - 1 ==> !(s[k] == '-' && s[k + 1] == '-') && !(s[k] == '/' && s[k + 1] == '*'))
  }

  lemma {:induction false} BareOutside(s: string, k: nat)
    requires Bare(s) && k <= |s|
    ensures Outside(s, 0, k)
  {
    if k > 0 {
      BareOutside(s, k - 1);
      OutsideNext(s, 0, k - 1);
    }
  }

  /** There a keyword is a whole word that is one of the five. */
  lemma BareKeyword(s: string, a: nat, b: nat)
    requires Bare(s) && a < b <= |s|
    ensures Keyword(s, a, b) <==>
      && (|| s[a..b] == "insert" || s[a..b] == "update" || s[a..b] == "delete" || s[a..b] == "merge"
          || s[a..b] == "truncate")
      && (a == 0 || !IsWord(s[a - 1])) && (b == |s| || !IsWord(s[b]))
  {
    forall k: nat | k <= |s|
      ensures Outside(s, 0, k)
    {
      BareOutside(s, k);
    }
    if s[a..b] in DML {
      assert forall k :: a <= k < b ==> s[k] == s[a..b][k - a];
    }
  }

  /** A word is made of letters, digits and underscores, by their code points. */
  lemma WordLetters(c: char)
    ensures var code := c as int;
            IsWord(c) <==> 48 <= code <= 57 || 65 <= code <= 90 || code == 95 || 97 <= code <= 122
  {
  }

  /** Letters of either case are one letter to the scan, and nothing else is changed. */
  lemma CaseBlind(s: string, k: nat)
    requires k < |s|
    ensures |Lower(s)| == |s|
    ensures 'A' <= s[k] <= 'Z' ==> Lower(s)[k] as int == s[k] as int - 'A' as int + 'a' as int
    ensures !('A' <= s[k] <= 'Z') ==> Lower(s)[k] == s[k]
  {
  }

  // ---------- the loops ----------

  method SkipTo(s: string, from: nat, c: char) returns (i: nat)
    requires from <= |s|
    ensures i == FirstFrom(s, from, c)
  {
    i := from;
    while i < |s| && s[i] != c
      invariant i <= |s|
      invariant FirstFrom(s, i, c) == FirstFrom(s, from, c)
    {
      i := i + 1;
    }
  }

  /** Where `depth` comments, one inside the other, have all ended. */
  function AllEnd(s: string, i: nat, depth: nat): nat
    requires i <= |s|
    decreases depth
  {
    if depth == 0 then i else AllEnd(s, CommentEnd(s, i), depth - 1)
  }

  lemma {:induction false} NoneEnds(s: string, depth: nat)
    ensures AllEnd(s, |s|, depth) == |s|
  {
    if depth > 0 {
      NoneEnds(s, depth - 1);
    }
  }

  /** The loop that counts depth finds the end the nesting defines, and the depth it subtracts from
      is never zero. */
  method SkipBlock(s: string, start: nat) returns (i: nat)
    requires OpensBlock(s, start)
    ensures i == CommentEnd(s, start + 2)
  {
    var depth: nat := 0;
    i := start;
    ghost var end := CommentEnd(s, start + 2);
    while i < |s|
      invariant i <= |s|
      invariant depth == 0 ==> i == start
      invariant depth > 0 ==> AllEnd(s, i, depth) == end
    {
      if At(s, i, '/', '*') {
        depth := depth + 1;
        i := i + 2;
      } else if At(s, i, '*', '/') {
        depth := depth - 1;
        i := i + 2;
        if depth == 0 {
          return;
        }
      } else {
        i := i + 1;
      }
    }
    NoneEnds(s, depth);
  }

  /** Where a scan stands at `i`, given the word it is in. */
  ghost predicate Standing(s: string, i: nat, word: Option<nat>)
  {
    && (i <= |s| ==> Outside(s, 0, i))
    && match word
       case None => 0 < i <= |s| ==> !WordByte(s, i - 1)
       case Some(a) =>
         && a < i <= |s|
         && (forall k: nat :: a <= k < i ==> WordByte(s, k))
         && (a > 0 ==> !WordByte(s, a - 1))
  }

  /** No keyword ends before `i`. */
  ghost predicate NoneBefore(s: string, i: nat)
  {
    forall a: nat, b: nat :: b < i ==> !Keyword(s, a, b)
  }

  lemma RunByte(s: string, a: nat, b: nat, k: int)
    ensures MaximalWord(s, a, b) && a <= k < b ==> WordByte(s, k)
  {
  }

  lemma StandingByte(s: string, i: nat, word: Option<nat>, k: int)
    ensures Standing(s, i, word) && word.Some? && word.value <= k < i ==> WordByte(s, k)
  {
  }

  lemma AfterRegion(s: string, i: nat, word: Option<nat>)
    requires i < |s| && Standing(s, i, word) && Opens(s, i) && NoneBefore(s, i)
    ensures Standing(s, Next(s, i), None) && NoneBefore(s, Next(s, i))
  {
    OutsideNext(s, 0, i);
    RegionHasNoWords(s, i);
    forall a: nat, b: nat | i <= b < Next(s, i)
      ensures !Keyword(s, a, b)
    {
      RunByte(s, a, b, b - 1);
    }
  }

  /** The only word that can end where the scan stands is the one it is in. */
  lemma WordInHand(s: string, i: nat, word: Option<nat>, a: nat)
    requires i <= |s| && Standing(s, i, word) && Keyword(s, a, i)
    ensures word == Some(a)
  {
    RunByte(s, a, i, i - 1);
    RunByte(s, a, i, word.value - 1);
    StandingByte(s, i, word, a - 1);
  }

  /** Passing a byte that opens nothing, with no keyword ending there. */
  lemma Passed(s: string, i: nat, word: Option<nat>)
    requires i <= |s| && Standing(s, i, word) && NoneBefore(s, i)
    requires word.Some? && !WordByte(s, i) ==> s[word.value..i] !in DML
    ensures NoneBefore(s, i + 1)
  {
    forall a: nat, b: nat | b < i + 1
      ensures !Keyword(s, a, b)
    {
      if b == i && Keyword(s, a, i) {
        WordInHand(s, i, word, a);
      }
    }
  }

  lemma WordEnds(s: string, i: nat, a: nat)
    requires i <= |s| && Standing(s, i, Some(a)) && !WordByte(s, i) && !Opens(s, i)
    ensures Keyword(s, a, i) <==> s[a..i] in DML
  {
  }

  lemma StepOver(s: string, i: nat, word: Option<nat>)
    requires i < |s| && Standing(s, i, word) && !Opens(s, i)
    ensures Standing(s, i + 1, if !IsWord(s[i]) then None else if word.None? then Some(i) else word)
  {
    OutsideNext(s, 0, i);
  }

  method SkipRegion(s: string, at: nat) returns (i: nat)
    requires at < |s| && Opens(s, at)
    ensures i == Next(s, at)
  {
    var c := s[at];
    if c == '\'' || c == '"' {
      i := SkipTo(s, at + 1, c);
      i := i + 1;
    } else if c == '-' {
      i := SkipTo(s, at + 2, '\n');
    } else {
      i := SkipBlock(s, at);
    }
  }

  /** True exactly when some maximal word outside every quote, line comment and nested block
      comment is a keyword followed by the end or by a byte that opens no region. */
  method MentionsDml(sql: string) returns (found: bool)
    ensures found <==> exists a: nat, b: nat :: Keyword(Lower(sql), a, b)
  {
    var lower := Lower(sql);
    var word: Option<nat> := None;
    var i := 0;
    while i < |lower|
      invariant Standing(lower, i, word)
      invariant NoneBefore(lower, i)
    {
      if Opens(lower, i) {
        AfterRegion(lower, i, word);
        word := None;
        i := SkipRegion(lower, i);
        continue;
      }
      if word.Some? && !IsWord(lower[i]) && lower[word.value..i] in DML {
        WordEnds(lower, i, word.value);
        return true;
      }
      StepOver(lower, i, word);
      Passed(lower, i, word);
      word := if !IsWord(lower[i]) then None else if word.None? then Some(i) else word;
      i := i + 1;
    }
    assert word.Some? ==> lower[word.value..] == lower[word.value..i];
    if word.Some? && lower[word.value..] in DML {
      WordEnds(lower, i, word.value);
      return true;
    }
    found := false;
    if i == |lower| {
      Passed(lower, i, word);
    }
  }
}
