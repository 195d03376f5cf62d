/**
 * Searching past conversations: the terms of a query, the SQL pattern made from each, and the two
 * in-memory measures that have to agree with it.  Letter case is that of ASCII letters.
 */
module ContextSearch {
  import opened Wrappers

  // ---------------------------------------------------------------- text

  function Fold(c: char): char {
    if 'A' <= c <= 'Z' then c - 'A' + 'a' else c
  }

  function Lower(text: string): (r: string)
    ensures |r| == |text|
  {
    seq(|text|, i requires 0 <= i < |text| => Fold(text[i]))
  }

  // What separates the words of a query.
  predicate Separator(c: char) {
    c == ' ' || c == '\t' || c == '\r' || c == '\n'
  }

  predicate Occurs(value: string, term: string, at: int) {
    0 <= at && at + |term| <= |value| && value[at..at + |term|] == term
  }

  ghost predicate Contains(value: string, term: string) {
    exists at :: Occurs(value, term, at)
  }

  // ---------------------------------------------------------------- escaping

  function Replace(text: string, c: char, put: string): string {
    if text == "" then "" else (if text[0] == c then put else [text[0]]) + Replace(text[1..], c, put)
  }

  function EscapeLike(text: string): string {
    Replace(Replace(Replace(text, '\\', "\\\\"), '%', "\\%"), '_', "\\_")
  }

  predicate Special(c: char) {
    c == '\\' || c == '%' || c == '_'
  }

  // Each special character behind one backslash, in one pass.
  function Escaped(text: string): string {
    if text == "" then "" else (if Special(text[0]) then ['\\', text[0]] else [text[0]]) + Escaped(text[1..])
  }

  lemma {:induction false} ReplaceSplits(a: string, b: string, c: char, put: string)
    ensures Replace(a + b, c, put) == Replace(a, c, put) + Replace(b, c, put)
  {
    if a == "" {
      assert a + b == b;
    } else {
      assert (a + b)[1..] == a[1..] + b;
      ReplaceSplits(a[1..], b, c, put);
    }
  }

  lemma ReplaceOne(c: char, d: char, put: string)
    ensures Replace([d], c, put) == if d == c then put else [d]
  {
    assert [d][1..] == "";
    assert put + "" == put;
  }

  lemma ReplaceTwo(c: char, d: char, e: char, put: string)
    requires d != c
    ensures Replace([d, e], c, put) == [d] + (if e == c then put else [e])
  {
    assert [d, e][1..] == [e];
    ReplaceOne(c, e, put);
  }

  // The three replacements, backslash first, do the same as the one pass: no later one touches what
  // an earlier one put in.
  lemma {:induction false} ChainIsOnePass(text: string)
    ensures EscapeLike(text) == Escaped(text)
  {
    if text != "" {
      var head, tail := [text[0]], text[1..];
      assert text == head + tail;
      ChainIsOnePass(tail);
      ReplaceSplits(head, tail, '\\', "\\\\");
      var h1, t1 := Replace(head, '\\', "\\\\"), Replace(tail, '\\', "\\\\");
      ReplaceSplits(h1, t1, '%', "\\%");
      var h2, t2 := Replace(h1, '%', "\\%"), Replace(t1, '%', "\\%");
      ReplaceSplits(h2, t2, '_', "\\_");
      OneCharacter(text[0]);
    }
  }

  lemma OneCharacter(c: char)
    ensures EscapeLike([c]) == if Special(c) then ['\\', c] else [c]
  {
    ReplaceOne('\\', c, "\\\\");
    if c == '\\' {
      ReplaceTwo('%', '\\', '\\', "\\%");
      ReplaceTwo('_', '\\', '\\', "\\_");
    } else {
      ReplaceOne('%', c, "\\%");
      if c == '%' {
        ReplaceTwo('_', '\\', '%', "\\_");
      } else {
        ReplaceOne('_', c, "\\_");
      }
    }
  }

  // ---------------------------------------------------------------- LIKE with '\' as the escape

  predicate Like(pattern: string, value: string)
    decreases |pattern| + |value|
  {
    if pattern == "" then value == ""
    else if pattern[0] == '%' then
      Like(pattern[1..], value) || (value != "" && Like(pattern, value[1..]))
    else if pattern[0] == '\\' then
      |pattern| >= 2 && value != "" && Fold(pattern[1]) == Fold(value[0]) && Like(pattern[2..], value[1..])
    else
      value != "" && (pattern[0] == '_' || Fold(pattern[0]) == Fold(value[0])) && Like(pattern[1..], value[1..])
  }

  lemma {:induction false} AnythingGoes(value: string)
    ensures Like("%", value)
    decreases |value|
  {
    assert "%"[1..] == "";
    if value != "" {
      AnythingGoes(value[1..]);
    }
  }

  predicate Begins(value: string, term: string) {
    |term| <= |value| && Lower(value[..|term|]) == Lower(term)
  }

  lemma BeginsByCharacter(value: string, term: string)
    requires term != ""
    ensures Begins(value, term) <==> value != "" && Fold(term[0]) == Fold(value[0]) && Begins(value[1..], term[1..])
  {
    if Begins(value, term) {
      assert Lower(value[..|term|])[0] == Lower(term)[0];
      forall i | 0 <= i < |term| - 1
        ensures Lower(value[1..][..|term| - 1])[i] == Lower(term[1..])[i]
      {
        assert Lower(value[..|term|])[i + 1] == Lower(term)[i + 1];
      }
    } else if value != "" && Fold(term[0]) == Fold(value[0]) && Begins(value[1..], term[1..]) {
      forall i | 0 <= i < |term|
        ensures Lower(value[..|term|])[i] == Lower(term)[i]
      {
        if i > 0 {
          assert Lower(value[1..][..|term| - 1])[i - 1] == Lower(term[1..])[i - 1];
        }
      }
    }
  }

  // An escaped term is matched literally, whatever is in it.
  lemma {:induction false} EscapedMatchesItself(term: string, rest: string, value: string)
    ensures Like(Escaped(term) + rest, value) <==> Begins(value, term) && Like(rest, value[|term|..])
    decreases |term|
  {
    if term == "" {
      assert Escaped(term) + rest == rest && value[0..] == value;
      assert Lower(value[..0]) == Lower(term);
    } else {
      var tail := Escaped(term[1..]) + rest;
      BeginsByCharacter(value, term);
      if Special(term[0]) {
        assert Escaped(term) + rest == ['\\', term[0]] + tail;
        assert (['\\', term[0]] + tail)[2..] == tail;
      } else {
        assert Escaped(term) + rest == [term[0]] + tail;
        assert ([term[0]] + tail)[1..] == tail;
      }
      if value != "" {
        EscapedMatchesItself(term[1..], rest, value[1..]);
        if |term| <= |value| {
          assert value[1..][|term| - 1..] == value[|term|..];
        }
      }
    }
  }

  ghost predicate MatchesFrom(pattern: string, value: string, at: int) {
    0 <= at <= |value| && Like(pattern, value[at..])
  }

  // A leading '%' lets the rest of the pattern start anywhere.
  lemma {:induction false} PercentSkips(pattern: string, value: string)
    ensures Like("%" + pattern, value) <==> exists at :: MatchesFrom(pattern, value, at)
    decreases |value|
  {
    assert ("%" + pattern)[1..] == pattern && value[0..] == value;
    if Like(pattern, value) {
      assert MatchesFrom(pattern, value, 0);
    }
    if value != "" {
      PercentSkips(pattern, value[1..]);
      if exists at :: MatchesFrom(pattern, value[1..], at) {
        var at :| MatchesFrom(pattern, value[1..], at);
        assert value[1..][at..] == value[at + 1..];
        assert MatchesFrom(pattern, value, at + 1);
      }
      if exists at :: MatchesFrom(pattern, value, at) {
        var at :| MatchesFrom(pattern, value, at);
        if at > 0 {
          assert value[1..][at - 1..] == value[at..];
          assert MatchesFrom(pattern, value[1..], at - 1);
        }
      }
    }
  }

  lemma BeginsIsOccurs(value: string, term: string, at: int)
    requires 0 <= at <= |value| && Lower(term) == term
    ensures Begins(value[at..], term) <==> Occurs(Lower(value), term, at)
  {
    if at + |term| <= |value| {
      assert Lower(value)[at..at + |term|] == Lower(value[at..][..|term|]);
    }
  }

  // The pattern made from a lower-case term selects exactly the values whose lower-case text
  // contains the term.
  lemma LikeIsContains(term: string, value: string)
    requires Lower(term) == term
    ensures Like("%" + EscapeLike(term) + "%", value) <==> Contains(Lower(value), term)
  {
    ChainIsOnePass(term);
    var tail := Escaped(term) + "%";
    assert "%" + EscapeLike(term) + "%" == "%" + tail;
    PercentSkips(tail, value);
    forall at | 0 <= at <= |value|
      ensures MatchesFrom(tail, value, at) <==> Occurs(Lower(value), term, at)
    {
      EscapedMatchesItself(term, "%", value[at..]);
      BeginsIsOccurs(value, term, at);
      if |term| <= |value[at..]| {
        AnythingGoes(value[at..][|term|..]);
      }
    }
    if exists at :: MatchesFrom(tail, value, at) {
      var at :| MatchesFrom(tail, value, at);
      assert Occurs(Lower(value), term, at);
    }
    if Contains(Lower(value), term) {
      var at :| Occurs(Lower(value), term, at);
      assert MatchesFrom(tail, value, at);
    }
  }

  // ---------------------------------------------------------------- the SQL condition

  // One LIKE clause a term, joined by AND; no clause at all for no terms.
  method AddTermParameters(terms: seq<string>) returns (patterns: seq<string>)
    ensures |patterns| == |terms|
    ensures forall i :: 0 <= i < |terms| ==> patterns[i] == "%" + EscapeLike(terms[i]) + "%"
  {
    patterns := [];
    for i := 0 to |terms|
      invariant |patterns| == i
      invariant forall k :: 0 <= k < i ==> patterns[k] == "%" + EscapeLike(terms[k]) + "%"
    {
      patterns := patterns + ["%" + EscapeLike(terms[i]) + "%"];
    }
  }

  predicate SqlSelects(value: string, terms: seq<string>) {
    forall i :: 0 <= i < |terms| ==> Like("%" + EscapeLike(terms[i]) + "%", value)
  }

  ghost predicate ContainsAllTerms(value: string, terms: seq<string>) {
    value != "" && forall i :: 0 <= i < |terms| ==> Contains(Lower(value), terms[i])
  }

  predicate AllLower(terms: seq<string>) {
    forall i :: 0 <= i < |terms| ==> Lower(terms[i]) == terms[i]
  }

  // The database and the in-memory filter agree on every value but the empty one, which only the
  // database selects when every term is empty too.
  lemma SqlAgreesWithContainsAllTerms(value: string, terms: seq<string>)
    requires AllLower(terms)
    ensures (SqlSelects(value, terms) <==> ContainsAllTerms(value, terms))
            <==> value != "" || exists i :: 0 <= i < |terms| && terms[i] != ""
  {
    forall i | 0 <= i < |terms|
      ensures Like("%" + EscapeLike(terms[i]) + "%", value) <==> Contains(Lower(value), terms[i])
    {
      LikeIsContains(terms[i], value);
    }
    if value == "" {
      forall i | 0 <= i < |terms|
        ensures Contains(Lower(value), terms[i]) <==> terms[i] == ""
      {
        if terms[i] == "" {
          assert Occurs(Lower(value), terms[i], 0);
        }
      }
    }
  }

  // ---------------------------------------------------------------- counting

  // The first occurrence at or after a place.
  function IndexOf(value: string, term: string, start: nat): (r: Option<nat>)
    requires start <= |value|
    ensures r.Some? ==> r.value >= start && Occurs(value, term, r.value)
    ensures forall at :: start <= at && Occurs(value, term, at) ==> r.Some? && r.value <= at
    decreases |value| - start
  {
    if Occurs(value, term, start) then Some(start)
    else if start == |value| then None
    else IndexOf(value, term, start + 1)
  }

  function Greedy(value: string, term: string, start: nat): nat
    requires start <= |value| && term != ""
    decreases |value| - start
  {
    var at := IndexOf(value, term, start);
    if at.None? then 0 else 1 + Greedy(value, term, at.value + |term|)
  }

  lemma CountStep(value: string, term: string, index: nat)
    requires index <= |value|
    ensures var at := IndexOf(value, term, index);
            if term == "" then at == Some(index)
            else if at.None? then Greedy(value, term, index) == 0
            else at.value + |term| <= |value|
                 && Greedy(value, term, index) == 1 + Greedy(value, term, at.value + |term|)
  {
    if term == "" {
      assert Occurs(value, term, index);
    }
  }

  // The loop as written; searching from past the end is an error, and an empty term gets there.
  method CountOccurrences(value: string, term: string) returns (count: Option<nat>)
    ensures term != "" ==> count == Some(Greedy(value, term, 0))
    ensures term == "" ==> count == None
  {
    var n := 0;
    var index := 0;
    while index <= |value|
      invariant 0 <= index && (term != "" ==> index <= |value|)
      invariant term == "" ==> index <= |value| + 1
      invariant term != "" ==> n + Greedy(value, term, index) == Greedy(value, term, 0)
      decreases |value| + 1 - index
    {
      CountStep(value, term, index);
      var at := IndexOf(value, term, index);
      if at.None? {
        return Some(n);
      }
      n := n + 1;
      index := at.value + (if 1 > |term| then 1 else |term|);
    }
    return None;
  }

  // Occurrences that do not overlap, from left to right.
  predicate Disjoint(value: string, term: string, places: seq<int>) {
    (forall k :: 0 <= k < |places| ==> Occurs(value, term, places[k]))
    && forall k :: 0 < k < |places| ==> places[k - 1] + |term| <= places[k]
  }

  lemma GreedyStep(value: string, term: string, start: nat, at: int) returns (first: nat)
    requires start <= at && term != "" && Occurs(value, term, at)
    ensures start <= first <= at && first + |term| <= |value|
    ensures Greedy(value, term, start) == 1 + Greedy(value, term, first + |term|)
  {
    first := IndexOf(value, term, start).value;
  }

  lemma {:induction false} NoneBeatsGreedy(value: string, term: string, start: nat, places: seq<int>, k: nat)
    requires start <= |value| && term != "" && Disjoint(value, term, places) && k <= |places|
    requires k < |places| ==> start <= places[k]
    ensures |places| - k <= Greedy(value, term, start)
    decreases |places| - k
  {
    if k < |places| {
      var first := GreedyStep(value, term, start, places[k]);
      assert k + 1 < |places| ==> places[k + 1 - 1] + |term| <= places[k + 1];
      NoneBeatsGreedy(value, term, first + |term|, places, k + 1);
    }
  }

  lemma PlaceInFront(value: string, term: string, at: int, rest: seq<int>)
    requires Occurs(value, term, at) && Disjoint(value, term, rest) && (rest != [] ==> at + |term| <= rest[0])
    ensures Disjoint(value, term, [at] + rest)
  {
    var places := [at] + rest;
    forall k | 0 < k < |places|
      ensures places[k - 1] + |term| <= places[k]
    {
      if k > 1 {
        assert rest[k - 1 - 1] + |term| <= rest[k - 1];
      }
    }
  }

  lemma {:induction false} GreedyPlaces(value: string, term: string, start: nat) returns (places: seq<int>)
    requires start <= |value| && term != ""
    ensures Disjoint(value, term, places) && |places| == Greedy(value, term, start)
    ensures places != [] ==> start <= places[0]
    decreases |value| - start
  {
    CountStep(value, term, start);
    var at := IndexOf(value, term, start);
    places := [];
    if at.Some? {
      var rest := GreedyPlaces(value, term, at.value + |term|);
      PlaceInFront(value, term, at.value, rest);
      places := [at.value] + rest;
    }
  }

  // Counting greedily counts as many occurrences as can be found without overlap.
  lemma GreedyIsOptimal(value: string, term: string, n: nat)
    requires term != ""
    ensures n == Greedy(value, term, 0) <==>
              (exists places: seq<int> :: Disjoint(value, term, places) && |places| == n)
              && (forall places: seq<int> :: Disjoint(value, term, places) ==> |places| <= n)
  {
    var best := GreedyPlaces(value, term, 0);
    forall places: seq<int> | Disjoint(value, term, places)
      ensures |places| <= Greedy(value, term, 0)
    {
      if places != [] {
        assert Occurs(value, term, places[0]);
      }
      NoneBeatsGreedy(value, term, 0, places, 0);
    }
  }

  lemma CountedIffContained(value: string, term: string)
    requires term != ""
    ensures Greedy(value, term, 0) > 0 <==> Contains(value, term)
  {
    if Contains(value, term) {
      var at :| Occurs(value, term, at);
    }
  }

  // ---------------------------------------------------------------- scoring

  function Weight(term: string, count: nat): nat {
    (if count < 5 then count else 5) * (if |term| >= 6 then 4 else 2)
  }

  predicate NoneEmpty(terms: seq<string>, n: nat)
    requires n <= |terms|
  {
    forall i :: 0 <= i < n ==> terms[i] != ""
  }

  // The first `n` terms can be counted and are all there.
  ghost predicate AllFound(lower: string, terms: seq<string>, n: nat)
    requires n <= |terms|
  {
    NoneEmpty(terms, n) && forall i :: 0 <= i < n ==> Contains(lower, terms[i])
  }

  // What the first `n` terms add up to.
  function TermScores(lower: string, terms: seq<string>, n: nat): nat
    requires n <= |terms| && NoneEmpty(terms, n)
  {
    if n == 0 then 0 else TermScores(lower, terms, n - 1) + Weight(terms[n - 1], Greedy(lower, terms[n - 1], 0))
  }

  method ScoreTerm(lower: string, term: string) returns (score: Option<nat>)
    ensures term == "" <==> score == None
    ensures term != "" ==> score == Some(Weight(term, Greedy(lower, term, 0)))
    ensures term != "" ==> (score == Some(0) <==> !Contains(lower, term))
  {
    var count := CountOccurrences(lower, term);
    if count.None? {
      return None;
    }
    CountedIffContained(lower, term);
    score := Some(Weight(term, count.value));
  }

  // The loop over the terms, which ends early at a term that is missing or cannot be counted.
  method ScoreTerms(lower: string, terms: seq<string>) returns (score: Option<nat>, ghost end: nat)
    ensures end <= |terms| && AllFound(lower, terms, end)
    ensures end == |terms| ==> score == Some(TermScores(lower, terms, end))
    ensures end < |terms| ==> score == if terms[end] == "" then None else Some(0)
    ensures end < |terms| && terms[end] != "" ==> !Contains(lower, terms[end])
  {
    var sum: nat := 0;
    for i := 0 to |terms|
      invariant AllFound(lower, terms, i)
      invariant sum == TermScores(lower, terms, i)
    {
      end := i;
      var weight := ScoreTerm(lower, terms[i]);
      if weight.None? {
        return None, end;
      }
      if weight.value == 0 {
        return Some(0), end;
      }
      sum := sum + weight.value;
    }
    return Some(sum), |terms|;
  }

  // Counting gets to an empty term: the terms before it are all there.
  ghost predicate ReachesEmptyTerm(lower: string, terms: seq<string>) {
    exists i :: 0 <= i < |terms| && terms[i] == "" && AllFound(lower, terms, i)
  }

  // The sum over the terms, or zero when one of them is missing or there is no text; counting an empty term
  // fails.
  ghost function Score(value: string, terms: seq<string>): Option<nat> {
    if Blank(value) then Some(0)
    else if ReachesEmptyTerm(Lower(value), terms) then None
    else if AllFound(Lower(value), terms, |terms|) then Some(TermScores(Lower(value), terms, |terms|))
    else Some(0)
  }

  method ScoreText(value: string, terms: seq<string>) returns (score: Option<nat>)
    ensures score == Score(value, terms)
  {
    if Blank(value) {
      return Some(0);
    }
    ghost var end;
    score, end := ScoreTerms(Lower(value), terms);
  }

  lemma {:induction false} EveryTermScores(lower: string, terms: seq<string>, n: nat)
    requires n <= |terms| && AllFound(lower, terms, n)
    ensures TermScores(lower, terms, n) >= 2 * n
  {
    if n > 0 {
      EveryTermScores(lower, terms, n - 1);
      CountedIffContained(lower, terms[n - 1]);
    }
  }

  // ---------------------------------------------------------------- the terms of a query

  function TakeWord(query: string): (r: string)
    ensures r <= query && forall i :: 0 <= i < |r| ==> !Separator(r[i])
  {
    if query == "" || Separator(query[0]) then "" else [query[0]] + TakeWord(query[1..])
  }

  function TrimEnd(text: string): (r: string)
    ensures r <= text && Blank(text[|r|..]) && (r != "" ==> !Space(r[|r| - 1]))
  {
    if text != "" && Space(text[|text| - 1]) then TrimEnd(text[..|text| - 1]) else text
  }

  // A word without the white space around it; vertical tabs and form feeds do not separate words.
  function Trim(text: string): (r: string)
    ensures r != "" ==> !Space(r[0]) && !Space(r[|r| - 1])
    ensures forall c :: c in r ==> c in text
    ensures r == "" <==> Blank(text)
  {
    if text != "" && Space(text[0]) then
      assert text == [text[0]] + text[1..];
      Trim(text[1..])
    else
      var r := TrimEnd(text);
      assert text == r + text[|r|..];
      r
  }

  // The words of a query in order, trimmed, lower case, each once.
  function SplitTerms(query: string): seq<string> {
    SplitInto(query, [])
  }

  function SplitInto(query: string, terms: seq<string>): seq<string>
    decreases |query|
  {
    if query == "" then terms
    else if Separator(query[0]) then SplitInto(query[1..], terms)
    else
      var word := TakeWord(query);
      assert word != "";
      var term := Lower(Trim(word));
      SplitInto(query[|word|..], if term == "" || term in terms then terms else terms + [term])
  }

  predicate IsTerm(term: string) {
    term != "" && Lower(term) == term && !Space(term[0]) && !Space(term[|term| - 1])
    && forall i :: 0 <= i < |term| ==> !Separator(term[i])
  }

  predicate AreTerms(terms: seq<string>) {
    (forall i :: 0 <= i < |terms| ==> IsTerm(terms[i]))
    && forall i, j :: 0 <= i < j < |terms| ==> terms[i] != terms[j]
  }

  lemma LowerTwice(text: string)
    ensures Lower(Lower(text)) == Lower(text)
  {
  }

  lemma WordGivesTerm(word: string, term: string)
    requires term == Lower(Trim(word)) && term != "" && forall c :: c in word ==> !Separator(c)
    ensures IsTerm(term)
  {
    var trimmed := Trim(word);
    LowerTwice(trimmed);
    forall i | 0 <= i < |term|
      ensures !Separator(term[i])
    {
      assert trimmed[i] in trimmed && term[i] == Fold(trimmed[i]);
    }
  }

  lemma {:induction false} SplitGivesTerms(query: string, terms: seq<string>)
    requires AreTerms(terms)
    ensures AreTerms(SplitInto(query, terms))
    decreases |query|
  {
    if query != "" {
      if Separator(query[0]) {
        SplitGivesTerms(query[1..], terms);
      } else {
        var word := TakeWord(query);
        var term := Lower(Trim(word));
        if term != "" {
          WordGivesTerm(word, term);
        }
        SplitGivesTerms(query[|word|..], if term == "" || term in terms then terms else terms + [term]);
      }
    }
  }

  // A blank value contains no term of a query.
  lemma BlankContainsNoTerm(value: string, term: string)
    requires Blank(value) && IsTerm(term)
    ensures !Contains(Lower(value), term)
  {
    forall at
      ensures !Occurs(Lower(value), term, at)
    {
      if 0 <= at && at + |term| <= |value| {
        assert Lower(value)[at..at + |term|][0] == Fold(value[at]);
      }
    }
  }

  // For the terms of any query that has some, scoring never fails, and the database selects a value, the
  // in-memory filter keeps it and its score is positive on exactly the same values.
  lemma SearchesAgree(query: string, value: string)
    requires SplitTerms(query) != []
    ensures var terms := SplitTerms(query);
            NoneEmpty(terms, |terms|)
            && (SqlSelects(value, terms) <==> ContainsAllTerms(value, terms))
            && Score(value, terms).Some?
            && (ContainsAllTerms(value, terms) <==> Score(value, terms).value > 0)
  {
    var terms := SplitTerms(query);
    SplitGivesTerms(query, []);
    assert IsTerm(terms[0]);
    SqlAgreesWithContainsAllTerms(value, terms);
    if ContainsAllTerms(value, terms) {
      if Blank(value) {
        BlankContainsNoTerm(value, terms[0]);
      }
      EveryTermScores(Lower(value), terms, |terms|);
    }
  }
}
