/**
 * The edit distance behind "did you mean": a single row of the dynamic-programming table, refining
 * the recursive distance, which is the least number of one-character edits.
 */
module EditDistance {

  function Least(a: nat, b: nat, c: nat): nat {
    if a <= b && a <= c then a else if b <= c then b else c
  }

  function Init(s: string): string
    requires s != ""
  {
    s[..|s| - 1]
  }

  function Last(s: string): char
    requires s != ""
  {
    s[|s| - 1]
  }

  function Cost(a: string, b: string): nat
    requires a != "" && b != ""
  {
    if Last(a) == Last(b) then 0 else 1
  }

  function Distance(a: string, b: string): nat
    decreases |a| + |b|
  {
    if a == "" then |b|
    else if b == "" then |a|
    else Least(Distance(Init(a), b) + 1, Distance(a, Init(b)) + 1, Distance(Init(a), Init(b)) + Cost(a, b))
  }

  // ---------------------------------------------------------------- one row

  lemma PrefixInit(s: string, i: nat)
    requires 0 < i <= |s|
    ensures s[..i] != "" && Init(s[..i]) == s[..i - 1] && Last(s[..i]) == s[i - 1]
  {
  }

  // One cell of the row below `above`, for the `i`th character `c` of the first text.
  function BelowCell(above: seq<nat>, i: nat, c: char, b: string, j: nat): nat
    requires |above| == |b| + 1 && j <= |b|
  {
    if j == 0 then i
    else Least(above[j] + 1, BelowCell(above, i, c, b, j - 1) + 1, above[j - 1] + (if c == b[j - 1] then 0 else 1))
  }

  // A row holds the distances from one prefix of the first text to every prefix of the second.
  ghost predicate IsRow(row: seq<nat>, a: string, b: string, i: nat) {
    i <= |a| && |row| == |b| + 1 && forall k :: 0 <= k <= |b| ==> row[k] == Distance(a[..i], b[..k])
  }

  lemma {:induction false} CellBelow(above: seq<nat>, a: string, b: string, i: nat, j: nat)
    requires 0 < i <= |a| && j <= |b| && IsRow(above, a, b, i - 1)
    ensures BelowCell(above, i, a[i - 1], b, j) == Distance(a[..i], b[..j])
    decreases j
  {
    if j > 0 {
      CellBelow(above, a, b, i, j - 1);
      PrefixInit(a, i);
      PrefixInit(b, j);
    }
  }

  // The inner loop, overwriting the row in place; `previous` keeps the one value already lost.
  method FillRow(row: array<nat>, i: nat, c: char, b: string, ghost above: seq<nat>)
    requires row.Length == |b| + 1 && above == row[..]
    modifies row
    ensures forall k :: 0 <= k <= |b| ==> row[k] == BelowCell(above, i, c, b, k)
  {
    var previous := row[0];
    row[0] := i;
    for j := 1 to |b| + 1
      invariant forall k :: 0 <= k < j ==> row[k] == BelowCell(above, i, c, b, k)
      invariant forall k :: j <= k <= |b| ==> row[k] == above[k]
      invariant previous == above[j - 1]
    {
      var current := row[j];
      ghost var before := row[..];
      assert row[j - 1] == BelowCell(above, i, c, b, j - 1) && current == above[j];
      row[j] := Least(row[j] + 1, row[j - 1] + 1, previous + (if c == b[j - 1] then 0 else 1));
      assert row[j] == BelowCell(above, i, c, b, j);
      assert forall k :: 0 <= k <= |b| && k != j ==> row[k] == before[k];
      previous := current;
    }
  }

  method Compute(a: string, b: string) returns (d: nat)
    ensures d == Distance(a, b)
  {
    var row := new nat[|b| + 1](i => i);
    assert IsRow(row[..], a, b, 0);
    for i := 1 to |a| + 1
      invariant row.Length == |b| + 1 && IsRow(row[..], a, b, i - 1)
    {
      ghost var above := row[..];
      FillRow(row, i, a[i - 1], b, above);
      forall k | 0 <= k <= |b|
        ensures row[..][k] == Distance(a[..i], b[..k])
      {
        CellBelow(above, a, b, i, k);
      }
    }
    assert a[..|a|] == a && b[..|b|] == b;
    d := row[|b|];
  }

  // ---------------------------------------------------------------- the metric laws

  lemma {:induction false} Symmetric(a: string, b: string)
    ensures Distance(a, b) == Distance(b, a)
    decreases |a| + |b|
  {
    if a != "" && b != "" {
      Symmetric(Init(a), b);
      Symmetric(a, Init(b));
      Symmetric(Init(a), Init(b));
    }
  }

  lemma {:induction false} Bounds(a: string, b: string)
    ensures |a| - |b| <= Distance(a, b) && |b| - |a| <= Distance(a, b) <= |a| + |b|
    decreases |a| + |b|
  {
    if a != "" && b != "" {
      Bounds(Init(a), b);
      Bounds(a, Init(b));
      Bounds(Init(a), Init(b));
    }
  }

  lemma {:induction false} ZeroIffEqual(a: string, b: string)
    ensures Distance(a, b) == 0 <==> a == b
    decreases |a| + |b|
  {
    if a != "" && b != "" {
      ZeroIffEqual(Init(a), Init(b));
      assert a == Init(a) + [Last(a)] && b == Init(b) + [Last(b)];
    }
  }

  lemma Recurrence(a: string, b: string)
    requires a != "" && b != ""
    ensures Distance(a, b) <= Distance(Init(a), b) + 1 && Distance(a, b) <= Distance(a, Init(b)) + 1
    ensures Distance(a, b) <= Distance(Init(a), Init(b)) + Cost(a, b)
    ensures Distance(a, b) == Distance(Init(a), b) + 1 || Distance(a, b) == Distance(a, Init(b)) + 1
            || Distance(a, b) == Distance(Init(a), Init(b)) + Cost(a, b)
  {
  }

  lemma {:induction false} Triangle(a: string, b: string, c: string)
    ensures Distance(a, c) <= Distance(a, b) + Distance(b, c)
    decreases |a| + |b| + |c|
  {
    if a == "" || b == "" || c == "" {
      Bounds(a, c);
      Bounds(a, b);
      Bounds(b, c);
    } else {
      TriangleStep(a, b, c);
    }
  }

  // Which of the three edits the two distances end with decides which smaller triangle is used.
  lemma {:induction false} TriangleStep(a: string, b: string, c: string)
    requires a != "" && b != "" && c != ""
    ensures Distance(a, c) <= Distance(a, b) + Distance(b, c)
    decreases |a| + |b| + |c|, 0
  {
    Recurrence(a, c);
    Recurrence(a, b);
    Recurrence(b, c);
    if Distance(a, b) == Distance(Init(a), b) + 1 {
      Triangle(Init(a), b, c);
    } else if Distance(b, c) == Distance(b, Init(c)) + 1 {
      Triangle(a, b, Init(c));
    } else if Distance(a, b) == Distance(a, Init(b)) + 1 {
      if Distance(b, c) == Distance(Init(b), c) + 1 {
        Triangle(a, Init(b), c);
      } else {
        Triangle(a, Init(b), Init(c));
      }
    } else if Distance(b, c) == Distance(Init(b), c) + 1 {
      Triangle(Init(a), Init(b), c);
    } else {
      Triangle(Init(a), Init(b), Init(c));
    }
  }

  // ---------------------------------------------------------------- the least number of edits

  datatype Edit = Insert(at: nat, c: char) | Delete(at: nat) | Replace(at: nat, c: char)

  predicate Fits(s: string, e: Edit) {
    if e.Insert? then e.at <= |s| else e.at < |s|
  }

  function Edited(s: string, e: Edit): string
    requires Fits(s, e)
  {
    match e
    case Insert(at, c) => s[..at] + [c] + s[at..]
    case Delete(at) => s[..at] + s[at + 1..]
    case Replace(at, c) => s[..at] + [c] + s[at + 1..]
  }

  // A list of edits that turns one text into the other.
  predicate Turns(a: string, b: string, edits: seq<Edit>)
    decreases |edits|
  {
    if edits == [] then a == b else Fits(a, edits[0]) && Turns(Edited(a, edits[0]), b, edits[1..])
  }

  lemma {:induction false} SharedTail(a: string, b: string, tail: string)
    ensures Distance(a + tail, b + tail) <= Distance(a, b)
    decreases |tail|
  {
    if tail == "" {
      assert a + tail == a && b + tail == b;
    } else {
      var front := Init(tail);
      SharedTail(a, b, front);
      assert Init(a + tail) == a + front && Init(b + tail) == b + front;
      Recurrence(a + tail, b + tail);
    }
  }

  lemma InsertIsOneApart(s: string, at: nat, c: char)
    requires at <= |s|
    ensures Distance(s, Edited(s, Insert(at, c))) <= 1
  {
    InsertLast(s[..at], c);
    SharedTail(s[..at], s[..at] + [c], s[at..]);
    assert s == s[..at] + s[at..];
  }

  lemma SplitAt(s: string, at: nat)
    requires at < |s|
    ensures s == s[..at] + [s[at]] + s[at + 1..]
  {
  }

  lemma Deleted(front: string, x: char, tail: string)
    ensures Distance(front + [x] + tail, front + tail) <= 1
  {
    InsertLast(front, x);
    Symmetric(front, front + [x]);
    SharedTail(front + [x], front, tail);
  }

  lemma Replaced(front: string, x: char, y: char, tail: string)
    ensures Distance(front + [x] + tail, front + [y] + tail) <= 1
  {
    ReplaceEnd(front, x, y);
    SharedTail(front + [x], front + [y], tail);
  }

  lemma DeleteIsOneApart(s: string, at: nat)
    requires at < |s|
    ensures Distance(s, Edited(s, Delete(at))) <= 1
  {
    SplitAt(s, at);
    Deleted(s[..at], s[at], s[at + 1..]);
  }

  lemma ReplaceIsOneApart(s: string, at: nat, c: char)
    requires at < |s|
    ensures Distance(s, Edited(s, Replace(at, c))) <= 1
  {
    SplitAt(s, at);
    Replaced(s[..at], s[at], c, s[at + 1..]);
  }

  lemma OneEditIsOneApart(s: string, e: Edit)
    requires Fits(s, e)
    ensures Distance(s, Edited(s, e)) <= 1
  {
    match e {
      case Insert(at, c) => InsertIsOneApart(s, at, c);
      case Delete(at) => DeleteIsOneApart(s, at);
      case Replace(at, c) => ReplaceIsOneApart(s, at, c);
    }
  }

  lemma ReplaceEnd(front: string, x: char, y: char)
    ensures Distance(front + [x], front + [y]) <= 1
  {
    assert Init(front + [x]) == front && Init(front + [y]) == front;
    ZeroIffEqual(front, front);
    Recurrence(front + [x], front + [y]);
  }

  lemma InsertLast(s: string, c: char)
    ensures Distance(s, s + [c]) <= 1
  {
    ZeroIffEqual(s, s);
    assert Init(s + [c]) == s;
    if s != "" {
      Recurrence(s, s + [c]);
    }
  }

  // No list of edits is shorter than the distance.
  lemma {:induction false} NoShorterEdits(a: string, b: string, edits: seq<Edit>)
    requires Turns(a, b, edits)
    ensures Distance(a, b) <= |edits|
    decreases |edits|
  {
    if edits == [] {
      ZeroIffEqual(a, b);
    } else {
      var next := Edited(a, edits[0]);
      OneEditIsOneApart(a, edits[0]);
      NoShorterEdits(next, b, edits[1..]);
      Triangle(a, next, b);
    }
  }

  lemma {:induction false} TurnsThen(a: string, b: string, edits: seq<Edit>, e: Edit)
    requires Turns(a, b, edits) && Fits(b, e)
    ensures Turns(a, Edited(b, e), edits + [e])
    decreases |edits|
  {
    if edits == [] {
      assert edits + [e] == [e] && [e][1..] == [];
    } else {
      TurnsThen(Edited(a, edits[0]), b, edits[1..], e);
      assert (edits + [e])[1..] == edits[1..] + [e];
    }
  }

  lemma EditBefore(a: string, e: Edit, c: char)
    requires Fits(a, e)
    ensures Fits(a + [c], e) && Edited(a + [c], e) == Edited(a, e) + [c]
  {
  }

  // Edits work the same with one more character behind.
  lemma {:induction false} TurnsBefore(a: string, b: string, edits: seq<Edit>, c: char)
    requires Turns(a, b, edits)
    ensures Turns(a + [c], b + [c], edits)
    decreases |edits|
  {
    if edits != [] {
      EditBefore(a, edits[0], c);
      TurnsBefore(Edited(a, edits[0]), b, edits[1..], c);
    }
  }

  lemma {:induction false} DeleteAll(a: string) returns (edits: seq<Edit>)
    ensures Turns(a, "", edits) && |edits| == |a|
  {
    if a == "" {
      edits := [];
    } else {
      var rest := DeleteAll(Init(a));
      edits := [Delete(|a| - 1)] + rest;
      assert Edited(a, edits[0]) == Init(a) && edits[1..] == rest;
    }
  }

  lemma {:induction false} InsertAll(b: string) returns (edits: seq<Edit>)
    ensures Turns("", b, edits) && |edits| == |b|
  {
    if b == "" {
      edits := [];
    } else {
      var rest := InsertAll(Init(b));
      TurnsThen("", Init(b), rest, Insert(|b| - 1, Last(b)));
      edits := rest + [Insert(|b| - 1, Last(b))];
      assert Edited(Init(b), Insert(|b| - 1, Last(b))) == b;
    }
  }

  lemma DeleteLast(a: string, b: string, rest: seq<Edit>) returns (edits: seq<Edit>)
    requires a != "" && Turns(Init(a), b, rest)
    ensures Turns(a, b, edits) && |edits| == |rest| + 1
  {
    edits := [Delete(|a| - 1)] + rest;
    assert Edited(a, edits[0]) == Init(a) && edits[1..] == rest;
  }

  lemma AppendLast(a: string, b: string, rest: seq<Edit>) returns (edits: seq<Edit>)
    requires b != "" && Turns(a, Init(b), rest)
    ensures Turns(a, b, edits) && |edits| == |rest| + 1
  {
    var last := Insert(|b| - 1, Last(b));
    edits := rest + [last];
    TurnsThen(a, Init(b), rest, last);
    assert Edited(Init(b), last) == b;
  }

  lemma ReplaceLast(a: string, b: string, rest: seq<Edit>) returns (edits: seq<Edit>)
    requires a != "" && b != "" && Turns(Init(a), Init(b), rest)
    ensures Turns(a, b, edits) && |edits| == |rest| + Cost(a, b)
  {
    TurnsBefore(Init(a), Init(b), rest, Last(a));
    InitThenLast(a);
    InitThenLast(b);
    edits := ThenReplace(a, Init(b), Last(a), Last(b), rest);
  }

  // Some list of edits is as short as the distance.
  lemma {:induction false} ShortestEdits(a: string, b: string) returns (edits: seq<Edit>)
    ensures Turns(a, b, edits) && |edits| == Distance(a, b)
    decreases |a| + |b|
  {
    if a == "" {
      edits := InsertAll(b);
    } else if b == "" {
      edits := DeleteAll(a);
    } else {
      Recurrence(a, b);
      if Distance(a, b) == Distance(Init(a), b) + 1 {
        var rest := ShortestEdits(Init(a), b);
        edits := DeleteLast(a, b, rest);
      } else if Distance(a, b) == Distance(a, Init(b)) + 1 {
        var rest := ShortestEdits(a, Init(b));
        edits := AppendLast(a, b, rest);
      } else {
        var rest := ShortestEdits(Init(a), Init(b));
        edits := ReplaceLast(a, b, rest);
      }
    }
  }

  lemma InitThenLast(s: string)
    requires s != ""
    ensures Init(s) + [Last(s)] == s
  {
  }

  lemma ThenReplace(a: string, front: string, x: char, y: char, rest: seq<Edit>) returns (edits: seq<Edit>)
    requires Turns(a, front + [x], rest)
    ensures Turns(a, front + [y], edits) && |edits| == |rest| + (if x == y then 0 else 1)
  {
    edits := rest;
    if x != y {
      var last := Replace(|front|, y);
      TurnsThen(a, front + [x], rest, last);
      edits := rest + [last];
      assert Edited(front + [x], last) == front + [y];
    }
  }

  // The distance is the least number of insertions, deletions and replacements, and nothing else is.
  lemma DistanceIsLeastNumberOfEdits(a: string, b: string, n: nat)
    ensures n == Distance(a, b) <==>
              (exists edits: seq<Edit> :: Turns(a, b, edits) && |edits| == n)
              && (forall edits: seq<Edit> :: Turns(a, b, edits) ==> n <= |edits|)
  {
    var shortest := ShortestEdits(a, b);
    forall edits: seq<Edit> | Turns(a, b, edits)
      ensures Distance(a, b) <= |edits|
    {
      NoShorterEdits(a, b, edits);
    }
  }
}
