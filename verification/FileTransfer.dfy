/**
 * Chunked file transfer: a receiver that collects one pending file at a time and commits it under
 * its final name, and the loop that feeds it.  The digest is a parameter.
 */
module FileTransfer {
  import opened Wrappers

  newtype Byte = b: int | 0 <= b < 256

  const CHUNK_BYTES := 1048576
  const MAX_ENTRIES := 10000

  datatype Node = Directory | Content(bytes: seq<Byte>)

  datatype Entry = Entry(path: string, isDirectory: bool, length: int, sha256: Option<string>)

  // What stays fixed during a transfer.  `resolve` places a relative path under the root, and `allowed`
  // says that no link is on the way to a path and that the path may be written.
  datatype Setup = Setup(entries: seq<Entry>, isDirectory: bool, overwrite: bool, resolve: string -> string,
                         allowed: string -> bool, digest: seq<Byte> -> string)

  // `hashed` is what the running digest has seen since it was last read.
  datatype Pending = Pending(index: int, bytes: seq<Byte>, hashed: seq<Byte>, closed: bool)

  datatype State = State(pending: Option<Pending>, completed: set<int>, files: map<string, Node>, stopped: bool)

  datatype Call = Write(index: int, offset: int, bytes: seq<Byte>) | Commit(index: int, permitted: bool) | Dispose

  // ---------------------------------------------------------------- manifests

  predicate HexDigit(c: char) {
    '0' <= c <= '9' || 'a' <= c <= 'f' || 'A' <= c <= 'F'
  }

  predicate IsDigest(text: string) {
    |text| == 64 && forall i :: 0 <= i < |text| ==> HexDigit(text[i])
  }

  function Upper(text: string): (r: string)
    ensures |r| == |text|
  {
    seq(|text|, i requires 0 <= i < |text| => if 'a' <= text[i] <= 'z' then text[i] - 'a' + 'A' else text[i])
  }

  predicate WellFormed(entry: Entry) {
    entry.length >= 0 && if entry.isDirectory then entry.length == 0 && entry.sha256.None?
                         else entry.sha256.Some? && IsDigest(entry.sha256.value)
  }

  function Target(c: Setup, i: int): string
    requires 0 <= i < |c.entries|
  {
    c.resolve(c.entries[i].path)
  }

  // Something already stands where the entry is to go.
  predicate InTheWay(c: Setup, i: int, files: map<string, Node>)
    requires 0 <= i < |c.entries|
  {
    Target(c, i) in files &&
    if c.entries[i].isDirectory then files[Target(c, i)].Content?
    else files[Target(c, i)].Directory? || !c.overwrite
  }

  function TotalLength(entries: seq<Entry>): int
    decreases |entries|
  {
    if entries == [] then 0 else TotalLength(entries[..|entries| - 1]) + entries[|entries| - 1].length
  }

  function FileBytes(entries: seq<Entry>): int
    decreases |entries|
  {
    if entries == [] then 0
    else FileBytes(entries[..|entries| - 1])
         + (if entries[|entries| - 1].isDirectory then 0 else entries[|entries| - 1].length)
  }

  function FileCount(entries: seq<Entry>): nat
    decreases |entries|
  {
    if entries == [] then 0
    else FileCount(entries[..|entries| - 1]) + (if entries[|entries| - 1].isDirectory then 0 else 1)
  }

  predicate DistinctTargets(c: Setup, n: int)
    requires 0 <= n <= |c.entries|
  {
    forall i, j :: 0 <= i < j < n ==> Target(c, i) != Target(c, j)
  }

  predicate FirstEntries(c: Setup, files: map<string, Node>, n: int)
    requires 0 <= n <= |c.entries|
  {
    DistinctTargets(c, n)
    && forall i :: 0 <= i < n ==> WellFormed(c.entries[i]) && c.allowed(Target(c, i)) && !InTheWay(c, i, files)
  }

  // A manifest that a receiver can honour within its byte limit.
  predicate Acceptable(c: Setup, files: map<string, Node>, maxBytes: int) {
    && 0 < |c.entries| <= MAX_ENTRIES
    && FirstEntries(c, files, |c.entries|)
    && TotalLength(c.entries) <= maxBytes
    && c.entries[0].path == "" && c.entries[0].isDirectory == c.isDirectory
    && (!c.isDirectory ==> |c.entries| == 1)
  }

  lemma {:induction false} TotalGrows(entries: seq<Entry>, n: nat)
    requires n <= |entries| && forall i :: 0 <= i < |entries| ==> entries[i].length >= 0
    ensures 0 <= TotalLength(entries[..n]) <= TotalLength(entries)
    decreases |entries|
  {
    if n < |entries| {
      var front := entries[..|entries| - 1];
      TotalGrows(front, n);
      assert front[..n] == entries[..n];
    } else {
      assert entries[..n] == entries;
      if entries != [] {
        var front := entries[..|entries| - 1];
        TotalGrows(front, |front|);
        assert front[..|front|] == front;
      }
    }
  }

  // The checks before anything is written: they succeed exactly on acceptable manifests.
  method Prepare(c: Setup, files: map<string, Node>, maxBytes: int) returns (ok: bool)
    ensures ok <==> Acceptable(c, files, maxBytes)
  {
    if |c.entries| == 0 || |c.entries| > MAX_ENTRIES {
      return false;
    }
    var names: set<string> := {};
    var total := 0;
    var i := 0;
    while i < |c.entries|
      invariant 0 <= i <= |c.entries|
      invariant FirstEntries(c, files, i)
      invariant forall name :: name in names <==> exists k :: 0 <= k < i && Target(c, k) == name
      invariant total == TotalLength(c.entries[..i]) && (i > 0 ==> total <= maxBytes)
    {
      var entry := c.entries[i];
      var path := c.resolve(entry.path);
      if path in names || !WellFormed(entry) || entry.length > maxBytes - total || !c.allowed(path)
         || InTheWay(c, i, files) {
        PrepareRefuses(c, files, maxBytes, i, names);
        return false;
      }
      assert c.entries[..i + 1][..i] == c.entries[..i];
      names := names + {path};
      total := total + entry.length;
      i := i + 1;
    }
    assert c.entries[..|c.entries|] == c.entries;
    ok := c.entries[0].path == "" && c.entries[0].isDirectory == c.isDirectory && (c.isDirectory || |c.entries| == 1);
  }

  lemma PrepareRefuses(c: Setup, files: map<string, Node>, maxBytes: int, i: nat, names: set<string>)
    requires i < |c.entries|
    requires forall name :: name in names <==> exists k :: 0 <= k < i && Target(c, k) == name
    requires Target(c, i) in names || !WellFormed(c.entries[i]) || !c.allowed(Target(c, i)) || InTheWay(c, i, files)
             || c.entries[i].length > maxBytes - TotalLength(c.entries[..i])
    ensures !Acceptable(c, files, maxBytes)
  {
    if forall k :: 0 <= k < |c.entries| ==> WellFormed(c.entries[k]) {
      TotalGrows(c.entries, i + 1);
      assert c.entries[..i + 1][..i] == c.entries[..i];
    }
  }

  // ---------------------------------------------------------------- the receiver

  predicate Opens(c: Setup, s: State, index: int) {
    0 <= index < |c.entries| && !s.stopped
  }

  predicate WriteAllowed(c: Setup, s: State, index: int, offset: int, bytes: seq<Byte>) {
    && Opens(c, s, index) && !c.entries[index].isDirectory && index !in s.completed && |bytes| <= CHUNK_BYTES
    && (if s.pending.None? then offset == 0
        else s.pending.value.index == index && !s.pending.value.closed && offset == |s.pending.value.bytes|)
    && |bytes| <= c.entries[index].length - offset
  }

  // A refused first write may still have opened an empty pending file.
  function Opened(c: Setup, s: State, index: int, offset: int, bytes: seq<Byte>): State {
    if s.pending.None? && Opens(c, s, index) && !c.entries[index].isDirectory && index !in s.completed
       && |bytes| <= CHUNK_BYTES && offset == 0
    then s.(pending := Some(Pending(index, [], [], false)))
    else s
  }

  predicate Complete(c: Setup, s: State, index: int) {
    Opens(c, s, index) && s.pending.Some? && s.pending.value.index == index && !s.pending.value.closed
    && |s.pending.value.bytes| == c.entries[index].length
  }

  predicate DigestMatches(c: Setup, s: State, index: int)
    requires Complete(c, s, index)
  {
    c.entries[index].sha256.Some? && c.digest(s.pending.value.hashed) == Upper(c.entries[index].sha256.value)
  }

  // One call and whether it succeeds.
  function Step(c: Setup, s: State, call: Call): (State, bool) {
    match call
    case Write(index, offset, bytes) =>
      if !WriteAllowed(c, s, index, offset, bytes) then (Opened(c, s, index, offset, bytes), false)
      else
        var p := if s.pending.Some? then s.pending.value else Pending(index, [], [], false);
        (s.(pending := Some(p.(bytes := p.bytes + bytes, hashed := p.hashed + bytes))), true)
    case Commit(index, permitted) =>
      if !Opens(c, s, index) || index in s.completed then (s, false)
      else if c.entries[index].isDirectory then
        if !permitted || (Target(c, index) in s.files && s.files[Target(c, index)].Content?) then (s, false)
        else (s.(files := s.files[Target(c, index) := Directory], completed := s.completed + {index}), true)
      else if !Complete(c, s, index) then (s, false)
      else
        var read := s.pending.value.(hashed := []);
        if !DigestMatches(c, s, index) then (s.(pending := Some(read)), false)
        else if !permitted || InTheWay(c, index, s.files) then (s.(pending := Some(read.(closed := true))), false)
        else (s.(files := s.files[Target(c, index) := Content(read.bytes)],
                 completed := s.completed + {index}, pending := None), true)
    case Dispose => (s.(pending := None, stopped := true), true)
  }

  function Run(c: Setup, s: State, calls: seq<Call>): State
    decreases |calls|
  {
    if calls == [] then s else Run(c, Step(c, s, calls[0]).0, calls[1..])
  }

  // ---------------------------------------------------------------- nothing appears unchecked

  predicate DigestOf(c: Setup, index: int, bytes: seq<Byte>)
    requires 0 <= index < |c.entries|
  {
    c.entries[index].sha256.Some? && c.digest(bytes) == Upper(c.entries[index].sha256.value)
  }

  // What a committed entry may leave at its destination: its full length, and its digest either over
  // those bytes or, after an earlier mismatch, over no bytes.
  predicate Fits(c: Setup, index: int, node: Node)
    requires 0 <= index < |c.entries|
  {
    if c.entries[index].isDirectory then node == Directory
    else node.Content? && |node.bytes| == c.entries[index].length
         && (DigestOf(c, index, node.bytes) || (DigestOf(c, index, []) && c.entries[index].length != 0))
  }

  predicate Checked(c: Setup, index: int, node: Node)
    requires 0 <= index < |c.entries|
  {
    if c.entries[index].isDirectory then node == Directory
    else node.Content? && |node.bytes| == c.entries[index].length && DigestOf(c, index, node.bytes)
  }

  predicate Accounted(c: Setup, s: State, before: map<string, Node>, path: string) {
    (path in s.files && path in before && s.files[path] == before[path])
    || (path !in s.files && path !in before)
    || (path in s.files
        && exists i :: i in s.completed && 0 <= i < |c.entries| && Target(c, i) == path && Fits(c, i, s.files[path]))
  }

  ghost predicate Inv(c: Setup, s: State, before: map<string, Node>) {
    && (s.pending.Some? ==>
          0 <= s.pending.value.index < |c.entries| && !c.entries[s.pending.value.index].isDirectory
          && (s.pending.value.bytes == [] || |s.pending.value.bytes| <= c.entries[s.pending.value.index].length)
          && (s.pending.value.hashed == s.pending.value.bytes
              || (s.pending.value.hashed == [] && |s.pending.value.bytes| == c.entries[s.pending.value.index].length)))
    && (forall path :: path in s.files || path in before ==> Accounted(c, s, before, path))
  }

  lemma CommitAccounts(c: Setup, s: State, before: map<string, Node>, index: int, node: Node, next: State)
    requires Inv(c, s, before) && 0 <= index < |c.entries| && Fits(c, index, node)
    requires next.files == s.files[Target(c, index) := node] && next.completed == s.completed + {index}
    ensures forall path :: path in next.files || path in before ==> Accounted(c, next, before, path)
  {
    forall path | path in next.files || path in before
      ensures Accounted(c, next, before, path)
    {
      if path == Target(c, index) {
        assert index in next.completed;
      } else {
        assert Accounted(c, s, before, path);
      }
    }
  }

  lemma SameFilesAccounted(c: Setup, s: State, before: map<string, Node>, next: State)
    requires forall path :: path in s.files || path in before ==> Accounted(c, s, before, path)
    requires next.files == s.files && next.completed == s.completed
    ensures forall path :: path in next.files || path in before ==> Accounted(c, next, before, path)
  {
    forall path | path in next.files || path in before
      ensures Accounted(c, next, before, path)
    {
      assert Accounted(c, s, before, path);
    }
  }

  lemma StepKeepsInv(c: Setup, s: State, before: map<string, Node>, call: Call)
    requires Inv(c, s, before)
    ensures Inv(c, Step(c, s, call).0, before)
  {
    var next := Step(c, s, call).0;
    if next.completed == s.completed && next.files == s.files {
      SameFilesAccounted(c, s, before, next);
      if call.Write? && s.pending.Some? {
        assert s.pending.value.bytes + [] == s.pending.value.bytes;
      }
    } else {
      CommitAccounts(c, s, before, call.index, next.files[Target(c, call.index)], next);
    }
  }

  lemma {:induction false} RunKeepsInv(c: Setup, s: State, before: map<string, Node>, calls: seq<Call>)
    requires Inv(c, s, before)
    ensures Inv(c, Run(c, s, calls), before)
    decreases |calls|
  {
    if calls != [] {
      StepKeepsInv(c, s, before, calls[0]);
      RunKeepsInv(c, Step(c, s, calls[0]).0, before, calls[1..]);
    }
  }

  function Idle(files: map<string, Node>): State {
    State(None, {}, files, false)
  }

  // Whatever calls arrive, in whatever order: a destination that differs from before belongs to a
  // committed entry and has that entry's kind, full length and digest, the last as far as it goes.
  lemma NothingAppearsUnchecked(c: Setup, before: map<string, Node>, calls: seq<Call>, path: string)
    ensures path in before ==> path in Run(c, Idle(before), calls).files
    ensures var s := Run(c, Idle(before), calls);
            path in s.files && !(path in before && before[path] == s.files[path]) ==>
              exists i :: i in s.completed && 0 <= i < |c.entries| && Target(c, i) == path && Fits(c, i, s.files[path])
  {
    forall p | p in before
      ensures Accounted(c, Idle(before), before, p)
    {
    }
    RunKeepsInv(c, Idle(before), before, calls);
    var s := Run(c, Idle(before), calls);
    if path in s.files || path in before {
      assert Accounted(c, s, before, path);
    }
  }

  // ---------------------------------------------------------------- the sender

  // One file in chunks; an empty file is still one, empty, write.
  function Feed(index: int, offset: int, rest: seq<Byte>): seq<Call>
    decreases |rest|
  {
    if |rest| <= CHUNK_BYTES then [Write(index, offset, rest)]
    else [Write(index, offset, rest[..CHUNK_BYTES])] + Feed(index, offset + CHUNK_BYTES, rest[CHUNK_BYTES..])
  }

  predicate Ready(s: State, index: int, sent: seq<Byte>) {
    !s.stopped && index !in s.completed
    && (if s.pending.Some? then s.pending.value == Pending(index, sent, sent, false) else sent == [])
  }

  lemma {:induction false} RunSplits(c: Setup, s: State, first: seq<Call>, second: seq<Call>)
    ensures Run(c, s, first + second) == Run(c, Run(c, s, first), second)
    decreases |first|
  {
    if first == [] {
      assert first + second == second;
    } else {
      RunSplits(c, Step(c, s, first[0]).0, first[1..], second);
      assert (first + second)[1..] == first[1..] + second;
    }
  }

  lemma RunOne(c: Setup, s: State, call: Call)
    ensures Run(c, s, [call]) == Step(c, s, call).0
  {
    assert [call][1..] == [];
  }

  lemma WriteExtends(c: Setup, s: State, index: int, sent: seq<Byte>, bytes: seq<Byte>)
    requires 0 <= index < |c.entries| && !c.entries[index].isDirectory && Ready(s, index, sent)
    requires |bytes| <= CHUNK_BYTES && |sent| + |bytes| <= c.entries[index].length
    ensures Step(c, s, Write(index, |sent|, bytes))
            == (s.(pending := Some(Pending(index, sent + bytes, sent + bytes, false))), true)
  {
  }

  lemma {:induction false} FeedFills(c: Setup, s: State, index: int, sent: seq<Byte>, rest: seq<Byte>)
    requires 0 <= index < |c.entries| && !c.entries[index].isDirectory && Ready(s, index, sent)
    requires |sent| + |rest| == c.entries[index].length
    ensures Run(c, s, Feed(index, |sent|, rest)) == s.(pending := Some(Pending(index, sent + rest, sent + rest, false)))
    decreases |rest|
  {
    if |rest| <= CHUNK_BYTES {
      WriteExtends(c, s, index, sent, rest);
      RunOne(c, s, Write(index, |sent|, rest));
    } else {
      var block, tail := rest[..CHUNK_BYTES], rest[CHUNK_BYTES..];
      WriteExtends(c, s, index, sent, block);
      var next := Step(c, s, Write(index, |sent|, block)).0;
      FeedFills(c, next, index, sent + block, tail);
      assert (sent + block) + tail == sent + rest;
      assert Feed(index, |sent|, rest)[1..] == Feed(index, |sent| + CHUNK_BYTES, tail);
    }
  }

  function EntryCalls(c: Setup, index: int, content: seq<Byte>): seq<Call>
    requires 0 <= index < |c.entries|
  {
    if c.entries[index].isDirectory then [Commit(index, true)] else Feed(index, 0, content) + [Commit(index, true)]
  }

  function Sent(c: Setup, contents: seq<seq<Byte>>, n: nat): seq<Call>
    requires n <= |c.entries| == |contents|
  {
    if n == 0 then [] else Sent(c, contents, n - 1) + EntryCalls(c, n - 1, contents[n - 1])
  }

  function NodeOf(c: Setup, contents: seq<seq<Byte>>, i: int): Node
    requires 0 <= i < |c.entries| == |contents|
  {
    if c.entries[i].isDirectory then Directory else Content(contents[i])
  }

  function Placed(c: Setup, before: map<string, Node>, contents: seq<seq<Byte>>, n: nat): map<string, Node>
    requires n <= |c.entries| == |contents|
  {
    if n == 0 then before else Placed(c, before, contents, n - 1)[Target(c, n - 1) := NodeOf(c, contents, n - 1)]
  }

  // The manifest tells the truth about the contents.
  predicate Describes(c: Setup, contents: seq<seq<Byte>>) {
    |contents| == |c.entries|
    && forall i :: 0 <= i < |c.entries| && !c.entries[i].isDirectory ==>
         |contents[i]| == c.entries[i].length && DigestOf(c, i, contents[i])
  }

  lemma {:induction false} PlacedLeavesOthers(c: Setup, before: map<string, Node>, contents: seq<seq<Byte>>, n: nat,
                                              path: string)
    requires n <= |c.entries| == |contents|
    requires forall i :: 0 <= i < n ==> Target(c, i) != path
    ensures path in Placed(c, before, contents, n) <==> path in before
    ensures path in before ==> Placed(c, before, contents, n)[path] == before[path]
  {
    if n > 0 {
      PlacedLeavesOthers(c, before, contents, n - 1, path);
    }
  }

  lemma {:induction false} PlacedHolds(c: Setup, before: map<string, Node>, contents: seq<seq<Byte>>, n: nat, i: nat)
    requires i < n <= |c.entries| == |contents| && DistinctTargets(c, n)
    ensures Target(c, i) in Placed(c, before, contents, n)
    ensures Placed(c, before, contents, n)[Target(c, i)] == NodeOf(c, contents, i)
  {
    if i < n - 1 {
      PlacedHolds(c, before, contents, n - 1, i);
    }
  }

  function Upto(n: nat): (r: set<int>)
    ensures forall i :: i in r <==> 0 <= i < n
  {
    if n == 0 then {} else Upto(n - 1) + {n - 1}
  }

  lemma EntryArrives(c: Setup, before: map<string, Node>, contents: seq<seq<Byte>>, n: nat)
    requires n < |c.entries| && FirstEntries(c, before, |c.entries|) && Describes(c, contents)
    ensures Run(c, State(None, Upto(n), Placed(c, before, contents, n), false), EntryCalls(c, n, contents[n]))
         == State(None, Upto(n + 1), Placed(c, before, contents, n + 1), false)
  {
    var s := State(None, Upto(n), Placed(c, before, contents, n), false);
    PlacedLeavesOthers(c, before, contents, n, Target(c, n));
    assert Upto(n) + {n} == Upto(n + 1);
    assert !InTheWay(c, n, s.files);
    var filled := s;
    if !c.entries[n].isDirectory {
      FeedFills(c, s, n, [], contents[n]);
      assert [] + contents[n] == contents[n];
      filled := Run(c, s, Feed(n, 0, contents[n]));
      RunSplits(c, s, Feed(n, 0, contents[n]), [Commit(n, true)]);
    }
    RunOne(c, filled, Commit(n, true));
  }

  lemma {:induction false} SentArrives(c: Setup, before: map<string, Node>, contents: seq<seq<Byte>>, n: nat)
    requires n <= |c.entries| && FirstEntries(c, before, |c.entries|) && Describes(c, contents)
    ensures Run(c, Idle(before), Sent(c, contents, n)) == State(None, Upto(n), Placed(c, before, contents, n), false)
  {
    if n == 0 {
      assert Upto(0) == {};
    } else {
      SentArrives(c, before, contents, n - 1);
      EntryArrives(c, before, contents, n - 1);
      RunSplits(c, Idle(before), Sent(c, contents, n - 1), EntryCalls(c, n - 1, contents[n - 1]));
    }
  }

  // End to end: the sender's calls for an acceptable manifest that tells the truth leave every
  // destination equal to its source, byte for byte, and every other path as it was.
  lemma TransferIsExact(c: Setup, before: map<string, Node>, maxBytes: int, contents: seq<seq<Byte>>)
    requires Acceptable(c, before, maxBytes) && Describes(c, contents)
    ensures var s := Run(c, Idle(before), Sent(c, contents, |c.entries|));
            && s.pending.None? && s.completed == Upto(|c.entries|)
            && (forall i :: 0 <= i < |c.entries| ==>
                  Target(c, i) in s.files && s.files[Target(c, i)] == NodeOf(c, contents, i))
            && (forall path :: (forall i :: 0 <= i < |c.entries| ==> Target(c, i) != path) ==>
                  (path in s.files <==> path in before) && (path in before ==> s.files[path] == before[path]))
  {
    var n := |c.entries|;
    SentArrives(c, before, contents, n);
    forall i | 0 <= i < n
      ensures Target(c, i) in Placed(c, before, contents, n)
      ensures Placed(c, before, contents, n)[Target(c, i)] == NodeOf(c, contents, i)
    {
      PlacedHolds(c, before, contents, n, i);
    }
    forall path | forall i :: 0 <= i < n ==> Target(c, i) != path
      ensures (path in Placed(c, before, contents, n) <==> path in before)
      ensures path in before ==> Placed(c, before, contents, n)[path] == before[path]
    {
      PlacedLeavesOthers(c, before, contents, n, path);
    }
  }

  // ---------------------------------------------------------------- when the digest is not checked

  // No entry that is not empty carries the digest of no bytes.
  predicate NoEmptyDigests(c: Setup) {
    forall i :: 0 <= i < |c.entries| && c.entries[i].length != 0 ==> !DigestOf(c, i, [])
  }

  ghost predicate AppearsChecked(c: Setup, before: map<string, Node>, calls: seq<Call>, path: string) {
    var s := Run(c, Idle(before), calls);
    path in s.files && !(path in before && before[path] == s.files[path]) ==>
      exists i :: i in s.completed && 0 <= i < |c.entries| && Target(c, i) == path && Checked(c, i, s.files[path])
  }

  predicate Mismatched(c: Setup, i: int, bytes: seq<Byte>)
    requires 0 <= i < |c.entries|
  {
    |bytes| == c.entries[i].length && !DigestOf(c, i, bytes)
  }

  predicate StandsThere(c: Setup, before: map<string, Node>, i: int, bytes: seq<Byte>)
    requires 0 <= i < |c.entries|
  {
    Target(c, i) in before && before[Target(c, i)] == Content(bytes)
  }

  // Some content of a non-empty entry's length, other than what already stands at its place, does not
  // have the entry's digest.
  ghost predicate HasOther(c: Setup, before: map<string, Node>, i: int)
    requires 0 <= i < |c.entries|
  {
    c.entries[i].length != 0 ==> exists bytes: seq<Byte> :: Mismatched(c, i, bytes) && !StandsThere(c, before, i, bytes)
  }

  // What appears is checked in every run exactly when the manifest gives no non-empty file the digest of
  // no bytes.  Reading the running digest resets it, so a second commit after a mismatch compares with
  // the digest of nothing.
  lemma DigestIsCheckedIffNoEmptyDigests(c: Setup, before: map<string, Node>)
    requires FirstEntries(c, before, |c.entries|) && forall i :: 0 <= i < |c.entries| ==> HasOther(c, before, i)
    ensures NoEmptyDigests(c) <==> forall calls: seq<Call>, path: string :: AppearsChecked(c, before, calls, path)
  {
    if NoEmptyDigests(c) {
      forall calls: seq<Call>, path: string
        ensures AppearsChecked(c, before, calls, path)
      {
        NothingAppearsUnchecked(c, before, calls, path);
      }
    } else {
      var i :| 0 <= i < |c.entries| && c.entries[i].length != 0 && DigestOf(c, i, []);
      SecondCommitSkipsTheDigest(c, before, i);
    }
  }

  lemma SecondCommitSkipsTheDigest(c: Setup, before: map<string, Node>, i: int)
    requires 0 <= i < |c.entries| && WellFormed(c.entries[i]) && !InTheWay(c, i, before)
    requires c.entries[i].length != 0 && HasOther(c, before, i) && DigestOf(c, i, [])
    ensures exists calls: seq<Call>, path: string :: !AppearsChecked(c, before, calls, path)
  {
    var bytes: seq<Byte> :| Mismatched(c, i, bytes) && !StandsThere(c, before, i, bytes);
    var s0 := Idle(before);
    FeedFills(c, s0, i, [], bytes);
    assert [] + bytes == bytes;
    var feed := Feed(i, 0, bytes);
    var s1 := s0.(pending := Some(Pending(i, bytes, bytes, false)));
    var s2 := s0.(pending := Some(Pending(i, bytes, [], false)));
    var s3 := s0.(files := before[Target(c, i) := Content(bytes)], completed := {i});
    RunSplits(c, s0, feed, [Commit(i, true)]);
    RunOne(c, s1, Commit(i, true));
    assert Step(c, s1, Commit(i, true)).0 == s2;
    RunSplits(c, s0, feed + [Commit(i, true)], [Commit(i, true)]);
    RunOne(c, s2, Commit(i, true));
    assert {} + {i} == {i};
    assert Step(c, s2, Commit(i, true)).0 == s3;
    assert !AppearsChecked(c, before, feed + [Commit(i, true)] + [Commit(i, true)], Target(c, i));
  }
}
