/**
 * The receiver as an object and the loop that moves a whole manifest through it, chunk by chunk.
 */
module FileTransferLoop {
  import opened Wrappers
  import opened FileTransfer

  class Receiver {
    const c: Setup
    var pending: Option<Pending>
    var completed: set<int>
    var files: map<string, Node>
    var stopped: bool

    constructor (c: Setup, files: map<string, Node>)
      ensures this.c == c && Now() == Idle(files)
    {
      this.c := c;
      pending, completed, stopped := None, {}, false;
      this.files := files;
    }

    ghost function Now(): State
      reads this
    {
      State(pending, completed, files, stopped)
    }

    method Write(index: int, offset: int, bytes: seq<Byte>) returns (ok: bool)
      modifies `pending
      ensures (Now(), ok) == Step(c, old(Now()), Call.Write(index, offset, bytes))
    {
      if stopped || index < 0 || index >= |c.entries| {
        return false;
      }
      if c.entries[index].isDirectory || index in completed || |bytes| > CHUNK_BYTES {
        return false;
      }
      if pending.None? {
        if offset != 0 {
          return false;
        }
        pending := Some(Pending(index, [], [], false));
      }
      var p := pending.value;
      if p.index != index || p.closed || offset != |p.bytes| || |bytes| > c.entries[index].length - offset {
        return false;
      }
      pending := Some(p.(bytes := p.bytes + bytes, hashed := p.hashed + bytes));
      ok := true;
    }

    method Commit(index: int, permitted: bool) returns (ok: bool)
      modifies `pending, `completed, `files
      ensures (Now(), ok) == Step(c, old(Now()), Call.Commit(index, permitted))
    {
      if stopped || index < 0 || index >= |c.entries| || index in completed {
        return false;
      }
      var entry := c.entries[index];
      var destination := c.resolve(entry.path);
      if entry.isDirectory {
        if !permitted || (destination in files && files[destination].Content?) {
          return false;
        }
        files := files[destination := Directory];
      } else {
        if pending.None? || pending.value.index != index || pending.value.closed
           || |pending.value.bytes| != entry.length {
          return false;
        }
        var hash := c.digest(pending.value.hashed);
        pending := Some(pending.value.(hashed := []));
        if entry.sha256.None? || hash != Upper(entry.sha256.value) {
          return false;
        }
        if !permitted || (destination in files && (files[destination].Directory? || !c.overwrite)) {
          pending := Some(pending.value.(closed := true));
          return false;
        }
        files := files[destination := Content(pending.value.bytes)];
        pending := None;
      }
      completed := completed + {index};
      ok := true;
    }

    method Dispose()
      modifies `pending, `stopped
      ensures Now() == Step(c, old(Now()), Call.Dispose).0
    {
      stopped := true;
      pending := None;
    }
  }

  // ---------------------------------------------------------------- reading

  // What the sending side answers for one chunk of a file it described.
  function ReadBlock(entry: Entry, file: seq<Byte>, offset: int): (r: Option<seq<Byte>>)
    ensures r.Some? ==> |r.value| <= CHUNK_BYTES && 0 <= offset && offset + |r.value| <= entry.length
    ensures r.Some? && offset < entry.length ==> r.value != []
  {
    if entry.isDirectory || offset < 0 || offset > entry.length || |file| != entry.length then None
    else
      var count := if CHUNK_BYTES < entry.length - offset then CHUNK_BYTES else entry.length - offset;
      Some(file[offset..offset + count])
  }

  // The blocks offered are those of the described contents.
  ghost predicate Faithful(c: Setup, read: (int, int) -> Option<seq<Byte>>, contents: seq<seq<Byte>>) {
    |contents| == |c.entries|
    && forall i, offset :: 0 <= i < |c.entries| && !c.entries[i].isDirectory && 0 <= offset <= c.entries[i].length ==>
         read(i, offset) == ReadBlock(c.entries[i], contents[i], offset)
  }

  ghost predicate Honest(c: Setup, read: (int, int) -> Option<seq<Byte>>, contents: seq<seq<Byte>>) {
    Describes(c, contents) && Faithful(c, read, contents)
  }

  // ---------------------------------------------------------------- one file

  method SendFile(receiver: Receiver, index: int, read: (int, int) -> Option<seq<Byte>>, ghost contents: seq<seq<Byte>>)
    returns (ok: bool, sent: int)
    requires 0 <= index < |receiver.c.entries| && !receiver.c.entries[index].isDirectory
    requires receiver.c.entries[index].length >= 0
    requires receiver.pending.None? && !receiver.stopped && index !in receiver.completed
    modifies receiver`pending
    ensures 0 <= sent && (ok ==> sent == receiver.c.entries[index].length)
    ensures ok ==> receiver.pending.Some? && var p := receiver.pending.value;
                   p == Pending(index, p.bytes, p.bytes, false) && |p.bytes| == sent
                   && (Honest(receiver.c, read, contents) ==> p.bytes == contents[index])
    ensures Honest(receiver.c, read, contents) ==> ok
  {
    var entry := receiver.c.entries[index];
    var offset := 0;
    var more := true;
    ghost var moved: seq<Byte> := [];
    while more
      invariant 0 <= offset <= entry.length && offset == |moved|
      invariant more ==> Ready(receiver.Now(), index, moved)
      invariant !more ==> offset == entry.length && receiver.pending == Some(Pending(index, moved, moved, false))
      invariant Honest(receiver.c, read, contents) ==> moved == contents[index][..offset]
      decreases entry.length - offset, more
    {
      var answer := read(index, offset);
      if answer.None? {
        return false, offset;
      }
      var block := answer.value;
      if |block| == 0 && offset < entry.length {
        return false, offset;
      }
      ghost var before := receiver.Now();
      var written := receiver.Write(index, offset, block);
      if !written {
        return false, offset;
      }
      assert [] + block == block;
      moved := moved + block;
      offset := offset + |block|;
      more := offset < entry.length;
    }
    return true, offset;
  }

  // ---------------------------------------------------------------- a whole manifest

  predicate Stored(c: Setup, files: map<string, Node>, n: int)
    requires 0 <= n <= |c.entries|
  {
    forall i :: 0 <= i < n ==> Target(c, i) in files && Checked(c, i, files[Target(c, i)])
  }

  ghost predicate OthersKept(c: Setup, before: map<string, Node>, files: map<string, Node>, n: int)
    requires 0 <= n <= |c.entries|
  {
    forall path :: (forall i :: 0 <= i < n ==> Target(c, i) != path) ==> Same(before, files, path)
  }

  predicate Same(before: map<string, Node>, files: map<string, Node>, path: string) {
    (path in files <==> path in before) && (path in before ==> files[path] == before[path])
  }

  // One committed entry, for what is stored and for what is left alone.
  lemma CommitStores(c: Setup, before: map<string, Node>, files: map<string, Node>, n: int, node: Node)
    requires 0 <= n < |c.entries| && DistinctTargets(c, |c.entries|)
    requires Stored(c, files, n) && OthersKept(c, before, files, n) && Checked(c, n, node)
    ensures Stored(c, files[Target(c, n) := node], n + 1)
    ensures OthersKept(c, before, files[Target(c, n) := node], n + 1)
  {
    var next := files[Target(c, n) := node];
    forall i | 0 <= i < n + 1
      ensures Target(c, i) in next && Checked(c, i, next[Target(c, i)])
    {
    }
    forall path | forall i :: 0 <= i < n + 1 ==> Target(c, i) != path
      ensures Same(before, next, path)
    {
      assert Target(c, n) != path;
      assert forall i :: 0 <= i < n ==> Target(c, i) != path;
      assert Same(before, files, path);
    }
  }

  // The next entry's place is as free as it was before the transfer began.
  lemma StillFree(c: Setup, before: map<string, Node>, files: map<string, Node>, n: int)
    requires 0 <= n < |c.entries| && FirstEntries(c, before, |c.entries|) && OthersKept(c, before, files, n)
    ensures !InTheWay(c, n, files)
  {
    assert Same(before, files, Target(c, n));
  }

  // What becomes of the request to commit an entry: it is answered, or it or its answer is lost.  A lost
  // one leaves the sender without knowing whether the entry was committed.
  datatype Fate = Answered | LostBefore | LostAfter

  // One entry: a file's chunks, then the commit.
  method SendEntry(receiver: Receiver, index: int, read: (int, int) -> Option<seq<Byte>>, permitted: bool, fate: Fate,
                   ghost contents: seq<seq<Byte>>)
    returns (ok: bool, unknown: bool, sent: int, ghost stored: bool, ghost node: Node)
    requires 0 <= index < |receiver.c.entries| && WellFormed(receiver.c.entries[index])
    requires receiver.pending.None? && !receiver.stopped && receiver.completed == Upto(index)
    modifies receiver`pending, receiver`files, receiver`completed
    ensures stored ==> receiver.pending.None? && receiver.completed == Upto(index + 1)
                       && receiver.files == old(receiver.files)[Target(receiver.c, index) := node]
                       && Checked(receiver.c, index, node) && sent == receiver.c.entries[index].length
    ensures !stored ==> receiver.files == old(receiver.files) && receiver.completed == old(receiver.completed)
    ensures (ok ==> stored && !unknown) && (unknown ==> !ok && fate != Answered) && (stored ==> ok || unknown)
    ensures sent >= 0
    ensures Honest(receiver.c, read, contents) && permitted && fate == Answered
            && !InTheWay(receiver.c, index, old(receiver.files)) ==>
              ok && node == NodeOf(receiver.c, contents, index)
  {
    var entry := receiver.c.entries[index];
    ok, unknown, sent, stored, node := true, false, 0, false, Directory;
    if !entry.isDirectory {
      ok, sent := SendFile(receiver, index, read, contents);
      if !ok {
        return;
      }
      node := Content(receiver.pending.value.bytes);
    }
    unknown := fate != Answered;
    if fate == LostBefore {
      ok := false;
      return;
    }
    var committed := receiver.Commit(index, permitted);
    stored := committed;
    ok := committed && fate == Answered;
  }

  // The counters say what the first `n` entries come to.
  predicate Counted(c: Setup, n: int, completed: int, bytes: int)
    requires 0 <= n <= |c.entries|
  {
    completed == FileCount(c.entries[..n]) && bytes == FileBytes(c.entries[..n])
  }

  // The first `n` entries are in place, and nothing else moved.
  ghost predicate InPlace(c: Setup, before: map<string, Node>, files: map<string, Node>, n: int)
    requires 0 <= n <= |c.entries|
  {
    Stored(c, files, n) && OthersKept(c, before, files, n)
  }

  lemma NoProgress(c: Setup, before: map<string, Node>)
    ensures Counted(c, 0, 0, 0) && InPlace(c, before, before, 0)
  {
    assert c.entries[..0] == [];
    forall path
      ensures Same(before, before, path)
    {
    }
  }

  lemma OneMoreCounted(c: Setup, n: int, completed: int, bytes: int)
    requires 0 <= n < |c.entries| && Counted(c, n, completed, bytes)
    ensures var entry := c.entries[n];
            Counted(c, n + 1, if entry.isDirectory then completed else completed + 1,
                    if entry.isDirectory then bytes else bytes + entry.length)
  {
    assert c.entries[..n + 1][..n] == c.entries[..n];
  }

  // One turn of the loop: the entry, and the counters that go with it.
  method Advance(receiver: Receiver, index: int, read: (int, int) -> Option<seq<Byte>>, permitted: bool, fate: Fate,
                 completed: int, bytes: int, transferred: int, ghost before: map<string, Node>,
                 ghost contents: seq<seq<Byte>>)
    returns (ok: bool, unknown: bool, completed': int, bytes': int, transferred': int, ghost stored: bool)
    requires 0 <= index < |receiver.c.entries| && FirstEntries(receiver.c, before, |receiver.c.entries|)
    requires receiver.Now() == State(None, Upto(index), receiver.files, false)
    requires Counted(receiver.c, index, completed, bytes) && bytes == transferred
    requires InPlace(receiver.c, before, receiver.files, index)
    modifies receiver`pending, receiver`files, receiver`completed
    ensures (ok ==> stored && !unknown) && (unknown ==> !ok && fate != Answered) && (stored ==> ok || unknown)
    ensures stored ==> receiver.Now() == State(None, Upto(index + 1), receiver.files, false)
                       && InPlace(receiver.c, before, receiver.files, index + 1)
    ensures !stored ==> receiver.completed == Upto(index) && InPlace(receiver.c, before, receiver.files, index)
    ensures ok ==> Counted(receiver.c, index + 1, completed', bytes') && bytes' == transferred'
    ensures !ok ==> Counted(receiver.c, index, completed', bytes') && bytes' <= transferred'
    ensures Honest(receiver.c, read, contents) && permitted && fate == Answered ==>
              ok
              && receiver.files == old(receiver.files)[Target(receiver.c, index) := NodeOf(receiver.c, contents, index)]
  {
    completed', bytes', transferred' := completed, bytes, transferred;
    StillFree(receiver.c, before, receiver.files, index);
    ghost var files := receiver.files;
    var sent;
    ghost var node;
    ok, unknown, sent, stored, node := SendEntry(receiver, index, read, permitted, fate, contents);
    transferred' := transferred' + sent;
    if stored {
      CommitStores(receiver.c, before, files, index, node);
    }
    if ok {
      OneMoreCounted(receiver.c, index, completed, bytes);
      if !receiver.c.entries[index].isDirectory {
        completed' := completed' + 1;
        bytes' := bytes' + receiver.c.entries[index].length;
      }
    }
  }

  predicate Smooth(permitted: int -> bool, n: int) {
    forall i :: 0 <= i < n ==> permitted(i)
  }

  predicate AllAnswered(fate: int -> Fate, n: int) {
    forall i :: 0 <= i < n ==> fate(i) == Answered
  }

  // The entries of an accepted manifest in order.  `counted` entries are in the counters, `stored` entries
  // in place: as many, unless the fate of the last commit is unknown.
  method SendEntries(receiver: Receiver, read: (int, int) -> Option<seq<Byte>>, permitted: int -> bool,
                     fate: int -> Fate,
                     ghost contents: seq<seq<Byte>>)
    returns (ok: bool, unknown: bool, completed: int, bytes: int, transferred: int,
             ghost counted: int, ghost stored: int)
    requires receiver.Now() == Idle(receiver.files) && FirstEntries(receiver.c, receiver.files, |receiver.c.entries|)
    modifies receiver
    ensures 0 <= counted <= stored <= |receiver.c.entries| && stored <= counted + 1 && bytes <= transferred
    ensures (stored != counted ==> unknown) && (ok ==> counted == |receiver.c.entries| && bytes == transferred)
    ensures unknown ==> !ok && counted < |receiver.c.entries| && fate(counted) != Answered
    ensures receiver.completed == Upto(stored) && InPlace(receiver.c, old(receiver.files), receiver.files, stored)
    ensures Counted(receiver.c, counted, completed, bytes)
    ensures Honest(receiver.c, read, contents) && Smooth(permitted, |receiver.c.entries|)
            && AllAnswered(fate, |receiver.c.entries|) ==>
              ok && receiver.files == Placed(receiver.c, old(receiver.files), contents, |receiver.c.entries|)
  {
    var c := receiver.c;
    ghost var before := receiver.files;
    unknown, completed, bytes, transferred := false, 0, 0, 0;
    NoProgress(c, before);
    var index := 0;
    while index < |c.entries|
      invariant 0 <= index <= |c.entries| && !unknown
      invariant receiver.Now() == State(None, Upto(index), receiver.files, false)
      invariant Counted(c, index, completed, bytes) && bytes == transferred && InPlace(c, before, receiver.files, index)
      invariant Honest(c, read, contents) && Smooth(permitted, |c.entries|) && AllAnswered(fate, |c.entries|) ==>
                  receiver.files == Placed(c, before, contents, index)
    {
      ghost var one;
      ok, unknown, completed, bytes, transferred, one :=
        Advance(receiver, index, read, permitted(index), fate(index), completed, bytes, transferred, before, contents);
      if !ok {
        counted, stored := index, if one then index + 1 else index;
        return;
      }
      index := index + 1;
    }
    counted, stored := index, index;
    ok := true;
  }

  // A whole transfer: the manifest is checked, its entries are sent, and nothing pending is left.
  method Transfer(receiver: Receiver, read: (int, int) -> Option<seq<Byte>>, permitted: int -> bool, fate: int -> Fate,
                  maxBytes: int, ghost contents: seq<seq<Byte>>)
    returns (ok: bool, unknown: bool, completed: int, bytes: int, transferred: int,
             ghost counted: int, ghost stored: int)
    requires receiver.Now() == Idle(receiver.files)
    modifies receiver
    ensures 0 <= counted <= stored <= |receiver.c.entries| && stored <= counted + 1 && bytes <= transferred
    ensures stored != counted ==> unknown
    ensures unknown ==> !ok && counted < |receiver.c.entries| && fate(counted) != Answered
    ensures receiver.completed == Upto(stored) && InPlace(receiver.c, old(receiver.files), receiver.files, stored)
    ensures Counted(receiver.c, counted, completed, bytes)
    ensures ok ==> Acceptable(receiver.c, old(receiver.files), maxBytes) && counted == |receiver.c.entries|
                   && completed == FileCount(receiver.c.entries)
                   && bytes == transferred == FileBytes(receiver.c.entries)
    ensures Acceptable(receiver.c, old(receiver.files), maxBytes) && Honest(receiver.c, read, contents)
            && Smooth(permitted, |receiver.c.entries|) && AllAnswered(fate, |receiver.c.entries|) ==>
              ok && receiver.files == Placed(receiver.c, old(receiver.files), contents, |receiver.c.entries|)
    ensures receiver.pending.None?
  {
    ghost var before := receiver.files;
    unknown, completed, bytes, transferred, counted, stored := false, 0, 0, 0, 0, 0;
    NoProgress(receiver.c, before);
    ok := Prepare(receiver.c, receiver.files, maxBytes);
    if ok {
      ok, unknown, completed, bytes, transferred, counted, stored :=
        SendEntries(receiver, read, permitted, fate, contents);
      assert receiver.c.entries[..|receiver.c.entries|] == receiver.c.entries;
      receiver.Dispose();
    }
  }
}
