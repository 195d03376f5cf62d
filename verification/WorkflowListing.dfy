/**
 * Listing a thread's workflow runs page by page, newest first, with a cursor that names the last run
 * of the page before.  The store may change between pages.
 */
module WorkflowListing {
  import opened Wrappers
  import opened JsonTree

  datatype Run = Run(id: string, createdAt: int, threadId: string)

  // What a cursor names.
  datatype Key = Key(createdAt: int, id: string)

  function KeyOf(run: Run): Key {
    Key(run.createdAt, run.id)
  }

  // Newest first, and among runs of one instant the ordinally greater id first.
  predicate Before(a: Key, b: Key) {
    a.createdAt > b.createdAt || (a.createdAt == b.createdAt && a.id != b.id && KeyLe(b.id, a.id))
  }

  lemma BeforeIsStrict(a: Key, b: Key, c: Key)
    ensures !Before(a, a)
    ensures Before(a, b) && Before(b, c) ==> Before(a, c)
    ensures a == b || Before(a, b) || Before(b, a)
    ensures !(Before(a, b) && Before(b, a))
  {
    KeyLeTotal(a.id, b.id);
    if KeyLe(a.id, b.id) && KeyLe(b.id, a.id) {
      KeyLeAntisymmetric(a.id, b.id);
    }
    if KeyLe(b.id, a.id) && KeyLe(c.id, b.id) {
      KeyLeTransitive(c.id, b.id, a.id);
      if a.id == c.id {
        KeyLeAntisymmetric(a.id, b.id);
      }
    }
  }

  // ---------------------------------------------------------------- cursors

  // Printing and parsing of instants, and the armour around the text.
  datatype Codec = Codec(text: int -> string, parse: string -> Option<int>, pack: string -> string,
                         unpack: string -> Option<string>)

  ghost predicate Faithful(codec: Codec) {
    && (forall t :: codec.parse(codec.text(t)) == Some(t) && '\n' !in codec.text(t))
    && (forall s :: codec.unpack(codec.pack(s)) == Some(s) && (s != "" ==> !Blank(codec.pack(s))))
  }

  function Encode(codec: Codec, key: Key): string {
    codec.pack(codec.text(key.createdAt) + "\n" + key.id)
  }

  // Where the first line ends.
  function LineLength(s: string): (n: nat)
    ensures n <= |s| && '\n' !in s[..n] && (n < |s| ==> s[n] == '\n')
  {
    if s == "" || s[0] == '\n' then 0
    else
      var n := LineLength(s[1..]);
      assert s[..n + 1] == [s[0]] + s[1..][..n];
      n + 1
  }

  // No cursor, or one that cannot be read, starts from the top.
  function Decode(codec: Codec, cursor: string): Option<Key> {
    if Blank(cursor) then None
    else match codec.unpack(cursor)
      case None => None
      case Some(text) =>
        var n := LineLength(text);
        if n == |text| then None
        else match codec.parse(text[..n])
          case None => None
          case Some(at) => Some(Key(at, text[n + 1..]))
  }

  lemma {:induction false} LineLengthOf(line: string, rest: string)
    requires '\n' !in line
    ensures LineLength(line + "\n" + rest) == |line|
    decreases |line|
  {
    if line != "" {
      assert line[0] in line;
      LineLengthOf(line[1..], rest);
      assert (line + "\n" + rest)[1..] == line[1..] + "\n" + rest;
    }
  }

  // A cursor names the run it was made from, whatever its id holds, line feeds included.
  lemma CursorRoundTrip(codec: Codec, key: Key)
    requires Faithful(codec)
    ensures Decode(codec, Encode(codec, key)) == Some(key)
  {
    var line := codec.text(key.createdAt);
    var text := line + "\n" + key.id;
    LineLengthOf(line, key.id);
    assert text[..|line|] == line && text[|line| + 1..] == key.id;
  }

  // ---------------------------------------------------------------- one page

  predicate DistinctIds(runs: seq<Run>) {
    forall i, j :: 0 <= i < j < |runs| ==> runs[i].id != runs[j].id
  }

  predicate Ordered(runs: seq<Run>) {
    forall i, j :: 0 <= i < j < |runs| ==> Before(KeyOf(runs[i]), KeyOf(runs[j]))
  }

  function Insert(run: Run, runs: seq<Run>): seq<Run> {
    if runs == [] || Before(KeyOf(run), KeyOf(runs[0])) then [run] + runs else [runs[0]] + Insert(run, runs[1..])
  }

  function Sort(runs: seq<Run>): seq<Run> {
    if runs == [] then [] else Insert(runs[0], Sort(runs[1..]))
  }

  predicate Wanted(run: Run, threadId: string, after: Option<Key>) {
    run.threadId == threadId && (after.Some? ==> Before(after.value, KeyOf(run)))
  }

  function Filter(runs: seq<Run>, threadId: string, after: Option<Key>): (r: seq<Run>)
    ensures forall run :: run in r <==> run in runs && Wanted(run, threadId, after)
  {
    if runs == [] then []
    else
      var rest := Filter(runs[1..], threadId, after);
      assert runs == [runs[0]] + runs[1..];
      if Wanted(runs[0], threadId, after) then [runs[0]] + rest else rest
  }

  lemma {:induction false} FilterKeepsDistinct(runs: seq<Run>, threadId: string, after: Option<Key>)
    requires DistinctIds(runs)
    ensures DistinctIds(Filter(runs, threadId, after))
  {
    if runs != [] {
      var rest := Filter(runs[1..], threadId, after);
      FilterKeepsDistinct(runs[1..], threadId, after);
      forall i | 0 <= i < |rest|
        ensures rest[i].id != runs[0].id
      {
        assert rest[i] in runs[1..];
        var k :| 0 <= k < |runs[1..]| && runs[1..][k] == rest[i];
        assert runs[k + 1] == rest[i];
      }
    }
  }

  function Take(runs: seq<Run>, limit: int): seq<Run> {
    if limit <= 0 then [] else if limit < |runs| then runs[..limit] else runs
  }

  function Page(store: seq<Run>, threadId: string, after: Option<Key>, limit: int): seq<Run> {
    Take(Sort(Filter(store, threadId, after)), limit)
  }

  lemma {:induction false} InsertKeepsOrder(run: Run, runs: seq<Run>)
    requires Ordered(runs) && forall i :: 0 <= i < |runs| ==> runs[i].id != run.id
    ensures Ordered(Insert(run, runs))
    ensures forall r :: r in Insert(run, runs) <==> r == run || r in runs
    ensures |Insert(run, runs)| == |runs| + 1
  {
    if runs != [] {
      var head, tail := runs[0], runs[1..];
      BeforeIsStrict(KeyOf(run), KeyOf(head), KeyOf(head));
      assert Ordered(tail);
      if Before(KeyOf(run), KeyOf(head)) {
        forall j | 0 < j < |runs|
          ensures Before(KeyOf(run), KeyOf(runs[j]))
        {
          BeforeIsStrict(KeyOf(run), KeyOf(head), KeyOf(runs[j]));
        }
      } else {
        InsertKeepsOrder(run, tail);
        var rest := Insert(run, tail);
        forall j | 0 <= j < |rest|
          ensures Before(KeyOf(head), KeyOf(rest[j]))
        {
          assert rest[j] in rest;
          if rest[j] != run {
            var k :| 0 <= k < |tail| && tail[k] == rest[j];
            assert runs[k + 1] == tail[k];
          }
        }
      }
      assert runs == [head] + tail;
    }
  }

  lemma {:induction false} SortOrders(runs: seq<Run>)
    requires DistinctIds(runs)
    ensures Ordered(Sort(runs)) && |Sort(runs)| == |runs|
    ensures forall r :: r in Sort(runs) <==> r in runs
  {
    if runs != [] {
      var tail := runs[1..];
      SortOrders(tail);
      forall i | 0 <= i < |Sort(tail)|
        ensures Sort(tail)[i].id != runs[0].id
      {
        assert Sort(tail)[i] in tail;
        var k :| 0 <= k < |tail| && tail[k] == Sort(tail)[i];
        assert runs[k + 1] == tail[k];
      }
      InsertKeepsOrder(runs[0], Sort(tail));
      assert runs == [runs[0]] + tail;
    }
  }

  // A run that a page leaves out stands behind a full page.
  lemma LeftOut(sorted: seq<Run>, limit: int, run: Run)
    requires Ordered(sorted) && limit > 0 && run in sorted && run !in Take(sorted, limit)
    ensures |Take(sorted, limit)| == limit && Before(KeyOf(Take(sorted, limit)[limit - 1]), KeyOf(run))
  {
    var page := Take(sorted, limit);
    forall i | 0 <= i < |page|
      ensures sorted[i] != run
    {
      assert page[i] in page && page[i] == sorted[i];
    }
    var i :| 0 <= i < |sorted| && sorted[i] == run;
    assert limit <= i;
  }

  // A page is in order, lies behind its cursor, and either holds every run behind the cursor or is
  // full and its last run comes before every run it leaves out.
  lemma PageIsNextStretch(store: seq<Run>, threadId: string, after: Option<Key>, limit: int)
    requires DistinctIds(store) && limit > 0
    ensures var page := Page(store, threadId, after, limit);
            && Ordered(page) && |page| <= limit
            && (forall run :: run in page ==> run in store && Wanted(run, threadId, after))
            && (forall run :: run in store && Wanted(run, threadId, after) && run !in page ==>
                  |page| == limit && Before(KeyOf(page[limit - 1]), KeyOf(run)))
  {
    var all := Filter(store, threadId, after);
    FilterKeepsDistinct(store, threadId, after);
    SortOrders(all);
    var sorted, page := Sort(all), Page(store, threadId, after, limit);
    forall run | run in page
      ensures run in sorted
    {
      var i :| 0 <= i < |page| && page[i] == run;
      assert sorted[i] == run;
    }
    forall run | run in store && Wanted(run, threadId, after) && run !in page
      ensures |page| == limit && Before(KeyOf(page[limit - 1]), KeyOf(run))
    {
      LeftOut(sorted, limit, run);
    }
  }

  function BehindCursor(runs: seq<Run>, after: Key): (r: seq<Run>)
    ensures forall run :: run in r <==> run in runs && Before(after, KeyOf(run))
  {
    if runs == [] then []
    else
      var rest := BehindCursor(runs[1..], after);
      assert runs == [runs[0]] + runs[1..];
      if Before(after, KeyOf(runs[0])) then [runs[0]] + rest else rest
  }

  lemma {:induction false} BehindCursorKeepsDistinct(runs: seq<Run>, after: Key)
    requires DistinctIds(runs)
    ensures DistinctIds(BehindCursor(runs, after))
  {
    if runs != [] {
      var rest := BehindCursor(runs[1..], after);
      BehindCursorKeepsDistinct(runs[1..], after);
      forall i | 0 <= i < |rest|
        ensures rest[i].id != runs[0].id
      {
        assert rest[i] in runs[1..];
        var k :| 0 <= k < |runs[1..]| && runs[1..][k] == rest[i];
        assert runs[k + 1] == rest[i];
      }
    }
  }

  lemma EmptyTogether(a: seq<Run>, b: seq<Run>)
    requires forall run :: run in a <==> run in b
    ensures a == [] <==> b == []
  {
    if a != [] {
      assert a[0] in b;
    }
    if b != [] {
      assert b[0] in a;
    }
  }

  // A collection of runs has one order.
  lemma {:induction false} OrderIsUnique(a: seq<Run>, b: seq<Run>)
    requires Ordered(a) && Ordered(b) && forall run :: run in a <==> run in b
    ensures a == b
    decreases |a|
  {
    EmptyTogether(a, b);
    if a != [] {
      assert a[0] in a && b[0] in b;
      var i :| 0 <= i < |a| && a[i] == b[0];
      var j :| 0 <= j < |b| && b[j] == a[0];
      BeforeIsStrict(KeyOf(a[0]), KeyOf(b[0]), KeyOf(a[0]));
      assert i == 0;
      TailsAgree(a, b);
      OrderIsUnique(a[1..], b[1..]);
      assert a == [a[0]] + a[1..] && b == [b[0]] + b[1..];
    }
  }

  lemma TailsAgree(a: seq<Run>, b: seq<Run>)
    requires Ordered(a) && Ordered(b) && a != [] && b != [] && a[0] == b[0] && forall run :: run in a <==> run in b
    ensures forall run :: run in a[1..] <==> run in b[1..]
  {
    forall run
      ensures run in a[1..] ==> run in b[1..]
      ensures run in b[1..] ==> run in a[1..]
    {
      BeforeIsStrict(KeyOf(a[0]), KeyOf(a[0]), KeyOf(a[0]));
      assert a == [a[0]] + a[1..] && b == [b[0]] + b[1..];
      assert run in a[1..] ==> run in a && run != a[0];
      assert run in b[1..] ==> run in b && run != b[0];
    }
  }

  lemma OrderedIsDistinct(runs: seq<Run>)
    requires Ordered(runs)
    requires forall i, j :: 0 <= i < |runs| && 0 <= j < |runs| && runs[i].id == runs[j].id ==> runs[i] == runs[j]
    ensures DistinctIds(runs)
  {
    forall i, j | 0 <= i < j < |runs|
      ensures runs[i].id != runs[j].id
    {
      BeforeIsStrict(KeyOf(runs[i]), KeyOf(runs[j]), KeyOf(runs[j]));
    }
  }

  // Ordering, cutting off at the cursor and ordering again is ordering what lies behind the cursor.
  lemma OrderingTwiceIsOrderingOnce(store: seq<Run>, threadId: string, after: Key)
    requires DistinctIds(store)
    ensures Sort(BehindCursor(Sort(Filter(store, threadId, None)), after)) == Sort(Filter(store, threadId, Some(after)))
  {
    FilterKeepsDistinct(store, threadId, None);
    FilterKeepsDistinct(store, threadId, Some(after));
    var all, wanted := Filter(store, threadId, None), Filter(store, threadId, Some(after));
    SortOrders(all);
    SortOrders(wanted);
    var sorted := Sort(all);
    forall i, j | 0 <= i < |sorted| && 0 <= j < |sorted| && sorted[i].id == sorted[j].id
      ensures sorted[i] == sorted[j]
    {
      assert sorted[i] in all && sorted[j] in all;
    }
    OrderedIsDistinct(sorted);
    BehindCursorKeepsDistinct(sorted, after);
    SortOrders(BehindCursor(sorted, after));
    OrderIsUnique(Sort(BehindCursor(sorted, after)), Sort(wanted));
  }

  // The code's loop over the store and its two orderings.  Run ids name the directories they are read from.
  method ListRuns(codec: Codec, store: seq<Run>, threadId: string, limit: int, cursor: string) returns (page: seq<Run>)
    requires DistinctIds(store)
    ensures page == Page(store, threadId, Decode(codec, cursor), limit)
  {
    var after := Decode(codec, cursor);
    var states: seq<Run> := [];
    var i := |store|;
    assert store[i..] == [];
    while i > 0
      invariant 0 <= i <= |store|
      invariant states == Filter(store[i..], threadId, None)
    {
      i := i - 1;
      assert store[i..][1..] == store[i + 1..] && store[i..][0] == store[i];
      if store[i].threadId == threadId {
        states := [store[i]] + states;
      }
    }
    assert store[0..] == store;
    var ordered := Sort(states);
    if after.Some? {
      OrderingTwiceIsOrderingOnce(store, threadId, after.value);
      ordered := Sort(BehindCursor(ordered, after.value));
    }
    page := Take(ordered, limit);
  }

  // ---------------------------------------------------------------- all pages

  // The cursor a caller sends after a page.
  function Advanced(after: Option<Key>, page: seq<Run>): Option<Key> {
    if page == [] then after else Some(KeyOf(page[|page| - 1]))
  }

  // The runs listed by one page for each state of the store.
  function Listing(stores: seq<seq<Run>>, threadId: string, after: Option<Key>, limit: int): seq<Run> {
    if stores == [] then []
    else
      var page := Page(stores[0], threadId, after, limit);
      page + Listing(stores[1..], threadId, Advanced(after, page), limit)
  }

  // Some page came back short, which tells the caller that it was the last.
  predicate Ended(stores: seq<seq<Run>>, threadId: string, after: Option<Key>, limit: int) {
    stores != [] &&
    var page := Page(stores[0], threadId, after, limit);
    |page| < limit || Ended(stores[1..], threadId, Advanced(after, page), limit)
  }

  predicate AllDistinct(stores: seq<seq<Run>>) {
    forall k :: 0 <= k < |stores| ==> DistinctIds(stores[k])
  }

  lemma AllDistinctTail(stores: seq<seq<Run>>)
    requires AllDistinct(stores) && stores != []
    ensures AllDistinct(stores[1..]) && DistinctIds(stores[0])
  {
    forall k | 0 <= k < |stores[1..]|
      ensures DistinctIds(stores[1..][k])
    {
      assert stores[1..][k] == stores[k + 1];
    }
  }

  lemma {:induction false} ListingIsBehind(stores: seq<seq<Run>>, threadId: string, after: Option<Key>, limit: int)
    requires AllDistinct(stores) && limit > 0
    ensures Ordered(Listing(stores, threadId, after, limit))
    ensures forall run :: run in Listing(stores, threadId, after, limit) ==> Wanted(run, threadId, after)
    decreases |stores|
  {
    if stores != [] {
      AllDistinctTail(stores);
      var page := Page(stores[0], threadId, after, limit);
      var next := Advanced(after, page);
      PageIsNextStretch(stores[0], threadId, after, limit);
      var rest := Listing(stores[1..], threadId, next, limit);
      ListingIsBehind(stores[1..], threadId, next, limit);
      forall run | run in rest
        ensures Wanted(run, threadId, after)
      {
        NextCursorIsLater(after, page, threadId, run);
      }
      JoinOrdered(page, rest, after, threadId);
    }
  }

  lemma NextCursorIsLater(after: Option<Key>, page: seq<Run>, threadId: string, run: Run)
    requires forall r :: r in page ==> Wanted(r, threadId, after)
    requires Wanted(run, threadId, Advanced(after, page))
    ensures Wanted(run, threadId, after)
  {
    if page != [] && after.Some? {
      assert page[|page| - 1] in page;
      BeforeIsStrict(after.value, KeyOf(page[|page| - 1]), KeyOf(run));
    }
  }

  lemma JoinOrdered(page: seq<Run>, rest: seq<Run>, after: Option<Key>, threadId: string)
    requires Ordered(page) && Ordered(rest)
    requires forall run :: run in rest ==> Wanted(run, threadId, Advanced(after, page))
    ensures Ordered(page + rest)
  {
    var all := page + rest;
    forall i, j | 0 <= i < j < |all|
      ensures Before(KeyOf(all[i]), KeyOf(all[j]))
    {
      if i < |page| <= j {
        assert all[j] in rest;
        BeforeIsStrict(KeyOf(page[i]), KeyOf(page[|page| - 1]), KeyOf(all[j]));
      }
    }
  }

  // However the store changes between pages, the listing goes strictly downwards, so no run is listed
  // twice.
  lemma NoRunIsListedTwice(stores: seq<seq<Run>>, threadId: string, limit: int, i: nat, j: nat)
    requires AllDistinct(stores) && limit > 0
    requires i < j < |Listing(stores, threadId, None, limit)|
    ensures var listing := Listing(stores, threadId, None, limit);
            listing[i] != listing[j] && Before(KeyOf(listing[i]), KeyOf(listing[j]))
            && listing[i].threadId == listing[j].threadId == threadId
  {
    ListingIsBehind(stores, threadId, None, limit);
    var listing := Listing(stores, threadId, None, limit);
    BeforeIsStrict(KeyOf(listing[i]), KeyOf(listing[j]), KeyOf(listing[j]));
    assert listing[i] in listing && listing[j] in listing;
  }

  // And a run that is there all the while is listed by the time a page comes back short.
  lemma {:induction false} NoRunIsMissed(stores: seq<seq<Run>>, threadId: string, after: Option<Key>, limit: int,
                                         run: Run)
    requires AllDistinct(stores) && limit > 0 && Ended(stores, threadId, after, limit)
    requires Wanted(run, threadId, after) && forall k :: 0 <= k < |stores| ==> run in stores[k]
    ensures run in Listing(stores, threadId, after, limit)
    decreases |stores|
  {
    AllDistinctTail(stores);
    var page := Page(stores[0], threadId, after, limit);
    PageIsNextStretch(stores[0], threadId, after, limit);
    if run !in page {
      assert forall k :: 0 <= k < |stores[1..]| ==> stores[1..][k] == stores[k + 1];
      NoRunIsMissed(stores[1..], threadId, Advanced(after, page), limit, run);
    }
  }

  // A later cursor leaves fewer runs to list.
  lemma {:induction false} FilterShrinks(runs: seq<Run>, threadId: string, after: Option<Key>, next: Option<Key>,
                                         gone: Run)
    requires forall run :: Wanted(run, threadId, next) ==> Wanted(run, threadId, after)
    requires Wanted(gone, threadId, after) && !Wanted(gone, threadId, next)
    ensures |Filter(runs, threadId, next)| <= |Filter(runs, threadId, after)|
    ensures gone in runs ==> |Filter(runs, threadId, next)| < |Filter(runs, threadId, after)|
  {
    if runs != [] {
      FilterShrinks(runs[1..], threadId, after, next, gone);
      assert runs == [runs[0]] + runs[1..];
    }
  }

  // On a store that does not change a short page comes within one page more than there are runs.
  lemma {:induction false} PagesEnd(store: seq<Run>, threadId: string, after: Option<Key>, limit: int, n: nat)
    requires DistinctIds(store) && limit > 0 && |Filter(store, threadId, after)| < n
    ensures Ended(Repeated(store, n), threadId, after, limit)
    decreases n
  {
    var page := Page(store, threadId, after, limit);
    var next := Advanced(after, page);
    PageIsNextStretch(store, threadId, after, limit);
    if |page| == limit {
      var last := page[limit - 1];
      assert last in page;
      BeforeIsStrict(KeyOf(last), KeyOf(last), KeyOf(last));
      forall run | Wanted(run, threadId, next)
        ensures Wanted(run, threadId, after)
      {
        NextCursorIsLater(after, page, threadId, run);
      }
      FilterShrinks(store, threadId, after, next, last);
      PagesEnd(store, threadId, next, limit, n - 1);
      assert Repeated(store, n)[1..] == Repeated(store, n - 1);
    }
  }

  lemma {:induction false} FilterIsNoLonger(runs: seq<Run>, threadId: string, after: Option<Key>)
    ensures |Filter(runs, threadId, after)| <= |runs|
  {
    if runs != [] {
      FilterIsNoLonger(runs[1..], threadId, after);
    }
  }

  // On a store that does not change, the pages are exactly the thread's runs: one page more than there
  // are runs is enough to see them all.
  lemma PagesPartitionTheRuns(store: seq<Run>, threadId: string, limit: int, n: nat, run: Run)
    requires DistinctIds(store) && limit > 0 && n > |store|
    ensures Ended(Repeated(store, n), threadId, None, limit)
    ensures run in Listing(Repeated(store, n), threadId, None, limit) <==> run in store && run.threadId == threadId
    ensures Ordered(Listing(Repeated(store, n), threadId, None, limit))
  {
    var stores := Repeated(store, n);
    FilterIsNoLonger(store, threadId, None);
    PagesEnd(store, threadId, None, limit, n);
    ListingIsBehind(stores, threadId, None, limit);
    ListedRunsExist(stores, threadId, None, limit);
    if run in store && run.threadId == threadId {
      NoRunIsMissed(stores, threadId, None, limit, run);
    }
    if run in Listing(stores, threadId, None, limit) {
      var k :| 0 <= k < |stores| && run in stores[k];
    }
  }

  function Repeated(store: seq<Run>, n: nat): (r: seq<seq<Run>>)
    ensures |r| == n && forall k :: 0 <= k < n ==> r[k] == store
  {
    seq(n, _ => store)
  }

  lemma {:induction false} ListedRunsExist(stores: seq<seq<Run>>, threadId: string, after: Option<Key>, limit: int)
    requires AllDistinct(stores) && limit > 0
    ensures forall run :: run in Listing(stores, threadId, after, limit) ==>
              exists k :: 0 <= k < |stores| && run in stores[k]
    decreases |stores|
  {
    if stores != [] {
      AllDistinctTail(stores);
      var page := Page(stores[0], threadId, after, limit);
      PageIsNextStretch(stores[0], threadId, after, limit);
      ListedRunsExist(stores[1..], threadId, Advanced(after, page), limit);
      var rest := Listing(stores[1..], threadId, Advanced(after, page), limit);
      assert Listing(stores, threadId, after, limit) == page + rest;
      forall run | run in Listing(stores, threadId, after, limit)
        ensures exists k :: 0 <= k < |stores| && run in stores[k]
      {
        if run in page {
          assert run in stores[0];
        } else {
          assert run in rest;
          var k :| 0 <= k < |stores[1..]| && run in stores[1..][k];
          assert run in stores[k + 1];
        }
      }
    }
  }
}
