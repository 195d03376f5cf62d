/**
 * What observers see of the notices about one terminal: every critical section records its notices in
 * a list of its own, and publishes that list after it has released the lock.  Lists of different
 * threads can be under way at the same time.
 */
module TerminalPublishing {
  import opened Wrappers
  import opened TerminalEvents

  // `batches` holds, section by section, what is recorded and not yet published.
  datatype Outlet = Outlet(world: World, batches: seq<seq<Notice>>, published: seq<Notice>)

  datatype Move = Section(step: Step) | Publish(b: nat)

  predicate Enabled(o: Outlet, move: Move) {
    move.Publish? ==> move.b < |o.batches| && o.batches[move.b] != []
  }

  function Apply(o: Outlet, id: string, move: Move): Outlet
    requires Enabled(o, move)
  {
    match move
    case Section(step) =>
      var next := Next(o.world, id, step);
      SectionsOnlyRecord(o.world, id, step);
      Outlet(next, o.batches + [next.notices[|o.world.notices|..]], o.published)
    case Publish(b) => o.(batches := o.batches[b := o.batches[b][1..]], published := o.published + [o.batches[b][0]])
  }

  predicate Possible(o: Outlet, id: string, moves: seq<Move>)
    decreases |moves|
  {
    moves == [] || (Enabled(o, moves[0]) && Possible(Apply(o, id, moves[0]), id, moves[1..]))
  }

  function After(o: Outlet, id: string, moves: seq<Move>): Outlet
    requires Possible(o, id, moves)
    decreases |moves|
  {
    if moves == [] then o else After(Apply(o, id, moves[0]), id, moves[1..])
  }

  // The critical sections, in the order in which they had the lock.
  function Sections(moves: seq<Move>): seq<Step> {
    if moves == [] then []
    else (if moves[0].Section? then [moves[0].step] else []) + Sections(moves[1..])
  }

  function Opening(releases: map<string, nat>): Outlet {
    Outlet(World(Held([]), [], releases), [], [])
  }

  // ---------------------------------------------------------------- sections only add notices

  lemma {:induction false} ApplyAllOnlyRecords(told: Told, reports: seq<Report>)
    ensures told.notices <= ApplyAll(told, reports).notices
    decreases |reports|
  {
    if reports != [] {
      ApplyAllOnlyRecords(TerminalEvents.Apply(told, reports[0]), reports[1..]);
    }
  }

  lemma {:induction false} StartsOnlyRecord(w: World, id: string, started: seq<Snapshot>, context: Context,
                                            releases: nat, now: int)
    ensures w.notices <= StartAll(w, id, started, context, releases, now).notices
    decreases |started|
  {
    if started != [] {
      var next := if started[0].sessionId == id then Start(w, started[0], context, releases, now) else w;
      if started[0].sessionId == id && started[0].armed {
        var early := if w.place.Held? then w.place.reports else [];
        ApplyAllOnlyRecords(Told(Registered(started[0], context), w.notices), early);
      }
      StartsOnlyRecord(next, id, started[1..], context, releases, now);
    }
  }

  lemma SectionsOnlyRecord(w: World, id: string, step: Step)
    ensures w.notices <= Next(w, id, step).notices
  {
    if step.ExecReturns? {
      StartsOnlyRecord(w, id, step.started, step.context, step.releases, step.now);
    }
  }

  lemma {:induction false} WorldIsRun(o: Outlet, id: string, moves: seq<Move>)
    requires Possible(o, id, moves)
    ensures After(o, id, moves).world == Run(o.world, id, Sections(moves))
    decreases |moves|
  {
    if moves != [] {
      WorldIsRun(Apply(o, id, moves[0]), id, moves[1..]);
      if moves[0].Section? {
        assert Sections(moves)[0] == moves[0].step && Sections(moves)[1..] == Sections(moves[1..]);
      } else {
        assert Sections(moves) == Sections(moves[1..]);
      }
    }
  }

  // ---------------------------------------------------------------- nothing is lost or repeated

  function Flat(batches: seq<seq<Notice>>): seq<Notice> {
    if batches == [] then [] else batches[0] + Flat(batches[1..])
  }

  lemma {:induction false} FlatSplits(a: seq<seq<Notice>>, b: seq<seq<Notice>>)
    ensures Flat(a + b) == Flat(a) + Flat(b)
  {
    if a == [] {
      assert a + b == b;
    } else {
      FlatSplits(a[1..], b);
      assert (a + b)[0] == a[0] && (a + b)[1..] == a[1..] + b;
      Assoc(a[0], Flat(a[1..]), Flat(b));
    }
  }

  lemma FlatOne(batch: seq<Notice>)
    ensures Flat([batch]) == batch
  {
    assert [batch][1..] == [];
  }

  // The batches before, at and after one of them.
  lemma FlatAround(batches: seq<seq<Notice>>, b: nat)
    requires b < |batches|
    ensures Flat(batches) == Flat(batches[..b]) + batches[b] + Flat(batches[b + 1..])
  {
    assert batches == batches[..b] + batches[b..];
    FlatSplits(batches[..b], batches[b..]);
    assert batches[b..][0] == batches[b] && batches[b..][1..] == batches[b + 1..];
    Assoc(Flat(batches[..b]), batches[b], Flat(batches[b + 1..]));
  }

  lemma TakeFirst(before: seq<Notice>, batch: seq<Notice>, behind: seq<Notice>)
    requires batch != []
    ensures multiset(before + batch + behind) == multiset(before + batch[1..] + behind) + multiset{batch[0]}
  {
    assert batch == [batch[0]] + batch[1..];
  }

  lemma PublishTakesOne(batches: seq<seq<Notice>>, b: nat)
    requires b < |batches| && batches[b] != []
    ensures multiset(Flat(batches)) == multiset(Flat(batches[b := batches[b][1..]])) + multiset{batches[b][0]}
  {
    var fewer := batches[b := batches[b][1..]];
    FlatAround(batches, b);
    FlatAround(fewer, b);
    assert fewer[..b] == batches[..b] && fewer[b + 1..] == batches[b + 1..];
    TakeFirst(Flat(batches[..b]), batches[b], Flat(batches[b + 1..]));
  }

  // What is recorded is what is published and what is still to be published, once each.
  predicate Conserved(o: Outlet) {
    multiset(o.world.notices) == multiset(o.published) + multiset(Flat(o.batches))
  }

  lemma SectionConserves(o: Outlet, id: string, step: Step)
    requires Conserved(o)
    ensures Conserved(Apply(o, id, Section(step)))
  {
    SectionsOnlyRecord(o.world, id, step);
    var now := Next(o.world, id, step).notices;
    var batch := now[|o.world.notices|..];
    FlatSplits(o.batches, [batch]);
    FlatOne(batch);
    assert now == o.world.notices + batch;
  }

  lemma MoveConserves(o: Outlet, id: string, move: Move)
    requires Conserved(o) && Enabled(o, move)
    ensures Conserved(Apply(o, id, move))
  {
    match move
    case Section(step) => SectionConserves(o, id, step);
    case Publish(b) => PublishTakesOne(o.batches, b);
  }

  lemma {:induction false} MovesConserve(o: Outlet, id: string, moves: seq<Move>)
    requires Conserved(o) && Possible(o, id, moves)
    ensures Conserved(After(o, id, moves))
    decreases |moves|
  {
    if moves != [] {
      MoveConserves(o, id, moves[0]);
      MovesConserve(Apply(o, id, moves[0]), id, moves[1..]);
    }
  }

  // However sections and publications interleave, observers get every recorded notice at most once, and
  // exactly once when nothing is under way any more.
  lemma EveryNoticeIsPublishedOnce(releases: map<string, nat>, id: string, moves: seq<Move>)
    requires Possible(Opening(releases), id, moves)
    ensures var last := After(Opening(releases), id, moves);
            && last.world == Run(Opening(releases).world, id, Sections(moves))
            && multiset(last.published) <= multiset(last.world.notices)
            && (Flat(last.batches) == [] <==> multiset(last.published) == multiset(last.world.notices))
  {
    var last := After(Opening(releases), id, moves);
    MovesConserve(Opening(releases), id, moves);
    WorldIsRun(Opening(releases), id, moves);
    if Flat(last.batches) != [] {
      assert Flat(last.batches)[0] in multiset(Flat(last.batches));
    }
  }

  // Two interleavings of the same reports around an Exec result show observers the same notices, not
  // necessarily in the same order.
  lemma InterleavingsPublishTheSame(releases: map<string, nat>, id: string, result: Step, k: nat,
                                    before: seq<Step>, after: seq<Step>, earlier: seq<Step>, later: seq<Step>,
                                    one: seq<Move>, other: seq<Move>)
    requires result.ExecReturns? && StartsOnce(result.started, k, id) && result.started[k].armed
    requires result.releases == Releases(releases, result.context.threadId)
    requires AllElsewhere(before, id, result.context.threadId) && AllElsewhere(after, id, result.context.threadId)
    requires AllElsewhere(earlier, id, result.context.threadId) && AllElsewhere(later, id, result.context.threadId)
    requires ReportsFor(before, id) + ReportsFor(after, id) == ReportsFor(earlier, id) + ReportsFor(later, id)
    requires Possible(Opening(releases), id, one) && Sections(one) == before + [result] + after
    requires Possible(Opening(releases), id, other) && Sections(other) == earlier + [result] + later
    requires Flat(After(Opening(releases), id, one).batches) == [] == Flat(After(Opening(releases), id, other).batches)
    ensures multiset(After(Opening(releases), id, one).published)
            == multiset(After(Opening(releases), id, other).published)
  {
    EveryNoticeIsPublishedOnce(releases, id, one);
    EveryNoticeIsPublishedOnce(releases, id, other);
    InterleavingDoesNotMatter(releases, id, result, k, before, after, earlier, later);
  }

  lemma {:induction false} TwiceIn(notices: seq<Notice>, notice: Notice) returns (i: nat, j: nat)
    requires multiset(notices)[notice] >= 2
    ensures i < j < |notices| && notices[i] == notices[j] == notice
  {
    var front, last := notices[..|notices| - 1], |notices| - 1;
    assert notices == front + [notices[last]];
    if notices[last] == notice {
      assert notice in front;
      i :| 0 <= i < |front| && front[i] == notice;
      j := last;
    } else {
      i, j := TwiceIn(front, notice);
    }
  }

  lemma TwoLocals(published: seq<Notice>, recorded: seq<Notice>, i: nat, j: nat) returns (a: nat, b: nat)
    requires i < j < |published| && multiset(published) <= multiset(recorded)
    ensures a < b < |recorded|
    ensures {recorded[a], recorded[b]} == {published[i], published[j]}
    ensures published[i].local && published[j].local ==> recorded[a].local && recorded[b].local
  {
    assert published == published[..i] + [published[i]] + published[i + 1..j] + [published[j]] + published[j + 1..];
    if published[i] == published[j] {
      a, b := TwiceIn(recorded, published[i]);
    } else {
      assert published[i] in multiset(recorded) && published[j] in multiset(recorded);
      var x :| 0 <= x < |recorded| && recorded[x] == published[i];
      var y :| 0 <= y < |recorded| && recorded[y] == published[j];
      a, b := if x < y then x else y, if x < y then y else x;
    }
  }

  // A local end is published at most once.
  lemma LocalEndIsPublishedOnce(releases: map<string, nat>, id: string, moves: seq<Move>, i: nat, j: nat)
    requires Possible(Opening(releases), id, moves) && StartsIn(Sections(moves), id) <= 1
    requires i < j < |After(Opening(releases), id, moves).published|
    ensures var published := After(Opening(releases), id, moves).published; !(published[i].local && published[j].local)
  {
    EveryNoticeIsPublishedOnce(releases, id, moves);
    var last := After(Opening(releases), id, moves);
    var a, b := TwoLocals(last.published, last.world.notices, i, j);
    LocalEndIsRecordedOnce(releases, id, Sections(moves), a, b);
  }

  // ---------------------------------------------------------------- order

  // Published so far, then what is under way, is the record.
  predicate InOrder(o: Outlet) {
    o.world.notices == o.published + Flat(o.batches)
  }

  // Observers see the record in order up to here, whatever is still under way.
  predicate SeenInOrder(o: Outlet) {
    o.published <= o.world.notices
  }

  lemma {:induction false} FirstOfFlat(batches: seq<seq<Notice>>) returns (b: nat)
    requires Flat(batches) != []
    ensures b < |batches| && batches[b] != [] && Flat(batches[..b]) == [] && Flat(batches)[0] == batches[b][0]
  {
    if batches[0] != [] {
      b := 0;
    } else {
      assert Flat(batches) == Flat(batches[1..]);
      var rest := FirstOfFlat(batches[1..]);
      b := rest + 1;
      assert batches[..b] == [batches[0]] + batches[1..][..rest];
      assert batches[..b][1..] == batches[1..][..rest];
    }
  }

  // As long as everything was seen in order, the next publication can break the order if and only if two
  // sections have notices under way that differ at their heads.
  lemma OrderCanBreakIff(o: Outlet, id: string)
    requires InOrder(o)
    ensures (exists b: nat :: Enabled(o, Publish(b)) && !SeenInOrder(Apply(o, id, Publish(b))))
            <==> (exists b: nat, c: nat ::
                    b < |o.batches| && c < |o.batches| && o.batches[b] != [] && o.batches[c] != []
                    && o.batches[b][0] != o.batches[c][0])
  {
    if b: nat, c: nat :| b < |o.batches| && c < |o.batches| && o.batches[b] != [] && o.batches[c] != []
                         && o.batches[b][0] != o.batches[c][0] {
      var next := o.world.notices;
      FlatAround(o.batches, b);
      assert |Flat(o.batches)| > 0;
      var d := if o.batches[b][0] != next[|o.published|] then b else c;
      assert Enabled(o, Publish(d));
      assert Apply(o, id, Publish(d)).published[|o.published|] != next[|o.published|];
      assert !SeenInOrder(Apply(o, id, Publish(d)));
    }
    if b: nat :| Enabled(o, Publish(b)) && !SeenInOrder(Apply(o, id, Publish(b))) {
      FlatAround(o.batches, b);
      var first := FirstOfFlat(o.batches);
      assert o.world.notices[|o.published|] == o.batches[first][0];
      assert o.batches[b][0] != o.batches[first][0];
    }
  }

  // Two sections have notices under way that are not the same.
  ghost predicate Overlap(o: Outlet) {
    exists b, c, i, j ::
      0 <= b < c < |o.batches| && 0 <= i < |o.batches[b]| && 0 <= j < |o.batches[c]|
      && o.batches[b][i] != o.batches[c][j]
  }

  predicate OnlyPublishes(moves: seq<Move>) {
    forall k :: 0 <= k < |moves| ==> moves[k].Publish?
  }

  // What is under way can be published in an order that is not the record's.
  ghost predicate CanBreak(o: Outlet, id: string) {
    exists rest: seq<Move> :: Breaks(o, id, rest)
  }

  predicate Breaks(o: Outlet, id: string, rest: seq<Move>) {
    OnlyPublishes(rest) && Possible(o, id, rest) && !SeenInOrder(After(o, id, rest))
  }

  lemma CanBreakBefore(o: Outlet, id: string, b: nat)
    requires Enabled(o, Publish(b)) && CanBreak(Apply(o, id, Publish(b)), id)
    ensures CanBreak(o, id)
  {
    var next := Apply(o, id, Publish(b));
    var rest: seq<Move> :| Breaks(next, id, rest);
    var longer := [Publish(b)] + rest;
    assert longer[1..] == rest;
    assert Breaks(o, id, longer);
  }

  predicate Sized(o: Outlet) {
    |o.world.notices| == |o.published| + |Flat(o.batches)|
  }

  lemma PublishKeepsSize(o: Outlet, id: string, b: nat)
    requires Sized(o) && Enabled(o, Publish(b))
    ensures Sized(Apply(o, id, Publish(b)))
  {
    var fewer := o.batches[b := o.batches[b][1..]];
    FlatAround(o.batches, b);
    FlatAround(fewer, b);
    assert fewer[..b] == o.batches[..b] && fewer[b + 1..] == o.batches[b + 1..];
  }

  // Two heads that differ: at least one of them is not what the record has next.
  lemma DifferentHeadsCanBreak(o: Outlet, id: string, b: nat, c: nat)
    requires Sized(o) && b < |o.batches| && c < |o.batches| && o.batches[b] != [] && o.batches[c] != []
    requires o.batches[b][0] != o.batches[c][0]
    ensures CanBreak(o, id)
  {
    if SeenInOrder(o) {
      FlatAround(o.batches, b);
      var d := if o.batches[b][0] != o.world.notices[|o.published|] then b else c;
      var next := Apply(o, id, Publish(d));
      assert next.published[|o.published|] != o.world.notices[|o.published|];
      assert Breaks(next, id, []);
      CanBreakBefore(o, id, d);
    } else {
      assert Breaks(o, id, []);
    }
  }

  // A notice that differs from the head of another list comes to stand beside it.
  lemma {:induction false} DifferentNoticesCanBreak(o: Outlet, id: string, b: nat, c: nat, i: nat)
    requires Sized(o) && b < |o.batches| && c < |o.batches| && b != c && o.batches[c] != []
    requires i < |o.batches[b]| && o.batches[b][i] != o.batches[c][0]
    ensures CanBreak(o, id)
    decreases i
  {
    if o.batches[b][0] != o.batches[c][0] {
      DifferentHeadsCanBreak(o, id, b, c);
    } else {
      PublishKeepsSize(o, id, b);
      DifferentNoticesCanBreak(Apply(o, id, Publish(b)), id, b, c, i - 1);
      CanBreakBefore(o, id, b);
    }
  }

  lemma OverlapCanBreak(o: Outlet, id: string)
    requires Sized(o) && Overlap(o)
    ensures CanBreak(o, id)
  {
    var b, c, i, j :|
      0 <= b < c < |o.batches| && 0 <= i < |o.batches[b]| && 0 <= j < |o.batches[c]|
      && o.batches[b][i] != o.batches[c][j];
    if o.batches[b][i] != o.batches[c][0] {
      DifferentNoticesCanBreak(o, id, b, c, i);
    } else if o.batches[c][j] != o.batches[b][0] {
      DifferentNoticesCanBreak(o, id, c, b, j);
    } else {
      DifferentNoticesCanBreak(o, id, b, c, 0);
    }
  }

  lemma {:induction false} FlatMember(batches: seq<seq<Notice>>, k: nat) returns (b: nat, i: nat)
    requires k < |Flat(batches)|
    ensures b < |batches| && i < |batches[b]| && Flat(batches)[k] == batches[b][i]
  {
    if k < |batches[0]| {
      b, i := 0, k;
    } else {
      b, i := FlatMember(batches[1..], k - |batches[0]|);
      b := b + 1;
    }
  }

  // Without an overlap, all that is under way ahead of a list is the same notice as its head.
  lemma AheadIsTheSame(o: Outlet, b: nat)
    requires !Overlap(o) && b < |o.batches| && o.batches[b] != []
    ensures forall k :: 0 <= k < |Flat(o.batches[..b])| ==> Flat(o.batches[..b])[k] == o.batches[b][0]
  {
    forall k | 0 <= k < |Flat(o.batches[..b])|
      ensures Flat(o.batches[..b])[k] == o.batches[b][0]
    {
      var a, i := FlatMember(o.batches[..b], k);
      assert o.batches[..b][a] == o.batches[a];
    }
  }

  lemma OneFromTheMiddle(published: seq<Notice>, ahead: seq<Notice>, batch: seq<Notice>, behind: seq<Notice>)
    requires batch != [] && forall k :: 0 <= k < |ahead| ==> ahead[k] == batch[0]
    ensures published + (ahead + batch + behind) == (published + [batch[0]]) + (ahead + batch[1..] + behind)
  {
    assert batch == [batch[0]] + batch[1..];
    assert ahead + [batch[0]] == [batch[0]] + ahead;
  }

  lemma PublicationKeepsOrder(o: Outlet, id: string, b: nat)
    requires InOrder(o) && !Overlap(o) && Enabled(o, Publish(b))
    ensures InOrder(Apply(o, id, Publish(b)))
  {
    var fewer := o.batches[b := o.batches[b][1..]];
    FlatAround(o.batches, b);
    FlatAround(fewer, b);
    assert fewer[..b] == o.batches[..b] && fewer[b + 1..] == o.batches[b + 1..];
    AheadIsTheSame(o, b);
    OneFromTheMiddle(o.published, Flat(o.batches[..b]), o.batches[b], Flat(o.batches[b + 1..]));
  }

  lemma PublicationAddsNoOverlap(o: Outlet, id: string, b: nat)
    requires !Overlap(o) && Enabled(o, Publish(b))
    ensures !Overlap(Apply(o, id, Publish(b)))
  {
    var fewer := Apply(o, id, Publish(b)).batches;
    forall a, c, i, j | 0 <= a < c < |fewer| && 0 <= i < |fewer[a]| && 0 <= j < |fewer[c]|
      ensures fewer[a][i] == fewer[c][j]
    {
      assert fewer[a][i] == o.batches[a][if a == b then i + 1 else i];
      assert fewer[c][j] == o.batches[c][if c == b then j + 1 else j];
    }
  }

  lemma {:induction false} PublicationsKeepOrder(o: Outlet, id: string, rest: seq<Move>)
    requires InOrder(o) && !Overlap(o) && OnlyPublishes(rest) && Possible(o, id, rest)
    ensures SeenInOrder(After(o, id, rest))
    decreases |rest|
  {
    if rest != [] {
      PublicationKeepsOrder(o, id, rest[0].b);
      PublicationAddsNoOverlap(o, id, rest[0].b);
      PublicationsKeepOrder(Apply(o, id, rest[0]), id, rest[1..]);
    }
  }

  lemma BreaksIffOverlap(o: Outlet, id: string)
    requires InOrder(o)
    ensures CanBreak(o, id) <==> Overlap(o)
  {
    if Overlap(o) {
      OverlapCanBreak(o, id);
    } else {
      forall rest: seq<Move> | OnlyPublishes(rest) && Possible(o, id, rest)
        ensures SeenInOrder(After(o, id, rest))
      {
        PublicationsKeepOrder(o, id, rest);
      }
    }
  }

  lemma SectionKeepsOrder(o: Outlet, id: string, step: Step)
    requires InOrder(o)
    ensures InOrder(Apply(o, id, Section(step)))
  {
    SectionsOnlyRecord(o.world, id, step);
    var now := Next(o.world, id, step).notices;
    var batch := now[|o.world.notices|..];
    assert now == o.world.notices + batch;
    FlatSplits(o.batches, [batch]);
    FlatOne(batch);
  }

  // At some moment of the run observers have seen, or can come to see, another order than the record's.
  ghost predicate EverBreaks(o: Outlet, id: string, moves: seq<Move>)
    requires Possible(o, id, moves)
    decreases |moves|
  {
    CanBreak(o, id) || (moves != [] && EverBreaks(Apply(o, id, moves[0]), id, moves[1..]))
  }

  ghost predicate EverOverlap(o: Outlet, id: string, moves: seq<Move>)
    requires Possible(o, id, moves)
    decreases |moves|
  {
    Overlap(o) || (moves != [] && EverOverlap(Apply(o, id, moves[0]), id, moves[1..]))
  }

  lemma {:induction false} OverlapDecides(o: Outlet, id: string, moves: seq<Move>)
    requires InOrder(o) && Possible(o, id, moves)
    ensures EverBreaks(o, id, moves) <==> EverOverlap(o, id, moves)
    ensures !EverOverlap(o, id, moves) ==> InOrder(After(o, id, moves))
    decreases |moves|
  {
    BreaksIffOverlap(o, id);
    if moves != [] && !Overlap(o) {
      match moves[0] {
        case Section(step) => SectionKeepsOrder(o, id, step);
        case Publish(b) => PublicationKeepsOrder(o, id, b);
      }
      OverlapDecides(Apply(o, id, moves[0]), id, moves[1..]);
    }
  }

  // Over whole runs: the order seen can differ from the record's if and only if at some moment two sections
  // had different notices under way, and without that the record is what is seen.
  lemma OrderBreaksIffSectionsOverlap(releases: map<string, nat>, id: string, moves: seq<Move>)
    requires Possible(Opening(releases), id, moves)
    ensures EverBreaks(Opening(releases), id, moves) <==> EverOverlap(Opening(releases), id, moves)
    ensures !EverOverlap(Opening(releases), id, moves) ==> SeenInOrder(After(Opening(releases), id, moves))
  {
    OverlapDecides(Opening(releases), id, moves);
  }

  // Every section that records finds everything before it published.
  predicate OneAtATime(o: Outlet, id: string, moves: seq<Move>)
    requires Possible(o, id, moves)
    decreases |moves|
  {
    moves == [] ||
    ((moves[0].Section? && Next(o.world, id, moves[0].step).notices != o.world.notices ==> Flat(o.batches) == [])
     && OneAtATime(Apply(o, id, moves[0]), id, moves[1..]))
  }

  // At most one batch is under way.
  predicate OneUnderWay(o: Outlet) {
    InOrder(o) && forall b, c :: 0 <= b < c < |o.batches| ==> o.batches[b] == [] || o.batches[c] == []
  }

  lemma {:induction false} FlatOfEmpty(batches: seq<seq<Notice>>)
    ensures Flat(batches) == [] <==> forall b :: 0 <= b < |batches| ==> batches[b] == []
  {
    if batches != [] {
      FlatOfEmpty(batches[1..]);
      assert forall b :: 1 <= b < |batches| ==> batches[b] == batches[1..][b - 1];
    }
  }

  lemma OrderlySection(o: Outlet, id: string, step: Step)
    requires OneUnderWay(o)
    requires Next(o.world, id, step).notices != o.world.notices ==> Flat(o.batches) == []
    ensures OneUnderWay(Apply(o, id, Section(step)))
  {
    SectionKeepsOrder(o, id, step);
    FlatOfEmpty(o.batches);
    SectionsOnlyRecord(o.world, id, step);
  }

  lemma OrderlyPublication(o: Outlet, id: string, b: nat)
    requires OneUnderWay(o) && Enabled(o, Publish(b))
    ensures OneUnderWay(Apply(o, id, Publish(b)))
  {
    var batch, behind := o.batches[b], Flat(o.batches[b + 1..]);
    var fewer := o.batches[b := batch[1..]];
    FlatAround(o.batches, b);
    FlatAround(fewer, b);
    assert fewer[..b] == o.batches[..b] && fewer[b + 1..] == o.batches[b + 1..];
    FlatOfEmpty(o.batches[..b]);
    NextIsPublished(o.published, batch, behind);
  }

  lemma NextIsPublished(published: seq<Notice>, batch: seq<Notice>, behind: seq<Notice>)
    requires batch != []
    ensures published + ([] + batch + behind) == (published + [batch[0]]) + ([] + batch[1..] + behind)
  {
    assert batch == [batch[0]] + batch[1..];
  }

  // Sections that do not overlap with a publication under way are seen in the order of the record.
  lemma {:induction false} NonOverlappingSectionsKeepOrder(o: Outlet, id: string, moves: seq<Move>)
    requires OneUnderWay(o) && Possible(o, id, moves) && OneAtATime(o, id, moves)
    ensures SeenInOrder(After(o, id, moves))
    ensures Flat(After(o, id, moves).batches) == [] ==>
              After(o, id, moves).published == After(o, id, moves).world.notices
    decreases |moves|
  {
    if moves != [] {
      match moves[0] {
        case Section(step) => OrderlySection(o, id, step);
        case Publish(b) => OrderlyPublication(o, id, b);
      }
      NonOverlappingSectionsKeepOrder(Apply(o, id, moves[0]), id, moves[1..]);
    }
  }

  // The session loses its host and ends a running terminal, and the host's own completion notice, already
  // received, is recorded and published before the local end is: observers see the local end last.
  lemma LocalEndCanBeSeenLast(w: World, id: string, report: Report, now: int)
    requires w.place.Known? && !w.place.terminal.notified && w.place.terminal.snapshot.status == RUNNING
    requires report.kind == CompletionNotice && report.terminal.sessionId == id
    ensures var moves := [Section(EndTerminals(LOST, None, None, now)), Section(HostReports(report)),
                          Publish(1), Publish(0)];
            var o := Outlet(w, [], []);
            Possible(o, id, moves) &&
            var published := After(o, id, moves).published;
            |published| == 2 && !published[0].local && published[0].kind == CompletionNotice && published[1].local
  {
    var o := Outlet(w, [], []);
    var ending, reporting := Section(EndTerminals(LOST, None, None, now)), Section(HostReports(report));
    var o1 := Apply(o, id, ending);
    var o2 := Apply(o1, id, reporting);
    assert |o1.batches| == 1 && |o1.batches[0]| == 1 && o1.batches[0][0].local;
    assert |o2.batches| == 2 && o2.batches[0] == o1.batches[0] && |o2.batches[1]| == 1 && !o2.batches[1][0].local;
    var o3 := Apply(o2, id, Publish(1));
    var o4 := Apply(o3, id, Publish(0));
    assert o4.published == [o2.batches[1][0]] + [o2.batches[0][0]];
    assert Possible(o4, id, []) && After(o4, id, []) == o4;
    Prepend(o3, id, Publish(0), []);
    Prepend(o2, id, Publish(1), [Publish(0)]);
    Prepend(o1, id, reporting, [Publish(1), Publish(0)]);
    Prepend(o, id, ending, [reporting, Publish(1), Publish(0)]);
  }

  lemma Prepend(o: Outlet, id: string, move: Move, rest: seq<Move>)
    requires Enabled(o, move) && Possible(Apply(o, id, move), id, rest)
    ensures Possible(o, id, [move] + rest) && After(o, id, [move] + rest) == After(Apply(o, id, move), id, rest)
  {
    assert ([move] + rest)[1..] == rest;
  }
}
