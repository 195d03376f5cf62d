/**
 * Background terminals of a remote session: host events that may overtake the result that starts
 * the terminal, thread releases that may overtake it too, and notices made locally when a terminal
 * ends without the host saying so.  Every step is one critical section of the session's lock.  The
 * notices of a section are recorded under the lock and published after it; `TerminalPublishing` is
 * about what observers get to see.
 */
module TerminalEvents {
  import opened Wrappers

  datatype Kind = Completed | CompletionNotice | StallNotice

  const RUNNING := "running"
  const KILLED := "killed"
  const LOST := "lost"

  datatype Snapshot = Snapshot(
    sessionId: string,
    threadId: string,
    turnId: string,
    callId: string,
    status: string,
    completedAt: Option<int>,
    output: string,
    armed: bool
  )

  // What the host reports about a terminal.
  datatype Report = Report(kind: Kind, terminal: Snapshot)

  // A notice for observers; `local` marks one this session made up itself.
  datatype Notice = Notice(kind: Kind, terminal: Snapshot, local: bool)

  datatype Terminal = Terminal(snapshot: Snapshot, notified: bool)

  datatype Context = Context(threadId: string, turnId: string, callId: string)

  // ---------------------------------------------------------------- one terminal

  // A report in the name of the thread, turn and call that own the terminal.
  function Owned(t: Terminal, reported: Snapshot): Snapshot {
    reported.(threadId := t.snapshot.threadId, turnId := t.snapshot.turnId, callId := t.snapshot.callId)
  }

  // A terminal and the notices about it so far.
  datatype Told = Told(terminal: Terminal, notices: seq<Notice>)

  function Apply(told: Told, report: Report): Told {
    var t := told.terminal;
    var owned := Owned(t, report.terminal);
    match report.kind
    case Completed => told.(terminal := t.(snapshot := owned.(output := "")))
    case CompletionNotice =>
      Told(Terminal(owned.(output := ""), true), told.notices + [Notice(CompletionNotice, owned, false)])
    case StallNotice => told.(notices := told.notices + [Notice(StallNotice, owned, false)])
  }

  function ApplyAll(told: Told, reports: seq<Report>): Told
    decreases |reports|
  {
    if reports == [] then told else ApplyAll(Apply(told, reports[0]), reports[1..])
  }

  function End(told: Told, status: string, now: int): Told {
    var t := told.terminal;
    if t.notified then told
    else
      var ended :=
        if t.snapshot.status == RUNNING then t.snapshot.(status := status, completedAt := Some(now)) else t.snapshot;
      Told(Terminal(ended, true), told.notices + [Notice(CompletionNotice, ended, true)])
  }

  function Registered(started: Snapshot, context: Context): Terminal {
    Terminal(started.(threadId := context.threadId, turnId := context.turnId, callId := context.callId), false)
  }

  // ---------------------------------------------------------------- what the session knows of one id

  datatype Place = Held(reports: seq<Report>) | Known(terminal: Terminal)

  // `releases` counts the releases of each thread; `notices` are those recorded about this id, in the
  // order of the sections that made them.
  datatype World = World(place: Place, notices: seq<Notice>, releases: map<string, nat>)

  datatype Step =
    | HostReports(report: Report)
    | ExecReturns(started: seq<Snapshot>, context: Context, releases: nat, now: int)
    | BeginRelease(threadId: string)
    | EndTerminals(status: string, only: Option<string>, running: Option<set<string>>, now: int)
    | ForgetThread(threadId: string)
    | Stopped(sessionId: string, reported: Snapshot)

  function Releases(releases: map<string, nat>, threadId: string): nat {
    if threadId in releases then releases[threadId] else 0
  }

  function Settle(w: World, told: Told): World {
    w.(place := Known(told.terminal), notices := told.notices)
  }

  // One entry of an Exec result that names this id.
  function Start(w: World, started: Snapshot, context: Context, releases: nat, now: int): World {
    var early := if w.place.Held? then w.place.reports else [];
    if !started.armed then (if w.place.Held? then w.(place := Held([])) else w)
    else
      var told := ApplyAll(Told(Registered(started, context), w.notices), early);
      if Releases(w.releases, context.threadId) != releases
      then w.(place := if w.place.Held? then Held([]) else w.place, notices := End(told, KILLED, now).notices)
      else Settle(w, told)
  }

  function StartAll(w: World, id: string, started: seq<Snapshot>, context: Context, releases: nat, now: int): World
    decreases |started|
  {
    if started == [] then w
    else
      var next := if started[0].sessionId == id then Start(w, started[0], context, releases, now) else w;
      StartAll(next, id, started[1..], context, releases, now)
  }

  predicate Concerned(w: World, id: string, threadId: Option<string>, running: Option<set<string>>) {
    w.place.Known?
    && (threadId.Some? ==> w.place.terminal.snapshot.threadId == threadId.value)
    && (if running.None? then w.place.terminal.snapshot.status == RUNNING else id in running.value)
  }

  function Next(w: World, id: string, step: Step): World {
    match step
    case HostReports(report) =>
      if report.terminal.sessionId != id then w
      else if w.place.Known? then Settle(w, Apply(Told(w.place.terminal, w.notices), report))
      else w.(place := Held(w.place.reports + [report]))
    case ExecReturns(started, context, releases, now) => StartAll(w, id, started, context, releases, now)
    case BeginRelease(threadId) => w.(releases := w.releases[threadId := Releases(w.releases, threadId) + 1])
    case EndTerminals(status, threadId, running, now) =>
      if Concerned(w, id, threadId, running) then Settle(w, End(Told(w.place.terminal, w.notices), status, now)) else w
    case ForgetThread(threadId) =>
      if w.place.Known? && w.place.terminal.snapshot.threadId == threadId then w.(place := Held([])) else w
    case Stopped(sessionId, reported) =>
      if w.place.Known? && sessionId == id then
        w.(place := Known(w.place.terminal.(snapshot := Owned(w.place.terminal, reported))))
      else w
  }

  function Run(w: World, id: string, trace: seq<Step>): World
    decreases |trace|
  {
    if trace == [] then w else Run(Next(w, id, trace[0]), id, trace[1..])
  }

  lemma {:induction false} RunSplits(w: World, id: string, first: seq<Step>, second: seq<Step>)
    ensures Run(w, id, first + second) == Run(Run(w, id, first), id, second)
    decreases |first|
  {
    if first == [] {
      assert first + second == second;
    } else {
      RunSplits(Next(w, id, first[0]), id, first[1..], second);
      assert (first + second)[1..] == first[1..] + second;
    }
  }

  // ---------------------------------------------------------------- early events commute

  function ReportsFor(trace: seq<Step>, id: string): seq<Report>
    decreases |trace|
  {
    if trace == [] then []
    else (if trace[0].HostReports? && trace[0].report.terminal.sessionId == id then [trace[0].report] else [])
         + ReportsFor(trace[1..], id)
  }

  function Starts(started: seq<Snapshot>, id: string): nat
    decreases |started|
  {
    if started == [] then 0 else (if started[0].sessionId == id then 1 else 0) + Starts(started[1..], id)
  }

  lemma {:induction false} NotNamedNotStarted(started: seq<Snapshot>, id: string)
    requires forall i :: 0 <= i < |started| ==> started[i].sessionId != id
    ensures Starts(started, id) == 0
    decreases |started|
  {
    if started != [] {
      NotNamedNotStarted(started[1..], id);
    }
  }

  // Whatever happens to other terminals and other threads.
  predicate Elsewhere(step: Step, id: string, threadId: string) {
    match step
    case HostReports(_) => true
    case ExecReturns(started, _, _, _) => Starts(started, id) == 0
    case BeginRelease(other) => other != threadId
    case EndTerminals(_, other, _, _) => other.Some? && other.value != threadId
    case ForgetThread(other) => other != threadId
    case Stopped(sessionId, _) => sessionId != id
  }

  predicate AllElsewhere(trace: seq<Step>, id: string, threadId: string) {
    forall i :: 0 <= i < |trace| ==> Elsewhere(trace[i], id, threadId)
  }

  lemma {:induction false} UnmentionedStartsChangeNothing(w: World, id: string, started: seq<Snapshot>,
                                                          context: Context, releases: nat, now: int)
    requires Starts(started, id) == 0
    ensures StartAll(w, id, started, context, releases, now) == w
    decreases |started|
  {
    if started != [] {
      UnmentionedStartsChangeNothing(w, id, started[1..], context, releases, now);
    }
  }

  // Steps elsewhere leave the place alone except for this terminal's own reports.
  lemma ElsewhereStep(w: World, id: string, threadId: string, step: Step)
    requires Elsewhere(step, id, threadId)
    requires w.place.Known? ==> w.place.terminal.snapshot.threadId == threadId
    ensures Releases(Next(w, id, step).releases, threadId) == Releases(w.releases, threadId)
    ensures !(step.HostReports? && step.report.terminal.sessionId == id) ==>
              Next(w, id, step).place == w.place && Next(w, id, step).notices == w.notices
  {
    if step.ExecReturns? {
      UnmentionedStartsChangeNothing(w, id, step.started, step.context, step.releases, step.now);
    }
  }

  lemma {:induction false} HeldUntilStarted(w: World, id: string, threadId: string, trace: seq<Step>)
    requires AllElsewhere(trace, id, threadId) && w.place.Held?
    ensures var last := Run(w, id, trace);
            last.place == Held(w.place.reports + ReportsFor(trace, id)) && last.notices == w.notices
            && Releases(last.releases, threadId) == Releases(w.releases, threadId)
    decreases |trace|
  {
    if trace == [] {
      assert w.place.reports + [] == w.place.reports;
    } else {
      ElsewhereStep(w, id, threadId, trace[0]);
      var next := Next(w, id, trace[0]);
      HeldUntilStarted(next, id, threadId, trace[1..]);
      if trace[0].HostReports? && trace[0].report.terminal.sessionId == id {
        assert (w.place.reports + [trace[0].report]) + ReportsFor(trace[1..], id)
            == w.place.reports + ([trace[0].report] + ReportsFor(trace[1..], id));
      } else {
        assert [] + ReportsFor(trace[1..], id) == ReportsFor(trace[1..], id);
      }
    }
  }

  lemma {:induction false} AppliedOnceKnown(w: World, id: string, threadId: string, trace: seq<Step>)
    requires AllElsewhere(trace, id, threadId) && w.place.Known? && w.place.terminal.snapshot.threadId == threadId
    ensures var told := ApplyAll(Told(w.place.terminal, w.notices), ReportsFor(trace, id));
            Run(w, id, trace).place == Known(told.terminal) && Run(w, id, trace).notices == told.notices
    decreases |trace|
  {
    if trace != [] {
      ElsewhereStep(w, id, threadId, trace[0]);
      var next := Next(w, id, trace[0]);
      AppliedOnceKnown(next, id, threadId, trace[1..]);
      var rest := ReportsFor(trace[1..], id);
      if trace[0].HostReports? && trace[0].report.terminal.sessionId == id {
        assert ([trace[0].report] + rest)[1..] == rest;
      } else {
        assert [] + rest == rest;
      }
    }
  }

  lemma {:induction false} ApplyAllSplits(told: Told, first: seq<Report>, second: seq<Report>)
    ensures ApplyAll(told, first + second) == ApplyAll(ApplyAll(told, first), second)
    decreases |first|
  {
    if first == [] {
      assert first + second == second;
    } else {
      ApplyAllSplits(Apply(told, first[0]), first[1..], second);
      assert (first + second)[1..] == first[1..] + second;
    }
  }

  lemma {:induction false} ReportsKeepTheOwner(told: Told, reports: seq<Report>)
    ensures ApplyAll(told, reports).terminal.snapshot.threadId == told.terminal.snapshot.threadId
    decreases |reports|
  {
    if reports != [] {
      ReportsKeepTheOwner(Apply(told, reports[0]), reports[1..]);
    }
  }

  // The one entry of an Exec result about this id decides; the others do not matter.
  lemma {:induction false} OneEntryDecides(w: World, id: string, started: seq<Snapshot>, k: nat, context: Context,
                                           releases: nat, now: int)
    requires k < |started| && started[k].sessionId == id
    requires forall i :: 0 <= i < |started| && started[i].sessionId == id ==> i == k
    ensures StartAll(w, id, started, context, releases, now) == Start(w, started[k], context, releases, now)
    decreases |started|
  {
    if k == 0 {
      var next := Start(w, started[0], context, releases, now);
      NotNamedNotStarted(started[1..], id);
      UnmentionedStartsChangeNothing(next, id, started[1..], context, releases, now);
    } else {
      assert started[0].sessionId != id;
      OneEntryDecides(w, id, started[1..], k - 1, context, releases, now);
    }
  }

  predicate StartsOnce(started: seq<Snapshot>, k: nat, id: string) {
    k < |started| && started[k].sessionId == id
    && forall i :: 0 <= i < |started| && started[i].sessionId == id ==> i == k
  }

  // Wherever the Exec result falls among the host's reports, the terminal ends up as if it had been
  // registered first, with the same notices recorded in the same order.
  lemma EarlyReportsCommute(releases: map<string, nat>, id: string, before: seq<Step>, result: Step, k: nat,
                            after: seq<Step>)
    requires result.ExecReturns? && StartsOnce(result.started, k, id) && result.started[k].armed
    requires result.releases == Releases(releases, result.context.threadId)
    requires AllElsewhere(before, id, result.context.threadId) && AllElsewhere(after, id, result.context.threadId)
    ensures var told := ApplyAll(Told(Registered(result.started[k], result.context), []),
                                 ReportsFor(before, id) + ReportsFor(after, id));
            var last := Run(World(Held([]), [], releases), id, before + [result] + after);
            last.place == Known(told.terminal) && last.notices == told.notices
  {
    var blank := World(Held([]), [], releases);
    var thread := result.context.threadId;
    HeldUntilStarted(blank, id, thread, before);
    var held := Run(blank, id, before);
    assert [] + ReportsFor(before, id) == ReportsFor(before, id);
    OneEntryDecides(held, id, result.started, k, result.context, result.releases, result.now);
    var known := Next(held, id, result);
    var first := Told(Registered(result.started[k], result.context), []);
    ReportsKeepTheOwner(first, ReportsFor(before, id));
    AppliedOnceKnown(known, id, thread, after);
    ApplyAllSplits(first, ReportsFor(before, id), ReportsFor(after, id));
    RunSplits(blank, id, before + [result], after);
    RunSplits(blank, id, before, [result]);
    assert [result][1..] == [];
  }

  // So two interleavings of the same reports leave the same terminal and the same record.
  lemma InterleavingDoesNotMatter(releases: map<string, nat>, id: string, result: Step, k: nat,
                                  before: seq<Step>, after: seq<Step>, earlier: seq<Step>, later: seq<Step>)
    requires result.ExecReturns? && StartsOnce(result.started, k, id) && result.started[k].armed
    requires result.releases == Releases(releases, result.context.threadId)
    requires AllElsewhere(before, id, result.context.threadId) && AllElsewhere(after, id, result.context.threadId)
    requires AllElsewhere(earlier, id, result.context.threadId) && AllElsewhere(later, id, result.context.threadId)
    requires ReportsFor(before, id) + ReportsFor(after, id) == ReportsFor(earlier, id) + ReportsFor(later, id)
    ensures var one := Run(World(Held([]), [], releases), id, before + [result] + after);
            var other := Run(World(Held([]), [], releases), id, earlier + [result] + later);
            one.place == other.place && one.notices == other.notices
  {
    EarlyReportsCommute(releases, id, before, result, k, after);
    EarlyReportsCommute(releases, id, earlier, result, k, later);
  }

  // A terminal that is not to be announced: what came early is dropped, what comes later is kept
  // aside for good, and nothing is recorded.
  lemma UnarmedReportsAreDropped(releases: map<string, nat>, id: string, before: seq<Step>, result: Step, k: nat,
                                 after: seq<Step>)
    requires result.ExecReturns? && StartsOnce(result.started, k, id) && !result.started[k].armed
    requires AllElsewhere(before, id, result.context.threadId) && AllElsewhere(after, id, result.context.threadId)
    ensures var last := Run(World(Held([]), [], releases), id, before + [result] + after);
            last.place == Held(ReportsFor(after, id)) && last.notices == []
  {
    var blank := World(Held([]), [], releases);
    HeldUntilStarted(blank, id, result.context.threadId, before);
    var held := Run(blank, id, before);
    OneEntryDecides(held, id, result.started, k, result.context, result.releases, result.now);
    HeldUntilStarted(Next(held, id, result), id, result.context.threadId, after);
    RunSplits(blank, id, before + [result], after);
    RunSplits(blank, id, before, [result]);
    assert [result][1..] == [] && [] + ReportsFor(after, id) == ReportsFor(after, id);
  }

  // ---------------------------------------------------------------- local notices

  predicate Announced(notices: seq<Notice>) {
    exists i :: 0 <= i < |notices| && notices[i].kind == CompletionNotice
  }

  predicate IsLocalEnd(notice: Notice) {
    notice.local ==> notice.kind == CompletionNotice
  }

  // No local notice is recorded after a completion notice of any origin.
  predicate LocalComesFirst(notices: seq<Notice>) {
    && (forall i :: 0 <= i < |notices| ==> IsLocalEnd(notices[i]))
    && (forall i, j :: 0 <= i < j < |notices| && notices[i].kind == CompletionNotice ==> !notices[j].local)
  }

  // What holds of a terminal and its notices once it has been registered.
  predicate Fits(told: Told) {
    LocalComesFirst(told.notices) && (told.terminal.notified <==> Announced(told.notices))
  }

  lemma AnnouncedGrows(notices: seq<Notice>, notice: Notice)
    ensures Announced(notices + [notice]) <==> Announced(notices) || notice.kind == CompletionNotice
  {
    var more := notices + [notice];
    if Announced(notices) {
      var i :| 0 <= i < |notices| && notices[i].kind == CompletionNotice;
      assert more[i].kind == CompletionNotice;
    }
    if notice.kind == CompletionNotice {
      assert more[|notices|].kind == CompletionNotice;
    }
  }

  lemma ApplyFits(told: Told, report: Report)
    requires Fits(told)
    ensures Fits(Apply(told, report))
  {
    if report.kind != Completed {
      AnnouncedGrows(told.notices, Apply(told, report).notices[|told.notices|]);
    }
  }

  lemma {:induction false} ApplyAllFits(told: Told, reports: seq<Report>)
    requires Fits(told)
    ensures Fits(ApplyAll(told, reports))
    decreases |reports|
  {
    if reports != [] {
      ApplyFits(told, reports[0]);
      ApplyAllFits(Apply(told, reports[0]), reports[1..]);
    }
  }

  lemma EndFits(told: Told, status: string, now: int)
    requires Fits(told)
    ensures Fits(End(told, status, now)) && Announced(End(told, status, now).notices)
  {
    if !told.terminal.notified {
      AnnouncedGrows(told.notices, End(told, status, now).notices[|told.notices|]);
    }
  }

  // `begun` says that this id has been started.
  predicate Inv(w: World, begun: bool) {
    && LocalComesFirst(w.notices)
    && (!begun ==> w.place.Held? && w.notices == [])
    && (w.place.Known? ==> Fits(Told(w.place.terminal, w.notices)))
  }

  // How often the results of a whole run start this id; the host hands out each id once.
  function StartsIn(trace: seq<Step>, id: string): nat
    decreases |trace|
  {
    if trace == [] then 0
    else (if trace[0].ExecReturns? then Starts(trace[0].started, id) else 0) + StartsIn(trace[1..], id)
  }

  lemma {:induction false} StartAllKeepsInv(w: World, id: string, started: seq<Snapshot>, context: Context,
                                            releases: nat, now: int, begun: bool)
    requires Inv(w, begun) && Starts(started, id) <= (if begun then 0 else 1)
    ensures Inv(StartAll(w, id, started, context, releases, now), begun || Starts(started, id) > 0)
    decreases |started|
  {
    if started != [] {
      if started[0].sessionId == id {
        var told := Told(Registered(started[0], context), []);
        assert Fits(told);
        ApplyAllFits(told, w.place.reports);
        EndFits(ApplyAll(told, w.place.reports), KILLED, now);
        var next := Start(w, started[0], context, releases, now);
        assert Inv(next, true);
        StartAllKeepsInv(next, id, started[1..], context, releases, now, true);
      } else {
        StartAllKeepsInv(w, id, started[1..], context, releases, now, begun);
      }
    }
  }

  lemma NextKeepsInv(w: World, id: string, step: Step, begun: bool)
    requires Inv(w, begun)
    requires step.ExecReturns? ==> Starts(step.started, id) <= (if begun then 0 else 1)
    ensures Inv(Next(w, id, step), begun || (step.ExecReturns? && Starts(step.started, id) > 0))
  {
    match step {
      case HostReports(report) =>
        if w.place.Known? {
          ApplyFits(Told(w.place.terminal, w.notices), report);
        }
      case ExecReturns(started, context, releases, now) =>
        StartAllKeepsInv(w, id, started, context, releases, now, begun);
      case EndTerminals(status, threadId, running, now) =>
        if w.place.Known? {
          EndFits(Told(w.place.terminal, w.notices), status, now);
        }
      case _ =>
    }
  }

  lemma {:induction false} RunKeepsInv(w: World, id: string, trace: seq<Step>, begun: bool)
    requires Inv(w, begun) && StartsIn(trace, id) <= (if begun then 0 else 1)
    ensures Inv(Run(w, id, trace), begun || StartsIn(trace, id) > 0)
    decreases |trace|
  {
    if trace != [] {
      NextKeepsInv(w, id, trace[0], begun);
      RunKeepsInv(Next(w, id, trace[0]), id, trace[1..],
                  begun || (trace[0].ExecReturns? && Starts(trace[0].started, id) > 0));
    }
  }

  // Over any interleaving of reports, results, releases, losses and stops: a local end is recorded
  // at most once, and never after a completion notice, whoever made that.
  lemma LocalEndIsRecordedOnce(releases: map<string, nat>, id: string, trace: seq<Step>, i: nat, j: nat)
    requires StartsIn(trace, id) <= 1
    requires i < j < |Run(World(Held([]), [], releases), id, trace).notices|
    ensures var notices := Run(World(Held([]), [], releases), id, trace).notices;
            (notices[i].kind == CompletionNotice ==> !notices[j].local) && !(notices[i].local && notices[j].local)
  {
    RunKeepsInv(World(Held([]), [], releases), id, trace, false);
    assert IsLocalEnd(Run(World(Held([]), [], releases), id, trace).notices[i]);
  }

  // ---------------------------------------------------------------- releases

  // Steps that may come between the start of a release and the end it makes of what was running.
  predicate DuringRelease(step: Step, id: string, threadId: string) {
    match step
    case ExecReturns(started, _, _, _) => Starts(started, id) == 0
    case ForgetThread(other) => other != threadId
    case _ => true
  }

  lemma {:induction false} StaysKnown(w: World, id: string, threadId: string, trace: seq<Step>)
    requires Inv(w, true) && w.place.Known? && w.place.terminal.snapshot.threadId == threadId
    requires forall i :: 0 <= i < |trace| ==> DuringRelease(trace[i], id, threadId)
    ensures var last := Run(w, id, trace);
            Inv(last, true) && last.place.Known? && last.place.terminal.snapshot.threadId == threadId
    decreases |trace|
  {
    if trace != [] {
      if trace[0].ExecReturns? {
        UnmentionedStartsChangeNothing(w, id, trace[0].started, trace[0].context, trace[0].releases, trace[0].now);
      } else {
        NextKeepsInv(w, id, trace[0], true);
      }
      StaysKnown(Next(w, id, trace[0]), id, threadId, trace[1..]);
    }
  }

  lemma ReleaseEnds(w: World, id: string, threadId: string, running: set<string>, between: seq<Step>, now: int)
    requires Inv(w, true) && w.place.Known? && w.place.terminal.snapshot.threadId == threadId && id in running
    requires forall i :: 0 <= i < |between| ==> DuringRelease(between[i], id, threadId)
    ensures var ended := Next(Run(w, id, between), id, EndTerminals(KILLED, Some(threadId), Some(running), now));
            Announced(ended.notices) && Next(ended, id, ForgetThread(threadId)).place == Held([])
  {
    StaysKnown(w, id, threadId, between);
    var middle := Run(w, id, between);
    EndFits(Told(middle.place.terminal, middle.notices), KILLED, now);
  }

  // For every terminal running when its thread's release began a completion notice is recorded by the
  // time the release is over, whatever the host reported in between.
  lemma ReleaseAnnouncesWhatWasRunning(releases: map<string, nat>, id: string, trace: seq<Step>, threadId: string,
                                       running: set<string>, between: seq<Step>, now: int)
    requires StartsIn(trace, id) <= 1
    requires var w := Run(World(Held([]), [], releases), id, trace);
             w.place.Known? && w.place.terminal.snapshot.threadId == threadId && id in running
    requires forall i :: 0 <= i < |between| ==> DuringRelease(between[i], id, threadId)
    ensures var w := Run(World(Held([]), [], releases), id, trace);
            var middle := Run(Next(w, id, BeginRelease(threadId)), id, between);
            var ended := Next(middle, id, EndTerminals(KILLED, Some(threadId), Some(running), now));
            Announced(ended.notices) && Next(ended, id, ForgetThread(threadId)).place == Held([])
  {
    RunKeepsInv(World(Held([]), [], releases), id, trace, false);
    var w := Run(World(Held([]), [], releases), id, trace);
    ReleaseEnds(Next(w, id, BeginRelease(threadId)), id, threadId, running, between, now);
  }

  // For a terminal whose Exec began before a release of its thread and returned after it the end is
  // recorded at once, and it is never listed.
  lemma StartOvertakenByReleaseEnds(w: World, id: string, result: Step, k: nat)
    requires Inv(w, false) && result.ExecReturns? && StartsOnce(result.started, k, id) && result.started[k].armed
    requires result.releases != Releases(w.releases, result.context.threadId)
    ensures Next(w, id, result).place == Held([]) && Announced(Next(w, id, result).notices)
  {
    OneEntryDecides(w, id, result.started, k, result.context, result.releases, result.now);
    var told := Told(Registered(result.started[k], result.context), []);
    assert Fits(told);
    ApplyAllFits(told, w.place.reports);
    EndFits(ApplyAll(told, w.place.reports), KILLED, result.now);
  }

  // ---------------------------------------------------------------- where the code falls short

  function Completions(notices: seq<Notice>): nat {
    if notices == [] then 0
    else Completions(notices[..|notices| - 1]) + (if notices[|notices| - 1].kind == CompletionNotice then 1 else 0)
  }

  // The host's completion notice for a terminal already announced is passed on all the same: a
  // report adds a further completion notice exactly when it is one.
  lemma HostNoticeIsNotSuppressed(w: World, id: string, report: Report)
    requires w.place.Known? && w.place.terminal.notified && report.terminal.sessionId == id
    ensures Completions(Next(w, id, HostReports(report)).notices) == Completions(w.notices) + 1
            <==> report.kind == CompletionNotice
    ensures Completions(Next(w, id, HostReports(report)).notices) == Completions(w.notices)
            <==> report.kind != CompletionNotice
  {
    if report.kind != Completed {
      var next := Next(w, id, HostReports(report)).notices;
      assert next[..|next| - 1] == w.notices;
    }
  }

  // Losing the connection announces a terminal exactly when it still runs as far as is known, so one
  // the host had reported completed, but not yet announced, ends without any notice.
  lemma LossAnnouncesOnlyTheRunning(w: World, id: string, now: int)
    requires w.place.Known? && !w.place.terminal.notified
    ensures var lost := Next(w, id, EndTerminals(LOST, None, None, now));
            lost.place.terminal.notified <==> w.place.terminal.snapshot.status == RUNNING
    ensures var lost := Next(w, id, EndTerminals(LOST, None, None, now));
            lost.notices == w.notices <==> w.place.terminal.snapshot.status != RUNNING
  {
    var told := End(Told(w.place.terminal, w.notices), LOST, now);
    assert |told.notices| == |w.notices| + 1;
  }

  lemma CompletionLostWithTheConnection(w: World, id: string, report: Report, now: int)
    requires w.place.Known? && !w.place.terminal.notified
    requires report.kind == Completed && report.terminal.sessionId == id && report.terminal.status != RUNNING
    ensures var lost := Next(Next(w, id, HostReports(report)), id, EndTerminals(LOST, None, None, now));
            lost.notices == w.notices && !lost.place.terminal.notified
  {
    LossAnnouncesOnlyTheRunning(Next(w, id, HostReports(report)), id, now);
  }

  // ---------------------------------------------------------------- the session

  // A notice under the id it is about.
  datatype Entry = Entry(id: string, notice: Notice)

  function About(log: seq<Entry>, id: string): seq<Notice> {
    if log == [] then []
    else About(log[..|log| - 1], id) + (if log[|log| - 1].id == id then [log[|log| - 1].notice] else [])
  }

  function Tagged(id: string, notices: seq<Notice>): seq<Entry> {
    if notices == [] then [] else Tagged(id, notices[..|notices| - 1]) + [Entry(id, notices[|notices| - 1])]
  }

  lemma AboutOneMore(log: seq<Entry>, entry: Entry, other: string)
    ensures About(log + [entry], other) == About(log, other) + (if other == entry.id then [entry.notice] else [])
  {
    assert (log + [entry])[..|log|] == log;
  }

  lemma AppendOne<T>(a: seq<T>, b: seq<T>, e: T)
    ensures a + (b + [e]) == (a + b) + [e]
  {
  }

  lemma {:induction false} AboutTagged(log: seq<Entry>, id: string, notices: seq<Notice>, other: string)
    ensures About(log + Tagged(id, notices), other) == About(log, other) + (if other == id then notices else [])
  {
    if notices == [] {
      assert log + [] == log;
    } else {
      var front, last := notices[..|notices| - 1], notices[|notices| - 1];
      AboutTagged(log, id, front, other);
      AboutOneMore(log + Tagged(id, front), Entry(id, last), other);
      AppendOne(log, Tagged(id, front), Entry(id, last));
      AppendOne(About(log, other), front, last);
      assert notices == front + [last];
    }
  }

  // Notices only accumulate: earlier ones do not influence what a report or an end does.
  lemma ApplyShifts(t: Terminal, notices: seq<Notice>, report: Report)
    ensures var alone := Apply(Told(t, []), report);
            Apply(Told(t, notices), report) == Told(alone.terminal, notices + alone.notices)
  {
    assert notices + [] == notices;
    if report.kind != Completed {
      var alone := Apply(Told(t, []), report);
      assert alone.notices == [alone.notices[0]];
    }
  }

  lemma {:induction false} ApplyAllShifts(told: Told, notices: seq<Notice>, reports: seq<Report>)
    ensures var alone := ApplyAll(told, reports);
            ApplyAll(Told(told.terminal, notices + told.notices), reports)
              == Told(alone.terminal, notices + alone.notices)
    decreases |reports|
  {
    if reports != [] {
      ApplyShifts(told.terminal, told.notices, reports[0]);
      ApplyShifts(told.terminal, notices + told.notices, reports[0]);
      var alone := Apply(Told(told.terminal, []), reports[0]);
      assert (notices + told.notices) + alone.notices == notices + (told.notices + alone.notices);
      ApplyAllShifts(Apply(told, reports[0]), notices, reports[1..]);
    }
  }

  lemma EndShifts(told: Told, notices: seq<Notice>, status: string, now: int)
    ensures var alone := End(told, status, now);
            End(Told(told.terminal, notices + told.notices), status, now)
              == Told(alone.terminal, notices + alone.notices)
  {
    var alone := End(told, status, now);
    if !told.terminal.notified {
      assert (notices + told.notices) + [alone.notices[|told.notices|]] == notices + alone.notices;
    }
  }

  class Session {
    var terminals: map<string, Terminal>
    var early: map<string, seq<Report>>
    var releases: map<string, nat>
    var published: seq<Entry>
    ghost var log: seq<Entry>

    constructor ()
      ensures Valid() && published == [] && forall id :: View(id) == World(Held([]), [], map[])
    {
      terminals, early, releases, published, log := map[], map[], map[], [], [];
    }

    ghost predicate Valid()
      reads this
    {
      forall id :: id in terminals ==> id !in early
    }

    // The session as far as one id is concerned.
    ghost function View(id: string): World
      reads this
    {
      World(if id in terminals then Known(terminals[id]) else Held(if id in early then early[id] else []),
            About(log, id), releases)
    }

    // Every id sees the step and no id sees anything else.
    twostate predicate Took(step: Step)
      reads this
    {
      Valid() && forall id :: View(id) == Next(old(View(id)), id, step)
    }

    // The step has been taken for all ids but these.
    twostate predicate TookExcept(todo: set<string>, step: Step)
      reads this
    {
      forall id :: View(id) == if id in todo then old(View(id)) else Next(old(View(id)), id, step)
    }

    // Under the lock a notice goes into the list of its section.
    method Record(id: string, notices: seq<Notice>) returns (added: seq<Entry>)
      modifies `log
      ensures added == Tagged(id, notices) && log == old(log) + added
      ensures forall other :: About(log, other) == About(old(log), other) + (if other == id then notices else [])
    {
      forall other {
        AboutTagged(log, id, notices, other);
      }
      added := Tagged(id, notices);
      log := log + added;
    }

    // The list of a section, published once the lock is released.
    method Publish(batch: seq<Entry>)
      modifies `published
      ensures published == old(published) + batch
    {
      assert batch[..0] == [];
      for i := 0 to |batch|
        invariant published == old(published) + batch[..i]
      {
        assert batch[..i + 1] == batch[..i] + [batch[i]];
        published := published + [batch[i]];
      }
      assert batch[..|batch|] == batch;
    }

    method RecordReport(report: Report) returns (batch: seq<Entry>)
      requires Valid()
      modifies `terminals, `early, `log
      ensures Took(HostReports(report)) && log == old(log) + batch
    {
      batch := [];
      var id := report.terminal.sessionId;
      if id in terminals {
        ApplyShifts(terminals[id], About(log, id), report);
        var told := Apply(Told(terminals[id], []), report);
        terminals := terminals[id := told.terminal];
        batch := Record(id, told.notices);
      } else if id in early {
        early := early[id := early[id] + [report]];
      } else {
        assert [] + [report] == [report];
        early := early[id := [report]];
      }
    }

    method OnTerminalEvent(report: Report)
      requires Valid()
      modifies this
      ensures Took(HostReports(report))
      ensures old(log) <= log && published == old(published) + log[|old(log)|..]
    {
      var batch := RecordReport(report);
      Publish(batch);
    }

    // The held reports, applied in the order they came.
    method ApplyHeld(first: Told, held: seq<Report>) returns (told: Told)
      ensures told == ApplyAll(first, held)
    {
      told := first;
      var i := 0;
      assert held[0..] == held;
      while i < |held|
        invariant 0 <= i <= |held|
        invariant ApplyAll(told, held[i..]) == ApplyAll(first, held)
      {
        assert held[i..][0] == held[i] && held[i..][1..] == held[i + 1..];
        told := Apply(told, held[i]);
        i := i + 1;
      }
    }

    // One entry of an Exec result, with what was held back for it.
    method StartOne(started: Snapshot, context: Context, captured: nat, now: int) returns (added: seq<Entry>)
      requires Valid()
      modifies `terminals, `early, `log
      ensures Valid() && log == old(log) + added
      ensures View(started.sessionId) == Start(old(View(started.sessionId)), started, context, captured, now)
      ensures forall id :: id != started.sessionId ==> View(id) == old(View(id))
    {
      added := [];
      var id := started.sessionId;
      var held := if id in early then early[id] else [];
      early := early - {id};
      if !started.armed {
        return;
      }
      var told := ApplyHeld(Told(Registered(started, context), []), held);
      ghost var before := About(log, id);
      ApplyAllShifts(Told(Registered(started, context), []), before, held);
      EndShifts(told, before, KILLED, now);
      assert before + [] == before;
      if (if context.threadId in releases then releases[context.threadId] else 0) != captured {
        told := End(told, KILLED, now);
      } else {
        terminals := terminals[id := told.terminal];
      }
      added := Record(id, told.notices);
    }

    method RecordStarts(started: seq<Snapshot>, context: Context, captured: nat, now: int) returns (batch: seq<Entry>)
      requires Valid()
      modifies `terminals, `early, `log
      ensures Took(ExecReturns(started, context, captured, now)) && log == old(log) + batch
    {
      batch := [];
      var i := 0;
      assert started[0..] == started;
      while i < |started|
        invariant 0 <= i <= |started| && Valid() && log == old(log) + batch
        invariant forall id :: StartAll(View(id), id, started[i..], context, captured, now)
                            == StartAll(old(View(id)), id, started, context, captured, now)
      {
        assert started[i..][0] == started[i] && started[i..][1..] == started[i + 1..];
        var added := StartOne(started[i], context, captured, now);
        batch := batch + added;
        i := i + 1;
      }
    }

    // A session that has become unavailable meanwhile ends what it has just listed as lost.
    method ReportStartedTerminals(started: seq<Snapshot>, context: Context, captured: nat, available: bool, now: int)
      requires Valid()
      modifies this
      ensures Valid() && old(log) <= log && published == old(published) + log[|old(log)|..]
      ensures forall id :: var known := Next(old(View(id)), id, ExecReturns(started, context, captured, now));
                View(id) == if available then known else Next(known, id, Step.EndTerminals(LOST, None, None, now))
    {
      var batch := RecordStarts(started, context, captured, now);
      Publish(batch);
      if !available {
        ghost var mid := log;
        EndTerminals(LOST, None, None, now);
        assert log[|old(log)|..] == batch + log[|mid|..];
      }
    }

    method BeginThreadRelease(threadId: string) returns (running: set<string>)
      requires Valid()
      modifies `releases
      ensures Took(BeginRelease(threadId))
      ensures forall id :: id in running <==> Concerned(old(View(id)), id, Some(threadId), None)
    {
      releases := releases[threadId := (if threadId in releases then releases[threadId] else 0) + 1];
      running := set id | id in terminals && terminals[id].snapshot.threadId == threadId
                          && terminals[id].snapshot.status == RUNNING;
    }

    method ForgetThreadTerminals(threadId: string)
      requires Valid()
      modifies `terminals
      ensures Took(ForgetThread(threadId))
    {
      var todo := terminals.Keys;
      while todo != {}
        invariant todo <= terminals.Keys && Valid()
        invariant forall id ::
                    View(id) == if id in todo then old(View(id)) else Next(old(View(id)), id, ForgetThread(threadId))
        decreases |todo|
      {
        var id :| id in todo;
        todo := todo - {id};
        if terminals[id].snapshot.threadId == threadId {
          terminals := terminals - {id};
        }
      }
    }

    method EndOne(id: string, status: string, now: int) returns (added: seq<Entry>)
      requires Valid() && id in terminals
      modifies `terminals, `log
      ensures terminals.Keys == old(terminals.Keys) && Valid() && log == old(log) + added
      ensures View(id) == Settle(old(View(id)), End(Told(old(terminals[id]), old(View(id)).notices), status, now))
      ensures forall other :: other != id ==> View(other) == old(View(other))
    {
      var t := terminals[id];
      ghost var before := About(log, id);
      EndShifts(Told(t, []), before, status, now);
      assert before + [] == before;
      var told := End(Told(t, []), status, now);
      terminals := terminals[id := told.terminal];
      added := Record(id, told.notices);
    }

    method EndIfConcerned(id: string, ghost step: Step, status: string, threadId: Option<string>,
                          running: Option<set<string>>, now: int)
      returns (added: seq<Entry>)
      requires Valid() && id in terminals && step == Step.EndTerminals(status, threadId, running, now)
      modifies `terminals, `log
      ensures terminals.Keys == old(terminals.Keys) && Valid() && log == old(log) + added
      ensures View(id) == Next(old(View(id)), id, step)
      ensures forall other :: other != id ==> View(other) == old(View(other))
    {
      var t := terminals[id];
      added := [];
      if (threadId.None? || t.snapshot.threadId == threadId.value)
         && (if running.None? then t.snapshot.status == RUNNING else id in running.value) {
        added := EndOne(id, status, now);
      }
    }

    method RecordEnds(status: string, threadId: Option<string>, running: Option<set<string>>, now: int)
      returns (batch: seq<Entry>)
      requires Valid()
      modifies `terminals, `log
      ensures Took(Step.EndTerminals(status, threadId, running, now)) && log == old(log) + batch
    {
      batch := [];
      ghost var step := Step.EndTerminals(status, threadId, running, now);
      var todo := terminals.Keys;
      while todo != {}
        invariant todo <= terminals.Keys && Valid() && log == old(log) + batch
        invariant TookExcept(todo, step)
        decreases |todo|
      {
        var id :| id in todo;
        todo := todo - {id};
        assert View(id) == old(View(id));
        var added := EndIfConcerned(id, step, status, threadId, running, now);
        Assoc(old(log), batch, added);
        batch := batch + added;
      }
    }

    method EndTerminals(status: string, threadId: Option<string>, running: Option<set<string>>, now: int)
      requires Valid()
      modifies `terminals, `log, `published
      ensures Took(Step.EndTerminals(status, threadId, running, now))
      ensures old(log) <= log && published == old(published) + log[|old(log)|..]
    {
      var batch := RecordEnds(status, threadId, running, now);
      Publish(batch);
    }
  }
}
