/**
 * One automation: its definition file and its run files, the queue step that writes both in order,
 * and start-up recovery.  A crash may fall between the two writes.
 */
module AutomationScheduler {
  import opened Wrappers
  import opened AutomationSchedule

  datatype Activity = Active | Paused | Completed

  // `era` counts how often the due time was set afresh instead of being carried over by an edit.
  datatype Definition = Definition(version: nat, era: nat, status: Activity, schedule: Schedule, nextRunAt: Option<int>)

  datatype RunStatus = Waiting | Running | Interrupted | Succeeded | Failed | Cancelled

  // `launched` says whether the attempt of this run was ever started; like `era` it is in no file.
  datatype Run = Run(version: nat, era: nat, createdAt: int, scheduledAt: Option<int>, status: RunStatus,
                     launched: bool)

  // The attempt in progress works on a copy of the definition it was queued with.
  datatype Attempt = Attempt(definition: Definition, manual: bool, run: nat)

  // `definition` and `runs` are on disk, the rest is the process.  Runs are oldest first.
  datatype World = World(now: int, started: bool, definition: Option<Definition>, runs: seq<Run>,
                         running: Option<Attempt>)

  datatype Step =
    | Tick(now: int)
    | Create(status: Activity, schedule: Schedule)
    | Update(status: Activity, schedule: Schedule)
    | Delete
    | Poll
    | PollThenCrash
    | PollThenFail
    | RunManually
    | BeginTurn
    | Settle(outcome: RunStatus)
    | CloseOut
    | Crash
    | Stop
    | Start
    | StartThenCrash(saved: nat)

  predicate Final(status: RunStatus) {
    status != Waiting && status != Running
  }

  ghost function NextOf(schedule: Schedule, zones: map<string, Zone>, after: int,
                        previous: Option<int>): (r: Option<int>)
    requires AllRegular(zones)
    ensures r.Some? ==> r.value > after
  {
    NextIsLater(schedule, zones, after, previous);
    var next := Next(schedule, zones, after, previous);
    if next.At? then Some(next.instant) else None
  }

  predicate Due(w: World) {
    w.definition.Some? && w.definition.value.status == Active
    && w.definition.value.nextRunAt.Some? && w.definition.value.nextRunAt.value <= w.now
  }

  predicate CanQueue(w: World) {
    w.started && w.running.None? && Due(w)
  }

  predicate Accepts(status: Activity, schedule: Schedule, zones: map<string, Zone>) {
    status != Completed && Validate(schedule, zones).None?
  }

  predicate Enabled(w: World, zones: map<string, Zone>, step: Step) {
    match step
    case Tick(now) => w.now <= now
    case Create(status, schedule) => w.definition.None? && Accepts(status, schedule, zones)
    case Update(status, schedule) =>
      w.definition.Some? && w.definition.value.status != Completed && Accepts(status, schedule, zones)
    case Delete => w.definition.Some? && w.running.None?
    case Poll => CanQueue(w)
    case PollThenCrash => CanQueue(w)
    case PollThenFail => CanQueue(w)
    case RunManually => w.started && w.running.None? && w.definition.Some?
    case BeginTurn => w.running.Some? && w.running.value.run < |w.runs| && w.runs[w.running.value.run].status == Waiting
    case Settle(outcome) =>
      w.running.Some? && w.running.value.run < |w.runs| && !Final(w.runs[w.running.value.run].status) && Final(outcome)
    case CloseOut => w.running.Some? && w.running.value.run < |w.runs| && Final(w.runs[w.running.value.run].status)
    case Crash => w.started
    case Stop => w.started && w.running.None?
    case Start => !w.started
    case StartThenCrash(saved) => !w.started && saved <= |w.runs| + 1
  }

  // The first due time of a new or re-armed definition.
  ghost function FirstDue(schedule: Schedule, zones: map<string, Zone>, now: int): Option<int>
    requires AllRegular(zones)
  {
    if schedule.kind == "at" then schedule.at else NextOf(schedule, zones, now, None)
  }

  predicate CarriesOver(existing: Definition, status: Activity, schedule: Schedule) {
    status == Active && existing.status == Active && HasSameOccurrences(schedule, existing.schedule)
  }

  ghost function Edited(existing: Definition, status: Activity, schedule: Schedule, zones: map<string, Zone>,
                        now: int): Definition
    requires AllRegular(zones)
  {
    var kept := CarriesOver(existing, status, schedule);
    Definition(existing.version + 1, if kept then existing.era else existing.era + 1, status, schedule,
               if status != Active then None else if kept then existing.nextRunAt else FirstDue(schedule, zones, now))
  }

  // An attempt is started once everything its claim has to write is written.
  function Claim(w: World, manual: bool, launched: bool): Run
    requires w.definition.Some?
  {
    var d := w.definition.value;
    Run(d.version, d.era, w.now, if manual then None else d.nextRunAt, Waiting, launched)
  }

  ghost function Advanced(d: Definition, zones: map<string, Zone>, now: int): Definition
    requires AllRegular(zones)
  {
    d.(nextRunAt := NextOf(d.schedule, zones, now, d.nextRunAt))
  }

  function CompleteOneShot(d: Definition): Definition {
    d.(status := Completed, version := d.version + 1, nextRunAt := None)
  }

  predicate SpentOneShot(d: Definition) {
    d.status == Active && d.schedule.kind == "at" && d.nextRunAt.None?
  }

  predicate Overtaken(d: Definition, run: Run) {
    run.scheduledAt.Some? && run.version == d.version && d.nextRunAt.Some? && d.nextRunAt.value <= run.scheduledAt.value
  }

  // Recovery of the due time: every run file is looked at, newest first.
  ghost function Recovered(d: Definition, zones: map<string, Zone>, runs: seq<Run>, now: int): Definition
    requires AllRegular(zones)
    decreases |runs|
  {
    if runs == [] then d
    else
      var run := runs[|runs| - 1];
      var next := if Overtaken(d, run) then d.(nextRunAt := NextOf(d.schedule, zones, now, run.scheduledAt)) else d;
      Recovered(next, zones, runs[..|runs| - 1], now)
  }

  function Interrupt(run: Run): Run {
    if Final(run.status) then run else run.(status := Interrupted)
  }

  function InterruptAll(runs: seq<Run>): (r: seq<Run>)
    ensures |r| == |runs|
    ensures forall i :: 0 <= i < |r| ==> r[i] == Interrupt(runs[i])
  {
    seq(|runs|, i requires 0 <= i < |runs| => Interrupt(runs[i]))
  }

  ghost function Started(w: World, zones: map<string, Zone>): World
    requires AllRegular(zones)
  {
    var up := w.(started := true, running := None);
    if w.definition.None? then up
    else
      var recovered := Recovered(w.definition.value, zones, w.runs, w.now);
      up.(definition := Some(if SpentOneShot(recovered) then CompleteOneShot(recovered) else recovered),
          runs := InterruptAll(w.runs))
  }

  // The newest run files saved as interrupted, the others as they were.
  function InterruptNewest(runs: seq<Run>, saved: nat): (r: seq<Run>)
    ensures |r| == |runs|
    ensures forall i :: 0 <= i < |r| ==> r[i] == if i + saved < |runs| then runs[i] else Interrupt(runs[i])
  {
    seq(|runs|, i requires 0 <= i < |runs| => if i + saved < |runs| then runs[i] else Interrupt(runs[i]))
  }

  // A crash inside recovery: some run files are saved, newest first, and the definition only after all.
  ghost function PartlyStarted(w: World, zones: map<string, Zone>, saved: nat): World
    requires AllRegular(zones)
  {
    if w.definition.None? then w
    else if saved > |w.runs| then Started(w, zones).(started := false)
    else w.(runs := InterruptNewest(w.runs, saved), running := None)
  }

  ghost function Apply(w: World, zones: map<string, Zone>, step: Step): World
    requires AllRegular(zones) && Enabled(w, zones, step)
  {
    match step
    case Tick(now) => w.(now := now)
    case Create(status, schedule) =>
      w.(definition := Some(Definition(1, 0, status, schedule,
                                       if status == Active then FirstDue(schedule, zones, w.now) else None)))
    case Update(status, schedule) => w.(definition := Some(Edited(w.definition.value, status, schedule, zones, w.now)))
    case Delete => w.(definition := None, runs := [])
    case Poll =>
      w.(runs := w.runs + [Claim(w, false, true)],
         definition := Some(Advanced(w.definition.value, zones, w.now)),
         running := Some(Attempt(w.definition.value, false, |w.runs|)))
    case PollThenCrash => w.(runs := w.runs + [Claim(w, false, false)], started := false)
    case PollThenFail => w.(runs := w.runs + [Claim(w, false, false)])
    case RunManually =>
      w.(runs := w.runs + [Claim(w, true, true)], running := Some(Attempt(w.definition.value, true, |w.runs|)))
    case BeginTurn =>
      var i := w.running.value.run;
      w.(runs := w.runs[i := w.runs[i].(status := Running)])
    case Settle(outcome) =>
      var i := w.running.value.run;
      w.(runs := w.runs[i := w.runs[i].(status := outcome)])
    case CloseOut =>
      var attempt := w.running.value;
      var done := w.(running := None);
      if !attempt.manual && attempt.definition.schedule.kind == "at" && w.definition.Some?
         && w.definition.value.status == Active && w.definition.value.nextRunAt.None?
         && HasSameOccurrences(w.definition.value.schedule, attempt.definition.schedule)
      then done.(definition := Some(CompleteOneShot(w.definition.value)))
      else done
    case Crash => w.(started := false, running := None)
    case Stop => w.(started := false)
    case Start => Started(w, zones)
    case StartThenCrash(saved) => PartlyStarted(w, zones, saved)
  }

  ghost predicate Possible(w: World, zones: map<string, Zone>, trace: seq<Step>)
    requires AllRegular(zones)
    decreases |trace|
  {
    trace == [] || (Enabled(w, zones, trace[0]) && Possible(Apply(w, zones, trace[0]), zones, trace[1..]))
  }

  ghost function After(w: World, zones: map<string, Zone>, trace: seq<Step>): World
    requires AllRegular(zones) && Possible(w, zones, trace)
    decreases |trace|
  {
    if trace == [] then w else After(Apply(w, zones, trace[0]), zones, trace[1..])
  }

  // No edit is made while the host is down, between a crash and the recovery from it.
  ghost predicate EditsWhileUp(w: World, zones: map<string, Zone>, trace: seq<Step>)
    requires AllRegular(zones) && Possible(w, zones, trace)
    decreases |trace|
  {
    trace == [] ||
    ((trace[0].Update? ==> w.started) && EditsWhileUp(Apply(w, zones, trace[0]), zones, trace[1..]))
  }

  predicate NoFailedSave(trace: seq<Step>) {
    forall i :: 0 <= i < |trace| ==> !trace[i].PollThenFail?
  }

  predicate Fresh(w: World) {
    w.definition.None? && w.runs == [] && w.running.None?
  }

  // ---------------------------------------------------------------- the invariant

  // Runs are compared within one definition version or, more coarsely, within one era.
  datatype Scope = PerVersion | PerEra

  function RunKey(run: Run, scope: Scope): nat {
    if scope == PerVersion then run.version else run.era
  }

  function KeyOf(d: Definition, scope: Scope): nat {
    if scope == PerVersion then d.version else d.era
  }

  // A due time that is still on a claim already made, because the second write of its dispatch was lost:
  // a claim of the current version, which a restart makes up for, or of an earlier one, which it does not.
  datatype LeftOver = NothingLeft | OfThisVersion | OfEarlierVersion

  function AfterRecovery(left: LeftOver): LeftOver {
    if left.OfThisVersion? then NothingLeft else left
  }

  // What a step leaves over: a lost second write leaves its claim, recovery and every change of the due time
  // clear it, and an edit that carries the due time over makes it one of an earlier version.
  function LeftAfter(w: World, step: Step, scope: Scope, left: LeftOver): LeftOver {
    match step
    case PollThenCrash | PollThenFail => OfThisVersion
    case Poll | Create(_, _) | Delete => NothingLeft
    case Update(status, schedule) =>
      if scope == PerEra && !left.NothingLeft?
         && w.definition.Some? && CarriesOver(w.definition.value, status, schedule)
      then OfEarlierVersion else NothingLeft
    case Start => AfterRecovery(left)
    case StartThenCrash(saved) => if saved > |w.runs| then AfterRecovery(left) else left
    case _ => left
  }

  predicate ClaimsDue(step: Step) {
    step.Poll? || step.PollThenCrash? || step.PollThenFail?
  }

  // Somewhere in the trace a poll is taken while a claim is left over.
  ghost predicate ClaimsAgain(w: World, zones: map<string, Zone>, trace: seq<Step>, scope: Scope, left: LeftOver)
    requires AllRegular(zones) && Possible(w, zones, trace)
    decreases |trace|
  {
    trace != []
    && ((ClaimsDue(trace[0]) && !left.NothingLeft?)
        || ClaimsAgain(Apply(w, zones, trace[0]), zones, trace[1..], scope, LeftAfter(w, trace[0], scope, left)))
  }

  predicate InOrder(earlier: Run, later: Run, scope: Scope) {
    earlier.scheduledAt.Some? && later.scheduledAt.Some? && RunKey(earlier, scope) == RunKey(later, scope) ==>
      earlier.createdAt < later.scheduledAt.value
  }

  predicate AllInOrder(runs: seq<Run>, scope: Scope) {
    forall i, j :: 0 <= i < j < |runs| ==> InOrder(runs[i], runs[j], scope)
  }

  // At every moment of the trace.
  ghost predicate AlwaysInOrder(w: World, zones: map<string, Zone>, trace: seq<Step>, scope: Scope)
    requires AllRegular(zones) && Possible(w, zones, trace)
    decreases |trace|
  {
    AllInOrder(w.runs, scope)
    && (trace == [] || AlwaysInOrder(Apply(w, zones, trace[0]), zones, trace[1..], scope))
  }

  predicate SameOccurrence(a: Run, b: Run, scope: Scope) {
    a.scheduledAt.Some? && a.scheduledAt == b.scheduledAt && RunKey(a, scope) == RunKey(b, scope)
  }

  ghost predicate ClaimedTwice(runs: seq<Run>, scope: Scope) {
    exists i, j :: 0 <= i < j < |runs| && SameOccurrence(runs[i], runs[j], scope)
  }

  // At some moment of the trace.
  ghost predicate EverClaimedTwice(w: World, zones: map<string, Zone>, trace: seq<Step>, scope: Scope)
    requires AllRegular(zones) && Possible(w, zones, trace)
    decreases |trace|
  {
    ClaimedTwice(w.runs, scope)
    || (trace != [] && EverClaimedTwice(Apply(w, zones, trace[0]), zones, trace[1..], scope))
  }

  // The due time is still on the claim of this run.
  predicate LeftBy(d: Definition, run: Run, scope: Scope, left: LeftOver) {
    d.nextRunAt.Some? && run.scheduledAt == d.nextRunAt && RunKey(run, scope) == KeyOf(d, scope)
    && ((left.OfThisVersion? && run.version == d.version) || (left.OfEarlierVersion? && run.version < d.version))
  }

  // The due time lies past the claim of a run already made, or the claim is left over.
  predicate Behind(d: Definition, run: Run, scope: Scope, left: LeftOver) {
    run.scheduledAt.Some? && RunKey(run, scope) == KeyOf(d, scope) && d.nextRunAt.Some? ==>
      d.nextRunAt.value > run.createdAt || LeftBy(d, run, scope, left)
  }

  predicate Known(d: Definition, run: Run, now: int) {
    run.createdAt <= now && run.version <= d.version && run.era <= d.era
    && (run.version == d.version ==> run.era == d.era)
    && (run.scheduledAt.Some? ==> run.scheduledAt.value <= run.createdAt)
  }

  predicate AllBehind(d: Definition, runs: seq<Run>, scope: Scope, left: LeftOver) {
    forall i :: 0 <= i < |runs| ==> Behind(d, runs[i], scope, left)
  }

  predicate AllKnown(d: Definition, runs: seq<Run>, now: int) {
    forall i :: 0 <= i < |runs| ==> Known(d, runs[i], now)
  }

  // What the trace says is left over is there.
  ghost predicate Fits(d: Definition, runs: seq<Run>, now: int, scope: Scope, left: LeftOver) {
    AllKnown(d, runs, now) && AllBehind(d, runs, scope, left)
    && (!left.NothingLeft? ==> exists i :: 0 <= i < |runs| && LeftBy(d, runs[i], scope, left))
  }

  ghost predicate Inv(w: World, scope: Scope, left: LeftOver) {
    && AllInOrder(w.runs, scope)
    && (w.definition.None? ==> w.runs == [] && left.NothingLeft?)
    && (w.definition.Some? ==> Fits(w.definition.value, w.runs, w.now, scope, left))
  }

  // A due time past the present is past every claim.
  lemma FutureFits(d: Definition, runs: seq<Run>, now: int, scope: Scope)
    requires AllKnown(d, runs, now)
    requires d.nextRunAt.Some? ==> d.nextRunAt.value > now
    ensures Fits(d, runs, now, scope, NothingLeft)
  {
    forall i | 0 <= i < |runs|
      ensures Behind(d, runs[i], scope, NothingLeft)
    {
      assert Known(d, runs[i], now);
    }
  }

  // Only the due time changed.
  lemma StillKnown(d: Definition, next: Definition, runs: seq<Run>, now: int)
    requires AllKnown(d, runs, now) && next == d.(nextRunAt := next.nextRunAt)
    ensures AllKnown(next, runs, now)
  {
    forall i | 0 <= i < |runs|
      ensures Known(next, runs[i], now)
    {
      assert Known(d, runs[i], now);
    }
  }

  // Once the due time is past the present, no older run file moves it.
  lemma {:induction false} FutureStays(d: Definition, zones: map<string, Zone>, runs: seq<Run>, now: int)
    requires AllRegular(zones) && AllKnown(d, runs, now)
    requires d.nextRunAt.Some? ==> d.nextRunAt.value > now
    ensures Recovered(d, zones, runs, now) == d
    decreases |runs|
  {
    if runs != [] {
      assert Known(d, runs[|runs| - 1], now);
      FutureStays(d, zones, runs[..|runs| - 1], now);
    }
  }

  // Recovery leaves the due time alone or moves it past the present.
  lemma {:induction false} RecoveryMovesOn(d: Definition, zones: map<string, Zone>, runs: seq<Run>, now: int)
    requires AllRegular(zones)
    ensures var r := Recovered(d, zones, runs, now);
            r == d.(nextRunAt := r.nextRunAt)
            && (r.nextRunAt == d.nextRunAt || (r.nextRunAt.Some? ==> r.nextRunAt.value > now))
    decreases |runs|
  {
    if runs != [] {
      var run := runs[|runs| - 1];
      var next := if Overtaken(d, run) then d.(nextRunAt := NextOf(d.schedule, zones, now, run.scheduledAt)) else d;
      RecoveryMovesOn(next, zones, runs[..|runs| - 1], now);
    }
  }

  // Recovering what has been recovered changes nothing.
  lemma {:induction false} RecoveredIsFinal(d: Definition, zones: map<string, Zone>, runs: seq<Run>, all: seq<Run>,
                                            now: int)
    requires AllRegular(zones) && AllKnown(d, all, now)
    requires |runs| <= |all| && runs == all[..|runs|]
    requires forall i :: |runs| <= i < |all| ==> !Overtaken(d, all[i])
    ensures forall i :: 0 <= i < |all| ==> !Overtaken(Recovered(d, zones, runs, now), all[i])
    decreases |runs|
  {
    if runs != [] {
      var run, front := runs[|runs| - 1], runs[..|runs| - 1];
      assert run == all[|runs| - 1] && front == all[..|front|];
      if Overtaken(d, run) {
        var next := d.(nextRunAt := NextOf(d.schedule, zones, now, run.scheduledAt));
        forall i | 0 <= i < |all|
          ensures Known(next, all[i], now) && !Overtaken(next, all[i])
        {
          assert Known(d, all[i], now);
        }
        FutureStays(next, zones, front, now);
      } else {
        RecoveredIsFinal(d, zones, front, all, now);
      }
    }
  }

  lemma {:induction false} NothingToRecover(d: Definition, zones: map<string, Zone>, runs: seq<Run>, now: int)
    requires AllRegular(zones) && forall i :: 0 <= i < |runs| ==> !Overtaken(d, runs[i])
    ensures Recovered(d, zones, runs, now) == d
    decreases |runs|
  {
    if runs != [] {
      NothingToRecover(d, zones, runs[..|runs| - 1], now);
    }
  }

  // Recovery leaves a definition due only past every claim of its version; one left by an earlier version of
  // its era it does not see.
  lemma RecoveryCatchesUp(d: Definition, zones: map<string, Zone>, runs: seq<Run>, now: int, scope: Scope,
                          left: LeftOver)
    requires AllRegular(zones) && Fits(d, runs, now, scope, left)
    ensures var r := Recovered(d, zones, runs, now);
            r == d.(nextRunAt := r.nextRunAt) && Fits(r, runs, now, scope, AfterRecovery(left))
            && (left.OfEarlierVersion? ==> r == d)
  {
    if left.OfEarlierVersion? {
      forall i | 0 <= i < |runs|
        ensures !Overtaken(d, runs[i])
      {
        assert Known(d, runs[i], now) && Behind(d, runs[i], scope, left);
      }
      NothingToRecover(d, zones, runs, now);
    } else {
      var r := Recovered(d, zones, runs, now);
      RecoveryMovesOn(d, zones, runs, now);
      StillKnown(d, r, runs, now);
      assert runs == runs[..|runs|];
      RecoveredIsFinal(d, zones, runs, runs, now);
      forall i | 0 <= i < |runs|
        ensures Behind(r, runs[i], scope, NothingLeft)
      {
        assert Known(d, runs[i], now) && Behind(d, runs[i], scope, left) && !Overtaken(r, runs[i]);
      }
    }
  }

  // Changing only the statuses of runs changes nothing the invariant looks at.
  predicate SameClaims(a: seq<Run>, b: seq<Run>) {
    |a| == |b| && forall i :: 0 <= i < |a| ==> b[i] == a[i].(status := b[i].status)
  }

  lemma OrderStays(a: seq<Run>, b: seq<Run>, scope: Scope)
    requires SameClaims(a, b) && AllInOrder(a, scope)
    ensures AllInOrder(b, scope)
  {
    forall i, j | 0 <= i < j < |b|
      ensures InOrder(b[i], b[j], scope)
    {
      assert InOrder(a[i], a[j], scope);
    }
  }

  lemma FitsStays(d: Definition, a: seq<Run>, b: seq<Run>, now: int, later: int, scope: Scope, left: LeftOver)
    requires SameClaims(a, b) && now <= later && Fits(d, a, now, scope, left)
    ensures Fits(d, b, later, scope, left)
  {
    forall i | 0 <= i < |b|
      ensures Known(d, b[i], later) && Behind(d, b[i], scope, left)
    {
      assert Known(d, a[i], now) && Behind(d, a[i], scope, left);
    }
    if !left.NothingLeft? {
      var i :| 0 <= i < |a| && LeftBy(d, a[i], scope, left);
      assert LeftBy(d, b[i], scope, left);
    }
  }

  // A new version with nothing left over: the due time is gone, or is another one, or was past every claim.
  lemma BumpFits(d: Definition, next: Definition, runs: seq<Run>, now: int, scope: Scope, left: LeftOver)
    requires Fits(d, runs, now, scope, left) && next.version == d.version + 1 && d.era <= next.era
    requires next.nextRunAt.None? || scope == PerVersion || d.era < next.era
             || (next.nextRunAt == d.nextRunAt && left.NothingLeft?)
    ensures Fits(next, runs, now, scope, NothingLeft)
  {
    forall i | 0 <= i < |runs|
      ensures Known(next, runs[i], now) && Behind(next, runs[i], scope, NothingLeft)
    {
      assert Known(d, runs[i], now) && Behind(d, runs[i], scope, left);
    }
  }

  // A new version that carries a due time with a claim left over.
  lemma CarriedFits(d: Definition, next: Definition, runs: seq<Run>, now: int, left: LeftOver)
    requires Fits(d, runs, now, PerEra, left) && !left.NothingLeft?
    requires next.version == d.version + 1 && next.era == d.era && next.nextRunAt == d.nextRunAt
    ensures Fits(next, runs, now, PerEra, OfEarlierVersion)
  {
    forall i | 0 <= i < |runs|
      ensures Known(next, runs[i], now) && Behind(next, runs[i], PerEra, OfEarlierVersion)
      ensures LeftBy(d, runs[i], PerEra, left) ==> LeftBy(next, runs[i], PerEra, OfEarlierVersion)
    {
      assert Known(d, runs[i], now) && Behind(d, runs[i], PerEra, left);
    }
    var i :| 0 <= i < |runs| && LeftBy(d, runs[i], PerEra, left);
    assert LeftBy(next, runs[i], PerEra, OfEarlierVersion);
  }

  lemma EditKeepsInv(w: World, zones: map<string, Zone>, step: Step, scope: Scope, left: LeftOver)
    requires AllRegular(zones) && Inv(w, scope, left) && Enabled(w, zones, step) && step.Update?
    ensures Inv(Apply(w, zones, step), scope, LeftAfter(w, step, scope, left))
  {
    var d := w.definition.value;
    var next := Edited(d, step.status, step.schedule, zones, w.now);
    if LeftAfter(w, step, scope, left).OfEarlierVersion? {
      CarriedFits(d, next, w.runs, w.now, left);
    } else {
      BumpFits(d, next, w.runs, w.now, scope, left);
    }
  }

  lemma StartKeepsInv(w: World, zones: map<string, Zone>, scope: Scope, left: LeftOver)
    requires AllRegular(zones) && Inv(w, scope, left) && !w.started
    ensures Inv(Started(w, zones), scope, AfterRecovery(left))
  {
    if w.definition.Some? {
      var d := w.definition.value;
      RecoveryCatchesUp(d, zones, w.runs, w.now, scope, left);
      var recovered := Recovered(d, zones, w.runs, w.now);
      if SpentOneShot(recovered) {
        BumpFits(recovered, CompleteOneShot(recovered), w.runs, w.now, scope, AfterRecovery(left));
      }
      var last := Started(w, zones).definition.value;
      OrderStays(w.runs, InterruptAll(w.runs), scope);
      FitsStays(last, w.runs, InterruptAll(w.runs), w.now, w.now, scope, AfterRecovery(left));
    }
  }

  lemma PartialStartKeepsInv(w: World, zones: map<string, Zone>, saved: nat, scope: Scope, left: LeftOver)
    requires AllRegular(zones) && Inv(w, scope, left) && Enabled(w, zones, StartThenCrash(saved))
    ensures Inv(PartlyStarted(w, zones, saved), scope, LeftAfter(w, StartThenCrash(saved), scope, left))
  {
    if w.definition.Some? {
      if saved > |w.runs| {
        StartKeepsInv(w, zones, scope, left);
      } else {
        OrderStays(w.runs, InterruptNewest(w.runs, saved), scope);
        FitsStays(w.definition.value, w.runs, InterruptNewest(w.runs, saved), w.now, w.now, scope, left);
      }
    }
  }

  // A claim with nothing left over comes after every run of its key, and the due time is still on it.
  lemma ClaimFits(w: World, launched: bool, scope: Scope)
    requires Inv(w, scope, NothingLeft) && Due(w)
    ensures AllInOrder(w.runs + [Claim(w, false, launched)], scope)
    ensures Fits(w.definition.value, w.runs + [Claim(w, false, launched)], w.now, scope, OfThisVersion)
  {
    var d, claim := w.definition.value, Claim(w, false, launched);
    var runs := w.runs + [claim];
    forall i | 0 <= i < |w.runs|
      ensures InOrder(w.runs[i], claim, scope) && Known(d, runs[i], w.now) && Behind(d, runs[i], scope, OfThisVersion)
    {
      assert Known(d, w.runs[i], w.now) && Behind(d, w.runs[i], scope, NothingLeft);
    }
    assert LeftBy(d, runs[|w.runs|], scope, OfThisVersion);
  }

  lemma PollKeepsInv(w: World, zones: map<string, Zone>, step: Step, scope: Scope)
    requires AllRegular(zones) && Inv(w, scope, NothingLeft) && Enabled(w, zones, step) && ClaimsDue(step)
    ensures Inv(Apply(w, zones, step), scope, LeftAfter(w, step, scope, NothingLeft))
  {
    ClaimFits(w, step.Poll?, scope);
    if step.Poll? {
      var runs := w.runs + [Claim(w, false, true)];
      var next := Advanced(w.definition.value, zones, w.now);
      StillKnown(w.definition.value, next, runs, w.now);
      FutureFits(next, runs, w.now, scope);
    }
  }

  lemma ManualRunKeepsInv(w: World, zones: map<string, Zone>, scope: Scope, left: LeftOver)
    requires AllRegular(zones) && Inv(w, scope, left) && Enabled(w, zones, RunManually)
    ensures Inv(Apply(w, zones, RunManually), scope, left)
  {
    var d, runs := w.definition.value, w.runs + [Claim(w, true, true)];
    forall i | 0 <= i < |runs|
      ensures Known(d, runs[i], w.now) && Behind(d, runs[i], scope, left)
    {
      if i < |w.runs| {
        assert Known(d, w.runs[i], w.now) && Behind(d, w.runs[i], scope, left);
      }
    }
    if !left.NothingLeft? {
      var i :| 0 <= i < |w.runs| && LeftBy(d, w.runs[i], scope, left);
      assert LeftBy(d, runs[i], scope, left);
    }
  }

  lemma RunKeepsInv(w: World, zones: map<string, Zone>, step: Step, scope: Scope, left: LeftOver)
    requires AllRegular(zones) && Inv(w, scope, left) && Enabled(w, zones, step)
    requires step.BeginTurn? || step.Settle? || step.CloseOut? || step.Tick? || step.Crash? || step.Stop?
    ensures Inv(Apply(w, zones, step), scope, left)
  {
    var next := Apply(w, zones, step);
    if w.definition.Some? {
      if w.definition != next.definition {
        BumpFits(w.definition.value, next.definition.value, w.runs, w.now, scope, left);
      } else {
        OrderStays(w.runs, next.runs, scope);
        FitsStays(w.definition.value, w.runs, next.runs, w.now, next.now, scope, left);
      }
    }
  }

  lemma StepKeepsInv(w: World, zones: map<string, Zone>, step: Step, scope: Scope, left: LeftOver)
    requires AllRegular(zones) && Inv(w, scope, left) && Enabled(w, zones, step)
    requires ClaimsDue(step) ==> left.NothingLeft?
    ensures Inv(Apply(w, zones, step), scope, LeftAfter(w, step, scope, left))
  {
    match step {
      case Poll => PollKeepsInv(w, zones, step, scope);
      case PollThenCrash => PollKeepsInv(w, zones, step, scope);
      case PollThenFail => PollKeepsInv(w, zones, step, scope);
      case RunManually => ManualRunKeepsInv(w, zones, scope, left);
      case Start => StartKeepsInv(w, zones, scope, left);
      case StartThenCrash(saved) => PartialStartKeepsInv(w, zones, saved, scope, left);
      case Update(_, _) => EditKeepsInv(w, zones, step, scope, left);
      case Create(_, _) =>
      case Delete =>
      case _ => RunKeepsInv(w, zones, step, scope, left);
    }
  }

  lemma {:induction false} TraceKeepsInv(w: World, zones: map<string, Zone>, trace: seq<Step>, scope: Scope,
                                         left: LeftOver)
    returns (last: LeftOver)
    requires AllRegular(zones) && Inv(w, scope, left) && Possible(w, zones, trace)
    requires !ClaimsAgain(w, zones, trace, scope, left)
    ensures Inv(After(w, zones, trace), scope, last)
    decreases |trace|
  {
    last := left;
    if trace != [] {
      StepKeepsInv(w, zones, trace[0], scope, left);
      last := TraceKeepsInv(Apply(w, zones, trace[0]), zones, trace[1..], scope, LeftAfter(w, trace[0], scope, left));
    }
  }

  // ---------------------------------------------------------------- main results

  lemma InOrderMeansOnce(w: World, scope: Scope, left: LeftOver)
    requires Inv(w, scope, left)
    ensures !ClaimedTwice(w.runs, scope)
  {
    forall i, j | 0 <= i < j < |w.runs|
      ensures !SameOccurrence(w.runs[i], w.runs[j], scope)
    {
      assert InOrder(w.runs[i], w.runs[j], scope) && Known(w.definition.value, w.runs[i], w.now);
    }
  }

  // A poll takes the very occurrence that is left over.
  lemma LeftOverIsClaimedTwice(w: World, zones: map<string, Zone>, step: Step, scope: Scope, left: LeftOver)
    requires AllRegular(zones) && Inv(w, scope, left) && Enabled(w, zones, step) && ClaimsDue(step)
             && !left.NothingLeft?
    ensures ClaimedTwice(Apply(w, zones, step).runs, scope) && !AllInOrder(Apply(w, zones, step).runs, scope)
  {
    var d, runs, k := w.definition.value, Apply(w, zones, step).runs, |w.runs|;
    var i :| 0 <= i < |w.runs| && LeftBy(d, w.runs[i], scope, left);
    assert runs[i] == w.runs[i] && runs[k] == Claim(w, false, step.Poll?);
    assert Known(d, w.runs[i], w.now);
    assert SameOccurrence(runs[i], runs[k], scope) && !InOrder(runs[i], runs[k], scope);
  }

  lemma {:induction false} LeftOverDecides(w: World, zones: map<string, Zone>, trace: seq<Step>, scope: Scope,
                                           left: LeftOver)
    requires AllRegular(zones) && Inv(w, scope, left) && Possible(w, zones, trace)
    ensures EverClaimedTwice(w, zones, trace, scope) <==> ClaimsAgain(w, zones, trace, scope, left)
    ensures AlwaysInOrder(w, zones, trace, scope) <==> !ClaimsAgain(w, zones, trace, scope, left)
    decreases |trace|
  {
    InOrderMeansOnce(w, scope, left);
    if trace != [] {
      var step := trace[0];
      if ClaimsDue(step) && !left.NothingLeft? {
        LeftOverIsClaimedTwice(w, zones, step, scope, left);
      } else {
        StepKeepsInv(w, zones, step, scope, left);
        LeftOverDecides(Apply(w, zones, step), zones, trace[1..], scope, LeftAfter(w, step, scope, left));
      }
    }
  }

  // Over whole runs, per version as per era: an occurrence is claimed twice if and only if a poll is taken
  // while a claim is left over, and otherwise the claims are in order at every moment.
  lemma ClaimedTwiceIffLeftOver(w: World, zones: map<string, Zone>, trace: seq<Step>, scope: Scope)
    requires AllRegular(zones) && Fresh(w) && Possible(w, zones, trace)
    ensures EverClaimedTwice(w, zones, trace, scope) <==> ClaimsAgain(w, zones, trace, scope, NothingLeft)
    ensures AlwaysInOrder(w, zones, trace, scope) <==> !ClaimsAgain(w, zones, trace, scope, NothingLeft)
  {
    LeftOverDecides(w, zones, trace, scope, NothingLeft);
  }

  // Saves that do not fail while the host lives, and edits that wait for recovery, leave nothing to claim again.
  lemma {:induction false} OrderlyRunsDoNotClaimAgain(w: World, zones: map<string, Zone>, trace: seq<Step>,
                                                      scope: Scope, left: LeftOver)
    requires AllRegular(zones) && Possible(w, zones, trace) && NoFailedSave(trace)
    requires scope == PerEra ==> EditsWhileUp(w, zones, trace)
    requires left.NothingLeft? || (left.OfThisVersion? && !w.started)
    ensures !ClaimsAgain(w, zones, trace, scope, left)
    decreases |trace|
  {
    if trace != [] {
      OrderlyRunsDoNotClaimAgain(Apply(w, zones, trace[0]), zones, trace[1..], scope,
                                 LeftAfter(w, trace[0], scope, left));
    }
  }

  // Within one definition version planned times strictly increase, so none is dispatched twice, and
  // each run was planned for an instant after the previous one was claimed, so everything missed up
  // to that claim collapsed into it.
  lemma DispatchIsAtMostOnce(w: World, zones: map<string, Zone>, trace: seq<Step>, i: nat, j: nat)
    requires AllRegular(zones) && Fresh(w) && Possible(w, zones, trace)
    requires !ClaimsAgain(w, zones, trace, PerVersion, NothingLeft)
    requires i < j < |After(w, zones, trace).runs|
    requires var runs := After(w, zones, trace).runs;
             runs[i].version == runs[j].version && runs[i].scheduledAt.Some? && runs[j].scheduledAt.Some?
    ensures var runs := After(w, zones, trace).runs;
            runs[i].scheduledAt.value <= runs[i].createdAt < runs[j].scheduledAt.value <= runs[j].createdAt
  {
    var left := TraceKeepsInv(w, zones, trace, PerVersion, NothingLeft);
    var last := After(w, zones, trace);
    assert InOrder(last.runs[i], last.runs[j], PerVersion);
    assert Known(last.definition.value, last.runs[i], last.now);
    assert Known(last.definition.value, last.runs[j], last.now);
  }

  // The same across edits that carry the due time over.
  lemma EditsDoNotDispatchTwice(w: World, zones: map<string, Zone>, trace: seq<Step>, i: nat, j: nat)
    requires AllRegular(zones) && Fresh(w) && Possible(w, zones, trace)
    requires !ClaimsAgain(w, zones, trace, PerEra, NothingLeft)
    requires i < j < |After(w, zones, trace).runs|
    requires var runs := After(w, zones, trace).runs;
             runs[i].era == runs[j].era && runs[i].scheduledAt.Some? && runs[j].scheduledAt.Some?
    ensures var runs := After(w, zones, trace).runs;
            runs[i].scheduledAt.value <= runs[i].createdAt < runs[j].scheduledAt.value <= runs[j].createdAt
  {
    var left := TraceKeepsInv(w, zones, trace, PerEra, NothingLeft);
    var last := After(w, zones, trace);
    assert InOrder(last.runs[i], last.runs[j], PerEra);
    assert Known(last.definition.value, last.runs[i], last.now);
    assert Known(last.definition.value, last.runs[j], last.now);
  }

  // ---------------------------------------------------------------- no occurrence starts twice

  predicate StartedClaim(run: Run) {
    run.launched && run.scheduledAt.Some?
  }

  // The due time lies past the claim of every run that was started, on disk as in memory.
  predicate PastStarts(d: Definition, run: Run, scope: Scope) {
    StartedClaim(run) && RunKey(run, scope) == KeyOf(d, scope) && d.nextRunAt.Some? ==>
      d.nextRunAt.value > run.createdAt
  }

  predicate StartsInOrder(earlier: Run, later: Run, scope: Scope) {
    StartedClaim(earlier) && StartedClaim(later) && RunKey(earlier, scope) == RunKey(later, scope) ==>
      earlier.createdAt < later.scheduledAt.value
  }

  predicate StartInv(w: World, scope: Scope) {
    && (forall i, j :: 0 <= i < j < |w.runs| ==> StartsInOrder(w.runs[i], w.runs[j], scope))
    && (w.definition.None? ==> w.runs == [])
    && (w.definition.Some? ==>
          AllKnown(w.definition.value, w.runs, w.now)
          && forall i :: 0 <= i < |w.runs| ==> PastStarts(w.definition.value, w.runs[i], scope))
  }

  // Only the due time, the version and the statuses change, the due time to one past the present if at all.
  predicate MovesOn(w: World, next: World) {
    w.now <= next.now && SameClaims(w.runs, next.runs)
    && w.definition.Some? && next.definition.Some?
    && var d, d' := w.definition.value, next.definition.value;
    d.version <= d'.version && d.era <= d'.era && (d.version == d'.version ==> d.era == d'.era)
    && (d'.nextRunAt.Some? ==>
          d'.nextRunAt == d.nextRunAt || d'.nextRunAt.value > w.now || (d.version < d'.version && d.era < d'.era))
  }

  lemma MovingOnKeepsStartInv(w: World, next: World, scope: Scope)
    requires StartInv(w, scope) && MovesOn(w, next)
    ensures StartInv(next, scope)
  {
    forall i | 0 <= i < |next.runs|
      ensures Known(next.definition.value, next.runs[i], next.now)
              && PastStarts(next.definition.value, next.runs[i], scope)
    {
      assert Known(w.definition.value, w.runs[i], w.now) && PastStarts(w.definition.value, w.runs[i], scope);
    }
    forall i, j | 0 <= i < j < |next.runs|
      ensures StartsInOrder(next.runs[i], next.runs[j], scope)
    {
      assert StartsInOrder(w.runs[i], w.runs[j], scope);
    }
  }

  // A claim by itself: nothing was started past the due time it takes.
  lemma ClaimKeepsStartInv(w: World, manual: bool, launched: bool, scope: Scope)
    requires StartInv(w, scope) && w.definition.Some? && (!manual ==> Due(w)) && (manual || !launched)
    ensures StartInv(w.(runs := w.runs + [Claim(w, manual, launched)]), scope)
  {
  }

  lemma PollKeepsStartInv(w: World, zones: map<string, Zone>, scope: Scope)
    requires AllRegular(zones) && StartInv(w, scope) && Enabled(w, zones, Poll)
    ensures StartInv(Apply(w, zones, Poll), scope)
  {
    var next := Apply(w, zones, Poll);
    var d, d', claim := w.definition.value, next.definition.value, Claim(w, false, true);
    forall i | 0 <= i < |next.runs|
      ensures Known(d', next.runs[i], w.now) && PastStarts(d', next.runs[i], scope)
      ensures i < |w.runs| ==> StartsInOrder(next.runs[i], claim, scope)
    {
      if i < |w.runs| {
        assert Known(d, w.runs[i], w.now) && PastStarts(d, w.runs[i], scope);
      }
    }
    forall i, j | 0 <= i < j < |next.runs|
      ensures StartsInOrder(next.runs[i], next.runs[j], scope)
    {
      if j < |w.runs| {
        assert StartsInOrder(w.runs[i], w.runs[j], scope);
      }
    }
  }

  lemma StepMovesOn(w: World, zones: map<string, Zone>, step: Step)
    requires AllRegular(zones) && Enabled(w, zones, step) && w.definition.Some?
    requires !step.Delete? && !step.Poll? && !step.PollThenCrash? && !step.PollThenFail? && !step.RunManually?
    ensures MovesOn(w, Apply(w, zones, step))
  {
    if step.Start? || step.StartThenCrash? {
      RecoveryMovesOn(w.definition.value, zones, w.runs, w.now);
    }
  }

  lemma StepKeepsStartInv(w: World, zones: map<string, Zone>, step: Step, scope: Scope)
    requires AllRegular(zones) && StartInv(w, scope) && Enabled(w, zones, step)
    ensures StartInv(Apply(w, zones, step), scope)
  {
    if step.Poll? {
      PollKeepsStartInv(w, zones, scope);
    } else if step.PollThenCrash? || step.PollThenFail? || step.RunManually? {
      ClaimKeepsStartInv(w, step.RunManually?, step.RunManually?, scope);
    } else if w.definition.Some? && !step.Delete? {
      StepMovesOn(w, zones, step);
      MovingOnKeepsStartInv(w, Apply(w, zones, step), scope);
    }
  }

  lemma {:induction false} TraceKeepsStartInv(w: World, zones: map<string, Zone>, trace: seq<Step>, scope: Scope)
    requires AllRegular(zones) && StartInv(w, scope) && Possible(w, zones, trace)
    ensures StartInv(After(w, zones, trace), scope)
    decreases |trace|
  {
    if trace != [] {
      StepKeepsStartInv(w, zones, trace[0], scope);
      TraceKeepsStartInv(Apply(w, zones, trace[0]), zones, trace[1..], scope);
    }
  }

  // In every run, whatever saves fail, wherever the host crashes and whenever edits are made: two started
  // runs of one version, or of one era, are planned for different instants, the later one for an instant
  // after the earlier was claimed.
  lemma NoOccurrenceStartsTwice(w: World, zones: map<string, Zone>, trace: seq<Step>, scope: Scope, i: nat, j: nat)
    requires AllRegular(zones) && Fresh(w) && Possible(w, zones, trace)
    requires i < j < |After(w, zones, trace).runs|
    requires var runs := After(w, zones, trace).runs;
             StartedClaim(runs[i]) && StartedClaim(runs[j]) && RunKey(runs[i], scope) == RunKey(runs[j], scope)
    ensures var runs := After(w, zones, trace).runs;
            runs[i].scheduledAt.value <= runs[i].createdAt < runs[j].scheduledAt.value <= runs[j].createdAt
  {
    TraceKeepsStartInv(w, zones, trace, scope);
    var last := After(w, zones, trace);
    assert StartsInOrder(last.runs[i], last.runs[j], scope);
    assert Known(last.definition.value, last.runs[i], last.now);
    assert Known(last.definition.value, last.runs[j], last.now);
  }

  // ---------------------------------------------------------------- restarts

  // After a dispatch, and after a restart that recovers a claim whose second write was lost, the
  // definition is not due: nothing missed is left to run.
  lemma NothingMissedRemains(first: World, zones: map<string, Zone>, trace: seq<Step>)
    requires AllRegular(zones) && Fresh(first) && Possible(first, zones, trace)
    requires CanQueue(After(first, zones, trace))
    ensures var w := After(first, zones, trace);
            !Due(Apply(w, zones, Poll)) && !Due(Apply(Apply(w, zones, PollThenCrash), zones, Start))
  {
    TraceKeepsStartInv(first, zones, trace, PerVersion);
    LostWriteIsRecovered(After(first, zones, trace), zones);
  }

  lemma LostWriteIsRecovered(w: World, zones: map<string, Zone>)
    requires AllRegular(zones) && StartInv(w, PerVersion) && CanQueue(w)
    ensures !Due(Apply(Apply(w, zones, PollThenCrash), zones, Start))
  {
    var down := Apply(w, zones, PollThenCrash);
    var d := down.definition.value;
    var claim := down.runs[|w.runs|];
    assert down.runs[..|down.runs| - 1] == w.runs;
    var next := d.(nextRunAt := NextOf(d.schedule, zones, down.now, claim.scheduledAt));
    StillKnown(d, next, w.runs, down.now);
    FutureStays(next, zones, w.runs, down.now);
    assert Recovered(d, zones, down.runs, down.now) == next;
  }

  // The due time recovered does not depend on which run files had been saved as interrupted.
  lemma {:induction false} StatusesDoNotChangeRecovery(d: Definition, zones: map<string, Zone>, a: seq<Run>,
                                                       b: seq<Run>, now: int)
    requires AllRegular(zones) && SameClaims(a, b)
    ensures Recovered(d, zones, a, now) == Recovered(d, zones, b, now)
    decreases |a|
  {
    if a != [] {
      var run := a[|a| - 1];
      var next := if Overtaken(d, run) then d.(nextRunAt := NextOf(d.schedule, zones, now, run.scheduledAt)) else d;
      StatusesDoNotChangeRecovery(next, zones, a[..|a| - 1], b[..|b| - 1], now);
    }
  }

  lemma FinishedRecoveryIsFinal(w: World, zones: map<string, Zone>)
    requires AllRegular(zones) && StartInv(w, PerVersion) && !w.started && w.definition.Some?
    ensures Started(Started(w, zones).(started := false), zones) == Started(w, zones)
  {
    var d := w.definition.value;
    var recovered := Recovered(d, zones, w.runs, w.now);
    assert w.runs == w.runs[..|w.runs|];
    RecoveredIsFinal(d, zones, w.runs, w.runs, w.now);
    var saved := Started(w, zones).definition.value;
    assert forall i :: 0 <= i < |w.runs| ==> !Overtaken(saved, InterruptAll(w.runs)[i]) by {
      forall i | 0 <= i < |w.runs|
        ensures !Overtaken(saved, InterruptAll(w.runs)[i])
      {
        assert !Overtaken(recovered, w.runs[i]);
      }
    }
    NothingToRecover(saved, zones, InterruptAll(w.runs), w.now);
    assert InterruptAll(InterruptAll(w.runs)) == InterruptAll(w.runs);
  }

  // Wherever a crash falls inside recovery, the next recovery leaves what the first would have left.
  lemma RecoveryIsIdempotent(first: World, zones: map<string, Zone>, trace: seq<Step>, saved: nat)
    requires AllRegular(zones) && Fresh(first) && Possible(first, zones, trace)
    requires Enabled(After(first, zones, trace), zones, StartThenCrash(saved))
    ensures var w := After(first, zones, trace);
            var down := Apply(w, zones, StartThenCrash(saved));
            Enabled(down, zones, Start) && Apply(down, zones, Start) == Apply(w, zones, Start)
  {
    TraceKeepsStartInv(first, zones, trace, PerVersion);
    var w := After(first, zones, trace);
    if w.definition.Some? {
      if saved > |w.runs| {
        FinishedRecoveryIsFinal(w, zones);
      } else {
        StatusesDoNotChangeRecovery(w.definition.value, zones, w.runs, InterruptNewest(w.runs, saved), w.now);
        assert InterruptAll(InterruptNewest(w.runs, saved)) == InterruptAll(w.runs);
      }
    }
  }

  // No run file is left waiting or running by a restart.
  lemma RestartSettlesEveryRun(w: World, zones: map<string, Zone>, i: nat)
    requires AllRegular(zones) && Enabled(w, zones, Start) && w.definition.Some? && i < |w.runs|
    ensures Final(Apply(w, zones, Start).runs[i].status)
    ensures Final(w.runs[i].status) ==> Apply(w, zones, Start).runs[i] == w.runs[i]
  {
  }

  // ---------------------------------------------------------------- planned times stay on their grid

  predicate SamePhase(a: int, b: int, interval: int)
    requires interval > 0
  {
    (a - b) % interval == 0
  }

  lemma PhaseAdds(a: int, b: int, c: int, interval: int)
    requires interval > 0 && SamePhase(a, b, interval) && SamePhase(b, c, interval)
    ensures SamePhase(a, c, interval)
  {
    var p, q := (a - b) / interval, (b - c) / interval;
    MultipleHasNoRest(p + q, interval);
    assert a - c == p * interval + q * interval == (p + q) * interval;
  }

  lemma MultipleHasNoRest(k: int, interval: int)
    requires interval > 0
    ensures k * interval % interval == 0
  {
    var q, r := k * interval / interval, k * interval % interval;
    assert k * interval == q * interval + r;
    assert (k - q) * interval == r;
    if k - q > 0 {
      Scaled(1, k - q, interval);
    } else if k - q < 0 {
      Scaled(k - q, -1, interval);
    }
  }

  // An interval advances from the planned time, however late it is dispatched or recovered.
  lemma IntervalKeepsPhase(schedule: Schedule, zones: map<string, Zone>, now: int, planned: int)
    requires AllRegular(zones) && Validate(schedule, zones).None? && schedule.kind == "every"
    ensures NextOf(schedule, zones, now, Some(planned)).Some?
    ensures SamePhase(NextOf(schedule, zones, now, Some(planned)).value, planned, schedule.everyMs.value)
  {
    var interval := schedule.everyMs.value;
    EveryNextIsLeast(planned, interval, now);
    var k :| OnGrid(planned, interval, EveryNext(planned, interval, now), k);
    MultipleHasNoRest(k, interval);
  }

  predicate Every(d: Definition) {
    d.schedule.kind == "every" && d.schedule.everyMs.Some? && d.schedule.everyMs.value > 0
  }

  predicate OnPhase(time: Option<int>, anchor: int, interval: int)
    requires interval > 0
  {
    time.Some? ==> SamePhase(time.value, anchor, interval)
  }

  // All that is planned under the current schedule has the phase of `anchor`.
  predicate PhaseInv(w: World, zones: map<string, Zone>, anchor: int) {
    (w.definition.None? ==> w.runs == []) &&
    (w.definition.Some? ==>
      var d := w.definition.value;
      Validate(d.schedule, zones).None?
      && (forall i :: 0 <= i < |w.runs| ==>
            w.runs[i].version <= d.version && w.runs[i].era <= d.era
            && (w.runs[i].version == d.version ==> w.runs[i].era == d.era))
      && (Every(d) ==>
            OnPhase(d.nextRunAt, anchor, d.schedule.everyMs.value)
            && forall i :: 0 <= i < |w.runs| && w.runs[i].era == d.era ==>
                 OnPhase(w.runs[i].scheduledAt, anchor, d.schedule.everyMs.value)))
  }

  lemma AdvanceKeepsPhase(schedule: Schedule, zones: map<string, Zone>, now: int, planned: int, anchor: int)
    requires AllRegular(zones) && Validate(schedule, zones).None? && schedule.kind == "every"
    requires SamePhase(planned, anchor, schedule.everyMs.value)
    ensures OnPhase(NextOf(schedule, zones, now, Some(planned)), anchor, schedule.everyMs.value)
  {
    IntervalKeepsPhase(schedule, zones, now, planned);
    PhaseAdds(NextOf(schedule, zones, now, Some(planned)).value, planned, anchor, schedule.everyMs.value);
  }

  lemma {:induction false} RecoveryKeepsPhase(d: Definition, zones: map<string, Zone>, runs: seq<Run>, now: int,
                                              anchor: int)
    requires AllRegular(zones) && Validate(d.schedule, zones).None? && Every(d)
    requires OnPhase(d.nextRunAt, anchor, d.schedule.everyMs.value)
    requires forall i :: 0 <= i < |runs| && runs[i].version == d.version ==>
               OnPhase(runs[i].scheduledAt, anchor, d.schedule.everyMs.value)
    ensures OnPhase(Recovered(d, zones, runs, now).nextRunAt, anchor, d.schedule.everyMs.value)
    decreases |runs|
  {
    if runs != [] {
      var run := runs[|runs| - 1];
      var next := d;
      if Overtaken(d, run) {
        next := d.(nextRunAt := NextOf(d.schedule, zones, now, run.scheduledAt));
        AdvanceKeepsPhase(d.schedule, zones, now, run.scheduledAt.value, anchor);
      }
      RecoveryKeepsPhase(next, zones, runs[..|runs| - 1], now, anchor);
    }
  }

  // Where a new era begins its first due time is the anchor.
  function AnchorAfter(w: World, next: World, anchor: int): int {
    if next.definition.Some? && (w.definition.None? || w.definition.value.era < next.definition.value.era)
       && next.definition.value.nextRunAt.Some?
    then next.definition.value.nextRunAt.value else anchor
  }

  // The schedule and the claims stay, and the due time keeps the phase.
  lemma SameClaimsKeepPhase(w: World, zones: map<string, Zone>, next: World, anchor: int)
    requires PhaseInv(w, zones, anchor) && w.definition.Some? && next.definition.Some? && SameClaims(w.runs, next.runs)
    requires var d, d' := w.definition.value, next.definition.value;
             d'.schedule == d.schedule && d'.era == d.era && d.version <= d'.version
             && (Every(d) ==> OnPhase(d'.nextRunAt, anchor, d.schedule.everyMs.value))
    ensures PhaseInv(next, zones, anchor)
  {
  }

  lemma RecoveredKeepsPhase(w: World, zones: map<string, Zone>, anchor: int)
    requires AllRegular(zones) && PhaseInv(w, zones, anchor) && w.definition.Some?
    ensures var d := w.definition.value; var r := Recovered(d, zones, w.runs, w.now);
            r == d.(nextRunAt := r.nextRunAt) && (Every(d) ==> OnPhase(r.nextRunAt, anchor, d.schedule.everyMs.value))
  {
    RecoveryMovesOn(w.definition.value, zones, w.runs, w.now);
    if Every(w.definition.value) {
      RecoveryKeepsPhase(w.definition.value, zones, w.runs, w.now, anchor);
    }
  }

  lemma ClaimKeepsPhase(w: World, zones: map<string, Zone>, step: Step, anchor: int)
    requires AllRegular(zones) && PhaseInv(w, zones, anchor) && Enabled(w, zones, step)
    requires step.Poll? || step.PollThenCrash? || step.PollThenFail? || step.RunManually?
    ensures PhaseInv(Apply(w, zones, step), zones, anchor)
  {
    if step.Poll? && Every(w.definition.value) {
      var d := w.definition.value;
      AdvanceKeepsPhase(d.schedule, zones, w.now, d.nextRunAt.value, anchor);
    }
  }

  lemma EditKeepsPhase(w: World, zones: map<string, Zone>, step: Step, anchor: int)
    requires AllRegular(zones) && PhaseInv(w, zones, anchor) && Enabled(w, zones, step)
    requires step.Create? || step.Update? || step.Delete?
    ensures PhaseInv(Apply(w, zones, step), zones, AnchorAfter(w, Apply(w, zones, step), anchor))
  {
  }

  lemma StepKeepsPhase(w: World, zones: map<string, Zone>, step: Step, anchor: int)
    requires AllRegular(zones) && PhaseInv(w, zones, anchor) && Enabled(w, zones, step)
    ensures PhaseInv(Apply(w, zones, step), zones, AnchorAfter(w, Apply(w, zones, step), anchor))
  {
    if step.Create? || step.Update? || step.Delete? {
      EditKeepsPhase(w, zones, step, anchor);
    } else if step.Poll? || step.PollThenCrash? || step.PollThenFail? || step.RunManually? {
      ClaimKeepsPhase(w, zones, step, anchor);
    } else if w.definition.Some? {
      RecoveredKeepsPhase(w, zones, anchor);
      SameClaimsKeepPhase(w, zones, Apply(w, zones, step), anchor);
    }
  }

  lemma {:induction false} TraceKeepsPhase(w: World, zones: map<string, Zone>, trace: seq<Step>, anchor: int)
    returns (last: int)
    requires AllRegular(zones) && PhaseInv(w, zones, anchor) && Possible(w, zones, trace)
    ensures PhaseInv(After(w, zones, trace), zones, last)
    decreases |trace|
  {
    last := anchor;
    if trace != [] {
      StepKeepsPhase(w, zones, trace[0], anchor);
      var next := Apply(w, zones, trace[0]);
      last := TraceKeepsPhase(next, zones, trace[1..], AnchorAfter(w, next, anchor));
    }
  }

  lemma PhaseTurns(a: int, b: int, interval: int)
    requires interval > 0 && SamePhase(a, b, interval)
    ensures SamePhase(b, a, interval)
  {
    var q := (a - b) / interval;
    assert a - b == q * interval && b - a == (-q) * interval;
    MultipleHasNoRest(-q, interval);
  }

  // Over any run of the scheduler, late dispatches, crashes, recoveries and edits that keep the interval
  // included, all instants planned under an interval lie whole intervals apart.
  lemma PlannedTimesShareAPhase(w: World, zones: map<string, Zone>, trace: seq<Step>, i: nat, j: nat)
    requires AllRegular(zones) && Fresh(w) && Possible(w, zones, trace)
    requires var last := After(w, zones, trace);
             last.definition.Some? && last.definition.value.schedule.kind == "every"
             && i < |last.runs| && j < |last.runs|
             && last.runs[i].era == last.runs[j].era == last.definition.value.era
             && last.runs[i].scheduledAt.Some? && last.runs[j].scheduledAt.Some?
    ensures var last := After(w, zones, trace);
            var d := last.definition.value;
            Every(d)
            && SamePhase(last.runs[i].scheduledAt.value, last.runs[j].scheduledAt.value, d.schedule.everyMs.value)
            && (d.nextRunAt.Some? ==>
                  SamePhase(d.nextRunAt.value, last.runs[i].scheduledAt.value, d.schedule.everyMs.value))
  {
    var anchor := TraceKeepsPhase(w, zones, trace, 0);
    var last := After(w, zones, trace);
    var d := last.definition.value;
    var interval := d.schedule.everyMs.value;
    PhaseTurns(last.runs[j].scheduledAt.value, anchor, interval);
    PhaseAdds(last.runs[i].scheduledAt.value, anchor, last.runs[j].scheduledAt.value, interval);
    if d.nextRunAt.Some? {
      PhaseTurns(last.runs[i].scheduledAt.value, anchor, interval);
      PhaseAdds(d.nextRunAt.value, anchor, last.runs[i].scheduledAt.value, interval);
    }
  }

  // ---------------------------------------------------------------- where the code falls short

  // If saving the advanced definition fails and the process lives on, the next poll claims the same
  // occurrence of the same version again.  Only the second claim is started.
  lemma FailedSaveClaimsTwice(w: World, zones: map<string, Zone>)
    requires AllRegular(zones) && CanQueue(w)
    ensures Enabled(Apply(w, zones, PollThenFail), zones, Poll)
    ensures var runs := Apply(Apply(w, zones, PollThenFail), zones, Poll).runs;
            |runs| == |w.runs| + 2 && runs[|w.runs|].scheduledAt.Some?
            && runs[|w.runs|] == runs[|w.runs| + 1].(launched := false) && runs[|w.runs| + 1].launched
  {
  }

  // An edit that keeps the schedule, made after a crash but before recovery, carries the due time of
  // a claimed occurrence into a version recovery does not compare with: it is claimed again.  The first
  // claim was never started.
  lemma EditBeforeRecoveryClaimsAgain(first: World, zones: map<string, Zone>, trace: seq<Step>)
    requires AllRegular(zones) && Fresh(first) && Possible(first, zones, trace)
    requires var w := After(first, zones, trace); CanQueue(w) && Accepts(Active, w.definition.value.schedule, zones)
    ensures var w := After(first, zones, trace);
            var down := Apply(w, zones, PollThenCrash);
            Enabled(down, zones, Update(Active, w.definition.value.schedule)) &&
            var edited := Apply(down, zones, Update(Active, w.definition.value.schedule));
            Enabled(edited, zones, Start) &&
            var up := Apply(edited, zones, Start);
            CanQueue(up) && Claim(up, false, true).scheduledAt == Claim(w, false, false).scheduledAt
            && |up.runs| == |w.runs| + 1 && up.runs[|w.runs|].era == up.definition.value.era
            && !up.runs[|w.runs|].launched
  {
    TraceKeepsStartInv(first, zones, trace, PerVersion);
    var w := After(first, zones, trace);
    var down := Apply(w, zones, PollThenCrash);
    StepKeepsStartInv(w, zones, PollThenCrash, PerVersion);
    assert HasSameOccurrences(w.definition.value.schedule, w.definition.value.schedule);
    var edited := Apply(down, zones, Update(Active, w.definition.value.schedule));
    OldVersionsAreIgnored(edited.definition.value, zones, edited.runs, edited.now, down.definition.value);
  }

  lemma {:induction false} OldVersionsAreIgnored(d: Definition, zones: map<string, Zone>, runs: seq<Run>, now: int,
                                                 older: Definition)
    requires AllRegular(zones) && AllKnown(older, runs, now) && older.version < d.version
    ensures Recovered(d, zones, runs, now) == d
    decreases |runs|
  {
    if runs != [] {
      assert Known(older, runs[|runs| - 1], now);
      OldVersionsAreIgnored(d, zones, runs[..|runs| - 1], now, older);
    }
  }

  // ---------------------------------------------------------------- the service

  datatype Queued = Claimed(run: Run) | AlreadyRunning(latest: Run) | Refused(code: string)

  class Service {
    const zones: map<string, Zone>
    var definition: Option<Definition>
    var runs: seq<Run>
    var running: Option<Attempt>
    var started: bool

    constructor (zones: map<string, Zone>)
      ensures this.zones == zones && Fresh(Snapshot(0)) && !started
    {
      this.zones := zones;
      definition, runs, running, started := None, [], None, false;
    }

    ghost function Snapshot(now: int): World
      reads this
    {
      World(now, started, definition, runs, running)
    }

    ghost predicate Valid()
      reads this
    {
      AllRegular(zones)
      && (definition.Some? ==> Validate(definition.value.schedule, zones).None?)
      && (running.Some? ==> runs != [])
    }

    // The due time after `after`; a valid schedule never faults.
    method ComputeNextOf(schedule: Schedule, after: int, previous: Option<int>) returns (r: Option<int>)
      requires AllRegular(zones)
      ensures r == NextOf(schedule, zones, after, previous)
    {
      var next := ComputeNext(schedule, zones, after, previous);
      r := if next.At? then Some(next.instant) else None;
    }

    // Queues an attempt: the run is written first, then the advanced definition.
    method Queue(manual: bool, now: int) returns (r: Queued)
      requires Valid()
      modifies `definition, `runs, `running
      ensures r.Claimed? <==> old(Enabled(Snapshot(now), zones, if manual then RunManually else Poll))
      ensures r.Claimed? ==>
                Snapshot(now) == old(Apply(Snapshot(now), zones, if manual then RunManually else Poll))
                && r.run == runs[|runs| - 1]
      ensures !r.Claimed? ==> Snapshot(now) == old(Snapshot(now))
      ensures r.AlreadyRunning? <==> old(definition.Some? && started && running.Some? && !manual)
    {
      if definition.None? {
        return Refused("automation.notFound");
      }
      if !started {
        return Refused("automation.hostOffline");
      }
      if running.Some? {
        if manual {
          return Refused("automation.alreadyRunning");
        }
        return AlreadyRunning(runs[|runs| - 1]);
      }
      var d := definition.value;
      if !manual && (d.status != Active || d.nextRunAt.None? || d.nextRunAt.value > now) {
        return Refused("automation.notDue");
      }
      var run := Run(d.version, d.era, now, if manual then None else d.nextRunAt, Waiting, true);
      runs := runs + [run];
      if !manual {
        var next := ComputeNextOf(d.schedule, now, d.nextRunAt);
        definition := Some(d.(nextRunAt := next));
      }
      running := Some(Attempt(d, manual, |runs| - 1));
      r := Claimed(run);
    }

    method Create(status: Activity, schedule: Schedule, now: int) returns (ok: bool)
      requires Valid() && definition.None?
      modifies `definition
      ensures ok <==> Accepts(status, schedule, zones)
      ensures ok ==> Valid() && Snapshot(now) == old(Apply(Snapshot(now), zones, Step.Create(status, schedule)))
      ensures !ok ==> definition.None?
    {
      if status == Completed || Validate(schedule, zones).Some? {
        return false;
      }
      var next: Option<int> := None;
      if status == Active {
        if schedule.kind == "at" {
          next := schedule.at;
        } else {
          next := ComputeNextOf(schedule, now, None);
        }
      }
      definition := Some(Definition(1, 0, status, schedule, next));
      ok := true;
    }

    // An edit checks the version it was based on; a completed automation is read-only.
    method Update(expectedVersion: nat, status: Activity, schedule: Schedule, now: int) returns (ok: bool)
      requires Valid() && definition.Some?
      modifies `definition
      ensures ok <==> old(definition.value.version) == expectedVersion
                      && old(Enabled(Snapshot(now), zones, Step.Update(status, schedule)))
      ensures ok ==> Valid() && Snapshot(now) == old(Apply(Snapshot(now), zones, Step.Update(status, schedule)))
      ensures !ok ==> definition == old(definition)
    {
      var existing := definition.value;
      if existing.version != expectedVersion || existing.status == Completed || status == Completed
         || Validate(schedule, zones).Some? {
        return false;
      }
      var next: Option<int> := None;
      var kept := CarriesOver(existing, status, schedule);
      if status == Active {
        if kept {
          next := existing.nextRunAt;
        } else if schedule.kind == "at" {
          next := schedule.at;
        } else {
          next := ComputeNextOf(schedule, now, None);
        }
      }
      var era := if kept then existing.era else existing.era + 1;
      definition := Some(Definition(existing.version + 1, era, status, schedule, next));
      ok := true;
    }

    // The end of an attempt: a one-shot whose only occurrence is spent is completed.
    method CloseOut(now: int)
      requires Valid() && Enabled(Snapshot(now), zones, Step.CloseOut)
      modifies `definition, `running
      ensures Snapshot(now) == old(Apply(Snapshot(now), zones, Step.CloseOut))
    {
      var attempt := running.value;
      if !attempt.manual && attempt.definition.schedule.kind == "at" && definition.Some? {
        var current := definition.value;
        if current.status == Active && current.nextRunAt.None?
          && HasSameOccurrences(current.schedule, attempt.definition.schedule) {
          definition := Some(CompleteOneShot(current));
        }
      }
      running := None;
    }

    // Start-up recovery: one pass over the run files, newest first.
    method Start(now: int) returns (ok: bool)
      requires Valid() && (!started ==> running.None?)
      modifies `definition, `runs, `started
      ensures ok == !old(started)
      ensures ok ==> Snapshot(now) == Started(old(Snapshot(now)), zones)
      ensures !ok ==> Snapshot(now) == old(Snapshot(now))
    {
      if started {
        return false;
      }
      if definition.Some? {
        var recovered := definition.value;
        ghost var was, whole := runs, Recovered(recovered, zones, runs, now);
        var i := |runs|;
        assert was[..i] == was;
        while i > 0
          invariant 0 <= i <= |runs| == |was|
          invariant started == old(started) && definition == old(definition)
          invariant Recovered(recovered, zones, was[..i], now) == whole
          invariant forall k :: 0 <= k < i ==> runs[k] == was[k]
          invariant forall k :: i <= k < |runs| ==> runs[k] == Interrupt(was[k])
        {
          i := i - 1;
          var run := runs[i];
          assert was[..i + 1][..i] == was[..i];
          if Overtaken(recovered, run) {
            var next := ComputeNextOf(recovered.schedule, now, run.scheduledAt);
            recovered := recovered.(nextRunAt := next);
          }
          if run.status == Running || run.status == Waiting {
            runs := runs[i := run.(status := Interrupted)];
          }
        }
        if SpentOneShot(recovered) {
          recovered := CompleteOneShot(recovered);
        }
        definition := Some(recovered);
        assert runs == InterruptAll(was);
      }
      started := true;
      ok := true;
    }
  }
}
