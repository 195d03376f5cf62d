/**
 * The completion notice of a workflow run: a state file, the parent thread's queue and turns, and
 * the code that carries a notice from one to the other while the process may stop at any point.
 */
module WorkflowNotification {

  datatype Status = Running | Paused | Interrupted | Cancelled | Succeeded | Failed | Stopped

  datatype Notification = Unset | Pending | Queued | NotApplicable

  // A message by what triggered it.
  datatype Input = Input(kind: string, refId: string)

  datatype Turn = Turn(id: string, messages: seq<Input>)

  const WORKFLOW_TRIGGER := "workflow"

  // ---------------------------------------------------------------- notices in a thread

  predicate IsNotice(input: Input, runId: string) {
    input.kind == WORKFLOW_TRIGGER && input.refId == runId
  }

  function NoticesIn(messages: seq<Input>, runId: string): nat {
    if messages == [] then 0
    else (if IsNotice(messages[|messages| - 1], runId) then 1 else 0) + NoticesIn(messages[..|messages| - 1], runId)
  }

  function TurnNotices(turns: seq<Turn>, runId: string): nat {
    if turns == [] then 0
    else NoticesIn(turns[|turns| - 1].messages, runId) + TurnNotices(turns[..|turns| - 1], runId)
  }

  lemma {:induction false} CountsSplit(a: seq<Input>, b: seq<Input>, runId: string)
    ensures NoticesIn(a + b, runId) == NoticesIn(a, runId) + NoticesIn(b, runId)
  {
    if b == [] {
      assert a + b == a;
    } else {
      var front := b[..|b| - 1];
      CountsSplit(a, front, runId);
      assert (a + b)[..|a + b| - 1] == a + front;
    }
  }

  lemma CountOne(input: Input, runId: string)
    ensures NoticesIn([input], runId) == if IsNotice(input, runId) then 1 else 0
  {
    assert [input][..0] == [];
  }

  lemma {:induction false} SomeNoticeIffCounted(messages: seq<Input>, runId: string)
    ensures (exists i :: 0 <= i < |messages| && IsNotice(messages[i], runId)) <==> NoticesIn(messages, runId) > 0
  {
    if messages != [] {
      var front := messages[..|messages| - 1];
      SomeNoticeIffCounted(front, runId);
      if exists i :: 0 <= i < |messages| && IsNotice(messages[i], runId) {
        var i :| 0 <= i < |messages| && IsNotice(messages[i], runId);
        if i < |front| {
          assert IsNotice(front[i], runId);
        }
      }
      if NoticesIn(front, runId) > 0 {
        var i :| 0 <= i < |front| && IsNotice(front[i], runId);
        assert IsNotice(messages[i], runId);
      }
    }
  }

  // Taking one message out of a list takes out exactly its own count.
  lemma CountWithout(messages: seq<Input>, k: nat, runId: string)
    requires k < |messages|
    ensures NoticesIn(messages, runId)
         == NoticesIn(Without(messages, k), runId) + NoticesIn([messages[k]], runId)
  {
    assert messages == (messages[..k] + [messages[k]]) + messages[k + 1..];
    CountsSplit(messages[..k] + [messages[k]], messages[k + 1..], runId);
    CountsSplit(messages[..k], [messages[k]], runId);
    CountsSplit(messages[..k], messages[k + 1..], runId);
  }

  function Without<T>(s: seq<T>, k: nat): (r: seq<T>)
    requires k < |s|
  {
    s[..k] + s[k + 1..]
  }

  lemma CountWithTurn(turns: seq<Turn>, turn: Turn, runId: string)
    ensures TurnNotices(turns + [turn], runId) == TurnNotices(turns, runId) + NoticesIn(turn.messages, runId)
  {
    assert (turns + [turn])[..|turns|] == turns;
  }

  // ---------------------------------------------------------------- was it delivered?

  // The walk from the newest turn back to the turn that started the run, that turn included.
  predicate WasDelivered(turns: seq<Turn>, parentTurn: string, runId: string) {
    turns != [] &&
    var last := turns[|turns| - 1];
    NoticesIn(last.messages, runId) > 0
    || (last.id != parentTurn && WasDelivered(turns[..|turns| - 1], parentTurn, runId))
  }

  // No notice precedes the turn that started the run.
  predicate NoneBeforeParentTurn(turns: seq<Turn>, parentTurn: string, runId: string) {
    forall j, k :: 0 <= j < k < |turns| && turns[k].id == parentTurn ==> NoticesIn(turns[j].messages, runId) == 0
  }

  lemma {:induction false} NoNoticesInTurns(turns: seq<Turn>, runId: string)
    requires forall j :: 0 <= j < |turns| ==> NoticesIn(turns[j].messages, runId) == 0
    ensures TurnNotices(turns, runId) == 0
  {
    if turns != [] {
      NoNoticesInTurns(turns[..|turns| - 1], runId);
    }
  }

  // Stopping the walk at the parent turn misses nothing.
  lemma {:induction false} WalkFindsEveryNotice(turns: seq<Turn>, parentTurn: string, runId: string)
    requires NoneBeforeParentTurn(turns, parentTurn, runId)
    ensures WasDelivered(turns, parentTurn, runId) <==> TurnNotices(turns, runId) > 0
  {
    if turns != [] {
      var front := turns[..|turns| - 1];
      if turns[|turns| - 1].id == parentTurn {
        forall j | 0 <= j < |front|
          ensures NoticesIn(front[j].messages, runId) == 0
        {
          assert front[j] == turns[j];
        }
        NoNoticesInTurns(front, runId);
      } else {
        WalkFindsEveryNotice(front, parentTurn, runId);
      }
    }
  }

  // The loop over the turns, newest first.
  method WasDeliveredToParent(turns: seq<Turn>, parentTurn: string, runId: string) returns (delivered: bool)
    ensures delivered == WasDelivered(turns, parentTurn, runId)
  {
    var i := |turns|;
    assert turns[..i] == turns;
    while i > 0
      invariant 0 <= i <= |turns|
      invariant WasDelivered(turns, parentTurn, runId) == WasDelivered(turns[..i], parentTurn, runId)
    {
      i := i - 1;
      var turn := turns[i];
      assert turns[..i + 1][..i] == turns[..i];
      var found := HasNotice(turn.messages, runId);
      if found {
        return true;
      }
      if turn.id == parentTurn {
        return false;
      }
    }
    return false;
  }

  method HasNotice(messages: seq<Input>, runId: string) returns (found: bool)
    ensures found <==> NoticesIn(messages, runId) > 0
  {
    SomeNoticeIffCounted(messages, runId);
    found := exists i :: 0 <= i < |messages| && IsNotice(messages[i], runId);
  }

  // ---------------------------------------------------------------- the machine

  // Where a run completes: on its terminal frame, inside the guarded block, or in one of the handlers.
  datatype Path = ByFrame | ByCatch

  // Which code is carrying the notice: the run itself, a stop of a paused run, or start-up recovery.
  datatype Origin = ByRun(path: Path) | ByStop | ByRecovery

  // What one piece of running code does next.  A run that completed on its frame still has to wind up
  // its worker; one whose frame completion threw completes again in a handler.
  datatype Phase =
    | Executing
    | Caught
    | WindingUp
    | StopRequested(notifyParent: bool)
    | ReadingQueue(origin: Origin)
    | ReadingTurns(origin: Origin)
    | Enqueuing(origin: Origin)
    | Recording(origin: Origin)

  datatype Latch = Latch(stopping: bool, notified: bool)

  const FRESH_LATCH := Latch(false, false)

  // `status`, `notification`, `queue` and `turns` are on disk; the rest dies with the process.
  datatype World = World(
    runId: string,
    parentTurn: string,
    status: Status,
    notification: Notification,
    queue: seq<Input>,
    turns: seq<Turn>,
    up: bool,
    latch: Latch,
    crew: seq<Phase>
  )

  datatype Step =
    | Finish(i: nat, status: Status, path: Path)
    | FinishFails(i: nat, status: Status, path: Path)
    | Depart(i: nat)
    | BeginStop
    | EndStop(settled: bool)
    | StopRead(notifyParent: bool)
    | StopWrite(i: nat)
    | ReadQueue(i: nat)
    | ReadTurns(i: nat)
    | Enqueue(i: nat)
    | Record(i: nat)
    | Throw(i: nat)
    | Crash
    | Restart
    | StartTurn(k: nat, turnId: string)
    | Steer(k: nat)
    | Discard(k: nat)
    | Arrive(input: Input)
    | OtherTurn(turn: Turn)

  predicate NotifiesParent(status: Status) {
    status in {Succeeded, Failed, Stopped}
  }

  function Notice(w: World): Input {
    Input(WORKFLOW_TRIGGER, w.runId)
  }

  function Notices(w: World): nat {
    NoticesIn(w.queue, w.runId) + TurnNotices(w.turns, w.runId)
  }

  // The code of the run itself, as opposed to a stop of the paused run or to recovery.
  predicate OfRun(phase: Phase) {
    match phase
    case Executing => true
    case Caught => true
    case WindingUp => true
    case StopRequested(_) => false
    case ReadingQueue(origin) => origin.ByRun?
    case ReadingTurns(origin) => origin.ByRun?
    case Enqueuing(origin) => origin.ByRun?
    case Recording(origin) => origin.ByRun?
  }

  // Between the write of the final state and the note that the parent has been told.
  predicate Notifying(phase: Phase) {
    phase.ReadingQueue? || phase.ReadingTurns? || phase.Enqueuing? || phase.Recording?
  }

  // On its frame a run succeeds or fails; in a handler it does not succeed.
  predicate CanComplete(phase: Phase, status: Status, path: Path) {
    match path
    case ByFrame => phase == Executing && status in {Succeeded, Failed}
    case ByCatch => phase in {Executing, Caught} && status !in {Running, Succeeded}
  }

  predicate FreshTurn(w: World, turnId: string) {
    turnId != w.parentTurn
  }

  predicate Enabled(w: World, step: Step) {
    match step
    case Finish(i, status, path) => i < |w.crew| && w.up && CanComplete(w.crew[i], status, path)
    case FinishFails(i, status, path) => i < |w.crew| && w.up && CanComplete(w.crew[i], status, path)
    case Depart(i) => i < |w.crew| && w.up && w.crew[i].WindingUp?
    case BeginStop => w.up
    case EndStop(_) => w.up
    case StopRead(_) => w.up && w.status == Paused && forall i :: 0 <= i < |w.crew| ==> !OfRun(w.crew[i])
    case StopWrite(i) => i < |w.crew| && w.up && w.crew[i].StopRequested?
    case ReadQueue(i) => i < |w.crew| && w.up && w.crew[i].ReadingQueue?
    case ReadTurns(i) => i < |w.crew| && w.up && w.crew[i].ReadingTurns?
    case Enqueue(i) => i < |w.crew| && w.up && w.crew[i].Enqueuing?
    case Record(i) => i < |w.crew| && w.up && w.crew[i].Recording?
    case Throw(i) => i < |w.crew| && w.up && !w.crew[i].Executing? && !w.crew[i].Caught?
    case Crash => w.up
    case Restart => !w.up
    case StartTurn(k, turnId) => k < |w.queue| && FreshTurn(w, turnId)
    case Steer(k) => k < |w.queue| && w.turns != []
    case Discard(k) => k < |w.queue|
    case Arrive(input) => !IsNotice(input, w.runId)
    case OtherTurn(turn) => FreshTurn(w, turn.id) && NoticesIn(turn.messages, w.runId) == 0
  }

  function Leave(w: World, i: nat): World
    requires i < |w.crew|
  {
    w.(crew := Without(w.crew, i))
  }

  function Go(w: World, i: nat, phase: Phase): World
    requires i < |w.crew|
  {
    w.(crew := w.crew[i := phase])
  }

  // Completion claims the latch before it writes the final state.
  function Claimed(latch: Latch, status: Status): Latch {
    if NotifiesParent(status) then latch.(notified := true) else latch
  }

  function Owes(latch: Latch, status: Status): bool {
    NotifiesParent(status) && !latch.notified && !latch.stopping
  }

  // The final state is written with the notice pending or not owed.
  function Complete(w: World, i: nat, status: Status, path: Path): World
    requires i < |w.crew|
  {
    var notify := Owes(w.latch, status);
    var written := w.(status := status,
                      notification := if notify then Pending else NotApplicable,
                      latch := Claimed(w.latch, status));
    if notify then Go(written, i, ReadingQueue(ByRun(path))) else Over(written, i, ByRun(path))
  }

  // The carrier is through.
  function Over(w: World, i: nat, origin: Origin): World
    requires i < |w.crew|
  {
    if origin == ByRun(ByFrame) then Go(w, i, WindingUp) else Leave(w, i)
  }

  // Stopping a paused run, once its status has been read.
  function StopPaused(w: World, i: nat, notifyParent: bool): World
    requires i < |w.crew|
  {
    var written := w.(status := Stopped, notification := if notifyParent then Pending else NotApplicable);
    if notifyParent then Go(written, i, ReadingQueue(ByStop)) else Leave(written, i)
  }

  // An exception: the guarded block hands it to a handler, every other piece of code ends with it.
  function Thrown(w: World, i: nat, phase: Phase): World
    requires i < |w.crew|
  {
    if phase.WindingUp? || (Notifying(phase) && phase.origin == ByRun(ByFrame)) then Go(w, i, Caught) else Leave(w, i)
  }

  // Start-up: a run found running is interrupted, a finished one with a pending notice is notified.
  function Started(w: World): World {
    var started := w.(up := true, latch := FRESH_LATCH, crew := []);
    if w.status == Running then started.(status := Interrupted)
    else if w.notification == Pending && NotifiesParent(w.status) then started.(crew := [ReadingQueue(ByRecovery)])
    else started
  }

  function Apply(w: World, step: Step): World
    requires Enabled(w, step)
  {
    match step
    case Finish(i, status, path) => Complete(w, i, status, path)
    case FinishFails(i, status, path) =>
      var claimed := w.(latch := Claimed(w.latch, status));
      if path == ByFrame then Go(claimed, i, Caught) else Leave(claimed, i)
    case Depart(i) => Leave(w, i)
    case BeginStop => w.(latch := w.latch.(stopping := true))
    case EndStop(settled) => w.(latch := Latch(false, w.latch.notified || settled))
    case StopRead(notifyParent) => w.(crew := w.crew + [StopRequested(notifyParent)])
    case StopWrite(i) => StopPaused(w, i, w.crew[i].notifyParent)
    case ReadQueue(i) =>
      Go(w, i, if NoticesIn(w.queue, w.runId) > 0 then Recording(w.crew[i].origin) else ReadingTurns(w.crew[i].origin))
    case ReadTurns(i) =>
      Go(w, i, if WasDelivered(w.turns, w.parentTurn, w.runId) then Recording(w.crew[i].origin)
               else Enqueuing(w.crew[i].origin))
    case Enqueue(i) => Go(w.(queue := w.queue + [Notice(w)]), i, Recording(w.crew[i].origin))
    case Record(i) => Over(w.(notification := Queued), i, w.crew[i].origin)
    case Throw(i) => Thrown(w, i, w.crew[i])
    case Crash => w.(up := false, latch := FRESH_LATCH, crew := [])
    case Restart => Started(w)
    case StartTurn(k, turnId) =>
      w.(queue := Without(w.queue, k), turns := w.turns + [Turn(turnId, [w.queue[k]])])
    case Steer(k) => w.(queue := Without(w.queue, k), turns := WithMessage(w.turns, w.queue[k]))
    case Discard(k) => w.(queue := Without(w.queue, k))
    case Arrive(input) => w.(queue := w.queue + [input])
    case OtherTurn(turn) => w.(turns := w.turns + [turn])
  }

  // A message steered into the newest turn.
  function WithMessage(turns: seq<Turn>, message: Input): (r: seq<Turn>)
    requires turns != []
  {
    var last := turns[|turns| - 1];
    turns[..|turns| - 1] + [last.(messages := last.messages + [message])]
  }

  // A run just created: running, nothing said about it yet, its parent turn the newest mention of it.
  predicate Created(w: World) {
    w.up && w.status == Running && w.notification == Unset && w.latch == FRESH_LATCH && w.crew == [Executing]
    && Notices(w) == 0 && NoneBeforeParentTurn(w.turns, w.parentTurn, w.runId)
  }

  predicate Possible(w: World, trace: seq<Step>)
    decreases |trace|
  {
    trace == [] || (Enabled(w, trace[0]) && Possible(Apply(w, trace[0]), trace[1..]))
  }

  function After(w: World, trace: seq<Step>): World
    requires Possible(w, trace)
    decreases |trace|
  {
    if trace == [] then w else After(Apply(w, trace[0]), trace[1..])
  }

  // No notifying stop of the paused run begins while another one has still to write.
  predicate Apart(w: World, step: Step) {
    step == StopRead(true) ==> StopRequested(true) !in w.crew
  }

  predicate StopsApart(w: World, trace: seq<Step>)
    requires Possible(w, trace)
    decreases |trace|
  {
    trace == [] || (Apart(w, trace[0]) && StopsApart(Apply(w, trace[0]), trace[1..]))
  }

  predicate KeepsQueue(trace: seq<Step>) {
    forall i :: 0 <= i < |trace| ==> !trace[i].Discard?
  }

  // ---------------------------------------------------------------- the invariant

  // What is known while one phase is under way.  `kept` says no queued input was ever discarded.
  predicate PhaseFits(w: World, phase: Phase, kept: bool) {
    match phase
    case Executing => w.status == Running
    case Caught => w.latch.notified && w.status in {Running, Succeeded, Failed}
    case WindingUp => w.latch.notified && w.status in {Succeeded, Failed} && w.notification != Pending
    case StopRequested(_) => w.status in {Paused, Stopped}
    case ReadingQueue(origin) => Carrying(w, origin)
    case ReadingTurns(origin) => Carrying(w, origin) && NoticesIn(w.queue, w.runId) == 0
    case Enqueuing(origin) => Carrying(w, origin) && Notices(w) == 0
    case Recording(origin) => Carrying(w, origin) && (kept ==> Notices(w) == 1)
  }

  predicate Carrying(w: World, origin: Origin) {
    NotifiesParent(w.status) && (origin.ByRun? ==> w.notification == Pending)
    && (origin == ByRun(ByFrame) ==> w.latch.notified && w.status in {Succeeded, Failed})
  }

  // Stops that will not notify may be under way in any number, beside at most one other piece of code;
  // the code of the run itself is alone.
  predicate CrewFits(w: World, kept: bool) {
    && (w.crew != [] ==> w.up)
    && (forall i, j :: 0 <= i < j < |w.crew| ==> w.crew[i] == StopRequested(false) || w.crew[j] == StopRequested(false))
    && (forall i :: 0 <= i < |w.crew| && OfRun(w.crew[i]) ==> |w.crew| == 1)
    && (forall i :: 0 <= i < |w.crew| ==> PhaseFits(w, w.crew[i], kept))
    && (w.status == Paused ==> forall i :: 0 <= i < |w.crew| ==> w.crew[i].StopRequested?)
  }

  predicate FileFits(w: World, kept: bool) {
    && Notices(w) <= 1
    && NoneBeforeParentTurn(w.turns, w.parentTurn, w.runId)
    && (w.status == Running ==> Notices(w) == 0 && w.notification == Unset)
    && (w.status == Paused ==> w.notification == NotApplicable)
    && (kept && w.notification == Queued ==> Notices(w) == 1)
  }

  predicate Inv(w: World, kept: bool) {
    FileFits(w, kept) && CrewFits(w, kept)
  }

  // The phase at i moves on or leaves; it was not the only one only if the others will not notify.
  lemma GoFits(w: World, next: World, i: nat, phase: Phase, kept: bool)
    requires CrewFits(w, kept) && i < |w.crew| && w.crew[i] != StopRequested(false)
    requires next.crew == w.crew[i := phase] && next.up
    requires PhaseFits(next, phase, kept) && (OfRun(phase) ==> OfRun(w.crew[i]))
    requires next.status == Paused ==> phase.StopRequested?
    requires next.status == w.status || next.status == Stopped || |w.crew| == 1
    ensures CrewFits(next, kept)
  {
    forall j | 0 <= j < |w.crew| && j != i
      ensures next.crew[j] == StopRequested(false) && PhaseFits(next, next.crew[j], kept)
    {
      assert PhaseFits(w, w.crew[j], kept);
    }
  }

  lemma LeaveFits(w: World, next: World, i: nat, kept: bool)
    requires CrewFits(w, kept) && i < |w.crew| && w.crew[i] != StopRequested(false)
    requires next.crew == Without(w.crew, i) && next.up
    requires next.status == w.status || next.status == Stopped || |w.crew| == 1
    ensures CrewFits(next, kept)
  {
    forall j | 0 <= j < |next.crew|
      ensures next.crew[j] == StopRequested(false) && PhaseFits(next, next.crew[j], kept)
    {
      var k := if j < i then j else j + 1;
      assert next.crew[j] == w.crew[k] && PhaseFits(w, w.crew[k], kept);
    }
  }

  // A stop that does not notify writes: the others are still where they were.
  lemma SilentStopFits(w: World, i: nat, kept: bool)
    requires CrewFits(w, kept) && i < |w.crew| && w.crew[i] == StopRequested(false)
    ensures CrewFits(StopPaused(w, i, false), kept)
  {
    var next := StopPaused(w, i, false);
    forall j | 0 <= j < |next.crew|
      ensures !OfRun(next.crew[j]) && PhaseFits(next, next.crew[j], kept)
    {
      var k := if j < i then j else j + 1;
      assert next.crew[j] == w.crew[k] && PhaseFits(w, w.crew[k], kept);
    }
  }

  // What moving a message from the queue into a turn does to the counts.
  lemma TakingKeepsNotices(w: World, k: nat, next: World)
    requires k < |w.queue|
    requires next.runId == w.runId && next.parentTurn == w.parentTurn && next.queue == Without(w.queue, k)
    requires (exists id :: FreshTurn(w, id) && next.turns == w.turns + [Turn(id, [w.queue[k]])])
          || (w.turns != [] && next.turns == WithMessage(w.turns, w.queue[k]))
    requires NoneBeforeParentTurn(w.turns, w.parentTurn, w.runId)
    ensures Notices(next) == Notices(w)
    ensures NoticesIn(next.queue, w.runId) <= NoticesIn(w.queue, w.runId)
    ensures NoneBeforeParentTurn(next.turns, next.parentTurn, next.runId)
  {
    CountWithout(w.queue, k, w.runId);
    if w.turns != [] && next.turns == WithMessage(w.turns, w.queue[k]) {
      var front, last := w.turns[..|w.turns| - 1], w.turns[|w.turns| - 1];
      CountWithTurn(front, last.(messages := last.messages + [w.queue[k]]), w.runId);
      CountsSplit(last.messages, [w.queue[k]], w.runId);
    } else {
      var id :| FreshTurn(w, id) && next.turns == w.turns + [Turn(id, [w.queue[k]])];
      CountWithTurn(w.turns, Turn(id, [w.queue[k]]), w.runId);
    }
  }

  lemma ReadKeepsInv(w: World, step: Step, kept: bool)
    requires Inv(w, kept) && Enabled(w, step) && (step.ReadQueue? || step.ReadTurns?)
    ensures Inv(Apply(w, step), kept)
  {
    WalkFindsEveryNotice(w.turns, w.parentTurn, w.runId);
    var next := Apply(w, step);
    assert PhaseFits(w, w.crew[step.i], kept);
    GoFits(w, next, step.i, next.crew[step.i], kept);
  }

  lemma NoticeAdded(w: World, next: World)
    requires next == w.(queue := w.queue + [Notice(w)], crew := next.crew)
    ensures Notices(next) == Notices(w) + 1
  {
    CountsSplit(w.queue, [Notice(w)], w.runId);
    CountOne(Notice(w), w.runId);
  }

  lemma EnqueueKeepsInv(w: World, i: nat, kept: bool)
    requires Inv(w, kept) && Enabled(w, Enqueue(i))
    ensures Inv(Apply(w, Enqueue(i)), kept)
  {
    var next, origin := Apply(w, Enqueue(i)), w.crew[i].origin;
    assert PhaseFits(w, w.crew[i], kept);
    NoticeAdded(w, next);
    assert Carrying(next, origin);
    GoFits(w, next, i, Recording(origin), kept);
  }

  lemma RecordKeepsInv(w: World, i: nat, kept: bool)
    requires Inv(w, kept) && Enabled(w, Record(i))
    ensures Inv(Apply(w, Record(i)), kept)
  {
    var next := Apply(w, Record(i));
    assert PhaseFits(w, w.crew[i], kept);
    if w.crew[i].origin == ByRun(ByFrame) {
      GoFits(w, next, i, WindingUp, kept);
    } else {
      LeaveFits(w, next, i, kept);
    }
  }

  lemma ThrowKeepsInv(w: World, i: nat, kept: bool)
    requires Inv(w, kept) && Enabled(w, Throw(i))
    ensures Inv(Apply(w, Throw(i)), kept)
  {
    var next := Apply(w, Throw(i));
    assert PhaseFits(w, w.crew[i], kept);
    if w.crew[i] == StopRequested(false) {
      SilentStopFits(w, i, kept);
      forall j | 0 <= j < |next.crew|
        ensures PhaseFits(next, next.crew[j], kept)
      {
        var k := if j < i then j else j + 1;
        assert next.crew[j] == w.crew[k] && PhaseFits(w, w.crew[k], kept);
      }
    } else if next.crew == Without(w.crew, i) {
      LeaveFits(w, next, i, kept);
    } else {
      GoFits(w, next, i, Caught, kept);
    }
  }

  // The steps of the code that carries the notice.
  lemma CarryKeepsInv(w: World, step: Step, kept: bool)
    requires Inv(w, kept) && Enabled(w, step)
    requires step.ReadQueue? || step.ReadTurns? || step.Enqueue? || step.Record? || step.Throw?
    ensures Inv(Apply(w, step), kept)
  {
    match step {
      case Enqueue(i) => EnqueueKeepsInv(w, i, kept);
      case Record(i) => RecordKeepsInv(w, i, kept);
      case Throw(i) => ThrowKeepsInv(w, i, kept);
      case _ => ReadKeepsInv(w, step, kept);
    }
  }

  lemma CompletionKeepsInv(w: World, step: Step, kept: bool)
    requires Inv(w, kept) && Enabled(w, step) && (step.Finish? || step.FinishFails? || step.Depart?)
    ensures Inv(Apply(w, step), kept)
  {
    assert PhaseFits(w, w.crew[step.i], kept) && OfRun(w.crew[step.i]) && w.crew == [w.crew[step.i]];
  }

  lemma StopKeepsInv(w: World, step: Step, kept: bool)
    requires Inv(w, kept) && Enabled(w, step) && (step.StopRead? || step.StopWrite?) && Apart(w, step)
    ensures Inv(Apply(w, step), kept)
  {
    var next := Apply(w, step);
    if step.StopRead? {
      forall i | 0 <= i < |w.crew|
        ensures next.crew[i] == w.crew[i] && PhaseFits(next, w.crew[i], kept)
      {
        assert PhaseFits(w, w.crew[i], kept);
      }
    } else {
      assert PhaseFits(w, w.crew[step.i], kept);
      if w.crew[step.i].notifyParent {
        GoFits(w, next, step.i, ReadingQueue(ByStop), kept);
      } else {
        SilentStopFits(w, step.i, kept);
      }
    }
  }

  // The steps that start and stop the process, or touch the latch.
  lemma ControlKeepsInv(w: World, step: Step, kept: bool)
    requires Inv(w, kept) && Enabled(w, step)
    requires step.BeginStop? || step.EndStop? || step.Crash? || step.Restart?
    ensures Inv(Apply(w, step), kept)
  {
    forall i | 0 <= i < |w.crew|
      ensures (step.BeginStop? || step.EndStop?) ==> PhaseFits(Apply(w, step), w.crew[i], kept)
    {
      assert PhaseFits(w, w.crew[i], kept);
    }
  }

  predicate ThreadStep(step: Step) {
    step.StartTurn? || step.Steer? || step.Discard? || step.Arrive? || step.OtherTurn?
  }

  // What the parent thread does meanwhile: it adds no notice, and loses one only to a discard.
  lemma ThreadKeepsNotices(w: World, step: Step)
    requires Enabled(w, step) && ThreadStep(step) && NoneBeforeParentTurn(w.turns, w.parentTurn, w.runId)
    ensures var next := Apply(w, step);
            && Notices(next) <= Notices(w)
            && (!step.Discard? ==> Notices(next) == Notices(w))
            && NoticesIn(next.queue, w.runId) <= NoticesIn(w.queue, w.runId)
            && NoneBeforeParentTurn(next.turns, w.parentTurn, w.runId)
  {
    var next := Apply(w, step);
    match step {
      case StartTurn(k, turnId) => TakingKeepsNotices(w, k, next);
      case Steer(k) => TakingKeepsNotices(w, k, next);
      case Discard(k) => CountWithout(w.queue, k, w.runId);
      case Arrive(input) =>
        CountsSplit(w.queue, [input], w.runId);
        CountOne(input, w.runId);
      case OtherTurn(turn) => CountWithTurn(w.turns, turn, w.runId);
    }
  }

  lemma SameRunKeepsInv(w: World, next: World, kept: bool)
    requires Inv(w, kept)
    requires next == w.(queue := next.queue, turns := next.turns)
    requires Notices(next) <= Notices(w) && (kept ==> Notices(next) == Notices(w))
    requires NoticesIn(next.queue, w.runId) <= NoticesIn(w.queue, w.runId)
    requires NoneBeforeParentTurn(next.turns, w.parentTurn, w.runId)
    ensures Inv(next, kept)
  {
    forall i | 0 <= i < |w.crew|
      ensures PhaseFits(next, w.crew[i], kept)
    {
      assert PhaseFits(w, w.crew[i], kept);
    }
  }

  lemma StepKeepsInv(w: World, step: Step, kept: bool)
    requires Inv(w, kept) && Enabled(w, step)
    requires Apart(w, step)
    requires step.Discard? ==> !kept
    ensures Inv(Apply(w, step), kept)
  {
    if step.ReadQueue? || step.ReadTurns? || step.Enqueue? || step.Record? || step.Throw? {
      CarryKeepsInv(w, step, kept);
    } else if ThreadStep(step) {
      ThreadKeepsNotices(w, step);
      SameRunKeepsInv(w, Apply(w, step), kept);
    } else if step.Finish? || step.FinishFails? || step.Depart? {
      CompletionKeepsInv(w, step, kept);
    } else if step.StopRead? || step.StopWrite? {
      StopKeepsInv(w, step, kept);
    } else {
      ControlKeepsInv(w, step, kept);
    }
  }

  lemma {:induction false} TraceKeepsInv(w: World, trace: seq<Step>, kept: bool)
    requires Inv(w, kept) && Possible(w, trace) && StopsApart(w, trace)
    requires kept ==> KeepsQueue(trace)
    ensures Inv(After(w, trace), kept)
    decreases |trace|
  {
    if trace != [] {
      StepKeepsInv(w, trace[0], kept);
      TraceKeepsInv(Apply(w, trace[0]), trace[1..], kept);
    }
  }

  // ---------------------------------------------------------------- main results

  // Whatever the interleaving of completion, notification, the parent's turns, crashes and restarts,
  // the parent never holds two notices for one run, as long as no notifying stop of the paused run begins
  // while another one has still to write.
  lemma AtMostOneNotice(w: World, trace: seq<Step>)
    requires Created(w) && Possible(w, trace) && StopsApart(w, trace)
    ensures Notices(After(w, trace)) <= 1
  {
    TraceKeepsInv(w, trace, false);
  }

  // A state file that says "queued" tells the truth unless someone removed the queued input.
  lemma QueuedMeansDelivered(w: World, trace: seq<Step>)
    requires Created(w) && Possible(w, trace) && StopsApart(w, trace) && KeepsQueue(trace)
    ensures After(w, trace).notification == Queued ==> Notices(After(w, trace)) == 1
  {
    TraceKeepsInv(w, trace, true);
  }

  // Nothing goes wrong: no crash, no exception, nobody removes a queued input.
  predicate Calm(trace: seq<Step>) {
    forall i :: 0 <= i < |trace| ==>
      !trace[i].Crash? && !trace[i].Throw? && !trace[i].FinishFails? && !trace[i].Discard?
  }

  predicate OnItsWay(w: World) {
    w.up && NotifiesParent(w.status) &&
    ((w.notification == Queued && (w.crew == [] || w.crew == [WindingUp]))
     || (w.notification == Pending && |w.crew| == 1 && Notifying(w.crew[0])))
  }

  lemma {:induction false} CalmDelivers(w: World, trace: seq<Step>)
    requires OnItsWay(w) && Possible(w, trace) && Calm(trace)
    ensures OnItsWay(After(w, trace))
    ensures StopsApart(w, trace)
    decreases |trace|
  {
    if trace != [] {
      CalmDelivers(Apply(w, trace[0]), trace[1..]);
    }
  }

  function CarrierSteps(w: World): nat {
    if w.crew == [] then 0
    else match w.crew[0]
      case ReadingQueue(_) => 5
      case ReadingTurns(_) => 4
      case Enqueuing(_) => 3
      case Recording(_) => 2
      case WindingUp => 1
      case _ => 6
  }

  // Every step of the carrier brings it closer to the end and no other calm step holds it up.
  lemma CarrierAdvances(w: World, step: Step)
    requires OnItsWay(w) && Enabled(w, step) && Calm([step])
    ensures CarrierSteps(Apply(w, step)) <= CarrierSteps(w)
    ensures step.ReadQueue? || step.ReadTurns? || step.Enqueue? || step.Record? || step.Depart? ==>
              CarrierSteps(Apply(w, step)) < CarrierSteps(w)
    ensures w.crew != [] ==>
              Enabled(w, ReadQueue(0)) || Enabled(w, ReadTurns(0)) || Enabled(w, Enqueue(0)) || Enabled(w, Record(0))
              || Enabled(w, Depart(0))
  {
    assert [step][0] == step;
  }

  lemma RecoveryDelivers(down: World, after: seq<Step>)
    requires Inv(down, true) && !down.up && down.notification == Pending && NotifiesParent(down.status)
    requires Possible(Apply(down, Restart), after) && Calm(after)
    ensures var done := After(Apply(down, Restart), after);
            Notices(done) <= 1 && (done.crew == [] ==> done.notification == Queued && Notices(done) == 1)
  {
    StepKeepsInv(down, Restart, true);
    var up := Apply(down, Restart);
    CalmDelivers(up, after);
    TraceKeepsInv(up, after, true);
  }

  // A restart that finds a finished run with its notice still owed delivers exactly one, whether or
  // not the crash came after the notice had been queued, once its carrier is through.
  lemma RestartDeliversExactlyOne(w: World, before: seq<Step>, after: seq<Step>)
    requires Created(w) && Possible(w, before) && StopsApart(w, before) && KeepsQueue(before)
    requires var down := After(w, before); !down.up && down.notification == Pending && NotifiesParent(down.status)
    requires Possible(Apply(After(w, before), Restart), after) && Calm(after)
    ensures var done := After(Apply(After(w, before), Restart), after);
            Notices(done) <= 1 && (done.crew == [] ==> done.notification == Queued && Notices(done) == 1)
  {
    TraceKeepsInv(w, before, true);
    RecoveryDelivers(After(w, before), after);
  }

  // ---------------------------------------------------------------- the code itself, uninterrupted

  predicate Carried(w: World) {
    w.up && |w.crew| == 1 && (Notifying(w.crew[0]) || w.crew[0].WindingUp?)
  }

  function CarryStep(w: World): (step: Step)
    requires Carried(w)
    ensures Enabled(w, step) && Calm([step])
  {
    assert forall s: Step :: [s][0] == s;
    if w.crew[0].ReadingQueue? then ReadQueue(0)
    else if w.crew[0].ReadingTurns? then ReadTurns(0)
    else if w.crew[0].Enqueuing? then Enqueue(0)
    else if w.crew[0].Recording? then Record(0)
    else Depart(0)
  }

  // The machine's steps for one carrier, taken one after the other with nothing in between.
  function Driven(w: World): World
    requires w.crew == [] || Carried(w)
    decreases CarrierSteps(w)
  {
    if w.crew == [] then w else Driven(Apply(w, CarryStep(w)))
  }

  lemma DrivenDeparts(w: World)
    requires Carried(w) && w.crew[0].WindingUp?
    ensures Driven(w) == w.(crew := [])
  {
    assert Apply(w, CarryStep(w)) == w.(crew := []);
  }

  lemma DrivenRecords(w: World)
    requires Carried(w) && w.crew[0].Recording?
    ensures Driven(w) == w.(notification := Queued, crew := [])
  {
    var recorded := Apply(w, CarryStep(w));
    if recorded.crew != [] {
      DrivenDeparts(recorded);
    }
  }

  lemma DrivenReadsTurns(w: World)
    requires Carried(w) && w.crew[0].ReadingTurns?
    ensures Driven(w) == w.(notification := Queued, crew := [],
                            queue := if WasDelivered(w.turns, w.parentTurn, w.runId) then w.queue
                                     else w.queue + [Notice(w)])
  {
    var w1 := Apply(w, CarryStep(w));
    if w1.crew[0].Enqueuing? {
      DrivenRecords(Apply(w1, CarryStep(w1)));
    } else {
      DrivenRecords(w1);
    }
  }

  lemma DrivenReadsQueue(w: World)
    requires Carried(w) && w.crew[0].ReadingQueue?
    ensures Driven(w) == w.(notification := Queued, crew := [],
                            queue := if NoticesIn(w.queue, w.runId) > 0 || WasDelivered(w.turns, w.parentTurn, w.runId)
                                     then w.queue else w.queue + [Notice(w)])
  {
    var w1 := Apply(w, CarryStep(w));
    if w1.crew[0].ReadingTurns? {
      DrivenReadsTurns(w1);
    } else {
      DrivenRecords(w1);
    }
  }

  // An uninterrupted carrier leaves the file at "queued" and adds a notice only to a parent with none.
  lemma DrivenDelivers(w: World)
    requires Carried(w) && w.crew[0].ReadingQueue? && NoneBeforeParentTurn(w.turns, w.parentTurn, w.runId)
    ensures Driven(w).notification == Queued && Driven(w).turns == w.turns
    ensures Driven(w).queue == if Notices(w) > 0 then w.queue else w.queue + [Notice(w)]
    ensures Notices(Driven(w)) == if Notices(w) > 0 then Notices(w) else 1
  {
    WalkFindsEveryNotice(w.turns, w.parentTurn, w.runId);
    CountsSplit(w.queue, [Notice(w)], w.runId);
    CountOne(Notice(w), w.runId);
    DrivenReadsQueue(w);
  }

  // One run as the service holds it, with the parent thread it reports to.
  class RunNotifier {
    const runId: string
    const parentTurn: string
    var status: Status
    var notification: Notification
    var queue: seq<Input>
    var turns: seq<Turn>
    var latch: Latch

    constructor (runId: string, parentTurn: string, turns: seq<Turn>)
      ensures Snapshot([Executing])
              == World(runId, parentTurn, Running, Unset, [], turns, true, FRESH_LATCH, [Executing])
    {
      this.runId, this.parentTurn := runId, parentTurn;
      status, notification, queue, latch := Running, Unset, [], FRESH_LATCH;
      this.turns := turns;
    }

    ghost function Snapshot(crew: seq<Phase>): World
      reads this
    {
      World(runId, parentTurn, status, notification, queue, turns, true, latch, crew)
    }

    method NotifyParent(ghost origin: Origin)
      modifies `notification, `queue
      ensures old(notification) == Queued ==> notification == Queued && queue == old(queue)
      ensures old(notification) != Queued ==> Snapshot([]) == Driven(old(Snapshot([ReadingQueue(origin)])))
    {
      if notification == Queued {
        return;
      }
      DrivenReadsQueue(Snapshot([ReadingQueue(origin)]));
      var delivered := HasNotice(queue, runId);
      if !delivered {
        delivered := WasDeliveredToParent(turns, parentTurn, runId);
      }
      if delivered {
        notification := Queued;
        return;
      }
      queue := queue + [Input(WORKFLOW_TRIGGER, runId)];
      notification := Queued;
    }

    // Completion of a running attempt, notice included.
    method Finish(final: Status, ghost path: Path)
      requires notification != Queued
      modifies `status, `notification, `queue, `latch
      ensures Snapshot([]) == Driven(Complete(old(Snapshot([Executing])), 0, final, path))
    {
      ghost var completed := Complete(Snapshot([Executing]), 0, final, path);
      assert Without([Executing], 0) == [];
      assert forall phase: Phase :: [Executing][0 := phase] == [phase];
      var notify := NotifiesParent(final);
      if notify {
        notify := !latch.notified && !latch.stopping;
        latch := latch.(notified := true);
      }
      status := final;
      notification := if notify then Pending else NotApplicable;
      if notify {
        assert Snapshot([ReadingQueue(ByRun(path))]) == completed;
        NotifyParent(ByRun(path));
      } else if path == ByFrame {
        DrivenDeparts(completed);
      }
    }

    // What start-up does with this run after a crash.
    method Recover()
      modifies `status, `notification, `queue, `latch
      ensures Snapshot([]) == Driven(Started(old(Snapshot([]))))
    {
      latch := FRESH_LATCH;
      if status == Running {
        status := Interrupted;
        return;
      }
      if notification == Pending && NotifiesParent(status) {
        NotifyParent(ByRecovery);
      }
    }
  }

  // ---------------------------------------------------------------- where the code falls short

  // A notifying stop reads the status while another one has still to write and there is no notice yet.
  predicate Harmful(w: World, step: Step) {
    step == StopRead(true) && StopRequested(true) in w.crew && Notices(w) == 0
  }

  predicate Harmless(w: World, trace: seq<Step>)
    requires Possible(w, trace)
    decreases |trace|
  {
    trace == [] || (!Harmful(w, trace[0]) && Harmless(Apply(w, trace[0]), trace[1..]))
  }

  // From here two notices can be reached without a further such stop and without a discard.
  ghost predicate CanDouble(w: World) {
    exists later: seq<Step> :: Doubles(w, later)
  }

  predicate Doubles(w: World, later: seq<Step>) {
    Possible(w, later) && Harmless(w, later) && KeepsQueue(later) && Notices(After(w, later)) == 2
  }

  // Two notices can be reached from some world that the trace passes.
  ghost predicate LeadsToTwo(w: World, trace: seq<Step>)
    requires Possible(w, trace)
    decreases |trace|
  {
    CanDouble(w) || (trace != [] && LeadsToTwo(Apply(w, trace[0]), trace[1..]))
  }

  // The parent has its notice and every carrier will find it.
  predicate Told(w: World) {
    && Notices(w) == 1
    && NoneBeforeParentTurn(w.turns, w.parentTurn, w.runId)
    && forall i :: 0 <= i < |w.crew| ==> WillFind(w, w.crew[i])
  }

  predicate WillFind(w: World, phase: Phase) {
    !phase.Enqueuing? && (phase.ReadingTurns? ==> NoticesIn(w.queue, w.runId) == 0)
  }

  predicate SameThread(w: World, next: World) {
    next.runId == w.runId && next.parentTurn == w.parentTurn && next.queue == w.queue && next.turns == w.turns
  }

  lemma ToldAfterLeaving(w: World, i: nat, next: World)
    requires Told(w) && i < |w.crew| && SameThread(w, next) && next.crew == Without(w.crew, i)
    ensures Told(next)
  {
    assert forall j :: 0 <= j < |next.crew| ==> next.crew[j] == w.crew[if j < i then j else j + 1];
  }

  lemma ToldAfterMoving(w: World, i: nat, phase: Phase, next: World)
    requires Told(w) && i < |w.crew| && SameThread(w, next) && next.crew == w.crew[i := phase]
    requires WillFind(w, phase)
    ensures Told(next)
  {
    assert forall j :: 0 <= j < |next.crew| ==> next.crew[j] == if j == i then phase else w.crew[j];
  }

  lemma ToldAfterThreadStep(w: World, step: Step)
    requires Told(w) && Enabled(w, step) && ThreadStep(step) && !step.Discard?
    ensures Told(Apply(w, step))
  {
    ThreadKeepsNotices(w, step);
  }

  // What one piece of code does next: it leaves, or it goes on to a phase that finds the notice.
  lemma ToldAfterCarrier(w: World, i: nat, step: Step)
    requires Told(w) && i < |w.crew| && Enabled(w, step)
    requires step in {ReadQueue(i), ReadTurns(i), Enqueue(i), Record(i), Throw(i)}
    ensures Told(Apply(w, step))
  {
    WalkFindsEveryNotice(w.turns, w.parentTurn, w.runId);
    assert WillFind(w, w.crew[i]);
    var next := Apply(w, step);
    if next.crew == Without(w.crew, i) {
      ToldAfterLeaving(w, i, next);
    } else {
      ToldAfterMoving(w, i, next.crew[i], next);
    }
  }

  lemma ToldAfterEnding(w: World, i: nat, step: Step)
    requires Told(w) && i < |w.crew| && Enabled(w, step)
    requires step in {Depart(i), StopWrite(i)}
             || (step.Finish? && step.i == i) || (step.FinishFails? && step.i == i)
    ensures Told(Apply(w, step))
  {
    var next := Apply(w, step);
    if next.crew == Without(w.crew, i) {
      ToldAfterLeaving(w, i, next);
    } else {
      ToldAfterMoving(w, i, next.crew[i], next);
    }
  }

  lemma ToldStays(w: World, step: Step)
    requires Told(w) && Enabled(w, step) && !step.Discard?
    ensures Told(Apply(w, step))
  {
    match step
    case Finish(i, _, _) => ToldAfterEnding(w, i, step);
    case FinishFails(i, _, _) => ToldAfterEnding(w, i, step);
    case Depart(i) => ToldAfterEnding(w, i, step);
    case StopWrite(i) => ToldAfterEnding(w, i, step);
    case ReadQueue(i) => ToldAfterCarrier(w, i, step);
    case ReadTurns(i) => ToldAfterCarrier(w, i, step);
    case Enqueue(i) => ToldAfterCarrier(w, i, step);
    case Record(i) => ToldAfterCarrier(w, i, step);
    case Throw(i) => ToldAfterCarrier(w, i, step);
    case BeginStop | EndStop(_) | StopRead(_) | Crash | Restart =>
    case StartTurn(_, _) => ToldAfterThreadStep(w, step);
    case Steer(_) => ToldAfterThreadStep(w, step);
    case Arrive(_) => ToldAfterThreadStep(w, step);
    case OtherTurn(_) => ToldAfterThreadStep(w, step);
  }

  predicate Single(w: World) {
    Inv(w, true) || Told(w)
  }

  lemma HarmlessStepKeepsSingle(w: World, step: Step)
    requires Single(w) && Enabled(w, step) && !Harmful(w, step) && !step.Discard?
    ensures Single(Apply(w, step))
  {
    if Inv(w, true) && Apart(w, step) {
      StepKeepsInv(w, step, true);
    } else {
      assert Told(w);
      ToldStays(w, step);
    }
  }

  lemma {:induction false} HarmlessTraceKeepsSingle(w: World, trace: seq<Step>)
    requires Single(w) && Possible(w, trace) && Harmless(w, trace) && KeepsQueue(trace)
    ensures Single(After(w, trace))
    decreases |trace|
  {
    if trace != [] {
      HarmlessStepKeepsSingle(w, trace[0]);
      HarmlessTraceKeepsSingle(Apply(w, trace[0]), trace[1..]);
    }
  }

  lemma SingleCannotDouble(w: World)
    requires Single(w)
    ensures !CanDouble(w)
  {
    forall later: seq<Step>
      ensures !Doubles(w, later)
    {
      if Possible(w, later) && Harmless(w, later) && KeepsQueue(later) {
        HarmlessTraceKeepsSingle(w, later);
      }
    }
  }

  lemma DoublesBefore(w: World, step: Step, next: World)
    requires Enabled(w, step) && Apply(w, step) == next && !Harmful(w, step) && !step.Discard? && CanDouble(next)
    ensures CanDouble(w)
  {
    var later: seq<Step> :| Doubles(next, later);
    assert ([step] + later)[1..] == later;
    assert Doubles(w, [step] + later);
  }

  // Two pieces of code side by side.
  function Pair(w: World, i: nat, j: nat, x: Phase, y: Phase): World
    requires i < j < |w.crew|
  {
    w.(crew := w.crew[i := x][j := y])
  }

  lemma PairMoves(w: World, i: nat, j: nat, x: Phase, y: Phase, z: Phase)
    requires i < j < |w.crew|
    ensures Go(Pair(w, i, j, x, y), i, z) == Pair(w, i, j, z, y)
    ensures Go(Pair(w, i, j, x, y), j, z) == Pair(w, i, j, x, z)
    ensures Pair(w, i, j, x, y).crew[i] == x && Pair(w, i, j, x, y).crew[j] == y
  {
    assert w.crew[i := x][j := y][i := z] == w.crew[i := z][j := y];
    assert w.crew[i := x][j := y][j := z] == w.crew[i := x][j := z];
  }

  lemma BothEnqueue(w: World, i: nat, j: nat)
    requires w.up && i < j < |w.crew| && Notices(w) == 0
    ensures CanDouble(Pair(w, i, j, Enqueuing(ByStop), Enqueuing(ByStop)))
  {
    var e, r := Enqueuing(ByStop), Recording(ByStop);
    var one := w.(queue := w.queue + [Notice(w)]);
    var two := one.(queue := one.queue + [Notice(w)]);
    NoticeAdded(w, one);
    NoticeAdded(one, two);
    PairMoves(w, i, j, e, e, r);
    PairMoves(one, i, j, r, e, r);
    PairMoves(two, i, j, r, r, r);
    assert Doubles(Pair(two, i, j, r, r), []);
    DoublesBefore(Pair(one, i, j, r, e), Enqueue(j), Pair(two, i, j, r, r));
    DoublesBefore(Pair(w, i, j, e, e), Enqueue(i), Pair(one, i, j, r, e));
  }

  lemma BothRead(w: World, i: nat, j: nat)
    requires w.up && i < j < |w.crew| && Notices(w) == 0 && NoneBeforeParentTurn(w.turns, w.parentTurn, w.runId)
    ensures CanDouble(Pair(w, i, j, ReadingQueue(ByStop), ReadingQueue(ByStop)))
  {
    var q, t, e := ReadingQueue(ByStop), ReadingTurns(ByStop), Enqueuing(ByStop);
    WalkFindsEveryNotice(w.turns, w.parentTurn, w.runId);
    BothEnqueue(w, i, j);
    PairMoves(w, i, j, q, q, t);
    PairMoves(w, i, j, t, q, t);
    PairMoves(w, i, j, t, t, e);
    PairMoves(w, i, j, e, t, e);
    DoublesBefore(Pair(w, i, j, e, t), ReadTurns(j), Pair(w, i, j, e, e));
    DoublesBefore(Pair(w, i, j, t, t), ReadTurns(i), Pair(w, i, j, e, t));
    DoublesBefore(Pair(w, i, j, t, q), ReadQueue(j), Pair(w, i, j, t, t));
    DoublesBefore(Pair(w, i, j, q, q), ReadQueue(i), Pair(w, i, j, t, q));
  }

  lemma BothWrite(w: World, i: nat, j: nat)
    requires w.up && i < j < |w.crew| && Notices(w) == 0 && NoneBeforeParentTurn(w.turns, w.parentTurn, w.runId)
    requires w.crew[i] == w.crew[j] == StopRequested(true)
    ensures CanDouble(w)
  {
    var s, q := StopRequested(true), ReadingQueue(ByStop);
    var stopped := w.(status := Stopped, notification := Pending);
    assert w.crew[i := s][j := s] == w.crew;
    BothRead(stopped, i, j);
    PairMoves(stopped, i, j, s, s, q);
    PairMoves(stopped, i, j, q, s, q);
    DoublesBefore(Pair(stopped, i, j, q, s), StopWrite(j), Pair(stopped, i, j, q, q));
    DoublesBefore(w, StopWrite(i), Pair(stopped, i, j, q, s));
  }

  lemma HarmfulStopCanDouble(w: World, step: Step)
    requires Inv(w, true) && Enabled(w, step) && Harmful(w, step)
    ensures CanDouble(Apply(w, step))
  {
    var i :| 0 <= i < |w.crew| && w.crew[i] == StopRequested(true);
    BothWrite(Apply(w, step), i, |w.crew|);
  }

  // Once a further stop has read the status of a paused run, two notices can be reached exactly when that
  // stop notifies, another notifying stop has still to write, and no notice is there yet.
  lemma FurtherStopCanDoubleIff(w: World, trace: seq<Step>, notifies: bool)
    requires Created(w) && Possible(w, trace) && Harmless(w, trace) && KeepsQueue(trace)
    requires Enabled(After(w, trace), StopRead(notifies))
    ensures var v := After(w, trace);
            CanDouble(Apply(v, StopRead(notifies)))
            <==> notifies && StopRequested(true) in v.crew && Notices(v) == 0
  {
    HarmlessTraceKeepsSingle(w, trace);
    var v, stop := After(w, trace), StopRead(notifies);
    if Harmful(v, stop) {
      HarmfulStopCanDouble(v, stop);
    } else {
      HarmlessStepKeepsSingle(v, stop);
      SingleCannotDouble(Apply(v, stop));
    }
  }

  lemma {:induction false} OverlapDecides(w: World, trace: seq<Step>)
    requires Single(w) && Possible(w, trace) && KeepsQueue(trace)
    ensures LeadsToTwo(w, trace) <==> !Harmless(w, trace)
    decreases |trace|
  {
    SingleCannotDouble(w);
    if trace != [] {
      var next := Apply(w, trace[0]);
      if Harmful(w, trace[0]) {
        HarmfulStopCanDouble(w, trace[0]);
      } else {
        HarmlessStepKeepsSingle(w, trace[0]);
        OverlapDecides(next, trace[1..]);
      }
    }
  }

  // Over whole runs in which no queued input is removed: what has begun can leave two notices if and only
  // if somewhere a notifying stop read the status while another one had still to write and no notice was
  // there.  Otherwise there is at most one.
  lemma TwoNoticesIffNotifyingStopsOverlap(w: World, trace: seq<Step>)
    requires Created(w) && Possible(w, trace) && KeepsQueue(trace)
    ensures LeadsToTwo(w, trace) <==> !Harmless(w, trace)
    ensures Harmless(w, trace) ==> Notices(After(w, trace)) <= 1
  {
    OverlapDecides(w, trace);
    if Harmless(w, trace) {
      HarmlessTraceKeepsSingle(w, trace);
    }
  }

  // Some way on from here leaves two notices, and nothing taken out of the queue.
  ghost predicate EndsInTwo(w: World) {
    exists trace: seq<Step> :: Possible(w, trace) && KeepsQueue(trace) && Notices(After(w, trace)) == 2
  }

  lemma EndsInTwoBefore(w: World, step: Step, next: World)
    requires Enabled(w, step) && Apply(w, step) == next && !step.Discard? && EndsInTwo(next)
    ensures EndsInTwo(w)
  {
    var later: seq<Step> :| Possible(next, later) && KeepsQueue(later) && Notices(After(next, later)) == 2;
    var longer := [step] + later;
    assert longer[1..] == later;
    assert Possible(w, longer) && KeepsQueue(longer) && After(w, longer) == After(next, later);
  }

  // Every run can come to that: it is paused, and stopped twice at once.
  lemma TwoStopsNotifyTwice(w: World)
    requires Created(w)
    ensures EndsInTwo(w)
  {
    var pausing, stop := Finish(0, Paused, ByCatch), StopRead(true);
    var paused := Apply(w, pausing);
    var one := Apply(paused, stop);
    var two := Apply(one, stop);
    BothWrite(two, 0, 1);
    assert EndsInTwo(two) by {
      var later: seq<Step> :| Doubles(two, later);
    }
    EndsInTwoBefore(one, stop, two);
    EndsInTwoBefore(paused, stop, one);
    EndsInTwoBefore(w, pausing, paused);
  }

  // Whatever happens from here on, the parent is never told.
  ghost predicate LostForGood(w: World) {
    forall later: seq<Step> ::
      Possible(w, later) && StopsApart(w, later) && KeepsQueue(later) ==> Notices(After(w, later)) == 0
  }

  // No code is at work on the run, and neither a restart nor a stop has reason to notify.
  predicate Settled(w: World) {
    w.crew == [] && w.status != Paused && (w.notification == Pending ==> !NotifiesParent(w.status))
    && Notices(w) == 0 && NoneBeforeParentTurn(w.turns, w.parentTurn, w.runId)
  }

  lemma SettledStep(w: World, step: Step)
    requires Settled(w) && Enabled(w, step)
    ensures Settled(Apply(w, step))
  {
    if ThreadStep(step) {
      ThreadKeepsNotices(w, step);
    }
  }

  lemma {:induction false} SettledStays(w: World, later: seq<Step>)
    requires Settled(w) && Possible(w, later)
    ensures Settled(After(w, later))
    decreases |later|
  {
    if later != [] {
      SettledStep(w, later[0]);
      SettledStays(Apply(w, later[0]), later[1..]);
    }
  }

  lemma SettledIsLost(w: World)
    requires Settled(w)
    ensures LostForGood(w)
  {
    forall later: seq<Step> | Possible(w, later) && StopsApart(w, later) && KeepsQueue(later)
      ensures Notices(After(w, later)) == 0
    {
      SettledStays(w, later);
    }
  }

  // A carrier that finds nothing there queues a notice.
  lemma CarrierEnqueues(w: World)
    requires w.up && |w.crew| == 1 && w.crew[0].ReadingQueue? && Notices(w) == 0
    requires NoneBeforeParentTurn(w.turns, w.parentTurn, w.runId)
    ensures !LostForGood(w)
  {
    WalkFindsEveryNotice(w.turns, w.parentTurn, w.runId);
    var origin := w.crew[0].origin;
    var reading := w.(crew := [ReadingTurns(origin)]);
    var enqueuing := w.(crew := [Enqueuing(origin)]);
    var queued := w.(queue := w.queue + [Notice(w)], crew := [Recording(origin)]);
    CountsSplit(w.queue, [Notice(w)], w.runId);
    CountOne(Notice(w), w.runId);
    assert Possible(queued, []) && StopsApart(queued, []) && KeepsQueue([]);
    NotLostBefore(enqueuing, Enqueue(0), queued);
    NotLostBefore(reading, ReadTurns(0), enqueuing);
    NotLostBefore(w, ReadQueue(0), reading);
  }

  lemma NotLostBefore(w: World, step: Step, next: World)
    requires Enabled(w, step) && Apply(w, step) == next && !step.Discard? && Apart(w, step)
    requires !LostForGood(next)
    ensures !LostForGood(w)
  {
    var later: seq<Step> :|
      Possible(next, later) && StopsApart(next, later) && KeepsQueue(later) && Notices(After(next, later)) != 0;
    var longer := [step] + later;
    assert longer[1..] == later;
    assert Possible(w, longer) && StopsApart(w, longer) && KeepsQueue(longer);
  }

  // The run has ended with its notice pending and no code at work on it.
  predicate Owed(w: World) {
    w.crew == [] && w.notification == Pending && NotifiesParent(w.status)
  }

  lemma OwedIsNotLost(w: World)
    requires Owed(w) && NoneBeforeParentTurn(w.turns, w.parentTurn, w.runId)
    ensures !LostForGood(w)
  {
    if Notices(w) > 0 {
      assert Possible(w, []) && StopsApart(w, []) && KeepsQueue([]) && After(w, []) == w;
    } else {
      var down := w.(up := false, latch := FRESH_LATCH);
      var up := w.(up := true, latch := FRESH_LATCH, crew := [ReadingQueue(ByRecovery)]);
      CarrierEnqueues(up);
      if w.up {
        NotLostBefore(down, Restart, up);
        NotLostBefore(w, Crash, down);
      } else {
        NotLostBefore(w, Restart, up);
      }
    }
  }

  lemma PausedIsNotLost(w: World)
    requires w.up && w.crew == [] && w.status == Paused && Notices(w) == 0
    requires NoneBeforeParentTurn(w.turns, w.parentTurn, w.runId)
    ensures !LostForGood(w)
  {
    var read := w.(crew := [StopRequested(true)]);
    var written := w.(status := Stopped, notification := Pending, crew := [ReadingQueue(ByStop)]);
    CarrierEnqueues(written);
    NotLostBefore(read, StopWrite(0), written);
    NotLostBefore(w, StopRead(true), read);
  }

  // The world once an exception has been dealt with: in the guarded block by a second completion, with
  // the latch already claimed; in a handler not at all.
  function Handled(w: World, status: Status): World
    requires |w.crew| == 1 && w.up && Notifying(w.crew[0]) && status !in {Running, Succeeded}
  {
    var thrown := Apply(w, Throw(0));
    if thrown.crew == [Caught] then Apply(thrown, Finish(0, status, ByCatch)) else thrown
  }

  lemma HandledIsLostIff(v: World, path: Path, second: Status)
    requires Inv(v, true) && v.crew != [] && Notifying(v.crew[0]) && v.crew[0].origin == ByRun(path)
    requires second !in {Running, Succeeded}
    ensures LostForGood(Handled(v, second)) <==> path == ByFrame && Notices(v) == 0 && second != Paused
  {
    var end := Handled(v, second);
    assert end.crew == [] && end.up;
    if path == ByCatch {
      OwedIsNotLost(end);
    } else if Notices(v) > 0 {
      assert Possible(end, []) && StopsApart(end, []) && KeepsQueue([]) && After(end, []) == end;
    } else if second == Paused {
      PausedIsNotLost(end);
    } else {
      SettledIsLost(end);
    }
  }

  // An exception while a run notifies its parent loses the notice for good exactly when the run was
  // completing on its terminal frame, no notice was queued yet, and the second completion does not
  // leave the run paused.
  lemma ExceptionLosesTheNoticeIff(w: World, trace: seq<Step>, path: Path, second: Status)
    requires Created(w) && Possible(w, trace) && StopsApart(w, trace) && KeepsQueue(trace)
    requires var v := After(w, trace); v.crew != [] && Notifying(v.crew[0]) && v.crew[0].origin == ByRun(path)
    requires second !in {Running, Succeeded}
    ensures |After(w, trace).crew| == 1 && After(w, trace).up
    ensures LostForGood(Handled(After(w, trace), second)) <==>
              path == ByFrame && Notices(After(w, trace)) == 0 && second != Paused
  {
    TraceKeepsInv(w, trace, true);
    HandledIsLostIff(After(w, trace), path, second);
  }

  // After an exception in a handler the notice stays owed until the next restart, whatever comes first.
  lemma {:induction false} OwedUntilRestart(w: World, later: seq<Step>)
    requires Owed(w) && Possible(w, later) && forall i :: 0 <= i < |later| ==> !later[i].Restart?
    ensures Owed(After(w, later)) && StopsApart(w, later)
    decreases |later|
  {
    if later != [] {
      OwedUntilRestart(Apply(w, later[0]), later[1..]);
    }
  }

  // The next restart then delivers exactly one notice.
  lemma RestartMakesUpForHandlerException(w: World, trace: seq<Step>, later: seq<Step>, after: seq<Step>)
    requires Created(w) && Possible(w, trace) && StopsApart(w, trace) && KeepsQueue(trace)
    requires var v := After(w, trace); v.crew != [] && Notifying(v.crew[0]) && v.crew[0].origin == ByRun(ByCatch)
    requires Enabled(After(w, trace), Throw(0))
    requires var thrown := Apply(After(w, trace), Throw(0)); Possible(thrown, later) && !After(thrown, later).up
    requires KeepsQueue(later) && forall i :: 0 <= i < |later| ==> !later[i].Restart?
    requires var down := After(Apply(After(w, trace), Throw(0)), later); Possible(Apply(down, Restart), after)
    requires Calm(after)
    ensures var down := After(Apply(After(w, trace), Throw(0)), later);
            var done := After(Apply(down, Restart), after);
            Notices(done) <= 1 && (done.crew == [] ==> done.notification == Queued && Notices(done) == 1)
  {
    var v := After(w, trace);
    TraceKeepsInv(w, trace, true);
    var thrown := Apply(v, Throw(0));
    StepKeepsInv(v, Throw(0), true);
    OwedUntilRestart(thrown, later);
    TraceKeepsInv(thrown, later, true);
    RecoveryDelivers(After(thrown, later), after);
  }

  // If the final state cannot be written, no notice is ever sent, unless a second completion leaves the
  // run paused.
  lemma FailedFinalWriteLosesTheNotice(w: World, trace: seq<Step>, status: Status, path: Path, second: Status)
    requires Created(w) && Possible(w, trace) && StopsApart(w, trace) && KeepsQueue(trace)
    requires After(w, trace).crew == [Executing] && Enabled(After(w, trace), FinishFails(0, status, path))
    requires second !in {Running, Succeeded}
    ensures var failed := Apply(After(w, trace), FinishFails(0, status, path));
            && (path == ByCatch ==> LostForGood(failed))
            && (path == ByFrame ==> Enabled(failed, Finish(0, second, ByCatch)))
            && (path == ByFrame ==> (LostForGood(Apply(failed, Finish(0, second, ByCatch))) <==> second != Paused))
  {
    TraceKeepsInv(w, trace, true);
    var v := After(w, trace);
    var failed := Apply(v, FinishFails(0, status, path));
    StepKeepsInv(v, FinishFails(0, status, path), true);
    if path == ByCatch {
      SettledIsLost(failed);
    } else {
      var end := Apply(failed, Finish(0, second, ByCatch));
      if second == Paused {
        PausedIsNotLost(end);
      } else {
        SettledIsLost(end);
      }
    }
  }
}
