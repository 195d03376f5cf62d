/**
 * A running program's output: emitted into a buffer, handed out by any number of waiting calls, and
 * closed off once, by the call that delivers the end or by the end of the turn.
 */
module CellOutput {
  import opened Wrappers

  // ---------------------------------------------------------------- the event loop

  datatype Item = Text(text: string) | Image(mimeType: string, data: string)

  datatype Status = Completed | Failed | TimedOut | Terminated

  // `writes` says that the program's store edits are to be saved.
  datatype Outcome = Outcome(status: Status, error: Option<string>, writes: bool)

  // A field of a frame: not there, a text, or a value that cannot be read as one.
  datatype Field = Absent | OfText(value: string) | OfOtherKind

  // What the loop may read next.  `Interrupted` is its wait being cancelled: the deadline or a
  // termination the first time, the end of the grace period the second.
  datatype Event =
    | CallRequested(requestId: Field, tool: Field, hasArguments: bool)
    | Output(kind: Field, text: Field, mimeType: Field, data: Field)
    | Done(outcome: Field, error: Field, stack: Field, store: bool)
    | WorkerFailed(cause: string)
    | TerminationRequested
    | Interrupted

  // Reading the frame throws.  The requests of a program told to stop are not read.
  predicate Faults(event: Event, stopped: bool) {
    match event
    case CallRequested(requestId, tool, _) => !stopped && (requestId.OfOtherKind? || tool.OfOtherKind?)
    case Output(kind, text, mimeType, data) =>
      kind.OfOtherKind? || (kind == OfText("text") && text.OfOtherKind?)
      || (kind == OfText("image") && (mimeType.OfOtherKind? || (mimeType.OfText? && data.OfOtherKind?)))
    case Done(outcome, error, stack, _) => outcome.OfOtherKind? || error.OfOtherKind? || stack.OfOtherKind?
    case _ => false
  }

  predicate WellFormed(event: Event) {
    event.CallRequested? && event.requestId.OfText? && event.tool.OfText? && event.hasArguments
  }

  // The item an output frame carries, if it is a valid one.
  function ItemOf(event: Event): Option<Item> {
    if !event.Output? then None
    else if event.kind == OfText("text") && event.text.OfText? then Some(Text(event.text.value))
    else if event.kind == OfText("image") && event.mimeType.OfText? && event.data.OfText?
    then Some(Image(event.mimeType.value, event.data.value))
    else None
  }

  function ToError(field: Field): Option<string> {
    if field.OfText? then Some(field.value) else None
  }

  function Parse(done: Event): Outcome
    requires done.Done?
  {
    var completed := done.outcome == OfText("completed");
    Outcome(if completed then Completed else if done.outcome == OfText("timedOut") then TimedOut else Failed,
            ToError(done.error), completed && done.store)
  }

  function Finish(terminating: bool, timedOut: bool, outcome: Outcome): (r: Outcome)
    ensures r.writes ==> !terminating && !timedOut && outcome.writes
    ensures r.status == Terminated <==> terminating || (!timedOut && outcome.status == Terminated)
  {
    if terminating then Outcome(Terminated, None, false)
    else if timedOut then outcome.(status := TimedOut, writes := false)
    else outcome
  }

  function ToItems(item: Option<Item>): seq<Item> {
    if item.Some? then [item.value] else []
  }

  // The items of the valid output frames among some events, in order.
  function Emitted(events: seq<Event>): seq<Item>
    decreases |events|
  {
    if events == [] then []
    else
      var last := events[|events| - 1];
      Emitted(events[..|events| - 1]) + ToItems(ItemOf(last))
  }

  function ValidCalls(events: seq<Event>): nat
    decreases |events|
  {
    if events == [] then 0
    else
      ValidCalls(events[..|events| - 1]) + (if WellFormed(events[|events| - 1]) then 1 else 0)
  }

  lemma OneMoreEvent(events: seq<Event>, n: nat)
    requires n < |events|
    ensures Emitted(events[..n + 1]) == Emitted(events[..n]) + ToItems(ItemOf(events[n]))
    ensures ValidCalls(events[..n + 1]) == ValidCalls(events[..n]) + (if WellFormed(events[n]) then 1 else 0)
  {
    assert events[..n + 1][..n] == events[..n];
  }

  // Reads an output frame; only the fields of its own kind are looked at.
  method ReadItem(frame: Event) returns (faulted: bool, item: Option<Item>)
    requires frame.Output?
    ensures faulted <==> Faults(frame, false)
    ensures item == ItemOf(frame)
  {
    faulted, item := frame.kind.OfOtherKind?, None;
    if frame.kind == OfText("text") {
      faulted := frame.text.OfOtherKind?;
      if frame.text.OfText? {
        item := Some(Text(frame.text.value));
      }
    } else if frame.kind == OfText("image") {
      faulted := frame.mimeType.OfOtherKind?;
      if frame.mimeType.OfText? {
        faulted := frame.data.OfOtherKind?;
        if frame.data.OfText? {
          item := Some(Image(frame.mimeType.value, frame.data.value));
        }
      }
    }
  }

  // Reads events until one ends the program, or faults.  `started` counts the calls dispatched, `stopped`
  // says that the program was told to stop, `read` how many events were read.
  method RunLoop(events: seq<Event>, maxCalls: nat)
    returns (outcome: Option<Outcome>, output: seq<Item>, started: nat, stopped: bool, terminating: bool,
             timedOut: bool, faulted: bool, read: nat)
    ensures read <= |events| && (outcome.None? && !faulted ==> read == |events|)
    ensures faulted <==> read > 0 && Faults(events[read - 1], stopped)
    ensures faulted ==> outcome.None?
    ensures output == Emitted(events[..read])
    ensures started <= maxCalls && (!stopped ==> started == ValidCalls(events[..read]))
    ensures stopped || timedOut || terminating ==> outcome.Some? ==> !outcome.value.writes
    ensures outcome.Some? ==>
              if terminating then outcome.value.status == Terminated
              else if timedOut then outcome.value.status == TimedOut
              else if stopped then outcome.value.status == Failed
              else outcome.value.status != Terminated
    ensures outcome.Some? && outcome.value.writes ==>
              read > 0 && events[read - 1].Done? && events[read - 1].outcome == OfText("completed")
  {
    outcome, output, started, read := None, [], 0, 0;
    stopped, terminating, timedOut, faulted := false, false, false, false;
    var stopError: Option<string> := None;
    var requested := 0;
    assert events[..0] == [];
    while read < |events|
      invariant read <= |events| && outcome.None? && !faulted
      invariant read > 0 ==> !Faults(events[read - 1], stopped)
      invariant output == Emitted(events[..read])
      invariant started <= maxCalls && started <= requested
      invariant !stopped ==> started == requested == ValidCalls(events[..read]) && stopError.None? && !timedOut
      invariant stopped && !timedOut && !terminating ==> stopError.Some?
      decreases |events| - read
    {
      OneMoreEvent(events, read);
      var next := events[read];
      read := read + 1;
      match next {
        case TerminationRequested =>
          terminating := true;
        case Interrupted =>
          if stopped {
            outcome := Some(Finish(terminating, timedOut, Outcome(Failed,
              if stopError.Some? then stopError else Some("The script did not stop after it was cancelled."), false)));
            return;
          }
          timedOut := !terminating;
          stopped := true;
        case WorkerFailed(cause) =>
          outcome := Some(Finish(terminating, timedOut, Outcome(Failed, Some(cause), false)));
          return;
        case CallRequested(requestId, tool, hasArguments) =>
          if !stopped {
            if requestId.OfOtherKind? || tool.OfOtherKind? {
              faulted := true;
              return;
            }
            if requestId.OfText? && tool.OfText? && hasArguments {
              requested := requested + 1;
              if requested > maxCalls {
                stopError := Some("The script exceeded its limit of tool calls.");
                stopped := true;
              } else {
                started := started + 1;
              }
            }
          }
        case Output(_, _, _, _) =>
          var item;
          faulted, item := ReadItem(next);
          if faulted {
            return;
          }
          output := output + ToItems(item);
        case Done(status, error, stack, _) =>
          if status.OfOtherKind? || error.OfOtherKind? || stack.OfOtherKind? {
            faulted := true;
            return;
          }
          var parsed := Parse(next);
          if stopError.Some? && !timedOut {
            parsed := Outcome(Failed, stopError, false);
          }
          outcome := Some(Finish(terminating, timedOut, parsed));
          return;
      }
    }
  }

  // ---------------------------------------------------------------- waiting calls

  // A call that has decided what it will answer but has not yet taken the output.
  datatype Answer = Running | Final(outcome: Outcome)

  // `Threw` is what a call gets that awaits a program whose loop faulted; it leaves the cell open.
  datatype Response = Delivered(answer: Answer, items: seq<Item>) | NotFound | Threw

  datatype Closer = NotClosed | ClosedByWait | ClosedByTurn

  // `emitted` is everything the program has put out so far, `responses` what callers got, in order.  `faulted`
  // says that an exception came before the outcome: in reading a frame, or the keys of the store edits.
  datatype State = State(
    emitted: seq<Item>,
    buffer: seq<Item>,
    outcome: Option<Outcome>,
    faulted: bool,
    closed: Closer,
    terminating: bool,
    building: seq<Answer>,
    responses: seq<Response>
  )

  datatype Step =
    | Emit(item: Item)
    | End(outcome: Outcome)
    | Fault
    | Terminate
    | EndTurn
    | Yield
    | CloseAndAnswer
    | Rethrow
    | Take(k: nat)

  predicate Over(s: State) {
    s.outcome.Some? || s.faulted
  }

  // A call yields only while the program had not ended when it looked, and answers finally only
  // after it had.
  predicate Enabled(s: State, step: Step) {
    match step
    case Emit(_) => !Over(s)
    case End(outcome) => !Over(s) && (outcome.status == Terminated ==> s.terminating)
    case Fault => !Over(s)
    case Terminate => true
    case EndTurn => true
    case Yield => !Over(s)
    case CloseAndAnswer => s.outcome.Some?
    case Rethrow => s.faulted
    case Take(k) => k < |s.building|
  }

  function Apply(s: State, step: Step): State
    requires Enabled(s, step)
  {
    match step
    case Emit(item) => s.(emitted := s.emitted + [item], buffer := s.buffer + [item])
    case End(outcome) => s.(outcome := Some(outcome))
    case Fault => s.(faulted := true)
    case Terminate => s.(terminating := true)
    case EndTurn => if s.closed == NotClosed then s.(closed := ClosedByTurn, terminating := true) else s
    case Yield => s.(building := s.building + [Running])
    case CloseAndAnswer =>
      if s.closed == NotClosed then s.(closed := ClosedByWait, building := s.building + [Final(s.outcome.value)])
      else s.(responses := s.responses + [NotFound])
    case Rethrow => s.(responses := s.responses + [Threw])
    case Take(k) =>
      s.(buffer := [], building := s.building[..k] + s.building[k + 1..],
         responses := s.responses + [Delivered(s.building[k], s.buffer)])
  }

  predicate Possible(s: State, trace: seq<Step>)
    decreases |trace|
  {
    trace == [] || (Enabled(s, trace[0]) && Possible(Apply(s, trace[0]), trace[1..]))
  }

  function Run(s: State, trace: seq<Step>): State
    requires Possible(s, trace)
    decreases |trace|
  {
    if trace == [] then s else Run(Apply(s, trace[0]), trace[1..])
  }

  const START := State([], [], None, false, NotClosed, false, [], [])

  function HandedOut(responses: seq<Response>): seq<Item>
    decreases |responses|
  {
    if responses == [] then []
    else
      var last := responses[|responses| - 1];
      HandedOut(responses[..|responses| - 1]) + (if last.Delivered? then last.items else [])
  }

  function FinalAnswers(answers: seq<Answer>): nat
    decreases |answers|
  {
    if answers == [] then 0
    else FinalAnswers(answers[..|answers| - 1]) + (if answers[|answers| - 1].Final? then 1 else 0)
  }

  function FinalResponses(responses: seq<Response>): nat
    decreases |responses|
  {
    if responses == [] then 0
    else
      var last := responses[|responses| - 1];
      FinalResponses(responses[..|responses| - 1]) + (if last.Delivered? && last.answer.Final? then 1 else 0)
  }

  lemma OneMoreResponse(responses: seq<Response>, r: Response)
    ensures HandedOut(responses + [r]) == HandedOut(responses) + (if r.Delivered? then r.items else [])
    ensures FinalResponses(responses + [r])
            == FinalResponses(responses) + (if r.Delivered? && r.answer.Final? then 1 else 0)
  {
    assert (responses + [r])[..|responses|] == responses;
  }

  lemma OneMoreAnswer(answers: seq<Answer>, a: Answer)
    ensures FinalAnswers(answers + [a]) == FinalAnswers(answers) + (if a.Final? then 1 else 0)
  {
    assert (answers + [a])[..|answers|] == answers;
  }

  lemma {:induction false} OneFewerAnswer(answers: seq<Answer>, k: nat)
    requires k < |answers|
    ensures FinalAnswers(answers)
            == FinalAnswers(answers[..k] + answers[k + 1..]) + (if answers[k].Final? then 1 else 0)
    decreases |answers|
  {
    var front, last := answers[..|answers| - 1], answers[|answers| - 1];
    if k == |front| {
      assert answers[..k] + answers[k + 1..] == front;
    } else {
      OneFewerAnswer(front, k);
      var rest := front[..k] + front[k + 1..];
      assert answers[..k] + answers[k + 1..] == rest + [last];
      OneMoreAnswer(rest, last);
    }
  }

  predicate FinalsFit(s: State) {
    FinalAnswers(s.building) + FinalResponses(s.responses) == if s.closed == ClosedByWait then 1 else 0
  }

  // A final answer tells the outcome.
  predicate AnswersFit(answers: seq<Answer>, outcome: Option<Outcome>) {
    forall k :: 0 <= k < |answers| && answers[k].Final? ==> outcome == Some(answers[k].outcome)
  }

  predicate Inv(s: State) {
    && HandedOut(s.responses) + s.buffer == s.emitted
    && FinalsFit(s)
    && (s.closed == ClosedByWait ==> s.outcome.Some?)
    && (s.outcome.Some? && FinalResponses(s.responses) > 0 ==> s.buffer == [])
    && AnswersFit(s.building, s.outcome)
    && (s.faulted ==> s.outcome.None?)
  }

  lemma TakingFits(answers: seq<Answer>, k: nat, outcome: Option<Outcome>)
    requires k < |answers| && AnswersFit(answers, outcome)
    ensures AnswersFit(answers[..k] + answers[k + 1..], outcome)
  {
    var rest := answers[..k] + answers[k + 1..];
    assert forall j :: 0 <= j < |rest| ==> rest[j] == answers[if j < k then j else j + 1];
  }

  lemma TakeHandsOut(s: State, k: nat)
    requires k < |s.building| && HandedOut(s.responses) + s.buffer == s.emitted
    ensures HandedOut(Apply(s, Take(k)).responses) + [] == s.emitted
  {
    OneMoreResponse(s.responses, Delivered(s.building[k], s.buffer));
  }

  // The final answer among those being built becomes the final response.
  lemma TakeKeepsFinals(s: State, k: nat)
    requires k < |s.building|
    ensures FinalAnswers(Apply(s, Take(k)).building) + FinalResponses(Apply(s, Take(k)).responses)
         == FinalAnswers(s.building) + FinalResponses(s.responses)
  {
    OneMoreResponse(s.responses, Delivered(s.building[k], s.buffer));
    OneFewerAnswer(s.building, k);
  }

  lemma TakeKeepsInv(s: State, k: nat)
    requires Inv(s) && k < |s.building|
    ensures Inv(Apply(s, Take(k)))
  {
    TakeHandsOut(s, k);
    TakeKeepsFinals(s, k);
    TakingFits(s.building, k, s.outcome);
  }

  lemma EmitKeepsInv(s: State, item: Item)
    requires Inv(s) && !Over(s)
    ensures Inv(Apply(s, Emit(item)))
  {
    assert HandedOut(s.responses) + (s.buffer + [item]) == (HandedOut(s.responses) + s.buffer) + [item];
  }

  lemma AnswerKeepsInv(s: State, answer: Answer)
    requires Inv(s) && (answer.Final? ==> s.outcome == Some(answer.outcome) && s.closed == NotClosed)
    ensures Inv(s.(building := s.building + [answer], closed := if answer.Final? then ClosedByWait else s.closed))
  {
    OneMoreAnswer(s.building, answer);
    assert forall k :: 0 <= k < |s.building| + 1 ==>
        (s.building + [answer])[k] == if k < |s.building| then s.building[k] else answer;
  }

  // A response that hands nothing out.
  lemma EmptyResponseKeepsInv(s: State, response: Response)
    requires Inv(s) && !response.Delivered?
    ensures Inv(s.(responses := s.responses + [response]))
  {
    OneMoreResponse(s.responses, response);
    assert HandedOut(s.responses) + [] == HandedOut(s.responses);
  }

  lemma StepKeepsInv(s: State, step: Step)
    requires Inv(s) && Enabled(s, step)
    ensures Inv(Apply(s, step))
  {
    match step {
      case Take(k) => TakeKeepsInv(s, k);
      case Emit(item) => EmitKeepsInv(s, item);
      case Yield => AnswerKeepsInv(s, Running);
      case CloseAndAnswer =>
        if s.closed == NotClosed {
          AnswerKeepsInv(s, Final(s.outcome.value));
        } else {
          EmptyResponseKeepsInv(s, NotFound);
        }
      case Rethrow => EmptyResponseKeepsInv(s, Threw);
      case End(_) | Fault | Terminate | EndTurn =>
    }
  }

  lemma {:induction false} RunKeepsInv(s: State, trace: seq<Step>)
    requires Inv(s) && Possible(s, trace)
    ensures Inv(Run(s, trace))
    decreases |trace|
  {
    if trace != [] {
      StepKeepsInv(s, trace[0]);
      RunKeepsInv(Apply(s, trace[0]), trace[1..]);
    }
  }

  // ---------------------------------------------------------------- main results

  // Over any interleaving: what callers were given, in the order they took it, followed by what is
  // still buffered, is everything the program put out, in order, once.
  lemma OutputIsConserved(trace: seq<Step>)
    requires Possible(START, trace)
    ensures var s := Run(START, trace); HandedOut(s.responses) + s.buffer == s.emitted
  {
    RunKeepsInv(START, trace);
  }

  // At most one caller is told the end, none once the turn has closed the cell, and that caller's
  // response leaves nothing behind: all output has been handed out, for good.
  lemma EndIsToldOnce(trace: seq<Step>)
    requires Possible(START, trace)
    ensures var s := Run(START, trace);
            && FinalResponses(s.responses) <= 1
            && (s.closed == ClosedByTurn ==> FinalResponses(s.responses) == 0)
            && (FinalResponses(s.responses) == 1 ==>
                  s.outcome.Some? && s.buffer == [] && HandedOut(s.responses) == s.emitted)
  {
    RunKeepsInv(START, trace);
    var s := Run(START, trace);
    assert HandedOut(s.responses) + [] == HandedOut(s.responses);
  }

  lemma {:induction false} ClosedByWaitStays(s: State, later: seq<Step>)
    requires s.closed == ClosedByWait && s.outcome.Some? && Possible(s, later)
    ensures Run(s, later).closed == ClosedByWait && Run(s, later).outcome == s.outcome
            && Run(s, later).emitted == s.emitted
    decreases |later|
  {
    if later != [] {
      ClosedByWaitStays(Apply(s, later[0]), later[1..]);
    }
  }

  lemma {:induction false} FinalIsThere(answers: seq<Answer>) returns (k: nat)
    requires FinalAnswers(answers) > 0
    ensures k < |answers| && answers[k].Final?
  {
    var last := |answers| - 1;
    if answers[last].Final? {
      k := last;
    } else {
      k := FinalIsThere(answers[..last]);
    }
  }

  // The answer of the closing call is still being built, and taking the output delivers all of it.
  ghost predicate CanTell(s: State, end: Outcome) {
    exists k :: 0 <= k < |s.building| && s.building[k] == Final(end) && Tells(s, k)
  }

  predicate Tells(s: State, k: nat)
    requires k < |s.building|
  {
    var next := Apply(s, Take(k));
    FinalResponses(next.responses) == 1 && HandedOut(next.responses) == s.emitted
  }

  lemma ClosedCanTell(s: State)
    requires Inv(s) && s.closed == ClosedByWait && FinalResponses(s.responses) == 0
    ensures CanTell(s, s.outcome.value)
  {
    var k := FinalIsThere(s.building);
    OneMoreResponse(s.responses, Delivered(s.building[k], s.buffer));
    assert Tells(s, k);
  }

  lemma ClosedKeepsInv(s: State, later: seq<Step>)
    requires Inv(s) && s.outcome.Some? && Possible(Apply(s, CloseAndAnswer), later)
    ensures Inv(Run(Apply(s, CloseAndAnswer), later))
  {
    StepKeepsInv(s, CloseAndAnswer);
    RunKeepsInv(Apply(s, CloseAndAnswer), later);
  }

  // The call that closes a cell no one has closed tells the end, whatever other calls do meanwhile: until
  // it has answered it can, and its answer hands out the last of the output.
  lemma WaiterGetsTheEnd(trace: seq<Step>, later: seq<Step>)
    requires Possible(START, trace) && Run(START, trace).outcome.Some? && Run(START, trace).closed == NotClosed
    requires Possible(Apply(Run(START, trace), CloseAndAnswer), later)
    ensures var end := Run(START, trace).outcome.value;
            var s := Run(Apply(Run(START, trace), CloseAndAnswer), later);
            FinalAnswers(s.building) + FinalResponses(s.responses) == 1
            && (FinalResponses(s.responses) == 0 ==> CanTell(s, end))
  {
    RunKeepsInv(START, trace);
    ClosedKeepsInv(Run(START, trace), later);
    var closed := Apply(Run(START, trace), CloseAndAnswer);
    ClosedByWaitStays(closed, later);
    if FinalResponses(Run(closed, later).responses) == 0 {
      ClosedCanTell(Run(closed, later));
    }
  }

  // Some way on from here tells a caller the end, if none has been told it yet.
  ghost predicate EndCanBeTold(s: State) {
    exists later: seq<Step> :: Possible(s, later) && FinalResponses(Run(s, later).responses) == 1
  }

  lemma CanBeToldBefore(s: State, step: Step)
    requires Enabled(s, step) && EndCanBeTold(Apply(s, step))
    ensures EndCanBeTold(s)
  {
    var next := Apply(s, step);
    var later: seq<Step> :| Possible(next, later) && FinalResponses(Run(next, later).responses) == 1;
    assert ([step] + later)[1..] == later;
    assert Possible(s, [step] + later) && Run(s, [step] + later) == Run(next, later);
  }

  lemma ClosedCanBeTold(s: State)
    requires Inv(s) && s.closed == ClosedByWait
    ensures EndCanBeTold(s)
  {
    if FinalResponses(s.responses) == 1 {
      assert Possible(s, []) && Run(s, []) == s;
    } else {
      ClosedCanTell(s);
      var k :| 0 <= k < |s.building| && s.building[k] == Final(s.outcome.value) && Tells(s, k);
      var next := Apply(s, Take(k));
      assert Possible(next, []) && Run(next, []) == next;
      CanBeToldBefore(s, Take(k));
    }
  }

  lemma EndedCanBeTold(s: State)
    requires Inv(s) && s.closed == NotClosed && s.outcome.Some?
    ensures EndCanBeTold(s)
  {
    StepKeepsInv(s, CloseAndAnswer);
    ClosedCanBeTold(Apply(s, CloseAndAnswer));
    CanBeToldBefore(s, CloseAndAnswer);
  }

  // After a fault, or once the turn has closed the cell, nobody is told the end.
  lemma {:induction false} NeverTold(s: State, later: seq<Step>)
    requires Inv(s) && (s.faulted || s.closed == ClosedByTurn) && Possible(s, later)
    ensures FinalResponses(Run(s, later).responses) == 0
    decreases |later|
  {
    if later != [] {
      StepKeepsInv(s, later[0]);
      NeverTold(Apply(s, later[0]), later[1..]);
    }
  }

  // At any moment: some caller has been told the end or still can be, if and only if the loop has not
  // faulted and the turn has not closed the cell.
  lemma EndCanBeToldIff(trace: seq<Step>)
    requires Possible(START, trace)
    ensures var s := Run(START, trace); EndCanBeTold(s) <==> !s.faulted && s.closed != ClosedByTurn
  {
    RunKeepsInv(START, trace);
    var s := Run(START, trace);
    if s.faulted || s.closed == ClosedByTurn {
      forall later: seq<Step> | Possible(s, later)
        ensures FinalResponses(Run(s, later).responses) == 0
      {
        NeverTold(s, later);
      }
    } else if s.closed == ClosedByWait {
      ClosedCanBeTold(s);
    } else if s.outcome.Some? {
      EndedCanBeTold(s);
    } else {
      var end := End(Outcome(Completed, None, false));
      StepKeepsInv(s, end);
      EndedCanBeTold(Apply(s, end));
      CanBeToldBefore(s, end);
    }
  }

  // ---------------------------------------------------------------- the cell and the registry

  class Cell {
    const id: string
    var buffer: seq<Item>
    var terminating: bool
    ghost var emitted: seq<Item>
    ghost var taken: seq<Item>

    constructor (id: string)
      ensures this.id == id && buffer == [] && emitted == [] && taken == [] && !terminating
    {
      this.id := id;
      buffer, emitted, taken, terminating := [], [], [], false;
    }

    ghost predicate Conserved()
      reads this
    {
      taken + buffer == emitted
    }

    method AddOutput(item: Item)
      requires Conserved()
      modifies `buffer, `emitted
      ensures Conserved() && buffer == old(buffer) + [item] && emitted == old(emitted) + [item]
    {
      assert taken + (buffer + [item]) == (taken + buffer) + [item];
      buffer := buffer + [item];
      emitted := emitted + [item];
    }

    method TakeOutput() returns (output: seq<Item>)
      requires Conserved()
      modifies `buffer, `taken
      ensures Conserved() && output == old(buffer) && buffer == [] && taken == old(taken) + output
    {
      output := buffer;
      taken := taken + output;
      assert taken + [] == taken;
      buffer := [];
    }

    method Terminate()
      modifies `terminating
      ensures terminating
    {
      terminating := true;
    }
  }

  class Registry {
    var cells: map<string, Cell>

    constructor ()
      ensures cells == map[]
    {
      cells := map[];
    }

    method Add(cell: Cell)
      modifies this
      ensures cells == old(cells)[cell.id := cell]
    {
      cells := cells[cell.id := cell];
    }

    // Removes the cell if it is the one registered under its id; true for one caller only.
    method Close(cell: Cell) returns (closed: bool)
      modifies this
      ensures closed <==> cell.id in old(cells) && old(cells)[cell.id] == cell
      ensures cells == if closed then old(cells) - {cell.id} else old(cells)
    {
      closed := cell.id in cells && cells[cell.id] == cell;
      if closed {
        cells := cells - {cell.id};
      }
    }
  }
}
