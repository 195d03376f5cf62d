/**
 * The scope that counts operations in flight and lets a closer wait for the last of them.  Every
 * step is one critical section; a call's disposal is two, taking its release and then running it.
 */
module OperationScope {

  // How far closing has come: not asked for, asked for, tokens cancelled, count checked, waited out.
  datatype Closer = Idle | Asked | Cancelled | Checked | Finished

  // `live` calls still hold their release, `leaving` ones have given it up but not run it yet.
  datatype State = State(calls: int, closer: Closer, drained: bool, live: set<nat>, leaving: set<nat>, ids: nat)

  datatype Step =
    | TryEnter(cancelled: bool)
    | TakeRelease(id: nat)
    | Leave(id: nat)
    | Close
    | CancelTokens
    | CheckCount
    | Finish

  const START := State(0, Idle, false, {}, {}, 0)

  predicate Closing(s: State) {
    s.closer != Idle
  }

  // Disposing twice and closing twice are allowed; running a release needs one to have been taken.
  predicate Enabled(s: State, step: Step) {
    match step
    case TryEnter(_) => true
    case TakeRelease(id) => true
    case Leave(id) => id in s.leaving
    case Close => true
    case CancelTokens => s.closer == Asked
    case CheckCount => s.closer == Cancelled
    case Finish => s.closer == Checked && s.drained
  }

  predicate Enters(s: State, cancelled: bool) {
    !Closing(s) && !cancelled
  }

  function Apply(s: State, step: Step): State {
    match step
    case TryEnter(cancelled) =>
      if Enters(s, cancelled) then s.(calls := s.calls + 1, live := s.live + {s.ids}, ids := s.ids + 1) else s
    case TakeRelease(id) =>
      if id in s.live then s.(live := s.live - {id}, leaving := s.leaving + {id}) else s
    case Leave(id) =>
      s.(calls := s.calls - 1, leaving := s.leaving - {id}, drained := s.drained || (s.calls - 1 == 0 && Closing(s)))
    case Close => if Closing(s) then s else s.(closer := Asked)
    case CancelTokens => s.(closer := Cancelled)
    case CheckCount => s.(closer := Checked, drained := s.drained || s.calls == 0)
    case Finish => s.(closer := Finished)
  }

  predicate Possible(s: State, trace: seq<Step>)
    decreases |trace|
  {
    trace == [] || (Enabled(s, trace[0]) && Possible(Apply(s, trace[0]), trace[1..]))
  }

  function Run(s: State, trace: seq<Step>): State
    decreases |trace|
  {
    if trace == [] then s else Run(Apply(s, trace[0]), trace[1..])
  }

  // ---------------------------------------------------------------- the invariant

  predicate PastCheck(s: State) {
    s.closer == Checked || s.closer == Finished
  }

  predicate Inv(s: State) {
    && s.live !! s.leaving
    && s.calls == |s.live| + |s.leaving|
    && (forall id :: id in s.live + s.leaving ==> id < s.ids)
    && (s.drained ==> Closing(s) && s.calls == 0)
    && (PastCheck(s) && s.calls == 0 ==> s.drained)
    && (s.closer == Finished ==> s.drained)
  }

  lemma EnterKeepsInv(s: State, cancelled: bool)
    requires Inv(s)
    ensures Inv(Apply(s, TryEnter(cancelled)))
  {
    assert s.ids !in s.live && |s.live + {s.ids}| == |s.live| + 1;
  }

  lemma TakeKeepsInv(s: State, id: nat)
    requires Inv(s)
    ensures Inv(Apply(s, TakeRelease(id)))
  {
    if id in s.live {
      assert id !in s.leaving;
      assert |s.leaving + {id}| == |s.leaving| + 1;
      assert |s.live - {id}| == |s.live| - 1;
      assert (s.live - {id}) + (s.leaving + {id}) == s.live + s.leaving;
    }
  }

  lemma LeaveKeepsInv(s: State, id: nat)
    requires Inv(s) && id in s.leaving
    ensures Inv(Apply(s, Leave(id)))
  {
    assert |s.leaving - {id}| == |s.leaving| - 1;
  }

  lemma StepKeepsInv(s: State, step: Step)
    requires Inv(s) && Enabled(s, step)
    ensures Inv(Apply(s, step))
  {
    match step {
      case TryEnter(cancelled) => EnterKeepsInv(s, cancelled);
      case TakeRelease(id) => TakeKeepsInv(s, id);
      case Leave(id) => LeaveKeepsInv(s, id);
      case _ =>
    }
  }

  lemma {:induction false} RunKeepsInv(s: State, trace: seq<Step>)
    requires Inv(s) && Possible(s, trace)
    ensures Inv(Run(s, trace))
    decreases |trace|
  {
    if trace != [] {
      StepKeepsInv(s, trace[0]);
      RunKeepsInv(Apply(s, trace[0]), trace[1..]);
    }
  }

  // ---------------------------------------------------------------- main results

  // In every interleaving the counter is the number of calls not yet left, so it never goes below
  // zero, however often calls are disposed.
  lemma CounterCountsCalls(trace: seq<Step>)
    requires Possible(START, trace)
    ensures var s := Run(START, trace); s.calls == |s.live| + |s.leaving| && s.live !! s.leaving
  {
    RunKeepsInv(START, trace);
  }

  // After closing is asked for nothing enters: the calls in flight can only become fewer.
  lemma {:induction false} NothingEntersAfterClosing(s: State, trace: seq<Step>)
    requires Inv(s) && Closing(s) && Possible(s, trace)
    ensures var last := Run(s, trace);
            Closing(last) && last.calls <= s.calls && last.live <= s.live
            && last.live + last.leaving <= s.live + s.leaving
    decreases |trace|
  {
    if trace != [] {
      StepKeepsInv(s, trace[0]);
      NothingEntersAfterClosing(Apply(s, trace[0]), trace[1..]);
    }
  }

  // The signal comes only with no call in flight, and there is none ever after.
  lemma DrainedMeansEmptyForGood(before: seq<Step>, after: seq<Step>)
    requires Possible(START, before) && Run(START, before).drained && Possible(Run(START, before), after)
    ensures Run(START, before).calls == 0
    ensures var last := Run(Run(START, before), after);
            last.drained && last.calls == 0 && last.live == {} && last.leaving == {}
  {
    RunKeepsInv(START, before);
    var s := Run(START, before);
    NothingEntersAfterClosing(s, after);
    RunKeepsInv(s, after);
    DrainedStays(s, after);
  }

  lemma {:induction false} DrainedStays(s: State, trace: seq<Step>)
    requires s.drained
    ensures Run(s, trace).drained
    decreases |trace|
  {
    if trace != [] {
      DrainedStays(Apply(s, trace[0]), trace[1..]);
    }
  }

  // No lost wakeup: once the closer has passed its check, the signal has fired exactly when no call
  // is left, whichever of the check and the last leave came first.
  lemma NoLostWakeup(trace: seq<Step>)
    requires Possible(START, trace) && PastCheck(Run(START, trace))
    ensures var s := Run(START, trace); s.drained <==> s.live == {} && s.leaving == {}
  {
    RunKeepsInv(START, trace);
  }

  // The steps still owed before the closer is done: two for a live call, one for a leaving one, and
  // the closer's own.
  function Owed(s: State): nat {
    2 * |s.live| + |s.leaving| +
    match s.closer case Idle => 4 case Asked => 3 case Cancelled => 2 case Checked => 1 case Finished => 0
  }

  // Closing cannot hang by itself: until it is done, disposing the calls in flight and running the
  // closer always leaves an enabled step that brings it nearer.
  lemma ClosingMakesProgress(trace: seq<Step>) returns (step: Step)
    requires Possible(START, trace) && Closing(Run(START, trace)) && Run(START, trace).closer != Finished
    ensures var s := Run(START, trace); Enabled(s, step) && Owed(Apply(s, step)) < Owed(s)
  {
    RunKeepsInv(START, trace);
    var s := Run(START, trace);
    if s.closer == Asked {
      step := CancelTokens;
    } else if s.closer == Cancelled {
      step := CheckCount;
    } else if s.leaving != {} {
      var id :| id in s.leaving;
      step := Leave(id);
      assert |s.leaving - {id}| == |s.leaving| - 1;
    } else if s.live != {} {
      var id :| id in s.live;
      step := TakeRelease(id);
      assert |s.live - {id}| == |s.live| - 1;
      assert |s.leaving + {id}| == |s.leaving| + 1;
    } else {
      step := Finish;
    }
  }

  lemma OwedNeverGrowsWhileClosing(s: State, step: Step)
    requires Inv(s) && Closing(s) && Enabled(s, step)
    ensures Owed(Apply(s, step)) <= Owed(s)
  {
    if step.TakeRelease? && step.id in s.live {
      assert |s.leaving + {step.id}| == |s.leaving| + 1;
      assert |s.live - {step.id}| == |s.live| - 1;
    }
    if step.Leave? {
      assert |s.leaving - {step.id}| == |s.leaving| - 1;
    }
  }

  // ---------------------------------------------------------------- the scope itself

  class Scope {
    var calls: int
    var closer: Closer
    var drained: bool
    ghost var live: set<nat>
    ghost var leaving: set<nat>
    var ids: nat

    constructor ()
      ensures Now() == START
    {
      calls, closer, drained, live, leaving, ids := 0, Idle, false, {}, {}, 0;
    }

    ghost function Now(): State
      reads this
    {
      State(calls, closer, drained, live, leaving, ids)
    }

    method TryEnter(cancelled: bool) returns (entered: bool)
      requires Inv(Now())
      modifies this
      ensures Now() == Apply(old(Now()), Step.TryEnter(cancelled)) && Inv(Now())
      ensures entered <==> !old(Closing(Now())) && !cancelled
    {
      StepKeepsInv(Now(), Step.TryEnter(cancelled));
      if closer != Idle || cancelled {
        return false;
      }
      calls := calls + 1;
      live := live + {ids};
      ids := ids + 1;
      entered := true;
    }

    // The section run by a release that was taken.
    method Leave(ghost id: nat)
      requires Inv(Now()) && id in leaving
      modifies this
      ensures Now() == Apply(old(Now()), Step.Leave(id)) && Inv(Now())
    {
      StepKeepsInv(Now(), Step.Leave(id));
      calls := calls - 1;
      leaving := leaving - {id};
      if calls == 0 && closer != Idle {
        drained := true;
      }
    }

    method Close()
      requires Inv(Now())
      modifies this
      ensures Now() == Apply(old(Now()), Step.Close) && Inv(Now())
    {
      StepKeepsInv(Now(), Step.Close);
      if closer == Idle {
        closer := Asked;
      }
    }

    method CancelTokens()
      requires Inv(Now()) && closer == Asked
      modifies this
      ensures Now() == Apply(old(Now()), Step.CancelTokens) && Inv(Now())
    {
      closer := Cancelled;
    }

    method CheckCount()
      requires Inv(Now()) && closer == Cancelled
      modifies this
      ensures Now() == Apply(old(Now()), Step.CheckCount) && Inv(Now())
    {
      StepKeepsInv(Now(), Step.CheckCount);
      closer := Checked;
      if calls == 0 {
        drained := true;
      }
    }
  }

  // One call: its release can be taken once.
  class Call {
    const scope: Scope
    ghost const id: nat
    var held: bool

    constructor (scope: Scope, ghost id: nat)
      ensures this.scope == scope && this.id == id && held
    {
      this.scope, this.id, held := scope, id, true;
    }

    // Disposal, with nothing in between its two sections; a second one does nothing.
    method Dispose()
      requires Inv(scope.Now()) && (held ==> id in scope.live)
      modifies this, scope
      ensures !held && Inv(scope.Now())
      ensures scope.Now() == if old(held) then Run(old(scope.Now()), [TakeRelease(id), Leave(id)]) else old(scope.Now())
    {
      if !held {
        return;
      }
      held := false;
      ghost var taken := Apply(scope.Now(), TakeRelease(id));
      StepKeepsInv(scope.Now(), TakeRelease(id));
      assert [TakeRelease(id), Leave(id)][1..] == [Leave(id)];
      assert [Leave(id)][1..] == [];
      assert Run(taken, [Leave(id)]) == Apply(taken, Leave(id));
      scope.live, scope.leaving := scope.live - {id}, scope.leaving + {id};
      scope.Leave(id);
    }
  }
}
