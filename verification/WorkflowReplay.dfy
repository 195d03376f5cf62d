/** Recording the agent calls of a workflow run, and replaying them in a resumed run. */
module WorkflowReplay {
  import opened Wrappers
  import opened JsonTree
  import CanonicalJson

  datatype Usage = Usage(input: nat, output: nat)

  function Plus(a: Usage, b: Usage): Usage { Usage(a.input + b.input, a.output + b.output) }

  const NO_USAGE := Usage(0, 0)

  /** One journal line; operation ids are the worker's running count. */
  datatype Entry =
    | Requested(op: nat, fingerprint: string)
    | Started(op: nat)
    | Completed(op: nat, value: Json, usage: Usage)
    | Failed(op: nat)
    | Replayed(op: nat)
    | Note

  datatype ReplayCall = ReplayCall(fingerprint: string, value: Json, completed: bool, usage: Usage)

  // ---------- Rebuilding the replay list from a journal ----------

  datatype Rebuilding = Rebuilding(calls: seq<ReplayCall>, index: map<nat, nat>) {
    ghost predicate Valid() { forall op | op in index :: index[op] < |calls| }
  }

  function RebuildStep(r: Rebuilding, e: Entry): (r': Rebuilding)
    requires r.Valid()
    ensures r'.Valid()
  {
    match e
    case Requested(op, fp) =>
      Rebuilding(r.calls + [ReplayCall(fp, JNull, false, NO_USAGE)], r.index[op := |r.calls|])
    case Completed(op, value, usage) =>
      if op in r.index then
        var i := r.index[op];
        r.(calls := r.calls[i := r.calls[i].(completed := true, value := value, usage := usage)])
      else r
    case Failed(op) =>
      if op in r.index then
        var i := r.index[op];
        r.(calls := r.calls[i := r.calls[i].(completed := true, value := JNull)])
      else r
    case _ => r
  }

  function Rebuild(journal: seq<Entry>): (r: Rebuilding)
    ensures r.Valid()
  {
    if journal == [] then Rebuilding([], map[])
    else RebuildStep(Rebuild(journal[..|journal| - 1]), journal[|journal| - 1])
  }

  lemma RebuildAppend(journal: seq<Entry>, e: Entry)
    ensures Rebuild(journal + [e]) == RebuildStep(Rebuild(journal), e)
  {
    assert (journal + [e])[..|journal|] == journal;
  }

  method ReadReplayCalls(journal: seq<Entry>) returns (calls: seq<ReplayCall>)
    ensures calls == Rebuild(journal).calls
  {
    calls := [];
    var index: map<nat, nat> := map[];
    for i := 0 to |journal|
      invariant Rebuilding(calls, index) == Rebuild(journal[..i])
    {
      assert journal[..i + 1] == journal[..i] + [journal[i]];
      RebuildAppend(journal[..i], journal[i]);
      match journal[i] {
        case Requested(op, fp) =>
          index := index[op := |calls|];
          calls := calls + [ReplayCall(fp, JNull, false, NO_USAGE)];
        case Completed(op, value, usage) =>
          if op in index {
            var at := index[op];
            calls := calls[at := calls[at].(completed := true, value := value, usage := usage)];
          }
        case Failed(op) =>
          if op in index {
            var at := index[op];
            calls := calls[at := calls[at].(completed := true, value := JNull)];
          }
        case _ =>
      }
    }
    assert journal[..|journal|] == journal;
  }

  // ---------- One run ----------

  datatype Request = Request(input: Json, options: Json)
  datatype Action = Call(request: Request) | Done

  /** A deterministic script: the results so far decide what it does next. */
  type Script = seq<Json> -> Action

  datatype Config = Config(maxCalls: nat, budget: Option<nat>, fingerprint: Request -> string)

  /** How far a call gets before it returns, throws, or is cut off. */
  datatype Reached =
    | Asked
    | Working
    | Charged(usage: Usage)
    | Journaled(value: Json, usage: Usage)

  /** How a call ends.  Cancellation can fall between any two awaits, and an oversized result frame is as
      fatal: such a call is cut off and the run ends.  An ordinary exception, the delivery's included, is
      journaled as a failure and answered with null, unless that answer is cut off in turn. */
  datatype Outcome =
    | Unrecorded
    | Cut(reached: Reached)
    | Throws(reached: Reached, told: bool)
    | Delivers(value: Json, usage: Usage)

  datatype RunState = RunState(
    replay: seq<ReplayCall>, cursor: nat, diverged: bool, agentCalls: nat, usage: Usage, journal: seq<Entry>)

  datatype Reply = Seen(value: Json) | Interrupted | LimitReached

  function Exhausted(budget: Option<nat>, usage: Usage): bool {
    budget.Some? && usage.input + usage.output >= budget.value
  }

  /** What one call writes to the journal, adds to the usage, leaves for a later rebuild, and answers. */
  datatype Effect = Effect(entries: seq<Entry>, gain: Usage, kept: seq<ReplayCall>, reply: Reply) {
    predicate Valid() { |kept| <= 1 && (reply.Seen? ==> |kept| == 1) }
  }

  const NO_EFFECT := Effect([], NO_USAGE, [], Interrupted)

  function ReachedBy(live: Outcome): Reached
    requires !live.Unrecorded?
  {
    match live
    case Cut(reached) => reached
    case Throws(reached, _) => reached
    case Delivers(value, usage) => Journaled(value, usage)
  }

  function Gain(reached: Reached): Usage {
    match reached
    case Charged(usage) => usage
    case Journaled(_, usage) => usage
    case _ => NO_USAGE
  }

  function Trail(op: nat, fp: string, reached: Reached): seq<Entry> {
    match reached
    case Asked => [Requested(op, fp)]
    case Journaled(value, usage) => [Requested(op, fp), Started(op), Completed(op, value, usage)]
    case _ => [Requested(op, fp), Started(op)]
  }

  function Open(fp: string): ReplayCall { ReplayCall(fp, JNull, false, NO_USAGE) }

  function TraceOf(fp: string, reached: Reached): ReplayCall {
    match reached
    case Journaled(value, usage) => ReplayCall(fp, value, true, usage)
    case _ => Open(fp)
  }

  /** A call that is not cut off and has no result, or cannot deliver it, ends in a failure. */
  predicate FailsAtEnd(live: Outcome, result: Option<Json>) {
    live.Throws? || (live.Delivers? && result.None?)
  }

  function Answer(live: Outcome, result: Option<Json>): Reply {
    if live.Delivers? then Seen(if result.Some? then result.value else JNull)
    else if live.Throws? && live.told then Seen(JNull)
    else Interrupted
  }

  /** The part of a call that produces its result: what it journals, charges, leaves for a later rebuild,
      and the result it has to deliver, if any. */
  datatype Work = Work(trail: seq<Entry>, gain: Usage, trace: ReplayCall, result: Option<Json>)

  function LiveWork(cfg: Config, usage: Usage, op: nat, fp: string, live: Outcome): Work
    requires !live.Unrecorded?
  {
    var reached := if Exhausted(cfg.budget, usage) then Asked else ReachedBy(live);
    Work(Trail(op, fp, reached), Gain(reached), TraceOf(fp, reached),
         if reached.Journaled? then Some(reached.value) else None)
  }

  /** A call answered from the replay list: its usage is added before its entry is journaled, and only a
      cut can come before that. */
  function ReplayWork(cached: ReplayCall, op: nat, fp: string, live: Outcome): Work
    requires !live.Unrecorded?
  {
    var reached := ReachedBy(live);
    Work(if reached.Journaled? then [Requested(op, fp), Replayed(op)] else [Requested(op, fp)],
         if live.Cut? && (reached.Asked? || reached.Working?) then NO_USAGE else cached.usage,
         Open(fp), Some(cached.value))
  }

  /** The end of a call once its work is done, thrown or cut off. */
  function Close(live: Outcome, op: nat, w: Work): (e: Effect)
    ensures |e.kept| == 1
  {
    if FailsAtEnd(live, w.result) then
      Effect(w.trail + [Failed(op)], w.gain, [w.trace.(completed := true, value := JNull)], Answer(live, w.result))
    else Effect(w.trail, w.gain, [w.trace], Answer(live, w.result))
  }

  predicate Hit(st: RunState, fp: string) {
    !st.diverged && st.cursor < |st.replay| && st.replay[st.cursor].completed && st.replay[st.cursor].fingerprint == fp
  }

  function CallWork(cfg: Config, st: RunState, fp: string, live: Outcome): Work
    requires !live.Unrecorded?
  {
    var op := st.agentCalls + 1;
    if Hit(st, fp) then ReplayWork(st.replay[st.cursor], op, fp, live) else LiveWork(cfg, st.usage, op, fp, live)
  }

  function CallEffect(cfg: Config, st: RunState, fp: string, live: Outcome): (e: Effect)
    ensures e.Valid()
  {
    if live.Unrecorded? then NO_EFFECT else Close(live, st.agentCalls + 1, CallWork(cfg, st, fp, live))
  }

  function CallStep(cfg: Config, st: RunState, fp: string, live: Outcome): (RunState, Reply) {
    var op := st.agentCalls + 1;
    if op > cfg.maxCalls then (st.(agentCalls := op), LimitReached)
    else
      var e := CallEffect(cfg, st, fp, live);
      var cursor := if !st.diverged && st.cursor < |st.replay| then st.cursor + 1 else st.cursor;
      (RunState(st.replay, cursor, !Hit(st, fp), op, Plus(st.usage, e.gain), st.journal + e.entries), e.reply)
  }

  /** How the part of a call that produces its result ends. */
  datatype Attempt = Returned(value: Json) | Threw | CutOff

  predicate Fitting(attempt: Attempt, w: Work, live: Outcome) {
    live.Delivers? ==> attempt == if w.result.Some? then Returned(w.result.value) else Threw
  }

  /** The run object that the host updates call by call. */
  class ActiveRun {
    const cfg: Config
    const replayCalls: seq<ReplayCall>
    var replayCursor: nat
    var replayDiverged: bool
    var agentCalls: nat
    var usage: Usage
    var journal: seq<Entry>

    function Abs(): RunState
      reads this
    {
      RunState(replayCalls, replayCursor, replayDiverged, agentCalls, usage, journal)
    }

    constructor (cfg: Config, replayCalls: seq<ReplayCall>)
      ensures Abs() == Fresh(replayCalls) && this.cfg == cfg
    {
      this.cfg, this.replayCalls := cfg, replayCalls;
      replayCursor, replayDiverged, agentCalls, usage, journal := 0, false, 0, NO_USAGE, [];
    }

    method Append(e: Entry)
      modifies this`journal
      ensures journal == old(journal) + [e]
    {
      journal := journal + [e];
    }

    /** The replay decision, taken under the replay lock. */
    method TakeReplay(fingerprint: string) returns (replayed: Option<ReplayCall>)
      modifies this`replayCursor, this`replayDiverged
      ensures replayed == if Hit(old(Abs()), fingerprint) then Some(replayCalls[old(replayCursor)]) else None
      ensures replayDiverged == !Hit(old(Abs()), fingerprint)
      ensures replayCursor ==
              if !old(replayDiverged) && old(replayCursor) < |replayCalls| then old(replayCursor) + 1
              else old(replayCursor)
    {
      replayed := None;
      if !replayDiverged && replayCursor < |replayCalls| {
        var cached := replayCalls[replayCursor];
        replayCursor := replayCursor + 1;
        if cached.completed && cached.fingerprint == fingerprint {
          replayed := Some(cached);
        } else {
          replayDiverged := true;
        }
      } else if !replayDiverged {
        replayDiverged := true;
      }
    }

    /** The agent's own work, after the request has been journaled. */
    method ExecuteLive(ghost fingerprint: string, live: Outcome) returns (attempt: Attempt)
      requires !live.Unrecorded?
      modifies this`usage, this`journal
      ensures var w := LiveWork(cfg, old(usage), agentCalls, fingerprint, live);
              journal == old(journal) + w.trail[1..] && usage == Plus(old(usage), w.gain) && Fitting(attempt, w, live)
    {
      var broken := if live.Cut? then CutOff else Threw;
      if cfg.budget.Some? && usage.input + usage.output >= cfg.budget.value {
        return broken;
      }
      var reached := ReachedBy(live);
      if reached.Asked? {
        return broken;
      }
      Append(Started(agentCalls));
      if reached.Working? {
        return broken;
      }
      usage := Plus(usage, reached.usage);
      if reached.Charged? {
        return broken;
      }
      Append(Completed(agentCalls, reached.value, reached.usage));
      return Returned(reached.value);
    }

    /** A call answered from the replay list, after the request has been journaled. */
    method ExecuteReplayed(cached: ReplayCall, ghost fingerprint: string, live: Outcome) returns (attempt: Attempt)
      requires !live.Unrecorded?
      modifies this`usage, this`journal
      ensures var w := ReplayWork(cached, agentCalls, fingerprint, live);
              journal == old(journal) + w.trail[1..] && usage == Plus(old(usage), w.gain) && Fitting(attempt, w, live)
    {
      var reached := ReachedBy(live);
      if live.Cut? && (reached.Asked? || reached.Working?) {
        return CutOff;
      }
      usage := Plus(usage, cached.usage);
      if !reached.Journaled? {
        return if live.Cut? then CutOff else Threw;
      }
      Append(Replayed(agentCalls));
      return Returned(cached.value);
    }

    /** The request is journaled, then answered from the list or worked on. */
    method ExecuteRequest(fingerprint: string, replayed: Option<ReplayCall>, live: Outcome) returns (attempt: Attempt)
      requires !live.Unrecorded?
      modifies this`usage, this`journal
      ensures var w := if replayed.Some? then ReplayWork(replayed.value, agentCalls, fingerprint, live)
                       else LiveWork(cfg, old(usage), agentCalls, fingerprint, live);
              journal == old(journal) + w.trail && usage == Plus(old(usage), w.gain) && Fitting(attempt, w, live)
    {
      Append(Requested(agentCalls, fingerprint));
      if replayed.Some? {
        attempt := ExecuteReplayed(replayed.value, fingerprint, live);
      } else {
        attempt := ExecuteLive(fingerprint, live);
      }
      ghost var w := if replayed.Some? then ReplayWork(replayed.value, agentCalls, fingerprint, live)
                     else LiveWork(cfg, old(usage), agentCalls, fingerprint, live);
      assert [Requested(agentCalls, fingerprint)] + w.trail[1..] == w.trail;
    }

    /** Delivery of the result, with the handler that turns a failure into a null result. */
    method Deliver(attempt: Attempt, live: Outcome, ghost w: Work) returns (reply: Reply)
      requires !live.Unrecorded? && Fitting(attempt, w, live)
      modifies this`journal
      ensures journal == if FailsAtEnd(live, w.result) then old(journal) + [Failed(agentCalls)] else old(journal)
      ensures reply == Answer(live, w.result)
    {
      if live.Cut? {
        return Interrupted;
      }
      if attempt.Returned? && live.Delivers? {
        return Seen(attempt.value);
      }
      Append(Failed(agentCalls));
      return if live.Throws? && !live.told then Interrupted else Seen(JNull);
    }

    method ExecuteAgent(fingerprint: string, live: Outcome) returns (reply: Reply)
      modifies this
      ensures (Abs(), reply) == CallStep(cfg, old(Abs()), fingerprint, live)
    {
      agentCalls := agentCalls + 1;
      if agentCalls > cfg.maxCalls {
        return LimitReached;
      }
      var replayed := TakeReplay(fingerprint);
      if live.Unrecorded? {
        assert journal == old(journal) + [];
        return Interrupted;
      }
      ghost var w := CallWork(cfg, old(Abs()), fingerprint, live);
      var attempt := ExecuteRequest(fingerprint, replayed, live);
      assert journal == old(journal) + w.trail;
      reply := Deliver(attempt, live, w);
      assert journal == old(journal) + Close(live, agentCalls, w).entries;
    }
  }

  function Fresh(replay: seq<ReplayCall>): RunState {
    RunState(replay, 0, false, 0, NO_USAGE, [])
  }

  /** One call as the script saw it, the usage it added, and what a later rebuild makes of it. */
  datatype Logged = Logged(fingerprint: string, value: Json, charged: Usage, kept: ReplayCall, replayed: bool)

  /** A stopped run ends with a call that was cut off. */
  datatype Ending = Finished | Stopped(last: Effect) | OverLimit

  datatype RunEnd = RunEnd(st: RunState, log: seq<Logged>, ending: Ending)

  function Values(log: seq<Logged>): seq<Json> {
    seq(|log|, i requires 0 <= i < |log| => log[i].value)
  }

  function LogOf(cfg: Config, st: RunState, fp: string, live: Outcome): Logged
    requires CallEffect(cfg, st, fp, live).reply.Seen?
  {
    var e := CallEffect(cfg, st, fp, live);
    Logged(fp, e.reply.value, e.gain, e.kept[0], Hit(st, fp))
  }

  function Run(s: Script, cfg: Config, env: nat -> Outcome, st: RunState, log: seq<Logged>): RunEnd
    requires st.agentCalls == |log| <= cfg.maxCalls
    decreases cfg.maxCalls - |log|
  {
    match s(Values(log))
    case Done => RunEnd(st, log, Finished)
    case Call(request) =>
      var fp := cfg.fingerprint(request);
      var live := env(|log|);
      var (st', reply) := CallStep(cfg, st, fp, live);
      match reply
      case LimitReached => RunEnd(st', log, OverLimit)
      case Interrupted => RunEnd(st', log, Stopped(CallEffect(cfg, st, fp, live)))
      case Seen(_) => Run(s, cfg, env, st', log + [LogOf(cfg, st, fp, live)])
  }

  // ---------- What the journal says about a run ----------

  function KeptLog(log: seq<Logged>): seq<ReplayCall> {
    seq(|log|, i requires 0 <= i < |log| => log[i].kept)
  }

  function TotalCharged(log: seq<Logged>): Usage {
    if log == [] then NO_USAGE else Plus(TotalCharged(log[..|log| - 1]), log[|log| - 1].charged)
  }

  function TotalRecorded(log: seq<Logged>): Usage {
    if log == [] then NO_USAGE else Plus(TotalRecorded(log[..|log| - 1]), log[|log| - 1].kept.usage)
  }

  ghost predicate JournalDescribes(st: RunState, log: seq<Logged>) {
    var r := Rebuild(st.journal);
    st.agentCalls == |log| && r.calls == KeptLog(log) && (forall op | op in r.index :: op <= |log|)
    && st.usage == TotalCharged(log)
  }

  /** The entries turn the journal into one that rebuilds to one more call. */
  ghost predicate Adds(journal: seq<Entry>, entries: seq<Entry>, op: nat, call: ReplayCall) {
    var r := Rebuild(journal);
    Rebuild(journal + entries) == Rebuilding(r.calls + [call], r.index[op := |r.calls|])
  }

  lemma AddsRequest(journal: seq<Entry>, op: nat, fp: string)
    ensures Adds(journal, [Requested(op, fp)], op, Open(fp))
  {
    RebuildAppend(journal, Requested(op, fp));
  }

  /** An entry the reader passes over. */
  lemma AddsNothingMore(journal: seq<Entry>, entries: seq<Entry>, e: Entry, op: nat, call: ReplayCall)
    requires Adds(journal, entries, op, call) && (e.Started? || e.Replayed?)
    ensures Adds(journal, entries + [e], op, call)
  {
    assert journal + (entries + [e]) == (journal + entries) + [e];
    RebuildAppend(journal + entries, e);
  }

  lemma AddsCompletion(journal: seq<Entry>, entries: seq<Entry>, op: nat, call: ReplayCall, value: Json, usage: Usage)
    requires Adds(journal, entries, op, call)
    ensures Adds(journal, entries + [Completed(op, value, usage)], op, ReplayCall(call.fingerprint, value, true, usage))
  {
    var e := Completed(op, value, usage);
    assert journal + (entries + [e]) == (journal + entries) + [e];
    RebuildAppend(journal + entries, e);
    var calls := Rebuild(journal).calls;
    assert (calls + [call])[|calls| := ReplayCall(call.fingerprint, value, true, usage)]
        == calls + [ReplayCall(call.fingerprint, value, true, usage)];
  }

  lemma AddsFailure(journal: seq<Entry>, entries: seq<Entry>, op: nat, call: ReplayCall)
    requires Adds(journal, entries, op, call)
    ensures Adds(journal, entries + [Failed(op)], op, call.(completed := true, value := JNull))
  {
    var e := Failed(op);
    assert journal + (entries + [e]) == (journal + entries) + [e];
    RebuildAppend(journal + entries, e);
    var calls, failed := Rebuild(journal).calls, call.(completed := true, value := JNull);
    assert (calls + [call])[|calls| := failed] == calls + [failed];
  }

  lemma TrailAdds(journal: seq<Entry>, op: nat, fp: string, reached: Reached)
    ensures Adds(journal, Trail(op, fp, reached), op, TraceOf(fp, reached))
  {
    AddsRequest(journal, op, fp);
    var started := [Requested(op, fp)] + [Started(op)];
    AddsNothingMore(journal, [Requested(op, fp)], Started(op), op, Open(fp));
    match reached {
      case Asked =>
      case Working => assert Trail(op, fp, reached) == started;
      case Charged(_) => assert Trail(op, fp, reached) == started;
      case Journaled(value, usage) =>
        AddsCompletion(journal, started, op, Open(fp), value, usage);
        assert Trail(op, fp, reached) == started + [Completed(op, value, usage)];
    }
  }

  lemma CloseAdds(journal: seq<Entry>, live: Outcome, op: nat, w: Work)
    requires Adds(journal, w.trail, op, w.trace)
    ensures var e := Close(live, op, w); Adds(journal, e.entries, op, e.kept[0])
  {
    AddsFailure(journal, w.trail, op, w.trace);
  }

  lemma WorkAdds(journal: seq<Entry>, cfg: Config, st: RunState, fp: string, live: Outcome)
    requires !live.Unrecorded?
    ensures var w := CallWork(cfg, st, fp, live); Adds(journal, w.trail, st.agentCalls + 1, w.trace)
  {
    var op := st.agentCalls + 1;
    if Hit(st, fp) {
      AddsRequest(journal, op, fp);
      AddsNothingMore(journal, [Requested(op, fp)], Replayed(op), op, Open(fp));
      assert [Requested(op, fp)] + [Replayed(op)] == [Requested(op, fp), Replayed(op)];
    } else {
      TrailAdds(journal, op, fp, if Exhausted(cfg.budget, st.usage) then Asked else ReachedBy(live));
    }
  }

  /** What a call leaves in the journal rebuilds to what its effect says is kept. */
  lemma EffectRebuilds(journal: seq<Entry>, cfg: Config, st: RunState, fp: string, live: Outcome)
    ensures var e := CallEffect(cfg, st, fp, live);
            if e.kept == [] then e.entries == [] else Adds(journal, e.entries, st.agentCalls + 1, e.kept[0])
  {
    if !live.Unrecorded? {
      WorkAdds(journal, cfg, st, fp, live);
      CloseAdds(journal, live, st.agentCalls + 1, CallWork(cfg, st, fp, live));
    }
  }

  lemma CallIsJournaled(cfg: Config, st: RunState, fp: string, live: Outcome, log: seq<Logged>)
    requires JournalDescribes(st, log) && |log| < cfg.maxCalls
    ensures var e := CallEffect(cfg, st, fp, live);
            var r := Rebuild(st.journal + e.entries);
            r.calls == KeptLog(log) + e.kept && forall op | op in r.index :: op <= |log| + 1
  {
    var e := CallEffect(cfg, st, fp, live);
    EffectRebuilds(st.journal, cfg, st, fp, live);
    if e.kept == [] {
      assert st.journal + [] == st.journal;
    } else {
      assert e.kept == [e.kept[0]];
    }
  }

  lemma CallKeepsJournal(cfg: Config, st: RunState, fp: string, live: Outcome, log: seq<Logged>)
    requires JournalDescribes(st, log) && |log| < cfg.maxCalls && CallEffect(cfg, st, fp, live).reply.Seen?
    ensures JournalDescribes(CallStep(cfg, st, fp, live).0, log + [LogOf(cfg, st, fp, live)])
  {
    CallIsJournaled(cfg, st, fp, live, log);
    var l := LogOf(cfg, st, fp, live);
    assert (log + [l])[..|log|] == log;
    assert KeptLog(log + [l]) == KeptLog(log) + CallEffect(cfg, st, fp, live).kept;
  }

  /** What a rebuild keeps of a call the script saw: an answer got live is kept as it was seen; one got
      from replay is kept only as the failure it may have ended in. */
  predicate KeptFits(l: Logged) {
    l.kept.fingerprint == l.fingerprint
    && (l.kept.usage == l.charged || l.kept.usage == NO_USAGE)
    && (l.kept.completed ==> l.kept.value == l.value)
    && (!l.replayed ==> l.kept.completed)
    && (l.replayed && l.kept.completed ==> l.value == JNull && l.kept.usage == NO_USAGE)
  }

  function LeftOver(ending: Ending): seq<ReplayCall> { if ending.Stopped? then ending.last.kept else [] }

  function LastGain(ending: Ending): Usage { if ending.Stopped? then ending.last.gain else NO_USAGE }

  /** Whatever the environment does and wherever the run is cut off, the rebuilt list is one entry for each
      call the script saw, in order, and at most one further entry for a call that was cut off; the usage is
      what those calls added. */
  ghost predicate RunFacts(s: Script, cfg: Config, end: RunEnd) {
    Rebuild(end.st.journal).calls == KeptLog(end.log) + LeftOver(end.ending)
    && |LeftOver(end.ending)| <= 1 && |end.log| + |LeftOver(end.ending)| <= cfg.maxCalls
    && end.st.usage == Plus(TotalCharged(end.log), LastGain(end.ending))
    && (forall k | 0 <= k < |end.log| :: KeptFits(end.log[k]))
    && forall k | 0 <= k < |end.log| :: Issues(s, cfg, Values(end.log[..k]), end.log[k].fingerprint)
  }

  predicate Issues(s: Script, cfg: Config, seen: seq<Json>, fp: string) {
    s(seen).Call? && cfg.fingerprint(s(seen).request) == fp
  }

  /** The facts of a run that is still going. */
  ghost predicate SoFar(s: Script, cfg: Config, st: RunState, log: seq<Logged>) {
    JournalDescribes(st, log) && |log| <= cfg.maxCalls
    && (forall k | 0 <= k < |log| :: Issues(s, cfg, Values(log[..k]), log[k].fingerprint))
    && (forall k | 0 <= k < |log| :: KeptFits(log[k]))
  }

  lemma OneMoreCall(s: Script, cfg: Config, st: RunState, log: seq<Logged>, live: Outcome)
    requires SoFar(s, cfg, st, log) && s(Values(log)).Call? && |log| < cfg.maxCalls
    requires CallStep(cfg, st, cfg.fingerprint(s(Values(log)).request), live).1.Seen?
    ensures var fp := cfg.fingerprint(s(Values(log)).request);
            var (st', reply) := CallStep(cfg, st, fp, live);
            SoFar(s, cfg, st', log + [LogOf(cfg, st, fp, live)])
  {
    var fp := cfg.fingerprint(s(Values(log)).request);
    CallKeepsJournal(cfg, st, fp, live, log);
    SeenCallFits(cfg, st, fp, live);
    IssuesOneMore(s, cfg, log, LogOf(cfg, st, fp, live));
  }

  lemma SeenCallFits(cfg: Config, st: RunState, fp: string, live: Outcome)
    requires CallEffect(cfg, st, fp, live).reply.Seen?
    ensures KeptFits(LogOf(cfg, st, fp, live))
  {
  }

  lemma IssuesOneMore(s: Script, cfg: Config, log: seq<Logged>, l: Logged)
    requires forall k | 0 <= k < |log| :: Issues(s, cfg, Values(log[..k]), log[k].fingerprint)
    requires Issues(s, cfg, Values(log), l.fingerprint)
    ensures var log' := log + [l]; forall k | 0 <= k < |log'| :: Issues(s, cfg, Values(log'[..k]), log'[k].fingerprint)
  {
    var log' := log + [l];
    forall k | 0 <= k < |log'| ensures Issues(s, cfg, Values(log'[..k]), log'[k].fingerprint) {
      assert log'[..k] == if k < |log| then log[..k] else log;
    }
  }

  lemma EndedFacts(s: Script, cfg: Config, st: RunState, log: seq<Logged>, st': RunState, ending: Ending)
    requires SoFar(s, cfg, st, log) && !ending.Stopped? && st'.journal == st.journal && st'.usage == st.usage
    ensures RunFacts(s, cfg, RunEnd(st', log, ending))
  {
  }

  /** The facts of a run that ends with a call that was cut off. */
  lemma LastCall(s: Script, cfg: Config, st: RunState, log: seq<Logged>, fp: string, live: Outcome)
    requires SoFar(s, cfg, st, log) && |log| < cfg.maxCalls && CallEffect(cfg, st, fp, live).reply.Interrupted?
    ensures RunFacts(s, cfg, RunEnd(CallStep(cfg, st, fp, live).0, log, Stopped(CallEffect(cfg, st, fp, live))))
  {
    CallIsJournaled(cfg, st, fp, live, log);
  }

  lemma {:induction false} RunIsJournaled(s: Script, cfg: Config, env: nat -> Outcome, st: RunState, log: seq<Logged>)
    requires SoFar(s, cfg, st, log)
    ensures RunFacts(s, cfg, Run(s, cfg, env, st, log))
    decreases cfg.maxCalls - |log|
  {
    if s(Values(log)).Call? {
      var fp, live := cfg.fingerprint(s(Values(log)).request), env(|log|);
      var (st', reply) := CallStep(cfg, st, fp, live);
      if reply.Seen? {
        OneMoreCall(s, cfg, st, log, live);
        RunIsJournaled(s, cfg, env, st', log + [LogOf(cfg, st, fp, live)]);
      } else if reply.Interrupted? {
        LastCall(s, cfg, st, log, fp, live);
      } else {
        EndedFacts(s, cfg, st, log, st', OverLimit);
      }
    } else {
      EndedFacts(s, cfg, st, log, st, Finished);
    }
  }

  /** A call that was cut off leaves an entry unless it was cut off before its request was journaled, and is
      complete in the journal exactly when it was live and its completion had been journaled, or its failure
      had. */
  lemma CutOffCallIsCompleteIff(cfg: Config, st: RunState, fp: string, live: Outcome)
    requires CallEffect(cfg, st, fp, live).reply.Interrupted?
    ensures CallEffect(cfg, st, fp, live).kept == [] <==> live.Unrecorded?
    ensures var e := CallEffect(cfg, st, fp, live); e.kept != [] ==> e.kept[0].usage in {e.gain, NO_USAGE}
    ensures var kept := CallEffect(cfg, st, fp, live).kept;
            kept != [] && kept[0].completed
            <==> live.Throws?
                 || (live.Cut? && live.reached.Journaled? && !Hit(st, fp) && !Exhausted(cfg.budget, st.usage))
  {
  }

  // ---------- Resuming ----------

  predicate Fits(calls: seq<ReplayCall>, log: seq<Logged>, k: nat)
    requires k < |log|
  {
    k < |calls| && calls[k].completed && calls[k].fingerprint == log[k].fingerprint
  }

  /** The replayed calls of a run are those whose requests, and all requests before them, fit the list. */
  ghost predicate GreedilyReplayed(env: nat -> Outcome, calls: seq<ReplayCall>, log: seq<Logged>) {
    forall k | 0 <= k < |log| ::
      (log[k].replayed <==> forall j | 0 <= j <= k :: Fits(calls, log, j))
      && (log[k].replayed ==> k < |calls| && log[k].charged == calls[k].usage
                              && log[k].value == if env(k).Delivers? then calls[k].value else JNull)
  }

  ghost predicate ReplayInv(env: nat -> Outcome, st: RunState, log: seq<Logged>) {
    GreedilyReplayed(env, st.replay, log)
    && (st.diverged <==> exists j :: 0 <= j < |log| && !Fits(st.replay, log, j))
    && (!st.diverged ==> st.cursor == |log| <= |st.replay|)
  }

  lemma ReplayInvKept(cfg: Config, env: nat -> Outcome, st: RunState, log: seq<Logged>, fp: string)
    requires ReplayInv(env, st, log) && |log| < cfg.maxCalls && st.agentCalls == |log|
    requires CallEffect(cfg, st, fp, env(|log|)).reply.Seen?
    ensures ReplayInv(env, CallStep(cfg, st, fp, env(|log|)).0, log + [LogOf(cfg, st, fp, env(|log|))])
  {
    var l := LogOf(cfg, st, fp, env(|log|));
    var log' := log + [l];
    assert log'[|log|] == l;
    forall j | 0 <= j < |log| ensures Fits(st.replay, log', j) == Fits(st.replay, log, j) {
      assert log'[j] == log[j];
    }
    assert l.replayed <==> !st.diverged && Fits(st.replay, log', |log|);
  }

  /** In every run, from any list and in any environment, a call is answered from the list exactly when it
      and all calls before it fit the list, entry by entry. */
  lemma {:induction false} ReplayIsGreedy(s: Script, cfg: Config, env: nat -> Outcome, st: RunState, log: seq<Logged>)
    requires st.agentCalls == |log| <= cfg.maxCalls && ReplayInv(env, st, log)
    ensures GreedilyReplayed(env, st.replay, Run(s, cfg, env, st, log).log)
    decreases cfg.maxCalls - |log|
  {
    if s(Values(log)).Call? {
      var fp := cfg.fingerprint(s(Values(log)).request);
      var (st', reply) := CallStep(cfg, st, fp, env(|log|));
      if reply.Seen? {
        ReplayInvKept(cfg, env, st, log, fp);
        ReplayIsGreedy(s, cfg, env, st', log + [LogOf(cfg, st, fp, env(|log|))]);
      }
    }
  }

  /** After the first mismatch every call is live. */
  lemma {:induction false} DivergedRunStaysLive(s: Script, cfg: Config, env: nat -> Outcome, st: RunState,
                                                log: seq<Logged>)
    requires st.agentCalls == |log| <= cfg.maxCalls && st.diverged
    ensures var end := Run(s, cfg, env, st, log);
            log <= end.log && forall k | |log| <= k < |end.log| :: !end.log[k].replayed
    decreases cfg.maxCalls - |log|
  {
    if s(Values(log)).Call? {
      var fp := cfg.fingerprint(s(Values(log)).request);
      var (st', reply) := CallStep(cfg, st, fp, env(|log|));
      if reply.Seen? {
        DivergedRunStaysLive(s, cfg, env, st', log + [LogOf(cfg, st, fp, env(|log|))]);
      }
    }
  }

  function CallValues(calls: seq<ReplayCall>): seq<Json> {
    seq(|calls|, i requires 0 <= i < |calls| => calls[i].value)
  }

  predicate Matches(s: Script, cfg: Config, calls: seq<ReplayCall>, k: nat)
    requires k < |calls|
  {
    calls[k].completed && Issues(s, cfg, CallValues(calls[..k]), calls[k].fingerprint)
  }

  /** Length of the longest prefix of completed calls that the script would issue again. */
  function MatchLength(s: Script, cfg: Config, calls: seq<ReplayCall>, k: nat): (n: nat)
    requires k <= |calls|
    ensures k <= n <= |calls|
    ensures forall i | k <= i < n :: Matches(s, cfg, calls, i)
    ensures n < |calls| ==> !Matches(s, cfg, calls, n)
    decreases |calls| - k
  {
    if k < |calls| && Matches(s, cfg, calls, k) then MatchLength(s, cfg, calls, k + 1) else k
  }

  /** How many of the first n calls the environment answers before it disturbs one. */
  function Undisturbed(env: nat -> Outcome, n: nat): (m: nat)
    ensures m <= n && (forall k | 0 <= k < m :: env(k).Delivers?) && (m < n ==> !env(m).Delivers?)
  {
    if n == 0 then 0
    else
      var m := Undisturbed(env, n - 1);
      if m == n - 1 && env(m).Delivers? then n else m
  }

  function RunFresh(s: Script, cfg: Config, env: nat -> Outcome, replay: seq<ReplayCall>): RunEnd {
    Run(s, cfg, env, Fresh(replay), [])
  }

  /** Resuming keeps the limits and the token budget; arguments, and so fingerprints, may change. */
  function Resume(s: Script, cfg: Config, env: nat -> Outcome, source: RunEnd): RunEnd {
    RunFresh(s, cfg, env, Rebuild(source.st.journal).calls)
  }

  /** While results are delivered the script sees those of the list. */
  lemma {:induction false} PrefixIsReached(s: Script, cfg: Config, env: nat -> Outcome, st: RunState, log: seq<Logged>,
                                           m: nat)
    requires st.agentCalls == |log| <= m <= |st.replay| <= cfg.maxCalls && ReplayInv(env, st, log)
    requires forall k | 0 <= k < m :: env(k).Delivers? && Matches(s, cfg, st.replay, k)
    requires (forall k | 0 <= k < |log| :: Fits(st.replay, log, k)) && Values(log) == CallValues(st.replay[..|log|])
    ensures var end := Run(s, cfg, env, st, log);
            m <= |end.log| && Values(end.log[..m]) == CallValues(st.replay[..m])
            && forall k | 0 <= k < m :: Fits(st.replay, end.log, k)
    decreases m - |log|
  {
    var k := |log|;
    if k < m {
      assert Matches(s, cfg, st.replay, k);
      var fp := st.replay[k].fingerprint;
      var l := LogOf(cfg, st, fp, env(k));
      ReplayInvKept(cfg, env, st, log, fp);
      var log' := log + [l];
      forall j | 0 <= j < |log'| ensures Fits(st.replay, log', j) {
        assert j < k ==> log'[j] == log[j] && Fits(st.replay, log, j);
      }
      assert CallValues(st.replay[..k + 1]) == CallValues(st.replay[..k]) + [st.replay[k].value];
      assert Values(log') == Values(log) + [l.value];
      PrefixIsReached(s, cfg, env, CallStep(cfg, st, fp, env(k)).0, log', m);
    } else {
      LogOnlyGrows(s, cfg, env, st, log);
      var end := Run(s, cfg, env, st, log);
      assert end.log[..m] == log;
      forall j | 0 <= j < m ensures Fits(st.replay, end.log, j) {
        assert end.log[j] == log[j] && Fits(st.replay, log, j);
      }
    }
  }

  lemma {:induction false} LogOnlyGrows(s: Script, cfg: Config, env: nat -> Outcome, st: RunState, log: seq<Logged>)
    requires st.agentCalls == |log| <= cfg.maxCalls
    ensures log <= Run(s, cfg, env, st, log).log
    decreases cfg.maxCalls - |log|
  {
    if s(Values(log)).Call? {
      var fp := cfg.fingerprint(s(Values(log)).request);
      var (st', reply) := CallStep(cfg, st, fp, env(|log|));
      if reply.Seen? {
        LogOnlyGrows(s, cfg, env, st', log + [LogOf(cfg, st, fp, env(|log|))]);
      }
    }
  }

  /** A resumed run against the list it was given: m is how far the longest matching prefix n is delivered. */
  ghost predicate ReplaysPrefix(calls: seq<ReplayCall>, resumed: RunEnd, n: nat, m: nat)
    requires m <= n <= |calls|
  {
    m <= |resumed.log|
    && (forall k | 0 <= k < m ::
          resumed.log[k].replayed && resumed.log[k].value == calls[k].value && resumed.log[k].charged == calls[k].usage)
    && (m == n ==> forall k | n <= k < |resumed.log| :: !resumed.log[k].replayed)
  }

  /** What a resumed run owes the list it was given. */
  ghost predicate Fidelity(s: Script, cfg: Config, env: nat -> Outcome, calls: seq<ReplayCall>, resumed: RunEnd) {
    var n := MatchLength(s, cfg, calls, 0);
    ReplaysPrefix(calls, resumed, n, Undisturbed(env, n))
    && GreedilyReplayed(env, calls, resumed.log)
    && resumed.st.usage == Plus(TotalCharged(resumed.log), LastGain(resumed.ending))
  }

  lemma ListIsReplayed(s: Script, cfg: Config, env: nat -> Outcome, calls: seq<ReplayCall>)
    requires |calls| <= cfg.maxCalls
    ensures Fidelity(s, cfg, env, calls, RunFresh(s, cfg, env, calls))
  {
    var n := MatchLength(s, cfg, calls, 0);
    var m := Undisturbed(env, n);
    var resumed := RunFresh(s, cfg, env, calls);
    ReplayIsGreedy(s, cfg, env, Fresh(calls), []);
    PrefixIsReached(s, cfg, env, Fresh(calls), [], m);
    assert forall k | 0 <= k < m :: resumed.log[k].replayed;
    UsageAddsUp(s, cfg, env, calls);
    if m == n && n < |resumed.log| {
      NothingReplayedPastMatch(s, cfg, env, calls, n);
    }
  }

  lemma NothingReplayedPastMatch(s: Script, cfg: Config, env: nat -> Outcome, calls: seq<ReplayCall>, n: nat)
    requires n < |RunFresh(s, cfg, env, calls).log| && n <= |calls| && (n < |calls| ==> !Matches(s, cfg, calls, n))
    requires GreedilyReplayed(env, calls, RunFresh(s, cfg, env, calls).log)
    requires Values(RunFresh(s, cfg, env, calls).log[..n]) == CallValues(calls[..n])
    ensures var log := RunFresh(s, cfg, env, calls).log; forall k | n <= k < |log| :: !log[k].replayed
  {
    RunIsJournaled(s, cfg, env, Fresh(calls), []);
    var log := RunFresh(s, cfg, env, calls).log;
    assert Issues(s, cfg, Values(log[..n]), log[n].fingerprint);
    assert !Fits(calls, log, n);
  }

  /** Replay fidelity, for any source run, any script and any environments. */
  lemma ResumeReplaysLongestPrefix(s: Script, cfg: Config, env: nat -> Outcome, replay: seq<ReplayCall>,
      s': Script, cfg': Config, env': nat -> Outcome)
    requires cfg'.maxCalls == cfg.maxCalls
    ensures var source := RunFresh(s, cfg, env, replay);
            var calls := KeptLog(source.log) + LeftOver(source.ending);
            Fidelity(s', cfg', env', calls, Resume(s', cfg', env', source))
  {
    RunIsJournaled(s, cfg, env, Fresh(replay), []);
    ListIsReplayed(s', cfg', env', Rebuild(RunFresh(s, cfg, env, replay).st.journal).calls);
  }

  lemma UsageAddsUp(s: Script, cfg: Config, env: nat -> Outcome, calls: seq<ReplayCall>)
    ensures var end := RunFresh(s, cfg, env, calls); end.st.usage == Plus(TotalCharged(end.log), LastGain(end.ending))
  {
    RunIsJournaled(s, cfg, env, Fresh(calls), []);
  }

  /** A resumed run replays a call whose result the source's script never saw exactly when it has replayed
      all the others, that call was cut off after its end had been journaled, and it is issued again. */
  lemma UnseenCallIsReplayedIff(s: Script, cfg: Config, env: nat -> Outcome, replay: seq<ReplayCall>,
      s': Script, cfg': Config, env': nat -> Outcome)
    requires cfg'.maxCalls == cfg.maxCalls
    ensures var source := RunFresh(s, cfg, env, replay);
            var resumed := Resume(s', cfg', env', source);
            var unseen := LeftOver(source.ending);
            forall k | |source.log| <= k < |resumed.log| ::
              resumed.log[k].replayed
              <==> k == |source.log| && unseen != [] && unseen[0].completed
                   && unseen[0].fingerprint == resumed.log[k].fingerprint
                   && forall j | 0 <= j < k :: resumed.log[j].replayed
  {
    var source := RunFresh(s, cfg, env, replay);
    var resumed := Resume(s', cfg', env', source);
    var unseen, calls := LeftOver(source.ending), KeptLog(source.log) + LeftOver(source.ending);
    ResumeReplaysLongestPrefix(s, cfg, env, replay, s', cfg', env');
    RunIsJournaled(s, cfg, env, Fresh(replay), []);
    forall k | |source.log| <= k < |resumed.log|
      ensures resumed.log[k].replayed
              <==> k == |source.log| && unseen != [] && unseen[0].completed
                   && unseen[0].fingerprint == resumed.log[k].fingerprint
                   && forall j | 0 <= j < k :: resumed.log[j].replayed
    {
      ReplayedIffFitsNext(env', calls, resumed.log, k);
    }
  }

  lemma ReplayedIffFitsNext(env: nat -> Outcome, calls: seq<ReplayCall>, log: seq<Logged>, k: nat)
    requires k < |log| && GreedilyReplayed(env, calls, log)
    ensures log[k].replayed <==> Fits(calls, log, k) && forall j | 0 <= j < k :: log[j].replayed
  {
    if forall j | 0 <= j < k :: log[j].replayed {
      forall j | 0 <= j < k ensures Fits(calls, log, j) {
        assert log[j].replayed;
      }
    }
  }

  function CutAfterCompletion(value: Json, usage: Usage): nat -> Outcome { (k: nat) => Cut(Journaled(value, usage)) }

  function AlwaysDelivers(k: nat): Outcome { Delivers(JNull, NO_USAGE) }

  lemma CutRun(s: Script, cfg: Config, value: Json, usage: Usage, fp: string)
    requires s([]).Call? && fp == cfg.fingerprint(s([]).request) && cfg.maxCalls >= 1 && cfg.budget == None
    ensures var source := RunFresh(s, cfg, CutAfterCompletion(value, usage), []);
            source.log == [] && source.ending.Stopped? && source.st.usage == usage
            && LeftOver(source.ending) == [ReplayCall(fp, value, true, usage)]
  {
    assert Values([]) == [];
    assert CallEffect(cfg, Fresh([]), fp, CutAfterCompletion(value, usage)(0))
        == Effect(Trail(1, fp, Journaled(value, usage)), usage, [ReplayCall(fp, value, true, usage)], Interrupted);
  }

  /** Such a run: its script saw nothing, its resumption gets the call's result and pays for it. */
  lemma UnseenCallExample(s: Script, cfg: Config, value: Json, usage: Usage)
    requires s([]).Call? && cfg.maxCalls >= 1 && cfg.budget == None
    ensures var source := RunFresh(s, cfg, CutAfterCompletion(value, usage), []);
            var resumed := Resume(s, cfg, AlwaysDelivers, source);
            source.log == [] && source.st.usage == usage && |resumed.log| >= 1
            && resumed.log[0].replayed && resumed.log[0].value == value && resumed.log[0].charged == usage
  {
    var fp := cfg.fingerprint(s([]).request);
    CutRun(s, cfg, value, usage, fp);
    var calls := [ReplayCall(fp, value, true, usage)];
    assert KeptLog([]) + calls == calls;
    assert CallValues(calls[..0]) == [];
    assert Matches(s, cfg, calls, 0);
    ResumeReplaysLongestPrefix(s, cfg, CutAfterCompletion(value, usage), [], s, cfg, AlwaysDelivers);
  }

  /** In every run the replayed calls come first. */
  lemma ReplayedCallsComeFirst(s: Script, cfg: Config, env: nat -> Outcome, replay: seq<ReplayCall>)
    ensures var log := RunFresh(s, cfg, env, replay).log;
            (forall i, j | 0 <= i <= j < |log| && log[j].replayed :: log[i].replayed)
            && (replay == [] ==> forall k | 0 <= k < |log| :: !log[k].replayed)
  {
    ReplayIsGreedy(s, cfg, env, Fresh(replay), []);
    var log := RunFresh(s, cfg, env, replay).log;
    forall k | 0 <= k < |log| && replay == [] ensures !log[k].replayed {
      assert !Fits(replay, log, 0);
    }
  }

  /** The prefix of the rebuilt list that stands for calls the script saw. */
  lemma SeenPrefix(s: Script, cfg: Config, env: nat -> Outcome, replay: seq<ReplayCall>, k: nat)
    requires k <= |RunFresh(s, cfg, env, replay).log|
    requires forall j | 0 <= j < k :: RunFresh(s, cfg, env, replay).log[j].kept.completed
    ensures var source := RunFresh(s, cfg, env, replay);
            CallValues((KeptLog(source.log) + LeftOver(source.ending))[..k]) == Values(source.log[..k])
  {
    RunIsJournaled(s, cfg, env, Fresh(replay), []);
    var source := RunFresh(s, cfg, env, replay);
    var calls := KeptLog(source.log) + LeftOver(source.ending);
    forall j | 0 <= j < k ensures CallValues(calls[..k])[j] == Values(source.log[..k])[j] {
      assert KeptFits(source.log[j]) && source.log[j].kept.completed;
    }
  }

  /** A script that issues the source's calls again, given the same results, matches all that are kept. */
  lemma SameRequestsMatch(s: Script, cfg: Config, env: nat -> Outcome, replay: seq<ReplayCall>, s': Script,
                          cfg': Config)
    requires var log := RunFresh(s, cfg, env, replay).log;
             forall k | 0 <= k < |log| ::
               log[k].kept.completed && Issues(s', cfg', Values(log[..k]), log[k].fingerprint)
    ensures var source := RunFresh(s, cfg, env, replay);
            MatchLength(s', cfg', KeptLog(source.log) + LeftOver(source.ending), 0) >= |source.log|
  {
    var source := RunFresh(s, cfg, env, replay);
    RunIsJournaled(s, cfg, env, Fresh(replay), []);
    var calls := KeptLog(source.log) + LeftOver(source.ending);
    forall k | 0 <= k < |source.log| ensures Matches(s', cfg', calls, k) {
      SeenPrefix(s, cfg, env, replay, k);
      assert KeptFits(source.log[k]) && calls[k] == source.log[k].kept;
    }
  }

  /** The calls of the source are replayed as far as the environment delivers their results. */
  ghost predicate ReplaysSource(source: seq<Logged>, resumed: seq<Logged>, env: nat -> Outcome) {
    var m := Undisturbed(env, |source|);
    m <= |resumed|
    && forall k | 0 <= k < m ::
         resumed[k].replayed && resumed[k].value == source[k].value && resumed[k].charged == source[k].kept.usage
  }

  lemma UndisturbedIsMonotone(env: nat -> Outcome, k: nat, n: nat)
    requires k <= n
    ensures Undisturbed(env, k) == if Undisturbed(env, n) < k then Undisturbed(env, n) else k
  {
    var a, b := Undisturbed(env, k), Undisturbed(env, n);
    assert a < k ==> !(a < b);
  }

  lemma MatchedSourceIsReplayed(s: Script, cfg: Config, env: nat -> Outcome, replay: seq<ReplayCall>,
      s': Script, cfg': Config, env': nat -> Outcome)
    requires cfg'.maxCalls == cfg.maxCalls
    requires var log := RunFresh(s, cfg, env, replay).log;
             forall k | 0 <= k < |log| ::
               log[k].kept.completed && Issues(s', cfg', Values(log[..k]), log[k].fingerprint)
    ensures var source := RunFresh(s, cfg, env, replay);
            ReplaysSource(source.log, Resume(s', cfg', env', source).log, env')
  {
    var source := RunFresh(s, cfg, env, replay);
    var resumed := Resume(s', cfg', env', source);
    var calls := KeptLog(source.log) + LeftOver(source.ending);
    SameRequestsMatch(s, cfg, env, replay, s', cfg');
    ResumeReplaysLongestPrefix(s, cfg, env, replay, s', cfg', env');
    RunIsJournaled(s, cfg, env, Fresh(replay), []);
    var n, m := MatchLength(s', cfg', calls, 0), Undisturbed(env', |source.log|);
    UndisturbedIsMonotone(env', |source.log|, n);
    forall k | 0 <= k < m
      ensures resumed.log[k].replayed && resumed.log[k].value == source.log[k].value
              && resumed.log[k].charged == source.log[k].kept.usage
    {
      assert KeptFits(source.log[k]) && calls[k] == source.log[k].kept;
    }
  }

  /** An unchanged script replays every call it had seen answered if the source run answered its own first
      call live, and none if the source run got that call's result from replay. So resuming a run that was
      itself answered from replay replays nothing. */
  lemma UnchangedScriptReplaysAllOrNothing(s: Script, cfg: Config, env: nat -> Outcome, replay: seq<ReplayCall>,
                                           env': nat -> Outcome)
    ensures var source := RunFresh(s, cfg, env, replay);
            var resumed := Resume(s, cfg, env', source);
            (source.log == [] || !source.log[0].replayed ==> ReplaysSource(source.log, resumed.log, env'))
            && (source.log != [] && source.log[0].replayed && env(0).Delivers? ==>
                  forall k | 0 <= k < |resumed.log| :: !resumed.log[k].replayed)
            && (replay == [] && source.log != [] ==> !source.log[0].replayed)
  {
    var source := RunFresh(s, cfg, env, replay);
    RunIsJournaled(s, cfg, env, Fresh(replay), []);
    ReplayedCallsComeFirst(s, cfg, env, replay);
    if source.log == [] || !source.log[0].replayed {
      assert forall k | 0 <= k < |source.log| :: KeptFits(source.log[k]) && !source.log[k].replayed;
      MatchedSourceIsReplayed(s, cfg, env, replay, s, cfg, env');
    } else if env(0).Delivers? {
      FirstDeliveredReplayIsOpen(s, cfg, env, replay);
      ResumeReplaysLongestPrefix(s, cfg, env, replay, s, cfg, env');
      var resumed, calls := Resume(s, cfg, env', source), KeptLog(source.log) + LeftOver(source.ending);
      forall k | 0 <= k < |resumed.log| ensures !resumed.log[k].replayed {
        assert !Fits(calls, resumed.log, 0);
      }
    }
  }

  lemma FirstDeliveredReplayIsOpen(s: Script, cfg: Config, env: nat -> Outcome, replay: seq<ReplayCall>)
    requires var log := RunFresh(s, cfg, env, replay).log; log != [] && log[0].replayed && env(0).Delivers?
    ensures !RunFresh(s, cfg, env, replay).log[0].kept.completed
  {
    var st := Fresh(replay);
    var fp := cfg.fingerprint(s(Values([])).request);
    var (st', reply) := CallStep(cfg, st, fp, env(0));
    if reply.Seen? {
      var l := LogOf(cfg, st, fp, env(0));
      assert [] + [l] == [l];
      LogOnlyGrows(s, cfg, env, st', [l]);
    }
  }

  /** Recorded usage never exceeds charged usage, and equals it unless a call failed after its usage had
      been added: no journal entry holds that usage. */
  lemma {:induction false} RecordedUsageIsExactUnlessLost(log: seq<Logged>)
    requires forall k | 0 <= k < |log| :: KeptFits(log[k])
    ensures TotalRecorded(log).input <= TotalCharged(log).input && TotalRecorded(log).output <= TotalCharged(log).output
    ensures TotalRecorded(log) == TotalCharged(log)
            <==> forall k | 0 <= k < |log| :: log[k].kept.usage == log[k].charged
  {
    if log != [] {
      var last := |log| - 1;
      RecordedUsageIsExactUnlessLost(log[..last]);
      assert forall k | 0 <= k < last :: log[k] == log[..last][k];
    }
  }

  lemma {:induction false} ChargedFromRecords(log: seq<Logged>, src: seq<Logged>, n: nat)
    requires n <= |log| && n <= |src|
    requires forall k | 0 <= k < n :: log[k].charged == src[k].kept.usage
    ensures TotalCharged(log[..n]) == TotalRecorded(src[..n])
  {
    if n > 0 {
      ChargedFromRecords(log, src, n - 1);
      assert log[..n][..n - 1] == log[..n - 1] && src[..n][..n - 1] == src[..n - 1];
    }
  }

  /** The replayed prefix of a resumed run costs what the source run paid for it, exactly when none of
      its calls failed after its usage had been added; otherwise it costs less. */
  lemma ReplayedPrefixUsage(s: Script, cfg: Config, env: nat -> Outcome, s': Script, cfg': Config, env': nat -> Outcome,
                            n: nat)
    requires cfg'.maxCalls == cfg.maxCalls
    requires var source := RunFresh(s, cfg, env, []);
             var resumed := Resume(s', cfg', env', source);
             n <= |source.log| && n <= |resumed.log| && forall k | 0 <= k < n :: resumed.log[k].replayed
    ensures var source := RunFresh(s, cfg, env, []);
            PrefixCost(source.log, Resume(s', cfg', env', source).log, n)
  {
    var source := RunFresh(s, cfg, env, []);
    RunIsJournaled(s, cfg, env, Fresh([]), []);
    ResumeReplaysLongestPrefix(s, cfg, env, [], s', cfg', env');
    PrefixCostHolds(source.log, Resume(s', cfg', env', source).log, n);
  }

  ghost predicate PrefixCost(source: seq<Logged>, resumed: seq<Logged>, n: nat)
    requires n <= |source| && n <= |resumed|
  {
    var paid, charged := TotalCharged(source[..n]), TotalCharged(resumed[..n]);
    charged.input <= paid.input && charged.output <= paid.output
    && (charged == paid <==> forall k | 0 <= k < n :: source[k].kept.usage == source[k].charged)
  }

  lemma PrefixCostHolds(source: seq<Logged>, resumed: seq<Logged>, n: nat)
    requires n <= |source| && n <= |resumed|
    requires forall k | 0 <= k < n :: KeptFits(source[k]) && resumed[k].charged == source[k].kept.usage
    ensures PrefixCost(source, resumed, n)
  {
    ChargedFromRecords(resumed, source, n);
    RecordedUsageIsExactUnlessLost(source[..n]);
    assert forall k | 0 <= k < n :: source[..n][k] == source[k];
  }

  function CleanupFails(k: nat): Outcome { Throws(Charged(Usage(2, 3)), true) }

  /** A run whose first call's clean-up fails after five tokens were added: resuming it charges none of them
      for that call. */
  lemma LostUsageExample(s: Script, cfg: Config)
    requires s([]).Call? && cfg.maxCalls >= 1 && cfg.budget == None
    ensures var source := RunFresh(s, cfg, CleanupFails, []);
            var resumed := Resume(s, cfg, AlwaysDelivers, source);
            |source.log| >= 1 && source.log[0].charged == Usage(2, 3)
            && |resumed.log| >= 1 && resumed.log[0].replayed && resumed.log[0].value == source.log[0].value == JNull
            && resumed.log[0].charged == NO_USAGE
  {
    var source := RunFresh(s, cfg, CleanupFails, []);
    var fp := cfg.fingerprint(s([]).request);
    assert Values([]) == [];
    var l := LogOf(cfg, Fresh([]), fp, CleanupFails(0));
    assert [] + [l] == [l];
    LogOnlyGrows(s, cfg, CleanupFails, CallStep(cfg, Fresh([]), fp, CleanupFails(0)).0, [l]);
    assert source.log[0] == l && l.kept == ReplayCall(fp, JNull, true, NO_USAGE);
    ReplayedCallsComeFirst(s, cfg, CleanupFails, []);
    UnchangedScriptReplaysAllOrNothing(s, cfg, CleanupFails, [], AlwaysDelivers);
  }

  /** A resumed script that only reorders object members in its requests still replays every call. */
  lemma MemberOrderDoesNotBreakReplay(digest: Json -> string, args: Json, maxCalls: nat, budget: Option<nat>,
      s: Script, s': Script, env: nat -> Outcome, env': nat -> Outcome)
    requires CanonicalJson.Injective(digest) && CanonicalJson.WellFormed(args) && CanonicalJson.AllFinite(args)
    requires forall seen :: s(seen).Call? ==> ValidRequest(s(seen).request)
    requires forall seen :: SameAction(s(seen), s'(seen))
    ensures var cfg := Config(maxCalls, budget, RequestFingerprint(digest, args));
            var source := RunFresh(s, cfg, env, []);
            ReplaysSource(source.log, Resume(s', cfg, env', source).log, env')
  {
    var cfg := Config(maxCalls, budget, RequestFingerprint(digest, args));
    var source := RunFresh(s, cfg, env, []);
    RunIsJournaled(s, cfg, env, Fresh([]), []);
    ReplayedCallsComeFirst(s, cfg, env, []);
    forall k | 0 <= k < |source.log|
      ensures source.log[k].kept.completed && Issues(s', cfg, Values(source.log[..k]), source.log[k].fingerprint)
    {
      assert KeptFits(source.log[k]);
      var seen := Values(source.log[..k]);
      assert Issues(s, cfg, seen, source.log[k].fingerprint);
      assert SameAction(s(seen), s'(seen));
      var r, r' := s(seen).request, s'(seen).request;
      CanonicalJson.AcceptsExactlyFinite(args);
      CanonicalJson.FingerprintDecidesSameCall(digest, args, r.input, r.options, args, r'.input, r'.options);
      SameAsItself(args);
    }
    MatchedSourceIsReplayed(s, cfg, env, [], s', cfg, env');
  }

  ghost predicate ValidRequest(r: Request) {
    CanonicalJson.WellFormed(r.input) && CanonicalJson.AllFinite(r.input)
    && CanonicalJson.WellFormed(r.options) && CanonicalJson.AllFinite(r.options)
  }

  ghost predicate SameAction(a: Action, b: Action) {
    if a.Call? && b.Call? then
      ValidRequest(b.request)
      && CanonicalJson.SameUpToOrder(a.request.input, b.request.input)
      && CanonicalJson.SameUpToOrder(a.request.options, b.request.options)
    else a == b
  }

  function RequestFingerprint(digest: Json -> string, args: Json): Request -> string {
    (r: Request) =>
      match CanonicalJson.Fingerprint(digest, args, r.input, r.options)
      case Some(f) => f
      case None => ""
  }

  lemma {:induction false} SameAsItself(j: Json)
    ensures CanonicalJson.SameUpToOrder(j, j)
    decreases j
  {
    match j
    case JArray(items) =>
      forall i | 0 <= i < |items| ensures CanonicalJson.SameUpToOrder(items[i], items[i]) { SameAsItself(items[i]); }
    case JObject(ms) =>
      forall i | 0 <= i < |ms| ensures CanonicalJson.HasTwin(ms[i], ms) { SameAsItself(ms[i].value); }
    case _ =>
  }
}
