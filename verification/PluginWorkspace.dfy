/**
 * The plugins of a remote workspace: sources announced by revision, bundles installed one preparation
 * at a time, and the per-thread bindings that calls are resolved with.
 */
module PluginWorkspace {
  import opened Wrappers

  // What a client announces about a plugin.  `content` stands for fingerprint and settings.
  datatype Bundle = Bundle(plugin: string, revision: int, generation: string, content: string)

  // A prepared tool.  `revision` is the source revision it was prepared from.
  datatype Tool = Tool(plugin: string, generation: string, binding: string, revision: int)

  datatype Catalog = Catalog(revision: int, tools: map<string, Tool>)

  // Preparations exclude one another: at most one is under way.
  datatype Preparation = Preparation(threadId: string, revision: int, files: seq<Bundle>, installed: bool)

  // `sources` is what was announced last, `held` what the plugin host has of each plugin, started or not.
  datatype State = State(
    sources: map<string, Bundle>,
    catalogs: map<string, Catalog>,
    held: map<string, Bundle>,
    preparing: Option<Preparation>,
    disposed: bool
  )

  // What a prepared catalog asks for: a plugin and the binding made for the tool.
  datatype Wanted = Wanted(plugin: string, binding: string)

  datatype Step =
    | Begin(threadId: string, revision: int, files: seq<Bundle>)
    | Install(done: set<string>, ok: bool)
    | Commit(tools: map<string, Wanted>)
    | Abandon
    | Release(threadId: string)
    | Dispose

  // ---------------------------------------------------------------- the steps

  // A source may be announced again as it is, or anew with a higher revision.
  predicate Acceptable(current: Bundle, incoming: Bundle) {
    current.revision < incoming.revision
    || (current.revision == incoming.revision && current.generation == incoming.generation
        && current.content == incoming.content)
  }

  predicate MayBegin(s: State, threadId: string, revision: int, files: seq<Bundle>) {
    (threadId in s.catalogs ==> s.catalogs[threadId].revision <= revision)
    && forall i :: 0 <= i < |files| && files[i].plugin in s.sources ==> Acceptable(s.sources[files[i].plugin], files[i])
  }

  function Announced(sources: map<string, Bundle>, files: seq<Bundle>): map<string, Bundle> {
    if files == [] then sources
    else Announced(sources, files[..|files| - 1])[files[|files| - 1].plugin := files[|files| - 1]]
  }

  // The one bundle of a plugin among the files, if there is exactly one.
  predicate Single(files: seq<Bundle>, plugin: string, i: int) {
    0 <= i < |files| && files[i].plugin == plugin
    && forall j :: 0 <= j < |files| && files[j].plugin == plugin ==> j == i
  }

  ghost predicate Offers(files: seq<Bundle>, tools: map<string, Wanted>) {
    forall id :: id in tools ==> exists i :: Single(files, tools[id].plugin, i)
  }

  ghost function FileOf(files: seq<Bundle>, plugin: string): Bundle
    requires exists i :: Single(files, plugin, i)
  {
    var i :| Single(files, plugin, i);
    files[i]
  }

  ghost function Prepared(files: seq<Bundle>, tools: map<string, Wanted>): map<string, Tool>
    requires Offers(files, tools)
  {
    map id | id in tools ::
      var file := FileOf(files, tools[id].plugin);
      Tool(tools[id].plugin, file.generation, tools[id].binding, file.revision)
  }

  // No plugin is named twice in one request.
  predicate Distinct(files: seq<Bundle>) {
    forall i, j :: 0 <= i < j < |files| ==> files[i].plugin != files[j].plugin
  }

  ghost predicate Enabled(s: State, step: Step) {
    match step
    case Begin(_, _, _) => s.preparing.None? && !s.disposed
    case Install(_, _) => s.preparing.Some? && !s.preparing.value.installed
    case Commit(tools) => s.preparing.Some? && s.preparing.value.installed && Offers(s.preparing.value.files, tools)
    case Abandon => s.preparing.Some?
    case Release(_) => true
    case Dispose => s.preparing.None?
  }

  // The host may have replaced some plugins before a failure; success replaces all.
  function Installed(held: map<string, Bundle>, files: seq<Bundle>, done: set<string>, ok: bool): map<string, Bundle> {
    if files == [] then held
    else
      var file := files[|files| - 1];
      var before := Installed(held, files[..|files| - 1], done, ok);
      if ok || file.plugin in done then before[file.plugin := file] else before
  }

  ghost function Apply(s: State, step: Step): State
    requires Enabled(s, step)
  {
    match step
    case Begin(threadId, revision, files) =>
      if !MayBegin(s, threadId, revision, files) then s
      else s.(sources := Announced(s.sources, files), catalogs := s.catalogs - {threadId},
              preparing := Some(Preparation(threadId, revision, files, false)))
    case Install(done, ok) =>
      var p := s.preparing.value;
      s.(held := Installed(s.held, p.files, done, ok), preparing := if ok then Some(p.(installed := true)) else None)
    case Commit(tools) =>
      var p := s.preparing.value;
      s.(catalogs := s.catalogs[p.threadId := Catalog(p.revision, Prepared(p.files, tools))], preparing := None)
    case Abandon => s.(preparing := None)
    case Release(threadId) => if s.disposed then s else s.(catalogs := s.catalogs - {threadId})
    case Dispose => s.(catalogs := map[], disposed := true)
  }

  ghost predicate Possible(s: State, trace: seq<Step>)
    decreases |trace|
  {
    trace == [] || (Enabled(s, trace[0]) && Possible(Apply(s, trace[0]), trace[1..]))
  }

  ghost function Run(s: State, trace: seq<Step>): State
    requires Possible(s, trace)
    decreases |trace|
  {
    if trace == [] then s else Run(Apply(s, trace[0]), trace[1..])
  }

  const START := State(map[], map[], map[], None, false)

  // ---------------------------------------------------------------- resolving a call

  predicate IsCurrent(s: State, tool: Tool) {
    tool.plugin in s.sources && s.sources[tool.plugin].generation == tool.generation
  }

  function Resolve(s: State, threadId: string, revision: int, definition: string, binding: string): Option<Tool> {
    if threadId !in s.catalogs || s.catalogs[threadId].revision != revision
       || definition !in s.catalogs[threadId].tools
    then None
    else
      var tool := s.catalogs[threadId].tools[definition];
      if tool.binding != binding || !IsCurrent(s, tool) then None else Some(tool)
  }

  // A binding that resolves although the host holds another generation of its plugin.
  predicate ResolvesStale(s: State, threadId: string, revision: int, definition: string, binding: string) {
    var tool := Resolve(s, threadId, revision, definition, binding);
    tool.Some? && !Holds(s, tool.value)
  }

  predicate Holds(s: State, tool: Tool) {
    tool.plugin in s.held && s.held[tool.plugin].generation == tool.generation
  }

  // ---------------------------------------------------------------- accepted requests

  datatype Request = Request(threadId: string, revision: int, files: seq<Bundle>)

  // What a list of files says about a plugin; the last one counts.
  function Latest(files: seq<Bundle>, plugin: string): (r: Option<Bundle>)
    ensures r.Some? ==> r.value.plugin == plugin
  {
    if files == [] then None
    else if files[|files| - 1].plugin == plugin then Some(files[|files| - 1])
    else Latest(files[..|files| - 1], plugin)
  }

  function Named(r: Request, plugin: string): Option<Bundle> { Latest(r.files, plugin) }

  function Generation(r: Request, plugin: string): Option<string> {
    match Named(r, plugin)
    case Some(b) => Some(b.generation)
    case None => None
  }

  // Request k brings back the generation that request i announced, after request j announced another one,
  // and the thread of request i has not been prepared again since.
  predicate Returns(h: seq<Request>, i: int, j: int, k: int, plugin: string) {
    0 <= i < j < k < |h|
    && Generation(h[i], plugin).Some? && Generation(h[j], plugin).Some?
    && Generation(h[i], plugin) == Generation(h[k], plugin) != Generation(h[j], plugin)
    && forall m :: i < m <= k ==> h[m].threadId != h[i].threadId
  }

  ghost predicate Returning(h: seq<Request>) {
    exists i, j, k, plugin :: Returns(h, i, j, k, plugin)
  }

  // Announcements of a plugin never go back in revision, and one revision has one generation.
  predicate Ordered(h: seq<Request>, plugin: string) {
    forall i, j :: 0 <= i <= j < |h| && Named(h[i], plugin).Some? && Named(h[j], plugin).Some? ==>
      Acceptable(Named(h[i], plugin).value, Named(h[j], plugin).value)
  }

  function NowAccepted(s: State, step: Step): seq<Request> {
    if step.Begin? && MayBegin(s, step.threadId, step.revision, step.files)
    then [Request(step.threadId, step.revision, step.files)] else []
  }

  ghost function Accepted(s: State, trace: seq<Step>): seq<Request>
    requires Possible(s, trace)
    decreases |trace|
  {
    if trace == [] then []
    else NowAccepted(s, trace[0]) + Accepted(Apply(s, trace[0]), trace[1..])
  }

  // What announcing and installing do to one plugin.
  lemma {:induction false} AnnouncedIs(sources: map<string, Bundle>, files: seq<Bundle>, plugin: string)
    ensures var after, file := Announced(sources, files), Latest(files, plugin);
            (plugin in after <==> file.Some? || plugin in sources)
            && (plugin in after ==> after[plugin] == if file.Some? then file.value else sources[plugin])
  {
    if files != [] {
      AnnouncedIs(sources, files[..|files| - 1], plugin);
    }
  }

  lemma {:induction false} InstalledIs(held: map<string, Bundle>, files: seq<Bundle>, done: set<string>, ok: bool,
                                       plugin: string)
    ensures var after := Installed(held, files, done, ok);
            var file := if ok || plugin in done then Latest(files, plugin) else None;
            (plugin in after <==> file.Some? || plugin in held)
            && (plugin in after ==> after[plugin] == if file.Some? then file.value else held[plugin])
  {
    if files != [] {
      InstalledIs(held, files[..|files| - 1], done, ok, plugin);
    }
  }

  lemma {:induction false} SingleIsLatest(files: seq<Bundle>, plugin: string, i: nat)
    requires Single(files, plugin, i)
    ensures Latest(files, plugin) == Some(files[i])
  {
    var front := files[..|files| - 1];
    if i < |front| {
      assert forall j :: 0 <= j < |front| ==> front[j] == files[j];
      SingleIsLatest(front, plugin, i);
    }
  }

  lemma {:induction false} LatestIsThere(files: seq<Bundle>, plugin: string) returns (i: nat)
    requires Latest(files, plugin).Some?
    ensures i < |files| && files[i] == Latest(files, plugin).value
  {
    if files[|files| - 1].plugin == plugin {
      i := |files| - 1;
    } else {
      i := LatestIsThere(files[..|files| - 1], plugin);
    }
  }

  // ---------------------------------------------------------------- the invariant

  // For one plugin and one thread: the accepted requests, and which of them announced the plugin last,
  // what the host holds of it, and the thread's catalog.
  datatype Trail = Trail(accepted: seq<Request>, source: Option<nat>, held: Option<nat>, prepared: Option<nat>)

  predicate SourceFits(s: State, t: Trail, plugin: string) {
    (plugin in s.sources <==> t.source.Some?)
    && (t.source.Some? ==>
          t.source.value < |t.accepted| && Named(t.accepted[t.source.value], plugin) == Some(s.sources[plugin]))
    && forall k :: 0 <= k < |t.accepted| && Named(t.accepted[k], plugin).Some? ==> t.source.Some? && k <= t.source.value
  }

  predicate HeldFits(s: State, t: Trail, plugin: string) {
    (plugin in s.held <==> t.held.Some?)
    && (t.held.Some? ==> t.held.value < |t.accepted| && Named(t.accepted[t.held.value], plugin) == Some(s.held[plugin]))
  }

  predicate FromRequest(tool: Tool, r: Request) {
    var b := Named(r, tool.plugin);
    b.Some? && b.value.generation == tool.generation && b.value.revision == tool.revision
  }

  predicate PreparedAt(t: Trail, threadId: string) {
    t.prepared.Some? && t.prepared.value < |t.accepted| && t.accepted[t.prepared.value].threadId == threadId
    && forall m :: t.prepared.value < m < |t.accepted| ==> t.accepted[m].threadId != threadId
  }

  predicate CatalogFits(s: State, t: Trail, plugin: string, threadId: string) {
    threadId in s.catalogs ==>
      PreparedAt(t, threadId)
      && forall id :: id in s.catalogs[threadId].tools && s.catalogs[threadId].tools[id].plugin == plugin ==>
           FromRequest(s.catalogs[threadId].tools[id], t.accepted[t.prepared.value])
           && t.held.Some? && t.prepared.value <= t.held.value
  }

  predicate PreparationFits(s: State, t: Trail, plugin: string) {
    s.preparing.Some? ==>
      var p := s.preparing.value;
      t.accepted != [] && t.accepted[|t.accepted| - 1] == Request(p.threadId, p.revision, p.files)
      && (p.installed && Latest(p.files, plugin).Some? ==> t.held == Some(|t.accepted| - 1))
  }

  predicate Fits(s: State, t: Trail, plugin: string, threadId: string) {
    SourceFits(s, t, plugin) && HeldFits(s, t, plugin) && CatalogFits(s, t, plugin, threadId)
    && PreparationFits(s, t, plugin)
    && Ordered(t.accepted, plugin) && (t.held.Some? ==> t.held.value < |t.accepted|)
  }

  function Follow(s: State, t: Trail, step: Step, plugin: string, threadId: string): Trail {
    match step
    case Begin(_, _, files) =>
      if NowAccepted(s, step) == [] then t
      else t.(accepted := t.accepted + NowAccepted(s, step),
              source := if Latest(files, plugin).Some? then Some(|t.accepted|) else t.source)
    case Install(done, ok) =>
      if s.preparing.None? || t.accepted == [] || Latest(s.preparing.value.files, plugin).None?
         || !(ok || plugin in done)
      then t
      else t.(held := Some(|t.accepted| - 1))
    case Commit(_) =>
      if s.preparing.None? || t.accepted == [] || s.preparing.value.threadId != threadId then t
      else t.(prepared := Some(|t.accepted| - 1))
    case _ => t
  }

  lemma BeginStaysOrdered(s: State, t: Trail, r: Request, plugin: string)
    requires SourceFits(s, t, plugin) && Ordered(t.accepted, plugin) && MayBegin(s, r.threadId, r.revision, r.files)
    ensures Ordered(t.accepted + [r], plugin)
  {
    var h, last := t.accepted + [r], |t.accepted|;
    forall i | 0 <= i < last && Named(h[i], plugin).Some? && Named(r, plugin).Some?
      ensures Acceptable(Named(h[i], plugin).value, Named(r, plugin).value)
    {
      var x := LatestIsThere(r.files, plugin);
      assert h[i] == t.accepted[i] && i <= t.source.value;
      assert Acceptable(s.sources[plugin], r.files[x]);
    }
  }

  lemma BeginKeepsFit(s: State, t: Trail, step: Step, plugin: string, threadId: string)
    requires Fits(s, t, plugin, threadId) && Enabled(s, step) && step.Begin? && NowAccepted(s, step) != []
    ensures Fits(Apply(s, step), Follow(s, t, step, plugin, threadId), plugin, threadId)
  {
    var r := Request(step.threadId, step.revision, step.files);
    AnnouncedIs(s.sources, step.files, plugin);
    BeginStaysOrdered(s, t, r, plugin);
    assert forall k :: 0 <= k < |t.accepted| ==> (t.accepted + [r])[k] == t.accepted[k];
  }

  lemma InstallKeepsFit(s: State, t: Trail, step: Step, plugin: string, threadId: string)
    requires Fits(s, t, plugin, threadId) && Enabled(s, step) && step.Install?
    ensures Fits(Apply(s, step), Follow(s, t, step, plugin, threadId), plugin, threadId)
  {
    InstalledIs(s.held, s.preparing.value.files, step.done, step.ok, plugin);
  }

  lemma CommitKeepsFit(s: State, t: Trail, step: Step, plugin: string, threadId: string)
    requires Fits(s, t, plugin, threadId) && Enabled(s, step) && step.Commit?
    ensures Fits(Apply(s, step), Follow(s, t, step, plugin, threadId), plugin, threadId)
  {
    var p := s.preparing.value;
    forall id | id in step.tools && step.tools[id].plugin == plugin
      ensures FromRequest(Prepared(p.files, step.tools)[id], t.accepted[|t.accepted| - 1])
              && Latest(p.files, plugin).Some?
    {
      var i :| Single(p.files, plugin, i) && p.files[i] == FileOf(p.files, plugin);
      SingleIsLatest(p.files, plugin, i);
    }
  }

  lemma StepKeepsFit(s: State, t: Trail, step: Step, plugin: string, threadId: string)
    requires Fits(s, t, plugin, threadId) && Enabled(s, step)
    ensures Fits(Apply(s, step), Follow(s, t, step, plugin, threadId), plugin, threadId)
    ensures Follow(s, t, step, plugin, threadId).accepted == t.accepted + NowAccepted(s, step)
  {
    if step.Begin? && NowAccepted(s, step) != [] {
      BeginKeepsFit(s, t, step, plugin, threadId);
    } else if step.Install? {
      InstallKeepsFit(s, t, step, plugin, threadId);
    } else if step.Commit? {
      CommitKeepsFit(s, t, step, plugin, threadId);
    }
  }

  lemma {:induction false} RunFits(s: State, t: Trail, trace: seq<Step>, plugin: string, threadId: string)
    returns (last: Trail)
    requires Fits(s, t, plugin, threadId) && Possible(s, trace)
    ensures Fits(Run(s, trace), last, plugin, threadId) && last.accepted == t.accepted + Accepted(s, trace)
    decreases |trace|
  {
    last := t;
    if trace != [] {
      StepKeepsFit(s, t, trace[0], plugin, threadId);
      last := RunFits(Apply(s, trace[0]), Follow(s, t, trace[0], plugin, threadId), trace[1..], plugin, threadId);
    }
  }

  lemma StartFits(trace: seq<Step>, plugin: string, threadId: string) returns (t: Trail)
    requires Possible(START, trace)
    ensures Fits(Run(START, trace), t, plugin, threadId) && t.accepted == Accepted(START, trace)
  {
    t := RunFits(START, Trail([], None, None, None), trace, plugin, threadId);
  }

  // ---------------------------------------------------------------- main results

  // The requests behind a call that resolves: its tool's, what the host holds, and the last one.
  lemma RequestsBehind(s: State, t: Trail, threadId: string, tool: Tool) returns (i: nat, r: nat, e: nat)
    requires Fits(s, t, tool.plugin, threadId) && IsCurrent(s, tool)
    requires threadId in s.catalogs
             && exists id :: id in s.catalogs[threadId].tools && s.catalogs[threadId].tools[id] == tool
    ensures i <= r <= e < |t.accepted| && FromRequest(tool, t.accepted[i]) && tool.plugin in s.held
    ensures Named(t.accepted[r], tool.plugin) == Some(s.held[tool.plugin])
    ensures Named(t.accepted[e], tool.plugin) == Some(s.sources[tool.plugin])
    ensures t.accepted[i].threadId == threadId
            && forall m :: i < m < |t.accepted| ==> t.accepted[m].threadId != threadId
  {
    i, r, e := t.prepared.value, t.held.value, t.source.value;
  }

  // If a call resolves to a generation that the host does not hold, some accepted request brought that
  // generation back after another one.
  lemma StaleCallNeedsReturn(trace: seq<Step>, threadId: string, revision: int, definition: string, binding: string)
    requires Possible(START, trace) && ResolvesStale(Run(START, trace), threadId, revision, definition, binding)
    ensures Returning(Accepted(START, trace))
  {
    var s := Run(START, trace);
    var tool := Resolve(s, threadId, revision, definition, binding).value;
    var t := StartFits(trace, tool.plugin, threadId);
    var i, r, e := RequestsBehind(s, t, threadId, tool);
    assert Returns(t.accepted, i, r, e, tool.plugin);
  }

  // A call whose tool was prepared from the revision announced last is always answered by its generation.
  lemma CurrentRevisionIsHeld(trace: seq<Step>, threadId: string, revision: int, definition: string, binding: string)
    requires Possible(START, trace)
    requires var s := Run(START, trace);
             var tool := Resolve(s, threadId, revision, definition, binding);
             tool.Some? && tool.value.revision == s.sources[tool.value.plugin].revision
    ensures var s := Run(START, trace); Holds(s, Resolve(s, threadId, revision, definition, binding).value)
  {
    var s := Run(START, trace);
    var tool := Resolve(s, threadId, revision, definition, binding).value;
    var t := StartFits(trace, tool.plugin, threadId);
    var i, r, e := RequestsBehind(s, t, threadId, tool);
    assert Acceptable(Named(t.accepted[i], tool.plugin).value, s.held[tool.plugin]);
    assert Acceptable(s.held[tool.plugin], s.sources[tool.plugin]);
  }

  // Every generation has a revision of its own.
  predicate Numbered(h: seq<Request>, revisionOf: (string, string) -> int) {
    forall k, x :: 0 <= k < |h| && 0 <= x < |h[k].files| ==>
      h[k].files[x].revision == revisionOf(h[k].files[x].plugin, h[k].files[x].generation)
  }

  // Whatever preparations came, failed half-way or were refused: a call that resolves names the plugin
  // generation that the host holds, as long as every generation has a revision of its own.
  lemma ResolvedBindingRuns(trace: seq<Step>, revisionOf: (string, string) -> int,
                            threadId: string, revision: int, definition: string, binding: string)
    requires Possible(START, trace) && Numbered(Accepted(START, trace), revisionOf)
    requires Resolve(Run(START, trace), threadId, revision, definition, binding).Some?
    ensures var s := Run(START, trace);
            var tool := Resolve(s, threadId, revision, definition, binding).value;
            Holds(s, tool) && tool.binding == binding
  {
    var s := Run(START, trace);
    var tool := Resolve(s, threadId, revision, definition, binding).value;
    var t := StartFits(trace, tool.plugin, threadId);
    var i, r, e := RequestsBehind(s, t, threadId, tool);
    var x := LatestIsThere(t.accepted[i].files, tool.plugin);
    var y := LatestIsThere(t.accepted[e].files, tool.plugin);
    CurrentRevisionIsHeld(trace, threadId, revision, definition, binding);
  }

  // ---------------------------------------------------------------- the exact condition

  predicate Takes(sources: map<string, Bundle>, files: seq<Bundle>) {
    forall x :: 0 <= x < |files| && files[x].plugin in sources ==> Acceptable(sources[files[x].plugin], files[x])
  }

  function Sources(h: seq<Request>): map<string, Bundle> {
    if h == [] then map[] else Announced(Sources(h[..|h| - 1]), h[|h| - 1].files)
  }

  // Requests that the check of the sources accepts one after the other.  The host has refused manifests
  // that name a plugin twice before.
  predicate Admissible(h: seq<Request>) {
    forall k :: 0 <= k < |h| ==> Distinct(h[k].files) && Takes(Sources(h[..k]), h[k].files)
  }

  ghost predicate ReachedWith(s: State, h: seq<Request>) {
    exists trace: seq<Step> :: Possible(START, trace) && Run(START, trace) == s && Accepted(START, trace) == h
  }

  // Some run accepts these requests, or the first of them, and comes to a state in which a call resolves to
  // a generation that the host does not hold.
  ghost predicate CanGoStale(h: seq<Request>) {
    exists s, n, threadId, revision, definition, binding ::
      0 <= n <= |h| && ReachedWith(s, h[..n]) && ResolvesStale(s, threadId, revision, definition, binding)
  }

  lemma {:induction false} Chain(s: State, trace: seq<Step>, step: Step)
    requires Possible(s, trace) && Enabled(Run(s, trace), step)
    ensures Possible(s, trace + [step]) && Run(s, trace + [step]) == Apply(Run(s, trace), step)
    ensures Accepted(s, trace + [step]) == Accepted(s, trace) + NowAccepted(Run(s, trace), step)
    decreases |trace|
  {
    if trace == [] {
      assert trace + [step] == [step] && [step][1..] == [];
    } else {
      Chain(Apply(s, trace[0]), trace[1..], step);
      assert (trace + [step])[1..] == trace[1..] + [step];
    }
  }

  lemma Then(s: State, h: seq<Request>, step: Step, next: State, longer: seq<Request>)
    requires ReachedWith(s, h) && Enabled(s, step) && Apply(s, step) == next && longer == h + NowAccepted(s, step)
    ensures ReachedWith(next, longer)
  {
    var trace: seq<Step> :| Possible(START, trace) && Run(START, trace) == s && Accepted(START, trace) == h;
    Chain(START, trace, step);
  }

  lemma {:induction false} AllInstalledIsAnnounced(held: map<string, Bundle>, files: seq<Bundle>)
    ensures Installed(held, files, {}, true) == Announced(held, files)
  {
    if files != [] {
      AllInstalledIsAnnounced(held, files[..|files| - 1]);
    }
  }

  // A quiet workspace: nothing under way and everything announced installed.
  function Quiet(sources: map<string, Bundle>, catalogs: map<string, Catalog>): State {
    State(sources, catalogs, sources, None, false)
  }

  // The state once a request has been accepted in a quiet workspace.
  function Begun(sources: map<string, Bundle>, catalogs: map<string, Catalog>, r: Request): State {
    State(Announced(sources, r.files), catalogs - {r.threadId}, sources,
          Some(Preparation(r.threadId, r.revision, r.files, false)), false)
  }

  lemma BeginNext(sources: map<string, Bundle>, catalogs: map<string, Catalog>, h: seq<Request>, r: Request)
    requires ReachedWith(Quiet(sources, catalogs), h) && r.threadId !in catalogs && Takes(sources, r.files)
    ensures ReachedWith(Begun(sources, catalogs, r), h + [r])
  {
    Then(Quiet(sources, catalogs), h, Begin(r.threadId, r.revision, r.files), Begun(sources, catalogs, r), h + [r]);
  }

  function Busy(sources: map<string, Bundle>, catalogs: map<string, Catalog>, r: Request): State {
    State(sources, catalogs, sources, Some(Preparation(r.threadId, r.revision, r.files, true)), false)
  }

  lemma InstallNext(sources: map<string, Bundle>, catalogs: map<string, Catalog>, h: seq<Request>, r: Request)
    requires ReachedWith(Quiet(sources, catalogs), h) && r.threadId !in catalogs && Takes(sources, r.files)
    ensures ReachedWith(Busy(Announced(sources, r.files), catalogs, r), h + [r])
  {
    BeginNext(sources, catalogs, h, r);
    assert catalogs - {r.threadId} == catalogs;
    AllInstalledIsAnnounced(sources, r.files);
    Then(Begun(sources, catalogs, r), h + [r], Install({}, true),
         Busy(Announced(sources, r.files), catalogs, r), h + [r]);
  }

  lemma DropNext(sources: map<string, Bundle>, catalogs: map<string, Catalog>, h: seq<Request>, r: Request)
    requires ReachedWith(Quiet(sources, catalogs), h) && r.threadId !in catalogs && Takes(sources, r.files)
    ensures ReachedWith(Quiet(Announced(sources, r.files), catalogs), h + [r])
  {
    InstallNext(sources, catalogs, h, r);
    var after := Announced(sources, r.files);
    Then(Busy(after, catalogs, r), h + [r], Abandon, Quiet(after, catalogs), h + [r]);
  }

  // The catalog of a thread prepared for one tool of one plugin.
  function OneTool(r: Request, b: Bundle): map<string, Catalog> {
    map[r.threadId := Catalog(r.revision, map["d" := Tool(b.plugin, b.generation, "b", b.revision)])]
  }

  lemma CommitNext(sources: map<string, Bundle>, h: seq<Request>, r: Request, b: Bundle)
    requires ReachedWith(Quiet(sources, map[]), h) && Takes(sources, r.files) && Distinct(r.files)
    requires Named(r, b.plugin) == Some(b)
    ensures ReachedWith(Quiet(Announced(sources, r.files), OneTool(r, b)), h + [r])
  {
    InstallNext(sources, map[], h, r);
    var after := Announced(sources, r.files);
    var tools := map["d" := Wanted(b.plugin, "b")];
    var x := LatestIsThere(r.files, b.plugin);
    assert Single(r.files, b.plugin, x);
    assert Prepared(r.files, tools) == map["d" := Tool(b.plugin, b.generation, "b", b.revision)];
    assert map[][r.threadId := Catalog(r.revision, Prepared(r.files, tools))] == OneTool(r, b);
    Then(Busy(after, map[], r), h + [r], Commit(tools), Quiet(after, OneTool(r, b)), h + [r]);
  }

  // The requests before m all installed, and only the one at i, if it is among them, committed.
  function OneCommitted(h: seq<Request>, i: nat, m: nat, b: Bundle): State
    requires i < |h| && m <= |h|
  {
    Quiet(Sources(h[..m]), if m <= i then map[] else OneTool(h[i], b))
  }

  lemma SourcesNext(h: seq<Request>, m: nat)
    requires m < |h|
    ensures Sources(h[..m + 1]) == Announced(Sources(h[..m]), h[m].files) && h[..m + 1] == h[..m] + [h[m]]
  {
    assert h[..m + 1][..m] == h[..m];
  }

  lemma OneMoreRequest(h: seq<Request>, i: nat, m: nat, b: Bundle)
    requires i < |h| && m < |h| && Named(h[i], b.plugin) == Some(b)
    requires Distinct(h[m].files) && Takes(Sources(h[..m]), h[m].files) && (i < m ==> h[m].threadId != h[i].threadId)
    requires ReachedWith(OneCommitted(h, i, m, b), h[..m])
    ensures ReachedWith(OneCommitted(h, i, m + 1, b), h[..m + 1])
  {
    SourcesNext(h, m);
    if m == i {
      CommitNext(Sources(h[..i]), h[..i], h[i], b);
    } else {
      DropNext(Sources(h[..m]), OneCommitted(h, i, m, b).catalogs, h[..m], h[m]);
    }
  }

  lemma {:induction false} OneCommittedIsReached(h: seq<Request>, i: nat, m: nat, b: Bundle)
    requires Admissible(h) && i < |h| && m <= |h| && Named(h[i], b.plugin) == Some(b)
    requires forall x :: i < x < m ==> h[x].threadId != h[i].threadId
    ensures ReachedWith(OneCommitted(h, i, m, b), h[..m])
  {
    if m == 0 {
      NothingYet();
    } else {
      OneCommittedIsReached(h, i, m - 1, b);
      OneMoreRequest(h, i, m - 1, b);
    }
  }

  lemma NothingYet()
    ensures ReachedWith(Quiet(map[], map[]), [])
  {
    assert Possible(START, []) && Run(START, []) == START && Accepted(START, []) == [];
  }

  // The first request after j that announces the generation.
  lemma {:induction false} FirstReturn(h: seq<Request>, j: nat, k: nat, plugin: string, generation: string)
    returns (first: nat)
    requires j < k < |h| && Generation(h[k], plugin) == Some(generation) && Generation(h[j], plugin) != Some(generation)
    ensures j < first <= k && Generation(h[first], plugin) == Some(generation)
    ensures forall x :: j <= x < first ==> Generation(h[x], plugin) != Some(generation)
    decreases k
  {
    if x :| j < x < k && Generation(h[x], plugin) == Some(generation) {
      first := FirstReturn(h, j, x, plugin, generation);
    } else {
      first := k;
    }
  }

  lemma {:induction false} LatestIsOther(h: seq<Request>, j: nat, k: nat, plugin: string, generation: string)
    requires j < k <= |h| && Generation(h[j], plugin).Some?
    requires forall x :: j <= x < k ==> Generation(h[x], plugin) != Some(generation)
    ensures plugin in Sources(h[..k]) && Sources(h[..k])[plugin].generation != generation
  {
    assert h[..k][..k - 1] == h[..k - 1];
    AnnouncedIs(Sources(h[..k - 1]), h[k - 1].files, plugin);
    assert Generation(h[k - 1], plugin) != Some(generation);
    if Named(h[k - 1], plugin).None? {
      LatestIsOther(h, j, k - 1, plugin, generation);
    }
  }

  lemma BegunIsStale(sources: map<string, Bundle>, first: Request, b: Bundle, r: Request)
    requires first.threadId != r.threadId && Generation(r, b.plugin) == Some(b.generation)
    requires b.plugin in sources && sources[b.plugin].generation != b.generation
    ensures ResolvesStale(Begun(sources, OneTool(first, b), r), first.threadId, first.revision, "d", "b")
  {
    AnnouncedIs(sources, r.files, b.plugin);
  }

  lemma ReturnGoesStale(h: seq<Request>, i: nat, j: nat, k: nat, b: Bundle)
    requires Admissible(h) && i < j < k < |h| && Named(h[i], b.plugin) == Some(b)
    requires Generation(h[k], b.plugin) == Some(b.generation) && Generation(h[j], b.plugin).Some?
    requires forall x :: j <= x < k ==> Generation(h[x], b.plugin) != Some(b.generation)
    requires forall m :: i < m <= k ==> h[m].threadId != h[i].threadId
    ensures CanGoStale(h)
  {
    OneCommittedIsReached(h, i, k, b);
    BeginNext(Sources(h[..k]), OneTool(h[i], b), h[..k], h[k]);
    SourcesNext(h, k);
    LatestIsOther(h, j, k, b.plugin, b.generation);
    BegunIsStale(Sources(h[..k]), h[i], b, h[k]);
  }

  lemma ReturnOfPrefix(h: seq<Request>, n: nat)
    requires n <= |h| && Returning(h[..n])
    ensures Returning(h)
  {
    var i, j, k, plugin :| Returns(h[..n], i, j, k, plugin);
    assert forall m :: 0 <= m < n ==> h[..n][m] == h[m];
    assert Returns(h, i, j, k, plugin);
  }

  lemma StaleStateNeedsReturn(s: State, h: seq<Request>, threadId: string, revision: int, definition: string,
                              binding: string)
    requires ReachedWith(s, h) && ResolvesStale(s, threadId, revision, definition, binding)
    ensures Returning(h)
  {
    var trace: seq<Step> :| Possible(START, trace) && Run(START, trace) == s && Accepted(START, trace) == h;
    StaleCallNeedsReturn(trace, threadId, revision, definition, binding);
  }

  // A call can resolve to a generation that the host does not hold if and only if some accepted request
  // brings a generation back after another one while a thread prepared with it still stands.
  lemma StaleCallIffGenerationReturns(h: seq<Request>)
    requires Admissible(h)
    ensures CanGoStale(h) <==> Returning(h)
  {
    if CanGoStale(h) {
      var s, n, threadId, revision, definition, binding :|
        0 <= n <= |h| && ReachedWith(s, h[..n]) && ResolvesStale(s, threadId, revision, definition, binding);
      StaleStateNeedsReturn(s, h[..n], threadId, revision, definition, binding);
      ReturnOfPrefix(h, n);
    }
    if Returning(h) {
      var i, j, k, plugin :| Returns(h, i, j, k, plugin);
      var first := FirstReturn(h, j, k, plugin, Generation(h[i], plugin).value);
      ReturnGoesStale(h, i, j, first, Named(h[i], plugin).value);
    }
  }

  // Three requests of three threads: generation g, generation h, and g again under a higher revision.
  lemma ReturningGenerationResolvesTooEarly()
    ensures var h := [Request("t", 1, [Bundle("p", 1, "g", "c")]), Request("u", 1, [Bundle("p", 2, "h", "e")]),
                      Request("v", 1, [Bundle("p", 3, "g", "c")])];
            Admissible(h) && CanGoStale(h)
  {
    var a, b, c := Request("t", 1, [Bundle("p", 1, "g", "c")]), Request("u", 1, [Bundle("p", 2, "h", "e")]),
                   Request("v", 1, [Bundle("p", 3, "g", "c")]);
    var h := [a, b, c];
    OneFile(map[], a.files[0]);
    OneFile(map["p" := a.files[0]], b.files[0]);
    assert h[..1] == [a] && h[..2] == [a, b] && [a][..0] == [] && [a, b][..1] == [a];
    assert Sources(h[..1]) == map["p" := a.files[0]];
    assert Sources(h[..2]) == map["p" := b.files[0]];
    assert Returns(h, 0, 1, 2, "p");
    StaleCallIffGenerationReturns(h);
  }

  lemma OneFile(sources: map<string, Bundle>, b: Bundle)
    ensures Announced(sources, [b]) == sources[b.plugin := b]
  {
    assert [b][..0] == [];
  }

  // ---------------------------------------------------------------- the workspace

  class Workspace {
    var sources: map<string, Bundle>
    var catalogs: map<string, Catalog>

    constructor ()
      ensures sources == map[] && catalogs == map[]
    {
      sources, catalogs := map[], map[];
    }

    // The section that opens a preparation: all files are checked before any source changes.
    method Begin(threadId: string, revision: int, files: seq<Bundle>) returns (ok: bool)
      modifies this
      ensures ok <==> MayBegin(State(old(sources), old(catalogs), map[], None, false), threadId, revision, files)
      ensures ok ==> sources == Announced(old(sources), files) && catalogs == old(catalogs) - {threadId}
      ensures !ok ==> sources == old(sources) && catalogs == old(catalogs)
    {
      if threadId in catalogs && catalogs[threadId].revision > revision {
        return false;
      }
      for i := 0 to |files|
        invariant forall k :: 0 <= k < i && files[k].plugin in sources ==>
                    Acceptable(sources[files[k].plugin], files[k])
      {
        if files[i].plugin in sources && !Acceptable(sources[files[i].plugin], files[i]) {
          return false;
        }
      }
      ghost var was := sources;
      assert files[..0] == [];
      for i := 0 to |files|
        invariant sources == Announced(was, files[..i]) && catalogs == old(catalogs)
      {
        assert files[..i + 1][..i] == files[..i];
        sources := sources[files[i].plugin := files[i]];
      }
      assert files[..|files|] == files;
      catalogs := catalogs - {threadId};
      ok := true;
    }

    method ResolveCall(threadId: string, revision: int, definition: string, binding: string) returns (r: Option<Tool>)
      ensures r == Resolve(State(sources, catalogs, map[], None, false), threadId, revision, definition, binding)
    {
      if threadId !in catalogs {
        return None;
      }
      var catalog := catalogs[threadId];
      if catalog.revision != revision || definition !in catalog.tools {
        return None;
      }
      var tool := catalog.tools[definition];
      if tool.binding != binding || tool.plugin !in sources || sources[tool.plugin].generation != tool.generation {
        return None;
      }
      r := Some(tool);
    }
  }
}
