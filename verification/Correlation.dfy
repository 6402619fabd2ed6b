/** Which open session and span may be the parent of a newly started agent. */
module Correlation {
  import opened Wrappers
  import opened Spans

  const SEPARATOR := '\U{1F}'

  type Key = string

  datatype Process = Process(pid: nat, start: nat)

  datatype Components = Components(
    objectType: string,
    objectId: Option<string>,
    arguments: Option<map<string, string>>,
    rowId: Option<string>,
    spanId: Option<string>,
    rootSpanId: Option<string>,
    parents: Option<seq<string>>,
    propagated: Option<string>)

  datatype Destination =
    | ProjectLogs(projectId: Option<string>, projectName: Option<string>)
    | Experiment(experimentId: string)
    | ParentSpan(components: Components)

  /** `settings` stands for everything but the destination. */
  datatype Route = Route(settings: string, destination: Option<Destination>)

  datatype ActiveTool = ActiveTool(components: Components, route: Route, active: bool)

  datatype State = State(
    processSessions: map<Process, set<Key>>,
    sessionProcesses: map<Key, set<Process>>,
    unconfirmed: map<Key, seq<Process>>,
    generations: set<Key>,
    retired: set<Key>,
    tools: map<Key, map<string, ActiveTool>>,
    sessionSpans: map<Key, ActiveTool>,
    live: set<Key>)

  const EMPTY := State(map[], map[], map[], {}, {}, map[], map[], {})

  predicate ValidProcess(p: Process) {
    p.pid != 0 && p.start != 0
  }

  predicate UsesCommandHook(source: string) {
    source in {"antigravity", "claude-code", "codex", "grok"}
  }

  // --- The two-way relation ----------------------------------------------------

  predicate Linked(state: State, p: Process, key: Key) {
    p in state.processSessions && key in state.processSessions[p]
  }

  predicate Owned(state: State, p: Process, key: Key) {
    key in state.sessionProcesses && p in state.sessionProcesses[key]
  }

  /** The two maps are inverse, and no process is kept without a session. */
  ghost predicate Inverse(state: State) {
    && (forall p, key :: Linked(state, p, key) <==> Owned(state, p, key))
    && (forall p :: p in state.processSessions ==> state.processSessions[p] != {})
  }

  function Link(state: State, p: Process, key: Key): State {
    var sessions := if p in state.processSessions then state.processSessions[p] else {};
    var processes := if key in state.sessionProcesses then state.sessionProcesses[key] else {};
    state.(processSessions := state.processSessions[p := sessions + {key}],
           sessionProcesses := state.sessionProcesses[key := processes + {p}])
  }

  /** Forget the processes of a session; a process without sessions goes too. */
  function Unlink(state: State, key: Key): State {
    if key !in state.sessionProcesses then state
    else
      var gone := state.sessionProcesses[key];
      state.(sessionProcesses := state.sessionProcesses - {key},
             processSessions := map p | p in state.processSessions && !(p in gone && state.processSessions[p] - {key} == {})
                                  :: if p in gone then state.processSessions[p] - {key} else state.processSessions[p])
  }

  lemma SameRelation(a: State, b: State)
    requires a.processSessions == b.processSessions && a.sessionProcesses == b.sessionProcesses
    requires Inverse(a)
    ensures Inverse(b)
  {
    forall p, key
      ensures Linked(b, p, key) <==> Owned(b, p, key)
    {
      assert Linked(a, p, key) <==> Owned(a, p, key);
    }
  }

  lemma LinkKeeps(state: State, p: Process, key: Key)
    requires Inverse(state)
    ensures Inverse(Link(state, p, key))
    ensures forall q, k :: Owned(Link(state, p, key), q, k) <==> Owned(state, q, k) || (q == p && k == key)
  {
    var next := Link(state, p, key);
    forall q, k
      ensures Linked(next, q, k) <==> Owned(next, q, k)
    {
      assert Linked(state, q, k) <==> Owned(state, q, k);
    }
  }

  lemma UnlinkKeeps(state: State, key: Key)
    requires Inverse(state)
    ensures Inverse(Unlink(state, key))
    ensures forall p :: !Linked(Unlink(state, key), p, key)
    ensures forall p, k :: Owned(Unlink(state, key), p, k) <==> k != key && Owned(state, p, k)
    ensures Unlink(state, key) == state.(processSessions := Unlink(state, key).processSessions, sessionProcesses := Unlink(state, key).sessionProcesses)
  {
    var next := Unlink(state, key);
    forall q, k
      ensures Linked(next, q, k) <==> Owned(next, q, k)
    {
      assert Linked(state, q, k) <==> Owned(state, q, k);
      assert Linked(state, q, key) <==> Owned(state, q, key);
    }
    forall p
      ensures !Linked(next, p, key)
    {
      assert Linked(state, p, key) <==> Owned(state, p, key);
    }
  }

  // --- Finding the agent of a session --------------------------------------------

  /** The first process above the hook that an earlier hook had above it too. */
  function SharedAncestor(previous: seq<Process>, latest: seq<Process>): Option<Process> {
    if latest == [] then None
    else if latest[0] in previous then Some(latest[0])
    else SharedAncestor(previous, latest[1..])
  }

  function AgentProcess(source: string, previous: seq<Process>, latest: Option<seq<Process>>): Option<Process> {
    if !UsesCommandHook(source) then
      if previous != [] && ValidProcess(previous[0]) then Some(previous[0]) else None
    else if latest.None? || previous == [] || latest.value == [] then None
    else if !ValidProcess(previous[0]) || !ValidProcess(latest.value[0]) then None
    else if previous[0] == latest.value[0]
        && !(|previous| > 1 && |latest.value| > 1
             && latest.value[1] !in previous && previous[1] !in latest.value) then None
    else
      var shared := SharedAncestor(previous[1..], latest.value[1..]);
      if shared.Some? && ValidProcess(shared.value) then shared else None
  }

  lemma {:induction false} SharedAncestorIsNearest(previous: seq<Process>, latest: seq<Process>)
    ensures var r := SharedAncestor(previous, latest);
            match r
            case None => forall i :: 0 <= i < |latest| ==> latest[i] !in previous
            case Some(p) =>
              p in previous && exists i :: (0 <= i < |latest| && latest[i] == p && forall j :: 0 <= j < i ==> latest[j] !in previous)
  {
    if latest != [] && latest[0] !in previous {
      SharedAncestorIsNearest(previous, latest[1..]);
      if SharedAncestor(previous, latest[1..]).Some? {
        var p := SharedAncestor(previous, latest[1..]).value;
        var i :| 0 <= i < |latest[1..]| && latest[1..][i] == p && forall j :: 0 <= j < i ==> latest[1..][j] !in previous;
        assert latest[i + 1] == p;
        forall j | 0 <= j < i + 1
          ensures latest[j] !in previous
        {
          assert j > 0 ==> latest[j] == latest[1..][j - 1];
        }
      }
    } else if latest != [] {
      assert latest[0] == SharedAncestor(previous, latest).value;
    }
  }

  /** A command-hook agent is the nearest process that two hooks have above them, and never a hook itself by position. */
  lemma AgentIsSharedAbove(source: string, previous: seq<Process>, latest: seq<Process>)
    requires UsesCommandHook(source) && AgentProcess(source, previous, Some(latest)).Some?
    ensures var p := AgentProcess(source, previous, Some(latest)).value;
            && ValidProcess(p) && p in previous[1..]
            && exists i :: 1 <= i < |latest| && latest[i] == p && forall j :: 1 <= j < i ==> latest[j] !in previous[1..]
  {
    SharedAncestorIsNearest(previous[1..], latest[1..]);
    var p := AgentProcess(source, previous, Some(latest)).value;
    var i :| 0 <= i < |latest[1..]| && latest[1..][i] == p && forall j :: 0 <= j < i ==> latest[1..][j] !in previous[1..];
    assert latest[i + 1] == p;
    forall j | 1 <= j < i + 1
      ensures latest[j] !in previous[1..]
    {
      assert latest[j] == latest[1..][j - 1];
    }
  }

  /** One hook that is seen twice confirms nothing. */
  lemma RepeatedHookConfirmsNothing(source: string, chain: seq<Process>)
    requires UsesCommandHook(source)
    ensures AgentProcess(source, chain, Some(chain)).None?
  {
    assert |chain| > 1 ==> chain[1] in chain;
  }

  // --- Observing operations ----------------------------------------------------

  function AttachedSpan(destination: Option<Destination>): Option<string> {
    if destination.Some? && destination.value.ParentSpan? then destination.value.components.spanId else None
  }

  function SpanComponents(destination: Option<Destination>, row: SpanRow): Components {
    var parents := if row.parents == [] then None else Some(row.parents);
    var own := Components("project_logs", None, None, Some(row.spanId), Some(row.spanId), Some(row.rootSpanId), parents, None);
    match destination
    case None => own
    case Some(ProjectLogs(id, name)) =>
      var arguments := (if id.Some? then map["project_id" := id.value] else map[])
                     + (if name.Some? then map["project_name" := name.value] else map[]);
      own.(objectId := id, arguments := if arguments == map[] then None else Some(arguments))
    case Some(Experiment(id)) => own.(objectType := "experiment", objectId := Some(id))
    case Some(ParentSpan(components)) =>
      own.(objectType := components.objectType, objectId := components.objectId, arguments := components.arguments,
           propagated := components.propagated,
           rootSpanId := if components.rootSpanId.Some? then components.rootSpanId else own.rootSpanId)
  }

  function ToolsOf(state: State, key: Key): map<string, ActiveTool> {
    if key in state.tools then state.tools[key] else map[]
  }

  /** The open tools of one session after one more operation. */
  function ObserveTool(tools: map<string, ActiveTool>, route: Route, destination: Option<Destination>, op: SpanOp): map<string, ActiveTool> {
    var row := op.row;
    if row.spanId == "" then tools
    else if row.endMs.Some? then tools - {row.spanId}
    else if row.spanType.Tool? && op.Insert? then
      tools[row.spanId := ActiveTool(SpanComponents(destination, row), route, true)]
    else tools
  }

  function ObserveSpan(spans: map<Key, ActiveTool>, key: Key, route: Route, destination: Option<Destination>, op: SpanOp): map<Key, ActiveTool> {
    var row := op.row;
    if row.spanId == "" then spans
    else
      var marked :=
        if key in spans && spans[key].components.spanId == Some(row.spanId) then
          spans[key := spans[key].(active := row.endMs.None?)]
        else spans;
      var external := AttachedSpan(destination);
      var owned := row.spanType.Task? && row.parents == (if external.Some? then [external.value] else []);
      if op.Insert? && owned && key !in marked then
        marked[key := ActiveTool(SpanComponents(destination, row), route, true)]
      else marked
  }

  function ObserveOp(state: State, key: Key, route: Route, destination: Option<Destination>, op: SpanOp): State {
    var tools := ObserveTool(ToolsOf(state, key), route, destination, op);
    state.(sessionSpans := ObserveSpan(state.sessionSpans, key, route, destination, op),
           tools := if key in state.tools || tools != map[] then state.tools[key := tools] else state.tools)
  }

  function ObserveAll(state: State, key: Key, route: Route, destination: Option<Destination>, ops: seq<SpanOp>): State {
    if ops == [] then state
    else ObserveOp(ObserveAll(state, key, route, destination, ops[..|ops| - 1]), key, route, destination, ops[|ops| - 1])
  }

  /** The operation is the birth of the session's own span: a task below nothing, or below the span that the session is attached to. */
  predicate OwnsSession(destination: Option<Destination>, op: SpanOp) {
    && op.Insert? && op.row.spanId != "" && op.row.spanType.Task?
    && op.row.parents == match destination
                         case Some(ParentSpan(above)) => if above.spanId.Some? then [above.spanId.value] else []
                         case _ => []
  }

  /**
   * The operation is news for the session: it opens or closes its span, is
   * the birth of that span, ends an open tool or opens a tool.
   */
  predicate IsNews(state: State, key: Key, destination: Option<Destination>, op: SpanOp) {
    && op.row.spanId != ""
    && (|| (key in state.sessionSpans && state.sessionSpans[key].components.spanId == Some(op.row.spanId)
            && state.sessionSpans[key].active != op.row.endMs.None?)
        || (key !in state.sessionSpans && OwnsSession(destination, op))
        || (op.row.endMs.Some? && key in state.tools && op.row.spanId in state.tools[key])
        || (op.row.endMs.None? && op.Insert? && op.row.spanType.Tool?))
  }

  lemma SpanNews(spans: map<Key, ActiveTool>, key: Key, route: Route, destination: Option<Destination>, op: SpanOp)
    requires op.row.spanId != ""
    ensures ObserveSpan(spans, key, route, destination, op) == spans <==>
              if key in spans then spans[key].components.spanId == Some(op.row.spanId) ==> spans[key].active == op.row.endMs.None?
              else !OwnsSession(destination, op)
  {
    if key in spans && spans[key].components.spanId == Some(op.row.spanId) {
      assert spans[key := spans[key].(active := op.row.endMs.None?)][key].active == op.row.endMs.None?;
      assert spans[key].active == op.row.endMs.None? ==> spans[key := spans[key].(active := op.row.endMs.None?)] == spans;
    } else if key !in spans && OwnsSession(destination, op) {
      assert key in ObserveSpan(spans, key, route, destination, op);
    }
  }

  lemma ToolNews(tools: map<string, ActiveTool>, route: Route, destination: Option<Destination>, op: SpanOp)
    requires op.row.spanId != ""
    ensures ObserveTool(tools, route, destination, op) == tools <==>
              if op.row.endMs.Some? then op.row.spanId !in tools
              else op.Insert? && op.row.spanType.Tool? ==>
                Lookup(tools, op.row.spanId) == Some(ActiveTool(SpanComponents(destination, op.row), route, true))
  {
    var id, tool := op.row.spanId, ActiveTool(SpanComponents(destination, op.row), route, true);
    assert tools[id := tool][id] == tool && id !in tools - {id};
    assert id !in tools ==> tools - {id} == tools;
    assert Lookup(tools, id) == Some(tool) ==> tools[id := tool] == tools;
  }

  /** What is no news changes nothing; news changes the session, unless a tool is opened again as it was. */
  lemma NewsExactly(state: State, key: Key, route: Route, destination: Option<Destination>, op: SpanOp)
    ensures !IsNews(state, key, destination, op) ==> ObserveOp(state, key, route, destination, op) == state
    ensures IsNews(state, key, destination, op) && ObserveOp(state, key, route, destination, op) == state ==>
              Lookup(ToolsOf(state, key), op.row.spanId) == Some(ActiveTool(SpanComponents(destination, op.row), route, true))
  {
    if op.row.spanId != "" {
      SpanNews(state.sessionSpans, key, route, destination, op);
      ToolNews(ToolsOf(state, key), route, destination, op);
    }
    hide ObserveSpan, ObserveTool, OwnsSession;
    var tools := ToolsOf(state, key);
    assert key in state.tools ==> state.tools[key := tools] == state.tools;
  }

  ghost predicate SomeNews(state: State, key: Key, route: Route, destination: Option<Destination>, ops: seq<SpanOp>) {
    exists i :: 0 <= i < |ops| && IsNews(ObserveAll(state, key, route, destination, ops[..i]), key, destination, ops[i])
  }

  lemma NoNewsYet(state: State, key: Key, route: Route, destination: Option<Destination>)
    ensures !SomeNews(state, key, route, destination, [])
  {}

  lemma NewsSoFar(state: State, key: Key, route: Route, destination: Option<Destination>, ops: seq<SpanOp>, i: nat)
    requires i < |ops|
    ensures SomeNews(state, key, route, destination, ops[..i + 1])
            <==> SomeNews(state, key, route, destination, ops[..i]) || IsNews(ObserveAll(state, key, route, destination, ops[..i]), key, destination, ops[i])
  {
    var now, before := ops[..i + 1], ops[..i];
    forall k | 0 <= k <= i
      ensures now[..k] == ops[..k] && before[..k] == ops[..k]
    {}
    hide IsNews, ObserveAll;
    assert IsNews(ObserveAll(state, key, route, destination, now[..i]), key, destination, now[i])
           == IsNews(ObserveAll(state, key, route, destination, ops[..i]), key, destination, ops[i]);
    if SomeNews(state, key, route, destination, before) {
      var k :| 0 <= k < i && IsNews(ObserveAll(state, key, route, destination, before[..k]), key, destination, before[k]);
      assert IsNews(ObserveAll(state, key, route, destination, now[..k]), key, destination, now[k]);
    }
    if SomeNews(state, key, route, destination, now) {
      var k :| 0 <= k <= i && IsNews(ObserveAll(state, key, route, destination, now[..k]), key, destination, now[k]);
      assert k < i ==> IsNews(ObserveAll(state, key, route, destination, before[..k]), key, destination, before[k]);
    }
  }

  /** A batch without news leaves the registry as it is, so there is nothing to save. */
  lemma {:induction false} NoNewsStays(state: State, key: Key, route: Route, destination: Option<Destination>, ops: seq<SpanOp>)
    requires !SomeNews(state, key, route, destination, ops)
    ensures ObserveAll(state, key, route, destination, ops) == state
  {
    if ops != [] {
      var rest := ops[..|ops| - 1];
      forall i | 0 <= i < |rest|
        ensures !IsNews(ObserveAll(state, key, route, destination, rest[..i]), key, destination, rest[i])
      {
        assert rest[..i] == ops[..i];
      }
      NoNewsStays(state, key, route, destination, rest);
      assert !IsNews(ObserveAll(state, key, route, destination, ops[..|ops| - 1]), key, destination, ops[|ops| - 1]);
      NewsExactly(state, key, route, destination, ops[|ops| - 1]);
    }
  }

  function FirstOwned(destination: Option<Destination>, ops: seq<SpanOp>): (r: Option<nat>)
    ensures r.Some? ==> r.value < |ops| && OwnsSession(destination, ops[r.value])
  {
    if ops == [] then None
    else
      var before := FirstOwned(destination, ops[..|ops| - 1]);
      if before.Some? then before
      else if OwnsSession(destination, ops[|ops| - 1]) then Some(|ops| - 1)
      else None
  }

  /** The last operation after `from` that names the span has no end, or there is none. */
  predicate OpenAfter(ops: seq<SpanOp>, from: nat, id: string) {
    if |ops| <= from + 1 then true
    else if ops[|ops| - 1].row.spanId == id then ops[|ops| - 1].row.endMs.None?
    else OpenAfter(ops[..|ops| - 1], from, id)
  }

  /**
   * The session's span is the first task of its own, whatever tasks follow,
   * and it is open exactly while the last operation that names it leaves it open.
   */
  lemma {:induction false} SessionSpanIsFirst(state: State, key: Key, route: Route, destination: Option<Destination>, ops: seq<SpanOp>)
    requires key !in state.sessionSpans
    ensures var spans := ObserveAll(state, key, route, destination, ops).sessionSpans;
            match FirstOwned(destination, ops)
            case None => key !in spans
            case Some(i) =>
              var row := ops[i].row;
              key in spans && spans[key] == ActiveTool(SpanComponents(destination, row), route, OpenAfter(ops, i, row.spanId))
  {
    if ops != [] {
      SessionSpanIsFirst(state, key, route, destination, ops[..|ops| - 1]);
    }
  }

  /** The components that an agent below a row would attach to, and so on down a chain of agents. */
  function Attached(destination: Option<Destination>, rows: seq<SpanRow>): Components
    requires rows != []
  {
    if |rows| == 1 then SpanComponents(destination, rows[0])
    else SpanComponents(Some(ParentSpan(Attached(destination, rows[..|rows| - 1]))), rows[|rows| - 1])
  }

  /** However deep agents are nested, all of them stay in the trace of the outermost one, each below its own parent span. */
  lemma {:induction false} NestedAgentsShareTrace(destination: Option<Destination>, rows: seq<SpanRow>)
    requires rows != []
    ensures var outer, inner := SpanComponents(destination, rows[0]), Attached(destination, rows);
            && inner.rootSpanId == outer.rootSpanId && inner.rootSpanId.Some?
            && inner.objectType == outer.objectType && inner.objectId == outer.objectId
            && inner.arguments == outer.arguments && inner.propagated == outer.propagated
            && inner.spanId == inner.rowId == Some(rows[|rows| - 1].spanId)
  {
    if |rows| > 1 {
      NestedAgentsShareTrace(destination, rows[..|rows| - 1]);
    }
  }

  // --- Choosing a parent ---------------------------------------------------------

  datatype Resolution =
    | Standalone
    | Parent(route: Route)
    | Pending(process: Process, route: Route)

  function NativeKey(key: Key): Key {
    if SEPARATOR !in key then key
    else if key[|key| - 1] == SEPARATOR then key[..|key| - 1]
    else NativeKey(key[..|key| - 1])
  }

  function ActiveIds(tools: map<string, ActiveTool>): set<string> {
    set id | id in tools && tools[id].active
  }

  predicate IsOpen(state: State, key: Key) {
    || ActiveIds(ToolsOf(state, key)) != {}
    || (key in state.sessionSpans && state.sessionSpans[key].active)
  }

  function OpenSessions(state: State, p: Process): set<Key>
    requires p in state.processSessions
  {
    set key | key in state.processSessions[p] && IsOpen(state, key)
  }

  /** The only open tool, else the active session span. */
  ghost function ParentTool(state: State, key: Key): Option<ActiveTool> {
    var ids := ActiveIds(ToolsOf(state, key));
    if |ids| == 1 then
      var id :| id in ids;
      Some(ToolsOf(state, key)[id])
    else if key in state.sessionSpans && state.sessionSpans[key].active then Some(state.sessionSpans[key])
    else None
  }

  function ToLink(tool: ActiveTool): Route {
    tool.route.(destination := Some(ParentSpan(tool.components)))
  }

  ghost function RouteOf(state: State, key: Key, compatible: Route -> Option<Route>): Option<Route> {
    var tool := ParentTool(state, key);
    if tool.None? then None else compatible(ToLink(tool.value))
  }

  // --- The parent that a history leaves -------------------------------------------

  predicate BearsTool(op: SpanOp, id: string) {
    op.Insert? && op.row.spanType.Tool? && op.row.spanId == id != "" && op.row.endMs.None?
  }

  predicate EndsSpan(op: SpanOp, id: string) {
    op.row.spanId == id != "" && op.row.endMs.Some?
  }

  /** Operation `i` is the last birth of the tool, and nothing ended the tool after it. */
  ghost predicate LeftOpen(ops: seq<SpanOp>, id: string, i: nat) {
    i < |ops| && BearsTool(ops[i], id) && forall j :: i < j < |ops| ==> !BearsTool(ops[j], id) && !EndsSpan(ops[j], id)
  }

  lemma LeftOpenStep(ops: seq<SpanOp>, id: string, i: nat)
    requires ops != []
    ensures var last := |ops| - 1;
            LeftOpen(ops, id, i) <==>
              if BearsTool(ops[last], id) then i == last
              else !EndsSpan(ops[last], id) && LeftOpen(ops[..last], id, i)
  {
    var last := |ops| - 1;
    if LeftOpen(ops[..last], id, i) {
      assert ops[..last][i] == ops[i];
      assert forall j :: i < j < last ==> ops[..last][j] == ops[j];
    }
  }

  /** The tools that are open after a session's operations are those that some operation left open, as it reported them. */
  lemma {:induction false} OpenToolsAreLeftOpen(state: State, key: Key, route: Route, destination: Option<Destination>, ops: seq<SpanOp>, id: string)
    requires key !in state.tools
    ensures var tools := ToolsOf(ObserveAll(state, key, route, destination, ops), key);
            && (id in tools <==> exists i: nat :: LeftOpen(ops, id, i))
            && (forall i: nat :: LeftOpen(ops, id, i) ==>
                 id in tools && tools[id] == ActiveTool(SpanComponents(destination, ops[i].row), route, true))
  {
    hide SpanComponents, ObserveAll, LeftOpen, BearsTool, EndsSpan;
    if ops == [] {
      NothingLeftOpen(id);
      ObservedNothing(state, key, route, destination);
    } else {
      ObservedTool(state, key, route, destination, ops, id);
      var last, rest := |ops| - 1, ops[..|ops| - 1];
      OpenToolsAreLeftOpen(state, key, route, destination, rest, id);
      forall i: nat
        ensures LeftOpen(ops, id, i) <==>
                  if BearsTool(ops[last], id) then i == last else !EndsSpan(ops[last], id) && LeftOpen(rest, id, i)
      {
        LeftOpenStep(ops, id, i);
      }
      forall i: nat | LeftOpen(rest, id, i)
        ensures i < last && rest[i] == ops[i]
      {
        LeftOpenIsThere(rest, id, i);
      }
      if BearsTool(ops[last], id) {
        assert LeftOpen(ops, id, last);
      }
    }
  }

  lemma ObservedNothing(state: State, key: Key, route: Route, destination: Option<Destination>)
    ensures ObserveAll(state, key, route, destination, []) == state
  {}

  lemma ObservedTool(state: State, key: Key, route: Route, destination: Option<Destination>, ops: seq<SpanOp>, id: string)
    requires ops != []
    ensures var last := ops[|ops| - 1];
            var before := ToolsOf(ObserveAll(state, key, route, destination, ops[..|ops| - 1]), key);
            var after := ToolsOf(ObserveAll(state, key, route, destination, ops), key);
            Lookup(after, id) == if BearsTool(last, id) then Some(ActiveTool(SpanComponents(destination, last.row), route, true))
                                 else if EndsSpan(last, id) then None else Lookup(before, id)
  {
    hide SpanComponents, ObserveSpan;
  }

  lemma NothingLeftOpen(id: string)
    ensures forall i: nat :: !LeftOpen([], id, i)
  {}

  lemma LeftOpenIsThere(ops: seq<SpanOp>, id: string, i: nat)
    requires LeftOpen(ops, id, i)
    ensures i < |ops| && BearsTool(ops[i], id)
  {}

  /** Operation `i` left a tool open, and no other tool is open. */
  ghost predicate OnlyOpenTool(ops: seq<SpanOp>, i: nat) {
    && i < |ops| && LeftOpen(ops, ops[i].row.spanId, i)
    && (forall id, j: nat :: LeftOpen(ops, id, j) ==> id == ops[i].row.spanId)
  }

  /**
   * What an agent started after a session's operations attaches to: the tool
   * that is open if it is the only one, and otherwise, with none or several
   * open, the first task of the session's own while that is open.
   */
  lemma ParentOfHistory(state: State, key: Key, route: Route, destination: Option<Destination>, ops: seq<SpanOp>)
    requires key !in state.tools && key !in state.sessionSpans
    ensures var parent := ParentTool(ObserveAll(state, key, route, destination, ops), key);
            && (forall i: nat :: OnlyOpenTool(ops, i) ==> parent == Some(ActiveTool(SpanComponents(destination, ops[i].row), route, true)))
            && ((forall i: nat :: !OnlyOpenTool(ops, i)) ==>
                  parent == match FirstOwned(destination, ops)
                            case None => None
                            case Some(k) =>
                              if OpenAfter(ops, k, ops[k].row.spanId)
                              then Some(ActiveTool(SpanComponents(destination, ops[k].row), route, true)) else None)
  {
    hide SpanComponents, ObserveAll, FirstOwned, OpenAfter, LeftOpen;
    SessionSpanIsFirst(state, key, route, destination, ops);
    var after := ObserveAll(state, key, route, destination, ops);
    var tools := ToolsOf(after, key);
    forall id
      ensures id in tools <==> exists i: nat :: LeftOpen(ops, id, i)
      ensures forall i: nat :: LeftOpen(ops, id, i) ==> i < |ops| && id in tools && tools[id] == ActiveTool(SpanComponents(destination, ops[i].row), route, true)
    {
      OpenToolsAreLeftOpen(state, key, route, destination, ops, id);
      forall i: nat | LeftOpen(ops, id, i)
        ensures i < |ops|
      {
        LeftOpenIsThere(ops, id, i);
      }
    }
    var open := ActiveIds(tools);
    if |open| == 1 {
      var id :| id in open;
      OnlyOne(open, id);
      var i: nat :| LeftOpen(ops, id, i);
      OnlyIsOpen(ops, open, id, i);
    }
    forall i: nat | OnlyOpenTool(ops, i)
      ensures open == {ops[i].row.spanId}
    {}
  }

  lemma OnlyIsOpen(ops: seq<SpanOp>, open: set<string>, id: string, i: nat)
    requires open == {id} && LeftOpen(ops, id, i)
    requires forall other, j: nat :: LeftOpen(ops, other, j) ==> other in open
    ensures OnlyOpenTool(ops, i)
  {}

  ghost function Compatible(state: State, open: set<Key>, compatible: Route -> Option<Route>): set<Key> {
    set key | key in open && RouteOf(state, key, compatible).Some?
  }

  predicate OneNative(open: set<Key>) {
    forall a, b :: a in open && b in open ==> NativeKey(a) == NativeKey(b)
  }

  predicate StartsWith(key: Key, prefix: Option<Key>) {
    prefix.Some? && prefix.value <= key
  }

  /** The answer at one registered process, when `first` is the session that is looked at first. */
  ghost function AnswerAt(state: State, p: Process, first: Key, child: Option<Key>, confirmed: bool,
                          compatible: Route -> Option<Route>): Resolution
    requires p in state.processSessions && first in OpenSessions(state, p)
  {
    var open := OpenSessions(state, p);
    var chosen := Compatible(state, open, compatible);
    if !OneNative(open) || StartsWith(first, child) || |chosen| != 1 then Standalone
    else
      var key :| key in chosen;
      var route := RouteOf(state, key, compatible).value;
      if confirmed then Parent(route) else Pending(p, route)
  }

  function Nearest(state: State, chain: seq<Process>): (r: Option<Process>)
    ensures r.Some? ==> ValidProcess(r.value) && r.value in state.processSessions && r.value in chain
  {
    if chain == [] then None
    else if ValidProcess(chain[0]) && chain[0] in state.processSessions then Some(chain[0])
    else Nearest(state, chain[1..])
  }

  /** The processes strictly above a known child agent, or the whole chain. */
  function Ancestors(chain: seq<Process>, agent: Option<Process>): Option<seq<Process>> {
    if agent.None? then Some(chain)
    else if !ValidProcess(agent.value) then None
    else After(chain, agent.value)
  }

  function After(chain: seq<Process>, p: Process): Option<seq<Process>> {
    if chain == [] then None else if chain[0] == p then Some(chain[1..]) else After(chain[1..], p)
  }

  /** Every answer that some order of iteration can give, for the processes to look at. */
  ghost predicate AnswersAbove(state: State, child: Option<Key>, above: seq<Process>, confirmed: bool,
                               compatible: Route -> Option<Route>, answer: Resolution)
  {
    var near := Nearest(state, above);
    if near.None? || OpenSessions(state, near.value) == {} then answer == Standalone
    else exists first :: first in OpenSessions(state, near.value)
                      && answer == AnswerAt(state, near.value, first, child, confirmed, compatible)
  }

  ghost predicate MayAnswer(state: State, child: Option<Key>, chain: Option<seq<Process>>, agent: Option<Process>,
                            compatible: Route -> Option<Route>, answer: Resolution)
  {
    if chain.None? || Ancestors(chain.value, agent).None? then answer == Standalone
    else AnswersAbove(state, child, Ancestors(chain.value, agent).value, agent.Some?, compatible, answer)
  }

  // --- What an answer means --------------------------------------------------------

  lemma {:induction false} NativePrefix(key: Key)
    ensures SEPARATOR in key ==>
              && NativeKey(key) + [SEPARATOR] <= key
              && SEPARATOR !in key[|NativeKey(key)| + 1..]
  {
    if SEPARATOR in key {
      var rest := key[..|key| - 1];
      if key[|key| - 1] == SEPARATOR {
        assert NativeKey(key) + [SEPARATOR] == key;
      } else {
        assert SEPARATOR in rest;
        NativePrefix(rest);
        assert key[|NativeKey(key)| + 1..] == rest[|NativeKey(key)| + 1..] + [key[|key| - 1]];
      }
    }
  }

  /** A prefix that ends with the separator selects whole native sessions. */
  lemma PrefixSelectsSessions(a: Key, b: Key, child: Key)
    requires child != "" && child[|child| - 1] == SEPARATOR
    requires NativeKey(a) == NativeKey(b) && SEPARATOR in b
    requires child <= a
    ensures child <= b
  {
    NativePrefix(a);
    NativePrefix(b);
    var native := NativeKey(a);
    assert a[|child| - 1] == SEPARATOR;
    forall i | |native| + 1 <= i < |a|
      ensures a[i] != SEPARATOR
    {
      assert a[i] == a[|native| + 1..][i - (|native| + 1)];
    }
    assert child == (native + [SEPARATOR])[..|child|];
    assert native + [SEPARATOR] == b[..|native| + 1];
  }

  /**
   * Whatever the iteration order of the maps, the answer is the same, for any
   * child prefix that ends with the separator, as the caller's always does.
   */
  lemma ResolveIsDeterministic(state: State, child: Option<Key>, chain: Option<seq<Process>>, agent: Option<Process>,
                               compatible: Route -> Option<Route>, x: Resolution, y: Resolution)
    requires child.Some? ==> child.value != "" && child.value[|child.value| - 1] == SEPARATOR
    requires forall p, key :: Linked(state, p, key) ==> SEPARATOR in key
    requires MayAnswer(state, child, chain, agent, compatible, x)
    requires MayAnswer(state, child, chain, agent, compatible, y)
    ensures x == y
  {
    hide NativeKey, RouteOf, IsOpen, Compatible;
    var above := if chain.None? then None else Ancestors(chain.value, agent);
    var near := if above.None? then None else Nearest(state, above.value);
    if near.Some? && OpenSessions(state, near.value) != {} {
      var open := OpenSessions(state, near.value);
      var a :| a in open && x == AnswerAt(state, near.value, a, child, agent.Some?, compatible);
      var b :| b in open && y == AnswerAt(state, near.value, b, child, agent.Some?, compatible);
      assert Linked(state, near.value, a) && Linked(state, near.value, b);
      if OneNative(open) && child.Some? {
        if child.value <= a {
          PrefixSelectsSessions(a, b, child.value);
        }
        if child.value <= b {
          PrefixSelectsSessions(b, a, child.value);
        }
      }
    }
  }

  /** For other prefixes: two orders disagree exactly when the prefix splits the open routes of a session that would answer. */
  lemma OrderMattersExactly(state: State, p: Process, a: Key, b: Key, child: Option<Key>, confirmed: bool, compatible: Route -> Option<Route>)
    requires p in state.processSessions && a in OpenSessions(state, p) && b in OpenSessions(state, p)
    ensures AnswerAt(state, p, a, child, confirmed, compatible) != AnswerAt(state, p, b, child, confirmed, compatible)
            <==> StartsWith(a, child) != StartsWith(b, child)
                 && OneNative(OpenSessions(state, p)) && |Compatible(state, OpenSessions(state, p), compatible)| == 1
  {
    ChildIsSilent(state, p, a, b, child, confirmed, compatible);
  }

  lemma ChildIsSilent(state: State, p: Process, a: Key, b: Key, child: Option<Key>, confirmed: bool, compatible: Route -> Option<Route>)
    requires p in state.processSessions && a in OpenSessions(state, p) && b in OpenSessions(state, p)
    ensures !StartsWith(a, child) && OneNative(OpenSessions(state, p)) && |Compatible(state, OpenSessions(state, p), compatible)| == 1
            ==> !AnswerAt(state, p, a, child, confirmed, compatible).Standalone?
    ensures StartsWith(a, child) ==> AnswerAt(state, p, a, child, confirmed, compatible).Standalone?
  {}

  lemma {:induction false} NearestIsNearest(state: State, chain: seq<Process>)
    ensures match Nearest(state, chain)
            case None => forall i :: 0 <= i < |chain| ==> !(ValidProcess(chain[i]) && chain[i] in state.processSessions)
            case Some(p) =>
              exists i :: (0 <= i < |chain| && chain[i] == p
                           && forall j :: 0 <= j < i ==> !(ValidProcess(chain[j]) && chain[j] in state.processSessions))
  {
    if chain != [] && !(ValidProcess(chain[0]) && chain[0] in state.processSessions) {
      NearestIsNearest(state, chain[1..]);
      if Nearest(state, chain[1..]).Some? {
        var p := Nearest(state, chain[1..]).value;
        var i :| 0 <= i < |chain[1..]| && chain[1..][i] == p
              && forall j :: 0 <= j < i ==> !(ValidProcess(chain[1..][j]) && chain[1..][j] in state.processSessions);
        assert chain[i + 1] == p;
        forall j | 0 <= j < i + 1
          ensures !(ValidProcess(chain[j]) && chain[j] in state.processSessions)
        {
          assert j > 0 ==> chain[j] == chain[1..][j - 1];
        }
      }
    } else if chain != [] {
      assert chain[0] == Nearest(state, chain).value;
    }
  }

  lemma {:induction false} AfterIsStrict(chain: seq<Process>, p: Process)
    ensures match After(chain, p)
            case None => p !in chain
            case Some(above) => exists i :: 0 <= i < |chain| && chain[i] == p && above == chain[i + 1..]
  {
    if chain != [] && chain[0] != p {
      AfterIsStrict(chain[1..], p);
      if After(chain[1..], p).Some? {
        var i :| 0 <= i < |chain[1..]| && chain[1..][i] == p && After(chain[1..], p).value == chain[1..][i + 1..];
        assert chain[i + 1] == p && chain[i + 2..] == chain[1..][i + 1..];
      }
    } else if chain != [] {
      assert chain[0] == p && chain[1..] == After(chain, p).value;
    }
  }

  /**
   * Any parent that is named is the nearest registered process in the
   * ancestry, strictly above a known child agent; all its open sessions are
   * one native session, which is not the child's; and exactly one of them has
   * a compatible route, the one in the answer.
   */
  lemma ResolveIsSound(state: State, child: Option<Key>, chain: Option<seq<Process>>, agent: Option<Process>,
                       compatible: Route -> Option<Route>, answer: Resolution) returns (p: Process, key: Key)
    requires MayAnswer(state, child, chain, agent, compatible, answer) && !answer.Standalone?
    requires child.Some? ==> child.value != "" && child.value[|child.value| - 1] == SEPARATOR
    requires forall p, key :: Linked(state, p, key) ==> SEPARATOR in key
    ensures chain.Some? && Ancestors(chain.value, agent).Some?
    ensures Nearest(state, Ancestors(chain.value, agent).value) == Some(p)
    ensures Linked(state, p, key) && IsOpen(state, key)
    ensures forall other :: Linked(state, p, other) && IsOpen(state, other) ==>
              NativeKey(other) == NativeKey(key) && !StartsWith(other, child)
    ensures forall other :: Linked(state, p, other) && IsOpen(state, other) && RouteOf(state, other, compatible).Some? ==> other == key
    ensures RouteOf(state, key, compatible) == Some(answer.route)
    ensures answer == if agent.Some? then Parent(answer.route) else Pending(p, answer.route)
  {
    p := Nearest(state, Ancestors(chain.value, agent).value).value;
    var open := OpenSessions(state, p);
    var first :| first in open && answer == AnswerAt(state, p, first, child, agent.Some?, compatible);
    var chosen := Compatible(state, open, compatible);
    key :| key in chosen;
    OnlyOne(chosen, key);
    forall other | Linked(state, p, other) && IsOpen(state, other)
      ensures NativeKey(other) == NativeKey(key) && !StartsWith(other, child)
      ensures RouteOf(state, other, compatible).Some? ==> other == key
    {
      assert other in open && key in open && first in open;
      assert Linked(state, p, first);
      if StartsWith(other, child) {
        PrefixSelectsSessions(other, first, child.value);
      }
      if RouteOf(state, other, compatible).Some? {
        assert other in chosen;
      }
    }
  }

  lemma OnlyOne<T>(s: set<T>, x: T)
    requires |s| == 1 && x in s
    ensures s == {x}
  {
    assert s == {x} by {
      if exists y :: y in s && y != x {
        var y :| y in s && y != x;
        assert {x, y} <= s;
        Bigger({x, y}, s);
      }
    }
  }

  lemma {:induction false} Bigger<T>(a: set<T>, b: set<T>)
    requires a <= b
    ensures |a| <= |b|
  {
    if a != {} {
      var x :| x in a;
      Bigger(a - {x}, b - {x});
    }
  }

  // --- Snapshots -----------------------------------------------------------------

  /** What is saved of a session; the vectors list hash maps in no particular order. */
  datatype Snapshot = Snapshot(
    version: nat,
    dirty: bool,
    key: Key,
    processes: seq<Process>,
    span: Option<ActiveTool>,
    tools: seq<ActiveTool>)

  function OpenTools(tools: map<string, ActiveTool>): set<ActiveTool> {
    set id | id in tools && tools[id].active :: tools[id]
  }

  function ActiveSpan(state: State, key: Key): Option<ActiveTool> {
    if key in state.sessionSpans && state.sessionSpans[key].active then Some(state.sessionSpans[key]) else None
  }

  /** A sequence that lists a set, each element once. */
  ghost predicate Lists<T(!new)>(s: seq<T>, elements: set<T>) {
    && (forall x :: x in s <==> x in elements)
    && (forall i, j :: 0 <= i < j < |s| ==> s[i] != s[j])
  }

  /** A snapshot that the registry may give for a session with something open. */
  ghost predicate IsSnapshot(state: State, key: Key, s: Snapshot) {
    && s.version == 4 && !s.dirty && s.key == key
    && Lists(s.processes, if key in state.sessionProcesses then state.sessionProcesses[key] else {})
    && s.span == ActiveSpan(state, key)
    && (forall t :: t in s.tools <==> t in OpenTools(ToolsOf(state, key)))
    && (s.tools != [] || s.span.Some?)
  }

  /** Each tool is filed under its own span id, as `ObserveTool` files it. */
  ghost predicate Filed(tools: map<string, ActiveTool>) {
    forall id :: id in tools ==> tools[id].components.spanId == Some(id)
  }

  lemma ObserveToolFiles(tools: map<string, ActiveTool>, route: Route, destination: Option<Destination>, op: SpanOp)
    requires Filed(tools)
    ensures Filed(ObserveTool(tools, route, destination, op))
  {}

  ghost predicate AllFiled(state: State) {
    forall key :: key in state.tools ==> Filed(state.tools[key])
  }

  lemma {:induction false} ObserveAllFiles(state: State, key: Key, route: Route, destination: Option<Destination>, ops: seq<SpanOp>)
    requires AllFiled(state)
    ensures AllFiled(ObserveAll(state, key, route, destination, ops))
  {
    if ops != [] {
      ObserveAllFiles(state, key, route, destination, ops[..|ops| - 1]);
      var before := ObserveAll(state, key, route, destination, ops[..|ops| - 1]);
      ObserveToolFiles(ToolsOf(before, key), route, destination, ops[|ops| - 1]);
    }
  }

  /** Hooks give each registered session exactly one process. */
  ghost predicate OneProcessEach(state: State) {
    forall key :: key in state.sessionProcesses ==> exists p :: state.sessionProcesses[key] == {p} && ValidProcess(p)
  }

  // --- Sessions over time ------------------------------------------------------

  /** A hook was seen; a native start asks for a new agent but keeps the known one meanwhile. */
  function Seen(state: State, key: Key, start: bool): State {
    var seen := state.(live := state.live + {key}, retired := state.retired - {key});
    if start then seen.(unconfirmed := seen.unconfirmed - {key}, generations := seen.generations + {key}) else seen
  }

  /** The agent that a hook confirms, if it is allowed to. */
  function Confirmed(seen: State, key: Key, source: string, capture: Option<seq<Process>>): Option<Process> {
    if (key in seen.sessionProcesses && key !in seen.generations) || capture.None? then None
    else if !UsesCommandHook(source) then AgentProcess(source, capture.value, None)
    else if key in seen.unconfirmed then AgentProcess(source, seen.unconfirmed[key], capture)
    else None
  }

  function Assigned(seen: State, key: Key, agent: Process): State {
    Link(Unlink(seen.(unconfirmed := seen.unconfirmed - {key}, generations := seen.generations - {key}), key), agent, key)
  }

  function Observed(state: State, key: Key, source: string, capture: Option<seq<Process>>, start: bool): State {
    var seen := Seen(state, key, start);
    var agent := Confirmed(seen, key, source, capture);
    if agent.Some? then Assigned(seen, key, agent.value)
    else if capture.Some? && UsesCommandHook(source) && !(key in seen.sessionProcesses && key !in seen.generations) then
      seen.(unconfirmed := seen.unconfirmed[key := capture.value])
    else seen
  }

  lemma AssignedKeeps(seen: State, key: Key, agent: Process)
    requires Inverse(seen)
    ensures Inverse(Assigned(seen, key, agent))
    ensures Assigned(seen, key, agent).sessionProcesses == seen.sessionProcesses[key := {agent}]
  {
    var cleared := seen.(unconfirmed := seen.unconfirmed - {key}, generations := seen.generations - {key});
    SameRelation(seen, cleared);
    UnlinkKeeps(cleared, key);
    LinkKeeps(Unlink(cleared, key), agent, key);
    assert {} + {agent} == {agent};
    assert Assigned(seen, key, agent).sessionProcesses[key] == {agent};
  }

  lemma ObservedKeeps(state: State, key: Key, source: string, capture: Option<seq<Process>>, start: bool)
    requires Inverse(state)
    ensures Inverse(Observed(state, key, source, capture, start))
  {
    var seen := Seen(state, key, start);
    SameRelation(state, seen);
    var agent := Confirmed(seen, key, source, capture);
    if agent.Some? {
      AssignedKeeps(seen, key, agent.value);
    } else {
      SameRelation(state, Observed(state, key, source, capture, start));
    }
  }

  lemma ConfirmedIsAncestor(seen: State, key: Key, source: string, capture: Option<seq<Process>>)
    requires Confirmed(seen, key, source, capture).Some?
    ensures capture.Some?
    ensures var agent := Confirmed(seen, key, source, capture).value; ValidProcess(agent) && agent in capture.value
  {
    if UsesCommandHook(source) {
      SharedAncestorIsNearest(seen.unconfirmed[key][1..], capture.value[1..]);
    }
  }

  /**
   * A hook changes no other session, and changes the process of its own only
   * to a single valid process of its capture; once a process is known, only
   * after a native start.
   */
  lemma AgentChanges(state: State, key: Key, source: string, capture: Option<seq<Process>>, start: bool)
    requires Inverse(state)
    ensures var next := Observed(state, key, source, capture, start);
            && (OneProcessEach(state) ==> OneProcessEach(next))
            && (next.sessionProcesses != state.sessionProcesses ==>
                  && (start || key !in state.sessionProcesses || key in state.generations)
                  && capture.Some?
                  && exists agent :: ValidProcess(agent) && agent in capture.value
                                     && next.sessionProcesses == state.sessionProcesses[key := {agent}])
  {
    var seen := Seen(state, key, start);
    SameRelation(state, seen);
    var agent := Confirmed(seen, key, source, capture);
    if agent.Some? {
      AssignedKeeps(seen, key, agent.value);
      ConfirmedIsAncestor(seen, key, source, capture);
    }
  }

  /** Everything about a session but its process is forgotten. */
  function Retired(state: State, key: Key): State {
    state.(live := state.live - {key}, unconfirmed := state.unconfirmed - {key}, generations := state.generations - {key},
           tools := state.tools - {key}, sessionSpans := state.sessionSpans - {key},
           retired := if key in state.sessionProcesses then state.retired + {key} else state.retired)
  }

  /**
   * Retiring forgets everything about the session but its process, which stays
   * with it and makes it one to be forgotten once the process exits; and it
   * touches no other session.
   */
  lemma RetiredIsClosed(state: State, key: Key, other: Key)
    requires Inverse(state)
    ensures var next := Retired(state, key);
            && Inverse(next)
            && next.processSessions == state.processSessions && next.sessionProcesses == state.sessionProcesses
            && (key in next.retired <==> key in state.sessionProcesses || key in state.retired)
            && key !in next.tools && key !in next.sessionSpans && key !in next.live
            && key !in next.unconfirmed && key !in next.generations
    ensures var next := Retired(state, key);
            other != key ==>
              && Lookup(next.tools, other) == Lookup(state.tools, other)
              && Lookup(next.sessionSpans, other) == Lookup(state.sessionSpans, other)
              && Lookup(next.unconfirmed, other) == Lookup(state.unconfirmed, other)
              && (other in next.live <==> other in state.live) && (other in next.retired <==> other in state.retired)
              && (other in next.generations <==> other in state.generations)
    ensures IsOpen(Retired(state, key), other) <==> other != key && IsOpen(state, other)
  {
    SameRelation(state, Retired(state, key));
    assert other != key ==> ToolsOf(Retired(state, key), other) == ToolsOf(state, other);
  }

  // --- The registry ------------------------------------------------------------

  class Registry {
    var state: State

    constructor ()
      ensures state == EMPTY && Inverse(state)
    {
      state := EMPTY;
    }

    method RemoveMapping(key: Key)
      requires Inverse(state)
      modifies this
      ensures state == Unlink(old(state), key) && Inverse(state)
    {
      UnlinkKeeps(state, key);
      if key !in state.sessionProcesses {
        return;
      }
      var gone := state.sessionProcesses[key];
      var rest := gone;
      var processes := state.processSessions;
      while rest != {}
        invariant rest <= gone
        invariant forall p :: p in processes <==>
                    p in state.processSessions && !(p in gone - rest && state.processSessions[p] - {key} == {})
        invariant forall p :: p in processes ==>
                    processes[p] == if p in gone - rest then state.processSessions[p] - {key} else state.processSessions[p]
        decreases rest
      {
        var p :| p in rest;
        if p in processes {
          var sessions := processes[p] - {key};
          processes := if sessions == {} then processes - {p} else processes[p := sessions];
        }
        rest := rest - {p};
      }
      assert gone - rest == gone;
      state := state.(processSessions := processes, sessionProcesses := state.sessionProcesses - {key});
      assert state == Unlink(old(state), key);
    }

    method ObserveSession(key: Key, source: string, capture: Option<seq<Process>>, start: bool)
      requires Inverse(state)
      modifies this
      ensures state == Observed(old(state), key, source, capture, start) && Inverse(state)
    {
      ObservedKeeps(state, key, source, capture, start);
      state := state.(live := state.live + {key}, retired := state.retired - {key});
      SameRelation(old(state), state);
      if start {
        state := state.(unconfirmed := state.unconfirmed - {key}, generations := state.generations + {key});
        SameRelation(old(state), state);
      } else if key in state.sessionProcesses && key !in state.generations {
        return;
      }
      if capture.None? {
        return;
      }
      var agent: Option<Process>;
      if UsesCommandHook(source) {
        if key !in state.unconfirmed {
          state := state.(unconfirmed := state.unconfirmed[key := capture.value]);
          return;
        }
        agent := AgentProcess(source, state.unconfirmed[key], capture);
      } else {
        agent := AgentProcess(source, capture.value, None);
      }
      if agent.None? {
        if UsesCommandHook(source) {
          state := state.(unconfirmed := state.unconfirmed[key := capture.value]);
        }
        return;
      }
      state := state.(unconfirmed := state.unconfirmed - {key}, generations := state.generations - {key});
      SameRelation(old(state), state);
      RemoveMapping(key);
      state := Link(state, agent.value, key);
    }

    method ObserveOps(key: Key, route: Route, destination: Option<Destination>, ops: seq<SpanOp>) returns (changed: bool)
      modifies this
      ensures state == ObserveAll(old(state), key, route, destination, ops)
      ensures changed <==> SomeNews(old(state), key, route, destination, ops)
      ensures !changed ==> state == old(state)
      ensures AllFiled(old(state)) ==> AllFiled(state)
      ensures state.processSessions == old(state).processSessions && state.sessionProcesses == old(state).sessionProcesses
    {
      hide IsNews, SomeNews, AllFiled, Filed, ObserveTool, ObserveSpan;
      NoNewsYet(state, key, route, destination);
      changed := false;
      if AllFiled(state) {
        ObserveAllFiles(state, key, route, destination, ops);
      }
      for i := 0 to |ops|
        invariant state == ObserveAll(old(state), key, route, destination, ops[..i])
        invariant changed <==> SomeNews(old(state), key, route, destination, ops[..i])
        invariant state.processSessions == old(state).processSessions && state.sessionProcesses == old(state).sessionProcesses
      {
        assert ops[..i + 1][..i] == ops[..i];
        NewsSoFar(old(state), key, route, destination, ops, i);
        changed := changed || IsNews(state, key, destination, ops[i]);
        state := ObserveOp(state, key, route, destination, ops[i]);
      }
      assert ops[..|ops|] == ops;
      if !changed {
        NoNewsStays(old(state), key, route, destination, ops);
      }
    }

    method RetireSession(key: Key)
      requires Inverse(state)
      modifies this
      ensures state == Retired(old(state), key) && Inverse(state)
    {
      RetiredIsClosed(state, key, key);
      state := state.(live := state.live - {key});
      state := state.(unconfirmed := state.unconfirmed - {key});
      state := state.(generations := state.generations - {key});
      state := state.(tools := state.tools - {key});
      state := state.(sessionSpans := state.sessionSpans - {key});
      if key in state.sessionProcesses {
        state := state.(retired := state.retired + {key});
      }
    }

    /** Retired sessions whose processes have all exited, as a first look at the registry finds them. */
    method ExitedSessions(alive: set<Process>) returns (exited: set<Key>)
      ensures forall key :: key in exited <==> key in state.retired && forall p :: Owned(state, p, key) ==> p !in alive
    {
      exited := set key | key in state.retired && !(exists p :: p in alive && Owned(state, p, key));
    }

    /**
     * Forget those of the sessions that are still retired; whatever happened
     * to the registry since they were listed, the others stay as they are.
     */
    method ForgetExited(exited: set<Key>)
      requires Inverse(state)
      modifies this
      ensures Inverse(state)
      ensures state.retired == old(state).retired - exited
      ensures forall key :: key in exited && key in old(state).retired ==> key !in state.sessionProcesses
      ensures forall key, p :: !(key in exited && key in old(state).retired) ==> (Owned(state, p, key) <==> Owned(old(state), p, key))
      ensures state.tools == old(state).tools && state.sessionSpans == old(state).sessionSpans && state.live == old(state).live
      ensures OneProcessEach(old(state)) ==> OneProcessEach(state)
    {
      var rest := exited;
      while rest != {}
        invariant rest <= exited && Inverse(state)
        invariant state.tools == old(state).tools && state.sessionSpans == old(state).sessionSpans && state.live == old(state).live
        invariant OneProcessEach(old(state)) ==> OneProcessEach(state)
        invariant state.retired == old(state).retired - (exited - rest)
        invariant forall key :: key in exited - rest && key in old(state).retired ==> key !in state.sessionProcesses
        invariant forall key, p :: !(key in exited - rest && key in old(state).retired) ==>
                    (Owned(state, p, key) <==> Owned(old(state), p, key))
        decreases rest
      {
        var key :| key in rest;
        rest := rest - {key};
        if key in state.retired {
          ghost var before := state;
          state := state.(retired := state.retired - {key});
          SameRelation(before, state);
          RemoveMapping(key);
        }
      }
    }

    /** Which session of a process is looked at first, and in which order, is left open. */
    method Resolve(child: Option<Key>, chain: Option<seq<Process>>, agent: Option<Process>, compatible: Route -> Option<Route>)
      returns (answer: Resolution)
      ensures MayAnswer(state, child, chain, agent, compatible, answer)
    {
      if chain.None? {
        return Standalone;
      }
      var above := Ancestors(chain.value, agent);
      if above.None? {
        return Standalone;
      }
      var i := 0;
      while i < |above.value| && !(ValidProcess(above.value[i]) && above.value[i] in state.processSessions)
        invariant 0 <= i <= |above.value|
        invariant Nearest(state, above.value) == Nearest(state, above.value[i..])
      {
        assert above.value[i..][1..] == above.value[i + 1..];
        i := i + 1;
      }
      if i == |above.value| {
        return Standalone;
      }
      answer := ResolveAt(above.value[i], child, agent.Some?, compatible);
    }

    method ResolveAt(p: Process, child: Option<Key>, confirmed: bool, compatible: Route -> Option<Route>) returns (answer: Resolution)
      requires p in state.processSessions
      ensures if OpenSessions(state, p) == {} then answer == Standalone
              else exists first :: first in OpenSessions(state, p) && answer == AnswerAt(state, p, first, child, confirmed, compatible)
    {
      var open := set key | key in state.processSessions[p] && IsOpen(state, key);
      if open == {} {
        return Standalone;
      }
      var first :| first in open;
      assert first in OpenSessions(state, p);
      if exists other :: other in open && NativeKey(other) != NativeKey(first) {
        return Standalone;
      }
      if StartsWith(first, child) {
        return Standalone;
      }
      var selected := SelectRoute(open, compatible);
      if selected.None? {
        return Standalone;
      }
      return if confirmed then Parent(selected.value) else Pending(p, selected.value);
    }

    /** The route of the only compatible session; two of them are too many. */
    method SelectRoute(open: set<Key>, compatible: Route -> Option<Route>) returns (selected: Option<Route>)
      ensures selected.Some? <==> |Compatible(state, open, compatible)| == 1
      ensures selected.Some? ==> forall key :: key in Compatible(state, open, compatible) ==> RouteOf(state, key, compatible) == selected
    {
      selected := None;
      ghost var owner: Key := "";
      var rest := open;
      while rest != {}
        invariant rest <= open
        invariant selected.None? ==> Compatible(state, open - rest, compatible) == {}
        invariant selected.Some? ==> && Compatible(state, open - rest, compatible) == {owner}
                                     && RouteOf(state, owner, compatible) == selected
        decreases rest
      {
        var key :| key in rest;
        var route := CompatibleRoute(key, compatible);
        ghost var looked := open - rest;
        rest := rest - {key};
        assert open - rest == looked + {key};
        if route.Some? {
          if selected.Some? {
            TwoAreTooMany(Compatible(state, open, compatible), owner, key);
            return None;
          }
          selected := route;
          owner := key;
          assert Compatible(state, open - rest, compatible) == {key};
        } else {
          assert Compatible(state, open - rest, compatible) == Compatible(state, looked, compatible);
        }
      }
      assert open - rest == open;
    }

    /** The parent span of a session, if its route is compatible. */
    method CompatibleRoute(key: Key, compatible: Route -> Option<Route>) returns (route: Option<Route>)
      ensures route == RouteOf(state, key, compatible)
    {
      var tools := ToolsOf(state, key);
      var ids := ActiveIds(tools);
      var tool: Option<ActiveTool> := None;
      if ids != {} {
        var id :| id in ids;
        if ids - {id} == {} {
          assert ids == {id};
          tool := Some(tools[id]);
        } else {
          var other :| other in ids - {id};
          TwoAreTooMany(ids, id, other);
        }
      }
      if tool.None? && key in state.sessionSpans && state.sessionSpans[key].active {
        tool := Some(state.sessionSpans[key]);
      }
      route := if tool.None? then None else compatible(ToLink(tool.value));
    }
  }

  lemma TwoAreTooMany<T>(s: set<T>, a: T, b: T)
    requires a in s && b in s && a != b
    ensures |s| != 1
  {
    if |s| == 1 {
      OnlyOne(s, a);
    }
  }
}
