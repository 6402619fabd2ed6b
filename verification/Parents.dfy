/**
 * Who becomes the parent of a new agent and what it is told, from the maps of
 * the registry and the operations of a session, without the registry's own
 * helper functions.
 */
module Parents {
  import opened Wrappers
  import opened Spans
  import opened Correlation

  // --- The agent of a session --------------------------------------------------------

  const COMMAND_HOOKS := {"antigravity", "claude-code", "codex", "grok"}

  ghost predicate Real(p: Process) {
    p.pid != 0 && p.start != 0
  }

  /** Two captures come from two hooks: other processes, or one identity with unrelated parents. */
  ghost predicate TwoHooks(previous: seq<Process>, latest: seq<Process>) {
    && previous != [] && latest != [] && Real(previous[0]) && Real(latest[0])
    && (previous[0] != latest[0]
        || (|previous| > 1 && |latest| > 1 && latest[1] !in previous && previous[1] !in latest))
  }

  /** The process stands above both hooks, and nothing nearer to the latest one does. */
  ghost predicate NearestShared(previous: seq<Process>, latest: seq<Process>, p: Process, i: nat) {
    && previous != [] && 1 <= i < |latest| && latest[i] == p && p in previous[1..]
    && (forall j :: 1 <= j < i ==> latest[j] !in previous[1..])
  }

  /**
   * The agent of a source with command hooks is confirmed by two hooks, as the
   * nearest process above both; that of any other source is the first process
   * of its capture.
   */
  lemma AgentExactly(source: string, previous: seq<Process>, latest: Option<seq<Process>>, p: Process)
    requires source in COMMAND_HOOKS ==> previous != []
    ensures source !in COMMAND_HOOKS ==>
              (AgentProcess(source, previous, latest) == Some(p) <==> previous != [] && previous[0] == p && Real(p))
    ensures source in COMMAND_HOOKS && latest.None? ==> AgentProcess(source, previous, latest).None?
    ensures source in COMMAND_HOOKS && latest.Some? ==>
              (AgentProcess(source, previous, latest) == Some(p)
               <==> Real(p) && TwoHooks(previous, latest.value) && exists i: nat :: NearestShared(previous, latest.value, p, i))
  {
    if source in COMMAND_HOOKS && latest.Some? && TwoHooks(previous, latest.value) {
      SharedExactly(previous, latest.value, p);
    }
  }

  lemma SharedOnce(previous: seq<Process>, latest: seq<Process>, p: Process, i: nat, q: Process, k: nat)
    requires NearestShared(previous, latest, p, i) && NearestShared(previous, latest, q, k)
    ensures i == k && p == q
  {
    var a, b := latest[i], latest[k];
  }

  lemma SharedExactly(previous: seq<Process>, latest: seq<Process>, p: Process)
    requires previous != [] && latest != []
    ensures SharedAncestor(previous[1..], latest[1..]) == Some(p) <==> exists i: nat :: NearestShared(previous, latest, p, i)
  {
    var above, below := previous[1..], latest[1..];
    forall i | 1 <= i < |latest|
      ensures below[i - 1] == latest[i]
    {}
    SharedAncestorIsNearest(above, below);
    var shared := SharedAncestor(above, below);
    if shared.Some? {
      var i :| 0 <= i < |below| && below[i] == shared.value && forall j :: 0 <= j < i ==> below[j] !in above;
      assert latest[i + 1] == below[i];
      forall j | 1 <= j < i + 1
        ensures latest[j] !in above
      {
        assert below[j - 1] == latest[j];
      }
      assert NearestShared(previous, latest, shared.value, i + 1);
      forall k: nat | NearestShared(previous, latest, p, k)
        ensures p == shared.value
      {
        SharedOnce(previous, latest, shared.value, i + 1, p, k);
      }
    } else {
      forall i: nat | 1 <= i < |latest|
        ensures latest[i] !in above
      {
        assert below[i - 1] == latest[i];
      }
    }
  }

  /** The agent that a hook establishes, if its session may get one. */
  ghost function Established(state: State, key: Key, source: string, capture: Option<seq<Process>>, start: bool): Option<Process> {
    if !(start || key in state.generations || key !in state.sessionProcesses) || capture.None? then None
    else if source !in COMMAND_HOOKS then AgentProcess(source, capture.value, None)
    else if start || key !in state.unconfirmed then None
    else AgentProcess(source, state.unconfirmed[key], capture)
  }

  /**
   * All that a hook changes. Only a native start, or a session without a known
   * agent, may establish one; a command hook otherwise waits for a second one;
   * no operation, tool or other session is touched.
   */
  lemma HookChangesExactly(state: State, key: Key, source: string, capture: Option<seq<Process>>, start: bool)
    requires Inverse(state)
    ensures var next, agent := Observed(state, key, source, capture, start), Established(state, key, source, capture, start);
            && Inverse(next)
            && next.live == state.live + {key} && next.retired == state.retired - {key}
            && next.tools == state.tools && next.sessionSpans == state.sessionSpans
            && next.sessionProcesses == (if agent.Some? then state.sessionProcesses[key := {agent.value}] else state.sessionProcesses)
            && next.generations == (if agent.Some? then state.generations - {key} else if start then state.generations + {key} else state.generations)
            && (forall other :: other != key ==> Lookup(next.unconfirmed, other) == Lookup(state.unconfirmed, other))
            && Lookup(next.unconfirmed, key)
               == (if agent.Some? then None
                   else if capture.Some? && source in COMMAND_HOOKS && (start || key in state.generations || key !in state.sessionProcesses)
                   then Some(capture.value)
                   else if start then None else Lookup(state.unconfirmed, key))
  {
    hide Inverse, AgentProcess, Assigned;
    var seen := Correlation.Seen(state, key, start);
    SameRelation(state, seen);
    ObservedKeeps(state, key, source, capture, start);
    var agent := Confirmed(seen, key, source, capture);
    if agent.Some? {
      AssignedKeeps(seen, key, agent.value);
      AssignedElse(seen, key, agent.value);
    }
  }

  lemma AssignedElse(seen: State, key: Key, agent: Process)
    ensures var next := Assigned(seen, key, agent);
            && next.live == seen.live && next.retired == seen.retired
            && next.tools == seen.tools && next.sessionSpans == seen.sessionSpans
            && next.unconfirmed == seen.unconfirmed - {key} && next.generations == seen.generations - {key}
  {}

  // --- The answer -----------------------------------------------------------------------

  /** A tool is open, or the session's own span. */
  ghost predicate HasOpen(state: State, key: Key) {
    || (key in state.tools && exists id :: id in state.tools[key] && state.tools[key][id].active)
    || (key in state.sessionSpans && state.sessionSpans[key].active)
  }

  ghost predicate OnlyTool(state: State, key: Key, id: string) {
    && key in state.tools && id in state.tools[key] && state.tools[key][id].active
    && (forall other :: other in state.tools[key] && state.tools[key][other].active ==> other == id)
  }

  /** What a child would hang below: the session's only open tool, or else its own span if that is open. */
  ghost predicate HangsBelow(state: State, key: Key, tool: ActiveTool) {
    if exists id :: OnlyTool(state, key, id) then exists id :: OnlyTool(state, key, id) && tool == state.tools[key][id]
    else key in state.sessionSpans && state.sessionSpans[key].active && tool == state.sessionSpans[key]
  }

  /** The session's route, leading to that span. */
  ghost function Below(tool: ActiveTool): Route {
    Route(tool.route.settings, Some(ParentSpan(tool.components)))
  }

  /** The key is the native session, a separator, and a route. */
  ghost predicate IsNative(key: Key, native: Key) {
    exists route :: SEPARATOR !in route && key == native + [SEPARATOR] + route
  }

  lemma SeparatorsApart(a: Key, x: Key, b: Key, y: Key)
    requires SEPARATOR !in y && |x| < |y| && |a| + |x| == |b| + |y|
    ensures (a + [SEPARATOR] + x)[|a|] != (b + [SEPARATOR] + y)[|a|]
  {
    assert (b + [SEPARATOR] + y)[|a|] == y[|a| - |b| - 1];
  }

  lemma SplitsOnce(a: Key, x: Key, b: Key, y: Key)
    requires SEPARATOR !in x && SEPARATOR !in y && a + [SEPARATOR] + x == b + [SEPARATOR] + y
    ensures a == b && x == y
  {
    assert |a + [SEPARATOR] + x| == |b + [SEPARATOR] + y|;
    if |x| < |y| {
      SeparatorsApart(a, x, b, y);
    } else if |y| < |x| {
      SeparatorsApart(b, y, a, x);
    } else {
      assert (a + [SEPARATOR] + x)[..|a|] == a && (b + [SEPARATOR] + y)[..|b|] == b;
      assert (a + [SEPARATOR] + x)[|a| + 1..] == x && (b + [SEPARATOR] + y)[|b| + 1..] == y;
    }
  }

  lemma NativeIsPrefix(key: Key, native: Key)
    requires SEPARATOR in key
    ensures NativeKey(key) == native <==> IsNative(key, native)
  {
    NativePrefix(key);
    var found := NativeKey(key);
    var rest := key[|found| + 1..];
    assert key == found + [SEPARATOR] + rest;
    forall route | SEPARATOR !in route && key == native + [SEPARATOR] + route
      ensures found == native
    {
      SplitsOnce(found, rest, native, route);
    }
  }

  lemma OpenIsOpen(state: State, key: Key)
    ensures IsOpen(state, key) <==> HasOpen(state, key)
  {
    if HasOpen(state, key) && key in state.tools && exists id :: id in state.tools[key] && state.tools[key][id].active {
      var id :| id in state.tools[key] && state.tools[key][id].active;
      assert id in ActiveIds(ToolsOf(state, key));
    }
    if ActiveIds(ToolsOf(state, key)) != {} {
      var id :| id in ActiveIds(ToolsOf(state, key));
      assert id in state.tools[key] && state.tools[key][id].active;
    }
  }

  lemma OnlyToolIsOnly(state: State, key: Key, id: string)
    ensures OnlyTool(state, key, id) <==> ActiveIds(ToolsOf(state, key)) == {id}
  {
    var ids := ActiveIds(ToolsOf(state, key));
    if ids == {id} {
      assert id in ids;
      forall other | other in state.tools[key] && state.tools[key][other].active
        ensures other == id
      {
        assert other in ids;
      }
    }
  }

  lemma ParentHangsBelow(state: State, key: Key, tool: ActiveTool)
    ensures ParentTool(state, key) == Some(tool) <==> HangsBelow(state, key, tool)
  {
    var ids := ActiveIds(ToolsOf(state, key));
    forall id
      ensures OnlyTool(state, key, id) <==> ids == {id}
    {
      OnlyToolIsOnly(state, key, id);
    }
    if |ids| == 1 {
      var id :| id in ids;
      Correlation.OnlyOne(ids, id);
      assert OnlyTool(state, key, id);
    }
  }

  /** The process is registered, and no nearer one of the chain is. */
  ghost predicate FirstRegistered(state: State, above: seq<Process>, p: Process, i: nat) {
    && i < |above| && above[i] == p && Real(p) && p in state.processSessions
    && (forall j :: 0 <= j < i ==> !(Real(above[j]) && above[j] in state.processSessions))
  }

  /**
   * All open sessions of the process are one native session, none of them has
   * the child's prefix, and exactly one of them, `key`, has a span to hang
   * below on a compatible route.
   */
  ghost predicate Named(state: State, p: Process, child: Option<Key>, compatible: Route -> Option<Route>, key: Key, tool: ActiveTool)
    requires p in state.processSessions
  {
    && key in state.processSessions[p] && HasOpen(state, key)
    && HangsBelow(state, key, tool) && compatible(Below(tool)).Some?
    && (forall other :: other in state.processSessions[p] && HasOpen(state, other) ==>
          && (exists native :: IsNative(key, native) && IsNative(other, native))
          && (child.Some? ==> !(child.value <= other))
          && (other != key ==> forall t :: HangsBelow(state, other, t) ==> compatible(Below(t)).None?))
  }

  /** The processes that may be the parent: those above the agent if it is known, and all of them otherwise. */
  ghost predicate Candidates(chain: seq<Process>, agent: Option<Process>, above: seq<Process>) {
    match agent
    case None => above == chain
    case Some(a) => Real(a) && exists i :: 0 <= i < |chain| && chain[i] == a && a !in chain[..i] && above == chain[i + 1..]
  }

  lemma {:induction false} AfterIsFirst(chain: seq<Process>, p: Process)
    ensures match After(chain, p)
            case None => p !in chain
            case Some(above) => exists i :: 0 <= i < |chain| && chain[i] == p && p !in chain[..i] && above == chain[i + 1..]
  {
    if chain != [] && chain[0] != p {
      AfterIsFirst(chain[1..], p);
      if After(chain[1..], p).Some? {
        var i :| 0 <= i < |chain[1..]| && chain[1..][i] == p && p !in chain[1..][..i] && After(chain[1..], p).value == chain[1..][i + 1..];
        assert chain[i + 1] == p && chain[i + 2..] == chain[1..][i + 1..] && chain[..i + 1] == [chain[0]] + chain[1..][..i];
      }
    } else if chain != [] {
      assert chain[0] == p && chain[1..] == After(chain, p).value && chain[..0] == [];
    }
  }

  lemma NotBefore(chain: seq<Process>, p: Process, i: nat, k: nat)
    requires i < k <= |chain| && p !in chain[..k]
    ensures chain[i] != p
  {
    assert chain[..k][i] == chain[i];
  }

  lemma FirstIsOne(chain: seq<Process>, p: Process, i: nat, k: nat)
    requires i < |chain| && chain[i] == p && p !in chain[..i]
    requires k < |chain| && chain[k] == p && p !in chain[..k]
    ensures i == k
  {
    if i < k {
      NotBefore(chain, p, i, k);
    } else if k < i {
      NotBefore(chain, p, k, i);
    }
  }

  lemma AncestorsExactly(chain: seq<Process>, agent: Option<Process>, above: seq<Process>)
    ensures Ancestors(chain, agent) == Some(above) <==> Candidates(chain, agent, above)
  {
    if agent.Some? {
      AfterIsFirst(chain, agent.value);
      if Candidates(chain, agent, above) {
        var i :| 0 <= i < |chain| && chain[i] == agent.value && agent.value !in chain[..i] && above == chain[i + 1..];
        var k :| 0 <= k < |chain| && chain[k] == agent.value && agent.value !in chain[..k] && After(chain, agent.value).value == chain[k + 1..];
        FirstIsOne(chain, agent.value, i, k);
      }
    }
  }

  lemma RegisteredOnce(state: State, above: seq<Process>, p: Process, i: nat, q: Process, k: nat)
    requires FirstRegistered(state, above, p, i) && FirstRegistered(state, above, q, k)
    ensures i == k && p == q
  {
    var a, b := above[i], above[k];
  }

  lemma NearestExactly(state: State, above: seq<Process>, p: Process)
    ensures Nearest(state, above) == Some(p) <==> exists i: nat :: FirstRegistered(state, above, p, i)
  {
    NearestIsNearest(state, above);
    var near := Nearest(state, above);
    if near.Some? {
      var i :| 0 <= i < |above| && above[i] == near.value && forall j :: 0 <= j < i ==> !(ValidProcess(above[j]) && above[j] in state.processSessions);
      assert FirstRegistered(state, above, near.value, i);
      forall k: nat | FirstRegistered(state, above, p, k)
        ensures p == near.value
      {
        RegisteredOnce(state, above, near.value, i, p, k);
      }
    }
  }

  lemma RouteIsBelow(state: State, key: Key, compatible: Route -> Option<Route>, tool: ActiveTool)
    requires HangsBelow(state, key, tool)
    ensures RouteOf(state, key, compatible) == compatible(Below(tool))
  {
    ParentHangsBelow(state, key, tool);
  }

  lemma SameNative(a: Key, b: Key)
    requires SEPARATOR in a && SEPARATOR in b
    ensures NativeKey(a) == NativeKey(b) <==> exists native :: IsNative(a, native) && IsNative(b, native)
  {
    NativeIsPrefix(a, NativeKey(a));
    NativeIsPrefix(b, NativeKey(a));
    forall native | IsNative(a, native) && IsNative(b, native)
      ensures NativeKey(a) == native == NativeKey(b)
    {
      NativeIsPrefix(a, native);
      NativeIsPrefix(b, native);
    }
  }

  /** The answer that names a parent: certain if the child's agent is known, and otherwise to be confirmed at that process. */
  ghost function Names(agent: Option<Process>, p: Process, route: Route): Resolution {
    if agent.Some? then Parent(route) else Pending(p, route)
  }

  /** Whoever is named is the first registered process among the candidates, and has exactly one session to name. */
  lemma AnswerIsNamed(state: State, child: Option<Key>, chain: Option<seq<Process>>, agent: Option<Process>,
                      compatible: Route -> Option<Route>, answer: Resolution)
    returns (above: seq<Process>, i: nat, p: Process, key: Key, tool: ActiveTool)
    requires MayAnswer(state, child, chain, agent, compatible, answer) && answer != Standalone
    requires child.Some? ==> child.value != "" && child.value[|child.value| - 1] == SEPARATOR
    requires forall p, key :: Linked(state, p, key) ==> SEPARATOR in key
    ensures chain.Some? && Candidates(chain.value, agent, above) && FirstRegistered(state, above, p, i)
    ensures Named(state, p, child, compatible, key, tool)
    ensures answer == Names(agent, p, compatible(Below(tool)).value)
  {
    hide MayAnswer, RouteOf, HasOpen, IsOpen, HangsBelow, FirstRegistered, Candidates, IsNative, NativeKey;
    p, key := ResolveIsSound(state, child, chain, agent, compatible, answer);
    above := Ancestors(chain.value, agent).value;
    AncestorsExactly(chain.value, agent, above);
    NearestExactly(state, above, p);
    i :| FirstRegistered(state, above, p, i);
    tool := LinkedTool(state, key, compatible);
    OpenIsOpen(state, key);
    forall other | other in state.processSessions[p] && HasOpen(state, other)
      ensures exists native :: IsNative(key, native) && IsNative(other, native)
      ensures child.Some? ==> !(child.value <= other)
      ensures other != key ==> forall t :: HangsBelow(state, other, t) ==> compatible(Below(t)).None?
    {
      OpenIsOpen(state, other);
      assert Linked(state, p, other);
      SameNative(key, other);
      forall t | HangsBelow(state, other, t)
        ensures RouteOf(state, other, compatible) == compatible(Below(t))
      {
        RouteIsBelow(state, other, compatible, t);
      }
    }
  }

  lemma LinkedTool(state: State, key: Key, compatible: Route -> Option<Route>) returns (tool: ActiveTool)
    requires RouteOf(state, key, compatible).Some?
    ensures HangsBelow(state, key, tool) && RouteOf(state, key, compatible) == compatible(Below(tool))
  {
    tool := ParentTool(state, key).value;
    ParentHangsBelow(state, key, tool);
  }

  /** And when there is such a session, it is named. */
  lemma NamedIsAnswer(state: State, child: Option<Key>, chain: seq<Process>, agent: Option<Process>, compatible: Route -> Option<Route>,
                      above: seq<Process>, i: nat, p: Process, key: Key, tool: ActiveTool, answer: Resolution)
    requires Candidates(chain, agent, above) && FirstRegistered(state, above, p, i)
    requires Named(state, p, child, compatible, key, tool)
    requires forall p, key :: Linked(state, p, key) ==> SEPARATOR in key
    requires MayAnswer(state, child, Some(chain), agent, compatible, answer)
    ensures answer == Names(agent, p, compatible(Below(tool)).value)
  {
    hide RouteOf, HasOpen, IsOpen, HangsBelow, FirstRegistered, Candidates, IsNative, NativeKey, Nearest, Ancestors;
    AncestorsExactly(chain, agent, above);
    NearestExactly(state, above, p);
    var open := OpenSessions(state, p);
    OpenIsOpen(state, key);
    assert key in open && Linked(state, p, key);
    RouteIsBelow(state, key, compatible, tool);
    forall other | other in open
      ensures NativeKey(other) == NativeKey(key) && !StartsWith(other, child)
      ensures RouteOf(state, other, compatible).Some? ==> other == key
    {
      OpenIsOpen(state, other);
      assert Linked(state, p, other);
      SameNative(key, other);
      if RouteOf(state, other, compatible).Some? {
        var t := LinkedTool(state, other, compatible);
      }
    }
    assert Correlation.Compatible(state, open, compatible) == {key};
  }

  // --- From a session's operations to the answer --------------------------------------

  /** What a span's children are told: its own id, and the trace and object that it is in. */
  ghost predicate Describes(c: Components, destination: Option<Destination>, row: SpanRow) {
    && c.spanId == c.rowId == Some(row.spanId)
    && c.parents == (if row.parents == [] then None else Some(row.parents))
    && match destination
       case Some(ParentSpan(outer)) =>
         && c.rootSpanId == (if outer.rootSpanId.Some? then outer.rootSpanId else Some(row.rootSpanId))
         && c.objectType == outer.objectType && c.objectId == outer.objectId
         && c.arguments == outer.arguments && c.propagated == outer.propagated
       case Some(Experiment(id)) =>
         c.rootSpanId == Some(row.rootSpanId) && c.objectType == "experiment" && c.objectId == Some(id) && c.arguments == None && c.propagated == None
       case Some(ProjectLogs(id, name)) =>
         && c.rootSpanId == Some(row.rootSpanId) && c.objectType == "project_logs" && c.objectId == id && c.propagated == None
         && (if id == None && name == None then c.arguments == None
             else c.arguments.Some? && Lookup(c.arguments.value, "project_id") == id && Lookup(c.arguments.value, "project_name") == name
                  && c.arguments.value.Keys <= {"project_id", "project_name"})
       case None =>
         c.rootSpanId == Some(row.rootSpanId) && c.objectType == "project_logs" && c.objectId == None && c.arguments == None && c.propagated == None
  }

  lemma ComponentsDescribe(destination: Option<Destination>, row: SpanRow)
    ensures Describes(SpanComponents(destination, row), destination, row)
  {
    match destination
    case Some(ProjectLogs(id, name)) =>
      var arguments := (if id.Some? then map["project_id" := id.value] else map[]) + (if name.Some? then map["project_name" := name.value] else map[]);
      assert id.Some? ==> "project_id" in arguments;
      assert name.Some? ==> "project_name" in arguments;
    case _ =>
  }

  /**
   * A child of a session is attached below the one tool that the session's
   * operations left open, and otherwise below the session's own span: the
   * answer leads there by its settings, span, root and object.
   */
  lemma AnswerOfHistory(before: State, key: Key, route: Route, destination: Option<Destination>, ops: seq<SpanOp>,
                        p: Process, child: Option<Key>, compatible: Route -> Option<Route>, tool: ActiveTool)
    requires key !in before.tools && key !in before.sessionSpans
    requires forall r :: compatible(r).Some? ==> compatible(r).value == r
    requires var state := ObserveAll(before, key, route, destination, ops);
             p in state.processSessions && Named(state, p, child, compatible, key, tool)
    ensures var answer := compatible(Below(tool)).value;
            && answer.settings == route.settings && answer.destination.Some? && answer.destination.value.ParentSpan?
            && var c := answer.destination.value.components;
               if exists i: nat :: OnlyOpenTool(ops, i) then
                 exists i: nat :: OnlyOpenTool(ops, i) && Describes(c, destination, ops[i].row)
               else
                 FirstOwned(destination, ops).Some? && Describes(c, destination, ops[FirstOwned(destination, ops).value].row)
  {
    hide ObserveAll, HangsBelow, HasOpen, SpanComponents, OnlyOpenTool, FirstOwned, OpenAfter, Describes;
    var state := ObserveAll(before, key, route, destination, ops);
    ParentHangsBelow(state, key, tool);
    ParentOfHistory(before, key, route, destination, ops);
    if exists i: nat :: OnlyOpenTool(ops, i) {
      var i: nat :| OnlyOpenTool(ops, i);
      OnlyOpenIsThere(ops, i);
      ComponentsDescribe(destination, ops[i].row);
    } else {
      ComponentsDescribe(destination, ops[FirstOwned(destination, ops).value].row);
    }
  }

  lemma OnlyOpenIsThere(ops: seq<SpanOp>, i: nat)
    requires OnlyOpenTool(ops, i)
    ensures i < |ops|
  {}

  lemma FirstTool(route: Route, destination: Option<Destination>, op: SpanOp)
    ensures ObserveTool(map[], route, destination, op) != map[]
            <==> op.Insert? && op.row.spanType.Tool? && op.row.endMs.None? && op.row.spanId != ""
  {
    var none: map<string, ActiveTool> := map[];
    assert none - {op.row.spanId} == none;
    if op.Insert? && op.row.spanType.Tool? && op.row.endMs.None? && op.row.spanId != "" {
      assert op.row.spanId in ObserveTool(map[], route, destination, op);
    }
  }

  /** A session gets a table of tools with its first open tool, and keeps it. */
  lemma {:induction false} TableExactly(state: State, key: Key, route: Route, destination: Option<Destination>, ops: seq<SpanOp>)
    ensures key in ObserveAll(state, key, route, destination, ops).tools <==>
              key in state.tools
              || exists op :: op in ops && op.Insert? && op.row.spanType.Tool? && op.row.endMs.None? && op.row.spanId != ""
  {
    if ops != [] {
      var rest, last := ops[..|ops| - 1], ops[|ops| - 1];
      TableExactly(state, key, route, destination, rest);
      FirstTool(route, destination, last);
      assert ops == rest + [last];
    }
  }

  /** The operations of one session change nothing that is known of another one. */
  lemma {:induction false} OthersStay(state: State, key: Key, route: Route, destination: Option<Destination>, ops: seq<SpanOp>, other: Key)
    requires other != key
    ensures var next := ObserveAll(state, key, route, destination, ops);
            && Lookup(next.tools, other) == Lookup(state.tools, other) && Lookup(next.sessionSpans, other) == Lookup(state.sessionSpans, other)
            && next == state.(tools := next.tools, sessionSpans := next.sessionSpans)
  {
    if ops != [] {
      OthersStay(state, key, route, destination, ops[..|ops| - 1], other);
    }
  }
}
