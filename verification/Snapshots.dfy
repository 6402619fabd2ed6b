/** Restoring the parents of open sessions after a restart. */
module Snapshots {
  import opened Wrappers
  import opened Spans
  import opened Correlation

  /** A set in the order of an unspecified iteration. */
  method Enumerate<T(==,!new)>(elements: set<T>) returns (list: seq<T>)
    ensures Lists(list, elements)
  {
    list := [];
    var rest := elements;
    while rest != {}
      invariant rest <= elements && Lists(list, elements - rest)
      decreases rest
    {
      var x :| x in rest;
      list := list + [x];
      rest := rest - {x};
    }
  }

  method ActiveParentSnapshot(registry: Registry, key: Key) returns (s: Option<Snapshot>)
    ensures s.Some? <==> IsOpen(registry.state, key)
    ensures s.Some? ==> IsSnapshot(registry.state, key, s.value)
  {
    var state := registry.state;
    var tools := ToolsOf(state, key);
    var ids := Enumerate(ActiveIds(tools));
    var open: seq<ActiveTool> := [];
    for i := 0 to |ids|
      invariant |open| == i && forall j :: 0 <= j < i ==> ids[j] in tools && open[j] == tools[ids[j]]
    {
      assert ids[i] in ActiveIds(tools);
      open := open + [tools[ids[i]]];
    }
    OpenToolsListed(tools, ids, open);
    var span := ActiveSpan(state, key);
    if open == [] && span.None? {
      return None;
    }
    var processes := Enumerate(if key in state.sessionProcesses then state.sessionProcesses[key] else {});
    return Some(Snapshot(4, false, key, processes, span, open));
  }

  lemma OpenToolsListed(tools: map<string, ActiveTool>, ids: seq<string>, open: seq<ActiveTool>)
    requires Lists(ids, ActiveIds(tools)) && |open| == |ids|
    requires forall j :: 0 <= j < |ids| ==> ids[j] in tools && open[j] == tools[ids[j]]
    ensures forall t :: t in open <==> t in OpenTools(tools)
    ensures open == [] <==> ActiveIds(tools) == {}
  {
    forall t | t in OpenTools(tools)
      ensures t in open
    {
      var id :| id in tools && tools[id].active && tools[id] == t;
      assert id in ids;
    }
    forall t | t in open
      ensures t in OpenTools(tools)
    {
      var j :| 0 <= j < |open| && open[j] == t;
      assert ids[j] in ids;
    }
    if open != [] {
      assert ids[0] in ids;
    }
  }

  /** Put saved tools back under their span ids; a tool without one is skipped. */
  function Refile(tools: map<string, ActiveTool>, saved: seq<ActiveTool>): map<string, ActiveTool> {
    if saved == [] then tools
    else
      var before, last := Refile(tools, saved[..|saved| - 1]), saved[|saved| - 1];
      if last.components.spanId.Some? then before[last.components.spanId.value := last.(active := true)] else before
  }

  predicate HasSpanId(saved: seq<ActiveTool>) {
    exists i :: 0 <= i < |saved| && saved[i].components.spanId.Some?
  }

  predicate Restorable(s: Snapshot) {
    s.version == 4 && !s.dirty && |s.processes| == 1 && (HasSpanId(s.tools) || s.span.Some?)
  }

  function Restore(state: State, s: Snapshot): State {
    if !Restorable(s) then state
    else
      var linked := if ValidProcess(s.processes[0]) then Link(state, s.processes[0], s.key) else state;
      if s.key !in linked.sessionProcesses then linked
      else
        linked.(tools := linked.tools[s.key := Refile(ToolsOf(linked, s.key), s.tools)],
                sessionSpans := if s.span.Some? then linked.sessionSpans[s.key := s.span.value.(active := true)]
                                else linked.sessionSpans)
  }

  lemma {:induction false} RefileFills(tools: map<string, ActiveTool>, saved: seq<ActiveTool>)
    requires HasSpanId(saved)
    ensures Refile(tools, saved) != map[]
  {
    var last := |saved| - 1;
    if saved[last].components.spanId.Some? {
      assert saved[last].components.spanId.value in Refile(tools, saved);
    } else {
      var i :| 0 <= i < |saved| && saved[i].components.spanId.Some?;
      assert saved[..last][i].components.spanId.Some?;
      RefileFills(tools, saved[..last]);
    }
  }

  method RestoreActiveParent(registry: Registry, s: Snapshot) returns (restored: bool)
    requires Inverse(registry.state)
    modifies registry
    ensures registry.state == Restore(old(registry.state), s) && Inverse(registry.state)
    ensures restored <==> Restorable(s) && s.key in registry.state.sessionProcesses
  {
    var some := false;
    for i := 0 to |s.tools|
      invariant some <==> HasSpanId(s.tools[..i])
    {
      if s.tools[i].components.spanId.Some? {
        assert s.tools[..i + 1][i].components.spanId.Some?;
        some := true;
      }
      assert forall j :: 0 <= j < i ==> s.tools[..i + 1][j] == s.tools[..i][j];
    }
    assert s.tools[..|s.tools|] == s.tools;
    if s.version != 4 || s.dirty || |s.processes| != 1 || (!some && s.span.None?) {
      return false;
    }
    if ValidProcess(s.processes[0]) {
      LinkKeeps(registry.state, s.processes[0], s.key);
      registry.state := Link(registry.state, s.processes[0], s.key);
    }
    if s.key !in registry.state.sessionProcesses {
      return false;
    }
    ghost var linked := registry.state;
    var tools := ToolsOf(registry.state, s.key);
    for i := 0 to |s.tools|
      invariant tools == Refile(ToolsOf(linked, s.key), s.tools[..i])
      invariant registry.state == linked
    {
      assert s.tools[..i + 1][..i] == s.tools[..i];
      var id := s.tools[i].components.spanId;
      if id.Some? {
        tools := tools[id.value := s.tools[i].(active := true)];
      }
    }
    registry.state := registry.state.(tools := registry.state.tools[s.key := tools]);
    if s.span.Some? {
      registry.state := registry.state.(sessionSpans := registry.state.sessionSpans[s.key := s.span.value.(active := true)]);
    }
    SameRelation(linked, registry.state);
    if some {
      RefileFills(ToolsOf(linked, s.key), s.tools);
    }
    return s.key in registry.state.sessionSpans || tools != map[];
  }

  /** What every registry that only hooks and operations filled satisfies. */
  ghost predicate Regular(state: State) {
    Inverse(state) && AllFiled(state) && OneProcessEach(state)
  }

  /** The same open tools and the same active session span. */
  ghost predicate SameOpen(a: State, b: State, key: Key) {
    && ActiveIds(ToolsOf(a, key)) == ActiveIds(ToolsOf(b, key))
    && (forall id :: id in ActiveIds(ToolsOf(a, key)) ==> ToolsOf(a, key)[id] == ToolsOf(b, key)[id])
    && ActiveSpan(a, key) == ActiveSpan(b, key)
  }

  /** `next` knows exactly the given sessions of `state`, as they were. */
  ghost predicate Rebuilt(state: State, keys: set<Key>, next: State) {
    && (forall p, key :: Linked(next, p, key) <==> key in keys && Linked(state, p, key))
    && Inverse(next)
    && (forall key :: key in keys ==> SameOpen(state, next, key))
    && (forall key :: key !in keys ==> key !in next.tools && key !in next.sessionSpans)
  }

  /** Refiling saved tools gives each of them back under its own id, and no other. */
  lemma {:induction false} RefileRestores(tools: map<string, ActiveTool>, saved: seq<ActiveTool>)
    requires Filed(tools)
    requires forall t :: t in saved ==> t in OpenTools(tools)
    ensures forall id :: id in Refile(map[], saved) <==> id in tools && tools[id] in saved
    ensures forall id :: id in Refile(map[], saved) ==> Refile(map[], saved)[id] == tools[id]
  {
    if saved != [] {
      var last := saved[|saved| - 1];
      RefileRestores(tools, saved[..|saved| - 1]);
      assert last in OpenTools(tools);
      var id :| id in tools && tools[id].active && tools[id] == last;
      assert last.components.spanId == Some(id) && last.(active := true) == last;
    }
  }

  lemma SnapshotRefiles(state: State, key: Key, s: Snapshot)
    requires Regular(state) && IsSnapshot(state, key, s)
    ensures forall id :: id in Refile(map[], s.tools) <==> id in ActiveIds(ToolsOf(state, key))
    ensures forall id :: id in Refile(map[], s.tools) ==> Refile(map[], s.tools)[id] == ToolsOf(state, key)[id]
    ensures s.tools != [] ==> HasSpanId(s.tools)
  {
    var tools := ToolsOf(state, key);
    RefileRestores(tools, s.tools);
    forall id
      ensures id in Refile(map[], s.tools) <==> id in ActiveIds(tools)
    {
      if id in tools && tools[id] in s.tools {
        assert tools[id] in OpenTools(tools);
      }
      if id in ActiveIds(tools) {
        assert tools[id] in OpenTools(tools);
      }
    }
    if s.tools != [] {
      assert s.tools[0] in OpenTools(tools);
      var id :| id in tools && tools[id].active && tools[id] == s.tools[0];
      assert s.tools[0].components.spanId == Some(id);
    }
  }

  lemma SnapshotProcess(state: State, key: Key, s: Snapshot)
    requires Regular(state) && IsSnapshot(state, key, s) && IsOpen(state, key) && key in state.sessionProcesses
    ensures |s.processes| == 1 && ValidProcess(s.processes[0]) && state.sessionProcesses[key] == {s.processes[0]}
  {
    assert |s.processes| > 1 ==> s.processes[0] != s.processes[1];
    var p :| state.sessionProcesses[key] == {p} && ValidProcess(p);
    assert p in s.processes;
    forall i | 0 <= i < |s.processes|
      ensures s.processes[i] == p
    {
      assert s.processes[i] in s.processes;
    }
  }

  lemma LinkOne(state: State, keys: set<Key>, next: State, p: Process, key: Key)
    requires Inverse(state) && Inverse(next)
    requires forall q, k :: Linked(next, q, k) <==> k in keys && Linked(state, q, k)
    requires key !in keys && key in state.sessionProcesses && state.sessionProcesses[key] == {p}
    ensures Inverse(Link(next, p, key))
    ensures forall q, k :: Linked(Link(next, p, key), q, k) <==> k in keys + {key} && Linked(state, q, k)
  {
    LinkKeeps(next, p, key);
    var linked := Link(next, p, key);
    forall q, k
      ensures Linked(linked, q, k) <==> k in keys + {key} && Linked(state, q, k)
    {
      assert Linked(next, q, k) <==> k in keys && Linked(state, q, k);
      assert Linked(state, q, k) <==> Owned(state, q, k);
    }
  }

  lemma RestoredRelation(state: State, keys: set<Key>, linked: State, done: State)
    requires Inverse(linked) && forall q, k :: Linked(linked, q, k) <==> k in keys && Linked(state, q, k)
    requires done.processSessions == linked.processSessions && done.sessionProcesses == linked.sessionProcesses
    ensures Inverse(done) && forall q, k :: Linked(done, q, k) <==> k in keys && Linked(state, q, k)
  {
    SameRelation(linked, done);
    forall q, k
      ensures Linked(done, q, k) <==> k in keys && Linked(state, q, k)
    {
      assert Linked(done, q, k) <==> Linked(linked, q, k);
    }
  }

  lemma SpansKept(state: State, keys: set<Key>, next: State, done: State, key: Key, tools: map<string, ActiveTool>, span: Option<ActiveTool>)
    requires forall k :: k in keys ==> SameOpen(state, next, k)
    requires key !in keys && key !in next.sessionSpans
    requires done.tools == next.tools[key := tools]
    requires done.sessionSpans == if span.Some? then next.sessionSpans[key := span.value] else next.sessionSpans
    requires forall id :: id in tools <==> id in ActiveIds(ToolsOf(state, key))
    requires forall id :: id in tools ==> tools[id] == ToolsOf(state, key)[id]
    requires span == ActiveSpan(state, key)
    ensures forall k :: k in keys + {key} ==> SameOpen(state, done, k)
  {
    forall k | k in keys
      ensures SameOpen(state, done, k)
    {
      assert SameOpen(state, next, k);
      assert ToolsOf(done, k) == ToolsOf(next, k);
    }
    assert ToolsOf(done, key) == tools;
    assert ActiveIds(tools) == ActiveIds(ToolsOf(state, key));
  }

  lemma RestoredState(next: State, s: Snapshot)
    requires Restorable(s) && ValidProcess(s.processes[0]) && s.key !in next.tools
    ensures var linked, done := Link(next, s.processes[0], s.key), Restore(next, s);
            && done.processSessions == linked.processSessions && done.sessionProcesses == linked.sessionProcesses
            && done.tools == next.tools[s.key := Refile(map[], s.tools)]
            && done.sessionSpans == (if s.span.Some? then next.sessionSpans[s.key := s.span.value.(active := true)] else next.sessionSpans)
  {}

  /** Restoring one more open session adds that session and nothing else. */
  lemma RestoreOne(state: State, keys: set<Key>, next: State, key: Key, s: Snapshot)
    requires Regular(state) && Rebuilt(state, keys, next) && IsSnapshot(state, key, s)
    requires key !in keys && IsOpen(state, key) && key in state.sessionProcesses
    ensures Rebuilt(state, keys + {key}, Restore(next, s))
  {
    SnapshotProcess(state, key, s);
    SnapshotRefiles(state, key, s);
    RestoredState(next, s);
    LinkOne(state, keys, next, s.processes[0], key);
    RestoredRelation(state, keys + {key}, Link(next, s.processes[0], key), Restore(next, s));
    SpansKept(state, keys, next, Restore(next, s), key, Refile(map[], s.tools), s.span);
  }

  function RestoreAll(saved: seq<Snapshot>): State {
    if saved == [] then EMPTY else Restore(RestoreAll(saved[..|saved| - 1]), saved[|saved| - 1])
  }

  function Keys(saved: seq<Snapshot>): set<Key> {
    if saved == [] then {} else Keys(saved[..|saved| - 1]) + {saved[|saved| - 1].key}
  }

  /** Snapshots of distinct open sessions of a registry. */
  ghost predicate SavedFrom(state: State, saved: seq<Snapshot>) {
    forall i :: 0 <= i < |saved| ==>
      && IsSnapshot(state, saved[i].key, saved[i]) && IsOpen(state, saved[i].key)
      && saved[i].key in state.sessionProcesses && saved[i].key !in Keys(saved[..i])
  }

  lemma {:induction false} RestoreAllRebuilds(state: State, saved: seq<Snapshot>)
    requires Regular(state) && SavedFrom(state, saved)
    ensures Rebuilt(state, Keys(saved), RestoreAll(saved))
  {
    if saved != [] {
      var rest, last := saved[..|saved| - 1], saved[|saved| - 1];
      forall i | 0 <= i < |rest|
        ensures rest[..i] == saved[..i]
      {}
      assert SavedFrom(state, rest);
      RestoreAllRebuilds(state, rest);
      RestoreOne(state, Keys(rest), RestoreAll(rest), last.key, last);
    }
  }

  // --- Answers after a restart -----------------------------------------------------

  lemma SameParent(a: State, b: State, key: Key)
    requires SameOpen(a, b, key)
    ensures ParentTool(a, key) == ParentTool(b, key) && (IsOpen(a, key) <==> IsOpen(b, key))
  {
    assert ActiveSpan(a, key).Some? <==> ActiveSpan(b, key).Some?;
  }

  lemma SameOpenSessions(state: State, next: State, p: Process, keys: set<Key>)
    requires Inverse(state) && Rebuilt(state, keys, next)
    requires forall key :: key in state.sessionProcesses && IsOpen(state, key) ==> key in keys
    requires forall key :: key in keys ==> IsOpen(state, key)
    requires p in state.processSessions && OpenSessions(state, p) != {}
    ensures p in next.processSessions && OpenSessions(next, p) == OpenSessions(state, p)
  {
    forall key
      ensures Linked(next, p, key) && IsOpen(next, key) <==> Linked(state, p, key) && IsOpen(state, key)
    {
      assert Linked(next, p, key) <==> key in keys && Linked(state, p, key);
      assert Linked(state, p, key) <==> Owned(state, p, key);
      if key in keys {
        SameParent(state, next, key);
      }
    }
    var first :| first in OpenSessions(state, p);
    assert Linked(next, p, first);
    forall key
      ensures key in OpenSessions(next, p) <==> key in OpenSessions(state, p)
    {
      assert Linked(next, p, key) && IsOpen(next, key) <==> Linked(state, p, key) && IsOpen(state, key);
    }
  }

  lemma SameAnswerAt(state: State, keys: set<Key>, next: State, p: Process, first: Key, child: Option<Key>, confirmed: bool,
                     compatible: Route -> Option<Route>)
    requires Inverse(state) && Rebuilt(state, keys, next)
    requires p in state.processSessions && p in next.processSessions
    requires OpenSessions(next, p) == OpenSessions(state, p) && first in OpenSessions(state, p)
    requires forall key :: key in OpenSessions(state, p) ==> key in keys
    ensures AnswerAt(next, p, first, child, confirmed, compatible) == AnswerAt(state, p, first, child, confirmed, compatible)
  {
    var open := OpenSessions(state, p);
    forall key | key in open
      ensures RouteOf(state, key, compatible) == RouteOf(next, key, compatible)
    {
      SameParent(state, next, key);
    }
    assert Compatible(state, open, compatible) == Compatible(next, open, compatible);
  }

  /** What is above the first process that has an open session, itself included. */
  ghost function SkipClosed(state: State, chain: seq<Process>): seq<Process> {
    if chain == [] then []
    else if ValidProcess(chain[0]) && chain[0] in state.processSessions && OpenSessions(state, chain[0]) != {} then chain
    else SkipClosed(state, chain[1..])
  }

  /** Only processes that have an open session are known after a restart. */
  ghost predicate OpenOnly(state: State, next: State) {
    forall p :: p in next.processSessions <==> p in state.processSessions && OpenSessions(state, p) != {}
  }

  /** Every session of a registry that has something open, and no other. */
  ghost predicate SavesAll(state: State, saved: seq<Snapshot>) {
    && SavedFrom(state, saved)
    && (forall key :: key in state.sessionProcesses && IsOpen(state, key) ==> key in Keys(saved))
  }

  lemma {:induction false} KeysAreOpen(state: State, saved: seq<Snapshot>)
    requires SavedFrom(state, saved)
    ensures forall key :: key in Keys(saved) ==> IsOpen(state, key)
  {
    if saved != [] {
      forall i | 0 <= i < |saved| - 1
        ensures saved[..|saved| - 1][..i] == saved[..i]
      {}
      KeysAreOpen(state, saved[..|saved| - 1]);
    }
  }

  lemma RebuiltIsOpenOnly(state: State, keys: set<Key>, next: State)
    requires Inverse(state) && Rebuilt(state, keys, next)
    requires forall key :: key in state.sessionProcesses && IsOpen(state, key) ==> key in keys
    requires forall key :: key in keys ==> IsOpen(state, key)
    ensures OpenOnly(state, next)
  {
    forall p
      ensures p in next.processSessions <==> p in state.processSessions && OpenSessions(state, p) != {}
    {
      if p in next.processSessions {
        var key :| key in next.processSessions[p];
        assert Linked(next, p, key) && Linked(state, p, key);
        assert key in OpenSessions(state, p);
      }
      if p in state.processSessions && OpenSessions(state, p) != {} {
        SameOpenSessions(state, next, p, keys);
      }
    }
  }

  lemma {:induction false} NearestSkips(state: State, next: State, chain: seq<Process>)
    requires OpenOnly(state, next)
    ensures Nearest(next, chain) == Nearest(state, SkipClosed(state, chain))
    ensures Nearest(next, chain).Some? ==> OpenSessions(state, Nearest(next, chain).value) != {}
  {
    if chain != [] {
      NearestSkips(state, next, chain[1..]);
    }
  }

  /**
   * A registry rebuilt from the snapshots of all open sessions answers every
   * question as the one that was saved would if the processes with only
   * closed sessions were not in the ancestry.
   */
  lemma RestoredAnswers(state: State, saved: seq<Snapshot>, child: Option<Key>, above: seq<Process>, confirmed: bool,
                        compatible: Route -> Option<Route>, answer: Resolution)
    requires Regular(state) && SavesAll(state, saved)
    ensures AnswersAbove(RestoreAll(saved), child, above, confirmed, compatible, answer)
            <==> AnswersAbove(state, child, SkipClosed(state, above), confirmed, compatible, answer)
  {
    var next, keys := RestoreAll(saved), Keys(saved);
    RestoreAllRebuilds(state, saved);
    KeysAreOpen(state, saved);
    RebuiltIsOpenOnly(state, keys, next);
    NearestSkips(state, next, above);
    var near := Nearest(next, above);
    if near.Some? {
      var p := near.value;
      SameOpenSessions(state, next, p, keys);
      forall key | key in OpenSessions(state, p)
        ensures key in keys
      {
        assert Linked(state, p, key);
        assert Owned(state, p, key);
      }
      forall first | first in OpenSessions(state, p)
        ensures AnswerAt(next, p, first, child, confirmed, compatible) == AnswerAt(state, p, first, child, confirmed, compatible)
      {
        SameAnswerAt(state, keys, next, p, first, child, confirmed, compatible);
      }
    }
  }

  lemma {:induction false} SkipsNothing(state: State, chain: seq<Process>)
    requires Nearest(state, chain).Some? ==> OpenSessions(state, Nearest(state, chain).value) != {}
    ensures Nearest(state, SkipClosed(state, chain)) == Nearest(state, chain)
  {
    if chain != [] && !(ValidProcess(chain[0]) && chain[0] in state.processSessions) {
      SkipsNothing(state, chain[1..]);
    }
  }

  /** The answers are the same unless the nearest registered process has only closed sessions. */
  lemma RestartKeepsAnswers(state: State, saved: seq<Snapshot>, child: Option<Key>, chain: Option<seq<Process>>, agent: Option<Process>,
                            compatible: Route -> Option<Route>, answer: Resolution)
    requires Regular(state) && SavesAll(state, saved)
    requires chain.Some? && Ancestors(chain.value, agent).Some? ==>
               var near := Nearest(state, Ancestors(chain.value, agent).value);
               near.Some? ==> OpenSessions(state, near.value) != {}
    ensures MayAnswer(RestoreAll(saved), child, chain, agent, compatible, answer) <==> MayAnswer(state, child, chain, agent, compatible, answer)
  {
    if chain.Some? && Ancestors(chain.value, agent).Some? {
      var above := Ancestors(chain.value, agent).value;
      RestoredAnswers(state, saved, child, above, agent.Some?, compatible, answer);
      SkipsNothing(state, above);
    }
  }

  /** The branches of `AnswerAt` that name no parent. */
  ghost predicate NamesNobody(state: State, p: Process, child: Option<Key>, compatible: Route -> Option<Route>)
    requires p in state.processSessions
  {
    || !OneNative(OpenSessions(state, p))
    || (forall first :: first in OpenSessions(state, p) ==> StartsWith(first, child))
    || |Compatible(state, OpenSessions(state, p), compatible)| != 1
  }

  ghost predicate OnlyStandalone(state: State, child: Option<Key>, above: seq<Process>, confirmed: bool, compatible: Route -> Option<Route>) {
    forall answer :: AnswersAbove(state, child, above, confirmed, compatible, answer) ==> answer == Standalone
  }

  lemma NamesNobodyExactly(state: State, child: Option<Key>, above: seq<Process>, confirmed: bool, compatible: Route -> Option<Route>)
    requires Nearest(state, above).Some? && OpenSessions(state, Nearest(state, above).value) != {}
    ensures OnlyStandalone(state, child, above, confirmed, compatible)
            <==> NamesNobody(state, Nearest(state, above).value, child, compatible)
  {
    var p := Nearest(state, above).value;
    if !NamesNobody(state, p, child, compatible) {
      var first :| first in OpenSessions(state, p) && !StartsWith(first, child);
      ChildIsSilent(state, p, first, first, child, confirmed, compatible);
      assert AnswersAbove(state, child, above, confirmed, compatible, AnswerAt(state, p, first, child, confirmed, compatible));
    }
  }

  /**
   * Below a process with only closed sessions the saved registry names nobody.
   * The rebuilt one does the same exactly when the next process up with an
   * open session, if there is one, names nobody.
   */
  lemma ClosedBoundary(state: State, saved: seq<Snapshot>, child: Option<Key>, above: seq<Process>, confirmed: bool,
                       compatible: Route -> Option<Route>)
    requires Regular(state) && SavesAll(state, saved)
    requires Nearest(state, above).Some? && OpenSessions(state, Nearest(state, above).value) == {}
    ensures OnlyStandalone(state, child, above, confirmed, compatible)
    ensures OnlyStandalone(RestoreAll(saved), child, above, confirmed, compatible)
            <==> var next := Nearest(state, SkipClosed(state, above));
                 next.None? || NamesNobody(state, next.value, child, compatible)
  {
    forall answer
      ensures AnswersAbove(RestoreAll(saved), child, above, confirmed, compatible, answer)
              <==> AnswersAbove(state, child, SkipClosed(state, above), confirmed, compatible, answer)
    {
      RestoredAnswers(state, saved, child, above, confirmed, compatible, answer);
    }
    SkipFindsOpen(state, above);
    if Nearest(state, SkipClosed(state, above)).Some? {
      NamesNobodyExactly(state, child, SkipClosed(state, above), confirmed, compatible);
    }
  }

  lemma {:induction false} SkipFindsOpen(state: State, chain: seq<Process>)
    ensures var next := Nearest(state, SkipClosed(state, chain));
            next.Some? ==> OpenSessions(state, next.value) != {}
  {
    if chain != [] {
      SkipFindsOpen(state, chain[1..]);
    }
  }

  const CLOSED := Process(1, 1)
  const PARENT := Process(2, 2)
  const OPEN := "codex" + [SEPARATOR] + "open" + [SEPARATOR] + "r"
  const OLD := "codex" + [SEPARATOR] + "old" + [SEPARATOR] + "r"
  const SPAN := ActiveTool(Components("project_logs", None, None, None, Some("t"), None, None, None), Route("", None), true)

  /** A retired session just above the child, and an open one further up. */
  const RETIRED_BELOW_OPEN := EMPTY.(processSessions := map[CLOSED := {OLD}, PARENT := {OPEN}],
                                     sessionProcesses := map[OLD := {CLOSED}, OPEN := {PARENT}],
                                     retired := {OLD}, sessionSpans := map[OPEN := SPAN])

  /** A restart can change an answer: the retired session is no longer a boundary. */
  lemma RestartMovesBoundary(compatible: Route -> Option<Route>)
    requires compatible(ToLink(SPAN)).Some?
    ensures var state, saved, above := RETIRED_BELOW_OPEN, [Snapshot(4, false, OPEN, [PARENT], Some(SPAN), [])], [CLOSED, PARENT];
            && Regular(state) && SavesAll(state, saved)
            && OnlyStandalone(state, None, above, true, compatible)
            && !OnlyStandalone(RestoreAll(saved), None, above, true, compatible)
  {
    var state, last := RETIRED_BELOW_OPEN, Snapshot(4, false, OPEN, [PARENT], Some(SPAN), []);
    var above := [CLOSED, PARENT];
    MovesBoundaryRegular();
    assert |OLD| < |OPEN|;
    assert Keys([last][..0]) == {} && Keys([last]) == {OPEN};
    assert IsSnapshot(state, OPEN, last);
    assert OpenSessions(state, CLOSED) == {};
    assert OpenSessions(state, PARENT) == {OPEN};
    assert above[1..] == [PARENT] && SkipClosed(state, above) == [PARENT];
    assert RouteOf(state, OPEN, compatible).Some?;
    assert Compatible(state, {OPEN}, compatible) == {OPEN};
    ClosedBoundary(state, [last], None, above, true, compatible);
  }

  lemma MovesBoundaryRegular()
    ensures Regular(RETIRED_BELOW_OPEN)
  {
    var state := RETIRED_BELOW_OPEN;
    assert |OLD| < |OPEN|;
    assert state.sessionProcesses[OLD] == {CLOSED} && state.sessionProcesses[OPEN] == {PARENT};
  }

  // --- What is restored, part by part ---------------------------------------------------

  ghost predicate Worthless(s: Snapshot) {
    s.version != 4 || s.dirty || |s.processes| != 1 || (s.span.None? && forall i :: 0 <= i < |s.tools| ==> s.tools[i].components.spanId.None?)
  }

  /** Tool `i` is the last one saved under the id. */
  ghost predicate LastSaved(saved: seq<ActiveTool>, id: string, i: nat) {
    && i < |saved| && saved[i].components.spanId == Some(id)
    && forall j :: i < j < |saved| ==> saved[j].components.spanId != Some(id)
  }

  lemma LastSavedBefore(saved: seq<ActiveTool>, id: string, i: nat)
    requires saved != [] && LastSaved(saved, id, i)
    ensures if saved[|saved| - 1].components.spanId == Some(id) then i == |saved| - 1 else LastSaved(saved[..|saved| - 1], id, i)
  {
    if i < |saved| - 1 {
      assert saved[|saved| - 1].components.spanId != Some(id);
    }
  }

  lemma RefileOne(tools: map<string, ActiveTool>, saved: seq<ActiveTool>, id: string)
    requires saved != []
    ensures var last := saved[|saved| - 1];
            Lookup(Refile(tools, saved), id)
            == if last.components.spanId == Some(id) then Some(last.(active := true)) else Lookup(Refile(tools, saved[..|saved| - 1]), id)
  {}

  ghost predicate Unsaved(saved: seq<ActiveTool>, id: string) {
    forall i :: 0 <= i < |saved| ==> saved[i].components.spanId != Some(id)
  }

  /** Of the saved tools under one id the last is filed, as an active one; ids that were not saved stay as they are. */
  lemma {:induction false} RefileExactly(tools: map<string, ActiveTool>, saved: seq<ActiveTool>, id: string, i: nat)
    ensures Unsaved(saved, id) ==> Lookup(Refile(tools, saved), id) == Lookup(tools, id)
    ensures LastSaved(saved, id, i) ==> Lookup(Refile(tools, saved), id) == Some(saved[i].(active := true))
  {
    if saved != [] {
      hide Refile;
      var before := saved[..|saved| - 1];
      RefileOne(tools, saved, id);
      RefileExactly(tools, before, id, i);
      assert Unsaved(saved, id) ==> Unsaved(before, id);
      if LastSaved(saved, id, i) {
        LastSavedBefore(saved, id, i);
      }
    }
  }

  /** The session runs in its saved process as well, if that is one; every other session runs where it did. */
  ghost predicate RunsIn(state: State, next: State, key: Key, saved: Process) {
    && (forall other :: other != key ==> Lookup(next.sessionProcesses, other) == Lookup(state.sessionProcesses, other))
    && (forall p: Process :: Owned(next, p, key) <==> Owned(state, p, key) || (p == saved && p.pid != 0 && p.start != 0))
  }

  lemma WorthlessExactly(s: Snapshot)
    ensures Restorable(s) <==> !Worthless(s)
  {
    assert HasSpanId(s.tools) <==> exists i :: 0 <= i < |s.tools| && s.tools[i].components.spanId.Some?;
  }

  lemma LinkRuns(state: State, p: Process, key: Key, next: State)
    requires next.sessionProcesses == (if ValidProcess(p) then Link(state, p, key) else state).sessionProcesses
    ensures RunsIn(state, next, key, p)
  {}

  /**
   * A snapshot of another version, a dirty one, one with several processes
   * and one with nothing open restore nothing. From any other one, the
   * session gets its process, and if it then has one, its saved tools and
   * span; no other session and nothing else changes.
   */
  lemma RestoreExactly(state: State, s: Snapshot)
    requires Inverse(state)
    ensures Worthless(s) ==> Restore(state, s) == state
    ensures !Worthless(s) ==>
              var next := Restore(state, s);
              && |s.processes| == 1 && RunsIn(state, next, s.key, s.processes[0]) && Inverse(next)
              && next == state.(processSessions := next.processSessions, sessionProcesses := next.sessionProcesses,
                                tools := next.tools, sessionSpans := next.sessionSpans)
              && (if s.key in next.sessionProcesses then
                    && next.tools == state.tools[s.key := Refile(ToolsOf(state, s.key), s.tools)]
                    && next.sessionSpans == if s.span.Some? then state.sessionSpans[s.key := s.span.value.(active := true)] else state.sessionSpans
                  else next == state)
  {
    WorthlessExactly(s);
    if Restorable(s) {
      var p := s.processes[0];
      hide HasSpanId, Refile, Worthless, Inverse, RunsIn;
      var linked := if ValidProcess(p) then Link(state, p, s.key) else state;
      LinkKeeps(state, p, s.key);
      SameRelation(linked, Restore(state, s));
      LinkRuns(state, p, s.key, Restore(state, s));
    }
  }

  /** A candidate is confirmed exactly when it is a process above the first place where the agent stands. */
  lemma ConfirmsExactly(process: Process, chain: seq<Process>, agent: Process)
    ensures Confirms(process, chain, agent) <==>
              && process.pid != 0 && process.start != 0 && agent.pid != 0 && agent.start != 0
              && exists i: nat, j: nat :: i < j < |chain| && chain[i] == agent && chain[j] == process
  {
    AfterFinds(chain, agent, process);
  }

  lemma {:induction false} AfterFinds(chain: seq<Process>, agent: Process, process: Process)
    ensures After(chain, agent).Some? && process in After(chain, agent).value <==>
              exists i: nat, j: nat :: i < j < |chain| && chain[i] == agent && chain[j] == process
  {
    if chain != [] {
      AfterFinds(chain[1..], agent, process);
    }
  }

  // --- Confirming a candidate -------------------------------------------------------

  predicate Confirms(process: Process, chain: seq<Process>, agent: Process) {
    ValidProcess(process) && ValidProcess(agent) && After(chain, agent).Some? && process in After(chain, agent).value
  }

  method ConfirmParent(candidate: Resolution, chain: seq<Process>, agent: Process) returns (answer: Resolution)
    requires candidate.Pending?
    ensures answer == if Confirms(candidate.process, chain, agent) then Parent(candidate.route) else Standalone
  {
    if !ValidProcess(candidate.process) {
      return Standalone;
    }
    var above := Ancestors(chain, Some(agent));
    if above.None? {
      return Standalone;
    }
    for i := 0 to |above.value|
      invariant candidate.process !in above.value[..i]
    {
      if above.value[i] == candidate.process {
        return Parent(candidate.route);
      }
    }
    return Standalone;
  }

  lemma {:induction false} NearestAbove(state: State, chain: seq<Process>, agent: Process)
    requires After(chain, agent).Some? && Nearest(state, chain).Some?
    requires Nearest(state, chain).value in After(chain, agent).value
    requires forall i, j :: 0 <= i < j < |chain| ==> chain[i] != chain[j]
    ensures Nearest(state, After(chain, agent).value) == Nearest(state, chain)
  {
    if chain[0] != agent {
      AfterIsStrict(chain[1..], agent);
      if ValidProcess(chain[0]) && chain[0] in state.processSessions {
        assert false;
      }
      NearestAbove(state, chain[1..], agent);
    }
  }

  /** A candidate that the same capture confirms is what would have been answered with the agent known. */
  lemma ConfirmedIsAnswer(state: State, child: Option<Key>, chain: seq<Process>, agent: Process,
                          compatible: Route -> Option<Route>, p: Process, route: Route)
    requires MayAnswer(state, child, Some(chain), None, compatible, Pending(p, route))
    requires Confirms(p, chain, agent)
    requires forall i, j :: 0 <= i < j < |chain| ==> chain[i] != chain[j]
    ensures MayAnswer(state, child, Some(chain), Some(agent), compatible, Parent(route))
  {
    var near := Nearest(state, chain);
    var first :| first in OpenSessions(state, near.value)
              && Pending(p, route) == AnswerAt(state, near.value, first, child, false, compatible);
    NearestAbove(state, chain, agent);
    assert AnswerAt(state, p, first, child, true, compatible) == Parent(route);
  }
}
