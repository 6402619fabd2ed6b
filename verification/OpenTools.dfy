/** The open tools of a session, recovered from the births that the journal keeps. */
module OpenTools {
  import opened Wrappers
  import opened Spans
  import Store
  import opened Correlation

  // --- What the journal keeps ------------------------------------------------------

  /** The operations of a history that correlation observes. */
  function Observed(log: seq<Store.Entry>): seq<SpanOp> {
    if log == [] then []
    else
      var last := log[|log| - 1];
      Observed(log[..|log| - 1]) + (if last.observation then [last.op] else [])
  }

  function BirthsOf(ops: seq<SpanOp>): map<string, Store.Birth> {
    if ops == [] then map[] else Store.SaveBirth(BirthsOf(ops[..|ops| - 1]), ops[|ops| - 1])
  }

  /** Correlation sees every operation without its payload, and misses nothing. */
  lemma MetadataIsEnough(state: State, key: Key, route: Correlation.Route, destination: Option<Destination>, op: SpanOp)
    ensures ObserveOp(state, key, route, destination, Store.MetadataOnly(op)) == ObserveOp(state, key, route, destination, op)
  {
    assert ObserveTool(ToolsOf(state, key), route, destination, Store.MetadataOnly(op)) == ObserveTool(ToolsOf(state, key), route, destination, op);
  }

  lemma {:induction false} BirthsOfLog(log: seq<Store.Entry>)
    ensures Store.MetadataOf(log).births == BirthsOf(Observed(log))
  {
    if log != [] {
      var before, last := log[..|log| - 1], log[|log| - 1];
      BirthsOfLog(before);
      if last.observation {
        assert Observed(log)[..|Observed(log)| - 1] == Observed(before);
      } else {
        assert Observed(log) == Observed(before);
      }
    }
  }

  /** An insertion that opens a tool or a root task under this id. */
  ghost predicate Bears(op: SpanOp, id: string) {
    && op.Insert? && op.row.spanId == id
    && (op.row.spanType.Tool? || (op.row.spanType.Task? && op.row.rootSpanId == id))
  }

  ghost predicate LastBirth(ops: seq<SpanOp>, id: string, i: nat) {
    i < |ops| && Bears(ops[i], id) && forall j :: i < j < |ops| ==> !Bears(ops[j], id)
  }

  ghost predicate EndedIn(ops: seq<SpanOp>, id: string, i: nat) {
    exists j :: i <= j < |ops| && ops[j].row.spanId == id && ops[j].row.endMs.Some?
  }

  ghost predicate LastWord(ops: seq<SpanOp>, id: string, i: nat, endMs: Option<int>) {
    exists j :: i <= j < |ops| && ops[j].row.spanId == id && ops[j].row.endMs == endMs && forall k :: j < k < |ops| ==> ops[k].row.spanId != id
  }

  /** What a kept birth tells of the insertion: everything but its end, its merge key and its payload. */
  ghost predicate Tells(birth: Store.Birth, op: SpanOp) {
    && birth.op == Insert(op.row.(endMs := None, lateMergeKey := None, lateMergeVersion := None, payload := birth.op.row.payload))
    && birth.kind == (if op.row.spanType.Tool? then Store.ToolBirth else Store.RootBirth)
  }

  lemma LastWordSoFar(ops: seq<SpanOp>, id: string, i: nat)
    requires i < |ops| - 1
    ensures var before, last := ops[..|ops| - 1], ops[|ops| - 1];
            && (EndedIn(ops, id, i) <==> EndedIn(before, id, i) || (last.row.spanId == id && last.row.endMs.Some?))
            && (last.row.spanId == id ==> LastWord(ops, id, i, last.row.endMs))
            && (forall endMs :: last.row.spanId != id && LastWord(before, id, i, endMs) ==> LastWord(ops, id, i, endMs))
  {
    var before := ops[..|ops| - 1];
    forall endMs | ops[|before|].row.spanId != id && LastWord(before, id, i, endMs)
      ensures LastWord(ops, id, i, endMs)
    {
      var j :| i <= j < |before| && before[j].row.spanId == id && before[j].row.endMs == endMs && forall k :: j < k < |before| ==> before[k].row.spanId != id;
      assert ops[j] == before[j];
      assert forall k :: j < k < |before| ==> ops[k] == before[k];
    }
    if EndedIn(before, id, i) {
      var j :| i <= j < |before| && before[j].row.spanId == id && before[j].row.endMs.Some?;
      assert ops[j] == before[j];
    }
  }

  /** What a saved operation that opens nothing does to the birth of a span. */
  lemma SavedLater(births: map<string, Store.Birth>, op: SpanOp, id: string)
    requires !Bears(op, id)
    ensures var saved, same := Store.SaveBirth(births, op), op.row.spanId == id;
            && (id in saved <==> id in births && !(same && births[id].kind.ToolBirth? && op.row.endMs.Some?))
            && (id in saved ==> id in births && saved[id] == if same then births[id].(endMs := op.row.endMs) else births[id])
  {}

  lemma SavedFirst(births: map<string, Store.Birth>, op: SpanOp, id: string)
    requires Bears(op, id)
    ensures var saved := Store.SaveBirth(births, op);
            && (id in saved <==> !(op.row.spanType.Tool? && op.row.endMs.Some?))
            && (id in saved ==> Tells(saved[id], op) && saved[id].endMs == op.row.endMs)
  {}

  lemma FirstWord(ops: seq<SpanOp>, id: string)
    requires ops != [] && ops[|ops| - 1].row.spanId == id
    ensures LastWord(ops, id, |ops| - 1, ops[|ops| - 1].row.endMs)
    ensures EndedIn(ops, id, |ops| - 1) <==> ops[|ops| - 1].row.endMs.Some?
  {}

  /**
   * The table holds, for each span, the last insertion that opened it, with
   * the end that the last operation of the span gave; a tool is left out
   * once it ended.
   */
  lemma {:induction false} BirthsExactly(ops: seq<SpanOp>, id: string, i: nat)
    requires LastBirth(ops, id, i)
    ensures id in BirthsOf(ops) <==> !(ops[i].row.spanType.Tool? && EndedIn(ops, id, i))
    ensures id in BirthsOf(ops) ==> Tells(BirthsOf(ops)[id], ops[i]) && LastWord(ops, id, i, BirthsOf(ops)[id].endMs)
  {
    hide Store.SaveBirth, EndedIn, LastWord;
    var before, last := ops[..|ops| - 1], |ops| - 1;
    if i < last {
      BirthsExactly(before, id, i);
      LastWordSoFar(ops, id, i);
      SavedLater(BirthsOf(before), ops[last], id);
    } else {
      SavedFirst(BirthsOf(before), ops[last], id);
      FirstWord(ops, id);
    }
  }

  lemma {:induction false} OnlyBirthsAreKept(ops: seq<SpanOp>, id: string)
    requires forall i :: 0 <= i < |ops| ==> !Bears(ops[i], id)
    ensures id !in BirthsOf(ops)
  {
    if ops != [] {
      OnlyBirthsAreKept(ops[..|ops| - 1], id);
    }
  }

  /** A kept birth is the open insertion of its own span; kept tools have no end. */
  predicate IsKept(id: string, birth: Store.Birth) {
    && birth.op.Insert? && birth.op.row.spanId == id && birth.op.row.endMs.None?
    && (birth.kind.ToolBirth? <==> birth.op.row.spanType.Tool?)
    && (birth.kind.ToolBirth? ==> birth.endMs.None?)
  }

  ghost predicate AllKept(births: map<string, Store.Birth>) {
    forall id :: id in births ==> IsKept(id, births[id])
  }

  lemma {:induction false} BirthsAreKept(ops: seq<SpanOp>)
    ensures AllKept(BirthsOf(ops))
  {
    if ops != [] {
      BirthsAreKept(ops[..|ops| - 1]);
    }
  }

  // --- Live observation against kept births ----------------------------------------------

  /** The open tools after a sequence of operations. */
  function ToolsAfter(tools: map<string, ActiveTool>, route: Correlation.Route, destination: Option<Destination>, ops: seq<SpanOp>): map<string, ActiveTool> {
    if ops == [] then tools
    else ObserveTool(ToolsAfter(tools, route, destination, ops[..|ops| - 1]), route, destination, ops[|ops| - 1])
  }

  lemma {:induction false} ObserveAllTools(state: State, key: Key, route: Correlation.Route, destination: Option<Destination>, ops: seq<SpanOp>)
    ensures ToolsOf(ObserveAll(state, key, route, destination, ops), key) == ToolsAfter(ToolsOf(state, key), route, destination, ops)
  {
    if ops != [] {
      ObserveAllTools(state, key, route, destination, ops[..|ops| - 1]);
    }
  }

  predicate KeptTool(births: map<string, Store.Birth>, id: string) {
    id != "" && id in births && births[id].kind.ToolBirth?
  }

  /** The tools that the kept births describe. */
  function ToolBirths(births: map<string, Store.Birth>, route: Correlation.Route, destination: Option<Destination>): map<string, ActiveTool> {
    map id | id in births && KeptTool(births, id) :: ActiveTool(SpanComponents(destination, births[id].op.row), route, true)
  }

  /** An open root task that takes the id of an open tool: the table keeps one birth for each id. */
  predicate Displaces(tools: map<string, ActiveTool>, op: SpanOp) {
    && op.Insert? && op.row.spanType.Task? && op.row.spanId == op.row.rootSpanId && op.row.endMs.None?
    && op.row.spanId != "" && op.row.spanId in tools
  }

  lemma SavedElsewhere(births: map<string, Store.Birth>, op: SpanOp, id: string)
    requires id != op.row.spanId
    ensures var saved := Store.SaveBirth(births, op);
            (id in saved <==> id in births) && (id in saved ==> saved[id] == births[id])
  {}

  lemma SavedHere(births: map<string, Store.Birth>, op: SpanOp)
    requires AllKept(births)
    ensures var saved, id := Store.SaveBirth(births, op), op.row.spanId;
            && (KeptTool(saved, id) <==> id != "" && op.row.endMs.None? && if Store.IsBirth(op) then op.row.spanType.Tool? else KeptTool(births, id))
            && (KeptTool(saved, id) ==> saved[id].op.row == if Store.IsBirth(op) then Store.MetadataOnly(op).row else births[id].op.row)
  {}

  lemma ObservedHere(births: map<string, Store.Birth>, route: Correlation.Route, destination: Option<Destination>, op: SpanOp)
    requires AllKept(births)
    ensures var tools, id := ToolBirths(births, route, destination), op.row.spanId;
            var saved, observed := ToolBirths(Store.SaveBirth(births, op), route, destination), ObserveTool(tools, route, destination, op);
            && (id in saved <==> id in observed && !Displaces(tools, op))
            && (id in saved ==> saved[id] == observed[id])
  {
    SavedHere(births, op);
  }

  lemma ObservedElsewhere(births: map<string, Store.Birth>, route: Correlation.Route, destination: Option<Destination>, op: SpanOp, id: string)
    requires id != op.row.spanId
    ensures var tools := ToolBirths(births, route, destination);
            var saved, observed := ToolBirths(Store.SaveBirth(births, op), route, destination), ObserveTool(tools, route, destination, op);
            (id in saved <==> id in observed) && (id in saved ==> saved[id] == observed[id])
  {
    SavedElsewhere(births, op, id);
  }

  lemma DisplacedIsObserved(tools: map<string, ActiveTool>, route: Correlation.Route, destination: Option<Destination>, op: SpanOp)
    requires Displaces(tools, op)
    ensures op.row.spanId in ObserveTool(tools, route, destination, op)
  {}

  /** One operation keeps the kept tools equal to the open ones exactly when it does not displace one. */
  lemma SaveBirthObserves(births: map<string, Store.Birth>, route: Correlation.Route, destination: Option<Destination>, op: SpanOp)
    requires AllKept(births)
    ensures ToolBirths(Store.SaveBirth(births, op), route, destination) == ObserveTool(ToolBirths(births, route, destination), route, destination, op)
            <==> !Displaces(ToolBirths(births, route, destination), op)
  {
    var tools, saved := ToolBirths(births, route, destination), ToolBirths(Store.SaveBirth(births, op), route, destination);
    var observed := ObserveTool(tools, route, destination, op);
    ObservedHere(births, route, destination, op);
    if Displaces(tools, op) {
      DisplacedIsObserved(tools, route, destination, op);
    } else {
      forall id
        ensures (id in saved <==> id in observed) && (id in saved ==> saved[id] == observed[id])
      {
        if id != op.row.spanId {
          ObservedElsewhere(births, route, destination, op, id);
        }
      }
    }
  }

  ghost predicate NeverDisplaced(route: Correlation.Route, destination: Option<Destination>, ops: seq<SpanOp>) {
    forall i :: 0 <= i < |ops| ==> !Displaces(ToolsAfter(map[], route, destination, ops[..i]), ops[i])
  }

  ghost predicate Agree(route: Correlation.Route, destination: Option<Destination>, ops: seq<SpanOp>) {
    ToolBirths(BirthsOf(ops), route, destination) == ToolsAfter(map[], route, destination, ops)
  }

  lemma {:induction false} KeptAgree(route: Correlation.Route, destination: Option<Destination>, ops: seq<SpanOp>)
    requires NeverDisplaced(route, destination, ops)
    ensures Agree(route, destination, ops)
  {
    if ops != [] {
      var before := ops[..|ops| - 1];
      forall i | 0 <= i < |before|
        ensures !Displaces(ToolsAfter(map[], route, destination, before[..i]), before[i])
      {
        assert before[..i] == ops[..i];
      }
      KeptAgree(route, destination, before);
      BirthsAreKept(before);
      SaveBirthObserves(BirthsOf(before), route, destination, ops[|ops| - 1]);
    }
  }

  lemma DisplacedDisagrees(route: Correlation.Route, destination: Option<Destination>, ops: seq<SpanOp>, i: nat)
    requires i < |ops| && Displaces(ToolsAfter(map[], route, destination, ops[..i]), ops[i])
    requires Agree(route, destination, ops[..i])
    ensures !Agree(route, destination, ops[..i + 1])
  {
    hide ObserveTool, ToolBirths, Displaces, Store.SaveBirth;
    assert ops[..i + 1][..i] == ops[..i];
    BirthsAreKept(ops[..i]);
    SaveBirthObserves(BirthsOf(ops[..i]), route, destination, ops[i]);
  }

  lemma NeverDisplacedBefore(route: Correlation.Route, destination: Option<Destination>, ops: seq<SpanOp>, n: nat)
    requires NeverDisplaced(route, destination, ops) && n <= |ops|
    ensures NeverDisplaced(route, destination, ops[..n])
  {
    forall i | 0 <= i < n
      ensures !Displaces(ToolsAfter(map[], route, destination, ops[..n][..i]), ops[..n][i])
    {
      assert ops[..n][..i] == ops[..i];
    }
  }

  /** The kept births describe the open tools at all times exactly when no root task ever takes the id of an open tool. */
  lemma AgreeExactly(route: Correlation.Route, destination: Option<Destination>, ops: seq<SpanOp>)
    ensures NeverDisplaced(route, destination, ops) <==> forall n :: 0 <= n <= |ops| ==> Agree(route, destination, ops[..n])
  {
    hide Agree, Displaces;
    if NeverDisplaced(route, destination, ops) {
      forall n | 0 <= n <= |ops|
        ensures Agree(route, destination, ops[..n])
      {
        NeverDisplacedBefore(route, destination, ops, n);
        KeptAgree(route, destination, ops[..n]);
      }
    } else {
      var i :| 0 <= i < |ops| && Displaces(ToolsAfter(map[], route, destination, ops[..i]), ops[i]);
      if Agree(route, destination, ops[..i]) {
        DisplacedDisagrees(route, destination, ops, i);
      }
    }
  }

  const TOOL_ROW := SpanRow("a", "a", [], Tool, None, None, None, None, None, "")

  /** A root task under the id of an open tool: the registry keeps the tool, the journal loses it. */
  lemma RootTaskHidesTool(route: Correlation.Route, destination: Option<Destination>)
    ensures !Agree(route, destination, [Insert(TOOL_ROW), Insert(TOOL_ROW.(spanType := Task))])
  {
    var ops := [Insert(TOOL_ROW), Insert(TOOL_ROW.(spanType := Task))];
    assert ops[..1] == [ops[0]] && [ops[0]][..0] == [];
    assert ToolsAfter(map[], route, destination, [ops[0]]) == ObserveTool(map[], route, destination, ops[0]);
    assert BirthsOf([ops[0]]) == Store.SaveBirth(map[], ops[0]);
    BirthsAreKept([ops[0]]);
    assert Displaces(ToolsAfter(map[], route, destination, ops[..1]), ops[1]);
    SaveBirthObserves(BirthsOf([ops[0]]), route, destination, ops[1]);
    SaveBirthObserves(map[], route, destination, ops[0]);
  }

  /** Every insertion of a span id has the same span type. */
  ghost predicate OneTypeEach(ops: seq<SpanOp>) {
    forall i, j :: 0 <= i < |ops| && 0 <= j < |ops| && ops[i].Insert? && ops[j].Insert? && ops[i].row.spanId == ops[j].row.spanId
      ==> ops[i].row.spanType == ops[j].row.spanType
  }

  lemma {:induction false} OpenToolWasInserted(route: Correlation.Route, destination: Option<Destination>, ops: seq<SpanOp>, id: string) returns (i: nat)
    requires id in ToolsAfter(map[], route, destination, ops)
    ensures i < |ops| && ops[i].Insert? && ops[i].row.spanType.Tool? && ops[i].row.spanId == id
  {
    var last := |ops| - 1;
    if id in ToolsAfter(map[], route, destination, ops[..last]) {
      i := OpenToolWasInserted(route, destination, ops[..last], id);
    } else {
      i := last;
    }
  }

  lemma OneTypeNeverDisplaces(route: Correlation.Route, destination: Option<Destination>, ops: seq<SpanOp>)
    requires OneTypeEach(ops)
    ensures NeverDisplaced(route, destination, ops)
  {
    forall i | 0 <= i < |ops|
      ensures !Displaces(ToolsAfter(map[], route, destination, ops[..i]), ops[i])
    {
      if ops[i].row.spanId in ToolsAfter(map[], route, destination, ops[..i]) {
        var j := OpenToolWasInserted(route, destination, ops[..i], ops[i].row.spanId);
        assert ops[..i][j] == ops[j];
      }
    }
  }

  // --- Reading the births back -------------------------------------------------------

  /** One kept row: its birth, and its end if it has one. */
  function Reread(birth: Store.Birth): seq<SpanOp> {
    if birth.endMs.Some? then [birth.op, Merge(birth.op.row.(endMs := birth.endMs))] else [birth.op]
  }

  function RereadAll(births: map<string, Store.Birth>, order: seq<string>): seq<SpanOp>
    requires forall id :: id in order ==> id in births
  {
    if order == [] then []
    else RereadAll(births, order[..|order| - 1]) + Reread(births[order[|order| - 1]])
  }

  /** The end of a kept birth, told by an operation of its own. */
  ghost predicate TellsEnd(op: SpanOp, birth: Store.Birth) {
    birth.endMs.Some? && op == Merge(birth.op.row.(endMs := birth.endMs))
  }

  /** Every kept birth is read back, of tools and of roots, and an end for each that has one; nothing else is. */
  lemma {:induction false} RereadExactly(births: map<string, Store.Birth>, order: seq<string>, op: SpanOp)
    requires forall id :: id in order ==> id in births
    ensures op in RereadAll(births, order) <==> exists id :: id in order && (op == births[id].op || TellsEnd(op, births[id]))
  {
    if order != [] {
      var rest, last := order[..|order| - 1], order[|order| - 1];
      RereadExactly(births, rest, op);
      assert order == rest + [last];
      assert op in Reread(births[last]) <==> op == births[last].op || TellsEnd(op, births[last]);
    }
  }

  method Observations(db: Store.Database, order: seq<string>) returns (ops: seq<SpanOp>)
    requires Lists(order, db.metadata.births.Keys)
    ensures ops == RereadAll(db.metadata.births, order)
  {
    ops := [];
    for i := 0 to |order|
      invariant ops == RereadAll(db.metadata.births, order[..i])
    {
      assert order[..i + 1][..i] == order[..i];
      var birth := db.metadata.births[order[i]];
      ops := ops + [birth.op];
      if birth.endMs.Some? {
        ops := ops + [Merge(birth.op.row.(endMs := birth.endMs))];
      }
    }
    assert order[..|order|] == order;
  }

  lemma {:induction false} ToolsAfterBoth(tools: map<string, ActiveTool>, route: Correlation.Route, destination: Option<Destination>, a: seq<SpanOp>, b: seq<SpanOp>)
    ensures ToolsAfter(tools, route, destination, a + b) == ToolsAfter(ToolsAfter(tools, route, destination, a), route, destination, b)
  {
    if b == [] {
      assert a + b == a;
    } else {
      assert (a + b)[..|a + b| - 1] == a + b[..|b| - 1];
      ToolsAfterBoth(tools, route, destination, a, b[..|b| - 1]);
    }
  }

  lemma RereadObserves(births: map<string, Store.Birth>, id: string, route: Correlation.Route, destination: Option<Destination>, tools: map<string, ActiveTool>)
    requires AllKept(births) && id in births && id !in tools
    ensures ToolsAfter(tools, route, destination, Reread(births[id]))
            == if KeptTool(births, id) then tools[id := ToolBirths(births, route, destination)[id]] else tools
  {
    var birth := births[id];
    assert IsKept(id, birth);
    var first := ObserveTool(tools, route, destination, birth.op);
    assert [birth.op][..0] == [];
    assert ToolsAfter(tools, route, destination, [birth.op]) == first;
    if birth.endMs.Some? {
      assert Reread(birth)[..1] == [birth.op];
      assert first - {id} == tools;
    }
  }

  /** In whatever order the rows are read, exactly the kept tools are open afterwards. */
  lemma {:induction false} RereadRestores(births: map<string, Store.Birth>, order: seq<string>, route: Correlation.Route, destination: Option<Destination>)
    requires AllKept(births)
    requires forall id :: id in order ==> id in births
    requires forall i, j :: 0 <= i < j < |order| ==> order[i] != order[j]
    ensures var tools := ToolsAfter(map[], route, destination, RereadAll(births, order));
            && (forall id :: id in tools <==> id in order && KeptTool(births, id))
            && (forall id :: id in tools ==> tools[id] == ToolBirths(births, route, destination)[id])
  {
    if order != [] {
      var before, id := order[..|order| - 1], order[|order| - 1];
      RereadRestores(births, before, route, destination);
      var tools := ToolsAfter(map[], route, destination, RereadAll(births, before));
      ToolsAfterBoth(map[], route, destination, RereadAll(births, before), Reread(births[id]));
      RereadObserves(births, id, route, destination, tools);
    }
  }

  /**
   * The tools that a restarted daemon reads back are those that were open in
   * a registry that saw the whole history, if no root task took the id of an
   * open tool; `state` is any registry that knows no tool of the session yet.
   */
  lemma RecoveredToolsAreOpenTools(log: seq<Store.Entry>, order: seq<string>, state: State, live: State, key: Key,
                                   route: Correlation.Route, destination: Option<Destination>)
    requires ToolsOf(state, key) == map[] && ToolsOf(live, key) == map[]
    requires Lists(order, Store.MetadataOf(log).births.Keys)
    requires NeverDisplaced(route, destination, Observed(log))
    ensures ToolsOf(ObserveAll(state, key, route, destination, RereadAll(Store.MetadataOf(log).births, order)), key)
            == ToolsOf(ObserveAll(live, key, route, destination, Observed(log)), key)
  {
    hide Store.SaveBirth, ObserveTool, ObserveOp, Displaces, NeverDisplaced, IsKept, ToolsAfter, RereadAll;
    var births := Store.MetadataOf(log).births;
    BirthsOfLog(log);
    BirthsAreKept(Observed(log));
    ObserveAllTools(state, key, route, destination, RereadAll(births, order));
    ObserveAllTools(live, key, route, destination, Observed(log));
    KeptAgree(route, destination, Observed(log));
    RereadRestores(births, order, route, destination);
    var tools := ToolsAfter(map[], route, destination, RereadAll(births, order));
    forall id
      ensures id in tools <==> id in ToolBirths(births, route, destination)
    {
      assert id in order <==> id in births;
    }
  }

  // --- Origins -----------------------------------------------------------------------

  /** The origin table holds, for each span, the origin of the first operation that has one. */
  lemma {:induction false} FirstOriginWins(log: seq<Store.Entry>, id: string)
    ensures var origins := Store.MetadataOf(log).origins;
            if id in origins then
              exists i :: (0 <= i < |log| && log[i].op.row.spanId == id && log[i].op.row.origin == Some(origins[id])
                           && forall j :: 0 <= j < i && log[j].op.row.spanId == id ==> log[j].op.row.origin.None?)
            else forall i :: 0 <= i < |log| && log[i].op.row.spanId == id ==> log[i].op.row.origin.None?
  {
    if log != [] {
      var before := log[..|log| - 1];
      FirstOriginWins(before, id);
      if id in Store.MetadataOf(before).origins {
        var i :| 0 <= i < |before| && before[i].op.row.spanId == id && before[i].op.row.origin == Some(Store.MetadataOf(before).origins[id])
              && forall j :: 0 <= j < i && before[j].op.row.spanId == id ==> before[j].op.row.origin.None?;
        assert log[i] == before[i];
        forall j | 0 <= j < i && log[j].op.row.spanId == id
          ensures log[j].op.row.origin.None?
        {
          assert before[j] == log[j];
        }
      } else {
        forall j | 0 <= j < |before| && log[j].op.row.spanId == id
          ensures log[j].op.row.origin.None?
        {
          assert before[j] == log[j];
        }
        assert log[|log| - 1] == log[|before|];
      }
    }
  }
}
