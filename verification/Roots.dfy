/**
 * Root deferral: the birth of a root that asked to be deferred is held, with
 * every later operation on it, until the first operation of one of its
 * children arrives.
 */
module Roots {
  import opened Wrappers
  import opened Spans

  const DEFER_FLAG := "_bt_defer_root"

  type Pending = map<string, seq<SpanOp>>

  datatype Step = Step(pending: Pending, ready: seq<SpanOp>)

  /** The birth of a root that asked to be held. */
  predicate Deferred(op: SpanOp) {
    && op.Insert?
    && op.row.metadata.Some?
    && op.row.metadata.value.Object?
    && DEFER_FLAG in op.row.metadata.value.fields
    && op.row.metadata.value.fields[DEFER_FLAG] == Bool(true)
  }

  /** The same operation without its deferral flag. */
  function Strip(op: SpanOp): SpanOp {
    if op.row.metadata.Some? && op.row.metadata.value.Object? then
      var fields := op.row.metadata.value.fields - {DEFER_FLAG};
      op.(row := op.row.(metadata := Some(Object(fields))))
    else
      op
  }

  function StripAll(ops: seq<SpanOp>): seq<SpanOp> {
    if ops == [] then [] else StripAll(ops[..|ops| - 1]) + [Strip(ops[|ops| - 1])]
  }

  /** Release the held operations of every listed parent, in list order. */
  function Release(pending: Pending, parents: seq<string>): Step {
    if parents == [] then Step(pending, [])
    else
      var before := Release(pending, parents[..|parents| - 1]);
      var parent := parents[|parents| - 1];
      if parent in before.pending then
        Step(before.pending - {parent}, before.ready + StripAll(before.pending[parent]))
      else before
  }

  function ProcessOne(pending: Pending, op: SpanOp): Step {
    if op.row.spanId in pending then
      Step(pending[op.row.spanId := pending[op.row.spanId] + [op]], [])
    else
      var released := Release(pending, op.row.parents);
      if Deferred(op) then
        Step(released.pending[op.row.spanId := [op]], released.ready)
      else
        Step(released.pending, released.ready + [op])
  }

  function Process(pending: Pending, ops: seq<SpanOp>): Step {
    if ops == [] then Step(pending, [])
    else
      var before := Process(pending, ops[..|ops| - 1]);
      var last := ProcessOne(before.pending, ops[|ops| - 1]);
      Step(last.pending, before.ready + last.ready)
  }

  /** The translation stage that owns the held roots. */
  class Roots {
    var pending: Pending

    constructor Restore(pending: Pending)
      ensures this.pending == pending
    {
      this.pending := pending;
    }

    method ProcessOwned(ops: seq<SpanOp>) returns (ready: seq<SpanOp>)
      modifies this
      ensures Step(pending, ready) == Process(old(pending), ops)
    {
      ready := [];
      for i := 0 to |ops|
        invariant Step(pending, ready) == Process(old(pending), ops[..i])
      {
        var op := ops[i];
        assert ops[..i + 1][..i] == ops[..i];
        if op.row.spanId in pending {
          pending := pending[op.row.spanId := pending[op.row.spanId] + [op]];
          assert ready == ready + [];
          continue;
        }
        var released := ReleaseParents(op.row.parents);
        ready := ready + released;
        if Deferred(op) {
          pending := pending[op.row.spanId := [op]];
        } else {
          Associate(Process(old(pending), ops[..i]).ready, released, [op]);
          ready := ready + [op];
        }
      }
      assert ops[..|ops|] == ops;
    }

    method ReleaseParents(parents: seq<string>) returns (ready: seq<SpanOp>)
      modifies this
      ensures Step(pending, ready) == Release(old(pending), parents)
    {
      ready := [];
      for j := 0 to |parents|
        invariant Step(pending, ready) == Release(old(pending), parents[..j])
      {
        var parent := parents[j];
        assert parents[..j + 1][..j] == parents[..j];
        if parent in pending {
          var root := pending[parent];
          pending := pending - {parent};
          var stripped := [];
          for k := 0 to |root|
            invariant stripped == StripAll(root[..k])
          {
            assert root[..k + 1][..k] == root[..k];
            stripped := stripped + [Strip(root[k])];
          }
          assert root[..|root|] == root;
          ready := ready + stripped;
        }
      }
      assert parents[..|parents|] == parents;
    }
  }

  // --- What deferral keeps -------------------------------------------------

  /** Every held list carries operations of its own span only. */
  ghost predicate Sorted(pending: Pending) {
    forall s, i :: s in pending && 0 <= i < |pending[s]| ==> pending[s][i].row.spanId == s
  }

  lemma StripOnce(op: SpanOp)
    ensures Strip(Strip(op)) == Strip(op)
  {
    if op.row.metadata.Some? && op.row.metadata.value.Object? {
      var fields := op.row.metadata.value.fields;
      assert fields - {DEFER_FLAG} - {DEFER_FLAG} == fields - {DEFER_FLAG};
    }
  }

  /** What a reader sees of one span: its operations in order, without their flags. */
  function Seen(span: string, ops: seq<SpanOp>): seq<SpanOp> {
    if ops == [] then []
    else
      Seen(span, ops[..|ops| - 1]) + SeenOne(span, ops[|ops| - 1])
  }

  function SeenOne(span: string, op: SpanOp): seq<SpanOp> {
    if op.row.spanId == span then [Strip(op)] else []
  }

  function SeenHeld(span: string, pending: Pending): seq<SpanOp> {
    if span in pending then Seen(span, pending[span]) else []
  }

  lemma Associate<T>(a: seq<T>, b: seq<T>, c: seq<T>)
    ensures a + b + c == a + (b + c)
  {}

  /** Two consecutive stretches of a stream, each conserving what passes through it. */
  lemma Chain<T>(out1: seq<T>, out2: seq<T>, held0: seq<T>, held1: seq<T>, held2: seq<T>, in1: seq<T>, in2: seq<T>)
    requires out1 + held1 == held0 + in1
    requires out2 + held2 == held1 + in2
    ensures out1 + out2 + held2 == held0 + (in1 + in2)
  {
    Associate(out1, out2, held2);
    Associate(out1, held1, in2);
    Associate(held0, in1, in2);
  }

  lemma {:induction false} SeenConcat(span: string, a: seq<SpanOp>, b: seq<SpanOp>)
    ensures Seen(span, a + b) == Seen(span, a) + Seen(span, b)
  {
    if b == [] {
      assert a + b == a;
    } else {
      var rest, last := b[..|b| - 1], b[|b| - 1];
      assert (a + b)[..|a + b| - 1] == a + rest;
      SeenConcat(span, a, rest);
      Associate(Seen(span, a), Seen(span, rest), SeenOne(span, last));
    }
  }

  lemma SeenSingle(span: string, op: SpanOp)
    ensures Seen(span, [op]) == SeenOne(span, op)
  {
    assert Seen(span, [op][..0]) == [];
  }

  lemma {:induction false} SeenStripped(span: string, ops: seq<SpanOp>)
    ensures Seen(span, StripAll(ops)) == Seen(span, ops)
  {
    if ops != [] {
      SeenStripped(span, ops[..|ops| - 1]);
      StripOnce(ops[|ops| - 1]);
    }
  }

  lemma {:induction false} SeenOther(span: string, ops: seq<SpanOp>)
    requires forall i :: 0 <= i < |ops| ==> ops[i].row.spanId != span
    ensures Seen(span, ops) == []
  {
    if ops != [] {
      SeenOther(span, ops[..|ops| - 1]);
    }
  }

  lemma {:induction false} StripUniform(ops: seq<SpanOp>, owner: string)
    requires forall i :: 0 <= i < |ops| ==> ops[i].row.spanId == owner
    ensures forall op :: op in StripAll(ops) ==> op.row.spanId == owner && !AsksToWait(op)
  {
    if ops != [] {
      StripUniform(ops[..|ops| - 1], owner);
    }
  }

  lemma {:induction false} ReleaseKeepsSorted(pending: Pending, parents: seq<string>)
    requires Sorted(pending)
    ensures Sorted(Release(pending, parents).pending)
    ensures Release(pending, parents).pending.Keys <= pending.Keys
  {
    if parents != [] {
      ReleaseKeepsSorted(pending, parents[..|parents| - 1]);
    }
  }

  lemma {:induction false} ReleaseClears(pending: Pending, parents: seq<string>, parent: string)
    requires parent in parents
    ensures parent !in Release(pending, parents).pending
  {
    var rest := parents[..|parents| - 1];
    if parent != parents[|parents| - 1] {
      assert parent in rest;
      ReleaseClears(pending, rest, parent);
    }
  }

  lemma ProcessNothing(pending: Pending)
    ensures Process(pending, []) == Step(pending, [])
  {}

  lemma RootKeepsSeen(pending: Pending, parent: string, span: string)
    requires Sorted(pending) && parent in pending
    ensures Seen(span, StripAll(pending[parent])) + SeenHeld(span, pending - {parent}) == SeenHeld(span, pending)
  {
    hide Seen, StripAll;
    SeenStripped(span, pending[parent]);
    if span != parent {
      SeenOther(span, pending[parent]);
    }
  }

  lemma {:induction false} ReleaseKeepsSeen(pending: Pending, parents: seq<string>, span: string)
    requires Sorted(pending)
    ensures Seen(span, Release(pending, parents).ready) + SeenHeld(span, Release(pending, parents).pending)
            == SeenHeld(span, pending)
  {
    hide Sorted, StripAll, SeenHeld;
    if parents == [] {
      NoneSeen(span);
    } else {
      var rest, parent := parents[..|parents| - 1], parents[|parents| - 1];
      ReleaseKeepsSeen(pending, rest, span);
      ReleaseKeepsSorted(pending, rest);
      hide Seen;
      var before := Release(pending, rest);
      if parent in before.pending {
        SeenConcat(span, before.ready, StripAll(before.pending[parent]));
        RootKeepsSeen(before.pending, parent, span);
      }
    }
  }

  lemma NoneSeen(span: string)
    ensures Seen(span, []) == []
  {}

  lemma ProcessOneKeepsSorted(pending: Pending, op: SpanOp)
    requires Sorted(pending)
    ensures Sorted(ProcessOne(pending, op).pending)
  {
    ReleaseKeepsSorted(pending, op.row.parents);
  }

  lemma HoldKeepsSeen(pending: Pending, op: SpanOp, span: string)
    requires op.row.spanId in pending
    ensures SeenHeld(span, pending[op.row.spanId := pending[op.row.spanId] + [op]])
            == SeenHeld(span, pending) + SeenOne(span, op)
  {
    SeenSingle(span, op);
    SeenConcat(span, pending[op.row.spanId], [op]);
  }

  lemma BirthKeepsSeen(pending: Pending, op: SpanOp, span: string)
    requires op.row.spanId !in pending
    ensures SeenHeld(span, pending[op.row.spanId := [op]]) == SeenHeld(span, pending) + SeenOne(span, op)
  {
    SeenSingle(span, op);
  }

  lemma PassKeepsSeen(released: Step, op: SpanOp, span: string)
    requires op.row.spanId !in released.pending
    ensures Seen(span, released.ready + [op]) + SeenHeld(span, released.pending)
            == Seen(span, released.ready) + SeenHeld(span, released.pending) + SeenOne(span, op)
  {
    hide Seen, Strip;
    SeenConcat(span, released.ready, [op]);
    SeenSingle(span, op);
    if op.row.spanId == span {
      assert SeenHeld(span, released.pending) == [];
    } else {
      assert SeenOne(span, op) == [];
    }
  }

  lemma ProcessOneKeepsSeen(pending: Pending, op: SpanOp, span: string)
    requires Sorted(pending)
    ensures Seen(span, ProcessOne(pending, op).ready) + SeenHeld(span, ProcessOne(pending, op).pending)
            == SeenHeld(span, pending) + SeenOne(span, op)
  {
    if op.row.spanId in pending {
      HoldKeepsSeen(pending, op, span);
    } else {
      ReleaseKeepsSeen(pending, op.row.parents, span);
      ReleaseKeepsSorted(pending, op.row.parents);
      var released := Release(pending, op.row.parents);
      if Deferred(op) {
        BirthKeepsSeen(released.pending, op, span);
        Associate(Seen(span, released.ready), SeenHeld(span, released.pending), SeenOne(span, op));
      } else {
        PassKeepsSeen(released, op, span);
      }
    }
  }

  lemma {:induction false} ProcessKeepsSorted(pending: Pending, ops: seq<SpanOp>)
    requires Sorted(pending)
    ensures Sorted(Process(pending, ops).pending)
  {
    if ops != [] {
      ProcessKeepsSorted(pending, ops[..|ops| - 1]);
      ProcessOneKeepsSorted(Process(pending, ops[..|ops| - 1]).pending, ops[|ops| - 1]);
    }
  }

  /**
   * For every span, what was emitted followed by what is still held is what
   * came in, in order, up to the removed flag.
   */
  lemma {:induction false} ProcessKeepsSeen(pending: Pending, ops: seq<SpanOp>, span: string)
    requires Sorted(pending)
    ensures Seen(span, Process(pending, ops).ready) + SeenHeld(span, Process(pending, ops).pending)
            == SeenHeld(span, pending) + Seen(span, ops)
  {
    if ops != [] {
      var rest, op := ops[..|ops| - 1], ops[|ops| - 1];
      ProcessKeepsSeen(pending, rest, span);
      ProcessKeepsSorted(pending, rest);
      var before := Process(pending, rest);
      var last := ProcessOne(before.pending, op);
      ProcessOneKeepsSeen(before.pending, op, span);
      SeenConcat(span, before.ready, last.ready);
      Chain(Seen(span, before.ready), Seen(span, last.ready), SeenHeld(span, pending),
            SeenHeld(span, before.pending), SeenHeld(span, last.pending), Seen(span, rest), SeenOne(span, op));
    }
  }

  lemma {:induction false} ReleaseClearsFlags(pending: Pending, parents: seq<string>)
    requires Sorted(pending)
    ensures forall op :: op in Release(pending, parents).ready ==> !AsksToWait(op)
  {
    if parents != [] {
      var rest, parent := parents[..|parents| - 1], parents[|parents| - 1];
      ReleaseClearsFlags(pending, rest);
      ReleaseKeepsSorted(pending, rest);
      if parent in Release(pending, rest).pending {
        StripUniform(Release(pending, rest).pending[parent], parent);
      }
    }
  }

  /** Nothing that is emitted still asks to be held. */
  lemma {:induction false} ProcessClearsFlags(pending: Pending, ops: seq<SpanOp>)
    requires Sorted(pending)
    ensures forall op :: op in Process(pending, ops).ready ==> !AsksToWait(op)
  {
    if ops != [] {
      var rest, op := ops[..|ops| - 1], ops[|ops| - 1];
      ProcessClearsFlags(pending, rest);
      ProcessKeepsSorted(pending, rest);
      ReleaseClearsFlags(Process(pending, rest).pending, op.row.parents);
    }
  }

  lemma {:induction false} SeenCounts(ops: seq<SpanOp>, op: SpanOp)
    ensures multiset(Seen(op.row.spanId, ops))[op] == multiset(StripAll(ops))[op]
  {
    if ops != [] {
      SeenCounts(ops[..|ops| - 1], op);
    }
  }

  /** Emitted plus held operations are a permutation of the input, up to the flag. */
  lemma ProcessConserves(ops: seq<SpanOp>, op: SpanOp)
    ensures var r := Process(map[], ops);
            multiset(StripAll(r.ready))[op] + multiset(SeenHeld(op.row.spanId, r.pending))[op]
            == multiset(StripAll(ops))[op]
  {
    var r := Process(map[], ops);
    var span := op.row.spanId;
    ProcessKeepsSeen(map[], ops, span);
    SeenCounts(r.ready, op);
    SeenCounts(ops, op);
    Union(Seen(span, r.ready), SeenHeld(span, r.pending), Seen(span, ops), op);
  }

  lemma Union<T>(a: seq<T>, b: seq<T>, c: seq<T>, x: T)
    requires a + b == [] + c
    ensures multiset(a)[x] + multiset(b)[x] == multiset(c)[x]
  {
    assert a + b == c;
    assert multiset(a + b) == multiset(a) + multiset(b);
  }

  /** However the stream is cut into batches, the output and what stays held are the same. */
  lemma {:induction false} ProcessSplits(pending: Pending, a: seq<SpanOp>, b: seq<SpanOp>)
    ensures var first := Process(pending, a);
            var second := Process(first.pending, b);
            Process(pending, a + b) == Step(second.pending, first.ready + second.ready)
  {
    if b == [] {
      assert a + b == a;
    } else {
      assert (a + b)[..|a + b| - 1] == a + b[..|b| - 1];
      ProcessSplits(pending, a, b[..|b| - 1]);
    }
  }

  lemma {:induction false} ReleaseNothing(parents: seq<string>)
    ensures Release(map[], parents) == Step(map[], [])
  {
    if parents != [] {
      ReleaseNothing(parents[..|parents| - 1]);
    }
  }

  /** A stream in which no root asks to be held is not touched. */
  lemma {:induction false} PassesUndeferred(ops: seq<SpanOp>)
    requires forall i :: 0 <= i < |ops| ==> !AsksToWait(ops[i])
    ensures Process(map[], ops) == Step(map[], ops)
  {
    if ops != [] {
      PassesUndeferred(ops[..|ops| - 1]);
      ReleaseNothing(ops[|ops| - 1].row.parents);
    }
  }

  // --- Every operation, in plain terms -------------------------------------------

  /** The birth of a root whose metadata says, literally, that it is to be held. */
  predicate AsksToWait(op: SpanOp) {
    match op
    case Insert(row) => row.metadata.Some? && row.metadata.value.Object? && Lookup(row.metadata.value.fields, "_bt_defer_root") == Some(Bool(true))
    case Merge(_) => false
  }

  /** The same operation, but for the one metadata field, which is gone. */
  ghost predicate Cleared(a: SpanOp, b: SpanOp) {
    && a.Insert? == b.Insert? && a.row == b.row.(metadata := a.row.metadata)
    && (if b.row.metadata.Some? && b.row.metadata.value.Object? then
          && a.row.metadata.Some? && a.row.metadata.value.Object?
          && "_bt_defer_root" !in a.row.metadata.value.fields
          && (forall key :: key != "_bt_defer_root" ==> Lookup(a.row.metadata.value.fields, key) == Lookup(b.row.metadata.value.fields, key))
        else a.row.metadata == b.row.metadata)
  }

  ghost predicate AllCleared(a: seq<SpanOp>, b: seq<SpanOp>) {
    |a| == |b| && forall i :: 0 <= i < |a| ==> Cleared(a[i], b[i])
  }

  /** The same operation, except that the field may be missing in either. */
  ghost predicate Alike(a: SpanOp, b: SpanOp) {
    && a.Insert? == b.Insert? && a.row == b.row.(metadata := a.row.metadata)
    && (a.row.metadata == b.row.metadata
        || (&& a.row.metadata.Some? && a.row.metadata.value.Object? && b.row.metadata.Some? && b.row.metadata.value.Object?
            && forall key :: key != "_bt_defer_root" ==> Lookup(a.row.metadata.value.fields, key) == Lookup(b.row.metadata.value.fields, key)))
  }

  lemma StripClears(op: SpanOp)
    ensures Cleared(Strip(op), op)
  {}

  /** Two operations lose the same to the flag exactly when they differ in nothing else. */
  lemma StripsAlikeExactly(a: SpanOp, b: SpanOp)
    ensures Strip(a) == Strip(b) <==> Alike(a, b)
  {
    StripClears(a);
    StripClears(b);
    if Alike(a, b) && a.row.metadata != b.row.metadata {
      var x, y := Strip(a).row.metadata.value.fields, Strip(b).row.metadata.value.fields;
      forall key
        ensures Lookup(x, key) == Lookup(y, key)
      {}
      SameFields(x, y);
    }
    if Strip(a) == Strip(b) && a.row.metadata != b.row.metadata {
      forall key | key != "_bt_defer_root"
        ensures Lookup(a.row.metadata.value.fields, key) == Lookup(b.row.metadata.value.fields, key)
      {
        assert Lookup(a.row.metadata.value.fields, key) == Lookup(Strip(a).row.metadata.value.fields, key);
      }
    }
  }

  lemma SameFields(x: map<string, Json>, y: map<string, Json>)
    requires forall key :: Lookup(x, key) == Lookup(y, key)
    ensures x == y
  {
    forall key
      ensures key in x <==> key in y
      ensures key in x ==> x[key] == y[key]
    {
      assert Lookup(x, key) == Lookup(y, key);
    }
  }

  // --- One operation at a time --------------------------------------------------------

  /** What one entry of an operation's parents sets free: the held operations of that parent, unless an earlier entry was the same. */
  ghost predicate Freed(part: seq<SpanOp>, pending: Pending, parents: seq<string>, j: nat)
    requires j < |parents|
  {
    if parents[j] in pending && parents[j] !in parents[..j] then AllCleared(part, pending[parents[j]]) else part == []
  }

  function Joined(parts: seq<seq<SpanOp>>): seq<SpanOp> {
    if parts == [] then [] else Joined(parts[..|parts| - 1]) + parts[|parts| - 1]
  }

  lemma {:induction false} StripAllClears(ops: seq<SpanOp>)
    ensures AllCleared(StripAll(ops), ops)
  {
    if ops != [] {
      StripAllClears(ops[..|ops| - 1]);
      StripClears(ops[|ops| - 1]);
    }
  }

  lemma {:induction false} ReleaseTakes(pending: Pending, parents: seq<string>)
    ensures Release(pending, parents).pending == pending - (set p | p in parents)
  {
    if parents == [] {
      assert pending - (set p | p in parents) == pending;
    } else {
      var rest, parent := parents[..|parents| - 1], parents[|parents| - 1];
      ReleaseTakes(pending, rest);
      var gone, all := set p | p in rest, set p | p in parents;
      assert all == gone + {parent};
      assert pending - gone - {parent} == pending - all;
      assert parent !in pending - gone ==> pending - gone == pending - all;
    }
  }

  lemma FreedLast(pending: Pending, parents: seq<string>, part: seq<SpanOp>)
    requires parents != []
    requires var parent, rest := parents[|parents| - 1], parents[..|parents| - 1];
             part == if parent in pending - (set p | p in rest) then StripAll(pending[parent]) else []
    ensures Freed(part, pending, parents, |parents| - 1)
  {
    var parent := parents[|parents| - 1];
    if parent in pending {
      StripAllClears(pending[parent]);
    }
  }

  lemma FreedBefore(pending: Pending, parents: seq<string>, n: nat, j: nat, part: seq<SpanOp>)
    requires j < n <= |parents| && Freed(part, pending, parents[..n], j)
    ensures Freed(part, pending, parents, j)
  {
    assert parents[..n][..j] == parents[..j];
  }

  lemma ReleaseLast(pending: Pending, parents: seq<string>)
    requires parents != []
    ensures var parent, before := parents[|parents| - 1], Release(pending, parents[..|parents| - 1]);
            Release(pending, parents).ready == before.ready + if parent in before.pending then StripAll(before.pending[parent]) else []
  {
    var before := Release(pending, parents[..|parents| - 1]);
    assert before.ready + [] == before.ready;
  }

  lemma {:induction false} ReleaseExactly(pending: Pending, parents: seq<string>) returns (parts: seq<seq<SpanOp>>)
    ensures |parts| == |parents| && forall j :: 0 <= j < |parts| ==> Freed(parts[j], pending, parents, j)
    ensures Release(pending, parents) == Step(pending - (set p | p in parents), Joined(parts))
  {
    ReleaseTakes(pending, parents);
    parts := [];
    if parents != [] {
      hide Freed, Release, StripAll;
      var last := |parents| - 1;
      var rest, parent := parents[..last], parents[last];
      var before := ReleaseExactly(pending, rest);
      ReleaseTakes(pending, rest);
      ReleaseLast(pending, parents);
      var part := if parent in pending - (set p | p in rest) then StripAll(pending[parent]) else [];
      parts := before + [part];
      assert parts[..last] == before;
      FreedLast(pending, parents, part);
      forall j | 0 <= j < last
        ensures Freed(parts[j], pending, parents, j)
      {
        FreedBefore(pending, parents, last, j, parts[j]);
      }
    }
  }

  /**
   * The whole stage, one operation at a time. An operation of a held span is
   * held too. Any other one first sets free what its parents hold, parent by
   * parent and without the flag, and is then held itself if it asks for that,
   * and passed on as it came if not.
   */
  lemma OneOperation(pending: Pending, op: SpanOp) returns (parts: seq<seq<SpanOp>>)
    ensures op.row.spanId in pending ==>
              Process(pending, [op]) == Step(pending[op.row.spanId := pending[op.row.spanId] + [op]], [])
    ensures op.row.spanId !in pending ==>
              && |parts| == |op.row.parents| && (forall j :: 0 <= j < |parts| ==> Freed(parts[j], pending, op.row.parents, j))
              && Process(pending, [op]).ready == Joined(parts) + (if AsksToWait(op) then [] else [op])
              && Process(pending, [op]).pending
                 == (pending - (set p | p in op.row.parents)) + (if AsksToWait(op) then map[op.row.spanId := [op]] else map[])
  {
    assert [op][..0] == [] && Process(pending, []) == Step(pending, []);
    assert [] + ProcessOne(pending, op).ready == ProcessOne(pending, op).ready;
    parts := ReleaseExactly(pending, op.row.parents);
    assert Joined(parts) + [] == Joined(parts);
    assert (pending - (set p | p in op.row.parents)) + map[] == pending - (set p | p in op.row.parents);
  }

  /** Operation `i` is the birth from which the root is held. */
  ghost predicate HeldSince(ops: seq<SpanOp>, root: string, i: nat) {
    && i < |ops| && AsksToWait(ops[i]) && ops[i].row.spanId == root && root !in Process(map[], ops[..i]).pending
    && (forall j :: i < j < |ops| && root in ops[j].row.parents ==> ops[j].row.spanId in Process(map[], ops[..j]).pending)
  }

  /** A root is held exactly from a birth that asks for it until an operation that is not held itself names it as a parent. */
  lemma {:induction false} HeldUntilChild(ops: seq<SpanOp>, root: string)
    ensures root in Process(map[], ops).pending <==> exists i: nat :: HeldSince(ops, root, i)
  {
    if ops != [] {
      var last := |ops| - 1;
      var rest, op := ops[..last], ops[last];
      HeldUntilChild(rest, root);
      var before := Process(map[], rest).pending;
      ReleasedKeys(before, op.row.parents);
      assert AsksToWait(op) <==> Deferred(op);
      forall i: nat
        ensures HeldSince(ops, root, i) <==>
                  if i == last then AsksToWait(op) && op.row.spanId == root && root !in before
                  else HeldSince(rest, root, i) && (root in op.row.parents ==> op.row.spanId in before)
      {
        HeldSinceStep(ops, root, i);
      }
      if AsksToWait(op) && op.row.spanId == root && root !in before {
        assert HeldSince(ops, root, last);
      }
    }
  }

  lemma HeldSinceStep(ops: seq<SpanOp>, root: string, i: nat)
    requires ops != []
    ensures var last := |ops| - 1;
            HeldSince(ops, root, i) <==>
              if i == last then AsksToWait(ops[last]) && ops[last].row.spanId == root && root !in Process(map[], ops[..last]).pending
              else HeldSince(ops[..last], root, i) && (root in ops[last].row.parents ==> ops[last].row.spanId in Process(map[], ops[..last]).pending)
  {
    hide Process, AsksToWait;
    var last := |ops| - 1;
    var rest := ops[..last];
    forall j | 0 <= j < last
      ensures rest[j] == ops[j] && rest[..j] == ops[..j]
    {}
  }

  lemma ReleasedKeys(pending: Pending, parents: seq<string>)
    ensures forall s :: s in Release(pending, parents).pending <==> s in pending && s !in parents
  {
    var parts := ReleaseExactly(pending, parents);
  }

  // --- What each span keeps --------------------------------------------------------------

  function Of(span: string, ops: seq<SpanOp>): seq<SpanOp> {
    if ops == [] then []
    else Of(span, ops[..|ops| - 1]) + (if ops[|ops| - 1].row.spanId == span then [ops[|ops| - 1]] else [])
  }

  function HeldOf(span: string, pending: Pending): seq<SpanOp> {
    if span in pending then pending[span] else []
  }

  ghost predicate AllAlike(a: seq<SpanOp>, b: seq<SpanOp>) {
    |a| == |b| && forall i :: 0 <= i < |a| ==> Alike(a[i], b[i])
  }

  lemma {:induction false} SeenIsStripped(span: string, ops: seq<SpanOp>)
    ensures Seen(span, ops) == StripAll(Of(span, ops))
  {
    if ops != [] {
      var rest, op := ops[..|ops| - 1], ops[|ops| - 1];
      SeenIsStripped(span, rest);
      if op.row.spanId == span {
        assert (Of(span, rest) + [op])[..|Of(span, rest)|] == Of(span, rest);
      } else {
        assert Of(span, rest) + [] == Of(span, rest) && Seen(span, rest) + [] == Seen(span, rest);
      }
    }
  }

  lemma {:induction false} StripAllAt(ops: seq<SpanOp>, i: nat)
    requires i < |ops|
    ensures |StripAll(ops)| == |ops| && StripAll(ops)[i] == Strip(ops[i])
  {
    var last := |ops| - 1;
    if i < last {
      StripAllAt(ops[..last], i);
    } else if last > 0 {
      StripAllAt(ops[..last], 0);
    }
  }

  lemma {:induction false} StripAllConcat(a: seq<SpanOp>, b: seq<SpanOp>)
    ensures StripAll(a + b) == StripAll(a) + StripAll(b)
  {
    if b == [] {
      assert a + b == a;
    } else {
      assert (a + b)[..|a + b| - 1] == a + b[..|b| - 1];
      StripAllConcat(a, b[..|b| - 1]);
    }
  }

  lemma StrippedAlike(a: seq<SpanOp>, b: seq<SpanOp>)
    requires StripAll(a) == StripAll(b)
    ensures AllAlike(a, b)
  {
    hide StripAll, Strip, Alike;
    StripAllLength(a);
    StripAllLength(b);
    forall i | 0 <= i < |a|
      ensures Alike(a[i], b[i])
    {
      StripAllAt(a, i);
      StripAllAt(b, i);
      StripsAlikeExactly(a[i], b[i]);
    }
  }

  lemma {:induction false} StripAllLength(ops: seq<SpanOp>)
    ensures |StripAll(ops)| == |ops|
  {
    if ops != [] {
      StripAllAt(ops, 0);
    }
  }

  lemma {:induction false} UniformIsOf(span: string, ops: seq<SpanOp>)
    requires forall i :: 0 <= i < |ops| ==> ops[i].row.spanId == span
    ensures Of(span, ops) == ops
  {
    if ops != [] {
      UniformIsOf(span, ops[..|ops| - 1]);
    }
  }

  lemma SeenHeldIsStripped(span: string, pending: Pending)
    requires Sorted(pending)
    ensures SeenHeld(span, pending) == StripAll(HeldOf(span, pending))
  {
    if span in pending {
      SeenIsStripped(span, pending[span]);
      UniformIsOf(span, pending[span]);
    }
  }

  /**
   * For every span, what was emitted followed by what is still held is what
   * was held followed by what came in: operation by operation the same, but
   * for the one metadata field.
   */
  lemma ProcessKeepsSpans(pending: Pending, ops: seq<SpanOp>, span: string)
    requires Sorted(pending)
    ensures var r := Process(pending, ops);
            AllAlike(Of(span, r.ready) + HeldOf(span, r.pending), HeldOf(span, pending) + Of(span, ops))
  {
    hide Process, Seen, SeenHeld, StripAll, Of, HeldOf, Sorted, AllAlike;
    var r := Process(pending, ops);
    ProcessKeepsSeen(pending, ops, span);
    ProcessKeepsSorted(pending, ops);
    SeenIsStripped(span, r.ready);
    SeenIsStripped(span, ops);
    SeenHeldIsStripped(span, pending);
    SeenHeldIsStripped(span, r.pending);
    StripAllConcat(Of(span, r.ready), HeldOf(span, r.pending));
    StripAllConcat(HeldOf(span, pending), Of(span, ops));
    StrippedAlike(Of(span, r.ready) + HeldOf(span, r.pending), HeldOf(span, pending) + Of(span, ops));
  }

  /**
   * An operation that is not held itself follows everything that came in
   * earlier for each of its parents.
   */
  lemma PassedAfterParents(ops: seq<SpanOp>, op: SpanOp, parent: string)
    requires parent in op.row.parents && parent != op.row.spanId
    requires op.row.spanId !in Process(map[], ops).pending
    ensures var r := Process(map[], ops + [op]);
            && AllAlike(Of(parent, r.ready), Of(parent, ops))
            && (if AsksToWait(op) then op.row.spanId in r.pending && r.pending[op.row.spanId] == [op]
                else r.ready != [] && r.ready[|r.ready| - 1] == op)
  {
    PassedWhere(Process(map[], ops).pending, op, parent);
    ProcessLast(map[], ops, op);
    ProcessKeepsSpans(map[], ops + [op], parent);
    hide *;
    var r := Process(map[], ops + [op]);
    OfOther(parent, ops, op);
    HeldNone(parent, r.pending);
    HeldNone(parent, map[]);
    assert Of(parent, r.ready) + [] == Of(parent, r.ready) && [] + Of(parent, ops) == Of(parent, ops);
  }

  lemma PassedWhere(pending: Pending, op: SpanOp, parent: string)
    requires parent in op.row.parents && parent != op.row.spanId && op.row.spanId !in pending
    ensures var r := ProcessOne(pending, op);
            && parent !in r.pending
            && (if AsksToWait(op) then op.row.spanId in r.pending && r.pending[op.row.spanId] == [op]
                else r.ready != [] && r.ready[|r.ready| - 1] == op)
  {
    ReleaseTakes(pending, op.row.parents);
  }

  lemma ProcessLast(pending: Pending, ops: seq<SpanOp>, op: SpanOp)
    ensures var before := Process(pending, ops);
            var last := ProcessOne(before.pending, op);
            Process(pending, ops + [op]) == Step(last.pending, before.ready + last.ready)
  {
    assert (ops + [op])[..|ops + [op]| - 1] == ops;
  }

  lemma OfOther(span: string, ops: seq<SpanOp>, op: SpanOp)
    requires op.row.spanId != span
    ensures Of(span, ops + [op]) == Of(span, ops)
  {
    assert (ops + [op])[..|ops + [op]| - 1] == ops;
  }

  lemma HeldNone(span: string, pending: Pending)
    requires span !in pending
    ensures HeldOf(span, pending) == []
  {}
}
