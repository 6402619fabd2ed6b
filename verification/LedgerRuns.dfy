/**
 * Any number of processes over one ledger: they load, emit, flush, fail and
 * die in any order, one locked section or one backend call at a time.
 */
module LedgerRuns {
  import opened Wrappers
  import opened Spans
  import opened LedgerLog
  import opened Ledger
  import opened LedgerSinks

  class Fleet {
    const log: SharedLog
    var sinks: seq<LedgerSink>

    /** Separate processes share the log and nothing else. */
    ghost predicate Apart()
      reads this
    {
      && (forall s <- sinks :: s.ledger.log == log)
      && (forall i, j :: 0 <= i < j < |sinks| ==> sinks[i] != sinks[j] && sinks[i].ledger != sinks[j].ledger)
    }

    ghost function Parts(): set<object>
      reads this
    {
      (set s: LedgerSink | s in sinks :: s as object) + (set s: LedgerSink | s in sinks :: s.ledger as object)
    }

    ghost predicate Valid()
      reads this, log, log.index, Parts()
    {
      && log.Valid()
      && Apart()
      && (forall s <- sinks :: s.Valid())
    }

    constructor (log: SharedLog)
      requires log.Valid()
      ensures Valid() && this.log == log && sinks == []
    {
      this.log, sinks := log, [];
    }

    /**
     * One process takes its next step: what it does under the lock, or one
     * call of its backend outside it. The others do not notice.
     */
    method Act(i: nat, emit: bool, ops: seq<SpanOp>)
      requires Valid() && i < |sinks|
      modifies sinks[i], sinks[i].ledger, log, log.index
      ensures Valid() && Later()
    {
      hide Tracks, Marks, Holds, Cleared;
      assert sinks[i] in sinks;
      Advance(sinks[i], emit, ops);
      forall j | 0 <= j < |sinks| && j != i
        ensures sinks[j].Valid()
      {
        assert sinks[j] in sinks;
        Unnoticed(sinks[j]);
      }
    }

    method Advance(sink: LedgerSink, emit: bool, ops: seq<SpanOp>)
      requires sink.Valid() && sink.ledger.log == log
      modifies sink, sink.ledger, log, log.index
      ensures sink.Valid() && log.Valid() && Later()
    {
      hide Tracks, Marks, Holds, Cleared, Leaves, KeepFor;
      match sink.phase {
        case Idle =>
          if emit {
            var ok := sink.Stage(ops);
          } else {
            var ok := sink.FlushBackend();
          }
        case Sending(rows) =>
          var count := sink.Send();
        case Committing =>
          var ok := sink.CommitFlushed();
      }
    }

    /** The log, its index and what was flushed only grew. */
    twostate predicate Later()
      reads log, log.index
    {
      && Grows(old(log.Seen()), log.Seen())
      && old(log.flushed) <= log.flushed && old(log.settled) <= log.settled
      && old(log.handed) <= log.handed
    }

    /** A new process rebuilds the index before it is used. */
    method Start(capture: Origin, attached: Option<string>) returns (sink: LedgerSink?)
      requires log.Valid()
      modifies log.index
      ensures log.Valid() && Grows(old(log.Seen()), log.Seen())
      ensures sink != null ==> fresh(sink) && fresh(sink.ledger) && sink.ledger.log == log && sink.Valid()
    {
      var ledger := new DeliveryLedger(log);
      var ok := ledger.Load();
      if !ok {
        return null;
      }
      sink := new LedgerSink(ledger, capture, attached);
    }

    method Join(capture: Origin, attached: Option<string>)
      requires Valid()
      modifies this`sinks, log.index
      ensures Valid() && Grows(old(log.Seen()), log.Seen())
      ensures sinks == old(sinks) || exists s: LedgerSink :: fresh(s) && fresh(s.ledger) && sinks == old(sinks) + [s]
    {
      hide Tracks, Marks, Holds, Cleared;
      var sink := Start(capture, attached);
      forall j | 0 <= j < |sinks|
        ensures sinks[j].Valid()
      {
        Unnoticed(sinks[j]);
      }
      if sink != null {
        sinks := sinks + [sink];
      }
    }

    /** A process is gone, wherever it stopped. */
    method Die(i: nat)
      requires Valid() && i < |sinks|
      modifies this`sinks
      ensures Valid() && sinks == old(sinks)[..i] + old(sinks)[i + 1..]
    {
      sinks := sinks[..i] + sinks[i + 1..];
    }
  }

  /** Another process's step leaves this one valid: its own state is untouched and the log only grew. */
  twostate lemma Unnoticed(s: LedgerSink)
    requires old(s.Valid()) && unchanged(s) && unchanged(s.ledger)
    requires s.ledger.log.Valid()
    requires Grows(old(s.ledger.log.Seen()), s.ledger.log.Seen())
    requires old(s.ledger.log.flushed) <= s.ledger.log.flushed
    ensures s.Valid()
  {
    var log := s.ledger.log;
    if s.phase.Sending? {
      ClearedLater(log.base, s.phase.rows, s.began, old(log.records), log.records);
    }
    TracksLater(log.codec, log.base, old(log.Seen()), log.Seen(), s.ledger.journalLen, s.ledger.seen);
    MarksLater(log.base, old(log.records), log.records, s.ledger.known, s.ledger.seen, s.ledger.reread);
    CacheLater(log.base, s.cache, old(log.records), log.records);
    AwaitsOn(log.base, old(log.records), log.records, s.ledger.Pending(), s.accepted);
  }

  /**
   * Any number of processes, joining, working and dying in any order; between
   * what one does under the lock and its call of the backend all the others
   * may act. The shared invariant holds throughout: each row that left carries the origin
   * of the first durable entry for its span, no row left that had been
   * completed when its call began, ids are durable only after a flush that
   * followed their emission, and the complete records are never rewritten.
   */
  method RunFleet(log: SharedLog, turns: nat)
    requires log.Valid()
    modifies log, log.index
    ensures log.Valid()
    ensures old(log.records) <= log.records
    ensures log.codec.Written(old(log.records)) <= log.bytes
  {
    var fleet := new Fleet(log);
    for i := 0 to turns
      invariant fresh(fleet) && fleet.log == log && fleet.Valid()
      invariant forall s <- fleet.sinks :: fresh(s) && fresh(s.ledger)
      invariant Grows(old(log.Seen()), log.Seen())
    {
      var choice: int := *;
      if choice == 0 || fleet.sinks == [] {
        var capture: Origin, attached: Option<string> := *, *;
        fleet.Join(capture, attached);
      } else {
        var k :| 0 <= k < |fleet.sinks|;
        var ops: seq<SpanOp> := *;
        if choice == 1 {
          fleet.Die(k);
        } else {
          assert fleet.sinks[k] in fleet.sinks;
          fleet.Act(k, choice == 2, ops);
        }
      }
    }
    assert log.records[..|old(log.records)|] == old(log.records);
    WrittenGrows(log.codec, log.records, |old(log.records)|);
  }

  // --- What the shared invariant means -------------------------------------------

  /** Record `i` is the first to name the span. */
  predicate Names(records: seq<Update>, i: nat, span: string)
    requires i < |records|
  {
    span in records[i].origins && forall j :: 0 <= j < i ==> span !in records[j].origins
  }

  /** The origin of a span is the checkpoint's, else that of the first record naming it. */
  lemma {:induction false} FirstEntryDecides(base: Update, records: seq<Update>, span: string)
    ensures span in base.origins ==> Lookup(OriginsOf(base, records), span) == Some(base.origins[span])
    ensures forall i :: 0 <= i < |records| && span !in base.origins && Names(records, i, span) ==>
              Lookup(OriginsOf(base, records), span) == Some(records[i].origins[span])
    ensures span in OriginsOf(base, records) ==>
              span in base.origins || exists i :: 0 <= i < |records| && span in records[i].origins
  {
    if records != [] {
      var rest := records[..|records| - 1];
      FirstEntryDecides(base, rest, span);
      forall i | 0 <= i < |records| && span !in base.origins && Names(records, i, span)
        ensures Lookup(OriginsOf(base, records), span) == Some(records[i].origins[span])
      {
        if i < |rest| {
          assert Names(rest, i, span);
        }
      }
      if span in OriginsOf(base, rest) && span !in base.origins {
        var i :| 0 <= i < |rest| && span in rest[i].origins;
        assert records[i] == rest[i];
      }
    }
  }

  /** Two rows of one span never leave with two different origins, whoever sent them. */
  lemma OneBirthOrigin(base: Update, records: seq<Update>, a: Handed, b: Handed)
    requires Provenance(base, a) && Provenance(base, b)
    requires a.durable <= records && b.durable <= records
    requires a.op.row.spanId == b.op.row.spanId && a.op.row.origin.Some? && b.op.row.origin.Some?
    ensures a.op.row.origin == b.op.row.origin == Lookup(OriginsOf(base, records), a.op.row.spanId)
  {
    FoldsGrowTo(base, records, |a.durable|);
    FoldsGrowTo(base, records, |b.durable|);
    assert records[..|a.durable|] == a.durable && records[..|b.durable|] == b.durable;
  }

  /** An id that was durable at some point is in no row of any call that began later. */
  lemma SuppressedForGood(base: Update, durable: seq<Update>, h: Handed)
    requires Unsuppressed(base, h) && durable <= h.began
    ensures h.op.row.lateMergeKey.None? ==> h.op.row.spanId !in CompletedOf(base, durable)
    ensures h.op.row.lateMergeKey.Some? ==> LateMergeId(h.op.row) !in LateMergesOf(base, durable)
  {
    FoldsGrowTo(base, h.began, |durable|);
    assert h.began[..|durable|] == durable;
  }

  /**
   * A versioned row is forwarded only when it is as new as, or continues, the
   * mark at its place; and that mark is at least as new as the starting mark
   * and every earlier forwarded version of its span.
   */
  lemma {:induction false} ForwardedAreNewest(ops: seq<SpanOp>, done: Done, marks: map<string, Version>, span: string)
    ensures var k := Keep(ops, done, marks);
            && (span in marks ==> span in k.marks && k.marks[span].ts >= marks[span].ts)
            && (forall op :: op in k.ops && op.row.spanId == span && op.row.lateMergeVersion.Some? ==>
                 span in k.marks && k.marks[span].ts >= op.row.lateMergeVersion.value.ts)
  {
    if ops != [] {
      ForwardedAreNewest(ops[..|ops| - 1], done, marks, span);
    }
  }

  // --- Which versions of a span are forwarded --------------------------------------

  function OneVersion(version: Option<Version>): seq<Version> {
    if version.Some? then [version.value] else []
  }

  function DurableVersions(records: seq<Update>, span: string): seq<Version> {
    if records == [] then []
    else DurableVersions(records[..|records| - 1], span) + OneVersion(Lookup(records[|records| - 1].versions, span))
  }

  function VersionOf(op: SpanOp, span: string): Option<Version> {
    if op.row.spanId == span then op.row.lateMergeVersion else None
  }

  function RowVersions(ops: seq<SpanOp>, span: string): seq<Version> {
    if ops == [] then [] else RowVersions(ops[..|ops| - 1], span) + OneVersion(VersionOf(ops[|ops| - 1], span))
  }

  /** Every version of a span that came before: checkpointed, durable, accepted by this process's backend, and in this batch. */
  function VersionsBefore(base: Update, records: seq<Update>, pendingVersions: map<string, Version>, earlier: seq<SpanOp>, span: string): seq<Version> {
    OneVersion(Lookup(base.versions, span)) + DurableVersions(records, span) + OneVersion(Lookup(pendingVersions, span)) + RowVersions(earlier, span)
  }

  /** The last of the greatest. */
  ghost predicate Top(versions: seq<Version>, i: nat) {
    && i < |versions|
    && (forall j :: 0 <= j < i ==> versions[j].ts <= versions[i].ts)
    && (forall j :: i < j < |versions| ==> versions[j].ts < versions[i].ts)
  }

  /** A row without a version, a first one, one that is at least as new as all before it, or one that continues the newest. */
  ghost predicate Current(op: SpanOp, versions: seq<Version>) {
    op.row.lateMergeVersion.Some? && versions != [] ==>
      exists i: nat :: Top(versions, i) && var next := op.row.lateMergeVersion.value;
        next.ts >= versions[i].ts || (next.native.Some? && next.native == versions[i].native)
  }

  function MarkOf(versions: seq<Version>): Option<Version> {
    if versions == [] then None else Remember(MarkOf(versions[..|versions| - 1]), Some(versions[|versions| - 1]))
  }

  lemma {:induction false} MarkIsTop(versions: seq<Version>) returns (i: nat)
    requires versions != []
    ensures Top(versions, i) && MarkOf(versions) == Some(versions[i])
  {
    var rest, last := versions[..|versions| - 1], |versions| - 1;
    i := last;
    if rest != [] {
      var j := MarkIsTop(rest);
      if versions[last].ts < rest[j].ts {
        i := j;
      }
    }
  }

  lemma TopIsOne(versions: seq<Version>, i: nat, j: nat)
    requires Top(versions, i) && Top(versions, j)
    ensures i == j
  {
    var a, b := versions[i], versions[j];
  }

  lemma MarkAfter(versions: seq<Version>, next: Option<Version>)
    ensures MarkOf(versions + OneVersion(next)) == Remember(MarkOf(versions), next)
  {
    if next.Some? {
      assert (versions + [next.value])[..|versions|] == versions;
    } else {
      assert versions + [] == versions;
    }
  }

  lemma {:induction false} WatermarkIsMark(versions: seq<Version>, records: seq<Update>, span: string)
    ensures Watermark(MarkOf(versions), records, span) == MarkOf(versions + DurableVersions(records, span))
  {
    hide MarkOf, Remember, Lookup;
    if records == [] {
      assert versions + [] == versions;
    } else {
      var rest, last := records[..|records| - 1], Lookup(records[|records| - 1].versions, span);
      WatermarkIsMark(versions, rest, span);
      MarkAfter(versions + DurableVersions(rest, span), last);
      assert versions + DurableVersions(rest, span) + OneVersion(last) == versions + DurableVersions(records, span);
    }
  }

  lemma MarkedRemembers(op: SpanOp, marks: map<string, Version>, span: string)
    ensures Lookup(Marked(op, marks), span) == Remember(Lookup(marks, span), VersionOf(op, span))
  {}

  lemma RowVersionsSnoc(ops: seq<SpanOp>, op: SpanOp, span: string)
    ensures RowVersions(ops + [op], span) == RowVersions(ops, span) + OneVersion(VersionOf(op, span))
  {
    assert (ops + [op])[..|ops|] == ops;
  }

  lemma {:induction false} KeptMarks(ops: seq<SpanOp>, done: Done, marks: map<string, Version>, versions: seq<Version>, span: string)
    requires Lookup(marks, span) == MarkOf(versions)
    ensures Lookup(Keep(ops, done, marks).marks, span) == MarkOf(versions + RowVersions(Keep(ops, done, marks).ops, span))
  {
    hide MarkOf, Marked, Remember, Lookup, Fresh, Newer;
    if ops == [] {
      assert versions + [] == versions;
    } else {
      var before, last := Keep(ops[..|ops| - 1], done, marks), ops[|ops| - 1];
      KeptMarks(ops[..|ops| - 1], done, marks, versions, span);
      MarkedRemembers(last, before.marks, span);
      RowVersionsSnoc(before.ops, last, span);
      MarkAfter(versions + RowVersions(before.ops, span), VersionOf(last, span));
      assert versions + RowVersions(before.ops + [last], span)
             == versions + RowVersions(before.ops, span) + OneVersion(VersionOf(last, span));
    }
  }

  /** What waits for a flush: of each span the last of the greatest versions, of those that waited and those of the rows. */
  lemma {:induction false} PendingIsMark(marks: map<string, Version>, ops: seq<SpanOp>, span: string)
    ensures Lookup(VersionsAfter(marks, ops), span) == MarkOf(OneVersion(Lookup(marks, span)) + RowVersions(ops, span))
  {
    hide MarkOf, Marked, Remember, Lookup;
    var start := OneVersion(Lookup(marks, span));
    if ops == [] {
      NoMark();
      MarkAfter([], Lookup(marks, span));
      OnlyMark(Lookup(marks, span));
      assert [] + start == start && start + [] == start;
    } else {
      var rest, last := ops[..|ops| - 1], ops[|ops| - 1];
      PendingIsMark(marks, rest, span);
      MarkedRemembers(last, VersionsAfter(marks, rest), span);
      AfterIsMarked(marks, ops);
      MarkAfter(start + RowVersions(rest, span), VersionOf(last, span));
      assert start + RowVersions(ops, span) == start + RowVersions(rest, span) + OneVersion(VersionOf(last, span));
    }
  }

  lemma OnlyMark(mark: Option<Version>)
    ensures Remember(None, mark) == mark
  {}

  lemma AfterIsMarked(marks: map<string, Version>, ops: seq<SpanOp>)
    requires ops != []
    ensures VersionsAfter(marks, ops) == Marked(ops[|ops| - 1], VersionsAfter(marks, ops[..|ops| - 1]))
  {}

  lemma CurrentIsNewer(op: SpanOp, versions: seq<Version>, marks: map<string, Version>)
    requires Lookup(marks, op.row.spanId) == MarkOf(versions)
    ensures Newer(op, marks) <==> Current(op, versions)
  {
    hide MarkOf, Top;
    if versions == [] {
      NoMark();
    } else {
      var i := MarkIsTop(versions);
      forall j: nat | Top(versions, j)
        ensures j == i
      {
        TopIsOne(versions, i, j);
      }
    }
  }

  lemma NoMark()
    ensures MarkOf([]) == None
  {}

  /** The row was delivered: a late merge by its own id, whatever is known of its span, and any other row by its span. */
  ghost predicate Delivered(op: SpanOp, base: Update, records: seq<Update>, pending: set<string>, pendingMerges: set<string>) {
    match op.row.lateMergeKey
    case Some(key) =>
      var id := op.row.spanId + "\U{1F}" + key;
      MergedIn(base, records, id) || id in pendingMerges
    case None => DoneIn(base, records, op.row.spanId) || op.row.spanId in pending
  }

  lemma FreshExactly(op: SpanOp, base: Update, records: seq<Update>, pending: set<string>, pendingMerges: set<string>)
    ensures Fresh(op, Done(CompletedOf(base, records) + pending, LateMergesOf(base, records) + pendingMerges))
            <==> !Delivered(op, base, records, pending, pendingMerges)
  {
    CompletedExactly(base, records, op.row.spanId);
    if op.row.lateMergeKey.Some? {
      MergedExactly(base, records, op.row.spanId + "\U{1F}" + op.row.lateMergeKey.value);
    }
  }

  /**
   * What an up-to-date process forwards of a batch, row by row: exactly the
   * rows that were not delivered, as far as the checkpoint, the durable
   * records and its own pending ids say, and whose version is current after
   * every version of the span that is in the checkpoint, in a durable record,
   * accepted by this process's backend or forwarded before it.
   */
  lemma ForwardedExactly(ops: seq<SpanOp>, j: nat, base: Update, records: seq<Update>, pending: set<string>, pendingMerges: set<string>,
                         known: map<string, Version>, pendingVersions: map<string, Version>)
    requires Marks(base, records, known, |records|, []) && j < |ops|
    ensures var earlier := KeepFor(ops[..j], base, records, pending, pendingMerges, known, pendingVersions);
            KeepFor(ops[..j + 1], base, records, pending, pendingMerges, known, pendingVersions)
            == if !Delivered(ops[j], base, records, pending, pendingMerges)
                 && Current(ops[j], VersionsBefore(base, records, pendingVersions, earlier, ops[j].row.spanId))
               then earlier + [ops[j]] else earlier
    ensures KeepFor([], base, records, pending, pendingMerges, known, pendingVersions) == []
  {
    hide MarkOf, RememberAll, DurableVersions, RowVersions, Current, Fresh, Delivered;
    FreshExactly(ops[j], base, records, pending, pendingMerges);
    var done := Done(CompletedOf(base, records) + pending, LateMergesOf(base, records) + pendingMerges);
    var marks, span := RememberAll(known, pendingVersions), ops[j].row.spanId;
    var start, durable := OneVersion(Lookup(base.versions, span)), DurableVersions(records, span);
    var versions := start + durable + OneVersion(Lookup(pendingVersions, span));
    assert Lookup(marks, span) == MarkOf(versions) by {
      assert records[..|records|] == records;
      NoMark();
      MarkAfter([], Lookup(base.versions, span));
      assert [] + start == start;
      WatermarkIsMark(start, records, span);
      RememberAllMarks(known, pendingVersions, span);
      MarkAfter(start + durable, Lookup(pendingVersions, span));
    }
    KeptMarks(ops[..j], done, marks, versions, span);
    var before := Keep(ops[..j], done, marks);
    CurrentIsNewer(ops[j], versions + RowVersions(before.ops, span), before.marks);
    assert ops[..j + 1][..j] == ops[..j];
  }

  // --- What a settled version holds back --------------------------------------------

  /** However marks go on, they stay at least as new. */
  lemma {:induction false} MarkStays(versions: seq<Version>, more: seq<Version>, ts: int)
    requires MarkOf(versions).Some? && MarkOf(versions).value.ts >= ts
    ensures MarkOf(versions + more).Some? && MarkOf(versions + more).value.ts >= ts
  {
    if more == [] {
      assert versions + more == versions;
    } else {
      assert (versions + more)[..|versions + more| - 1] == versions + more[..|more| - 1];
      MarkStays(versions, more[..|more| - 1], ts);
    }
  }

  /**
   * A version that some process's backend took before a flush that was made
   * durable holds back every older version of its span, in every process that
   * has caught up since: of those only a continuation of the newest version
   * known there is forwarded.
   */
  lemma SettledHoldsBack(settled: SpanOp, ops: seq<SpanOp>, j: nat, base: Update, records: seq<Update>, pending: set<string>,
                         pendingMerges: set<string>, known: map<string, Version>, pendingVersions: map<string, Version>)
    requires Settles(base, records, settled) && settled.row.lateMergeVersion.Some?
    requires Marks(base, records, known, |records|, []) && j < |ops|
    requires ops[j].row.spanId == settled.row.spanId && ops[j].row.lateMergeVersion.Some?
    requires ops[j].row.lateMergeVersion.value.ts < settled.row.lateMergeVersion.value.ts
    ensures var earlier := KeepFor(ops[..j], base, records, pending, pendingMerges, known, pendingVersions);
            var versions, native := VersionsBefore(base, records, pendingVersions, earlier, ops[j].row.spanId), ops[j].row.lateMergeVersion.value.native;
            KeepFor(ops[..j + 1], base, records, pending, pendingMerges, known, pendingVersions) == earlier
            || exists i: nat :: Top(versions, i) && native.Some? && native == versions[i].native
  {
    hide MarkOf, DurableVersions, RowVersions, Keep, Delivered, Watermark;
    ForwardedExactly(ops, j, base, records, pending, pendingMerges, known, pendingVersions);
    var earlier := KeepFor(ops[..j], base, records, pending, pendingMerges, known, pendingVersions);
    var span, ts := ops[j].row.spanId, settled.row.lateMergeVersion.value.ts;
    var start, durable := OneVersion(Lookup(base.versions, span)), DurableVersions(records, span);
    var rest := OneVersion(Lookup(pendingVersions, span)) + RowVersions(earlier, span);
    var versions := VersionsBefore(base, records, pendingVersions, earlier, span);
    assert versions == start + durable + rest;
    NoMark();
    MarkAfter([], Lookup(base.versions, span));
    assert [] + start == start;
    WatermarkIsMark(start, records, span);
    MarkStays(start + durable, rest, ts);
    if versions != [] {
      var i := MarkIsTop(versions);
      forall k: nat | Top(versions, k)
        ensures k == i
      {
        TopIsOne(versions, i, k);
      }
    }
  }
}
