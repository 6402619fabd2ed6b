/**
 * One route's delivery loop over the cursor that feeds it. The sink, the
 * ledger behind it, the head write and the input may fail at any call.
 */
module Consumers {
  import opened Wrappers
  import opened Spans
  import Store
  import Live
  import opened SpanJournal
  import opened Cursors

  // --- Ranges of positions -----------------------------------------------------

  /** The positions `after + 1 .. through`. */
  datatype Range = Range(after: nat, through: nat)

  /** Ranges that follow each other and together are `from + 1 .. to`. */
  predicate Chain(ranges: seq<Range>, from: nat, to: nat) {
    && (ranges == [] ==> from == to)
    && (ranges != [] ==> ranges[0].after == from && ranges[|ranges| - 1].through == to)
    && (forall i :: 0 <= i < |ranges| ==> ranges[i].after < ranges[i].through)
    && (forall i :: 0 < i < |ranges| ==> ranges[i - 1].through == ranges[i].after)
  }

  lemma ChainSnoc(ranges: seq<Range>, from: nat, to: nat, last: Range)
    requires Chain(ranges, from, to) && last.after == to && last.after < last.through
    ensures Chain(ranges + [last], from, last.through)
  {}

  lemma ChainTail(ranges: seq<Range>, from: nat, to: nat)
    requires Chain(ranges, from, to) && ranges != []
    ensures Chain(ranges[1..], ranges[0].through, to)
  {}

  /** Earlier ranges end before later ones begin, so no position is in two of them. */
  lemma {:induction false} ChainIsOrdered(ranges: seq<Range>, from: nat, to: nat, i: nat, j: nat)
    requires Chain(ranges, from, to) && i <= j < |ranges|
    ensures from <= ranges[i].after && ranges[j].through <= to
    ensures i < j ==> ranges[i].through <= ranges[j].after
    decreases |ranges|
  {
    if i > 0 {
      ChainTail(ranges, from, to);
      ChainIsOrdered(ranges[1..], ranges[0].through, to, i - 1, j - 1);
    } else if j > 0 {
      ChainTail(ranges, from, to);
      ChainIsOrdered(ranges[1..], ranges[0].through, to, 0, j - 1);
    } else if |ranges| > 1 {
      ChainTail(ranges, from, to);
      ChainIsOrdered(ranges[1..], ranges[0].through, to, 0, 0);
    }
  }

  lemma ChainBounds(ranges: seq<Range>, from: nat, to: nat)
    requires Chain(ranges, from, to)
    ensures from <= to && (ranges != [] ==> from < to)
  {
    if ranges != [] {
      ChainIsOrdered(ranges, from, to, 0, |ranges| - 1);
      ChainIsOrdered(ranges, from, to, 0, 0);
    }
  }

  /** Every position of the whole is in one of the ranges. */
  lemma {:induction false} ChainCovers(ranges: seq<Range>, from: nat, to: nat, p: nat) returns (i: nat)
    requires Chain(ranges, from, to) && from < p <= to
    ensures i < |ranges| && ranges[i].after < p <= ranges[i].through
  {
    if p <= ranges[0].through {
      i := 0;
    } else {
      ChainTail(ranges, from, to);
      i := ChainCovers(ranges[1..], ranges[0].through, to, p);
      i := i + 1;
    }
  }

  // --- What happened --------------------------------------------------------------

  /** What happened, in order. `sink` numbers the sinks that were created. */
  datatype Event =
    | Submitted(sink: nat, range: Range, ops: seq<SpanOp>)
    | Emitted(sink: nat, range: Range)
    | Flushed(sink: nat)
    | Completed(range: Range)
    /** Any failure but a failed ledger commit or a failed head write. */
    | Strayed

  type History = seq<Event>

  /** The range was emitted, and a later flush of that same sink left nothing deferred. */
  ghost predicate Accepted(history: History, range: Range) {
    exists s, i, j :: 0 <= i < j < |history| && history[i] == Emitted(s, range) && history[j] == Flushed(s)
  }

  ghost predicate CompletesAfterAcceptance(history: History) {
    forall i :: 0 <= i < |history| && history[i].Completed? ==> Accepted(history[..i], history[i].range)
  }

  function OpsBetween(log: seq<Store.Entry>, from: nat, to: nat): (r: seq<SpanOp>)
    requires from <= to <= |log|
    ensures |r| == to - from && forall i :: 0 <= i < |r| ==> r[i] == log[from + i].op
  {
    seq(to - from, i requires 0 <= i < to - from => log[from + i].op)
  }

  /** Whatever was submitted for some positions is what was published there. */
  ghost predicate TrueToLog(history: History, log: seq<Store.Entry>) {
    forall i :: 0 <= i < |history| && history[i].Submitted? ==>
      var range := history[i].range;
      range.after < range.through <= |log| && history[i].ops == OpsBetween(log, range.after, range.through)
  }

  /** Nothing is emitted but what was submitted to that sink just before. */
  ghost predicate Grounded(history: History) {
    forall i :: 0 <= i < |history| && history[i].Emitted? ==>
      i > 0 && history[i - 1].Submitted? && history[i - 1].sink == history[i].sink && history[i - 1].range == history[i].range
  }

  /** Everything that was submitted, one after the other. */
  function SubmittedOps(history: History): seq<SpanOp> {
    if history == [] then []
    else
      var before, last := SubmittedOps(history[..|history| - 1]), history[|history| - 1];
      if last.Submitted? then before + last.ops else before
  }

  function Completions(history: History): seq<Range> {
    if history == [] then []
    else
      var before, last := Completions(history[..|history| - 1]), history[|history| - 1];
      if last.Completed? then before + [last.range] else before
  }

  lemma AcceptedGrows(history: History, e: Event, range: Range)
    requires Accepted(history, range)
    ensures Accepted(history + [e], range)
  {
    var s, i, j :| 0 <= i < j < |history| && history[i] == Emitted(s, range) && history[j] == Flushed(s);
    assert (history + [e])[i] == Emitted(s, range) && (history + [e])[j] == Flushed(s);
  }

  lemma FlushAccepts(history: History, sink: nat, range: Range)
    requires Emitted(sink, range) in history
    ensures Accepted(history + [Flushed(sink)], range)
  {
    var i :| 0 <= i < |history| && history[i] == Emitted(sink, range);
    var next := history + [Flushed(sink)];
    assert next[i] == Emitted(sink, range) && next[|history|] == Flushed(sink);
  }

  lemma OrderGrows(history: History, e: Event)
    requires CompletesAfterAcceptance(history)
    requires e.Completed? ==> Accepted(history, e.range)
    ensures CompletesAfterAcceptance(history + [e])
  {
    var next := history + [e];
    forall i | 0 <= i < |next| && next[i].Completed?
      ensures Accepted(next[..i], next[i].range)
    {
      assert next[..i] == history[..i];
      assert i == |history| ==> history[..i] == history;
    }
  }

  lemma CountsGrow(history: History, e: Event)
    ensures SubmittedOps(history + [e]) == if e.Submitted? then SubmittedOps(history) + e.ops else SubmittedOps(history)
    ensures Completions(history + [e]) == if e.Completed? then Completions(history) + [e.range] else Completions(history)
  {
    assert (history + [e])[..|history + [e]| - 1] == history;
  }

  lemma TruthGrows(history: History, e: Event, log: seq<Store.Entry>)
    requires TrueToLog(history, log)
    requires e.Submitted? ==> e.range.after < e.range.through <= |log| && e.ops == OpsBetween(log, e.range.after, e.range.through)
    ensures TrueToLog(history + [e], log)
  {}

  lemma GroundGrows(history: History, e: Event)
    requires Grounded(history)
    requires e.Emitted? ==> exists ops :: history != [] && history[|history| - 1] == Submitted(e.sink, e.range, ops)
    ensures Grounded(history + [e])
  {}

  lemma OpsBetweenLater(log: seq<Store.Entry>, more: seq<Store.Entry>, from: nat, to: nat)
    requires from <= to <= |log| && log <= more
    ensures OpsBetween(more, from, to) == OpsBetween(log, from, to)
  {
    forall k | from <= k < to
      ensures log[k] == more[k]
    {}
  }

  lemma TrueLater(history: History, log: seq<Store.Entry>, more: seq<Store.Entry>)
    requires TrueToLog(history, log) && log <= more
    ensures TrueToLog(history, more)
  {
    forall i | 0 <= i < |history| && history[i].Submitted?
      ensures var range := history[i].range;
              range.after < range.through <= |more| && history[i].ops == OpsBetween(more, range.after, range.through)
    {
      OpsBetweenLater(log, more, history[i].range.after, history[i].range.through);
    }
  }

  lemma OpsBetweenBoth(log: seq<Store.Entry>, from: nat, mid: nat, to: nat)
    requires from <= mid <= to <= |log|
    ensures OpsBetween(log, from, to) == OpsBetween(log, from, mid) + OpsBetween(log, mid, to)
  {}

  lemma {:induction false} CompletionHappened(history: History, range: Range) returns (i: nat)
    requires range in Completions(history)
    ensures i < |history| && history[i] == Completed(range)
  {
    var last := |history| - 1;
    if history[last] == Completed(range) {
      i := last;
    } else {
      i := CompletionHappened(history[..last], range);
    }
  }

  /** The event offers the operation to a sink as the one at the position. */
  ghost predicate Carries(e: Event, p: nat, op: SpanOp) {
    && e.Submitted? && e.range.after < p <= e.range.through
    && p - e.range.after <= |e.ops| && e.ops[p - e.range.after - 1] == op
  }

  /**
   * The operation was offered for the position, in a range that a sink took,
   * then flushed with nothing left deferred, and that was completed after that.
   */
  ghost predicate Taken(history: History, p: nat, op: SpanOp) {
    exists i, j :: 0 <= j < i < |history| && history[i].Completed? && Accepted(history[..i], history[i].range)
                && Carries(history[j], p, op) && history[j].range == history[i].range
  }

  /** What was published at the position was taken. */
  ghost predicate TakenAt(history: History, log: seq<Store.Entry>, p: nat) {
    0 < p <= |log| && Taken(history, p, log[p - 1].op)
  }

  /** What a sink accepted for a range is what was published there. */
  lemma AcceptedOps(history: History, range: Range, log: seq<Store.Entry>) returns (i: nat)
    requires Accepted(history, range) && Grounded(history) && TrueToLog(history, log)
    ensures range.after < range.through <= |log|
    ensures i < |history| && history[i].Submitted? && history[i].range == range && history[i].ops == OpsBetween(log, range.after, range.through)
  {
    var s, e, f :| 0 <= e < f < |history| && history[e] == Emitted(s, range) && history[f] == Flushed(s);
    assert history[e].Emitted?;
    i := e - 1;
    assert history[i].Submitted?;
  }

  lemma CompletionTook(history: History, log: seq<Store.Entry>, i: nat, p: nat)
    requires TrueToLog(history, log) && Grounded(history)
    requires i < |history| && history[i].Completed? && Accepted(history[..i], history[i].range)
    requires history[i].range.after < p <= history[i].range.through
    ensures TakenAt(history, log, p)
  {
    hide Accepted, TrueToLog, Grounded;
    BeforeIsTrue(history, log, i);
    var j := AcceptedOps(history[..i], history[i].range, log);
    assert history[..i][j] == history[j];
    assert Carries(history[j], p, log[p - 1].op);
  }

  /** Whatever the completed ranges cover was taken by a sink first, as it was published. */
  lemma CompletedMeansTaken(history: History, log: seq<Store.Entry>, start: nat, head: nat, p: nat)
    requires CompletesAfterAcceptance(history) && Chain(Completions(history), start, head)
    requires TrueToLog(history, log) && Grounded(history)
    requires start < p <= head <= |log|
    ensures TakenAt(history, log, p)
  {
    hide Accepted, TrueToLog, Grounded, TakenAt, Completions, Chain;
    var c := ChainCovers(Completions(history), start, head, p);
    var i := CompletionHappened(history, Completions(history)[c]);
    CompletionTook(history, log, i, p);
  }

  lemma BeforeIsTrue(history: History, log: seq<Store.Entry>, i: nat)
    requires TrueToLog(history, log) && Grounded(history) && i <= |history|
    ensures TrueToLog(history[..i], log) && Grounded(history[..i])
  {}

  // --- The account of a route -------------------------------------------------------

  datatype Work = Resubmit | Flush | Complete

  /**
   * What the loop knows at some point: what happened, the ranges that wait for
   * acknowledgement, the sink that has them, whether they were given up, where
   * the route started, its stored head, how far it was read, what is held, and
   * everything that is published.
   */
  datatype View = View(
    history: History,
    waiting: seq<Range>,
    sink: Option<nat>,
    abandoned: bool,
    start: nat,
    head: nat,
    at: nat,
    work: Option<Work>,
    log: seq<Store.Entry>)

  /** Unless they were given up, the waiting ranges lead from the stored head to where reading is. */
  ghost predicate Leads(v: View) {
    && v.at <= |v.log| && v.start <= v.head <= |v.log|
    && (if v.abandoned then v.waiting == [] else Chain(v.waiting, v.head, v.at))
  }

  /** Every waiting range is in the current sink, unless it is about to be dropped. */
  ghost predicate Waits(v: View) {
    && (v.work == Some(Flush) ==> v.sink.Some?)
    && (v.work != Some(Resubmit) && v.sink == None ==> v.waiting == [])
    && (v.work != Some(Resubmit) && v.sink.Some? ==> forall r :: r in v.waiting ==> Emitted(v.sink.value, r) in v.history)
    && (v.work == Some(Complete) ==> forall r :: r in v.waiting ==> Accepted(v.history, r))
  }

  /** The completed ranges lead from the start to the stored head, each taken by a sink first. */
  ghost predicate Recorded(v: View) {
    && CompletesAfterAcceptance(v.history) && Chain(Completions(v.history), v.start, v.head)
    && TrueToLog(v.history, v.log) && Grounded(v.history)
  }

  /** Without strays everything that was read was submitted once, in order. */
  ghost predicate Calm(v: View) {
    Strayed !in v.history ==>
      && !v.abandoned && v.work != Some(Resubmit)
      && v.start <= v.at <= |v.log| && SubmittedOps(v.history) == OpsBetween(v.log, v.start, v.at)
  }

  ghost predicate Balanced(v: View, start: nat) {
    start == v.start && Leads(v) && Waits(v) && Recorded(v) && Calm(v)
  }

  ghost predicate Fine(v: View) {
    exists start :: Balanced(v, start)
  }

  /** The view after one more event. */
  function Noted(v: View, e: Event): View {
    v.(history := v.history + [e])
  }

  lemma NotedEvent(v: View, e: Event)
    requires CompletesAfterAcceptance(v.history) && (e.Completed? ==> Accepted(v.history, e.range))
    requires TrueToLog(v.history, v.log)
    requires e.Submitted? ==> && e.range.after < e.range.through <= |v.log|
                              && e.ops == OpsBetween(v.log, e.range.after, e.range.through)
    requires Grounded(v.history)
    requires e.Emitted? ==> exists ops :: v.history != [] && v.history[|v.history| - 1] == Submitted(e.sink, e.range, ops)
    ensures CompletesAfterAcceptance(Noted(v, e).history) && TrueToLog(Noted(v, e).history, v.log) && Grounded(Noted(v, e).history)
    ensures forall r :: Accepted(v.history, r) ==> Accepted(Noted(v, e).history, r)
    ensures SubmittedOps(Noted(v, e).history) == if e.Submitted? then SubmittedOps(v.history) + e.ops else SubmittedOps(v.history)
    ensures Completions(Noted(v, e).history) == if e.Completed? then Completions(v.history) + [e.range] else Completions(v.history)
  {
    hide CompletesAfterAcceptance, TrueToLog, Grounded, Accepted, SubmittedOps, Completions;
    OrderGrows(v.history, e);
    TruthGrows(v.history, e, v.log);
    GroundGrows(v.history, e);
    CountsGrow(v.history, e);
    forall r | Accepted(v.history, r)
      ensures Accepted(v.history + [e], r)
    {
      AcceptedGrows(v.history, e, r);
    }
  }

  /** The oldest waiting range starts at the stored head. */
  lemma FirstWaits(v: View)
    requires Fine(v) && v.waiting != []
    ensures !v.abandoned && v.waiting[0].after == v.head < v.waiting[0].through <= v.at <= |v.log|
    ensures forall i :: 0 < i < |v.waiting| ==> v.waiting[i] != v.waiting[0]
  {
    forall i | 0 < i < |v.waiting|
      ensures v.waiting[i] != v.waiting[0]
    {
      ChainIsOrdered(v.waiting, v.head, v.at, 0, i);
    }
    ChainIsOrdered(v.waiting, v.head, v.at, 0, 0);
  }

  lemma Completes(v: View)
    requires Fine(v) && v.waiting != [] && v.work == Some(Complete)
    ensures Fine(Noted(v, Completed(v.waiting[0])).(waiting := v.waiting[1..], head := v.waiting[0].through))
  {
    FirstWaits(v);
    var first := v.waiting[0];
    var next := Noted(v, Completed(first)).(waiting := v.waiting[1..], head := first.through);
    assert first in v.waiting;
    NotedEvent(v, Completed(first));
    ChainTail(v.waiting, v.head, v.at);
    ChainSnoc(Completions(v.history), v.start, v.head, first);
    assert Balanced(next, v.start);
  }

  lemma CompletesAll(v: View)
    requires Fine(v) && v.work == Some(Complete) && v.waiting == []
    ensures Fine(v.(work := None))
  {
    assert Balanced(v.(work := None), v.start);
  }

  lemma Strays(v: View)
    requires Fine(v)
    ensures Fine(Noted(v, Strayed).(work := Some(Resubmit)))
  {
    NotedEvent(v, Strayed);
    assert Noted(v, Strayed).history[|v.history|] == Strayed;
    assert Balanced(Noted(v, Strayed).(work := Some(Resubmit)), v.start);
  }

  /** A clean flush accepts everything that waits. */
  lemma FlushesClean(v: View)
    requires Fine(v) && v.work == Some(Flush)
    ensures v.sink.Some? && Fine(Noted(v, Flushed(v.sink.value)).(work := Some(Complete)))
  {
    var next := Noted(v, Flushed(v.sink.value)).(work := Some(Complete));
    NotedEvent(v, Flushed(v.sink.value));
    forall r | r in v.waiting
      ensures Accepted(next.history, r) && Emitted(v.sink.value, r) in next.history
    {
      FlushAccepts(v.history, v.sink.value, r);
    }
    assert Balanced(next, v.start);
  }

  lemma Defers(v: View)
    requires Fine(v) && v.work == Some(Flush)
    ensures Fine(v.(work := None))
  {
    assert Balanced(v.(work := None), v.start);
  }

  /** What waits is given up; what was not completed will be read again. */
  lemma Drops(v: View)
    requires Fine(v) && v.work == Some(Resubmit)
    ensures Fine(v.(waiting := [], sink := None, work := None, abandoned := v.abandoned || v.waiting != []))
  {
    assert Balanced(v.(waiting := [], sink := None, work := None, abandoned := v.abandoned || v.waiting != []), v.start);
  }

  /** Reading goes on where it was, or at the stored head. */
  lemma Rereads(v: View)
    requires Fine(v)
    ensures if v.abandoned then Fine(v.(abandoned := false, at := v.head)) else v.head <= v.at
  {
    if v.abandoned {
      assert Balanced(v.(abandoned := false, at := v.head), v.start);
    } else {
      ChainBounds(v.waiting, v.head, v.at);
    }
  }

  /** A new sink has nothing yet, and nothing waits for it. */
  lemma Opens(v: View, serial: nat)
    requires Fine(v) && v.work == None && v.sink == None
    ensures Fine(v.(sink := Some(serial)))
  {
    assert Balanced(v.(sink := Some(serial)), v.start);
  }

  /** The events of offering a range to a sink. */
  function Offering(v: View, serial: nat, through: nat): Event
    requires v.at <= through <= |v.log|
  {
    Submitted(serial, Range(v.at, through), OpsBetween(v.log, v.at, through))
  }

  /** A delivery was received and the sink took it. */
  lemma Takes(v: View, serial: nat, through: nat)
    requires Fine(v) && v.work == None && !v.abandoned && v.at < through <= |v.log|
    requires v.sink == Some(serial)
    ensures var range := Range(v.at, through);
            Fine(Noted(Noted(v, Offering(v, serial, through)), Emitted(serial, range)).(waiting := v.waiting + [range], at := through, work := Some(Flush)))
  {
    var range := Range(v.at, through);
    var submitted := Noted(v, Offering(v, serial, through));
    var next := Noted(submitted, Emitted(serial, range)).(waiting := v.waiting + [range], at := through, work := Some(Flush));
    NotedEvent(v, Offering(v, serial, through));
    assert submitted.history[|submitted.history| - 1] == Submitted(serial, range, OpsBetween(v.log, v.at, through));
    NotedEvent(submitted, Emitted(serial, range));
    ChainSnoc(v.waiting, v.head, v.at, range);
    if Strayed !in next.history {
      StrayedBefore(v.history, next.history);
      OpsBetweenBoth(v.log, v.start, v.at, through);
    }
    TakenWaits(v, next, serial, range);
    assert Balanced(next, v.start);
  }

  lemma StrayedBefore(history: History, later: History)
    requires history <= later && Strayed !in later
    ensures Strayed !in history
  {
    forall i | 0 <= i < |history|
      ensures history[i] != Strayed
    {
      assert history[i] == later[i] && later[i] in later;
    }
  }

  lemma TakenWaits(v: View, next: View, serial: nat, range: Range)
    requires Waits(v) && v.work == None && (v.sink.Some? ==> v.sink == Some(serial))
    requires v.history <= next.history && Emitted(serial, range) in next.history
    requires next.waiting == v.waiting + [range] && next.sink == Some(serial) && next.work == Some(Flush)
    ensures Waits(next)
  {
    forall r | r in next.waiting
      ensures Emitted(serial, r) in next.history
    {
      if r in v.waiting {
        var i :| 0 <= i < |v.history| && v.history[i] == Emitted(serial, r);
        assert next.history[i] == Emitted(serial, r);
      }
    }
  }

  /** A delivery was received and refused. */
  lemma Refuses(v: View, serial: nat, through: nat)
    requires Fine(v) && v.work == None && !v.abandoned && v.at < through <= |v.log|
    ensures var range := Range(v.at, through);
            Fine(Noted(Noted(v, Offering(v, serial, through)), Strayed).(waiting := v.waiting + [range], at := through, work := Some(Resubmit)))
  {
    var submitted := Noted(v, Offering(v, serial, through));
    NotedEvent(v, Offering(v, serial, through));
    GivesUp(submitted, through);
  }

  /** A delivery was received and nothing took it. */
  lemma Unserves(v: View, through: nat)
    requires Fine(v) && v.work == None && !v.abandoned && v.at < through <= |v.log|
    ensures var range := Range(v.at, through);
            Fine(Noted(v, Strayed).(waiting := v.waiting + [range], at := through, work := Some(Resubmit)))
  {
    GivesUp(v, through);
  }

  lemma GivesUp(v: View, through: nat)
    requires Leads(v) && Recorded(v) && !v.abandoned && v.at < through <= |v.log|
    ensures var range := Range(v.at, through);
            Fine(Noted(v, Strayed).(waiting := v.waiting + [range], at := through, work := Some(Resubmit)))
  {
    var range := Range(v.at, through);
    NotedEvent(v, Strayed);
    ChainSnoc(v.waiting, v.head, v.at, range);
    var next := Noted(v, Strayed).(waiting := v.waiting + [range], at := through, work := Some(Resubmit));
    assert next.history[|v.history|] == Strayed;
    assert Balanced(next, v.start);
  }

  /** The daemon stopped and started again: what waited is read again from the stored head. */
  lemma Restarts(v: View)
    requires Fine(v)
    ensures Fine((if v.waiting != [] then Noted(v, Strayed) else v).(waiting := [], sink := None, abandoned := false, at := v.head, work := None))
  {
    NotedEvent(v, Strayed);
    var next := (if v.waiting != [] then Noted(v, Strayed) else v).(waiting := [], sink := None, abandoned := false, at := v.head, work := None);
    if v.waiting != [] {
      assert next.history[|v.history|] == Strayed;
    }
    assert Balanced(next, v.start);
  }

  /** More was published meanwhile. */
  lemma PublishedMeanwhile(v: View, log: seq<Store.Entry>)
    requires Fine(v) && v.log <= log
    ensures Fine(v.(log := log))
  {
    TrueLater(v.history, v.log, log);
    if Strayed !in v.history {
      OpsBetweenLater(v.log, log, v.start, v.at);
    }
    assert Balanced(v.(log := log), v.start);
  }

  /** What an account says about the route. */
  lemma FineMeans(v: View)
    requires Fine(v)
    ensures v.start <= v.head <= |v.log| && Chain(Completions(v.history), v.start, v.head)
    ensures CompletesAfterAcceptance(v.history) && TrueToLog(v.history, v.log) && Grounded(v.history)
    ensures forall p :: v.start < p <= v.head ==> TakenAt(v.history, v.log, p)
    ensures Strayed !in v.history ==> v.head <= v.at <= |v.log| && SubmittedOps(v.history) == OpsBetween(v.log, v.start, v.at)
  {
    forall p | v.start < p <= v.head
      ensures TakenAt(v.history, v.log, p)
    {
      CompletedMeansTaken(v.history, v.log, v.start, v.head, p);
    }
    if !v.abandoned {
      ChainBounds(v.waiting, v.head, v.at);
    }
  }

  // --- Sinks --------------------------------------------------------------------

  datatype FlushResult = Delivered | LedgerFailed | Rejected

  /** The route's sink; what it decides is the environment's choice. */
  class Sink {
    const serial: nat
    var deferring: bool
    /** The last batch that was handed over. */
    ghost var given: seq<SpanOp>
    /** That batch was taken. */
    ghost var took: bool
    /** The last call was a flush that succeeded and left nothing deferred. */
    ghost var clean: bool
    /** How the last flush went. */
    ghost var flushed: FlushResult

    constructor (serial: nat)
      ensures this.serial == serial && !took && !clean
    {
      this.serial, deferring, given, took, clean, flushed := serial, false, [], false, false, Delivered;
    }

    method Emit(ops: seq<SpanOp>) returns (ok: bool)
      modifies this
      ensures given == ops && took == ok && !clean
    {
      ok := *;
      deferring := *;
      given, took, clean := ops, ok, false;
    }

    method Flush() returns (r: FlushResult)
      modifies this
      ensures flushed == r && (clean <==> r.Delivered? && !deferring)
    {
      deferring := *;
      var rejected: bool := *;
      var unsaved: bool := *;
      r := if rejected then Rejected else if unsaved then LedgerFailed else Delivered;
      flushed, clean := r, r.Delivered? && !deferring;
    }
  }

  // --- The loop -------------------------------------------------------------------

  function RangeOf(c: HeadCompletion): Range {
    Range(c.expected, c.through)
  }

  function Ranges(pending: seq<HeadCompletion>): (r: seq<Range>)
    ensures |r| == |pending| && forall i :: 0 <= i < |r| ==> r[i] == RangeOf(pending[i])
  {
    seq(|pending|, i requires 0 <= i < |pending| => RangeOf(pending[i]))
  }

  class Consumer {
    const journal: Journal
    const route: Store.Route
    var cursor: Cursor
    var pending: seq<HeadCompletion>
    var sink: Sink?
    var held: Option<Work>
    var sinks: nat
    /** The stored head when the route was first attached. */
    ghost const start: nat
    ghost var history: History

    /** The cursor is the only reader of its route: what it knows as acknowledged is the stored head. */
    ghost predicate AttachedAt(head: nat)
      reads this, cursor, cursor.tracker, cursor.live, journal, journal.live, journal.live.routes
    {
      && cursor.journal == journal && cursor.route == route
      && cursor.Valid() && cursor.Sole() && journal.db.heads[route] == head
    }

    ghost predicate Attached()
      reads this, cursor, cursor.tracker, cursor.live, journal, journal.live, journal.live.routes
    {
      exists head :: AttachedAt(head)
    }

    ghost predicate Owed(c: HeadCompletion)
      reads this, cursor, c
    {
      c.journal == journal && c.route == route && c.live == cursor.live && c.tracker == cursor.tracker && !c.acknowledged
    }

    ghost predicate AllOwed()
      reads this, cursor, pending
    {
      forall c :: c in pending ==> Owed(c)
    }

    ghost function ViewOf(work: Option<Work>, at: nat): View
      reads this, cursor, cursor.tracker, journal
      requires route in journal.db.heads
    {
      View(history, Ranges(pending), if sink == null then None else Some(sink.serial), cursor.tracker.abandoned,
           start, journal.db.heads[route], at, work, journal.log)
    }

    ghost predicate Consistent(work: Option<Work>, at: nat)
      reads this, cursor, cursor.tracker, cursor.live, journal, journal.live, journal.live.routes, pending
    {
      Attached() && AllOwed() && Fine(ViewOf(work, at))
    }

    ghost predicate Valid()
      reads this, cursor, cursor.tracker, cursor.live, journal, journal.live, journal.live.routes, pending
    {
      Consistent(held, cursor.read)
    }

    constructor (journal: Journal, route: Store.Route, cursor: Cursor)
      requires cursor.journal == journal && cursor.route == route && cursor.Valid() && cursor.Sole()
      requires !cursor.tracker.abandoned && cursor.read == journal.db.heads[route]
      ensures Valid() && this.journal == journal && this.route == route && this.cursor == cursor
      ensures history == [] && start == journal.db.heads[route] && sink == null && pending == [] && held == None
    {
      this.journal, this.route, this.cursor := journal, route, cursor;
      pending, sink, held, sinks := [], null, None, 0;
      start, history := journal.db.heads[route], [];
      new;
      assert AttachedAt(start);
      assert Balanced(ViewOf(None, start), start);
    }

    /** What a call of a sink or a head write decided; nothing else may be noted. */
    ghost method Note(e: Event, c: HeadCompletion?)
      requires e.Emitted? ==> && sink != null && e.sink == sink.serial && sink.took
                              && history != [] && history[|history| - 1] == Submitted(e.sink, e.range, sink.given)
      requires e.Flushed? ==> sink != null && e.sink == sink.serial && sink.clean
      requires e.Completed? ==> c != null && c.acknowledged && e.range == RangeOf(c)
      modifies this`history
      ensures history == old(history) + [e]
    {
      history := history + [e];
    }

    /** Acknowledge one delivery: nothing but its head write can come of it. */
    method Settle(delivery: HeadCompletion) returns (saved: bool)
      requires Attached() && AllOwed() && Owed(delivery) && delivery !in pending
      requires delivery.through <= |journal.log| && journal.db.heads[route] < delivery.through
      modifies delivery`acknowledged, cursor.tracker`progress, journal`db
      ensures Attached() && AllOwed() && route in journal.db.heads
      ensures if saved then delivery.acknowledged && journal.db.heads[route] == delivery.through
              else Owed(delivery) && journal.db.heads[route] == old(journal.db.heads[route])
      ensures Store.OnlyHeads(old(journal.db), journal.db)
    {
      hide Balanced;
      ghost var head :| AttachedAt(head);
      Store.NoHeads(journal.db);
      saved := delivery.Complete();
      if saved {
        Store.CompleteMovesHeads(old(journal.db), route, delivery.expected, delivery.through);
        Store.CompleteKeeps(old(journal.db), journal.log, route, delivery.expected, delivery.through);
      }
      assert AttachedAt(journal.db.heads[route]);
    }

    /** Take the oldest delivery out of the queue. */
    method PopFirst(ghost at: nat) returns (delivery: HeadCompletion)
      requires Consistent(Some(Complete), at) && pending != []
      modifies this`pending
      ensures Attached() && AllOwed() && Owed(delivery) && delivery !in pending
      ensures old(pending) == [delivery] + pending
      ensures route in journal.db.heads && delivery.through <= |journal.log| && journal.db.heads[route] < delivery.through
    {
      hide Balanced;
      ghost var v := ViewOf(Some(Complete), at);
      ghost var head :| AttachedAt(head);
      FirstWaits(v);
      delivery := pending[0];
      assert delivery in pending && RangeOf(delivery) == v.waiting[0];
      forall c | c in pending[1..]
        ensures c != delivery && c in pending
      {
        var i :| 0 < i < |pending| && pending[i] == c;
        assert v.waiting[i] == RangeOf(c);
      }
      pending := pending[1..];
      assert AttachedAt(head);
      forall c | c in pending
        ensures Owed(c)
      {
        assert old(Owed(c));
      }
      assert old(Owed(delivery));
    }

    /** A failed head write keeps the delivery at the front. */
    method AcknowledgeFirst(ghost at: nat) returns (saved: bool)
      requires Consistent(Some(Complete), at) && pending != []
      modifies this`pending, this`history, pending, cursor.tracker`progress, journal`db
      ensures Consistent(Some(Complete), at)
      ensures pending == if saved then old(pending)[1..] else old(pending)
      ensures history == if saved then old(history) + [Completed(RangeOf(old(pending)[0]))] else old(history)
      ensures Store.OnlyHeads(old(journal.db), journal.db)
    {
      hide Balanced, Fine, AllOwed, Cursor.Valid, Store.OnlyHeads;
      ghost var v := ViewOf(Some(Complete), at);
      Completes(v);
      var delivery := PopFirst(at);
      assert Ranges(pending) == v.waiting[1..] && RangeOf(delivery) == v.waiting[0];
      saved := Settle(delivery);
      if saved {
        Acknowledged(delivery, at, v);
      } else {
        PutBack(delivery, at, v);
      }
    }

    ghost method Acknowledged(delivery: HeadCompletion, at: nat, v: View)
      requires Attached() && AllOwed() && delivery.acknowledged
      requires v.waiting != [] && RangeOf(delivery) == v.waiting[0] && Ranges(pending) == v.waiting[1..]
      requires ViewOf(Some(Complete), at) == v.(waiting := v.waiting[1..], head := v.waiting[0].through)
      requires Fine(Noted(v, Completed(v.waiting[0])).(waiting := v.waiting[1..], head := v.waiting[0].through))
      modifies this`history
      ensures history == old(history) + [Completed(RangeOf(delivery))]
      ensures Consistent(Some(Complete), at)
    {
      hide Balanced;
      ghost var head :| AttachedAt(head);
      Note(Completed(RangeOf(delivery)), delivery);
      assert AttachedAt(head);
      assert forall c :: c in pending ==> old(Owed(c)) ==> Owed(c);
      assert ViewOf(Some(Complete), at) == Noted(v, Completed(v.waiting[0])).(waiting := v.waiting[1..], head := v.waiting[0].through);
    }

    method PutBack(delivery: HeadCompletion, ghost at: nat, ghost v: View)
      requires Attached() && AllOwed() && Owed(delivery)
      requires v.waiting == [RangeOf(delivery)] + Ranges(pending) && Fine(v)
      requires ViewOf(Some(Complete), at) == v.(waiting := Ranges(pending))
      modifies this`pending
      ensures pending == [delivery] + old(pending)
      ensures Consistent(Some(Complete), at)
    {
      hide Balanced;
      ghost var head :| AttachedAt(head);
      pending := [delivery] + pending;
      assert AttachedAt(head);
      assert forall c :: c in pending ==> old(Owed(c)) ==> Owed(c);
      assert Ranges(pending) == v.waiting;
      assert ViewOf(Some(Complete), at) == v;
    }

    /** Whatever changes in this loop alone, the cursor stays attached. */
    twostate lemma StillAttached()
      requires old(Attached()) && cursor == old(cursor)
      requires unchanged(cursor, cursor.tracker, cursor.live, journal, journal.live)
      requires forall r <- journal.live.routes :: unchanged(r)
      ensures Attached()
    {
      ghost var head :| old(AttachedAt(head));
      assert AttachedAt(head);
    }

    twostate lemma StillOwed()
      requires old(AllOwed()) && cursor == old(cursor) && unchanged(cursor)
      requires pending == old(pending) && forall c :: c in pending ==> unchanged(c)
      ensures AllOwed()
    {
      forall c | c in pending
        ensures Owed(c)
      {
        assert old(Owed(c));
      }
    }

    /** Acknowledge what is waiting, oldest first. */
    method Acknowledge(ghost at: nat) returns (next: Option<Work>)
      requires Consistent(Some(Complete), at)
      modifies this`pending, this`history, pending, cursor.tracker`progress, journal`db
      ensures Consistent(next, at) && next in {None, Some(Complete)} && old(history) <= history
      ensures next == None ==> pending == []
      ensures forall c :: c in pending ==> c in old(pending)
      ensures Store.OnlyHeads(old(journal.db), journal.db)
    {
      hide Balanced;
      ghost var k := 0;
      Store.NoHeads(journal.db);
      while pending != []
        invariant Consistent(Some(Complete), at) && old(history) <= history
        invariant 0 <= k <= |old(pending)| && pending == old(pending)[k..]
        invariant Store.OnlyHeads(old(journal.db), journal.db)
        decreases |pending|
      {
        ghost var db := journal.db;
        assert forall c :: c in pending ==> c in old(pending);
        var saved := AcknowledgeFirst(at);
        Store.OnlyHeadsTwice(old(journal.db), db, journal.db);
        if !saved {
          return Some(Complete);
        }
        k := k + 1;
      }
      CompletesAll(ViewOf(Some(Complete), at));
      return None;
    }

    /** Let go of every delivery, which asks for a replay if there is one. */
    method LetGo()
      requires Attached() && AllOwed()
      modifies this`pending, this`sink, cursor.live`paused, cursor.tracker`abandoned
      ensures Attached() && AllOwed() && pending == [] && sink == null
      ensures cursor.tracker.abandoned == (old(cursor.tracker.abandoned) || old(pending) != [])
    {
      hide Balanced;
      ghost var head :| AttachedAt(head);
      sink := null;
      while pending != []
        invariant AttachedAt(head) && AllOwed() && sink == null
        invariant cursor.tracker.abandoned == (old(cursor.tracker.abandoned) || |pending| < |old(pending)|)
        invariant |pending| <= |old(pending)|
        decreases |pending|
      {
        var delivery := pending[0];
        assert Owed(delivery);
        ghost var before := pending;
        pending := pending[1..];
        assert forall c :: c in pending ==> c in before;
        delivery.Drop();
      }
    }

    /** Give up: the sink goes, and with it everything that waits. */
    method Abandon(ghost at: nat)
      requires Consistent(Some(Resubmit), at)
      modifies this`pending, this`sink, cursor.live`paused, cursor.tracker`abandoned
      ensures Consistent(None, at) && pending == [] && sink == null
    {
      hide Balanced;
      ghost var v := ViewOf(Some(Resubmit), at);
      Drops(v);
      LetGo();
      assert ViewOf(None, at) == v.(waiting := [], sink := None, work := None, abandoned := v.abandoned || v.waiting != []);
    }

    /** Only a flush that succeeded and left nothing deferred lets deliveries be completed. */
    method FlushSink(ghost at: nat) returns (next: Option<Work>)
      requires Consistent(Some(Flush), at) && sink != null
      modifies this`history, sink
      ensures Consistent(next, at)
      ensures match next
              case None => history == old(history)
              case Some(Flush) => history == old(history)
              case Some(Resubmit) => history == old(history) + [Strayed]
              case Some(Complete) => history == old(history) + [Flushed(sink.serial)]
      ensures match sink.flushed
              case LedgerFailed => next == Some(Flush)
              case Rejected => next == Some(Resubmit)
              case Delivered => next == if sink.deferring then None else Some(Complete)
    {
      hide Balanced;
      ghost var v := ViewOf(Some(Flush), at);
      var result := sink.Flush();
      match result {
        case LedgerFailed =>
          next := Some(Flush);
        case Rejected =>
          Strays(v);
          Note(Strayed, null);
          next := Some(Resubmit);
          assert ViewOf(next, at) == Noted(v, Strayed).(work := next);
        case Delivered =>
          if sink.deferring {
            Defers(v);
            next := None;
            assert ViewOf(next, at) == v.(work := next);
          } else {
            FlushesClean(v);
            Note(Flushed(sink.serial), null);
            next := Some(Complete);
            assert ViewOf(next, at) == Noted(v, Flushed(sink.serial)).(work := next);
          }
      }
      StillAttached();
      StillOwed();
    }

    /** Flush, and acknowledge what the flush settled. */
    method FlushAndAcknowledge(ghost at: nat) returns (next: Option<Work>)
      requires Consistent(Some(Flush), at) && sink != null
      modifies this`pending, this`history, sink, pending, cursor.tracker`progress, journal`db
      ensures Consistent(next, at)
      ensures next in {Some(Flush), Some(Resubmit)} ==> pending == old(pending)
      ensures forall c :: c in pending ==> c in old(pending)
      ensures Store.OnlyHeads(old(journal.db), journal.db)
      ensures (next == Some(Flush) <==> sink.flushed.LedgerFailed?) && (next == Some(Resubmit) <==> sink.flushed.Rejected?)
    {
      hide Balanced;
      Store.NoHeads(journal.db);
      next := FlushSink(at);
      if next == Some(Complete) {
        next := Acknowledge(at);
      }
    }

    /** Do what is left of a delivery: `Some` is what still has to be retried. */
    method Finish(work: Work, ghost at: nat) returns (next: Option<Work>)
      requires Consistent(Some(work), at) && (work.Flush? ==> sink != null)
      modifies this`pending, this`sink, this`history, sink, pending,
               cursor.tracker`progress, cursor.tracker`abandoned, cursor.live`paused, journal`db
      ensures Consistent(next, at)
      ensures sink == if work.Resubmit? then null else old(sink)
      ensures work.Resubmit? ==> next == None && pending == [] && history == old(history)
      ensures work.Complete? ==> next in {None, Some(Complete)} && (next == None ==> pending == [])
      ensures work.Flush? && next in {Some(Flush), Some(Resubmit)} ==> pending == old(pending)
      ensures work.Flush? ==> (next == Some(Flush) <==> sink.flushed.LedgerFailed?) && (next == Some(Resubmit) <==> sink.flushed.Rejected?)
      ensures forall c :: c in pending ==> c in old(pending)
      ensures Store.OnlyHeads(old(journal.db), journal.db)
    {
      hide Balanced;
      if work.Resubmit? {
        Store.NoHeads(journal.db);
        Abandon(at);
        next := None;
      } else if work.Flush? {
        next := FlushAndAcknowledge(at);
      } else {
        next := Acknowledge(at);
      }
    }

    /** A received delivery that nobody has seen yet: exactly what was published after `at`. */
    ghost predicate Arrived(d: Delivery, at: nat)
      reads this, cursor, cursor.tracker, journal, pending, d.completion
    {
      && !cursor.tracker.abandoned && d.completion !in pending && Owed(d.completion)
      && d.completion.expected == at && d.completion.through == cursor.read
      && Continues(d.records, at, cursor.read, journal.log)
    }

    /** Take the next delivery from the cursor, if there is one. */
    method Receive() returns (r: Result<Option<Delivery>>, ghost at: nat)
      requires Consistent(None, cursor.read)
      modifies cursor, cursor.live, cursor.tracker, journal`replay
      ensures Consistent(None, at)
      ensures if r.Ok? && r.value.Some? then Arrived(r.value.value, at) && fresh(r.value.value.completion) else at == cursor.read
    {
      hide Balanced;
      ghost var v := ViewOf(None, cursor.read);
      ghost var head :| AttachedAt(head);
      ghost var base := cursor.Base();
      Rereads(v);
      r := cursor.Receive();
      at := if r.Ok? && r.value.Some? then base else cursor.read;
      assert AttachedAt(head);
      assert forall c :: c in pending ==> old(Owed(c)) ==> Owed(c);
      assert ViewOf(None, at) == if v.abandoned && !cursor.tracker.abandoned then v.(abandoned := false, at := v.head) else v;
    }

    method OpenSink() returns (ok: bool)
      requires sink == null
      modifies this`sink, this`sinks
      ensures if ok then sink != null && fresh(sink) else sink == null
    {
      ok := *;
      if ok {
        sink := new Sink(sinks);
        sinks := sinks + 1;
      }
    }

    /** Wait for one more delivery. */
    method Push(delivery: HeadCompletion, ghost at: nat, ghost work: Option<Work>, ghost v: View)
      requires Attached() && AllOwed() && Owed(delivery)
      requires Fine(v) && v == ViewOf(work, at).(waiting := Ranges(pending) + [RangeOf(delivery)])
      modifies this`pending
      ensures pending == old(pending) + [delivery] && Consistent(work, at)
    {
      hide Balanced;
      ghost var head :| AttachedAt(head);
      pending := pending + [delivery];
      assert AttachedAt(head);
      assert forall c :: c in pending ==> old(Owed(c)) ==> Owed(c);
      assert Ranges(pending) == v.waiting;
      assert ViewOf(work, at) == v;
    }

    /** No sink could be made for a delivery. */
    method Unserved(d: Delivery, ghost at: nat)
      requires Consistent(None, at) && Arrived(d, at)
      modifies this`pending, this`history
      ensures Consistent(Some(Resubmit), cursor.read)
      ensures pending == old(pending) + [d.completion] && history == old(history) + [Strayed]
    {
      hide Balanced;
      ghost var v := ViewOf(None, at);
      Unserves(v, cursor.read);
      Note(Strayed, null);
      StillAttached();
      StillOwed();
      Push(d.completion, cursor.read, Some(Resubmit),
           Noted(v, Strayed).(waiting := v.waiting + [Range(at, cursor.read)], at := cursor.read, work := Some(Resubmit)));
    }

    /** Offer a delivery to the sink, which takes it or not. */
    method Offer(d: Delivery, ghost at: nat) returns (ok: bool)
      requires Consistent(None, at) && Arrived(d, at) && sink != null
      modifies this`history, sink
      ensures Attached() && AllOwed() && Arrived(d, at)
      ensures sink.given == OpsOf(d.records) && (ok ==> sink.took)
      ensures history == old(history) + [Submitted(sink.serial, RangeOf(d.completion), OpsOf(d.records))]
    {
      var ops := OpsOf(d.records);
      Note(Submitted(sink.serial, RangeOf(d.completion), ops), null);
      ok := sink.Emit(ops);
      StillAttached();
      StillOwed();
    }

    /** Submit one received delivery, and say what has to be done for it next. */
    method Submit(d: Delivery, ghost at: nat) returns (work: Work)
      requires Consistent(None, at) && Arrived(d, at) && sink != null
      modifies this`pending, this`history, sink
      ensures Consistent(Some(work), cursor.read) && work in {Flush, Resubmit}
      ensures pending == old(pending) + [d.completion]
      ensures history == old(history) + [Submitted(sink.serial, RangeOf(d.completion), OpsOf(d.records))]
                         + [if work.Flush? then Emitted(sink.serial, RangeOf(d.completion)) else Strayed]
    {
      hide Balanced;
      ghost var v, through := ViewOf(None, at), cursor.read;
      AreBetween(d.records, at, through, journal.log);
      var ok := Offer(d, at);
      label offered:
      work := if ok then Flush else Resubmit;
      ghost var outcome := if ok then Emitted(sink.serial, RangeOf(d.completion)) else Strayed;
      if ok {
        Takes(v, sink.serial, through);
      } else {
        Refuses(v, sink.serial, through);
      }
      Note(outcome, null);
      StillAttached@offered();
      StillOwed@offered();
      Push(d.completion, through, Some(work),
           Noted(Noted(v, Offering(v, sink.serial, through)), outcome).(waiting := v.waiting + [Range(at, through)], at := through, work := Some(work)));
    }

    /** A sink for the next delivery, if one can be made. */
    method Prepare(ghost at: nat) returns (ok: bool)
      requires Consistent(None, at)
      modifies this`sink, this`sinks
      ensures Consistent(None, at) && ok == (sink != null)
      ensures sink == old(sink) || (old(sink) == null && fresh(sink))
    {
      hide Balanced;
      ghost var v := ViewOf(None, at);
      ok := true;
      if sink == null {
        ok := OpenSink();
        StillAttached();
        StillOwed();
        if ok {
          Opens(v, sink.serial);
          assert ViewOf(None, at) == v.(sink := Some(sink.serial));
        } else {
          assert ViewOf(None, at) == v;
        }
      }
    }

    /** Submit a received delivery and go on with its flush. */
    method Deliver(d: Delivery, ghost at: nat) returns (next: Option<Work>)
      requires Consistent(None, at) && Arrived(d, at) && sink != null
      modifies this`pending, this`history, sink, pending, d.completion, cursor.tracker`progress, journal`db
      ensures Consistent(next, d.completion.through) && cursor.read == d.completion.through
      ensures Store.OnlyHeads(old(journal.db), journal.db)
      ensures forall c :: c in pending ==> c in old(pending) || c == d.completion
    {
      hide Balanced;
      Store.NoHeads(journal.db);
      var work := Submit(d, at);
      next := Some(work);
      if work.Flush? {
        next := FlushAndAcknowledge(d.completion.through);
      }
    }

    /** Hand a received delivery to a sink, if there can be one. */
    method Serve(d: Delivery, ghost at: nat) returns (next: Option<Work>)
      requires Consistent(None, at) && Arrived(d, at)
      modifies this`pending, this`sink, this`sinks, this`history, sink, pending, d.completion, cursor.tracker`progress, journal`db
      ensures Consistent(next, cursor.read)
      ensures Store.OnlyHeads(old(journal.db), journal.db)
      ensures sink == old(sink) || (old(sink) == null && fresh(sink))
      ensures forall c :: c in pending ==> c in old(pending) || c == d.completion
    {
      hide Balanced;
      var ready := Prepare(at);
      assert Arrived(d, at);
      if ready {
        next := Deliver(d, at);
      } else {
        Store.NoHeads(journal.db);
        Unserved(d, at);
        next := Some(Resubmit);
      }
    }

    /** Go on with what is held. */
    method Retry()
      requires Valid() && held.Some?
      modifies this`pending, this`sink, this`held, this`history, sink, pending, cursor.tracker, cursor.live, journal`db
      ensures Valid()
      ensures Store.OnlyHeads(old(journal.db), journal.db)
      ensures sink == null || sink == old(sink)
      ensures forall c :: c in pending ==> c in old(pending)
    {
      hide Balanced;
      if held == Some(Flush) {
        HasSink(ViewOf(held, cursor.read));
      }
      var next := Finish(held.value, cursor.read);
      Hold(next);
    }

    /** Wait for the input once. */
    method Poll()
      requires Valid() && held == None
      modifies this`pending, this`sink, this`sinks, this`held, this`history, sink, pending,
               cursor, cursor.tracker, cursor.live, journal`db, journal`replay
      ensures Valid()
      ensures Store.OnlyHeads(old(journal.db), journal.db)
      ensures sink == old(sink) || (old(sink) == null && fresh(sink))
      ensures forall c :: c in pending ==> c in old(pending) || fresh(c)
    {
      hide Balanced;
      Store.NoHeads(journal.db);
      var received, at := Receive();
      if received.Err? {
        Stray(at);
        return;
      }
      if received.value.None? {
        Hold(None);
        return;
      }
      var next := Serve(received.value.value, at);
      Hold(next);
    }

    /** One turn of the loop, whatever the input, the sink and storage do. */
    method Turn()
      requires Valid()
      modifies this`pending, this`sink, this`sinks, this`held, this`history, sink, pending,
               cursor, cursor.tracker, cursor.live, journal`db, journal`replay
      ensures Valid()
      ensures Store.OnlyHeads(old(journal.db), journal.db)
      ensures sink == null || sink == old(sink) || fresh(sink)
      ensures forall c :: c in pending ==> c in old(pending) || fresh(c)
    {
      hide Balanced;
      Store.NoHeads(journal.db);
      var idle: bool := *;
      if idle {
        return;
      }
      if held.Some? {
        Retry();
      } else {
        Poll();
      }
    }

    method Hold(next: Option<Work>)
      requires Consistent(next, cursor.read)
      modifies this`held
      ensures held == next && Valid()
    {
      hide Balanced;
      held := next;
      StillAttached();
      StillOwed();
    }

    /** The input failed: everything that waits will be read again. */
    method Stray(ghost at: nat)
      requires Consistent(None, at) && at == cursor.read
      modifies this`held, this`history
      ensures Valid() && held == Some(Resubmit) && history == old(history) + [Strayed]
    {
      hide Balanced;
      ghost var v := ViewOf(None, at);
      Strays(v);
      Note(Strayed, null);
      held := Some(Resubmit);
      StillAttached();
      StillOwed();
      assert ViewOf(held, at) == Noted(v, Strayed).(work := held);
    }

    /** A new cursor at the stored head, over a journal that has nothing in memory. */
    method Reattach()
      requires Attached()
      modifies this`cursor, journal`changed, journal`replay, journal`db, journal.live
      ensures Attached() && fresh(cursor) && fresh(cursor.tracker) && fresh(cursor.live)
      ensures journal.live.routes == old(journal.live.routes) + [cursor.live]
      ensures route in journal.db.heads && journal.db == old(journal.db)
      ensures !cursor.tracker.abandoned && cursor.read == journal.db.heads[route]
    {
      hide Balanced;
      ghost var head :| AttachedAt(head);
      journal.Reopen();
      var live, position := journal.Subscribe(route, 0);
      cursor := new Cursor(journal, live, route, position);
      assert AttachedAt(head);
    }

    /** The daemon stopped anywhere and started again; only what is stored remains. */
    method Restart()
      requires Valid()
      modifies this`cursor, this`pending, this`sink, this`held, this`history, journal`changed, journal`replay, journal`db, journal.live
      ensures Valid() && held == None && pending == [] && sink == null && fresh(cursor) && fresh(cursor.tracker) && fresh(cursor.live)
      ensures journal.live.routes == old(journal.live.routes) + [cursor.live]
      ensures journal.db == old(journal.db)
      ensures history == if old(pending) != [] then old(history) + [Strayed] else old(history)
    {
      hide Balanced;
      ghost var v := ViewOf(held, cursor.read);
      Restarts(v);
      Reattach();
      label attached:
      ghost var next := (if v.waiting != [] then Noted(v, Strayed) else v).(waiting := [], sink := None, abandoned := false, at := v.head, work := None);
      if pending != [] {
        Note(Strayed, null);
      }
      pending, sink, held := [], null, None;
      StillAttached@attached();
      assert ViewOf(held, cursor.read) == next;
    }

    /** What others do leaves this loop as it is, as long as they leave its head alone. */
    twostate lemma Undisturbed()
      requires old(Valid()) && unchanged(this)
      requires unchanged(cursor)
      requires unchanged(cursor.tracker)
      requires forall c <- pending :: unchanged(c)
      requires journal.Valid() && old(journal.log) <= journal.log && old(journal.live.routes) <= journal.live.routes
      requires route in journal.db.heads && journal.db.heads[route] == old(journal.db.heads[route])
      ensures Valid()
    {
      hide Balanced;
      ghost var head :| old(AttachedAt(head));
      ghost var log := old(journal.log);
      assert journal.log == log + journal.log[|log|..];
      if cursor.queued.Some? {
        Live.FaithfulGrows([cursor.queued.value], log, journal.log[|log|..]);
      }
      assert AttachedAt(head);
      StillOwed();
      PublishedMeanwhile(old(ViewOf(held, cursor.read)), journal.log);
      assert ViewOf(held, cursor.read) == old(ViewOf(held, cursor.read)).(log := journal.log);
    }
  }

  lemma HasSink(v: View)
    requires Fine(v) && v.work == Some(Flush)
    ensures v.sink.Some?
  {}

  function OpsOf(records: seq<Live.Record>): (r: seq<SpanOp>)
    ensures |r| == |records| && forall i :: 0 <= i < |r| ==> r[i] == records[i].op
  {
    seq(|records|, i requires 0 <= i < |records| => records[i].op)
  }

  lemma AreBetween(records: seq<Live.Record>, after: nat, through: nat, log: seq<Store.Entry>)
    requires Continues(records, after, through, log)
    ensures OpsOf(records) == OpsBetween(log, after, through)
  {}
}
