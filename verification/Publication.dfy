/**
 * Publication of translated operations. A source worker turns journaled
 * records into operations, holds deferred roots, appends what is ready in
 * chunks and commits each record. It may stop between any two transactions,
 * or lose the acknowledgement of one, and starts again from the tables.
 */
module Publication {
  import opened Wrappers
  import opened Spans
  import opened Store
  import Roots

  /** One source record with the operations its translator derives from it. */
  datatype Record = Record(input: nat, observation: bool, ops: seq<SpanOp>)

  type Plan = seq<Record>

  ghost predicate Ordered(plan: Plan) {
    forall i, j :: 0 <= i < j < |plan| ==> plan[i].input < plan[j].input
  }

  // --- What a run without failures publishes ---------------------------------

  function PendingAt(plan: Plan, k: nat): Roots.Pending
    requires k <= |plan|
  {
    if k == 0 then map[] else Roots.Process(PendingAt(plan, k - 1), plan[k - 1].ops).pending
  }

  function Output(plan: Plan, k: nat): seq<SpanOp>
    requires k < |plan|
  {
    Roots.Process(PendingAt(plan, k), plan[k].ops).ready
  }

  function Entries(record: Record, ops: seq<SpanOp>): (r: seq<Entry>)
    ensures |r| == |ops|
    ensures forall i :: 0 <= i < |ops| ==> r[i] == Entry(record.input, record.observation, ops[i])
  {
    seq(|ops|, i requires 0 <= i < |ops| => Entry(record.input, record.observation, ops[i]))
  }

  /** The history after the first `k` records. */
  function LogOf(plan: Plan, k: nat): seq<Entry>
    requires k <= |plan|
  {
    if k == 0 then [] else LogOf(plan, k - 1) + Entries(plan[k - 1], Output(plan, k - 1))
  }

  lemma {:induction false} LogGrows(plan: Plan, j: nat, k: nat)
    requires j <= k <= |plan|
    ensures LogOf(plan, j) <= LogOf(plan, k)
    decreases k
  {
    if j < k {
      LogGrows(plan, j, k - 1);
    }
  }

  /** Everything that the first `k` records translate to. */
  function Derived(plan: Plan, k: nat): seq<SpanOp>
    requires k <= |plan|
  {
    if k == 0 then [] else Derived(plan, k - 1) + plan[k - 1].ops
  }

  /** The operation of each entry. */
  ghost predicate Carries(log: seq<Entry>, ops: seq<SpanOp>) {
    |log| == |ops| && forall i :: 0 <= i < |log| ==> log[i].op == ops[i]
  }

  lemma CarriesNothing()
    ensures Carries([], [])
  {}

  lemma CarriesMore(log: seq<Entry>, ops: seq<SpanOp>, record: Record, more: seq<SpanOp>)
    requires Carries(log, ops)
    ensures Carries(log + Entries(record, more), ops + more)
  {}

  /**
   * The history is what the root stage passes of everything that is
   * translated, as if it came in one piece; held roots last from record to
   * record. Each record adds its own operations under its own input.
   */
  lemma {:induction false} HistoryIsPassed(plan: Plan, k: nat)
    requires k <= |plan|
    ensures Carries(LogOf(plan, k), Roots.Process(map[], Derived(plan, k)).ready)
    ensures PendingAt(plan, k) == Roots.Process(map[], Derived(plan, k)).pending
    ensures k > 0 ==>
              && LogOf(plan, k - 1) <= LogOf(plan, k)
              && forall i :: |LogOf(plan, k - 1)| <= i < |LogOf(plan, k)| ==>
                   LogOf(plan, k)[i].input == plan[k - 1].input && LogOf(plan, k)[i].observation == plan[k - 1].observation
  {
    hide Roots.Process, Carries, Entries;
    Roots.ProcessNothing(map[]);
    if k == 0 {
      CarriesNothing();
    } else {
      HistoryIsPassed(plan, k - 1);
      Roots.ProcessSplits(map[], Derived(plan, k - 1), plan[k - 1].ops);
      CarriesMore(LogOf(plan, k - 1), Roots.Process(map[], Derived(plan, k - 1)).ready, plan[k - 1], Output(plan, k - 1));
    }
  }

  // --- The worker ------------------------------------------------------------

  datatype Worker =
    | Down
    | Waiting(index: nat, roots: Roots.Pending)
    | Busy(index: nat, taken: nat, roots: Roots.Pending, ready: seq<SpanOp>, ordinal: nat)

  datatype World = World(db: Database, log: seq<Entry>, worker: Worker)

  const START := World(EMPTY, [], Down)

  /** Tables change atomically; `acked` says whether the worker learned of it. */
  datatype Event =
    | Crash
    | Boot
    | Open(acked: bool)
    | Translate(count: nat)
    | Write(count: nat, acked: bool)
    | Finish(acked: bool)
    | AddRoute(route: Route)
    | Attach(route: Route, legacyThrough: nat)
    | Acknowledge(route: Route, expected: nat, through: nat)

  function CommittedInputs(db: Database): set<nat> {
    set i | i in db.batches && db.batches[i].committed
  }

  ghost function TranslatedThrough(db: Database): nat {
    Max(CommittedInputs(db))
  }

  /** Replay skips the records at or before the last committed input. */
  function Skip(plan: Plan, committed: nat, any: bool, k: nat): nat
    requires k <= |plan|
    decreases |plan| - k
  {
    if k < |plan| && any && plan[k].input <= committed then Skip(plan, committed, any, k + 1) else k
  }

  /** A restarted worker reloads the held roots and skips what is committed. */
  ghost function Booted(plan: Plan, w: World): Worker
    requires w.worker.Down?
  {
    Waiting(Skip(plan, TranslatedThrough(w.db), CommittedInputs(w.db) != {}, 0), w.db.roots)
  }

  ghost function Opened(plan: Plan, w: World, acked: bool): World
    requires w.worker.Waiting? && w.worker.index < |plan|
  {
    var record := plan[w.worker.index];
    World(Begin(w.db, record.input, record.observation).0, w.log,
          if acked then Busy(w.worker.index, 0, w.worker.roots, [], 0) else w.worker)
  }

  /** The next translated operations pass the root stage once the previous ones are stored. */
  function Translated(plan: Plan, worker: Worker, count: nat): Worker
    requires worker.Busy? && worker.index < |plan| && worker.ready == []
    requires worker.taken + count <= |plan[worker.index].ops|
  {
    var step := Roots.Process(worker.roots, plan[worker.index].ops[worker.taken..worker.taken + count]);
    worker.(taken := worker.taken + count, roots := step.pending, ready := step.ready)
  }

  ghost function Written(plan: Plan, w: World, count: nat, acked: bool): World
    requires w.worker.Busy? && w.worker.index < |plan| && 0 < count <= |w.worker.ready|
  {
    var r := Append(w.db, plan[w.worker.index].input, w.worker.ordinal, w.worker.ready[..count]);
    if r.Err? then w
    else
      World(r.value.db, w.log + r.value.entries,
            if acked then w.worker.(ready := w.worker.ready[count..], ordinal := w.worker.ordinal + count) else w.worker)
  }

  ghost function Finished(plan: Plan, w: World, acked: bool): World
    requires w.worker.Busy? && w.worker.index < |plan|
  {
    var r := Commit(w.db, plan[w.worker.index].input, Some(w.worker.roots));
    if r.Err? then w
    else World(r.value, w.log, if acked then Waiting(w.worker.index + 1, w.worker.roots) else w.worker)
  }

  /** An event that is not possible in a state leaves it as it is. */
  ghost function Step(plan: Plan, w: World, e: Event): World {
    match e
    case Crash => w.(worker := Down)
    case Boot => if w.worker.Down? then w.(worker := Booted(plan, w)) else w
    case Open(acked) => if w.worker.Waiting? && w.worker.index < |plan| then Opened(plan, w, acked) else w
    case Translate(count) =>
      if w.worker.Busy? && w.worker.index < |plan| && w.worker.ready == []
        && w.worker.taken + count <= |plan[w.worker.index].ops|
      then w.(worker := Translated(plan, w.worker, count)) else w
    case Write(count, acked) =>
      if w.worker.Busy? && w.worker.index < |plan| && 0 < count <= |w.worker.ready|
      then Written(plan, w, count, acked) else w
    case Finish(acked) =>
      if w.worker.Busy? && w.worker.index < |plan| && w.worker.ready == []
        && w.worker.taken == |plan[w.worker.index].ops|
      then Finished(plan, w, acked) else w
    case AddRoute(route) => w.(db := Register(w.db, route))
    case Attach(route, legacyThrough) => w.(db := Subscribe(w.db, route, legacyThrough))
    case Acknowledge(route, expected, through) =>
      if through > w.db.tail || Complete(w.db, route, expected, through).Err? then w
      else w.(db := Complete(w.db, route, expected, through).value.0)
  }

  ghost function RunFrom(plan: Plan, w: World, events: seq<Event>): World {
    if events == [] then w
    else Step(plan, RunFrom(plan, w, events[..|events| - 1]), events[|events| - 1])
  }

  ghost function Run(plan: Plan, events: seq<Event>): World {
    RunFrom(plan, START, events)
  }

  // --- The invariant -----------------------------------------------------------

  /** The receipts of an input are exactly the ordinals below `r`. */
  ghost predicate ReceiptsThrough(db: Database, input: nat, r: nat) {
    forall o: nat :: Receipt(input, o) in db.receipts <==> o < r
  }

  function InputsBefore(plan: Plan, k: nat): set<nat>
    requires k <= |plan|
  {
    if k == 0 then {} else InputsBefore(plan, k - 1) + {plan[k - 1].input}
  }

  lemma {:induction false} InputsBelow(plan: Plan, k: nat)
    requires Ordered(plan) && k <= |plan|
    ensures forall i :: i in InputsBefore(plan, k) ==> k > 0 && i <= plan[k - 1].input
    ensures forall i :: i in InputsBefore(plan, k) && k < |plan| ==> i < plan[k].input
  {
    if k > 0 {
      InputsBelow(plan, k - 1);
    }
  }

  /** The tables say: `k` records committed and `r` operations of the next one published. */
  ghost predicate At(plan: Plan, db: Database, k: nat, r: nat) {
    && k <= |plan|
    && CommittedInputs(db) == InputsBefore(plan, k)
    && db.batches.Keys <= InputsBefore(plan, if k < |plan| then k + 1 else k)
    && (forall receipt :: receipt in db.receipts ==> receipt.input in db.batches)
    && db.roots == PendingAt(plan, k)
    && (if k == |plan| then r == 0 else Partial(plan[k], db, r) && r <= |Output(plan, k)|)
  }

  /** The tables of the one record that may be unfinished. */
  ghost predicate Partial(record: Record, db: Database, r: nat) {
    && !Committed(db, record.input)
    && ReceiptsThrough(db, record.input, r)
    && (record.input in db.batches ==> db.batches[record.input].observation == record.observation)
  }

  /** The history at that point. */
  function Expected(plan: Plan, k: nat, r: nat): seq<Entry>
    requires k <= |plan|
    requires if k == |plan| then r == 0 else r <= |Output(plan, k)|
  {
    if k == |plan| then LogOf(plan, k) else LogOf(plan, k) + Entries(plan[k], Output(plan, k)[..r])
  }

  ghost predicate Agrees(plan: Plan, db: Database, worker: Worker, k: nat, r: nat)
    requires k <= |plan|
  {
    match worker
    case Down => true
    case Waiting(index, roots) => index == k && roots == PendingAt(plan, k)
    case Busy(index, taken, roots, ready, ordinal) =>
      if index == k then
        && k < |plan|
        && plan[k].input in db.batches
        && taken <= |plan[k].ops|
        && ordinal <= r
        && roots == Roots.Process(PendingAt(plan, k), plan[k].ops[..taken]).pending
        && ordinal + |ready| == |Roots.Process(PendingAt(plan, k), plan[k].ops[..taken]).ready|
        && ready == Roots.Process(PendingAt(plan, k), plan[k].ops[..taken]).ready[ordinal..]
      else
        // The commit happened but its acknowledgement was lost.
        && index + 1 == k
        && ready == [] && taken == |plan[index].ops| && roots == PendingAt(plan, k)
  }

  ghost predicate Inv(plan: Plan, w: World, k: nat, r: nat) {
    && Wf(w.db, w.log)
    && At(plan, w.db, k, r)
    && w.log == Expected(plan, k, r)
    && Agrees(plan, w.db, w.worker, k, r)
  }

  ghost predicate AtPoint(plan: Plan, w: World, k: nat) {
    exists r :: Inv(plan, w, k, r)
  }

  // --- Each transaction keeps it -----------------------------------------------

  lemma OutputExtends(plan: Plan, k: nat, taken: nat)
    requires k < |plan| && taken <= |plan[k].ops|
    ensures Roots.Process(PendingAt(plan, k), plan[k].ops[..taken]).ready <= Output(plan, k)
    ensures taken == |plan[k].ops| ==>
              Roots.Process(PendingAt(plan, k), plan[k].ops[..taken]) == Roots.Step(PendingAt(plan, k + 1), Output(plan, k))
  {
    var ops := plan[k].ops;
    assert ops == ops[..taken] + ops[taken..];
    Roots.ProcessSplits(PendingAt(plan, k), ops[..taken], ops[taken..]);
  }

  function Cut(first: nat, count: nat, r: nat): nat
    requires first <= r
  {
    if r - first < count then r - first else count
  }

  function Reach(first: nat, count: nat, r: nat): nat {
    if first + count > r then first + count else r
  }

  lemma {:induction false} AppendReceipts(db: Database, record: Record, first: nat, ops: seq<SpanOp>, r: nat)
    requires record.input in db.batches && !Committed(db, record.input)
    requires ReceiptsThrough(db, record.input, r) && first <= r
    ensures var a := AppendRows(db, record.input, first, ops);
            && a.Ok?
            && ReceiptsThrough(a.value.db, record.input, Reach(first, |ops|, r))
            && (forall c :: c in a.value.db.receipts ==> c in db.receipts || c.input == record.input)
  {
    if ops != [] {
      AppendReceipts(db, record, first, ops[..|ops| - 1], r);
    }
  }

  /** Of a chunk, exactly the operations without a receipt are inserted. */
  lemma {:induction false} AppendFresh(db: Database, record: Record, first: nat, ops: seq<SpanOp>, r: nat)
    requires record.input in db.batches && !Committed(db, record.input)
    requires db.batches[record.input].observation == record.observation
    requires ReceiptsThrough(db, record.input, r) && first <= r
    ensures AppendRows(db, record.input, first, ops).Ok?
    ensures AppendRows(db, record.input, first, ops).value.entries == Entries(record, ops[Cut(first, |ops|, r)..])
  {
    hide Entries, InsertOp;
    if ops != [] {
      var last := |ops| - 1;
      var rest := ops[..last];
      AppendFresh(db, record, first, rest, r);
      AppendReceipts(db, record, first, rest, r);
      var before := AppendRows(db, record.input, first, rest).value;
      if first + last >= r {
        assert Receipt(record.input, first + last) !in before.db.receipts;
        EntriesSnoc(record, rest[Cut(first, last, r)..], ops[last]);
        assert ops[Cut(first, |ops|, r)..] == rest[Cut(first, last, r)..] + [ops[last]];
      } else {
        assert Receipt(record.input, first + last) in before.db.receipts;
        assert ops[Cut(first, |ops|, r)..] == [] == rest[Cut(first, last, r)..];
      }
    }
  }

  lemma EntriesSnoc(record: Record, ops: seq<SpanOp>, op: SpanOp)
    ensures Entries(record, ops + [op]) == Entries(record, ops) + [Entry(record.input, record.observation, op)]
  {}

  /** Tables that differ in heads and pruned rows only. */
  lemma AtKeptByHeads(plan: Plan, db: Database, next: Database, k: nat, r: nat)
    requires Ordered(plan) && At(plan, db, k, r)
    requires next.batches == db.batches && next.roots == db.roots && next.receipts <= db.receipts
    requires forall c :: c in db.receipts && !Committed(db, c.input) ==> c in next.receipts
    ensures At(plan, next, k, r)
  {}

  lemma InvKeptByHeads(plan: Plan, w: World, next: Database, k: nat, r: nat)
    requires Ordered(plan) && Inv(plan, w, k, r) && Wf(next, w.log)
    requires next.batches == w.db.batches && next.roots == w.db.roots && next.receipts <= w.db.receipts
    requires forall c :: c in w.db.receipts && !Committed(w.db, c.input) ==> c in next.receipts
    ensures Inv(plan, w.(db := next), k, r)
  {
    hide At, Wf;
    AtKeptByHeads(plan, w.db, next, k, r);
  }

  lemma HeadsKeep(plan: Plan, w: World, e: Event, k: nat, r: nat)
    requires Ordered(plan) && Inv(plan, w, k, r)
    requires e.AddRoute? || e.Attach? || e.Acknowledge?
    ensures Inv(plan, Step(plan, w, e), k, r)
  {
    hide At, Agrees, Wf, Complete;
    match e
    case AddRoute(route) =>
      RegisterKeeps(w.db, w.log, route);
      InvKeptByHeads(plan, w, Register(w.db, route), k, r);
    case Attach(route, legacyThrough) =>
      SubscribeKeeps(w.db, w.log, route, legacyThrough);
      InvKeptByHeads(plan, w, Subscribe(w.db, route, legacyThrough), k, r);
    case Acknowledge(route, expected, through) =>
      if through <= w.db.tail && Complete(w.db, route, expected, through).Ok? {
        CompleteKeeps(w.db, w.log, route, expected, through);
        CompleteFrame(w.db, route, expected, through);
        InvKeptByHeads(plan, w, Complete(w.db, route, expected, through).value.0, k, r);
      }
  }

  lemma {:induction false} SkipFinds(plan: Plan, committed: nat, any: bool, from: nat, k: nat)
    requires from <= k <= |plan|
    requires from < k ==> any
    requires forall j :: from <= j < k ==> plan[j].input <= committed
    requires k < |plan| && any ==> plan[k].input > committed
    ensures Skip(plan, committed, any, from) == k
    decreases k - from
  {
    if from < k {
      assert plan[from].input <= committed;
      SkipFinds(plan, committed, any, from + 1, k);
    }
  }

  lemma CommittedPrefix(plan: Plan, db: Database, k: nat, r: nat)
    requires Ordered(plan) && At(plan, db, k, r)
    ensures k > 0 ==> CommittedInputs(db) != {} && TranslatedThrough(db) == plan[k - 1].input
    ensures k == 0 ==> CommittedInputs(db) == {}
  {
    InputsBelow(plan, k);
    if k > 0 {
      assert plan[k - 1].input in CommittedInputs(db);
    }
  }

  lemma BootKeeps(plan: Plan, w: World, k: nat, r: nat)
    requires Ordered(plan) && Inv(plan, w, k, r) && w.worker.Down?
    ensures Booted(plan, w) == Waiting(k, PendingAt(plan, k))
  {
    CommittedPrefix(plan, w.db, k, r);
    SkipFinds(plan, TranslatedThrough(w.db), CommittedInputs(w.db) != {}, 0, k);
  }

  lemma AtBegun(plan: Plan, db: Database, next: Database, k: nat, r: nat)
    requires Ordered(plan) && At(plan, db, k, r) && k < |plan|
    requires next.batches == db.batches[plan[k].input := Batch(false, plan[k].observation)]
    requires next.roots == db.roots && next.receipts == db.receipts
    ensures At(plan, next, k, r)
  {
    assert !Committed(db, plan[k].input);
    assert forall i :: i != plan[k].input ==> (Committed(next, i) <==> Committed(db, i));
    assert CommittedInputs(next) == CommittedInputs(db);
  }

  lemma OpenKeeps(plan: Plan, w: World, acked: bool, k: nat, r: nat)
    requires Ordered(plan) && Inv(plan, w, k, r)
    requires w.worker.Waiting? && w.worker.index < |plan|
    ensures Inv(plan, Opened(plan, w, acked), k, r)
  {
    hide Wf, PendingAt, Output, InputsBefore, ReceiptsThrough;
    var record := plan[k];
    BeginKeeps(w.db, w.log, record.input, record.observation);
    AtBegun(plan, w.db, Opened(plan, w, acked).db, k, r);
    assert record.ops[..0] == [];
  }

  lemma TranslateKeeps(plan: Plan, db: Database, worker: Worker, count: nat, k: nat, r: nat)
    requires Ordered(plan) && k <= |plan| && Agrees(plan, db, worker, k, r)
    requires worker.Busy? && worker.index < |plan| && worker.ready == []
    requires worker.taken + count <= |plan[worker.index].ops|
    ensures Agrees(plan, db, Translated(plan, worker, count), k, r)
  {
    hide Roots.Process, PendingAt, Partial, InputsBefore;
    var ops, taken := plan[worker.index].ops, worker.taken;
    if worker.index == k {
      assert ops[..taken + count] == ops[..taken] + ops[taken..taken + count];
      Roots.ProcessSplits(PendingAt(plan, k), ops[..taken], ops[taken..taken + count]);
    } else {
      assert ops[taken..taken + count] == [];
      Roots.ProcessNothing(worker.roots);
    }
  }

  lemma WriteAt(plan: Plan, db: Database, worker: Worker, count: nat, k: nat, r: nat)
    requires Ordered(plan) && At(plan, db, k, r) && Agrees(plan, db, worker, k, r)
    requires worker.Busy? && worker.index < |plan| && 0 < count <= |worker.ready|
    ensures var a := AppendRows(db, plan[k].input, worker.ordinal, worker.ready[..count]);
            && a.Ok?
            && Reach(worker.ordinal, count, r) <= |Output(plan, k)|
            && At(plan, a.value.db, k, Reach(worker.ordinal, count, r))
  {
    AppendReceipts(db, plan[k], worker.ordinal, worker.ready[..count], r);
    AppendFrame(db, plan[k].input, worker.ordinal, worker.ready[..count]);
    OutputExtends(plan, k, worker.taken);
    var next := AppendRows(db, plan[k].input, worker.ordinal, worker.ready[..count]).value.db;
    assert next.batches == db.batches;
  }

  lemma WriteAgrees(plan: Plan, db: Database, next: Database, worker: Worker, count: nat, k: nat, r: nat)
    requires k < |plan| && Agrees(plan, db, worker, k, r)
    requires next.batches == db.batches
    requires worker.Busy? && worker.index == k && 0 < count <= |worker.ready|
    ensures Agrees(plan, next, worker, k, Reach(worker.ordinal, count, r))
    ensures Agrees(plan, next, worker.(ready := worker.ready[count..], ordinal := worker.ordinal + count), k,
                   Reach(worker.ordinal, count, r))
  {}

  /** What waits to be written is the next stretch of the record's output. */
  lemma ReadySlice(plan: Plan, db: Database, worker: Worker, k: nat, r: nat)
    requires k < |plan| && worker.Busy? && worker.index == k && Agrees(plan, db, worker, k, r)
    ensures worker.ordinal + |worker.ready| <= |Output(plan, k)|
    ensures worker.ready == Output(plan, k)[worker.ordinal..worker.ordinal + |worker.ready|]
  {
    OutputExtends(plan, k, worker.taken);
    var done := Roots.Process(PendingAt(plan, k), plan[k].ops[..worker.taken]).ready;
    assert done == Output(plan, k)[..|done|];
  }

  lemma WriteHistory(plan: Plan, db: Database, worker: Worker, count: nat, k: nat, r: nat)
    requires k < |plan| && r <= |Output(plan, k)|
    requires plan[k].input in db.batches && !Committed(db, plan[k].input)
    requires db.batches[plan[k].input].observation == plan[k].observation
    requires ReceiptsThrough(db, plan[k].input, r)
    requires worker.Busy? && worker.index == k && count <= |worker.ready| && worker.ordinal <= r
    requires worker.ordinal + |worker.ready| <= |Output(plan, k)|
    requires worker.ready == Output(plan, k)[worker.ordinal..worker.ordinal + |worker.ready|]
    ensures AppendRows(db, plan[k].input, worker.ordinal, worker.ready[..count]).Ok?
    ensures Reach(worker.ordinal, count, r) <= |Output(plan, k)|
    ensures Expected(plan, k, r) + AppendRows(db, plan[k].input, worker.ordinal, worker.ready[..count]).value.entries
            == Expected(plan, k, Reach(worker.ordinal, count, r))
  {
    var record, chunk, first := plan[k], worker.ready[..count], worker.ordinal;
    AppendFresh(db, record, first, chunk, r);
    WriteLog(plan, worker, count, k, r);
    Roots.Associate(LogOf(plan, k), Entries(record, Output(plan, k)[..r]), Entries(record, chunk[Cut(first, count, r)..]));
  }

  lemma WriteTables(plan: Plan, w: World, count: nat, k: nat, r: nat)
    requires Ordered(plan) && Inv(plan, w, k, r)
    requires w.worker.Busy? && w.worker.index < |plan| && 0 < count <= |w.worker.ready|
    ensures var a := AppendRows(w.db, plan[k].input, w.worker.ordinal, w.worker.ready[..count]);
            && a.Ok?
            && Reach(w.worker.ordinal, count, r) <= |Output(plan, k)|
            && Wf(a.value.db, w.log + a.value.entries)
            && w.log + a.value.entries == Expected(plan, k, Reach(w.worker.ordinal, count, r))
  {
    ReadySlice(plan, w.db, w.worker, k, r);
    WriteHistory(plan, w.db, w.worker, count, k, r);
    AppendKeeps(w.db, w.log, plan[k].input, w.worker.ordinal, w.worker.ready[..count]);
  }

  /** A chunk written after a crash repeats nothing and leaves nothing out. */
  lemma WriteKeeps(plan: Plan, w: World, count: nat, acked: bool, k: nat, r: nat)
    requires Ordered(plan) && Inv(plan, w, k, r)
    requires w.worker.Busy? && w.worker.index < |plan| && 0 < count <= |w.worker.ready|
    ensures Append(w.db, plan[w.worker.index].input, w.worker.ordinal, w.worker.ready[..count]).Ok?
    ensures Inv(plan, Written(plan, w, count, acked), k, Reach(w.worker.ordinal, count, r))
  {
    WriteTables(plan, w, count, k, r);
    WriteAt(plan, w.db, w.worker, count, k, r);
    WriteAgrees(plan, w.db, Written(plan, w, count, acked).db, w.worker, count, k, r);
  }

  /** The chunk's fresh part is the next stretch of the record's output. */
  lemma WriteLog(plan: Plan, worker: Worker, count: nat, k: nat, r: nat)
    requires k < |plan| && worker.Busy? && worker.index == k && count <= |worker.ready|
    requires worker.ordinal <= r <= |Output(plan, k)|
    requires worker.ordinal + |worker.ready| <= |Output(plan, k)|
    requires worker.ready == Output(plan, k)[worker.ordinal..worker.ordinal + |worker.ready|]
    ensures Reach(worker.ordinal, count, r) <= |Output(plan, k)|
    ensures Entries(plan[k], Output(plan, k)[..Reach(worker.ordinal, count, r)])
            == Entries(plan[k], Output(plan, k)[..r])
               + Entries(plan[k], worker.ready[..count][Cut(worker.ordinal, count, r)..])
  {
    var first := worker.ordinal;
    var added := worker.ready[..count][Cut(first, count, r)..];
    assert Output(plan, k)[..Reach(first, count, r)] == Output(plan, k)[..r] + added;
  }

  lemma FinishCommits(plan: Plan, db: Database, k: nat, r: nat, index: nat)
    requires Ordered(plan) && At(plan, db, k, r) && index < |plan|
    requires if index == k then plan[k].input in db.batches else index + 1 == k
    ensures Commit(db, plan[index].input, Some(db.roots)).Ok?
  {
    var input := plan[index].input;
    InputsBelow(plan, k);
    forall i | i in db.batches
      ensures db.batches[i].committed ==> i <= input
      ensures !db.batches[i].committed ==> i >= input
    {
      if db.batches[i].committed {
        assert i in CommittedInputs(db);
      } else {
        assert i !in CommittedInputs(db);
      }
    }
    if index != k {
      assert input in CommittedInputs(db);
    }
  }

  lemma CommittedGrows(db: Database, next: Database, input: nat)
    requires input in db.batches
    requires next.batches == db.batches[input := db.batches[input].(committed := true)]
    ensures CommittedInputs(next) == CommittedInputs(db) + {input}
  {}

  lemma UntouchedPartial(plan: Plan, db: Database, next: Database, k: nat)
    requires Ordered(plan) && k < |plan|
    requires db.batches.Keys <= InputsBefore(plan, k) && next.batches.Keys == db.batches.Keys
    requires forall receipt :: receipt in db.receipts ==> receipt.input in db.batches
    requires next.receipts <= db.receipts
    ensures Partial(plan[k], next, 0)
  {
    InputsBelow(plan, k);
    assert plan[k].input !in db.batches;
  }

  lemma NextAt(plan: Plan, db: Database, k: nat)
    requires k <= |plan| && CommittedInputs(db) == InputsBefore(plan, k) && db.batches.Keys <= InputsBefore(plan, k)
    requires forall receipt :: receipt in db.receipts ==> receipt.input in db.batches
    requires db.roots == PendingAt(plan, k)
    requires k < |plan| ==> Partial(plan[k], db, 0)
    ensures At(plan, db, k, 0)
  {}

  lemma CommittedTables(plan: Plan, db: Database, next: Database, k: nat)
    requires k < |plan| && plan[k].input in db.batches
    requires CommittedInputs(db) == InputsBefore(plan, k) && db.batches.Keys <= InputsBefore(plan, k + 1)
    requires next.batches == db.batches[plan[k].input := db.batches[plan[k].input].(committed := true)]
    ensures CommittedInputs(next) == InputsBefore(plan, k + 1)
    ensures next.batches.Keys == db.batches.Keys
  {
    CommittedGrows(db, next, plan[k].input);
  }

  lemma CommittedAt(plan: Plan, db: Database, next: Database, k: nat, r: nat)
    requires Ordered(plan) && k < |plan| && At(plan, db, k, r) && plan[k].input in db.batches
    requires next.batches == db.batches[plan[k].input := db.batches[plan[k].input].(committed := true)]
    requires next.receipts <= db.receipts && next.roots == PendingAt(plan, k + 1)
    ensures At(plan, next, k + 1, 0)
  {
    CommittedTables(plan, db, next, k);
    if k + 1 < |plan| {
      UntouchedPartial(plan, db, next, k + 1);
    }
    NextAt(plan, next, k + 1);
  }

  /** Committing record `k` with the roots that are held after it. */
  lemma CommitAt(plan: Plan, db: Database, k: nat)
    requires Ordered(plan) && k < |plan| && At(plan, db, k, |Output(plan, k)|) && plan[k].input in db.batches
    ensures var c := Commit(db, plan[k].input, Some(PendingAt(plan, k + 1)));
            c.Ok? && At(plan, c.value, k + 1, 0)
  {
    FinishCommits(plan, db, k, |Output(plan, k)|, k);
    CommitFrame(db, plan[k].input, Some(PendingAt(plan, k + 1)));
    CommittedAt(plan, db, Commit(db, plan[k].input, Some(PendingAt(plan, k + 1))).value, k, |Output(plan, k)|);
  }

  /** Repeating a commit whose acknowledgement was lost changes nothing it decided. */
  lemma RecommitAt(plan: Plan, db: Database, k: nat, r: nat)
    requires Ordered(plan) && 0 < k <= |plan| && At(plan, db, k, r)
    ensures var c := Commit(db, plan[k - 1].input, Some(PendingAt(plan, k)));
            c.Ok? && At(plan, c.value, k, r)
  {
    FinishCommits(plan, db, k, r, k - 1);
    CommitFrame(db, plan[k - 1].input, Some(PendingAt(plan, k)));
    assert plan[k - 1].input in CommittedInputs(db);
    InputsBelow(plan, k);
    AtKeptByHeads(plan, db, Commit(db, plan[k - 1].input, Some(PendingAt(plan, k))).value, k, r);
  }

  lemma ExpectedNext(plan: Plan, k: nat)
    requires k < |plan|
    ensures Expected(plan, k, |Output(plan, k)|) == Expected(plan, k + 1, 0)
  {
    assert Output(plan, k)[..|Output(plan, k)|] == Output(plan, k);
    if k + 1 < |plan| {
      assert LogOf(plan, k + 1) + Entries(plan[k + 1], Output(plan, k + 1)[..0]) == LogOf(plan, k + 1);
    }
  }

  lemma AllTaken(plan: Plan, w: World, k: nat, r: nat)
    requires Ordered(plan) && Inv(plan, w, k, r)
    requires w.worker.Busy? && w.worker.index == k && w.worker.ready == [] && w.worker.taken == |plan[k].ops|
    ensures r == |Output(plan, k)| && w.worker.roots == PendingAt(plan, k + 1)
  {
    OutputExtends(plan, k, w.worker.taken);
    assert plan[k].ops[..w.worker.taken] == plan[k].ops;
  }

  /** The first commit of a record moves the tables to the next one. */
  lemma FinishFirst(plan: Plan, w: World, k: nat, r: nat)
    requires Ordered(plan) && Inv(plan, w, k, r)
    requires w.worker.Busy? && w.worker.index == k && w.worker.ready == [] && w.worker.taken == |plan[k].ops|
    ensures var c := Commit(w.db, plan[k].input, Some(w.worker.roots));
            && c.Ok? && Wf(c.value, w.log) && At(plan, c.value, k + 1, 0) && w.log == Expected(plan, k + 1, 0)
            && w.worker.roots == PendingAt(plan, k + 1)
  {
    AllTaken(plan, w, k, r);
    CommitAt(plan, w.db, k);
    ExpectedNext(plan, k);
    CommitKeeps(w.db, w.log, plan[k].input, Some(w.worker.roots));
  }

  lemma FinishAgain(plan: Plan, w: World, k: nat, r: nat)
    requires Ordered(plan) && Inv(plan, w, k, r)
    requires w.worker.Busy? && w.worker.index < |plan| && w.worker.index != k
    ensures var c := Commit(w.db, plan[w.worker.index].input, Some(w.worker.roots));
            && k == w.worker.index + 1
            && c.Ok? && Wf(c.value, w.log) && At(plan, c.value, k, r)
  {
    RecommitAt(plan, w.db, k, r);
    CommitKeeps(w.db, w.log, plan[w.worker.index].input, Some(w.worker.roots));
  }

  /** The tables and the worker stand at some point of the failure-free run. */
  ghost predicate Sound(plan: Plan, w: World) {
    exists k, r :: Inv(plan, w, k, r)
  }

  lemma InvHolds(plan: Plan, w: World, k: nat, r: nat)
    requires Wf(w.db, w.log)
    requires At(plan, w.db, k, r)
    requires w.log == Expected(plan, k, r)
    requires w.worker == Waiting(k, PendingAt(plan, k))
          || (k > 0 && w.worker.Busy? && w.worker.index + 1 == k && w.worker.ready == []
              && w.worker.taken == |plan[w.worker.index].ops| && w.worker.roots == PendingAt(plan, k))
    ensures AtPoint(plan, w, k) && Sound(plan, w)
  {
    assert Inv(plan, w, k, r);
  }

  lemma FinishFirstKeeps(plan: Plan, w: World, acked: bool, k: nat, r: nat, to: nat)
    requires Ordered(plan) && Inv(plan, w, k, r)
    requires w.worker.Busy? && w.worker.index == k && w.worker.ready == [] && w.worker.taken == |plan[k].ops|
    requires to == k + 1
    ensures AtPoint(plan, Finished(plan, w, acked), to) && Sound(plan, Finished(plan, w, acked))
    ensures acked ==> Finished(plan, w, acked).worker.Waiting?
  {
    FinishFirst(plan, w, k, r);
    InvHolds(plan, Finished(plan, w, acked), to, 0);
  }

  lemma FinishAgainKeeps(plan: Plan, w: World, acked: bool, k: nat, r: nat, to: nat)
    requires Ordered(plan) && Inv(plan, w, k, r)
    requires w.worker.Busy? && w.worker.index < |plan| && w.worker.index != k && w.worker.ready == []
    requires w.worker.taken == |plan[w.worker.index].ops|
    requires to == w.worker.index + 1
    ensures AtPoint(plan, Finished(plan, w, acked), to) && Sound(plan, Finished(plan, w, acked))
    ensures acked ==> Finished(plan, w, acked).worker.Waiting?
  {
    FinishAgain(plan, w, k, r);
    InvHolds(plan, Finished(plan, w, acked), to, r);
  }

  lemma FinishKeeps(plan: Plan, w: World, acked: bool, k: nat, r: nat, to: nat)
    requires Ordered(plan) && Inv(plan, w, k, r)
    requires w.worker.Busy? && w.worker.index < |plan| && w.worker.ready == []
    requires w.worker.taken == |plan[w.worker.index].ops|
    requires to == w.worker.index + 1
    ensures AtPoint(plan, Finished(plan, w, acked), to) && Sound(plan, Finished(plan, w, acked))
    ensures acked ==> Finished(plan, w, acked).worker.Waiting?
  {
    if w.worker.index == k {
      FinishFirstKeeps(plan, w, acked, k, r, to);
    } else {
      FinishAgainKeeps(plan, w, acked, k, r, to);
    }
  }

  // --- Every run -------------------------------------------------------------

  lemma OpenSound(plan: Plan, w: World, acked: bool)
    requires Ordered(plan) && Sound(plan, w)
    ensures Sound(plan, Step(plan, w, Open(acked)))
  {
    if w.worker.Waiting? && w.worker.index < |plan| {
      var k, r :| Inv(plan, w, k, r);
      OpenKeeps(plan, w, acked, k, r);
    }
  }

  lemma TranslateSound(plan: Plan, w: World, count: nat)
    requires Ordered(plan) && Sound(plan, w)
    ensures Sound(plan, Step(plan, w, Translate(count)))
  {
    hide Wf, Agrees, Translated, Partial, InputsBefore, PendingAt;
    if Step(plan, w, Translate(count)) != w {
      var k, r :| Inv(plan, w, k, r);
      TranslateKeeps(plan, w.db, w.worker, count, k, r);
      assert Inv(plan, Step(plan, w, Translate(count)), k, r);
    }
  }

  lemma WriteSound(plan: Plan, w: World, count: nat, acked: bool)
    requires Ordered(plan) && Sound(plan, w)
    ensures Sound(plan, Step(plan, w, Write(count, acked)))
  {
    if w.worker.Busy? && w.worker.index < |plan| && 0 < count <= |w.worker.ready| {
      var k, r :| Inv(plan, w, k, r);
      WriteKeeps(plan, w, count, acked, k, r);
    }
  }

  lemma FinishedSound(plan: Plan, w: World, acked: bool)
    requires Ordered(plan) && Sound(plan, w)
    requires w.worker.Busy? && w.worker.index < |plan| && w.worker.ready == [] && w.worker.taken == |plan[w.worker.index].ops|
    ensures Sound(plan, Finished(plan, w, acked))
  {
    var k, r :| Inv(plan, w, k, r);
    FinishKeeps(plan, w, acked, k, r, w.worker.index + 1);
  }

  lemma FinishSound(plan: Plan, w: World, acked: bool)
    requires Ordered(plan) && Sound(plan, w)
    ensures Sound(plan, Step(plan, w, Finish(acked)))
  {
    hide Sound, Finished;
    if w.worker.Busy? && w.worker.index < |plan| && w.worker.ready == [] && w.worker.taken == |plan[w.worker.index].ops| {
      FinishedSound(plan, w, acked);
    }
  }

  /** Moving heads leaves the worker where it is. */
  lemma HeadsOnlySound(plan: Plan, w: World, db: Database)
    requires Ordered(plan) && Sound(plan, w) && OnlyHeads(w.db, db) && Wf(db, w.log)
    ensures Sound(plan, w.(db := db))
  {
    var k, r :| Inv(plan, w, k, r);
    AtKeptByHeads(plan, w.db, db, k, r);
    assert Inv(plan, w.(db := db), k, r);
  }

  lemma RestSound(plan: Plan, w: World, e: Event)
    requires Ordered(plan) && Sound(plan, w)
    requires e.Crash? || e.Boot? || e.AddRoute? || e.Attach? || e.Acknowledge?
    ensures Sound(plan, Step(plan, w, e))
  {
    var k, r :| Inv(plan, w, k, r);
    if e.AddRoute? || e.Attach? || e.Acknowledge? {
      HeadsKeep(plan, w, e, k, r);
    } else if e.Boot? && w.worker.Down? {
      BootKeeps(plan, w, k, r);
    }
    assert Inv(plan, Step(plan, w, e), k, r);
  }

  lemma StepKeeps(plan: Plan, w: World, e: Event)
    requires Ordered(plan) && Sound(plan, w)
    ensures Sound(plan, Step(plan, w, e))
  {
    match e
    case Open(acked) => OpenSound(plan, w, acked);
    case Translate(count) => TranslateSound(plan, w, count);
    case Write(count, acked) => WriteSound(plan, w, count, acked);
    case Finish(acked) => FinishSound(plan, w, acked);
    case _ => RestSound(plan, w, e);
  }

  lemma {:induction false} RunKeeps(plan: Plan, events: seq<Event>)
    requires Ordered(plan)
    ensures Sound(plan, Run(plan, events))
  {
    if events == [] {
      if plan != [] {
        assert Output(plan, 0)[..0] == [];
      }
      assert Inv(plan, START, 0, 0);
    } else {
      RunKeeps(plan, events[..|events| - 1]);
      StepKeeps(plan, Run(plan, events[..|events| - 1]), events[|events| - 1]);
    }
  }

  lemma EntriesPrefix(record: Record, ops: seq<SpanOp>, r: nat)
    requires r <= |ops|
    ensures Entries(record, ops[..r]) <= Entries(record, ops)
  {}

  lemma SumPrefix<T>(a: seq<T>, b: seq<T>, c: seq<T>)
    requires b <= c
    ensures a + b <= a + c
  {
    assert c == b + c[|b|..];
    assert a + c == (a + b) + c[|b|..];
  }

  lemma ExpectedGrows(plan: Plan, k: nat, r: nat)
    requires k <= |plan|
    requires if k == |plan| then r == 0 else r <= |Output(plan, k)|
    ensures Expected(plan, k, r) <= LogOf(plan, |plan|)
  {
    if k < |plan| {
      EntriesPrefix(plan[k], Output(plan, k), r);
      SumPrefix(LogOf(plan, k), Entries(plan[k], Output(plan, k)[..r]), Entries(plan[k], Output(plan, k)));
      assert Expected(plan, k, r) <= LogOf(plan, k + 1);
    }
    LogGrows(plan, if k < |plan| then k + 1 else k, |plan|);
  }

  /** What has been published is the beginning of the failure-free history, and all of it in the end. */
  ghost predicate PublishedInOrder(plan: Plan, w: World) {
    && w.log <= LogOf(plan, |plan|)
    && (plan != [] && Committed(w.db, plan[|plan| - 1].input) ==> w.log == LogOf(plan, |plan|))
  }

  lemma SoundIsInOrder(plan: Plan, w: World)
    requires Ordered(plan) && Sound(plan, w)
    ensures PublishedInOrder(plan, w)
  {
    var k, r :| Inv(plan, w, k, r);
    ExpectedGrows(plan, k, r);
    if plan != [] && Committed(w.db, plan[|plan| - 1].input) {
      assert plan[|plan| - 1].input in CommittedInputs(w.db);
      InputsBelow(plan, k);
      assert k == |plan|;
    }
  }

  /**
   * Exactly-once publication. Whatever the failures, the interleaved route
   * work and the chunk sizes, what has been published is a prefix of the
   * failure-free history, and the whole of it is published once the last
   * record is committed.
   */
  lemma PublishesExactlyOnce(plan: Plan, events: seq<Event>)
    requires Ordered(plan)
    ensures PublishedInOrder(plan, Run(plan, events))
  {
    RunKeeps(plan, events);
    SoundIsInOrder(plan, Run(plan, events));
  }

  /** The tables retain the part of that history that is above the floor. */
  lemma RunRetains(plan: Plan, events: seq<Event>)
    requires Ordered(plan)
    ensures Retains(Run(plan, events).db, Run(plan, events).log)
  {
    RunKeeps(plan, events);
  }

  // --- Recovery never gets stuck ---------------------------------------------

  lemma {:induction false} RunConcat(plan: Plan, w: World, a: seq<Event>, b: seq<Event>)
    ensures RunFrom(plan, w, a + b) == RunFrom(plan, RunFrom(plan, w, a), b)
  {
    if b == [] {
      assert a + b == a;
    } else {
      assert (a + b)[..|a + b| - 1] == a + b[..|b| - 1];
      RunConcat(plan, w, a, b[..|b| - 1]);
    }
  }

  ghost predicate Reaches(plan: Plan, w: World, v: World) {
    exists events: seq<Event> :: RunFrom(plan, w, events) == v
  }

  lemma ReachesStep(plan: Plan, w: World, e: Event)
    ensures Reaches(plan, w, Step(plan, w, e))
  {
    assert [e][..0] == [] && RunFrom(plan, w, []) == w;
    assert RunFrom(plan, w, [e]) == Step(plan, w, e);
  }

  lemma ReachesOn(plan: Plan, u: World, v: World, w: World)
    requires Reaches(plan, u, v) && Reaches(plan, v, w)
    ensures Reaches(plan, u, w)
  {
    var a: seq<Event> :| RunFrom(plan, u, a) == v;
    var b: seq<Event> :| RunFrom(plan, v, b) == w;
    RunConcat(plan, u, a, b);
    assert RunFrom(plan, u, a + b) == w;
  }

  ghost predicate AtRecord(plan: Plan, w: World, k: nat) {
    w.worker.Waiting? && AtPoint(plan, w, k)
  }

  lemma OpenRecord(plan: Plan, w: World, k: nat) returns (next: World, r: nat)
    requires Ordered(plan) && k < |plan| && AtRecord(plan, w, k)
    ensures Reaches(plan, w, next) && Inv(plan, next, k, r)
    ensures next.worker == Busy(k, 0, PendingAt(plan, k), [], 0)
  {
    r :| Inv(plan, w, k, r);
    next := Step(plan, w, Open(true));
    ReachesStep(plan, w, Open(true));
    OpenKeeps(plan, w, true, k, r);
  }

  lemma TranslateAll(plan: Plan, w: World, k: nat, r: nat) returns (next: World)
    requires Ordered(plan) && k < |plan| && Inv(plan, w, k, r)
    requires w.worker == Busy(k, 0, PendingAt(plan, k), [], 0)
    ensures Reaches(plan, w, next) && Inv(plan, next, k, r)
    ensures next.worker == Busy(k, |plan[k].ops|, PendingAt(plan, k + 1), Output(plan, k), 0)
  {
    var e := Translate(|plan[k].ops|);
    next := Step(plan, w, e);
    ReachesStep(plan, w, e);
    TranslateKeeps(plan, w.db, w.worker, |plan[k].ops|, k, r);
    assert plan[k].ops[0..|plan[k].ops|] == plan[k].ops;
  }

  lemma WriteStep(plan: Plan, w: World, k: nat, count: nat)
    requires k < |plan| && w.worker.Busy? && w.worker.index == k && 0 < count <= |w.worker.ready|
    requires Append(w.db, plan[k].input, w.worker.ordinal, w.worker.ready[..count]).Ok?
    ensures Step(plan, w, Write(count, true)) == Written(plan, w, count, true)
    ensures Written(plan, w, count, true).worker
            == w.worker.(ready := w.worker.ready[count..], ordinal := w.worker.ordinal + count)
  {}

  lemma WriteAll(plan: Plan, w: World, k: nat, r: nat) returns (next: World, r': nat)
    requires Ordered(plan) && k < |plan| && Inv(plan, w, k, r)
    requires w.worker == Busy(k, |plan[k].ops|, PendingAt(plan, k + 1), Output(plan, k), 0)
    ensures Reaches(plan, w, next) && Inv(plan, next, k, r')
    ensures next.worker == Busy(k, |plan[k].ops|, PendingAt(plan, k + 1), [], |Output(plan, k)|)
  {
    var count := |Output(plan, k)|;
    if count == 0 {
      assert RunFrom(plan, w, []) == w;
      next, r' := w, r;
    } else {
      WriteKeeps(plan, w, count, true, k, r);
      WriteStep(plan, w, k, count);
      next, r' := Written(plan, w, count, true), Reach(0, count, r);
      ReachesStep(plan, w, Write(count, true));
    }
  }

  lemma FinishStep(plan: Plan, w: World, k: nat)
    requires k < |plan| && w.worker == Busy(k, |plan[k].ops|, PendingAt(plan, k + 1), [], |Output(plan, k)|)
    ensures Step(plan, w, Finish(true)) == Finished(plan, w, true)
  {}

  lemma FinishLast(plan: Plan, w: World, k: nat, r: nat) returns (next: World)
    requires Ordered(plan) && k < |plan| && Inv(plan, w, k, r)
    requires w.worker == Busy(k, |plan[k].ops|, PendingAt(plan, k + 1), [], |Output(plan, k)|)
    ensures Reaches(plan, w, next) && AtRecord(plan, next, k + 1)
  {
    next := Step(plan, w, Finish(true));
    ReachesStep(plan, w, Finish(true));
    FinishStep(plan, w, k);
    FinishKeeps(plan, w, true, k, r, k + 1);
  }

  /** A worker that waits at a record can always finish it. */
  lemma FinishRecord(plan: Plan, w: World, k: nat) returns (next: World)
    requires Ordered(plan) && k < |plan| && AtRecord(plan, w, k)
    ensures Reaches(plan, w, next) && AtRecord(plan, next, k + 1)
  {
    var begun, r := OpenRecord(plan, w, k);
    var translated := TranslateAll(plan, begun, k, r);
    var written, r' := WriteAll(plan, translated, k, r);
    next := FinishLast(plan, written, k, r');
    ReachesOn(plan, w, begun, translated);
    ReachesOn(plan, w, translated, written);
    ReachesOn(plan, w, written, next);
  }

  /** Some continuation waits at a record. */
  ghost predicate CanWaitAt(plan: Plan, w: World, k: nat) {
    exists v :: Reaches(plan, w, v) && AtRecord(plan, v, k)
  }

  lemma FinishNext(plan: Plan, w: World, k: nat)
    requires Ordered(plan) && k < |plan| && CanWaitAt(plan, w, k)
    ensures CanWaitAt(plan, w, k + 1)
  {
    var v :| Reaches(plan, w, v) && AtRecord(plan, v, k);
    var next := FinishRecord(plan, v, k);
    ReachesOn(plan, w, v, next);
  }

  lemma {:induction false} FinishRecords(plan: Plan, w: World, k: nat)
    requires Ordered(plan) && k <= |plan| && CanWaitAt(plan, w, k)
    ensures CanWaitAt(plan, w, |plan|)
    decreases |plan| - k
  {
    if k < |plan| {
      FinishNext(plan, w, k);
      FinishRecords(plan, w, k + 1);
    }
  }

  lemma Restarted(plan: Plan, w: World) returns (k: nat)
    requires Ordered(plan) && Sound(plan, w)
    ensures k <= |plan| && CanWaitAt(plan, w, k)
  {
    var r;
    k, r :| Inv(plan, w, k, r);
    var down := Step(plan, w, Crash);
    assert Inv(plan, down, k, r);
    BootKeeps(plan, down, k, r);
    var up := Step(plan, down, Boot);
    assert Inv(plan, up, k, r);
    ReachesStep(plan, w, Crash);
    ReachesStep(plan, down, Boot);
    ReachesOn(plan, w, down, up);
  }

  ghost predicate CanComplete(plan: Plan, w: World) {
    exists v :: Reaches(plan, w, v) && v.log == LogOf(plan, |plan|)
  }

  lemma WaitingIsComplete(plan: Plan, w: World)
    requires CanWaitAt(plan, w, |plan|)
    ensures CanComplete(plan, w)
  {
    var v :| Reaches(plan, w, v) && AtRecord(plan, v, |plan|);
  }

  /** After any run at all, what is missing can still be published, and nothing else. */
  lemma RestartCompletes(plan: Plan, events: seq<Event>)
    requires Ordered(plan)
    ensures CanComplete(plan, Run(plan, events))
  {
    RunKeeps(plan, events);
    var k := Restarted(plan, Run(plan, events));
    FinishRecords(plan, Run(plan, events), k);
    WaitingIsComplete(plan, Run(plan, events));
  }
}
