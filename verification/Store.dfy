/**
 * The durable tables of the span journal and its transactions, as values.
 * `Entry` sequences are the history of everything that was ever published;
 * position `p` of the journal is entry `p - 1`.
 */
module Store {
  import opened Wrappers
  import opened Spans

  type Route = string

  datatype Batch = Batch(committed: bool, observation: bool)
  datatype StoredRow = StoredRow(input: nat, op: SpanOp)
  datatype Receipt = Receipt(input: nat, ordinal: nat)
  datatype Entry = Entry(input: nat, observation: bool, op: SpanOp)

  datatype Kind = ToolBirth | RootBirth
  datatype Birth = Birth(kind: Kind, op: SpanOp, endMs: Option<int>)

  /** The small recovery tables: first origins and open births. */
  datatype Metadata = Metadata(origins: map<string, Origin>, births: map<string, Birth>)

  /** `sequence` is the largest position ever assigned; positions are never reused. */
  datatype Database = Database(
    batches: map<nat, Batch>,
    ops: map<nat, StoredRow>,
    sequence: nat,
    receipts: set<Receipt>,
    heads: map<Route, nat>,
    tail: nat,
    floor: nat,
    roots: map<string, seq<SpanOp>>,
    metadata: Metadata)

  const EMPTY := Database(map[], map[], 0, {}, map[], 0, 0, map[], Metadata(map[], map[]))

  // --- Recovery metadata ---------------------------------------------------

  function MetadataOnly(op: SpanOp): SpanOp {
    op.(row := op.row.(lateMergeKey := None, lateMergeVersion := None, payload := ""))
  }

  predicate IsBirth(op: SpanOp) {
    op.Insert? && (op.row.spanType.Tool? || (op.row.spanType.Task? && op.row.spanId == op.row.rootSpanId))
  }

  function SaveOrigin(origins: map<string, Origin>, op: SpanOp): map<string, Origin> {
    if op.row.origin.Some? && op.row.spanId !in origins then
      origins[op.row.spanId := op.row.origin.value]
    else origins
  }

  function SaveBirth(births: map<string, Birth>, op: SpanOp): map<string, Birth> {
    var id := op.row.spanId;
    var written :=
      if IsBirth(op) then
        var kind := if op.row.spanType.Tool? then ToolBirth else RootBirth;
        var birth := MetadataOnly(op);
        births[id := Birth(kind, birth.(row := birth.row.(endMs := None)), op.row.endMs)]
      else if id in births then
        births[id := births[id].(endMs := op.row.endMs)]
      else births;
    if id in written && written[id].kind.ToolBirth? && written[id].endMs.Some? then written - {id} else written
  }

  function SaveMetadata(metadata: Metadata, op: SpanOp, observation: bool): Metadata {
    Metadata(SaveOrigin(metadata.origins, op),
             if observation then SaveBirth(metadata.births, op) else metadata.births)
  }

  /** The metadata that a whole history leaves behind. */
  function MetadataOf(log: seq<Entry>): Metadata {
    if log == [] then Metadata(map[], map[])
    else
      var last := log[|log| - 1];
      SaveMetadata(MetadataOf(log[..|log| - 1]), last.op, last.observation)
  }

  // --- Transactions ----------------------------------------------------------

  ghost function Max(s: set<nat>): (m: nat)
    ensures forall x :: x in s ==> x <= m
    ensures s == {} ==> m == 0
    ensures s != {} ==> m in s
  {
    if s == {} then 0
    else
      var x :| x in s;
      var rest := Max(s - {x});
      assert s == {x} + (s - {x});
      if x > rest then x else rest
  }

  ghost function Min(s: set<nat>): (m: nat)
    requires s != {}
    ensures m in s
    ensures forall x :: x in s ==> m <= x
  {
    var x :| x in s;
    if s == {x} then x
    else
      var rest := Min(s - {x});
      assert s == {x} + (s - {x});
      if x < rest then x else rest
  }

  predicate HasReceipt(receipts: set<Receipt>, input: nat) {
    exists r :: r in receipts && r.input == input
  }

  predicate HasRow(ops: map<nat, StoredRow>, input: nat) {
    exists p :: p in ops && ops[p].input == input
  }

  predicate Committed(db: Database, input: nat) {
    input in db.batches && db.batches[input].committed
  }

  /** Start or restart an input; false when it is already committed. */
  function Begin(db: Database, input: nat, observation: bool): (Database, bool) {
    if Committed(db, input) then (db, false)
    else
      var ops := if HasReceipt(db.receipts, input) then db.ops
                 else map p | p in db.ops && db.ops[p].input != input :: db.ops[p];
      (db.(ops := ops, batches := db.batches[input := Batch(false, observation)]), true)
  }

  function InsertOp(db: Database, input: nat, ordinal: nat, op: SpanOp): Database
    requires input in db.batches
  {
    var position := db.sequence + 1;
    db.(metadata := SaveMetadata(db.metadata, op, db.batches[input].observation),
        ops := db.ops[position := StoredRow(input, op)],
        sequence := position,
        tail := position,
        receipts := db.receipts + {Receipt(input, ordinal)})
  }

  /** What one append transaction did: `None` marks an operation that had a receipt. */
  datatype Appended = Appended(db: Database, positions: seq<Option<nat>>, entries: seq<Entry>)

  function AppendRows(db: Database, input: nat, first: nat, ops: seq<SpanOp>): (r: Result<Appended>)
    requires input in db.batches
    ensures r.Ok? ==> r.value.db.batches == db.batches
    ensures r.Ok? ==> |r.value.positions| == |ops|
  {
    if ops == [] then Ok(Appended(db, [], []))
    else
      var last := |ops| - 1;
      var before := AppendRows(db, input, first, ops[..last]);
      if before.Err? then before
      else if Receipt(input, first + last) in before.value.db.receipts then
        Ok(before.value.(positions := before.value.positions + [None]))
      else if db.batches[input].committed then
        Err("cannot change a completed translation input")
      else
        var next := InsertOp(before.value.db, input, first + last, ops[last]);
        Ok(Appended(next,
                    before.value.positions + [Some(next.sequence)],
                    before.value.entries + [Entry(input, db.batches[input].observation, ops[last])]))
  }

  function Append(db: Database, input: nat, first: nat, ops: seq<SpanOp>): Result<Appended> {
    if input !in db.batches then Err("missing translation batch") else AppendRows(db, input, first, ops)
  }

  function RowsAbove(ops: map<nat, StoredRow>, through: nat): map<nat, StoredRow> {
    map p | p in ops && p > through :: ops[p]
  }

  /** Receipts of unfinished inputs, and of inputs that still have rows. */
  function NeededReceipts(db: Database): set<Receipt> {
    set r | r in db.receipts && !(Committed(db, r.input) && !HasRow(db.ops, r.input))
  }

  /** Delete what every head has passed, and the receipts nothing can need again. */
  ghost function Prune(db: Database): Database {
    if db.heads.Values == {} then db
    else
      var through := Min(db.heads.Values);
      var cut := db.(ops := RowsAbove(db.ops, through), floor := if db.floor > through then db.floor else through);
      cut.(receipts := NeededReceipts(cut))
  }

  /** The tables of a commit before it prunes. */
  ghost function Marked(db: Database, input: nat, roots: Option<map<string, seq<SpanOp>>>): Database
    requires input in db.batches
  {
    var last := Max(set p | p in db.ops && db.ops[p].input <= input);
    db.(batches := db.batches[input := db.batches[input].(committed := true)],
        roots := if roots.Some? then roots.value else db.roots,
        tail := if db.tail > last then db.tail else last)
  }

  ghost function Commit(db: Database, input: nat, roots: Option<map<string, seq<SpanOp>>>): Result<Database> {
    if exists i :: i in db.batches && db.batches[i].committed && i > input then
      Err("translation commits must be ordered")
    else if exists i :: i in db.batches && !db.batches[i].committed && i < input then
      Err("translation cannot publish past an unfinished input")
    else if input !in db.batches then
      Err("missing translation batch")
    else
      Ok(Prune(Marked(db, input, roots)))
  }

  function Register(db: Database, route: Route): Database {
    if route in db.heads then db else db.(heads := db.heads[route := db.floor])
  }

  ghost function Subscribe(db: Database, route: Route, legacyThrough: nat): Database {
    if route in db.heads then db
    else
      var legacy := Max(set p | p in db.ops && db.ops[p].input <= legacyThrough && Committed(db, db.ops[p].input));
      db.(heads := db.heads[route := if legacy > db.floor then legacy else db.floor])
  }

  /** Acknowledge `expected + 1 .. through` for a route; the value is the head afterwards. */
  ghost function Complete(db: Database, route: Route, expected: nat, through: nat): Result<(Database, nat)> {
    if route !in db.heads then Err("missing head")
    else if db.heads[route] >= through then Ok((db, db.heads[route]))
    else if db.heads[route] < expected then Err("completion cannot skip unresolved input")
    else Ok((Prune(db.(heads := db.heads[route := through])), through))
  }

  /** What recovery may read: rows of committed inputs and rows with a receipt. */
  predicate Visible(db: Database, position: nat) {
    && position in db.ops
    && db.ops[position].input in db.batches
    && (db.batches[db.ops[position].input].committed || HasReceipt(db.receipts, db.ops[position].input))
  }

  // --- The journal invariant -------------------------------------------------

  /** Exactly the positions above the floor are kept, with their published values. */
  ghost predicate Retains(db: Database, log: seq<Entry>) {
    && db.sequence == db.tail == |log|
    && db.floor <= db.tail
    && (forall p: nat :: p in db.ops <==> db.floor < p <= db.tail)
    && (forall p: nat :: p in db.ops ==> db.ops[p] == StoredRow(log[p - 1].input, log[p - 1].op))
  }

  /** No head lies outside the retained range. */
  ghost predicate HeadsWithin(db: Database) {
    forall r :: r in db.heads ==> db.floor <= db.heads[r] <= db.tail
  }

  /** Every published row belongs to a batch; an unfinished one keeps a receipt. */
  ghost predicate Accounted(db: Database, log: seq<Entry>) {
    forall i :: 0 <= i < |log| ==>
      && log[i].input in db.batches
      && (Committed(db, log[i].input) || HasReceipt(db.receipts, log[i].input))
  }

  ghost predicate Wf(db: Database, log: seq<Entry>) {
    && Retains(db, log)
    && HeadsWithin(db)
    && Accounted(db, log)
    && db.metadata == MetadataOf(log)
  }

  lemma EmptyWf()
    ensures Wf(EMPTY, [])
  {}

  lemma AllVisible(db: Database, log: seq<Entry>)
    requires Wf(db, log)
    ensures forall p: nat :: Visible(db, p) <==> db.floor < p <= db.tail
  {}

  /** Restarting an input never takes back a published operation. */
  lemma BeginKeeps(db: Database, log: seq<Entry>, input: nat, observation: bool)
    requires Wf(db, log)
    ensures Wf(Begin(db, input, observation).0, log)
    ensures Begin(db, input, observation).0.ops == db.ops
  {
    if !Committed(db, input) && !HasReceipt(db.receipts, input) {
      forall p | p in db.ops
        ensures db.ops[p].input != input
      {
        assert db.ops[p].input == log[p - 1].input;
      }
    }
  }

  lemma InsertKeeps(db: Database, log: seq<Entry>, input: nat, ordinal: nat, op: SpanOp)
    requires Wf(db, log) && input in db.batches
    ensures Wf(InsertOp(db, input, ordinal, op), log + [Entry(input, db.batches[input].observation, op)])
  {
    var next := InsertOp(db, input, ordinal, op);
    var grown := log + [Entry(input, db.batches[input].observation, op)];
    assert grown[..|grown| - 1] == log;
    assert Receipt(input, ordinal) in next.receipts;
    forall i | 0 <= i < |grown|
      ensures Committed(next, grown[i].input) || HasReceipt(next.receipts, grown[i].input)
    {
      if i < |log| && !Committed(db, log[i].input) {
        var r :| r in db.receipts && r.input == log[i].input;
        assert r in next.receipts;
      }
    }
  }

  lemma {:induction false} AppendFrame(db: Database, input: nat, first: nat, ops: seq<SpanOp>)
    requires input in db.batches && AppendRows(db, input, first, ops).Ok?
    ensures var next := AppendRows(db, input, first, ops).value.db;
            next.heads == db.heads && next.floor == db.floor && next.roots == db.roots && db.receipts <= next.receipts
  {
    if ops != [] {
      AppendFrame(db, input, first, ops[..|ops| - 1]);
    }
  }

  lemma AppendLast(db: Database, input: nat, first: nat, ops: seq<SpanOp>)
    requires input in db.batches && ops != [] && AppendRows(db, input, first, ops).Ok?
    ensures var last := |ops| - 1;
            && AppendRows(db, input, first, ops[..last]).Ok?
            && var before, after := AppendRows(db, input, first, ops[..last]).value, AppendRows(db, input, first, ops).value;
               if Receipt(input, first + last) in before.db.receipts then after.db == before.db && after.entries == before.entries
               else && after.db == InsertOp(before.db, input, first + last, ops[last])
                    && after.entries == before.entries + [Entry(input, db.batches[input].observation, ops[last])]
  {}

  lemma AppendNone(db: Database, input: nat, first: nat)
    requires input in db.batches
    ensures AppendRows(db, input, first, []) == Ok(Appended(db, [], []))
  {}

  lemma SumAssociates<T>(a: seq<T>, b: seq<T>, c: seq<T>)
    ensures a + (b + c) == a + b + c
  {}

  /** An append extends the history by the operations that had no receipt. */
  lemma {:induction false} AppendKeeps(db: Database, log: seq<Entry>, input: nat, first: nat, ops: seq<SpanOp>)
    requires Wf(db, log) && input in db.batches
    requires AppendRows(db, input, first, ops).Ok?
    ensures Wf(AppendRows(db, input, first, ops).value.db, log + AppendRows(db, input, first, ops).value.entries)
  {
    hide Wf, AppendRows, InsertOp;
    if ops == [] {
      AppendNone(db, input, first);
      assert log + [] == log;
    } else {
      var last := |ops| - 1;
      AppendLast(db, input, first, ops);
      AppendKeeps(db, log, input, first, ops[..last]);
      var before := AppendRows(db, input, first, ops[..last]).value;
      if Receipt(input, first + last) !in before.db.receipts {
        InsertKeeps(before.db, log + before.entries, input, first + last, ops[last]);
        SumAssociates(log, before.entries, [Entry(input, db.batches[input].observation, ops[last])]);
      }
    }
  }

  /** Pruning drops exactly the positions that every head has passed. */
  lemma PruneKeeps(db: Database, log: seq<Entry>)
    requires Wf(db, log)
    ensures Wf(Prune(db), log)
    ensures db.heads.Values != {} ==> Prune(db).floor == Min(db.heads.Values)
    ensures forall i :: i in db.batches && !db.batches[i].committed ==>
              forall r :: r in db.receipts && r.input == i ==> r in Prune(db).receipts
  {
    if db.heads.Values != {} {
      var next := Prune(db);
      var through := Min(db.heads.Values);
      var route :| route in db.heads && db.heads[route] == through;
      forall r | r in db.heads
        ensures through <= db.heads[r]
      {
        assert db.heads[r] in db.heads.Values;
      }
      forall i | 0 <= i < |log| && !Committed(db, log[i].input)
        ensures HasReceipt(next.receipts, log[i].input)
      {
        var r :| r in db.receipts && r.input == log[i].input;
        assert r in next.receipts;
      }
    }
  }

  lemma PruneFrame(db: Database)
    ensures var next := Prune(db);
            && next.batches == db.batches && next.roots == db.roots && next.heads == db.heads
            && next.receipts <= db.receipts
            && (forall c :: c in db.receipts && !Committed(db, c.input) ==> c in next.receipts)
  {}

  /** A commit decides one input and the held roots; unfinished inputs keep their receipts. */
  lemma CommitFrame(db: Database, input: nat, roots: Option<map<string, seq<SpanOp>>>)
    requires Commit(db, input, roots).Ok?
    ensures var next := Commit(db, input, roots).value;
            && next.batches == db.batches[input := db.batches[input].(committed := true)]
            && next.roots == (if roots.Some? then roots.value else db.roots)
            && next.heads == db.heads
            && next.receipts <= db.receipts
            && (forall c :: c in db.receipts && !Committed(next, c.input) ==> c in next.receipts)
  {
    PruneFrame(Marked(db, input, roots));
  }

  ghost predicate HeadsMoved(before: Database, after: Database, receipts: set<Receipt>) {
    && after.batches == before.batches && after.roots == before.roots && after.tail == before.tail
    && after.receipts == receipts && receipts <= before.receipts
    && (forall c :: c in before.receipts && !Committed(before, c.input) ==> c in receipts)
  }

  /** A change that only moves heads: batches and held roots stay, and so do the receipts of unfinished inputs. */
  ghost predicate OnlyHeads(before: Database, after: Database) {
    exists receipts :: HeadsMoved(before, after, receipts)
  }

  lemma NoHeads(db: Database)
    ensures OnlyHeads(db, db)
  {
    assert HeadsMoved(db, db, db.receipts);
  }

  lemma OnlyHeadsTwice(a: Database, b: Database, c: Database)
    requires OnlyHeads(a, b) && OnlyHeads(b, c)
    ensures OnlyHeads(a, c)
  {
    assert HeadsMoved(a, c, c.receipts);
  }

  lemma CompleteMovesHeads(db: Database, route: Route, expected: nat, through: nat)
    requires Complete(db, route, expected, through).Ok?
    ensures OnlyHeads(db, Complete(db, route, expected, through).value.0)
  {
    CompleteFrame(db, route, expected, through);
    var next := Complete(db, route, expected, through).value.0;
    assert HeadsMoved(db, next, next.receipts);
  }

  lemma CompleteFrame(db: Database, route: Route, expected: nat, through: nat)
    requires Complete(db, route, expected, through).Ok?
    ensures var next := Complete(db, route, expected, through).value.0;
            && next.batches == db.batches && next.roots == db.roots && next.receipts <= db.receipts
            && (forall c :: c in db.receipts && !Committed(db, c.input) ==> c in next.receipts)
  {
    if db.heads[route] < through {
      PruneFrame(db.(heads := db.heads[route := through]));
    }
  }

  lemma CommitKeeps(db: Database, log: seq<Entry>, input: nat, roots: Option<map<string, seq<SpanOp>>>)
    requires Wf(db, log)
    requires Commit(db, input, roots).Ok?
    ensures Wf(Commit(db, input, roots).value, log)
    ensures Commit(db, input, roots).value.tail == db.tail
    ensures db.floor <= Commit(db, input, roots).value.floor
  {
    var rows := set p | p in db.ops && db.ops[p].input <= input;
    assert Max(rows) <= db.tail;
    var marked := Marked(db, input, roots);
    assert Wf(marked, log);
    PruneKeeps(marked, log);
  }

  lemma RegisterKeeps(db: Database, log: seq<Entry>, route: Route)
    requires Wf(db, log)
    ensures Wf(Register(db, route), log)
  {}

  /** A registered route is given everything that is still stored. */
  lemma RegisterMissesNothing(db: Database, log: seq<Entry>, route: Route, p: nat)
    requires Wf(db, log) && route !in db.heads
    ensures p in db.ops <==> Register(db, route).heads[route] < p <= db.tail
  {}

  /** A subscribed route skips exactly what lies at or below the last operation of an acknowledged committed input. */
  lemma SubscribeSkips(db: Database, log: seq<Entry>, route: Route, legacyThrough: nat)
    requires Wf(db, log) && route !in db.heads
    ensures var head := Subscribe(db, route, legacyThrough).heads[route];
            && (forall p :: p in db.ops && db.ops[p].input <= legacyThrough && Committed(db, db.ops[p].input) ==> p <= head)
            && (head == db.floor
                || (head in db.ops && db.ops[head].input <= legacyThrough && Committed(db, db.ops[head].input)))
  {
    var rows := set p | p in db.ops && db.ops[p].input <= legacyThrough && Committed(db, db.ops[p].input);
    forall p | p in db.ops && db.ops[p].input <= legacyThrough && Committed(db, db.ops[p].input)
      ensures p <= Max(rows)
    {
      assert p in rows;
    }
  }

  /** After a commit everything up to the input is committed, and nothing beyond it is. */
  lemma CommitIsOrdered(db: Database, input: nat, roots: Option<map<string, seq<SpanOp>>>)
    requires Commit(db, input, roots).Ok?
    ensures forall i :: i in Commit(db, input, roots).value.batches ==> (Committed(Commit(db, input, roots).value, i) <==> i <= input)
  {
    CommitFrame(db, input, roots);
  }

  lemma SubscribeKeeps(db: Database, log: seq<Entry>, route: Route, legacyThrough: nat)
    requires Wf(db, log)
    ensures Wf(Subscribe(db, route, legacyThrough), log)
  {
    var rows := set p | p in db.ops && db.ops[p].input <= legacyThrough && Committed(db, db.ops[p].input);
    assert Max(rows) <= db.tail;
  }

  lemma CompleteKeeps(db: Database, log: seq<Entry>, route: Route, expected: nat, through: nat)
    requires Wf(db, log)
    requires through <= db.tail
    requires Complete(db, route, expected, through).Ok?
    ensures var r := Complete(db, route, expected, through).value;
            && Wf(r.0, log)
            && db.floor <= r.0.floor
            && r.0.heads == db.heads[route := r.1]
            && r.1 == (if db.heads[route] >= through then db.heads[route] else through)
  {
    if db.heads[route] < through {
      var moved := db.(heads := db.heads[route := through]);
      assert Wf(moved, log);
      PruneKeeps(moved, log);
    } else {
      assert db.heads == db.heads[route := db.heads[route]];
    }
  }

  // --- Each transaction, table by table --------------------------------------------------

  ghost predicate OnlyBatch(before: Database, after: Database, input: nat, batch: Batch) {
    && after.batches == before.batches[input := batch]
    && after == before.(batches := after.batches, ops := after.ops)
  }

  /** A committed input stays as it is; any other one is open afterwards, and loses its rows unless it has receipts for them. */
  lemma BeginExactly(db: Database, input: nat, observation: bool)
    ensures var (next, accepted) := Begin(db, input, observation);
            if input in db.batches && db.batches[input].committed then next == db && !accepted
            else
              && accepted && OnlyBatch(db, next, input, Batch(false, observation))
              && (forall p :: Lookup(next.ops, p) ==
                    if (forall o: nat :: Receipt(input, o) !in db.receipts) && p in db.ops && db.ops[p].input == input then None
                    else Lookup(db.ops, p))
  {
    assert HasReceipt(db.receipts, input) <==> exists o: nat :: Receipt(input, o) in db.receipts by {
      if HasReceipt(db.receipts, input) {
        var r :| r in db.receipts && r.input == input;
        assert r == Receipt(input, r.ordinal);
      }
    }
  }

  ghost predicate Unstored(db: Database, input: nat, first: nat, count: nat) {
    exists o: nat :: first <= o < first + count && Receipt(input, o) !in db.receipts
  }

  /** An append fails exactly for an input that was not begun, and for a committed one that would be added to. */
  lemma {:induction false} AppendFailsExactly(db: Database, input: nat, first: nat, ops: seq<SpanOp>)
    ensures Append(db, input, first, ops).Err? <==>
              input !in db.batches || (db.batches[input].committed && Unstored(db, input, first, |ops|))
    ensures input in db.batches && db.batches[input].committed && Append(db, input, first, ops).Ok? ==>
              Append(db, input, first, ops).value.db == db && Append(db, input, first, ops).value.entries == []
  {
    if input in db.batches && ops != [] {
      var last := |ops| - 1;
      AppendFailsExactly(db, input, first, ops[..last]);
      assert Unstored(db, input, first, |ops|) <==>
               Unstored(db, input, first, last) || Receipt(input, first + last) !in db.receipts;
      if !db.batches[input].committed {
        assert AppendRows(db, input, first, ops[..last]).Ok?;
      }
    }
  }

  ghost predicate LeastHead(db: Database, least: nat) {
    && (exists r :: r in db.heads && db.heads[r] == least)
    && (forall r :: r in db.heads ==> least <= db.heads[r])
  }

  /**
   * Without routes nothing is dropped. Otherwise exactly the rows up to the
   * least head go, and of the receipts exactly those of a committed input
   * that has no row left; the floor is at least that head, and nothing else
   * changes.
   */
  lemma PruneExactly(db: Database, least: nat)
    ensures db.heads == map[] ==> Prune(db) == db
    ensures LeastHead(db, least) ==>
              var next := Prune(db);
              && next == db.(ops := next.ops, floor := next.floor, receipts := next.receipts)
              && next.floor == (if db.floor > least then db.floor else least)
              && (forall p :: Lookup(next.ops, p) == if p > least then Lookup(db.ops, p) else None)
              && (forall r :: r in next.receipts <==>
                    r in db.receipts
                    && (!(r.input in db.batches && db.batches[r.input].committed)
                        || exists p :: p > least && p in db.ops && db.ops[p].input == r.input))
  {
    if db.heads != map[] {
      var route :| route in db.heads;
      assert db.heads[route] in db.heads.Values;
    } else {
      assert db.heads.Values == {};
    }
    if LeastHead(db, least) {
      forall v | v in db.heads.Values
        ensures least <= v
      {
        var r :| r in db.heads && db.heads[r] == v;
      }
      var r :| r in db.heads && db.heads[r] == least;
      assert least in db.heads.Values;
      assert Min(db.heads.Values) == least;
      LeftRows(db, least);
    }
  }

  lemma LeftRows(db: Database, least: nat)
    ensures forall input :: HasRow(RowsAbove(db.ops, least), input) <==> exists p :: p > least && p in db.ops && db.ops[p].input == input
  {
    forall input | exists p :: p > least && p in db.ops && db.ops[p].input == input
      ensures HasRow(RowsAbove(db.ops, least), input)
    {
      var p :| p > least && p in db.ops && db.ops[p].input == input;
      assert p in RowsAbove(db.ops, least);
    }
  }

  /** Inputs are committed in order, each after all before it; the roots are those that were given. */
  lemma CommitExactly(db: Database, input: nat, roots: Option<map<string, seq<SpanOp>>>)
    ensures Commit(db, input, roots).Ok? <==>
              && input in db.batches
              && (forall i :: i in db.batches && db.batches[i].committed ==> i <= input)
              && (forall i :: i in db.batches && i < input ==> db.batches[i].committed)
    ensures Commit(db, input, roots).Ok? ==>
              var next := Commit(db, input, roots).value;
              && next.batches == db.batches[input := Batch(true, db.batches[input].observation)]
              && next.roots == (if roots.Some? then roots.value else db.roots)
              && next.heads == db.heads && next.sequence == db.sequence && next.metadata == db.metadata
  {
    if Commit(db, input, roots).Ok? {
      PruneFrame(Marked(db, input, roots));
    }
  }

  /** A head is moved exactly if it is there and has reached the expected position, or has nothing to do. */
  lemma CompleteExactly(db: Database, route: Route, expected: nat, through: nat)
    ensures Complete(db, route, expected, through).Ok? <==>
              route in db.heads && (db.heads[route] >= through || db.heads[route] >= expected)
    ensures Complete(db, route, expected, through).Ok? ==>
              Complete(db, route, expected, through).value ==
                if db.heads[route] >= through then (db, db.heads[route])
                else (Prune(db.(heads := db.heads[route := through])), through)
  {}
}
