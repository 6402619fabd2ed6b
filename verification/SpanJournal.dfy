/**
 * The span journal: transactions over the durable tables, the live feed to
 * its subscribers and the weak replay cache they share.
 */
module SpanJournal {
  import opened Wrappers
  import opened Spans
  import opened Store
  import opened Live

  lemma {:induction false} AppendSplits(db: Database, input: nat, first: nat, a: seq<SpanOp>, b: seq<SpanOp>)
    requires input in db.batches && AppendRows(db, input, first, a).Ok?
    ensures var left := AppendRows(db, input, first, a).value;
            var right := AppendRows(left.db, input, first + |a|, b);
            AppendRows(db, input, first, a + b)
            == if right.Err? then right
               else Ok(Appended(right.value.db, left.positions + right.value.positions, left.entries + right.value.entries))
  {
    if b == [] {
      assert a + b == a;
      var left := AppendRows(db, input, first, a).value;
      assert left.entries + [] == left.entries && left.positions + [] == left.positions;
    } else {
      var last := |b| - 1;
      assert (a + b)[..|a + b| - 1] == a + b[..last] && (a + b)[|a + b| - 1] == b[last];
      AppendSplits(db, input, first, a, b[..last]);
      var left := AppendRows(db, input, first, a).value;
      var right := AppendRows(left.db, input, first + |a|, b[..last]);
      if right.Ok? {
        assert first + (|a + b| - 1) == first + |a| + last;
        Snoc(left.positions, right.value.positions, None);
        Snoc(left.entries, right.value.entries, Entry(input, db.batches[input].observation, b[last]));
        Snoc(left.positions, right.value.positions, Some(right.value.db.sequence + 1));
      }
    }
  }

  lemma Snoc<T>(a: seq<T>, b: seq<T>, x: T)
    ensures a + (b + [x]) == a + b + [x]
  {}

  /** The effect of appending operations to the tables and the history. */
  ghost predicate Wrote(before: Database, history: seq<Entry>, after: Database, log: seq<Entry>,
                        input: nat, first: nat, ops: seq<SpanOp>)
  {
    if ops == [] then after == before && log == history
    else
      && Append(before, input, first, ops).Ok?
      && after == Append(before, input, first, ops).value.db
      && log == history + Append(before, input, first, ops).value.entries
  }

  /** Consecutive chunks add up to one longer append. */
  lemma WroteBoth(db0: Database, log0: seq<Entry>, db1: Database, log1: seq<Entry>, db2: Database, log2: seq<Entry>,
                  input: nat, first: nat, a: seq<SpanOp>, b: seq<SpanOp>)
    requires Wrote(db0, log0, db1, log1, input, first, a)
    requires Wrote(db1, log1, db2, log2, input, first + |a|, b)
    ensures Wrote(db0, log0, db2, log2, input, first, a + b)
  {
    if a == [] {
      assert a + b == b;
    } else if b == [] {
      assert a + b == a;
    } else {
      AppendSplits(db0, input, first, a, b);
      var left := Append(db0, input, first, a).value.entries;
      var right := Append(db1, input, first + |a|, b).value.entries;
      assert log0 + left + right == log0 + (left + right);
    }
  }

  /** Every assigned position names the operation that was written there. */
  lemma {:induction false} PositionsName(db: Database, input: nat, first: nat, ops: seq<SpanOp>, i: nat)
    requires input in db.batches && AppendRows(db, input, first, ops).Ok? && i < |ops|
    ensures var a := AppendRows(db, input, first, ops).value;
            && a.db.sequence == db.sequence + |a.entries|
            && (a.positions[i].Some? ==>
                 && db.sequence < a.positions[i].value <= a.db.sequence
                 && a.entries[a.positions[i].value - db.sequence - 1].op == ops[i])
  {
    var last := |ops| - 1;
    if i < last {
      PositionsName(db, input, first, ops[..last], i);
    } else if last > 0 {
      PositionsName(db, input, first, ops[..last], last - 1);
    }
  }

  /** The last position that was assigned, if any was. */
  function LastOf(positions: seq<Option<nat>>, none: nat): nat {
    if positions == [] then none
    else if positions[|positions| - 1].Some? then positions[|positions| - 1].value
    else LastOf(positions[..|positions| - 1], none)
  }

  lemma {:induction false} LastIsTail(db: Database, input: nat, first: nat, ops: seq<SpanOp>, none: nat)
    requires input in db.batches && AppendRows(db, input, first, ops).Ok?
    ensures var a := AppendRows(db, input, first, ops).value;
            LastOf(a.positions, none) == if a.entries == [] then none else a.db.tail
  {
    if ops != [] {
      LastIsTail(db, input, first, ops[..|ops| - 1], none);
      var positions := AppendRows(db, input, first, ops).value.positions;
      assert positions[..|positions| - 1] == AppendRows(db, input, first, ops[..|ops| - 1]).value.positions;
    }
  }

  /** Readers are told of the tail whenever something was published. */
  predicate Announced(changed: nat, before: nat, published: nat, db: Database) {
    changed == if published > 0 then db.tail else before
  }

  function Total(sizes: seq<nat>): nat {
    if sizes == [] then 0 else Total(sizes[..|sizes| - 1]) + sizes[|sizes| - 1]
  }

  lemma TotalGrows(sizes: seq<nat>, value: nat)
    ensures Total(sizes + [value]) == Total(sizes) + value
  {
    assert (sizes + [value])[..|sizes|] == sizes;
  }

  method LeastOf(values: set<nat>) returns (least: nat)
    requires values != {}
    ensures least == Min(values)
  {
    least :| least in values;
    var rest := values - {least};
    while rest != {}
      invariant least in values && rest <= values
      invariant forall v :: v in values && v !in rest ==> least <= v
      decreases rest
    {
      var v :| v in rest;
      if v < least {
        least := v;
      }
      rest := rest - {v};
    }
  }

  method GreatestOf(values: set<nat>) returns (greatest: nat)
    ensures greatest == Max(values)
  {
    greatest := 0;
    var rest := values;
    while rest != {}
      invariant rest <= values
      invariant greatest in values || (greatest == 0 && rest == values)
      invariant forall v :: v in values && v !in rest ==> v <= greatest
      decreases rest
    {
      var v :| v in rest;
      if v >= greatest {
        greatest := v;
      }
      rest := rest - {v};
    }
  }

  /** The deletions that end a transaction. */
  method PruneTables(db: Database) returns (next: Database)
    ensures next == Prune(db)
  {
    next := db;
    if db.heads.Values != {} {
      var through := LeastOf(db.heads.Values);
      next := next.(ops := RowsAbove(next.ops, through));
      if next.floor < through {
        next := next.(floor := through);
      }
      next := next.(receipts := NeededReceipts(next));
    }
  }

  class Journal {
    var db: Database
    var changed: nat
    var replay: seq<Record>
    const live: Multiplexer
    /** Everything that was ever published. */
    ghost var log: seq<Entry>

    ghost predicate Valid()
      reads this, live, live.routes
    {
      && Wf(db, log)
      && changed <= |log|
      && (replay != [] ==> Run(replay, replay[0].position, log))
      && live.Distinct()
      && (forall route <- live.routes :: Faithful(route.queue, log))
    }

    constructor ()
      ensures Valid() && db == EMPTY && log == [] && fresh(live) && live.routes == []
    {
      db, changed, replay, log := EMPTY, 0, [], [];
      live := new Multiplexer();
    }

    /** What a restarted process has: the tables, but no cache and no news. */
    method Reopen()
      requires Valid()
      modifies this`changed, this`replay
      ensures Valid() && changed == db.tail && replay == []
    {
      replay := [];
      changed := db.tail;
    }

    method Begin(input: nat, observation: bool) returns (accepted: bool)
      requires Valid()
      modifies this`db
      ensures Valid()
      ensures (db, accepted) == Store.Begin(old(db), input, observation)
    {
      BeginKeeps(db, log, input, observation);
      if input in db.batches && db.batches[input].committed {
        return false;
      }
      var tx := db;
      if !HasReceipt(tx.receipts, input) {
        tx := tx.(ops := map p | p in tx.ops && tx.ops[p].input != input :: tx.ops[p]);
      }
      tx := tx.(batches := tx.batches[input := Batch(false, observation)]);
      db := tx;
      return true;
    }

    /** Write one chunk in one transaction; a failure leaves every table as it was. */
    method AppendChunk(input: nat, first: nat, ops: seq<SpanOp>) returns (r: Result<seq<Option<nat>>>)
      requires Valid()
      modifies this`db, this`log
      ensures Valid()
      ensures r.Err? ==> db == old(db) && log == old(log)
      ensures r.Ok? ==> && Append(old(db), input, first, ops).Ok?
                        && var a := Append(old(db), input, first, ops).value;
                           db == a.db && log == old(log) + a.entries && r.value == a.positions
    {
      hide HeadsWithin, Accounted;
      var unavailable: bool := *;
      if unavailable {
        return Err("storage failure");
      }
      if input !in db.batches {
        return Err("missing translation batch");
      }
      var tx, positions: seq<Option<nat>> := db, [];
      var batch := tx.batches[input];
      ghost var entries := [];
      for index := 0 to |ops|
        invariant AppendRows(old(db), input, first, ops[..index]) == Ok(Appended(tx, positions, entries))
      {
        assert ops[..index + 1][..index] == ops[..index];
        var ordinal := first + index;
        if Receipt(input, ordinal) in tx.receipts {
          positions := positions + [None];
          continue;
        }
        if batch.committed {
          return Err("cannot change a completed translation input");
        }
        var position := tx.sequence + 1;
        tx := tx.(metadata := SaveMetadata(tx.metadata, ops[index], batch.observation));
        tx := tx.(ops := tx.ops[position := StoredRow(input, ops[index])], sequence := position);
        positions := positions + [Some(position)];
        tx := tx.(tail := position);
        tx := tx.(receipts := tx.receipts + {Receipt(input, ordinal)});
        entries := entries + [Entry(input, batch.observation, ops[index])];
      }
      assert ops[..|ops|] == ops;
      AppendKeeps(db, log, input, first, ops);
      db := tx;
      ghost var before := log;
      log := log + entries;
      forall route <- live.routes
        ensures Faithful(route.queue, log)
      {
        FaithfulGrows(route.queue, before, entries);
      }
      FaithfulGrows(replay, before, entries);
      return Ok(positions);
    }

    method PublishOne(record: Record)
      requires Valid()
      requires 0 < record.position <= |log| && record.op == log[record.position - 1].op
      modifies this`changed, live.routes
      ensures Valid() && changed == record.position
      ensures forall route <- live.routes :: route.paused == old(route.paused)
    {
      live.Publish(record);
      changed := record.position;
    }

    /** Hand a stored chunk to the live routes, in order. */
    method PublishChunk(ops: seq<SpanOp>, sizes: seq<nat>, positions: seq<Option<nat>>)
      requires Valid() && |sizes| == |positions| == |ops|
      requires forall i :: 0 <= i < |ops| && positions[i].Some? ==>
                 0 < positions[i].value <= |log| && ops[i] == log[positions[i].value - 1].op
      modifies this`changed, live.routes
      ensures Valid() && changed == LastOf(positions, old(changed))
    {
      for i := 0 to |ops|
        invariant Valid() && changed == LastOf(positions[..i], old(changed))
      {
        assert positions[..i + 1][..i] == positions[..i];
        if positions[i].Some? {
          PublishOne(Record(positions[i].value, ops[i], sizes[i]));
        }
      }
      assert positions[..|ops|] == positions;
    }

    /** Take operations until the byte budget or the window ends the chunk. */
    static method Measure(ops: seq<SpanOp>) returns (sizes: seq<nat>)
      ensures |sizes| <= |ops|
      ensures |sizes| > 1 ==> Total(sizes) <= 262144
    {
      var bytes := 0;
      sizes := [];
      while |sizes| < |ops|
        invariant |sizes| <= |ops| && bytes == Total(sizes)
        invariant |sizes| > 1 ==> bytes <= 262144
      {
        var value: nat := *;
        TotalGrows(sizes, value);
        if sizes != [] && bytes + value > BYTE_BUDGET {
          break;
        }
        bytes := bytes + value;
        sizes := sizes + [value];
        var late: bool := *;
        if bytes >= BYTE_BUDGET || late {
          break;
        }
      }
    }

    /** One round of `AppendLive`; `count` is zero when nothing was written. */
    method AppendNext(input: nat, first: nat, ops: seq<SpanOp>) returns (count: nat)
      requires Valid()
      modifies this`db, this`log, this`changed, live.routes
      ensures Valid()
      ensures count <= |ops|
      ensures Wrote(old(db), old(log), db, log, input, first, ops[..count])
      ensures |old(log)| <= |log| && Announced(changed, old(changed), |log| - |old(log)|, db)
    {
      hide HeadsWithin, Accounted, MetadataOf, AppendRows, Total, Faithful, Run;
      var sizes := Measure(ops);
      if sizes == [] {
        // The encoder failed on the first operation.
        return 0;
      }
      var chunk := ops[..|sizes|];
      var positions := AppendChunk(input, first, chunk);
      if positions.Err? {
        return 0;
      }
      forall i | 0 <= i < |chunk| && positions.value[i].Some?
        ensures 0 < positions.value[i].value <= |log| && chunk[i] == log[positions.value[i].value - 1].op
      {
        PositionsName(old(db), input, first, chunk, i);
      }
      LastIsTail(old(db), input, first, chunk, old(changed));
      PublishChunk(chunk, sizes, positions.value);
      return |sizes|;
    }

    /**
     * Journal what is available, chunk by chunk. Whatever happens, the tables
     * hold a whole number of operations, and the rest is given back.
     */
    method AppendLive(input: nat, first: nat, ops: seq<SpanOp>) returns (ok: bool, ordinal: nat, rest: seq<SpanOp>)
      requires Valid()
      modifies this`db, this`log, this`changed, live.routes
      ensures Valid()
      ensures |rest| <= |ops| && rest == ops[|ops| - |rest|..] && ordinal == first + |ops| - |rest|
      ensures ok ==> rest == []
      ensures Wrote(old(db), old(log), db, log, input, first, ops[..|ops| - |rest|])
      ensures |old(log)| <= |log| && Announced(changed, old(changed), |log| - |old(log)|, db)
      ensures changed == if |log| > |old(log)| then |log| else old(changed)
    {
      hide HeadsWithin, Accounted, MetadataOf, Faithful, Run, AppendRows;
      ordinal, rest := first, ops;
      ghost var done: nat := 0;
      while rest != []
        invariant Valid()
        invariant done <= |ops| && rest == ops[done..] && ordinal == first + done
        invariant Wrote(old(db), old(log), db, log, input, first, ops[..done])
        invariant |old(log)| <= |log| && Announced(changed, old(changed), |log| - |old(log)|, db)
        decreases |rest|
      {
        ghost var before, history := db, log;
        var count := AppendNext(input, ordinal, rest);
        if count == 0 {
          return false, ordinal, rest;
        }
        WroteBoth(old(db), old(log), before, history, db, log, input, first, ops[..done], rest[..count]);
        assert ops[..done] + rest[..count] == ops[..done + count];
        ordinal := ordinal + count;
        rest := rest[count..];
        done := done + count;
      }
      return true, ordinal, rest;
    }

    /** The checks of a commit, in the order of its queries. */
    method CheckCommit(input: nat, ghost roots: Option<map<string, seq<SpanOp>>>) returns (problem: Option<string>)
      ensures problem.None? ==> Store.Commit(db, input, roots).Ok?
      ensures problem.Some? ==> Store.Commit(db, input, roots) == Err(problem.value)
    {
      var committed := set i | i in db.batches && db.batches[i].committed;
      var previous := GreatestOf(committed);
      assert forall i :: i in db.batches && db.batches[i].committed ==> i in committed;
      if input < previous {
        return Some("translation commits must be ordered");
      }
      if exists i :: i in db.batches && !db.batches[i].committed && i < input {
        return Some("translation cannot publish past an unfinished input");
      }
      if input !in db.batches {
        return Some("missing translation batch");
      }
      return None;
    }

    method CommitOutput(input: nat, roots: Option<map<string, seq<SpanOp>>>) returns (r: Result<nat>)
      requires Valid()
      modifies this`db, this`changed
      ensures Valid()
      ensures r.Err? ==> db == old(db) && changed == old(changed)
      ensures r.Ok? ==> && Store.Commit(old(db), input, roots) == Ok(db)
                        && r.value == changed == db.tail == old(db).tail
    {
      hide Accounted, MetadataOf;
      var unavailable: bool := *;
      if unavailable {
        return Err("storage failure");
      }
      var problem := CheckCommit(input, roots);
      if problem.Some? {
        return Err(problem.value);
      }
      CommitKeeps(db, log, input, roots);
      var tx := db;
      var last := GreatestOf(set p | p in tx.ops && tx.ops[p].input <= input);
      tx := tx.(batches := tx.batches[input := tx.batches[input].(committed := true)]);
      if roots.Some? {
        tx := tx.(roots := roots.value);
      }
      if tx.tail < last {
        tx := tx.(tail := last);
      }
      tx := PruneTables(tx);
      db := tx;
      changed := db.tail;
      return Ok(db.tail);
    }

    method Register(route: Store.Route)
      requires Valid()
      modifies this`db
      ensures Valid()
      ensures db == Store.Register(old(db), route)
    {
      RegisterKeeps(db, log, route);
      if route !in db.heads {
        db := db.(heads := db.heads[route := db.floor]);
      }
    }

    method Subscribe(route: Store.Route, legacyThrough: nat) returns (receiver: Live.Route, position: nat)
      requires Valid()
      modifies this`db, live
      ensures Valid() && fresh(receiver) && receiver in live.routes && receiver.queue == []
      ensures live.routes == old(live.routes) + [receiver]
      ensures db == Store.Subscribe(old(db), route, legacyThrough)
      ensures route in db.heads && position == db.heads[route]
    {
      receiver := live.Subscribe();
      SubscribeKeeps(db, log, route, legacyThrough);
      var tx := db;
      var legacy := GreatestOf(set p | p in tx.ops && tx.ops[p].input <= legacyThrough && Committed(tx, tx.ops[p].input));
      if route !in tx.heads {
        tx := tx.(heads := tx.heads[route := if legacy > tx.floor then legacy else tx.floor]);
      }
      db := tx;
      position := db.heads[route];
    }

    method CompleteHead(route: Store.Route, expected: nat, through: nat) returns (r: Result<nat>)
      requires Valid() && through <= |log|
      modifies this`db
      ensures Valid()
      ensures r.Err? ==> db == old(db)
      ensures r.Ok? ==> Store.Complete(old(db), route, expected, through) == Ok((db, r.value))
    {
      var unavailable: bool := *;
      if unavailable || route !in db.heads {
        return Err("storage failure");
      }
      var tx := db;
      var head := tx.heads[route];
      if head >= through {
        return Ok(head);
      }
      if head < expected {
        return Err("completion cannot skip unresolved input");
      }
      tx := tx.(heads := tx.heads[route := through]);
      tx := PruneTables(tx);
      CompleteKeeps(db, log, route, expected, through);
      db := tx;
      return Ok(through);
    }

    /** The part of the cache after a position, unless one of its operations is gone. */
    method Cached(after: nat) returns (records: Option<seq<Record>>)
      requires Valid() && replay != []
      requires replay[0].position <= after + 1 && replay[|replay| - 1].position > after
      ensures records.Some? ==> records.value != [] && Run(records.value, after + 1, log)
    {
      var shared := [];
      for i := 0 to |replay|
        invariant Run(shared, after + 1, log)
        invariant |shared| == (if replay[0].position + i > after + 1 then replay[0].position + i - (after + 1) else 0)
      {
        if replay[i].position > after {
          var released: bool := *;
          if released {
            return None;
          }
          shared := shared + [replay[i]];
        }
      }
      return Some(shared);
    }

    /** One bounded read of the table, in position order: it starts right above the position, or above the floor if that is higher. */
    method ReadRows(after: nat) returns (records: seq<Record>)
      requires Valid()
      ensures Run(records, (if after < db.floor then db.floor else after) + 1, log)
      ensures records == [] ==> db.tail <= after || db.tail == db.floor
      ensures |records| > 1 ==> Bytes(records) <= 262144
    {
      hide HeadsWithin, Accounted, MetadataOf, Run, Faithful, Bytes;
      ghost var first := (if after < db.floor then db.floor else after) + 1;
      records := [];
      NothingRuns(first);
      var bytes := 0;
      for position := after + 1 to if db.sequence > after then db.sequence + 1 else after + 1
        invariant Run(records, first, log)
        invariant |records| == if position > first then position - first else 0
        invariant bytes == Bytes(records) && (|records| > 1 ==> bytes <= 262144)
      {
        Sees(position);
        if Visible(db, position) {
          var value: nat := *;
          if records != [] && bytes + value > BYTE_BUDGET {
            break;
          }
          bytes := bytes + value;
          BytesGrow(records, Record(position, db.ops[position].op, value));
          RunGrows(records, first, Record(position, db.ops[position].op, value), log);
          records := records + [Record(position, db.ops[position].op, value)];
          var late: bool := *;
          if bytes >= BYTE_BUDGET || late {
            break;
          }
        }
      }
    }

    lemma NothingRuns(first: nat)
      ensures Run([], first, log) && Bytes([]) == 0
    {}

    /** The query admits a position exactly when it is retained, and reads what was published there. */
    lemma Sees(position: nat)
      requires Valid()
      ensures Visible(db, position) <==> db.floor < position <= db.tail
      ensures Visible(db, position) ==> position <= |log| && db.ops[position].op == log[position - 1].op
    {
      AllVisible(db, log);
    }

    /**
     * Published operations after a position, from the shared cache or from the
     * table: consecutive, and starting right after it unless the table has
     * already dropped what follows it.
     */
    method RecoverAfter(after: nat) returns (r: Result<seq<Record>>)
      requires Valid()
      modifies this`replay
      ensures Valid()
      ensures r == Ok([]) ==> db.tail <= after || db.tail == db.floor
      ensures r.Ok? && r.value != [] ==>
                && Run(r.value, r.value[0].position, log)
                && (r.value[0].position == after + 1 || (after < db.floor && r.value[0].position == db.floor + 1))
    {
      if replay != [] && replay[0].position <= after + 1 && replay[|replay| - 1].position > after {
        var shared := Cached(after);
        if shared.Some? {
          return Ok(shared.value);
        }
      }
      var unavailable: bool := *;
      if unavailable {
        return Err("storage failure");
      }
      replay := ReadRows(after);
      return Ok(replay);
    }
  }
}
