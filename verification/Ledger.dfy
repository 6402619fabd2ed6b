/**
 * The delivery ledger of one process over the shared log and its index. Every
 * call may fail wherever a write or a query may fail; a crash is a failure
 * after which the process is not used again.
 */
module Ledger {
  import opened Wrappers
  import opened Spans
  import opened LedgerLog

  /** Disk index of first origins and completed ids. */
  class OriginIndex {
    var origins: map<string, Origin>
    var completed: set<string>
    var lateMerges: set<string>

    constructor ()
      ensures origins == map[] && completed == {} && lateMerges == {}
    {
      origins, completed, lateMerges := map[], {}, {};
    }

    method RebuildCompleted(codec: Codec, base: Update, bytes: seq<Byte>, ghost records: seq<Update>) returns (ok: bool)
      requires codec.Valid() && Holds(codec, bytes, records)
      modifies this`completed, this`lateMerges
      ensures ok ==> completed == CompletedOf(base, records) && lateMerges == LateMergesOf(base, records)
      ensures !ok ==> completed == old(completed) && lateMerges == old(lateMerges)
    {
      var spans, merges := base.completed, base.lateMerges;
      var at := 0;
      ghost var k := 0;
      while true
        invariant completed == old(completed) && lateMerges == old(lateMerges)
        invariant k <= |records| && at == |codec.Written(records[..k])| <= |bytes|
        invariant spans == CompletedOf(base, records[..k]) && merges == LateMergesOf(base, records[..k])
        decreases |records| - k
      {
        var line := ReadLine(bytes, at);
        if k == |records| {
          assert records[..k] == records;
          NoMoreLines(codec, bytes, records, line);
        } else {
          LineIsRecord(codec, bytes, records, k, line);
          WrittenGrows(codec, records, k + 1);
          assert records[..k + 1][..k] == records[..k];
        }
        if line == [] || line[|line| - 1] != NEWLINE {
          break;
        }
        var update := codec.decode(line);
        if update.None? {
          return false;
        }
        spans := spans + update.value.completed;
        merges := merges + update.value.lateMerges;
        at := at + |line|;
        k := k + 1;
      }
      var unavailable: bool := *;
      if unavailable {
        return false;
      }
      completed, lateMerges := spans, merges;
      return true;
    }

    method RememberCompleted(spans: set<string>, merges: set<string>) returns (ok: bool)
      modifies this`completed, this`lateMerges
      ensures ok ==> completed == old(completed) + spans && lateMerges == old(lateMerges) + merges
      ensures !ok ==> completed == old(completed) && lateMerges == old(lateMerges)
    {
      if spans == {} && merges == {} {
        return true;
      }
      var unavailable: bool := *;
      if unavailable {
        return false;
      }
      completed, lateMerges := completed + spans, lateMerges + merges;
      return true;
    }

    method Completed(spans: set<string>, merges: set<string>) returns (ok: bool, known: set<string>, knownMerges: set<string>)
      ensures ok ==> known == spans * completed && knownMerges == merges * lateMerges
    {
      ok := *;
      known, knownMerges := spans * completed, merges * lateMerges;
    }

    /** Insert what is missing, after deleting everything when replacing. */
    method Write(added: map<string, Origin>, replace: bool) returns (ok: bool)
      modifies this`origins
      ensures ok ==> origins == if replace then added else added + old(origins)
      ensures !ok ==> origins == old(origins)
    {
      var unavailable: bool := *;
      if unavailable {
        return false;
      }
      var tx := if replace then map[] else origins;
      ghost var start := tx;
      var rest := added.Keys;
      while rest != {}
        invariant rest <= added.Keys
        invariant forall s :: s in tx <==> s in start || (s in added && s !in rest)
        invariant forall s :: s in tx ==> tx[s] == if s in start then start[s] else added[s]
        decreases rest
      {
        var span :| span in rest;
        if span !in tx {
          tx := tx[span := added[span]];
        }
        rest := rest - {span};
      }
      origins := tx;
      return true;
    }

    method Find(spans: set<string>) returns (ok: bool, found: map<string, Origin>)
      ensures ok ==> found == map s | s in spans && s in origins :: origins[s]
    {
      ok := *;
      found := map s | s in spans && s in origins :: origins[s];
    }
  }

  /** A row that left a process: the log when its call began and when it was handed over. */
  datatype Handed = Handed(op: SpanOp, began: seq<Update>, durable: seq<Update>)

  function LateMergeId(row: SpanRow): string
    requires row.lateMergeKey.Some?
  {
    row.spanId + "\U{1F}" + row.lateMergeKey.value
  }

  /** The row carries the origin of the first durable entry that names its span. */
  ghost predicate Provenance(base: Update, h: Handed) {
    h.op.row.origin.Some? ==> Lookup(OriginsOf(base, h.durable), h.op.row.spanId) == h.op.row.origin
  }

  /** The row was not already completed when its call began. */
  ghost predicate Unsuppressed(base: Update, h: Handed) {
    if h.op.row.lateMergeKey.Some? then LateMergeId(h.op.row) !in LateMergesOf(base, h.began)
    else h.op.row.spanId !in CompletedOf(base, h.began)
  }

  // --- Rows that a backend took -----------------------------------------------------

  /** One of the rows ends the span. */
  ghost predicate Ends(rows: set<SpanOp>, span: string) {
    exists op :: op in rows && op.row.spanId == span && op.row.endMs.Some?
  }

  /** One of the rows is the late merge of that id: its span and its key, with a separator. */
  ghost predicate Merges(rows: set<SpanOp>, id: string) {
    exists op :: op in rows && op.row.lateMergeKey.Some? && id == op.row.spanId + "\U{1F}" + op.row.lateMergeKey.value
  }

  /** One of the rows has that version. */
  ghost predicate Versions(rows: set<SpanOp>, span: string, version: Version) {
    exists op :: op in rows && op.row.spanId == span && op.row.lateMergeVersion == Some(version)
  }

  /** Whatever the record says was delivered, one of the rows delivered. */
  ghost predicate Backed(u: Update, rows: set<SpanOp>) {
    && (forall span :: span in u.completed ==> Ends(rows, span))
    && (forall id :: id in u.lateMerges ==> Merges(rows, id))
    && (forall span :: span in u.versions ==> Versions(rows, span, u.versions[span]))
  }

  lemma BackedLater(u: Update, rows: set<SpanOp>, more: set<SpanOp>)
    requires Backed(u, rows) && rows <= more
    ensures Backed(u, more)
  {}

  /** Whatever the row delivered is durable. */
  ghost predicate Settles(base: Update, records: seq<Update>, op: SpanOp) {
    && (op.row.endMs.Some? ==> DoneIn(base, records, op.row.spanId))
    && (op.row.lateMergeKey.Some? ==> MergedIn(base, records, op.row.spanId + "\U{1F}" + op.row.lateMergeKey.value))
    && (op.row.lateMergeVersion.Some? ==> ReachedIn(base, records, op.row.spanId, op.row.lateMergeVersion.value.ts))
  }

  lemma SettlesLater(base: Update, records: seq<Update>, more: seq<Update>, op: SpanOp)
    requires Settles(base, records, op) && records <= more
    ensures Settles(base, more, op)
  {
    assert forall u :: u in records ==> u in more;
    if op.row.lateMergeVersion.Some? {
      ReachedLater(base, records, more, op.row.spanId, op.row.lateMergeVersion.value.ts);
    }
  }

  /** What every process shares: the log file, its index and the history. */
  class SharedLog {
    const codec: Codec
    const base: Update
    const index: OriginIndex
    var bytes: seq<Byte>
    ghost var records: seq<Update>
    /** Rows that some backend accepted before a flush of it succeeded. */
    ghost var flushed: set<SpanOp>
    /** Rows whose flush was also made durable. */
    ghost var settled: set<SpanOp>
    ghost var handed: seq<Handed>

    ghost predicate Valid()
      reads this, index
    {
      && codec.Valid()
      && Holds(codec, bytes, records)
      && SubMap(index.origins, OriginsOf(base, records))
      && index.completed <= CompletedOf(base, records)
      && index.lateMerges <= LateMergesOf(base, records)
      && (forall u :: u in records ==> Backed(u, flushed))
      && (forall op :: op in settled ==> Settles(base, records, op))
      && (forall h :: h in handed ==> Provenance(base, h) && Unsuppressed(base, h) && h.began <= h.durable <= records)
    }

    ghost function Seen(): View
      reads this, index
    {
      View(records, index.origins, index.completed, index.lateMerges)
    }

    constructor (codec: Codec, base: Update)
      requires codec.Valid()
      ensures Valid() && records == [] && handed == [] && fresh(index)
      ensures this.codec == codec && this.base == base
    {
      this.codec, this.base := codec, base;
      bytes, records, flushed, settled, handed := [], [], {}, {}, [];
      index := new OriginIndex();
    }

    ghost method NoteHanded(rows: seq<Handed>)
      requires Valid()
      requires forall h :: h in rows ==> Provenance(base, h) && Unsuppressed(base, h) && h.began <= h.durable <= records
      modifies this`handed
      ensures Valid() && handed == old(handed) + rows
    {
      handed := handed + rows;
    }

    /** A flush of a backend succeeded: what it had accepted counts as delivered. */
    ghost method NoteFlushed(rows: set<SpanOp>)
      requires Valid()
      modifies this`flushed
      ensures Valid() && flushed == old(flushed) + rows
    {
      flushed := flushed + rows;
      forall u | u in records
        ensures Backed(u, flushed)
      {
        BackedLater(u, old(flushed), flushed);
      }
    }

    /** What was flushed is now durable. */
    ghost method NoteSettled(rows: set<SpanOp>)
      requires Valid() && forall op :: op in rows ==> Settles(base, records, op)
      modifies this`settled
      ensures Valid() && settled == old(settled) + rows
    {
      settled := settled + rows;
    }

    /** Cut the file at `length` and write a line; any number of its bytes may arrive. */
    method WriteLine(length: nat, u: Update) returns (ok: bool)
      requires Valid() && length == |codec.Written(records)|
      requires Backed(u, flushed)
      modifies this`bytes, this`records
      ensures Valid()
      ensures ok ==> records == old(records) + [u]
      ensures !ok ==> records == old(records) || records == old(records) + [u]
      ensures codec.Written(old(records)) <= bytes
    {
      var line := codec.Line(u);
      var unavailable: bool := *;
      if unavailable {
        return false;
      }
      var written :| 0 <= written <= |line|;
      AppendKeepsRecords(codec, bytes, records, u, written);
      FoldsGrow(base, records, [u]);
      assert (records + [u])[..|records|] == records;
      bytes := bytes[..length];
      bytes := bytes + line[..written];
      if written == |line| {
        forall op | op in settled
          ensures Settles(base, records + [u], op)
        {
          SettlesLater(base, records, records + [u], op);
        }
        records := records + [u];
      }
      ok := *;
      ok := ok && written == |line|;
    }
  }

  /** A log and index that only gained records and entries. */
  datatype View = View(records: seq<Update>, origins: map<string, Origin>, completed: set<string>, lateMerges: set<string>)

  ghost predicate Grows(v: View, w: View) {
    && v.records <= w.records
    && SubMap(v.origins, w.origins) && v.completed <= w.completed && v.lateMerges <= w.lateMerges
  }

  /** A process has read `seen` records, and the index holds at least those. */
  ghost predicate Tracks(codec: Codec, base: Update, v: View, length: nat, seen: nat) {
    && seen <= |v.records|
    && length == |codec.Written(v.records[..seen])|
    && SubMap(OriginsOf(base, v.records[..seen]), v.origins)
    && CompletedOf(base, v.records[..seen]) <= v.completed
    && LateMergesOf(base, v.records[..seen]) <= v.lateMerges
  }

  /** Its watermarks are those of what it read, some of it perhaps twice. */
  ghost predicate Marks(base: Update, records: seq<Update>, known: map<string, Version>, seen: nat, reread: seq<Update>) {
    && seen <= |records|
    && (forall u :: u in reread ==> u in records[seen..])
    && (forall span :: Lookup(known, span)
          == Watermark(Watermark(Lookup(base.versions, span), records[..seen], span), reread, span))
  }

  /** What the other processes do leaves a process where it was. */
  lemma TracksLater(codec: Codec, base: Update, v: View, w: View, length: nat, seen: nat)
    requires Tracks(codec, base, v, length, seen) && Grows(v, w)
    ensures Tracks(codec, base, w, length, seen)
  {
    assert w.records[..seen] == v.records[..seen];
  }

  lemma MarksLater(base: Update, records: seq<Update>, more: seq<Update>, known: map<string, Version>, seen: nat, reread: seq<Update>)
    requires Marks(base, records, known, seen, reread) && records <= more
    ensures Marks(base, more, known, seen, reread)
  {
    assert more[..seen] == records[..seen];
    forall u | u in reread
      ensures u in more[seen..]
    {
      var i :| 0 <= i < |records[seen..]| && records[seen..][i] == u;
      assert more[seen..][i] == u;
    }
  }

  /** The index holds exactly what the log amounts to. */
  ghost predicate Exact(base: Update, v: View) {
    && v.origins == OriginsOf(base, v.records)
    && v.completed == CompletedOf(base, v.records)
    && v.lateMerges == LateMergesOf(base, v.records)
  }

  function RememberAll(known: map<string, Version>, next: map<string, Version>): map<string, Version> {
    map k | k in known.Keys + next.Keys ::
      if k in next && (k !in known || next[k].ts >= known[k].ts) then next[k] else known[k]
  }

  lemma RememberAllMarks(known: map<string, Version>, next: map<string, Version>, span: string)
    ensures Lookup(RememberAll(known, next), span) == Remember(Lookup(known, span), Lookup(next, span))
  {}

  /** Insert or replace one mark, as each caller does row by row. */
  function RememberOne(known: map<string, Version>, span: string, next: Version): map<string, Version> {
    if span !in known || next.ts >= known[span].ts then known[span := next] else known
  }

  /** Where one reading pass stands, as plain values. */
  datatype Pass = Pass(
    firsts: map<string, Origin>,
    origins: map<string, Origin>,
    candidates: map<string, Origin>)

  /** Candidates that turn out to be durable give way to the durable origin. */
  function Displace(origins: map<string, Origin>, candidates: map<string, Origin>, durable: map<string, Origin>): map<string, Origin> {
    var displaced := durable.Keys * candidates.Keys;
    if displaced == {} then durable + origins
    else durable + origins + (map s | s in displaced :: durable[s])
  }

  /** One record met by a refresh: first origins win, durable ones displace candidates. */
  function Meet(pass: Pass, update: Update): Pass {
    Pass(update.origins + pass.firsts,
         Displace(pass.origins, pass.candidates, update.origins),
         pass.candidates - update.origins.Keys)
  }

  /** A pass only touches the spans it met, and drops a candidate only for a durable origin. */
  ghost predicate PassFrom(before: Pass, pass: Pass) {
    && (forall s :: s !in pass.firsts ==> Lookup(pass.origins, s) == Lookup(before.origins, s))
    && (forall s :: s in pass.candidates ==> Lookup(before.candidates, s) == Some(pass.candidates[s]))
    && (forall s :: s in before.candidates && s !in pass.candidates ==> s in pass.firsts)
    && (before.candidates == map[] ==> pass.origins == pass.firsts + before.origins && pass.candidates == map[])
  }

  lemma UnionAssociates<V>(a: map<string, V>, b: map<string, V>, c: map<string, V>)
    ensures a + b + c == a + (b + c)
  {}

  lemma MeetContinues(before: Pass, pass: Pass, update: Update)
    requires PassFrom(before, pass)
    ensures PassFrom(before, Meet(pass, update))
  {
    if before.candidates == map[] {
      UnionAssociates(update.origins, pass.firsts, before.origins);
    }
  }

  lemma MarksStep(base: Update, records: seq<Update>, known: map<string, Version>, seen: nat, reread: seq<Update>, k: nat)
    requires Marks(base, records, known, seen, reread) && seen <= k < |records|
    ensures Marks(base, records, RememberAll(known, records[k].versions), seen, reread + [records[k]])
  {
    assert records[seen..][k - seen] == records[k];
    forall span
      ensures Lookup(RememberAll(known, records[k].versions), span)
              == Watermark(Watermark(Lookup(base.versions, span), records[..seen], span), reread + [records[k]], span)
    {
      RememberAllMarks(known, records[k].versions, span);
      assert (reread + [records[k]])[..|reread|] == reread;
    }
  }

  /** A pass that reached the end leaves no trace of how often it was tried. */
  lemma MarksDone(base: Update, records: seq<Update>, known: map<string, Version>, seen: nat, earlier: seq<Update>)
    requires seen <= |records| && Marks(base, records, known, seen, earlier + records[seen..])
    ensures Marks(base, records, known, |records|, [])
  {
    assert records[..|records|] == records && records[..seen] + records[seen..] == records;
    forall span
      ensures Lookup(known, span) == Watermark(Watermark(Lookup(base.versions, span), records, span), [], span)
    {
      var start := Lookup(base.versions, span);
      var mark := Watermark(start, records[..seen], span);
      assert Lookup(known, span) == Watermark(mark, earlier + records[seen..], span);
      WatermarkConcat(mark, earlier, records[seen..], span);
      forall u | u in earlier
        ensures u in records[seen..]
      {
        assert u in earlier + records[seen..];
      }
      RereadIsRead(mark, earlier, records[seen..], span);
      WatermarkConcat(start, records[..seen], records[seen..], span);
    }
  }

  lemma IndexCompleted(firsts: map<string, Origin>, read: map<string, Origin>, index: map<string, Origin>, all: map<string, Origin>)
    requires all == firsts + read && SubMap(read, index) && SubMap(index, all)
    ensures firsts + index == all
  {}

  lemma OneMoreRecord(base: Update, records: seq<Update>, k: nat)
    requires k < |records|
    ensures OriginsOf(base, records[..k + 1]) == records[k].origins + OriginsOf(base, records[..k])
    ensures CompletedOf(base, records[..k + 1]) == CompletedOf(base, records[..k]) + records[k].completed
    ensures LateMergesOf(base, records[..k + 1]) == LateMergesOf(base, records[..k]) + records[k].lateMerges
  {
    assert records[..k + 1][..k] == records[..k];
  }

  class DeliveryLedger {
    const log: SharedLog
    var journalLen: nat
    var pending: set<string>
    var pendingMerges: set<string>
    var known: map<string, Version>
    var pendingVersions: map<string, Version>
    /** How many records this process has read, and which it met again since. */
    ghost var seen: nat
    ghost var reread: seq<Update>

    ghost predicate Valid()
      reads this, log, log.index
    {
      && log.Valid()
      && Tracks(log.codec, log.base, log.Seen(), journalLen, seen)
      && Marks(log.base, log.records, known, seen, reread)
    }

    constructor (log: SharedLog)
      ensures this.log == log && journalLen == seen == 0 && reread == []
      ensures pending == {} && pendingMerges == {} && pendingVersions == map[] && known == log.base.versions
    {
      this.log, journalLen, seen, reread := log, 0, 0, [];
      pending, pendingMerges, pendingVersions, known := {}, {}, map[], log.base.versions;
    }

    /** Rebuild the index from the checkpoint and the log; only a loaded ledger is used. */
    method Load() returns (ok: bool)
      requires log.Valid() && journalLen == seen == 0 && reread == [] && known == log.base.versions
      modifies this`journalLen, this`known, this`seen, this`reread, log.index
      ensures log.Valid() && Grows(old(log.Seen()), log.Seen())
      ensures ok ==> Valid() && UpToDate()
    {
      ok := log.index.RebuildCompleted(log.codec, log.base, log.bytes, log.records);
      if !ok {
        return;
      }
      FoldsGrowTo(log.base, log.records, 0);
      ok := log.index.Write(log.base.origins, false);
      if !ok {
        return;
      }
      assert Valid();
      var pass;
      ok, pass := Refresh(log.base.origins, map[]);
      if !ok {
        return;
      }
      // The sidecar is only an index: replace whatever it held.
      ok := log.index.Write(pass.origins, true);
    }

    /** Everything durable has been read and indexed. */
    ghost predicate UpToDate()
      reads this, log, log.index
    {
      seen == |log.records| && reread == [] && Exact(log.base, log.Seen())
    }

    /** Read the next complete line of the log, if there is one. */
    method NextRecord(at: nat, ghost k: nat) returns (line: seq<Byte>, update: Option<Update>)
      requires log.Valid() && k <= |log.records| && at == |log.codec.Written(log.records[..k])|
      ensures k == |log.records| ==> update == None
      ensures k < |log.records| ==>
                && update == Some(log.records[k])
                && at + |line| == |log.codec.Written(log.records[..k + 1])|
    {
      WrittenGrows(log.codec, log.records, k);
      line := ReadLine(log.bytes, at);
      if k == |log.records| {
        assert log.records[..k] == log.records;
        NoMoreLines(log.codec, log.bytes, log.records, line);
      } else {
        LineIsRecord(log.codec, log.bytes, log.records, k, line);
      }
      if line == [] || line[|line| - 1] != NEWLINE {
        return line, None;
      }
      update := log.codec.decode(line);
    }

    /** Take in one record; what fails here is tried again by the next refresh. */
    method TakeIn(update: Update, ghost k: nat)
      returns (ok: bool)
      requires Valid() && seen <= k < |log.records| && update == log.records[k]
      modifies this`known, this`reread, log.index`completed, log.index`lateMerges
      ensures Valid()
      ensures Grows(old(log.Seen()), log.Seen()) && log.index.origins == old(log.index.origins)
      ensures ok ==> && reread == old(reread) + [update]
                     && log.index.completed == old(log.index.completed) + update.completed
                     && log.index.lateMerges == old(log.index.lateMerges) + update.lateMerges
      ensures !ok ==> reread == old(reread) && known == old(known)
    {
      FoldsGrowTo(log.base, log.records, k + 1);
      assert log.records[..k + 1][..k] == log.records[..k];
      ok := log.index.RememberCompleted(update.completed, update.lateMerges);
      if ok {
        MarksStep(log.base, log.records, known, seen, reread, k);
        known := RememberAll(known, update.versions);
        reread := reread + [update];
      }
    }

    /** Records up to `k` have been read and indexed by the pass that is under way. */
    ghost predicate Reading(pass: Pass, through: nat, k: nat, earlier: seq<Update>)
      reads this, log, log.index
    {
      && Valid() && seen <= k <= |log.records|
      && through == |log.codec.Written(log.records[..k])|
      && OriginsOf(log.base, log.records[..k]) == pass.firsts + OriginsOf(log.base, log.records[..seen])
      && reread == earlier + log.records[seen..k]
      && CompletedOf(log.base, log.records[..k]) <= log.index.completed
      && LateMergesOf(log.base, log.records[..k]) <= log.index.lateMerges
    }

    method ReadOne(pass: Pass, through: nat, update: Update, length: nat, ghost k: nat, ghost earlier: seq<Update>)
      returns (ok: bool)
      requires Reading(pass, through, k, earlier) && k < |log.records| && update == log.records[k]
      requires through + length == |log.codec.Written(log.records[..k + 1])|
      modifies this`known, this`reread, log.index`completed, log.index`lateMerges
      ensures Valid() && Grows(old(log.Seen()), log.Seen()) && log.index.origins == old(log.index.origins)
      ensures ok ==> Reading(Meet(pass, update), through + length, k + 1, earlier)
    {
      hide Tracks, Holds, Marks, OriginsOf, CompletedOf, LateMergesOf, Codec.Written;
      ok := TakeIn(update, k);
      if ok {
        UnionAssociates(update.origins, pass.firsts, OriginsOf(log.base, log.records[..seen]));
        OneMoreRecord(log.base, log.records, k);
        assert log.records[seen..k + 1] == log.records[seen..k] + [log.records[k]];
      }
    }

    /** Read one more record: `None` when there is none left. */
    method Advance(pass: Pass, through: nat, ghost k: nat, ghost earlier: seq<Update>, ghost before: Pass)
      returns (ok: bool, next: Option<Pass>, end: nat)
      requires Reading(pass, through, k, earlier) && PassFrom(before, pass)
      modifies this`known, this`reread, log.index`completed, log.index`lateMerges
      ensures Valid() && Grows(old(log.Seen()), log.Seen()) && log.index.origins == old(log.index.origins)
      ensures ok && next.Some? ==> k < |log.records| && Reading(next.value, end, k + 1, earlier) && PassFrom(before, next.value)
      ensures ok && next.None? ==> k == |log.records| && Reading(pass, through, k, earlier)
    {
      var line, update := NextRecord(through, k);
      if update.None? {
        return true, None, through;
      }
      ok := ReadOne(pass, through, update.value, |line|, k, earlier);
      MeetContinues(before, pass, update.value);
      next, end := Some(Meet(pass, update.value)), through + |line|;
    }

    /** Every span met so far is durable. */
    lemma FirstsAreDurable(pass: Pass, through: nat, k: nat, earlier: seq<Update>)
      requires Reading(pass, through, k, earlier)
      ensures pass.firsts.Keys <= OriginsOf(log.base, log.records).Keys
    {
      FoldsGrowTo(log.base, log.records, k);
    }

    /** What the pass that is under way has done since it began at `was`. */
    ghost predicate Underway(before: Pass, was: View, pass: Pass)
      reads this, log, log.index
    {
      && Valid() && Grows(was, log.Seen()) && log.index.origins == was.origins
      && PassFrom(before, pass) && pass.firsts.Keys <= OriginsOf(log.base, log.records).Keys
    }

    ghost predicate AtRecord(before: Pass, was: View, pass: Pass, through: nat, k: nat, earlier: seq<Update>)
      reads this, log, log.index
    {
      exists n: nat :: n == k && Reading(pass, through, n, earlier) && Underway(before, was, pass)
    }

    lemma Begins(before: Pass)
      requires Valid() && before.firsts == map[]
      ensures AtRecord(before, log.Seen(), before, journalLen, seen, reread)
    {
      assert reread + log.records[seen..seen] == reread;
      assert before.firsts + OriginsOf(log.base, log.records[..seen]) == OriginsOf(log.base, log.records[..seen]);
      assert Reading(before, journalLen, seen, reread);
    }

    /** One turn of the loop of `ReadAll`. */
    method Step(before: Pass, ghost was: View, pass: Pass, through: nat, ghost k: nat, ghost earlier: seq<Update>)
      returns (ok: bool, next: Option<Pass>, end: nat)
      requires AtRecord(before, was, pass, through, k, earlier)
      modifies this`known, this`reread, log.index`completed, log.index`lateMerges
      ensures Underway(before, was, pass)
      ensures ok && next.Some? ==> k < |log.records| && AtRecord(before, was, next.value, end, k + 1, earlier)
      ensures ok && next.None? ==> k == |log.records| && AtRecord(before, was, pass, through, k, earlier)
    {
      hide Marks, Tracks, Holds, PassFrom;
      ok, next, end := Advance(pass, through, k, earlier, before);
      if ok && next.Some? {
        FirstsAreDurable(next.value, end, k + 1, earlier);
      }
    }

    /** Read every complete record after `seen`, taking each one in. */
    method ReadAll(before: Pass) returns (ok: bool, pass: Pass, through: nat)
      requires Valid() && before.firsts == map[]
      modifies this`known, this`reread, log.index`completed, log.index`lateMerges
      ensures ok ==> Reading(pass, through, |log.records|, old(reread))
      ensures Underway(before, old(log.Seen()), pass)
    {
      pass, through := before, journalLen;
      ghost var k, was := seen, log.Seen();
      Begins(before);
      while true
        invariant AtRecord(before, was, pass, through, k, old(reread))
        decreases |log.records| - k
      {
        var next, end;
        ok, next, end := Step(before, was, pass, through, k, old(reread));
        if !ok || next.None? {
          return;
        }
        pass, through := next.value, end;
        k := k + 1;
      }
    }

    /**
     * Read everything that is durable, under the lock. Candidate origins that
     * another writer made durable first are dropped, and nothing else is.
     */
    method Refresh(origins: map<string, Origin>, candidates: map<string, Origin>) returns (ok: bool, pass: Pass)
      requires Valid()
      modifies this`journalLen, this`known, this`seen, this`reread, log.index
      ensures Valid()
      ensures Grows(old(log.Seen()), log.Seen())
      ensures ok ==> UpToDate()
      ensures PassFrom(Pass(map[], origins, candidates), pass)
      ensures pass.firsts.Keys <= OriginsOf(log.base, log.records).Keys
      ensures ok ==> OriginsOf(log.base, log.records) == pass.firsts + OriginsOf(log.base, log.records[..old(seen)])
    {
      hide Marks, Holds, Codec.Written, OriginsOf, CompletedOf, LateMergesOf;
      var through;
      ghost var earlier := reread;
      ok, pass, through := ReadAll(Pass(map[], origins, candidates));
      if !ok {
        return;
      }
      assert log.records[..|log.records|] == log.records;
      ok := log.index.Write(pass.firsts, false);
      if !ok {
        return;
      }
      IndexCompleted(pass.firsts, OriginsOf(log.base, log.records[..seen]), old(log.index.origins), OriginsOf(log.base, log.records));
      assert log.records[..|log.records|] == log.records && log.records[seen..|log.records|] == log.records[seen..];
      MarksDone(log.base, log.records, known, seen, earlier);
      journalLen, seen, reread := through, |log.records|, [];
    }

    /**
     * Make one update durable, then index it. A failed append may or may not
     * have reached the log; the next refresh finds out.
     */
    method Append(update: Update) returns (ok: bool)
      requires Valid() && UpToDate()
      requires Backed(update, log.flushed)
      modifies this`journalLen, this`seen, log`bytes, log`records, log.index
      ensures log.Valid() && Grows(old(log.Seen()), log.Seen())
      ensures Tracks(log.codec, log.base, log.Seen(), journalLen, seen)
      ensures log.records == old(log.records) || log.records == old(log.records) + [update]
      ensures ok ==> log.records == old(log.records) + [update] && UpToDate()
      ensures !ok ==> Valid() && seen == old(seen)
    {
      ghost var records := log.records;
      assert records[..|records|] == records;
      FoldsGrow(log.base, records, [update]);
      assert (records + [update])[..|records|] == records;
      ok := log.WriteLine(journalLen, update);
      MarksLater(log.base, records, log.records, known, seen, reread);
      if !ok {
        return;
      }
      ok := log.index.Write(update.origins, false);
      if !ok {
        return;
      }
      ok := log.index.RememberCompleted(update.completed, update.lateMerges);
      if !ok {
        return;
      }
      WrittenSnoc(log.codec, records, update);
      journalLen := journalLen + |log.codec.Line(update)|;
      seen := |log.records|;
      assert log.records[..seen] == log.records;
    }

    /** Make birth origins durable. */
    method AppendOrigins(origins: map<string, Origin>) returns (ok: bool)
      requires Valid() && UpToDate()
      modifies this`journalLen, this`seen, log`bytes, log`records, log.index
      ensures Valid() && Grows(old(log.Seen()), log.Seen())
      ensures ok ==> log.records == old(log.records) + [Update({}, {}, origins, map[])] && UpToDate()
      ensures log.records == old(log.records) || log.records == old(log.records) + [Update({}, {}, origins, map[])]
    {
      hide Marks, Holds, Codec.Written, OriginsOf, CompletedOf, LateMergesOf;
      ghost var records := log.records;
      var update := Update({}, {}, origins, map[]);
      ok := Append(update);
      if ok {
        MarksAppended(log.base, records, known, update);
        assert RememberAll(known, map[]) == known;
      }
    }

    /** Write what is pending as one record. */
    method SavePending() returns (ok: bool)
      requires Valid() && UpToDate()
      requires Backed(Pending(), log.flushed)
      modifies this, log`bytes, log`records, log.index
      ensures Valid() && Grows(old(log.Seen()), log.Seen())
      ensures !ok ==> pending == old(pending) && pendingMerges == old(pendingMerges) && pendingVersions == old(pendingVersions)
      ensures ok ==>
                && log.records == old(log.records) + [Update(old(pending), old(pendingMerges), map[], old(pendingVersions))]
                && pending == {} && pendingMerges == {} && pendingVersions == map[] && UpToDate()
    {
      hide Marks, Holds, RememberAll, OriginsOf, CompletedOf, LateMergesOf;
      ghost var records := log.records;
      var update := Update(pending, pendingMerges, map[], pendingVersions);
      assert update == Pending();
      ok := Append(update);
      if !ok {
        return;
      }
      MarksAppended(log.base, records, known, update);
      known := RememberAll(known, pendingVersions);
      pending, pendingMerges, pendingVersions := {}, {}, map[];
    }

    /** What waits to become durable, as the record that would say so. */
    ghost function Pending(): Update
      reads this
    {
      Update(pending, pendingMerges, map[], pendingVersions)
    }

    /**
     * Make this process's acknowledged deliveries durable; they stay pending
     * on failure. One record says all of it, versions included, except what
     * others completed meanwhile; there is none if nothing is left to say.
     */
    method Commit() returns (ok: bool)
      requires Valid() && UpToDate()
      requires Backed(Pending(), log.flushed)
      modifies this, log`bytes, log`records, log.index
      ensures Valid() && Grows(old(log.Seen()), log.Seen())
      ensures pending <= old(pending) && pendingMerges <= old(pendingMerges)
      ensures ok ==> pending == {} && pendingMerges == {} && pendingVersions == map[] && UpToDate()
      ensures ok ==>
                var u := Update(old(pending) - CompletedOf(log.base, old(log.records)), old(pendingMerges) - LateMergesOf(log.base, old(log.records)),
                                map[], old(pendingVersions));
                log.records == old(log.records) + if u == NOTHING then [] else [u]
      ensures forall span :: span in old(pending) ==> span in pending || DoneIn(log.base, log.records, span)
      ensures forall id :: id in old(pendingMerges) ==> id in pendingMerges || MergedIn(log.base, log.records, id)
      ensures ok ==> forall span :: span in old(pendingVersions) ==>
                ReachedIn(log.base, log.records, span, old(pendingVersions)[span].ts)
      ensures !ok ==> pendingVersions == old(pendingVersions)
    {
      hide Tracks, Holds, Marks, Watermark;
      var done, saved, savedMerges := log.index.Completed(pending, pendingMerges);
      if !done {
        return false;
      }
      pending := pending - saved;
      pendingMerges := pendingMerges - savedMerges;
      assert old(pending) <= pending + saved && old(pendingMerges) <= pendingMerges + savedMerges;
      ghost var records := log.records;
      ghost var update := Update(pending, pendingMerges, map[], pendingVersions);
      assert pending == old(pending) - CompletedOf(log.base, records);
      assert pendingMerges == old(pendingMerges) - LateMergesOf(log.base, records);
      if pending == {} && pendingMerges == {} && pendingVersions == map[] {
        AllSaid(log.base, records, [], old(pending), old(pendingMerges), map[]);
        assert records + [] == records;
        return true;
      }
      StillSaid(log.base, records, saved, savedMerges);
      ok := SavePending();
      SaidLater(log.base, records, log.records, saved, savedMerges);
      if ok {
        AllSaid(log.base, records, [update], old(pending), old(pendingMerges), update.versions);
      }
    }

    predicate ShouldEmit(op: SpanOp, known: set<string>, knownMerges: set<string>)
      reads this
    {
      if op.row.lateMergeKey.Some? then
        LateMergeId(op.row) !in knownMerges && LateMergeId(op.row) !in pendingMerges
      else
        op.row.spanId !in known && op.row.spanId !in pending
    }

    /** The spans that the rows end, the late merges that they are, and their versions wait to become durable. */
    method RecordEmitted(ops: seq<SpanOp>)
      modifies this`pending, this`pendingMerges, this`pendingVersions
      ensures pending == old(pending) + EndedSpans(ops)
      ensures pendingMerges == old(pendingMerges) + MergeIds(ops)
      ensures pendingVersions == VersionsAfter(old(pendingVersions), ops)
    {
      for i := 0 to |ops|
        invariant pending == old(pending) + EndedSpans(ops[..i])
        invariant pendingMerges == old(pendingMerges) + MergeIds(ops[..i])
        invariant pendingVersions == VersionsAfter(old(pendingVersions), ops[..i])
      {
        assert ops[..i + 1][..i] == ops[..i];
        assert ops[..i + 1] == ops[..i] + [ops[i]];
        var row := ops[i].row;
        if row.lateMergeVersion.Some? {
          pendingVersions := RememberOne(pendingVersions, row.spanId, row.lateMergeVersion.value);
        }
        if row.endMs.Some? {
          pending := pending + {row.spanId};
        }
        if row.lateMergeKey.Some? {
          pendingMerges := pendingMerges + {LateMergeId(row)};
        }
      }
      assert ops[..|ops|] == ops;
    }
  }

  lemma StillSaid(base: Update, records: seq<Update>, spans: set<string>, merges: set<string>)
    requires spans <= CompletedOf(base, records) && merges <= LateMergesOf(base, records)
    ensures forall span :: span in spans ==> DoneIn(base, records, span)
    ensures forall id :: id in merges ==> MergedIn(base, records, id)
  {
    forall span | span in spans
      ensures DoneIn(base, records, span)
    {
      CompletedExactly(base, records, span);
    }
    forall id | id in merges
      ensures MergedIn(base, records, id)
    {
      MergedExactly(base, records, id);
    }
  }

  lemma SaidLater(base: Update, records: seq<Update>, more: seq<Update>, spans: set<string>, merges: set<string>)
    requires records <= more
    requires forall span :: span in spans ==> DoneIn(base, records, span)
    requires forall id :: id in merges ==> MergedIn(base, records, id)
    ensures forall span :: span in spans ==> DoneIn(base, more, span)
    ensures forall id :: id in merges ==> MergedIn(base, more, id)
  {
    assert forall u :: u in records ==> u in more;
  }

  /** Every id that is asked for is in an earlier record or in the last one. */
  lemma AllSaid(base: Update, records: seq<Update>, last: seq<Update>, spans: set<string>, merges: set<string>, versions: map<string, Version>)
    requires |last| <= 1
    requires forall span :: span in spans ==> span in CompletedOf(base, records) || (last != [] && span in last[0].completed)
    requires forall id :: id in merges ==> id in LateMergesOf(base, records) || (last != [] && id in last[0].lateMerges)
    requires versions != map[] ==> last != [] && versions == last[0].versions
    ensures forall span :: span in spans ==> DoneIn(base, records + last, span)
    ensures forall id :: id in merges ==> MergedIn(base, records + last, id)
    ensures forall span :: span in versions ==> ReachedIn(base, records + last, span, versions[span].ts)
  {
    hide Watermark;
    assert forall u :: u in records || u in last ==> u in records + last;
    forall span | span in spans
      ensures DoneIn(base, records + last, span)
    {
      CompletedExactly(base, records, span);
    }
    forall id | id in merges
      ensures MergedIn(base, records + last, id)
    {
      MergedExactly(base, records, id);
    }
    forall span | span in versions
      ensures ReachedIn(base, records + last, span, versions[span].ts)
    {
      ReachedByLast(base, records, last[0], span);
      assert last == [last[0]];
    }
  }

  lemma MarksAppended(base: Update, records: seq<Update>, known: map<string, Version>, update: Update)
    requires Marks(base, records, known, |records|, [])
    ensures Marks(base, records + [update], RememberAll(known, update.versions), |records + [update]|, [])
  {
    var all := records + [update];
    assert records[..|records|] == records && all[..|all|] == all && all[..|all| - 1] == records;
    forall span
      ensures Lookup(RememberAll(known, update.versions), span) == Watermark(Watermark(Lookup(base.versions, span), all, span), [], span)
    {
      RememberAllMarks(known, update.versions, span);
      assert Lookup(known, span) == Watermark(Watermark(Lookup(base.versions, span), records, span), [], span);
    }
  }

  /** The spans that a batch ends. */
  function EndedSpans(ops: seq<SpanOp>): set<string> {
    set op | op in ops && op.row.endMs.Some? :: op.row.spanId
  }

  /** The late merges in a batch. */
  function MergeIds(ops: seq<SpanOp>): set<string> {
    set op | op in ops && op.row.lateMergeKey.Some? :: LateMergeId(op.row)
  }

  function VersionsAfter(marks: map<string, Version>, ops: seq<SpanOp>): map<string, Version> {
    if ops == [] then marks
    else
      var before, last := VersionsAfter(marks, ops[..|ops| - 1]), ops[|ops| - 1].row;
      if last.lateMergeVersion.Some? then RememberOne(before, last.spanId, last.lateMergeVersion.value) else before
  }

  /** Each mark is one that was there or a version of some row, and none is older than any of them. */
  lemma {:induction false} VersionsAreNewest(marks: map<string, Version>, ops: seq<SpanOp>)
    ensures forall span :: span in VersionsAfter(marks, ops) ==>
              Lookup(marks, span) == Some(VersionsAfter(marks, ops)[span])
              || exists op :: op in ops && op.row.spanId == span && op.row.lateMergeVersion == Some(VersionsAfter(marks, ops)[span])
    ensures forall span :: span in marks ==> span in VersionsAfter(marks, ops) && VersionsAfter(marks, ops)[span].ts >= marks[span].ts
    ensures forall op :: op in ops && op.row.lateMergeVersion.Some? ==>
              op.row.spanId in VersionsAfter(marks, ops) && VersionsAfter(marks, ops)[op.row.spanId].ts >= op.row.lateMergeVersion.value.ts
  {
    if ops != [] {
      var rest, last := ops[..|ops| - 1], ops[|ops| - 1];
      VersionsAreNewest(marks, rest);
      assert ops == rest + [last];
    }
  }
}
