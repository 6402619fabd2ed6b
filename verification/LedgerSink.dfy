/**
 * The sink that stamps, filters and records rows against the shared ledger.
 * The backend behind it may accept, defer or refuse; that is left open.
 */
module LedgerSinks {
  import opened Wrappers
  import opened Spans
  import opened LedgerLog
  import opened Ledger

  predicate VersionAllowed(previous: Option<Version>, next: Version) {
    previous.Some? ==>
      next.ts >= previous.value.ts || (next.native.Some? && next.native == previous.value.native)
  }

  /** What suppresses rows: durable ids and the ids that wait to become durable. */
  datatype Done = Done(spans: set<string>, merges: set<string>)

  predicate Fresh(op: SpanOp, done: Done) {
    if op.row.lateMergeKey.Some? then LateMergeId(op.row) !in done.merges else op.row.spanId !in done.spans
  }

  predicate Newer(op: SpanOp, marks: map<string, Version>) {
    op.row.lateMergeVersion.Some? ==> VersionAllowed(Lookup(marks, op.row.spanId), op.row.lateMergeVersion.value)
  }

  function Marked(op: SpanOp, marks: map<string, Version>): map<string, Version> {
    if op.row.lateMergeVersion.Some? then RememberOne(marks, op.row.spanId, op.row.lateMergeVersion.value) else marks
  }

  datatype Kept = Kept(ops: seq<SpanOp>, marks: map<string, Version>)

  /** The rows of a batch that are forwarded, and the marks they leave. */
  function Keep(ops: seq<SpanOp>, done: Done, marks: map<string, Version>): Kept {
    if ops == [] then Kept([], marks)
    else
      var before, last := Keep(ops[..|ops| - 1], done, marks), ops[|ops| - 1];
      if Fresh(last, done) && Newer(last, before.marks) then Kept(before.ops + [last], Marked(last, before.marks))
      else before
  }

  /**
   * What a process keeps of a batch: durable ids and its own pending ones
   * suppress rows, and the marks start from what is durable and pending.
   */
  function KeepFor(ops: seq<SpanOp>, base: Update, records: seq<Update>, pending: set<string>, pendingMerges: set<string>,
                   known: map<string, Version>, pendingVersions: map<string, Version>): seq<SpanOp>
  {
    Keep(ops, Done(CompletedOf(base, records) + pending, LateMergesOf(base, records) + pendingMerges),
         RememberAll(known, pendingVersions)).ops
  }

  /** Only the ids that a batch asks about matter for what is kept. */
  lemma {:induction false} KeepAsks(ops: seq<SpanOp>, a: Done, b: Done, marks: map<string, Version>)
    requires forall op :: op in ops ==> (Fresh(op, a) <==> Fresh(op, b))
    ensures Keep(ops, a, marks) == Keep(ops, b, marks)
  {
    if ops != [] {
      KeepAsks(ops[..|ops| - 1], a, b, marks);
    }
  }

  function SpanIds(ops: seq<SpanOp>): set<string> {
    set op | op in ops :: op.row.spanId
  }

  function AskedMerges(ops: seq<SpanOp>): set<string> {
    set op | op in ops && op.row.lateMergeKey.Some? :: LateMergeId(op.row)
  }

  /** A row whose origin is the birth origin of its span, if the span has one. */
  function Stamp(op: SpanOp, origins: map<string, Origin>): SpanOp {
    op.(row := op.row.(origin := Lookup(origins, op.row.spanId)))
  }

  /** The first birth of a span in a batch. */
  function FirstBirth(ops: seq<SpanOp>, span: string, attached: Option<string>): Option<SpanRow> {
    if ops == [] then None
    else
      var before := FirstBirth(ops[..|ops| - 1], span, attached);
      if before.Some? then before
      else if Stamped(ops[|ops| - 1], attached) && ops[|ops| - 1].row.spanId == span then Some(ops[|ops| - 1].row)
      else None
  }

  function StampAll(ops: seq<SpanOp>, origins: map<string, Origin>): (r: seq<SpanOp>)
    ensures |r| == |ops|
    ensures forall i :: 0 <= i < |ops| ==> r[i] == Stamp(ops[i], origins)
  {
    seq(|ops|, i requires 0 <= i < |ops| => Stamp(ops[i], origins))
  }

  predicate Stamped(op: SpanOp, attached: Option<string>) {
    op.Insert? && attached != Some(op.row.spanId)
  }

  function HandedOver(ops: seq<SpanOp>, began: seq<Update>, durable: seq<Update>): (r: seq<Handed>)
    ensures |r| == |ops|
    ensures forall i :: 0 <= i < |ops| ==> r[i] == Handed(ops[i], began, durable)
  {
    seq(|ops|, i requires 0 <= i < |ops| => Handed(ops[i], began, durable))
  }

  /**
   * The origins of a call once it knows what is durable: durable ones are the
   * log's, every other one is a candidate that is about to become durable.
   */
  ghost predicate Settled(spans: set<string>, origins: map<string, Origin>, candidates: map<string, Origin>, durable: map<string, Origin>) {
    forall s :: s in spans ==>
      if s in durable then Lookup(origins, s) == Some(durable[s]) && s !in candidates
      else s in origins ==> Lookup(candidates, s) == Some(origins[s])
  }

  /** The batch creates the span, and it is not the one that the session hangs below. */
  ghost predicate Born(ops: seq<SpanOp>, span: string, attached: Option<string>) {
    attached != Some(span) && exists op :: op in ops && op.Insert? && op.row.spanId == span
  }

  /** The origin of a span's first birth in a batch, or the captured versions. */
  predicate FromBirth(ops: seq<SpanOp>, span: string, origin: Origin, capture: Origin, attached: Option<string>) {
    var birth := FirstBirth(ops, span, attached);
    birth.Some? && origin == if birth.value.origin.Some? then birth.value.origin.value else capture
  }

  /** Each origin is one that was left over from an earlier call, or that of the span's first birth in the batch. */
  ghost predicate Sourced(added: map<string, Origin>, leftover: map<string, Origin>, ops: seq<SpanOp>, capture: Origin, attached: Option<string>) {
    forall s :: s in added ==> Lookup(leftover, s) == Some(added[s]) || FromBirth(ops, s, added[s], capture, attached)
  }

  lemma SourcedSub(less: map<string, Origin>, added: map<string, Origin>, leftover: map<string, Origin>,
                   ops: seq<SpanOp>, capture: Origin, attached: Option<string>)
    requires SubMap(less, added) && Sourced(added, leftover, ops, capture, attached)
    ensures Sourced(less, leftover, ops, capture, attached)
  {
    hide FromBirth;
  }

  /** None of the spans was completed. */
  ghost predicate Unfinished(spans: map<string, Origin>, base: Update, records: seq<Update>) {
    forall s :: s in spans ==> !DoneIn(base, records, s)
  }

  lemma UnfinishedSub(less: map<string, Origin>, spans: map<string, Origin>, base: Update, records: seq<Update>)
    requires SubMap(less, spans) && Unfinished(spans, base, records)
    ensures Unfinished(less, base, records)
  {}

  lemma KnownAreDone(asked: set<string>, known: set<string>, spans: map<string, Origin>, base: Update, records: seq<Update>)
    requires forall s :: s in asked ==> (s in known <==> s in CompletedOf(base, records))
    requires forall s :: s in spans ==> s in asked && s !in known
    ensures Unfinished(spans, base, records)
  {
    forall s | s in spans
      ensures !DoneIn(base, records, s)
    {
      CompletedExactly(base, records, s);
    }
  }

  /** Operation `i` is the first that creates the span. */
  ghost predicate FirstBorn(ops: seq<SpanOp>, span: string, i: nat) {
    && i < |ops| && ops[i].Insert? && ops[i].row.spanId == span
    && forall j :: 0 <= j < i ==> !(ops[j].Insert? && ops[j].row.spanId == span)
  }

  /** The origin is that of the first row that creates the span, and the captured versions if that has none. */
  lemma FromBirthExactly(ops: seq<SpanOp>, span: string, origin: Origin, capture: Origin, attached: Option<string>)
    ensures FromBirth(ops, span, origin, capture, attached) <==>
              attached != Some(span)
              && exists i: nat :: (FirstBorn(ops, span, i)
                                   && origin == match ops[i].row.origin case Some(own) => own case None => capture)
  {
    FirstBirthExactly(ops, span, attached);
    forall i: nat, k: nat | FirstBorn(ops, span, i) && FirstBorn(ops, span, k)
      ensures i == k
    {
      var a, b := ops[i], ops[k];
    }
  }

  lemma {:induction false} FirstBirthExactly(ops: seq<SpanOp>, span: string, attached: Option<string>)
    ensures FirstBirth(ops, span, attached).Some? <==> attached != Some(span) && exists i: nat :: FirstBorn(ops, span, i)
    ensures FirstBirth(ops, span, attached).Some? ==>
              exists i: nat :: FirstBorn(ops, span, i) && FirstBirth(ops, span, attached) == Some(ops[i].row)
  {
    if ops != [] {
      var rest, last := ops[..|ops| - 1], |ops| - 1;
      FirstBirthExactly(rest, span, attached);
      forall i: nat
        ensures FirstBorn(rest, span, i) ==> FirstBorn(ops, span, i)
        ensures FirstBorn(ops, span, i) ==> i == last || FirstBorn(rest, span, i)
      {}
      if ops[last].Insert? && ops[last].row.spanId == span && !exists i: nat :: FirstBorn(rest, span, i) {
        NoneBorn(rest, span, |rest|);
        assert FirstBorn(ops, span, last);
      }
    }
  }

  lemma {:induction false} NoneBorn(ops: seq<SpanOp>, span: string, n: nat)
    requires n <= |ops| && !exists i: nat :: FirstBorn(ops, span, i)
    ensures forall j :: 0 <= j < n ==> !(ops[j].Insert? && ops[j].row.spanId == span)
  {
    if n > 0 {
      NoneBorn(ops, span, n - 1);
      assert !FirstBorn(ops, span, n - 1);
    }
  }

  /** The origins that became durable. */
  function NewOrigins(base: Update, began: seq<Update>, durable: seq<Update>): map<string, Origin> {
    OriginsOf(base, durable) - OriginsOf(base, began).Keys
  }

  lemma NoBirths(attached: Option<string>)
    ensures forall s :: FirstBirth([], s, attached).None?
  {}

  lemma BirthsAfter(ops: seq<SpanOp>, i: nat, attached: Option<string>)
    requires i < |ops|
    ensures forall s :: FirstBirth(ops[..i + 1], s, attached) ==
              if FirstBirth(ops[..i], s, attached).Some? then FirstBirth(ops[..i], s, attached)
              else if Stamped(ops[i], attached) && ops[i].row.spanId == s then Some(ops[i].row) else None
  {
    assert ops[..i + 1][..i] == ops[..i];
  }

  /** Every birth without a known origin gets its leftover candidate or a new one. */
  method ProposeBirths(ops: seq<SpanOp>, known: map<string, Origin>, candidates: map<string, Origin>, capture: Origin, attached: Option<string>)
    returns (origins: map<string, Origin>, next: map<string, Origin>)
    ensures forall s :: s in origins ==> Lookup(known, s) == Some(origins[s]) || Lookup(next, s) == Some(origins[s])
    ensures forall s :: s in origins <==> s in known || Born(ops, s, attached)
    ensures SubMap(known, origins) && SubMap(candidates, next)
    ensures forall s :: s in next && s !in candidates ==> FromBirth(ops, s, next[s], capture, attached)
  {
    hide FirstBirth;
    origins, next := known, candidates;
    NoBirths(attached);
    for i := 0 to |ops|
      invariant forall s :: s in origins ==> Lookup(known, s) == Some(origins[s]) || Lookup(next, s) == Some(origins[s])
      invariant SubMap(known, origins) && SubMap(candidates, next)
      invariant forall s :: s in origins <==> s in known || FirstBirth(ops[..i], s, attached).Some?
      invariant forall s :: s in next && s !in candidates ==> FromBirth(ops[..i], s, next[s], capture, attached)
    {
      BirthsAfter(ops, i, attached);
      var row := ops[i].row;
      if Stamped(ops[i], attached) && row.spanId !in origins {
        var origin := if row.spanId in next then next[row.spanId]
                      else if row.origin.Some? then row.origin.value else capture;
        next := next[row.spanId := origin];
        origins := origins[row.spanId := origin];
      }
    }
    assert ops[..|ops|] == ops;
    forall s
      ensures FirstBirth(ops, s, attached).Some? <==> Born(ops, s, attached)
    {
      BirthIsFound(ops, s, attached);
    }
  }

  lemma {:induction false} BirthIsFound(ops: seq<SpanOp>, span: string, attached: Option<string>)
    ensures FirstBirth(ops, span, attached).Some? <==> Born(ops, span, attached)
  {
    if ops != [] {
      var rest, last := ops[..|ops| - 1], ops[|ops| - 1];
      BirthIsFound(rest, span, attached);
      assert ops == rest + [last];
    }
  }

  /** Where a process is between the calls that it makes without holding the lock. */
  datatype Phase = Idle | Sending(rows: seq<SpanOp>) | Committing

  /** The rows may be handed over: whatever became durable since they were chosen, their origins are the durable ones. */
  ghost predicate Cleared(base: Update, rows: seq<SpanOp>, began: seq<Update>, durable: seq<Update>) {
    && began <= durable
    && (forall h :: h in HandedOver(rows, began, durable) ==> Provenance(base, h) && Unsuppressed(base, h))
  }

  lemma ClearedLater(base: Update, rows: seq<SpanOp>, began: seq<Update>, durable: seq<Update>, more: seq<Update>)
    requires Cleared(base, rows, began, durable) && durable <= more
    ensures Cleared(base, rows, began, more)
  {
    FoldsGrowTo(base, more, |durable|);
    assert more[..|durable|] == durable;
    forall h | h in HandedOver(rows, began, more)
      ensures Provenance(base, h) && Unsuppressed(base, h)
    {
      var i :| 0 <= i < |rows| && HandedOver(rows, began, more)[i] == h;
      assert HandedOver(rows, began, durable)[i] in HandedOver(rows, began, durable);
    }
  }

  lemma ClearedOrigins(base: Update, rows: seq<SpanOp>, began: seq<Update>, durable: seq<Update>)
    requires Cleared(base, rows, began, durable)
    ensures forall row :: row in rows && row.row.origin.Some? ==> Lookup(OriginsOf(base, durable), row.row.spanId) == row.row.origin
  {
    forall row | row in rows && row.row.origin.Some?
      ensures Lookup(OriginsOf(base, durable), row.row.spanId) == row.row.origin
    {
      var i :| 0 <= i < |rows| && rows[i] == row;
      assert HandedOver(rows, began, durable)[i] in HandedOver(rows, began, durable);
    }
  }

  /** What an accepted row delivers is durable, or waits to become so. */
  ghost predicate Awaits(base: Update, records: seq<Update>, pending: Update, op: SpanOp) {
    && (op.row.endMs.Some? ==> op.row.spanId in pending.completed || DoneIn(base, records, op.row.spanId))
    && (op.row.lateMergeKey.Some? ==>
          var id := op.row.spanId + "\U{1F}" + op.row.lateMergeKey.value;
          id in pending.lateMerges || MergedIn(base, records, id))
    && (op.row.lateMergeVersion.Some? ==>
          var span, ts := op.row.spanId, op.row.lateMergeVersion.value.ts;
          (span in pending.versions && pending.versions[span].ts >= ts) || ReachedIn(base, records, span, ts))
  }

  ghost predicate AllAwait(base: Update, records: seq<Update>, pending: Update, accepted: set<SpanOp>) {
    forall op :: op in accepted ==> Awaits(base, records, pending, op)
  }

  /** Whatever stops being pending is durable by then. */
  ghost predicate Carried(base: Update, records: seq<Update>, before: Update, after: Update) {
    && (forall span :: span in before.completed ==> span in after.completed || DoneIn(base, records, span))
    && (forall id :: id in before.lateMerges ==> id in after.lateMerges || MergedIn(base, records, id))
    && (forall span :: span in before.versions ==>
          Lookup(after.versions, span) == Lookup(before.versions, span) || ReachedIn(base, records, span, before.versions[span].ts))
  }

  lemma AwaitsLater(base: Update, records: seq<Update>, more: seq<Update>, before: Update, after: Update, accepted: set<SpanOp>)
    requires AllAwait(base, records, before, accepted) && records <= more && Carried(base, more, before, after)
    ensures AllAwait(base, more, after, accepted)
  {
    hide Watermark;
    assert forall u :: u in records ==> u in more;
    forall op | op in accepted
      ensures Awaits(base, more, after, op)
    {
      assert Awaits(base, records, before, op);
      if op.row.lateMergeVersion.Some? && ReachedIn(base, records, op.row.spanId, op.row.lateMergeVersion.value.ts) {
        ReachedLater(base, records, more, op.row.spanId, op.row.lateMergeVersion.value.ts);
      }
    }
  }

  lemma AwaitsOn(base: Update, records: seq<Update>, more: seq<Update>, pending: Update, accepted: set<SpanOp>)
    requires AllAwait(base, records, pending, accepted) && records <= more
    ensures AllAwait(base, more, pending, accepted)
  {
    AwaitsLater(base, records, more, pending, pending, accepted);
  }

  /** With nothing pending, everything that was accepted is durable. */
  lemma NothingWaits(base: Update, records: seq<Update>, accepted: set<SpanOp>)
    requires AllAwait(base, records, NOTHING, accepted)
    ensures forall op :: op in accepted ==> Settles(base, records, op)
  {
    hide Watermark;
    forall op | op in accepted
      ensures Settles(base, records, op)
    {
      assert Awaits(base, records, NOTHING, op);
    }
  }

  class LedgerSink {
    const ledger: DeliveryLedger
    /** Weak: any entry may vanish at any time. */
    var cache: map<string, Origin>
    var candidates: map<string, Origin>
    var capture: Origin
    var attached: Option<string>
    var phase: Phase
    /** The log when the call began whose rows are being sent. */
    ghost var began: seq<Update>
    /** Rows that the backend accepted. */
    ghost var accepted: set<SpanOp>

    ghost predicate Sound()
      reads this, ledger, ledger.log, ledger.log.index
    {
      && ledger.Valid()
      && SubMap(cache, OriginsOf(ledger.log.base, ledger.log.records))
      && Backed(ledger.Pending(), accepted)
      && AllAwait(ledger.log.base, ledger.log.records, ledger.Pending(), accepted)
    }

    /** What the next step of this process relies on, whatever the others do before it. */
    ghost predicate Ready()
      reads this, ledger, ledger.log
    {
      match phase
      case Idle => true
      case Sending(rows) => Cleared(ledger.log.base, rows, began, ledger.log.records)
      case Committing => accepted <= ledger.log.flushed
    }

    ghost predicate Valid()
      reads this, ledger, ledger.log, ledger.log.index
    {
      Sound() && Ready()
    }

    constructor (ledger: DeliveryLedger, capture: Origin, attached: Option<string>)
      requires ledger.Valid() && ledger.pending == {} && ledger.pendingMerges == {} && ledger.pendingVersions == map[]
      ensures Valid() && this.ledger == ledger && candidates == map[] && phase == Idle
    {
      this.ledger, this.capture, this.attached := ledger, capture, attached;
      cache, candidates, phase, began, accepted := map[], map[], Idle, [], {};
    }

    /** A weak lookup: the entry may be gone, and is then forgotten. */
    method Cached(span: string) returns (origin: Option<Origin>)
      modifies this`cache
      ensures SubMap(cache, old(cache))
      ensures origin.Some? ==> Lookup(cache, span) == origin
    {
      var dropped: bool := *;
      if dropped {
        cache := cache - {span};
      }
      origin := Lookup(cache, span);
    }

    /** The origins of a batch that are still cached. */
    method CachedOrigins(ops: seq<SpanOp>) returns (origins: map<string, Origin>)
      requires Sound()
      modifies this`cache
      ensures Sound()
      ensures SubMap(origins, OriginsOf(ledger.log.base, ledger.log.records))
    {
      origins := map[];
      for i := 0 to |ops|
        invariant Sound()
        invariant SubMap(origins, OriginsOf(ledger.log.base, ledger.log.records))
      {
        var origin := Cached(ops[i].row.spanId);
        if origin.Some? {
          origins := origins[ops[i].row.spanId := origin.value];
        }
      }
    }

    /** Known origins of the batch, and a candidate for every birth without one. */
    method Propose(ops: seq<SpanOp>) returns (origins: map<string, Origin>)
      requires Sound()
      modifies this`cache, this`candidates
      ensures Sound()
      ensures forall s :: s in origins ==>
                Lookup(OriginsOf(ledger.log.base, ledger.log.records), s) == Some(origins[s]) || Lookup(candidates, s) == Some(origins[s])
      ensures forall s :: Born(ops, s, attached) ==> s in origins
      ensures forall s :: s in origins ==> s in OriginsOf(ledger.log.base, ledger.log.records) || Born(ops, s, attached)
      ensures SubMap(old(candidates), candidates)
      ensures Sourced(candidates, old(candidates), ops, capture, attached)
    {
      var cached := CachedOrigins(ops);
      origins, candidates := ProposeBirths(ops, cached, candidates, capture, attached);
    }

    /** Origins that the log decided replace what the call had proposed. */
    method Reconcile(ops: seq<SpanOp>, proposed: map<string, Origin>) returns (ok: bool, origins: map<string, Origin>)
      requires Sound()
      requires forall s :: s in proposed ==>
                 Lookup(OriginsOf(ledger.log.base, ledger.log.records), s) == Some(proposed[s]) || Lookup(candidates, s) == Some(proposed[s])
      modifies this`candidates, ledger`journalLen, ledger`known, ledger`seen, ledger`reread, ledger.log.index
      ensures Sound() && Grows(old(ledger.log.Seen()), ledger.log.Seen())
      ensures ok ==> ledger.UpToDate()
      ensures ok ==> Settled(SpanIds(ops), origins, candidates, OriginsOf(ledger.log.base, ledger.log.records))
      ensures ok ==> forall s :: s in proposed && s in SpanIds(ops) ==> s in origins
      ensures ok ==> forall s :: s in origins && s in SpanIds(ops) ==> s in proposed || s in OriginsOf(ledger.log.base, ledger.log.records)
      ensures SubMap(candidates, old(candidates))
    {
      hide Tracks, Marks, Holds, AllAwait, Backed, Settles, OriginsOf, CompletedOf, LateMergesOf, PassFrom, Settled;
      var pass;
      ok, pass := ledger.Refresh(proposed, candidates);
      PassDropsOnly(Pass(map[], proposed, candidates), pass);
      ghost var before := candidates;
      candidates, origins := pass.candidates, pass.origins;
      if !ok {
        return;
      }
      var saved;
      ok, saved := ledger.log.index.Find(SpanIds(ops));
      if !ok {
        return;
      }
      candidates := candidates - saved.Keys;
      origins := origins + saved;
      Reconciled(SpanIds(ops), proposed, before, pass, saved, OriginsOf(ledger.log.base, ledger.log.records));
    }

    /** Never invent an origin for a span that was completed without one. */
    method DropCompleted(ops: seq<SpanOp>, found: map<string, Origin>)
      returns (ok: bool, origins: map<string, Origin>, known: set<string>, knownMerges: set<string>)
      requires Sound() && ledger.UpToDate()
      requires Settled(SpanIds(ops), found, candidates, OriginsOf(ledger.log.base, ledger.log.records))
      modifies this`cache, this`candidates
      ensures Sound()
      ensures ok ==>
                && (forall s :: s in SpanIds(ops) ==> (s in known <==> s in CompletedOf(ledger.log.base, ledger.log.records)))
                && (forall m :: m in AskedMerges(ops) ==> (m in knownMerges <==> m in LateMergesOf(ledger.log.base, ledger.log.records)))
                && Settled(SpanIds(ops), origins, candidates, OriginsOf(ledger.log.base, ledger.log.records))
                && SubMap(candidates, old(candidates))
                && (forall s :: s in origins <==> s in found && !(s in old(candidates) && s in known))
                && (forall s :: s in candidates ==> s !in known)
                && Unfinished(candidates, ledger.log.base, ledger.log.records)
    {
      ok, known, knownMerges := ledger.log.index.Completed(SpanIds(ops) + candidates.Keys, AskedMerges(ops));
      origins := found;
      if !ok {
        return;
      }
      var dropped := candidates.Keys * known;
      candidates := candidates - dropped;
      origins := origins - dropped;
      cache := cache - dropped;
      KnownAreDone(SpanIds(ops) + old(candidates).Keys, known, candidates, ledger.log.base, ledger.log.records);
    }

    /** Make the remaining candidates durable before any row can leave. */
    method PersistCandidates() returns (ok: bool)
      requires Sound() && ledger.UpToDate()
      modifies this`candidates, ledger`journalLen, ledger`seen, ledger.log`bytes, ledger.log`records, ledger.log.index
      ensures Sound() && Grows(old(ledger.log.Seen()), ledger.log.Seen())
      ensures ok ==>
                && candidates == map[] && ledger.UpToDate()
                && OriginsOf(ledger.log.base, ledger.log.records)
                   == old(candidates) + OriginsOf(ledger.log.base, old(ledger.log.records))
      ensures !ok ==> candidates == old(candidates)
      ensures SubMap(NewOrigins(ledger.log.base, old(ledger.log.records), ledger.log.records), old(candidates))
    {
      hide Tracks, Marks, Holds, AllAwait, Backed, Settles, OriginsOf, CompletedOf, LateMergesOf, NewOrigins;
      ghost var records := ledger.log.records;
      Persisted(ledger.log.base, records, candidates);
      if candidates == map[] {
        return true;
      }
      ok := ledger.AppendOrigins(candidates);
      CacheLater(ledger.log.base, cache, records, ledger.log.records);
      AwaitsOn(ledger.log.base, records, ledger.log.records, ledger.Pending(), accepted);
      if ok {
        candidates := map[];
      }
    }

    method Filter(ops: seq<SpanOp>, known: set<string>, knownMerges: set<string>) returns (kept: seq<SpanOp>)
      ensures kept == Keep(ops, Done(known + ledger.pending, knownMerges + ledger.pendingMerges),
                           RememberAll(ledger.known, ledger.pendingVersions)).ops
    {
      var versions := RememberAll(ledger.known, ledger.pendingVersions);
      ghost var done := Done(known + ledger.pending, knownMerges + ledger.pendingMerges);
      kept := [];
      for i := 0 to |ops|
        invariant Kept(kept, versions) == Keep(ops[..i], done, RememberAll(ledger.known, ledger.pendingVersions))
      {
        assert ops[..i + 1][..i] == ops[..i];
        if !ledger.ShouldEmit(ops[i], known, knownMerges) {
          continue;
        }
        var row := ops[i].row;
        if row.lateMergeVersion.Some? {
          if !VersionAllowed(Lookup(versions, row.spanId), row.lateMergeVersion.value) {
            continue;
          }
          versions := RememberOne(versions, row.spanId, row.lateMergeVersion.value);
        }
        kept := kept + [ops[i]];
      }
      assert ops[..|ops|] == ops;
    }

    method CacheOrigins(rows: seq<SpanOp>)
      requires Sound()
      requires forall row :: row in rows && row.row.origin.Some? ==>
                 Lookup(OriginsOf(ledger.log.base, ledger.log.records), row.row.spanId) == row.row.origin
      modifies this`cache
      ensures Sound()
    {
      for i := 0 to |rows|
        invariant Sound()
      {
        var row := rows[i].row;
        if row.origin.Some? {
          cache := cache[row.spanId := row.origin.value];
        }
      }
    }

    /** Give the rows to the backend, which may refuse or only defer them. */
    method Send() returns (count: Option<nat>)
      requires Valid() && phase.Sending?
      modifies this`phase, this`cache, this`accepted,
               ledger`pending, ledger`pendingMerges, ledger`pendingVersions, ledger.log`handed
      ensures Valid() && phase == Idle
      ensures var rows := old(phase).rows;
              ledger.log.handed == old(ledger.log.handed) + HandedOver(rows, began, ledger.log.records)
      ensures if count.Some? && count.value > 0 then
                var rows := old(phase).rows;
                && ledger.pending == old(ledger.pending) + EndedSpans(rows)
                && ledger.pendingMerges == old(ledger.pendingMerges) + MergeIds(rows)
                && ledger.pendingVersions == VersionsAfter(old(ledger.pendingVersions), rows)
                && accepted == old(accepted) + (set op | op in rows)
              else
                && ledger.pending == old(ledger.pending) && ledger.pendingMerges == old(ledger.pendingMerges)
                && ledger.pendingVersions == old(ledger.pendingVersions)
                && accepted == old(accepted)
    {
      hide Tracks, Marks, Holds, Provenance, Unsuppressed, OriginsOf, CompletedOf, LateMergesOf;
      var rows := phase.rows;
      phase := Idle;
      ClearedOrigins(ledger.log.base, rows, began, ledger.log.records);
      CacheOrigins(rows);
      ledger.log.NoteHanded(HandedOver(rows, began, ledger.log.records));
      var refused: bool := *;
      if refused {
        return None;
      }
      var accepted: nat := *;
      if accepted > 0 {
        Record(rows);
      }
      return Some(accepted);
    }

    /** The backend took the rows: they wait for a flush. */
    method Record(rows: seq<SpanOp>)
      requires Sound()
      modifies this`accepted, ledger`pending, ledger`pendingMerges, ledger`pendingVersions
      ensures Sound()
      ensures ledger.pending == old(ledger.pending) + EndedSpans(rows)
      ensures ledger.pendingMerges == old(ledger.pendingMerges) + MergeIds(rows)
      ensures ledger.pendingVersions == VersionsAfter(old(ledger.pendingVersions), rows)
      ensures accepted == old(accepted) + (set op | op in rows)
    {
      hide Tracks, Marks, SharedLog.Valid, VersionsAfter, Backed, AllAwait;
      PendingBacked(ledger.Pending(), accepted, rows);
      PendingAwaits(ledger.log.base, ledger.log.records, ledger.Pending(), accepted, rows);
      ledger.RecordEmitted(rows);
      accepted := accepted + (set op | op in rows);
    }

    /** The watermarks are those of these records, each read once. */
    ghost predicate Knows(records: seq<Update>)
      reads this, ledger, ledger.log
    {
      Marks(ledger.log.base, records, ledger.known, |records|, [])
    }

    ghost function KeptOf(ops: seq<SpanOp>, records: seq<Update>): seq<SpanOp>
      reads this, ledger, ledger.log
    {
      KeepFor(ops, ledger.log.base, records, ledger.pending, ledger.pendingMerges, ledger.known, ledger.pendingVersions)
    }

    /** Choose the rows of a batch that leave, and their origins. */
    method Select(ops: seq<SpanOp>, found: map<string, Origin>)
      returns (ok: bool, kept: seq<SpanOp>, origins: map<string, Origin>, ghost known: set<string>)
      requires Sound() && ledger.UpToDate()
      requires Settled(SpanIds(ops), found, candidates, OriginsOf(ledger.log.base, ledger.log.records))
      modifies this`cache, this`candidates
      ensures Sound()
      ensures ok ==>
                && kept == KeptOf(ops, ledger.log.records)
                && Settled(SpanIds(ops), origins, candidates, OriginsOf(ledger.log.base, ledger.log.records))
                && SubMap(candidates, old(candidates))
                && (forall s :: s in origins <==> s in found && !(s in old(candidates) && s in known))
                && (forall s :: s in candidates ==> s !in known)
                && Unfinished(candidates, ledger.log.base, ledger.log.records)
    {
      var spans, merges;
      ok, origins, spans, merges := DropCompleted(ops, found);
      known := spans;
      kept := [];
      if !ok {
        return;
      }
      kept := Filter(ops, spans, merges);
      ghost var records := ledger.log.records;
      KeepAsks(ops, Done(spans + ledger.pending, merges + ledger.pendingMerges),
               Done(CompletedOf(ledger.log.base, records) + ledger.pending, LateMergesOf(ledger.log.base, records) + ledger.pendingMerges),
               RememberAll(ledger.known, ledger.pendingVersions));
    }

    /** Choose, under the lock, the rows that leave and their origins. */
    method Choose(ops: seq<SpanOp>) returns (ok: bool, kept: seq<SpanOp>, origins: map<string, Origin>)
      requires Sound()
      modifies this`cache, this`candidates, ledger`journalLen, ledger`known, ledger`seen, ledger`reread, ledger.log.index
      ensures Sound() && Grows(old(ledger.log.Seen()), ledger.log.Seen())
      ensures ok ==> ledger.UpToDate()
      ensures ok ==> kept == KeptOf(ops, ledger.log.records)
      ensures ok ==> Stampable(ops, origins, candidates, OriginsOf(ledger.log.base, ledger.log.records), attached)
      ensures ok ==> Sourced(candidates, old(candidates), ops, capture, attached)
      ensures ok ==> Unfinished(candidates, ledger.log.base, ledger.log.records)
    {
      hide Tracks, Marks, Holds, Sourced, KeepFor, Born, OriginsOf, Unfinished;
      var proposed := Propose(ops);
      ghost var offered := candidates;
      var found;
      kept, origins := [], map[];
      ok, found := Reconcile(ops, proposed);
      if !ok {
        return;
      }
      SourcedSub(candidates, offered, old(candidates), ops, capture, attached);
      ghost var proposals := candidates;
      ghost var known;
      ok, kept, origins, known := Select(ops, found);
      if !ok {
        return;
      }
      SourcedSub(candidates, proposals, old(candidates), ops, capture, attached);
      assert Proposed(ops, origins, candidates, OriginsOf(ledger.log.base, ledger.log.records), attached, found, proposals, known);
    }

    /** Choose the rows of a batch, and make every new origin durable before they can leave. */
    method Prepare(ops: seq<SpanOp>) returns (ok: bool, rows: seq<SpanOp>)
      requires Sound()
      modifies this`cache, this`candidates, ledger`journalLen, ledger`known, ledger`seen, ledger`reread,
               ledger.log`bytes, ledger.log`records, ledger.log.index
      ensures Sound() && Grows(old(ledger.log.Seen()), ledger.log.Seen())
      ensures ok ==> ledger.UpToDate() && Knows(old(ledger.log.records))
      ensures ok ==> Leaves(ledger.log.base, ops, KeptOf(ops, old(ledger.log.records)), rows, old(ledger.log.records), ledger.log.records, attached)
      ensures Sourced(NewOrigins(ledger.log.base, old(ledger.log.records), ledger.log.records), old(candidates), ops, capture, attached)
      ensures Unfinished(NewOrigins(ledger.log.base, old(ledger.log.records), ledger.log.records), ledger.log.base, old(ledger.log.records))
    {
      hide Tracks, Marks, Holds;
      var kept, origins;
      ok, kept, origins := Choose(ops);
      rows := [];
      if !ok || kept == [] {
        return;
      }
      ghost var added, began := candidates, ledger.log.records;
      assert Knows(began);
      ok := PersistCandidates();
      SourcedSub(NewOrigins(ledger.log.base, began, ledger.log.records), added, old(candidates), ops, capture, attached);
      UnfinishedSub(NewOrigins(ledger.log.base, began, ledger.log.records), added, ledger.log.base, began);
      if !ok {
        return;
      }
      rows := StampAll(kept, origins);
      StampedRowsLeave(ledger.log.base, ops, kept, origins, added, began, ledger.log.records, attached,
                       Done(CompletedOf(ledger.log.base, began) + ledger.pending, LateMergesOf(ledger.log.base, began) + ledger.pendingMerges),
                       RememberAll(ledger.known, ledger.pendingVersions));
    }

    /** The part of an emission that runs under the lock; rows that may leave are sent after it. */
    method Stage(ops: seq<SpanOp>) returns (ok: bool)
      requires Valid() && phase == Idle
      modifies this`cache, this`candidates, this`phase, this`began, ledger`journalLen, ledger`known, ledger`seen, ledger`reread,
               ledger.log`bytes, ledger.log`records, ledger.log.index
      ensures Valid() && Grows(old(ledger.log.Seen()), ledger.log.Seen()) && !phase.Committing?
      ensures !ok ==> phase == Idle
      ensures phase.Sending? ==> ops != [] && phase.rows != [] && began == old(ledger.log.records) && Knows(began)
      ensures ok ==> Leaves(ledger.log.base, ops, KeptOf(ops, old(ledger.log.records)), if phase.Sending? then phase.rows else [],
                            old(ledger.log.records), ledger.log.records, attached)
      ensures Sourced(NewOrigins(ledger.log.base, old(ledger.log.records), ledger.log.records), old(candidates), ops, capture, attached)
      ensures Unfinished(NewOrigins(ledger.log.base, old(ledger.log.records), ledger.log.records), ledger.log.base, old(ledger.log.records))
    {
      hide Tracks, Marks, Holds;
      if ops == [] {
        NothingLeaves(ledger.log.base, ops, ledger.log.records, attached);
        assert KeptOf(ops, ledger.log.records) == [];
        return true;
      }
      var rows;
      began := ledger.log.records;
      ok, rows := Prepare(ops);
      if ok && rows != [] {
        phase := Sending(rows);
      }
    }

    /** Emit a batch when nobody else acts: `None` is an error, after which the rows may have left or not. */
    method EmitShared(ops: seq<SpanOp>) returns (count: Option<nat>, ghost rows: seq<SpanOp>)
      requires Valid() && phase == Idle
      modifies this, ledger, ledger.log`bytes, ledger.log`records, ledger.log`handed, ledger.log.index
      ensures Valid() && phase == Idle && Grows(old(ledger.log.Seen()), ledger.log.Seen())
      ensures ledger.log.handed == old(ledger.log.handed) + HandedOver(rows, old(ledger.log.records), ledger.log.records)
      ensures rows != [] || count.Some? ==>
                Leaves(ledger.log.base, ops,
                       KeepFor(ops, ledger.log.base, old(ledger.log.records), old(ledger.pending), old(ledger.pendingMerges),
                               ledger.known, old(ledger.pendingVersions)),
                       rows, old(ledger.log.records), ledger.log.records, attached)
      ensures rows != [] ==> Knows(old(ledger.log.records))
      ensures if count.Some? && count.value > 0 then
                && ledger.pending == old(ledger.pending) + EndedSpans(rows)
                && ledger.pendingMerges == old(ledger.pendingMerges) + MergeIds(rows)
              else
                ledger.pending == old(ledger.pending) && ledger.pendingMerges == old(ledger.pendingMerges)
      ensures Sourced(NewOrigins(ledger.log.base, old(ledger.log.records), ledger.log.records), old(candidates), ops, old(capture), attached)
      ensures Unfinished(NewOrigins(ledger.log.base, old(ledger.log.records), ledger.log.records), ledger.log.base, old(ledger.log.records))
    {
      hide Tracks, Marks, Holds, Cleared, Leaves, KeepFor;
      var ok := Stage(ops);
      rows := [];
      if !ok {
        return None, rows;
      }
      if phase == Idle {
        return Some(0), rows;
      }
      rows := phase.rows;
      count := Send();
    }

    /** The backend's own flush: when it succeeds, what the backend accepted counts as delivered. */
    method FlushBackend() returns (ok: bool)
      requires Valid() && phase == Idle
      modifies this`phase, ledger.log`flushed
      ensures Valid() && (if ok then phase == Committing else phase == Idle)
      ensures ledger.log.flushed == old(ledger.log.flushed) + if ok then accepted else {}
    {
      ok := *;
      if ok {
        ledger.log.NoteFlushed(accepted);
        phase := Committing;
      }
    }

    /** The part of a flush that runs under the lock: make what was flushed durable as delivered. */
    method CommitFlushed() returns (ok: bool)
      requires Valid() && phase == Committing
      modifies this, ledger, ledger.log`bytes, ledger.log`records, ledger.log`settled, ledger.log.index
      ensures Valid() && phase == Idle && Grows(old(ledger.log.Seen()), ledger.log.Seen()) && accepted == old(accepted)
      ensures ok ==> ledger.pending == {} && ledger.pendingMerges == {} && ledger.pendingVersions == map[] && ledger.UpToDate()
      ensures ledger.log.settled == old(ledger.log.settled) + if ok then accepted else {}
      ensures ok ==> forall span :: span in old(ledger.pendingVersions) ==>
                ReachedIn(ledger.log.base, ledger.log.records, span, old(ledger.pendingVersions)[span].ts)
    {
      hide Tracks, Marks, Holds, AllAwait, Backed, Settles, ReachedIn, OriginsOf, CompletedOf, LateMergesOf;
      phase := Idle;
      ok := CatchUp();
      if !ok {
        return;
      }
      ok := SaveAccepted();
      if ok {
        ledger.log.NoteSettled(accepted);
      }
    }

    /** Read what others made durable; leftover candidates that they decided are dropped. */
    method CatchUp() returns (ok: bool)
      requires Sound()
      modifies this`candidates, ledger`journalLen, ledger`known, ledger`seen, ledger`reread, ledger.log.index
      ensures Sound() && Grows(old(ledger.log.Seen()), ledger.log.Seen())
      ensures ok ==> ledger.UpToDate()
      ensures SubMap(candidates, old(candidates))
    {
      hide Tracks, Marks, Holds, AllAwait, Backed, Settles, OriginsOf, CompletedOf, LateMergesOf, PassFrom;
      var pass;
      ok, pass := ledger.Refresh(map[], candidates);
      PassDropsOnly(Pass(map[], map[], candidates), pass);
      candidates := pass.candidates;
    }

    /** What is pending becomes durable, and with it all that was ever accepted. */
    method SaveAccepted() returns (ok: bool)
      requires Sound() && ledger.UpToDate() && accepted <= ledger.log.flushed
      modifies ledger, ledger.log`bytes, ledger.log`records, ledger.log.index
      ensures Sound() && Grows(old(ledger.log.Seen()), ledger.log.Seen())
      ensures ok ==> ledger.pending == {} && ledger.pendingMerges == {} && ledger.pendingVersions == map[] && ledger.UpToDate()
      ensures ok ==> forall op :: op in accepted ==> Settles(ledger.log.base, ledger.log.records, op)
      ensures ok ==> forall span :: span in old(ledger.pendingVersions) ==>
                ReachedIn(ledger.log.base, ledger.log.records, span, old(ledger.pendingVersions)[span].ts)
    {
      hide Tracks, Marks, Holds, Watermark, CompletedOf, LateMergesOf, OriginsOf;
      ghost var records, before := ledger.log.records, ledger.Pending();
      BackedLater(before, accepted, ledger.log.flushed);
      ok := ledger.Commit();
      CacheLater(ledger.log.base, cache, records, ledger.log.records);
      AwaitsLater(ledger.log.base, records, ledger.log.records, before, ledger.Pending(), accepted);
      if ok {
        NothingWaits(ledger.log.base, ledger.log.records, accepted);
      }
    }

    /** Flush the backend, then make what it had been given durable as delivered. */
    method Flush() returns (ok: bool)
      requires Valid() && phase == Idle
      modifies this, ledger, ledger.log, ledger.log.index
      ensures Valid() && phase == Idle && Grows(old(ledger.log.Seen()), ledger.log.Seen())
      ensures ledger.log.handed == old(ledger.log.handed)
      ensures ok ==> ledger.pending == {} && ledger.pendingMerges == {} && ledger.pendingVersions == map[] && ledger.UpToDate()
      ensures ok ==> forall op :: op in old(accepted) ==> Settles(ledger.log.base, ledger.log.records, op)
      ensures ok ==> forall span :: span in old(ledger.pendingVersions) ==>
                ReachedIn(ledger.log.base, ledger.log.records, span, old(ledger.pendingVersions)[span].ts)
    {
      ok := FlushBackend();
      if ok {
        ok := CommitFlushed();
      }
    }
  }

  /** The origins before and after a record that makes some of them durable. */
  lemma Persisted(base: Update, records: seq<Update>, candidates: map<string, Origin>)
    ensures NewOrigins(base, records, records) == map[]
    ensures var more := records + [Update({}, {}, candidates, map[])];
            && OriginsOf(base, more) == candidates + OriginsOf(base, records)
            && SubMap(NewOrigins(base, records, more), candidates)
    ensures candidates == map[] ==> candidates + OriginsOf(base, records) == OriginsOf(base, records)
  {
    var more := records + [Update({}, {}, candidates, map[])];
    assert more[..|records|] == records;
  }

  lemma PassDropsOnly(before: Pass, pass: Pass)
    requires PassFrom(before, pass)
    ensures SubMap(pass.candidates, before.candidates)
  {}

  /** What a call proposed, after a pass over new records and a look at the index. */
  lemma Reconciled(spans: set<string>, proposed: map<string, Origin>, candidates: map<string, Origin>, pass: Pass,
                   saved: map<string, Origin>, durable: map<string, Origin>)
    requires forall s :: s in proposed ==> Lookup(durable, s) == Some(proposed[s]) || Lookup(candidates, s) == Some(proposed[s])
    requires PassFrom(Pass(map[], proposed, candidates), pass) && pass.firsts.Keys <= durable.Keys
    requires saved == map s | s in spans && s in durable :: durable[s]
    ensures Settled(spans, pass.origins + saved, pass.candidates - saved.Keys, durable)
    ensures forall s :: s in proposed && s in spans ==> s in pass.origins + saved
    ensures forall s :: s in pass.origins + saved && s in spans ==> s in proposed || s in durable
  {
    forall s | s in spans && s !in durable
      ensures Lookup(pass.origins, s) == Lookup(proposed, s)
      ensures s in proposed ==> Lookup(pass.candidates, s) == Some(proposed[s])
    {
      assert s !in saved && s !in pass.firsts;
    }
  }

  lemma PendingBacked(u: Update, accepted: set<SpanOp>, rows: seq<SpanOp>)
    requires Backed(u, accepted)
    ensures Backed(Update(u.completed + EndedSpans(rows), u.lateMerges + MergeIds(rows), u.origins, VersionsAfter(u.versions, rows)),
                   accepted + (set op | op in rows))
  {
    hide VersionsAfter;
    var all := accepted + (set op | op in rows);
    BackedLater(u, accepted, all);
    VersionsAreNewest(u.versions, rows);
    forall span | span in VersionsAfter(u.versions, rows)
      ensures Versions(all, span, VersionsAfter(u.versions, rows)[span])
    {
      if Lookup(u.versions, span) != Some(VersionsAfter(u.versions, rows)[span]) {
        var op :| op in rows && op.row.spanId == span && op.row.lateMergeVersion == Some(VersionsAfter(u.versions, rows)[span]);
        assert op in all;
      }
    }
    forall span | span in EndedSpans(rows)
      ensures Ends(all, span)
    {
      var op :| op in rows && op.row.endMs.Some? && op.row.spanId == span;
      assert op in all;
    }
    forall id | id in MergeIds(rows)
      ensures Merges(all, id)
    {
      var op :| op in rows && op.row.lateMergeKey.Some? && LateMergeId(op.row) == id;
      assert op in all;
    }
  }

  lemma PendingAwaits(base: Update, records: seq<Update>, u: Update, accepted: set<SpanOp>, rows: seq<SpanOp>)
    requires AllAwait(base, records, u, accepted)
    ensures AllAwait(base, records, Update(u.completed + EndedSpans(rows), u.lateMerges + MergeIds(rows), u.origins, VersionsAfter(u.versions, rows)),
                     accepted + (set op | op in rows))
  {
    hide VersionsAfter, DoneIn, MergedIn, ReachedIn;
    VersionsAreNewest(u.versions, rows);
    var after := Update(u.completed + EndedSpans(rows), u.lateMerges + MergeIds(rows), u.origins, VersionsAfter(u.versions, rows));
    forall op | op in accepted + (set op | op in rows)
      ensures Awaits(base, records, after, op)
    {
      if op in accepted {
        assert Awaits(base, records, u, op);
      }
    }
  }

  /**
   * The rows that leave are the kept ones with an origin of their own. Every
   * row of a span that had a durable origin, or that the batch creates,
   * carries exactly the origin that is durable for the span now, and no other
   * row carries any; and nothing that was completed leaves.
   */
  ghost predicate Leaves(base: Update, ops: seq<SpanOp>, kept: seq<SpanOp>, rows: seq<SpanOp>, began: seq<Update>, durable: seq<Update>,
                         attached: Option<string>)
  {
    && |rows| == |kept| && Cleared(base, rows, began, durable)
    && (forall i :: 0 <= i < |rows| ==>
          && rows[i] == kept[i].(row := kept[i].row.(origin := rows[i].row.origin))
          && rows[i].row.origin
             == if rows[i].row.spanId in OriginsOf(base, began) || Born(ops, rows[i].row.spanId, attached)
                then Lookup(OriginsOf(base, durable), rows[i].row.spanId) else None)
  }

  lemma NothingLeaves(base: Update, ops: seq<SpanOp>, records: seq<Update>, attached: Option<string>)
    ensures Leaves(base, ops, [], [], records, records, attached)
  {}

  lemma {:induction false} KeptAreFresh(ops: seq<SpanOp>, done: Done, marks: map<string, Version>)
    ensures forall op :: op in Keep(ops, done, marks).ops ==> op in ops && Fresh(op, done)
  {
    if ops != [] {
      KeptAreFresh(ops[..|ops| - 1], done, marks);
    }
  }

  /** Origins that come from what was found, less the candidates of completed spans. */
  ghost predicate Proposed(ops: seq<SpanOp>, origins: map<string, Origin>, added: map<string, Origin>, durable: map<string, Origin>,
                           attached: Option<string>, found: map<string, Origin>, proposals: map<string, Origin>, known: set<string>)
  {
    && Settled(SpanIds(ops), found, proposals, durable)
    && Settled(SpanIds(ops), origins, added, durable)
    && (forall s :: s in SpanIds(ops) ==> (s in found <==> s in durable || Born(ops, s, attached)))
    && (forall s :: s in origins <==> s in found && !(s in proposals && s in known))
    && SubMap(added, proposals)
    && (forall s :: s in added ==> s !in known)
  }

  ghost predicate Stampable(ops: seq<SpanOp>, origins: map<string, Origin>, added: map<string, Origin>, durable: map<string, Origin>,
                            attached: Option<string>)
  {
    exists found, proposals, known :: Proposed(ops, origins, added, durable, attached, found, proposals, known)
  }

  lemma StampedRowsLeave(base: Update, ops: seq<SpanOp>, kept: seq<SpanOp>, origins: map<string, Origin>, added: map<string, Origin>,
                         began: seq<Update>, durable: seq<Update>, attached: Option<string>, done: Done, marks: map<string, Version>)
    requires kept == Keep(ops, done, marks).ops && began <= durable
    requires CompletedOf(base, began) <= done.spans && LateMergesOf(base, began) <= done.merges
    requires Stampable(ops, origins, added, OriginsOf(base, began), attached)
    requires OriginsOf(base, durable) == added + OriginsOf(base, began)
    ensures Leaves(base, ops, kept, StampAll(kept, origins), began, durable, attached)
  {
    var found, proposals, known :| Proposed(ops, origins, added, OriginsOf(base, began), attached, found, proposals, known);
    var rows := StampAll(kept, origins);
    KeptAreFresh(ops, done, marks);
    forall i | 0 <= i < |rows|
      ensures Provenance(base, Handed(rows[i], began, durable)) && Unsuppressed(base, Handed(rows[i], began, durable))
      ensures rows[i].row.origin == if rows[i].row.spanId in OriginsOf(base, began) || Born(ops, rows[i].row.spanId, attached)
                                    then Lookup(OriginsOf(base, durable), rows[i].row.spanId) else None
    {
      var span := kept[i].row.spanId;
      assert kept[i] in ops && Fresh(kept[i], done) && span in SpanIds(ops);
      assert rows[i] == Stamp(kept[i], origins);
      if span !in origins && Born(ops, span, attached) && span !in OriginsOf(base, began) {
        assert span in found && span in proposals && span in known;
      }
    }
    forall h | h in HandedOver(rows, began, durable)
      ensures Provenance(base, h) && Unsuppressed(base, h)
    {
      var i :| 0 <= i < |rows| && HandedOver(rows, began, durable)[i] == h;
    }
  }

  lemma CacheLater(base: Update, cache: map<string, Origin>, records: seq<Update>, more: seq<Update>)
    requires SubMap(cache, OriginsOf(base, records)) && records <= more
    ensures SubMap(cache, OriginsOf(base, more))
  {
    FoldsGrowTo(base, more, |records|);
    assert more[..|records|] == records;
  }
}
