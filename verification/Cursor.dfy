/** A route's reader: batches of published operations and their acknowledgement. */
module Cursors {
  import opened Wrappers
  import opened Spans
  import opened Store
  import opened Live
  import opened SpanJournal

  /** What a cursor shares with its outstanding deliveries. */
  class Tracker {
    var progress: nat
    var abandoned: bool

    constructor (progress: nat)
      ensures this.progress == progress && !abandoned
    {
      this.progress, abandoned := progress, false;
    }
  }

  /** The obligation to acknowledge `expected + 1 .. through`. */
  class HeadCompletion {
    const journal: Journal
    const live: Live.Route
    const tracker: Tracker
    const route: Store.Route
    const expected: nat
    const through: nat
    var acknowledged: bool

    constructor (journal: Journal, live: Live.Route, tracker: Tracker, route: Store.Route, expected: nat, through: nat)
      ensures this.journal == journal && this.live == live && this.tracker == tracker && this.route == route
      ensures this.expected == expected && this.through == through && !acknowledged
    {
      this.journal, this.live, this.tracker, this.route := journal, live, tracker, route;
      this.expected, this.through, acknowledged := expected, through, false;
    }

    /** Only a stored head counts; a failed write leaves the obligation open. */
    method Complete() returns (ok: bool)
      requires journal.Valid() && through <= |journal.log|
      modifies this`acknowledged, tracker`progress, journal`db
      ensures journal.Valid()
      ensures !ok ==> journal.db == old(journal.db) && acknowledged == old(acknowledged) && tracker.progress == old(tracker.progress)
      ensures ok ==> && acknowledged
                     && Store.Complete(old(journal.db), route, expected, through) == Ok((journal.db, tracker.progress))
                     && route in journal.db.heads && journal.db.heads[route] == tracker.progress >= through
    {
      var head := journal.CompleteHead(route, expected, through);
      if head.Err? {
        return false;
      }
      acknowledged := true;
      tracker.progress := head.value;
      return true;
    }

    /** Letting go of an open obligation stops the feed and asks for a replay. */
    method Drop()
      modifies live`paused, tracker`abandoned
      ensures if acknowledged then live.paused == old(live.paused) && tracker.abandoned == old(tracker.abandoned)
              else live.paused && tracker.abandoned
    {
      if !acknowledged {
        live.Pause();
        tracker.abandoned := true;
      }
    }
  }

  datatype Delivery = Delivery(records: seq<Record>, completion: HeadCompletion)

  /**
   * Published operations at consecutive positions that end at `through` and
   * start right after `after`, unless the table has dropped what follows.
   */
  ghost predicate NextBatch(records: seq<Record>, after: nat, through: nat, floor: nat, log: seq<Entry>) {
    && records != []
    && Run(records, records[0].position, log)
    && records[|records| - 1].position == through
    && (records[0].position == after + 1 || (after < floor && records[0].position == floor + 1))
  }

  /**
   * What a batch means: every published operation up to `through` that the
   * table could still give is in it at its own place, and it is exactly the
   * stretch of the log after `after` unless pruning has passed that position.
   */
  lemma NextBatchMeans(records: seq<Record>, after: nat, through: nat, floor: nat, log: seq<Entry>, p: nat)
    requires NextBatch(records, after, through, floor, log)
    requires after < p <= through && floor < p
    ensures through <= |log| && records[0].position <= p
    ensures var i := p - records[0].position;
            i < |records| && records[i].position == p && records[i].op == log[p - 1].op
    ensures floor <= after ==> |records| == through - after
  {}

  /** Exactly the operations that were published after `after`, up to `through`, each at its own position. */
  ghost predicate Continues(records: seq<Record>, after: nat, through: nat, log: seq<Entry>) {
    && after < through <= |log| && |records| == through - after
    && (forall i :: 0 <= i < |records| ==> records[i].position == after + 1 + i && records[i].op == log[after + i].op)
  }

  /** A batch has no gap exactly when it starts right after the position; in particular when the floor has not passed that. */
  lemma BatchContinuesExactly(records: seq<Record>, after: nat, through: nat, floor: nat, log: seq<Entry>)
    requires NextBatch(records, after, through, floor, log)
    ensures Continues(records, after, through, log) <==> records[0].position == after + 1
    ensures floor <= after ==> Continues(records, after, through, log)
  {}

  /** What the table supplies starts higher exactly when the table has dropped what follows the position. */
  lemma TableSkipsExactly(records: seq<Record>, after: nat, floor: nat, log: seq<Entry>)
    requires records != [] && Run(records, (if after < floor then floor else after) + 1, log)
    ensures records[0].position > after + 1 <==> after < floor
    ensures Continues(records, after, records[|records| - 1].position, log) <==> floor <= after
  {
    assert records[|records| - 1].position == records[0].position + |records| - 1;
  }

  lemma IsNextBatch(records: seq<Record>, after: nat, floor: nat, log: seq<Entry>)
    requires records != [] && Run(records, records[0].position, log)
    requires records[0].position == after + 1 || (after < floor && records[0].position == floor + 1)
    ensures NextBatch(records, after, records[|records| - 1].position, floor, log)
  {}

  lemma NoneIsFaithful(log: seq<Entry>)
    ensures Faithful([], log)
  {}

  lemma RunOfOne(record: Record, log: seq<Entry>)
    requires Faithful([record], log)
    ensures Run([record], record.position, log)
  {}

  /** A record of the feed moves to the end of the batch. */
  lemma TakesNext(records: seq<Record>, queue: seq<Record>, log: seq<Entry>)
    requires records != [] && queue != [] && Run(records, records[0].position, log) && Faithful(queue, log)
    ensures records + [queue[0]] + queue[1..] == records + ([queue[0]] + queue[1..]) == records + queue
    ensures Faithful([queue[0]], log) && Faithful(queue[1..], log)
    ensures queue[0].position == records[|records| - 1].position + 1 ==> Run(records + [queue[0]], records[0].position, log)
  {}

  class Cursor {
    const journal: Journal
    const live: Live.Route
    const tracker: Tracker
    const route: Store.Route
    var read: nat
    var completed: nat
    var queued: Option<Record>

    ghost predicate Valid()
      reads this, journal, journal.live, journal.live.routes, live
    {
      && journal.Valid()
      && live in journal.live.routes
      && (queued.Some? ==> Faithful([queued.value], journal.log))
      && route in journal.db.heads
    }

    constructor (journal: Journal, live: Live.Route, route: Store.Route, position: nat)
      requires journal.Valid() && live in journal.live.routes && route in journal.db.heads
      ensures Valid() && this.journal == journal && this.live == live && this.route == route
      ensures read == completed == position && queued == None
      ensures fresh(tracker) && tracker.progress == position && !tracker.abandoned
    {
      this.journal, this.live, this.route := journal, live, route;
      read, completed, queued := position, position, None;
      tracker := new Tracker(position);
    }

    static function Left(record: Option<Record>): seq<Record> {
      if record.Some? then [record.value] else []
    }

    /** What is there to read: the record that was put back, then the feed. */
    function Ahead(): seq<Record>
      reads this, live
    {
      Left(queued) + live.queue
    }

    /**
     * Extend a batch with the records that follow it in the feed. Nothing
     * that was read is lost: what does not fit is put back.
     */
    method TakeLive(first: Record) returns (records: seq<Record>)
      requires Valid() && Faithful([first], journal.log) && queued == None
      modifies this`queued, live`queue
      ensures Valid()
      ensures records != [] && records[0] == first && Run(records, first.position, journal.log)
      ensures [first] + old(live.queue) == records + Ahead()
      ensures |records| > 1 ==> Bytes(records) <= 262144
    {
      hide Store.Wf, Run, Faithful, Bytes;
      records := [first];
      RunOfOne(first, journal.log);
      BytesGrow([], first);
      var bytes := first.bytes;
      while bytes < BYTE_BUDGET
        invariant Valid() && queued == None
        invariant records != [] && records[0] == first && Run(records, first.position, journal.log)
        invariant [first] + old(live.queue) == records + live.queue
        invariant bytes == Bytes(records) && (|records| > 1 ==> bytes <= 262144)
        decreases |live.queue|
      {
        var late: bool := *;
        if late {
          break;
        }
        ghost var queue := live.queue;
        var next := live.TryRecv();
        if next.None? {
          break;
        }
        TakesNext(records, queue, journal.log);
        if next.value.position != records[|records| - 1].position + 1 || bytes + next.value.bytes > BYTE_BUDGET {
          queued := next;
          break;
        }
        bytes := bytes + next.value.bytes;
        BytesGrow(records, next.value);
        records := records + [next.value];
      }
    }

    /** The first record to read: the one that was put back, or else the next of the feed. */
    method TakeFirst() returns (first: Option<Record>)
      requires Valid()
      modifies this`queued, live`queue
      ensures Valid() && queued == None
      ensures old(Ahead()) == Left(first) + live.queue && (first.None? ==> live.queue == [])
      ensures first.Some? ==> Faithful([first.value], journal.log)
    {
      hide Store.Wf, Run;
      first := queued;
      queued := None;
      if first.None? {
        first := live.TryRecv();
      }
    }

    /** Records from the feed when it continues right after `read`, else from storage. */
    method Fetch() returns (r: Result<seq<Record>>)
      requires Valid()
      modifies this`queued, live`queue, journal`replay
      ensures Valid()
      ensures r == Ok([]) ==> journal.db.tail <= read || journal.db.tail == journal.db.floor
      ensures r.Ok? && r.value != [] ==> NextBatch(r.value, read, r.value[|r.value| - 1].position, journal.db.floor, journal.log)
      ensures if old(Ahead()) != [] && old(Ahead())[0].position == read + 1 then r.Ok? && old(Ahead()) == r.value + Ahead()
              else r.Ok? ==> Ahead() == []
    {
      hide Store.Wf, Run, Faithful, NextBatch, Bytes;
      var first := TakeFirst();
      if first.Some? && first.value.position == read + 1 {
        var records := TakeLive(first.value);
        IsNextBatch(records, read, journal.db.floor, journal.log);
        return Ok(records);
      }
      r := journal.RecoverAfter(read);
      if r.Ok? {
        live.Clear();
        NoneIsFaithful(journal.log);
        if r.value != [] {
          IsNextBatch(r.value, read, journal.db.floor, journal.log);
        }
      }
    }

    /** The next batch after `read`, with the obligation to acknowledge it. */
    method NextShared() returns (r: Result<Option<Delivery>>)
      requires Valid()
      modifies this`read, this`queued, live, journal`replay
      ensures Valid()
      ensures r.Err? || r.value.None? ==> read == old(read)
      ensures r == Ok(None) ==> journal.changed <= read || journal.db.tail <= read || journal.db.tail == journal.db.floor
      ensures if journal.changed <= old(read) then r == Ok(None) && !live.paused && Ahead() == old(Ahead())
              else live.paused == old(live.paused)
      ensures r.Ok? && r.value.Some? ==>
                var d := r.value.value;
                && NextBatch(d.records, old(read), read, journal.db.floor, journal.log)
                && d.completion.expected == old(read) && d.completion.through == read
                && fresh(d.completion) && Opens(d.completion)
    {
      hide Store.Wf, Run, Faithful, NextBatch;
      if read >= journal.changed {
        live.Resume();
        return Ok(None);
      }
      var after := read;
      var records := Fetch();
      if records.Err? {
        return Err(records.message);
      }
      if records.value == [] {
        return Ok(None);
      }
      read := records.value[|records.value| - 1].position;
      var completion := new HeadCompletion(journal, live, tracker, route, after, read);
      return Ok(Some(Delivery(records.value, completion)));
    }

    /** A new obligation of this cursor. */
    ghost predicate Opens(c: HeadCompletion)
      reads c
    {
      c.journal == journal && c.live == live && c.tracker == tracker && c.route == route && !c.acknowledged
    }

    /** Return to the stored head and forget everything that was read ahead. */
    method Rewind() returns (ok: bool)
      requires Valid()
      modifies this`read, this`completed, this`queued, live`queue, tracker`progress
      ensures Valid()
      ensures ok ==> read == completed == tracker.progress == journal.db.heads[route] && queued == None && live.queue == []
      ensures !ok ==> read == old(read) && tracker.progress == old(tracker.progress)
    {
      ok := *;
      if !ok {
        return;
      }
      completed := journal.db.heads[route];
      read := completed;
      queued := None;
      live.Clear();
      tracker.progress := completed;
    }

    /** What the cursor knows as acknowledged is what is stored: nobody else moves the route's head. */
    ghost predicate Sole()
      reads this, tracker, journal
    {
      route in journal.db.heads && tracker.progress == journal.db.heads[route]
    }

    /** Where reading goes on. */
    function Base(): nat
      reads this, tracker, journal
      requires route in journal.db.heads
    {
      if tracker.abandoned then journal.db.heads[route]
      else if read < tracker.progress then tracker.progress
      else read
    }

    /** Nobody prunes past a stored head. */
    lemma SoleIsRetained()
      requires Valid() && Sole()
      ensures journal.db.floor <= tracker.progress
    {}

    /** One pass of the receive loop; `None` means that it waits. */
    method Receive() returns (r: Result<Option<Delivery>>)
      requires Valid()
      modifies this`read, this`completed, this`queued, live, journal`replay, tracker
      ensures Valid()
      ensures tracker.abandoned ==>
                old(tracker.abandoned) && r.Err? && read == old(read) && tracker.progress == old(tracker.progress)
      ensures !tracker.abandoned ==>
                tracker.progress == if old(tracker.abandoned) then journal.db.heads[route] else old(tracker.progress)
      ensures !tracker.abandoned && (r.Err? || r.value.None?) ==> read == old(Base())
      ensures r.Ok? && r.value.Some? ==>
                var d := r.value.value;
                && !tracker.abandoned
                && d.completion.expected == old(Base()) && d.completion.through == read
                && NextBatch(d.records, old(Base()), read, journal.db.floor, journal.log)
                && fresh(d.completion) && Opens(d.completion)
      ensures r == Ok(None) && journal.changed <= read ==> !live.paused
      ensures old(Sole()) ==> Sole()
      ensures old(Sole()) && r.Ok? && r.value.Some? ==> Continues(r.value.value.records, old(Base()), read, journal.log)
    {
      hide Store.Wf, Live.Run, NextBatch, Continues;
      if tracker.abandoned {
        var ok := Rewind();
        if !ok {
          return Err("storage failure");
        }
        tracker.abandoned := false;
      }
      completed := tracker.progress;
      if read < completed {
        read := completed;
      }
      ghost var after := read;
      if old(Sole()) {
        SoleIsRetained();
      }
      var unbound: bool := *;
      if unbound {
        return Err("binding changed");
      }
      r := NextShared();
      if r.Ok? && r.value.Some? {
        BatchContinuesExactly(r.value.value.records, after, read, journal.db.floor, journal.log);
      }
    }
  }
}
