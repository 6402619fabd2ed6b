/**
 * The only reader of a route, whatever it does with what it gets: batches are
 * completed in any order, repeatedly or never, or let go, while the source and
 * other routes go on. And what a second reader of the same route can see.
 */
module Readers {
  import opened Wrappers
  import opened Spans
  import Store
  import Live
  import opened SpanJournal
  import opened Cursors
  import Publication
  import Heads
  import opened Sources
  import Pipeline

  /** A batch that was handed out, and where reading stood before it. */
  datatype Batch = Batch(records: seq<Live.Record>, after: nat, through: nat)

  ghost predicate AllContinue(batches: seq<Batch>, log: seq<Store.Entry>) {
    forall b <- batches :: Continues(b.records, b.after, b.through, log)
  }

  lemma ContinueLater(batches: seq<Batch>, log: seq<Store.Entry>, more: seq<Store.Entry>)
    requires AllContinue(batches, log) && log <= more
    ensures AllContinue(batches, more)
  {
    assert more[..|log|] == log;
  }

  class Reader {
    const source: Source
    const cursor: Cursor
    var open: seq<HeadCompletion>
    ghost var batches: seq<Batch>

    ghost predicate Valid()
      reads this, source, source.journal, source.journal.live, source.journal.live.routes
      reads cursor, cursor.tracker, cursor.live, open, cursor.journal, cursor.journal.live, cursor.journal.live.routes
    {
      && cursor.journal == source.journal
      && source.Valid() && cursor.Valid() && cursor.Sole()
      && (forall c <- open :: Ours(c))
      && AllContinue(batches, source.journal.log)
    }

    ghost predicate Ours(c: HeadCompletion)
      reads cursor, c, cursor.journal
    {
      && c.journal == cursor.journal && c.live == cursor.live && c.tracker == cursor.tracker && c.route == cursor.route
      && c.through <= |cursor.journal.log|
    }

    constructor (source: Source, cursor: Cursor)
      requires cursor.journal == source.journal && source.Valid() && cursor.Valid() && cursor.Sole()
      ensures Valid() && this.source == source && this.cursor == cursor && open == [] && batches == []
    {
      hide Publication.Inv;
      this.source, this.cursor, open, batches := source, cursor, [], [];
    }

    /** The source or another route goes on; either may prune what this reader has passed. */
    method Elsewhere()
      requires Valid()
      modifies source, cursor.journal`db, cursor.journal`log, cursor.journal`changed, cursor.journal.live, cursor.journal.live.routes, this`batches
      ensures Valid() && batches == old(batches)
      ensures old(cursor.journal.live.routes) <= cursor.journal.live.routes
      ensures var routes := cursor.journal.live.routes;
              forall k :: |old(cursor.journal.live.routes)| <= k < |routes| ==> fresh(routes[k])
    {
      hide Publication.Inv, AllContinue;
      var choice: bool := *;
      if choice {
        Pipeline.OtherRoute(source, cursor.route);
      } else {
        Pipeline.SourceStep(source);
      }
      ContinueLater(batches, old(source.journal.log), source.journal.log);
    }

    /** Whatever was pruned, the next batch goes on right where reading stood. */
    method Receive()
      requires Valid()
      modifies this, cursor, cursor.tracker, cursor.live, cursor.journal`replay
      ensures Valid()
      ensures if open == old(open) then batches == old(batches)
              else && (exists c :: fresh(c) && open == old(open) + [c])
                   && exists records :: batches == old(batches) + [Batch(records, old(cursor.Base()), cursor.read)]
    {
      hide Publication.Inv;
      ghost var after := cursor.Base();
      var r := cursor.Receive();
      if r.Ok? && r.value.Some? {
        var d := r.value.value;
        open := open + [d.completion];
        batches := batches + [Batch(d.records, after, cursor.read)];
      }
    }

    method Complete(c: HeadCompletion)
      requires Valid() && c in open
      modifies c`acknowledged, cursor.tracker`progress, cursor.journal`db
      ensures Valid()
    {
      hide Publication.Inv, AllContinue, Store.OnlyHeads;
      ghost var before := source.World();
      Store.NoHeads(before.db);
      var ok := c.Complete();
      if ok {
        Store.CompleteMovesHeads(before.db, c.route, c.expected, c.through);
      }
      Publication.HeadsOnlySound(source.plan, before, source.journal.db);
    }

    method Drop(c: HeadCompletion)
      requires Valid() && c in open
      modifies cursor.live`paused, cursor.tracker`abandoned
      ensures Valid()
    {
      hide Publication.Inv, AllContinue;
      c.Drop();
    }

    method Step()
      requires Valid()
      modifies source, this, cursor, cursor.tracker, cursor.live, open, cursor.journal, cursor.journal.live, cursor.journal.live.routes
      ensures Valid()
      ensures old(open) <= open && forall k :: |old(open)| <= k < |open| ==> fresh(open[k])
      ensures old(cursor.journal.live.routes) <= cursor.journal.live.routes
      ensures var routes := cursor.journal.live.routes;
              forall k :: |old(cursor.journal.live.routes)| <= k < |routes| ==> fresh(routes[k])
    {
      hide Valid;
      var choice: int := *;
      if choice == 0 {
        Elsewhere();
      } else if choice == 1 || open == [] {
        Receive();
      } else {
        var k :| 0 <= k < |open|;
        if choice == 2 {
          Complete(open[k]);
        } else {
          Drop(open[k]);
        }
      }
    }
  }

  /** Every batch that the only reader of a route is ever given continues where reading stood: none has a gap. */
  method ReadAlone(plan: Publication.Plan, route: Store.Route, legacyThrough: nat, before: nat, steps: nat) returns (reader: Reader)
    requires Publication.Ordered(plan)
    ensures reader.source.plan == plan && reader.cursor.route == route
    ensures AllContinue(reader.batches, Publication.LogOf(plan, |plan|))
  {
    hide Publication.Inv, AllContinue, Reader.Valid;
    var source := Pipeline.Begin(plan, before);
    var cursor := Pipeline.Reader(source, route, legacyThrough);
    reader := new Reader(source, cursor);
    for i := 0 to steps
      invariant reader.Valid() && reader.source == source && reader.cursor == cursor
      invariant fresh(reader) && fresh(source) && fresh(cursor.journal) && fresh(cursor.journal.live)
      invariant fresh(cursor) && fresh(cursor.tracker) && fresh(cursor.live)
      invariant forall k :: 0 <= k < |cursor.journal.live.routes| ==> fresh(cursor.journal.live.routes[k])
      invariant forall k :: 0 <= k < |reader.open| ==> fresh(reader.open[k])
    {
      reader.Step();
    }
    EndsInOrder(reader);
  }

  lemma EndsInOrder(reader: Reader)
    requires reader.Valid()
    ensures AllContinue(reader.batches, Publication.LogOf(reader.source.plan, |reader.source.plan|))
  {
    hide Publication.Inv, AllContinue;
    Publication.SoundIsInOrder(reader.source.plan, reader.source.World());
    ContinueLater(reader.batches, reader.source.journal.log, Publication.LogOf(reader.source.plan, |reader.source.plan|));
  }

  // --- A second reader -----------------------------------------------------------------

  /** Two operations are published; one of two readers that start at the beginning acknowledges the first of them. */
  function Acknowledged(route: Store.Route, op: SpanOp): seq<Heads.Event> {
    [Heads.Attach(route, 0), Heads.Open(1, false), Heads.Publish(1, 0, [op, op]),
     Heads.Issue(Heads.Issued(route, 0, 1, 1)), Heads.Acknowledge(Heads.Issued(route, 0, 1, 1))]
  }

  lemma FirstIsAcknowledged(route: Store.Route, op: SpanOp)
    ensures var w := Heads.Run(Acknowledged(route, op));
            && w.db.heads == map[route := 1] && w.db.floor == 1 && w.db.tail == 2
            && w.log == [Store.Entry(1, false, op), Store.Entry(1, false, op)]
  {
    var batch := Heads.Issued(route, 0, 1, 1);
    RunsFive(Heads.Attach(route, 0), Heads.Open(1, false), Heads.Publish(1, 0, [op, op]), Heads.Issue(batch), Heads.Acknowledge(batch));
    var attached := Heads.Step(Heads.START, Heads.Attach(route, 0));
    Store.EmptyWf();
    Store.SubscribeKeeps(Store.EMPTY, [], route, 0);
    assert attached.db.heads == map[route := 0];
    hide Store.Subscribe, Store.Wf;
    var begun := Heads.Step(attached, Heads.Open(1, false));
    TwoPublished(begun.db, op);
    hide Store.Append;
    var published := Heads.Step(begun, Heads.Publish(1, 0, [op, op]));
    FirstAcknowledged(published.db, route);
    hide Store.Complete;
    assert [] + published.log == published.log;
  }

  /** The table then gives the other reader, which has read nothing, a batch that skips the first operation. */
  lemma SecondReaderSkips(route: Store.Route, op: SpanOp, size: nat)
    ensures var w := Heads.Run(Acknowledged(route, op));
            var records := [Live.Record(2, op, size)];
            && w.db.heads == map[route := 1] && w.db.floor == 1 && w.db.tail == 2
            && NextBatch(records, 0, 2, w.db.floor, w.log) && !Continues(records, 0, 2, w.log)
            && Heads.Issuable(w.db, Heads.Issued(route, 0, 2, 2))
            && forall any: seq<Live.Record> :: any != [] && Live.Run(any, w.db.floor + 1, w.log) ==> any[0].position == 2
  {
    FirstIsAcknowledged(route, op);
    hide Heads.Run;
    assert Heads.Run(Acknowledged(route, op)).log[1].op == op;
  }

  lemma RunSnoc(events: seq<Heads.Event>, e: Heads.Event)
    ensures Heads.Run(events + [e]) == Heads.Step(Heads.Run(events), e)
  {
    assert (events + [e])[..|events|] == events;
  }

  lemma RunsFive(a: Heads.Event, b: Heads.Event, c: Heads.Event, d: Heads.Event, e: Heads.Event)
    ensures Heads.Run([a, b, c, d, e])
            == Heads.Step(Heads.Step(Heads.Step(Heads.Step(Heads.Step(Heads.START, a), b), c), d), e)
  {
    hide Heads.Step;
    assert Heads.Run([]) == Heads.START;
    RunSnoc([], a);
    RunSnoc([a], b);
    RunSnoc([a, b], c);
    RunSnoc([a, b, c], d);
    RunSnoc([a, b, c, d], e);
    assert [] + [a] == [a] && [a] + [b] == [a, b] && [a, b] + [c] == [a, b, c] && [a, b, c] + [d] == [a, b, c, d];
    assert [a, b, c, d] + [e] == [a, b, c, d, e];
  }

  lemma TwoPublished(db: Store.Database, op: SpanOp)
    requires db.batches == map[1 := Store.Batch(false, false)] && db.receipts == {} && db.sequence == 0
    ensures var r := Store.Append(db, 1, 0, [op, op]);
            && r.Ok? && r.value.db.heads == db.heads && r.value.db.floor == db.floor && r.value.db.tail == 2
            && r.value.entries == [Store.Entry(1, false, op), Store.Entry(1, false, op)]
  {
    assert [op, op][..1] == [op] && [op][..0] == [];
    assert Store.AppendRows(db, 1, 0, []) == Ok(Store.Appended(db, [], []));
    var first := Store.AppendRows(db, 1, 0, [op]).value;
    assert first.entries == [Store.Entry(1, false, op)] && first.db.receipts == {Store.Receipt(1, 0)};
  }

  lemma FirstAcknowledged(db: Store.Database, route: Store.Route)
    requires db.heads == map[route := 0] && db.floor == 0
    ensures var r := Store.Complete(db, route, 0, 1);
            r.Ok? && r.value.0.heads == map[route := 1] && r.value.0.floor == 1 && r.value.0.tail == db.tail
  {
    var moved := db.heads[route := 1];
    assert moved == map[route := 1];
    assert moved.Values == {1} by {
      assert moved[route] == 1;
    }
  }
}
