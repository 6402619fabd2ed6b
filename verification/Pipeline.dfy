/**
 * A source, its journal and the delivery loop of one route, all running
 * together, with other routes that come and acknowledge as they like. The
 * process may stop between any two steps; the tables are all that remains.
 */
module Pipeline {
  import opened Wrappers
  import opened Spans
  import Store
  import Live
  import opened SpanJournal
  import Cursors
  import Publication
  import opened Sources
  import opened Consumers

  // --- What others do ------------------------------------------------------------

  /** Another route is added, attached or acknowledged. */
  method OtherRoute(source: Source, route: Store.Route)
    requires source.Valid()
    modifies source.journal`db, source.journal.live
    ensures source.Valid() && source.journal.log == old(source.journal.log)
    ensures Lookup(source.journal.db.heads, route) == old(Lookup(source.journal.db.heads, route))
    ensures old(source.journal.live.routes) <= source.journal.live.routes
    ensures var routes := source.journal.live.routes;
            forall k :: |old(source.journal.live.routes)| <= k < |routes| ==> fresh(routes[k])
  {
    hide Publication.Inv;
    var journal, other := source.journal, *;
    if other == route {
      return;
    }
    ghost var before := source.World();
    var choice: int := *;
    if choice == 0 {
      Publication.RestSound(source.plan, before, Publication.AddRoute(other));
      journal.Register(other);
    } else if choice == 1 {
      var legacyThrough: nat := *;
      Publication.RestSound(source.plan, before, Publication.Attach(other, legacyThrough));
      var receiver, position := journal.Subscribe(other, legacyThrough);
    } else {
      var expected: nat, through: nat := *, *;
      if through > journal.db.tail {
        return;
      }
      Publication.RestSound(source.plan, before, Publication.Acknowledge(other, expected, through));
      var head := journal.CompleteHead(other, expected, through);
      if head.Ok? {
        Store.CompleteKeeps(before.db, before.log, other, expected, through);
      }
    }
  }

  /** The source publishes, fails or restarts. */
  method SourceStep(source: Source)
    requires source.Valid()
    modifies source, source.journal`db, source.journal`log, source.journal`changed, source.journal.live.routes
    ensures source.Valid() && old(source.journal.log) <= source.journal.log
    ensures source.journal.db.heads == old(source.journal.db.heads)
  {
    hide Publication.Inv;
    var choice: int := *;
    if choice == 0 {
      source.Crash();
    } else if choice == 1 && !source.worker.Down? && source.worker.index < |source.plan| {
      var ok := source.Publish();
    } else {
      var ok := source.Advance();
    }
  }

  /** A reader of the route that starts at its stored head. */
  method Reader(source: Source, route: Store.Route, legacyThrough: nat) returns (cursor: Cursors.Cursor)
    requires source.Valid()
    modifies source.journal`db, source.journal.live
    ensures source.Valid() && source.journal.log == old(source.journal.log)
    ensures cursor.Valid() && cursor.Sole() && cursor.journal == source.journal && cursor.route == route
    ensures !cursor.tracker.abandoned && cursor.read == source.journal.db.heads[route]
    ensures fresh(cursor) && fresh(cursor.tracker) && fresh(cursor.live)
    ensures source.journal.live.routes == old(source.journal.live.routes) + [cursor.live]
  {
    hide Publication.Inv;
    Publication.RestSound(source.plan, source.World(), Publication.Attach(route, legacyThrough));
    var receiver, position := source.journal.Subscribe(route, legacyThrough);
    cursor := new Cursors.Cursor(source.journal, receiver, route, position);
  }

  /** Attach a route, new or known, to a source that may have done anything before. */
  method Attach(source: Source, route: Store.Route, legacyThrough: nat) returns (consumer: Consumer)
    requires source.Valid()
    modifies source.journal`db, source.journal.live
    ensures source.Valid() && consumer.Valid() && consumer.journal == source.journal && consumer.route == route
    ensures source.journal.log == old(source.journal.log)
    ensures route in source.journal.db.heads && consumer.start == source.journal.db.heads[route]
    ensures fresh(consumer) && fresh(consumer.cursor) && fresh(consumer.cursor.tracker) && fresh(consumer.cursor.live)
    ensures consumer.pending == [] && consumer.sink == null && consumer.history == []
    ensures source.journal.live.routes == old(source.journal.live.routes) + [consumer.cursor.live]
  {
    hide Publication.Inv, Balanced, Consumer.Valid;
    var cursor := Reader(source, route, legacyThrough);
    consumer := new Consumer(source.journal, route, cursor);
  }

  // --- Everything together ---------------------------------------------------------

  class Daemon {
    const source: Source
    const consumer: Consumer

    ghost predicate Valid()
      reads this, source, source.journal, source.journal.live, source.journal.live.routes
      reads consumer, consumer.cursor, consumer.cursor.tracker, consumer.cursor.live, consumer.pending
      reads consumer.journal, consumer.journal.live, consumer.journal.live.routes
    {
      source.journal == consumer.journal && source.Valid() && consumer.Valid()
    }

    /** What a step brings in, it made itself. */
    twostate predicate OldOrNew()
      reads consumer, consumer.journal.live
    {
      && (consumer.cursor == old(consumer.cursor)
          || (fresh(consumer.cursor) && fresh(consumer.cursor.tracker) && fresh(consumer.cursor.live)))
      && old(consumer.journal.live.routes) <= consumer.journal.live.routes
      && (var routes := consumer.journal.live.routes;
          forall k :: |old(consumer.journal.live.routes)| <= k < |routes| ==> fresh(routes[k]))
      && (forall k :: 0 <= k < |consumer.pending| ==> consumer.pending[k] in old(consumer.pending) || fresh(consumer.pending[k]))
      && (consumer.sink == null || consumer.sink == old(consumer.sink) || fresh(consumer.sink))
    }

    constructor (source: Source, consumer: Consumer)
      requires source.journal == consumer.journal && source.Valid() && consumer.Valid()
      ensures Valid() && this.source == source && this.consumer == consumer
    {
      hide Publication.Inv, Balanced;
      this.source, this.consumer := source, consumer;
    }

    method Others()
      requires Valid()
      modifies consumer.journal`db, consumer.journal.live
      ensures Valid() && OldOrNew()
      ensures source.journal.log == old(source.journal.log) && consumer.history == old(consumer.history)
    {
      hide Publication.Inv, Balanced;
      OtherRoute(source, consumer.route);
      consumer.Undisturbed();
    }

    method Publish()
      requires Valid()
      modifies source, consumer.journal, consumer.journal.live.routes
      ensures Valid() && OldOrNew()
      ensures old(source.journal.log) <= source.journal.log && consumer.history == old(consumer.history)
    {
      hide Publication.Inv, Balanced;
      SourceStep(source);
      consumer.Undisturbed();
    }

    method Deliver()
      requires Valid()
      modifies consumer, consumer.sink, consumer.pending, consumer.cursor, consumer.cursor.tracker, consumer.cursor.live, consumer.journal
      ensures Valid() && OldOrNew()
      ensures source.journal.log == old(source.journal.log)
    {
      hide Publication.Inv, Balanced;
      ghost var before := source.World();
      consumer.Turn();
      Publication.HeadsOnlySound(source.plan, before, source.journal.db);
    }

    /** The process stops, wherever the source and the loop are, and starts again. */
    method Restart()
      requires Valid()
      modifies source, consumer, consumer.journal, consumer.journal.live
      ensures Valid() && OldOrNew()
      ensures source.journal.log == old(source.journal.log)
    {
      hide Publication.Inv, Balanced;
      consumer.Restart();
      source.Crash();
    }

    /** Whoever comes next. */
    method Step()
      requires Valid()
      modifies source, consumer, consumer.sink, consumer.pending, consumer.cursor, consumer.cursor.tracker, consumer.cursor.live
      modifies consumer.journal, consumer.journal.live, consumer.journal.live.routes
      ensures Valid() && OldOrNew()
      ensures old(source.journal.log) <= source.journal.log
    {
      hide Valid;
      var choice: int := *;
      if choice == 0 {
        Others();
      } else if choice == 1 {
        Publish();
      } else if choice == 2 {
        Restart();
      } else {
        Deliver();
      }
    }

    /** What the route's reader has and what its sinks took, against the history without failures. */
    lemma Delivers()
      requires Valid()
      ensures var c, log := consumer, Publication.LogOf(source.plan, |source.plan|);
              && c.route in c.journal.db.heads
              && Acknowledged(c.history, c.start, c.journal.db.heads[c.route], log)
              && InOrder(c.history, c.start, c.journal.db.heads[c.route], c.cursor.read, log)
      ensures source.journal.log <= Publication.LogOf(source.plan, |source.plan|)
    {
      hide Publication.Inv, Balanced;
      var v := consumer.ViewOf(consumer.held, consumer.cursor.read);
      FineMeans(v);
      Publication.SoundIsInOrder(source.plan, source.World());
      AcknowledgedLater(v.history, v.start, v.head, v.log, Publication.LogOf(source.plan, |source.plan|));
      if Strayed !in v.history {
        OpsBetweenLater(v.log, Publication.LogOf(source.plan, |source.plan|), v.start, v.at);
      }
    }

    /**
     * A route whose head is at the end of the history without failures was
     * given all of it after its start; and one that was read to that end with
     * no other failures was given it once, in order. Either way all of it is
     * published.
     */
    lemma Drained()
      requires Valid()
      ensures var c, log := consumer, Publication.LogOf(source.plan, |source.plan|);
              && c.route in c.journal.db.heads
              && (c.journal.db.heads[c.route] == |log| ==>
                    source.journal.log == log && forall p :: c.start < p <= |log| ==> TakenAt(c.history, log, p))
              && (Strayed !in c.history && c.cursor.read == |log| ==>
                    source.journal.log == log && SubmittedOps(c.history) == OpsBetween(log, c.start, |log|))
    {
      Delivers();
      hide Publication.Inv, Balanced, TakenAt, SubmittedOps;
      var v := consumer.ViewOf(consumer.held, consumer.cursor.read);
      FineMeans(v);
    }
  }

  /**
   * The route's positions up to its head were acknowledged in order, each one
   * once; and each only after a sink had taken the operation that was
   * published there and had flushed it with nothing left deferred.
   */
  ghost predicate Acknowledged(history: History, start: nat, head: nat, log: seq<Store.Entry>) {
    && start <= head <= |log|
    && Chain(Completions(history), start, head)
    && (forall p :: start < p <= head ==> TakenAt(history, log, p))
  }

  /** When nothing but ledger commits and head writes ever failed, every operation was submitted once, in order. */
  ghost predicate InOrder(history: History, start: nat, head: nat, read: nat, log: seq<Store.Entry>) {
    Strayed !in history ==>
      start <= head <= read <= |log| && SubmittedOps(history) == OpsBetween(log, start, read)
  }

  lemma AcknowledgedLater(history: History, start: nat, head: nat, log: seq<Store.Entry>, more: seq<Store.Entry>)
    requires Acknowledged(history, start, head, log) && log <= more
    ensures Acknowledged(history, start, head, more)
  {
    forall p | start < p <= head
      ensures TakenAt(history, more, p)
    {
      assert TakenAt(history, log, p);
      assert more[p - 1] == log[p - 1];
    }
  }

  /** Any number of steps of the source and of other routes, interleaved in any way with failures and restarts. */
  method Begin(plan: Publication.Plan, steps: nat) returns (source: Source)
    requires Publication.Ordered(plan)
    ensures source.Valid() && source.plan == plan
    ensures fresh(source) && fresh(source.journal) && fresh(source.journal.live)
    ensures forall k :: 0 <= k < |source.journal.live.routes| ==> fresh(source.journal.live.routes[k])
  {
    hide Publication.Inv;
    var journal := new Journal();
    source := new Source(journal, plan);
    for i := 0 to steps
      invariant source.Valid() && source.plan == plan
      invariant fresh(source) && fresh(source.journal) && fresh(source.journal.live)
      invariant forall k :: 0 <= k < |source.journal.live.routes| ==> fresh(source.journal.live.routes[k])
    {
      var other: bool := *;
      if other {
        var any: Store.Route := *;
        OtherRoute(source, any);
      } else {
        SourceStep(source);
      }
    }
  }

  /**
   * The source and other routes, and then all of them together with the
   * delivery loop of one route: every run, wherever it fails and restarts.
   */
  method Run(plan: Publication.Plan, route: Store.Route, legacyThrough: nat, before: nat, steps: nat) returns (daemon: Daemon)
    requires Publication.Ordered(plan)
    ensures daemon.Valid() && daemon.source.plan == plan && daemon.consumer.route == route
    ensures var c, log := daemon.consumer, Publication.LogOf(plan, |plan|);
            && route in c.journal.db.heads
            && Acknowledged(c.history, c.start, c.journal.db.heads[route], log)
            && InOrder(c.history, c.start, c.journal.db.heads[route], c.cursor.read, log)
  {
    hide Publication.Inv, Balanced, Daemon.Valid;
    var source := Begin(plan, before);
    var consumer := Attach(source, route, legacyThrough);
    daemon := new Daemon(source, consumer);
    for i := 0 to steps
      invariant daemon.Valid() && daemon.source == source && daemon.consumer == consumer
      invariant fresh(source) && fresh(consumer) && fresh(consumer.journal) && fresh(consumer.journal.live)
      invariant fresh(consumer.cursor) && fresh(consumer.cursor.tracker) && fresh(consumer.cursor.live)
      invariant forall k :: 0 <= k < |consumer.journal.live.routes| ==> fresh(consumer.journal.live.routes[k])
      invariant forall k :: 0 <= k < |consumer.pending| ==> fresh(consumer.pending[k])
      invariant consumer.sink != null ==> fresh(consumer.sink)
    {
      daemon.Step();
    }
    daemon.Delivers();
  }
}
