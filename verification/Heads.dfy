/**
 * Route heads over every run: publication, new routes, any readers that keep
 * to the contract of `Cursors.Cursor.NextShared`, and acknowledgements in any
 * order, repeated or never made.
 */
module Heads {
  import opened Wrappers
  import opened Spans
  import opened Store
  import Live
  import Cursors

  /** An issued batch: positions `first .. through`, acknowledged from `expected`. */
  datatype Issued = Issued(route: Route, expected: nat, first: nat, through: nat)

  datatype World = World(db: Database, log: seq<Entry>, starts: map<Route, nat>, issued: set<Issued>, acked: set<Issued>)

  const START := World(EMPTY, [], map[], {}, {})

  datatype Event =
    | Open(input: nat, observation: bool)
    | Publish(input: nat, ordinal: nat, ops: seq<SpanOp>)
    | Settle(input: nat, roots: Option<map<string, seq<SpanOp>>>)
    | AddRoute(route: Route)
    | Attach(route: Route, legacyThrough: nat)
    | Issue(batch: Issued)
    | Acknowledge(batch: Issued)

  /** What a reader may hand out, whatever position it had reached. */
  predicate Issuable(db: Database, b: Issued) {
    && b.expected < b.through && b.first <= b.through <= db.tail
    && (b.first == b.expected + 1 || (b.expected < db.floor && b.first == db.floor + 1))
  }

  function Started(starts: map<Route, nat>, before: Database, after: Database, route: Route): map<Route, nat> {
    if route !in before.heads && route in after.heads then starts[route := after.heads[route]] else starts
  }

  ghost function Step(w: World, e: Event): World {
    match e
    case Open(input, observation) => w.(db := Begin(w.db, input, observation).0)
    case Publish(input, ordinal, ops) =>
      var r := Append(w.db, input, ordinal, ops);
      if r.Err? then w else w.(db := r.value.db, log := w.log + r.value.entries)
    case Settle(input, roots) =>
      var r := Commit(w.db, input, roots);
      if r.Err? then w else w.(db := r.value)
    case AddRoute(route) =>
      var db := Register(w.db, route);
      w.(db := db, starts := Started(w.starts, w.db, db, route))
    case Attach(route, legacyThrough) =>
      var db := Subscribe(w.db, route, legacyThrough);
      w.(db := db, starts := Started(w.starts, w.db, db, route))
    case Issue(batch) => if Issuable(w.db, batch) then w.(issued := w.issued + {batch}) else w
    case Acknowledge(batch) =>
      var r := Complete(w.db, batch.route, batch.expected, batch.through);
      if batch !in w.issued || r.Err? then w
      else w.(db := r.value.0, acked := w.acked + {batch})
  }

  ghost function Run(events: seq<Event>): World {
    if events == [] then START else Step(Run(events[..|events| - 1]), events[|events| - 1])
  }

  /** Some acknowledged batch of the route carried the position. */
  ghost predicate Covered(acked: set<Issued>, route: Route, p: nat) {
    exists b :: b in acked && b.route == route && b.first <= p <= b.through
  }

  /** No batch leaves a gap above both its expected position and the floor. */
  ghost predicate Gapless(db: Database, issued: set<Issued>) {
    forall b :: b in issued ==>
      && b.first <= b.through <= db.tail
      && (b.first <= b.expected + 1 || b.first <= db.floor + 1)
  }

  ghost predicate Accounts(db: Database, starts: map<Route, nat>, acked: set<Issued>) {
    && starts.Keys == db.heads.Keys
    && (forall r :: r in db.heads ==> starts[r] <= db.heads[r])
    && (forall r, p: nat :: r in db.heads && starts[r] < p <= db.heads[r] ==> Covered(acked, r, p))
  }

  ghost predicate Inv(w: World) {
    Wf(w.db, w.log) && Gapless(w.db, w.issued) && Accounts(w.db, w.starts, w.acked)
  }

  /** Heads stay or move forward, and so does the floor. */
  ghost predicate Forward(before: Database, after: Database) {
    && before.floor <= after.floor && before.tail <= after.tail
    && (forall r :: r in before.heads ==> r in after.heads && before.heads[r] <= after.heads[r])
  }

  lemma GaplessKeeps(db: Database, next: Database, issued: set<Issued>)
    requires Gapless(db, issued) && db.floor <= next.floor && db.tail <= next.tail
    ensures Gapless(next, issued)
  {}

  lemma PublishKeeps(w: World, e: Event)
    requires Inv(w) && (e.Open? || e.Publish? || e.Settle?)
    ensures Inv(Step(w, e)) && Forward(w.db, Step(w, e).db)
  {
    match e
    case Open(input, observation) =>
      BeginKeeps(w.db, w.log, input, observation);
    case Publish(input, ordinal, ops) =>
      if Append(w.db, input, ordinal, ops).Ok? {
        AppendKeeps(w.db, w.log, input, ordinal, ops);
        AppendFrame(w.db, input, ordinal, ops);
        GaplessKeeps(w.db, Step(w, e).db, w.issued);
      }
    case Settle(input, roots) =>
      if Commit(w.db, input, roots).Ok? {
        CommitKeeps(w.db, w.log, input, roots);
        CommitFrame(w.db, input, roots);
        GaplessKeeps(w.db, Step(w, e).db, w.issued);
      }
    case _ =>
  }

  lemma RouteKeeps(w: World, e: Event)
    requires Inv(w) && (e.AddRoute? || e.Attach?)
    ensures Inv(Step(w, e)) && Forward(w.db, Step(w, e).db)
  {
    if e.AddRoute? {
      RegisterKeeps(w.db, w.log, e.route);
    } else {
      SubscribeKeeps(w.db, w.log, e.route, e.legacyThrough);
    }
  }

  lemma AcknowledgeCovers(w: World, b: Issued)
    requires Inv(w) && b in w.issued && Complete(w.db, b.route, b.expected, b.through).Ok?
    ensures Accounts(Step(w, Acknowledge(b)).db, w.starts, w.acked + {b})
  {
    var next := Step(w, Acknowledge(b));
    CompleteKeeps(w.db, w.log, b.route, b.expected, b.through);
    forall r, p: nat | r in next.db.heads && w.starts[r] < p <= next.db.heads[r]
      ensures Covered(next.acked, r, p)
    {
      if p <= w.db.heads[r] {
        assert Covered(w.acked, r, p);
        var earlier :| earlier in w.acked && earlier.route == r && earlier.first <= p <= earlier.through;
        assert earlier in next.acked;
      } else {
        assert r == b.route && b in next.acked;
      }
    }
  }

  lemma AcknowledgeKeeps(w: World, b: Issued)
    requires Inv(w)
    ensures Inv(Step(w, Acknowledge(b))) && Forward(w.db, Step(w, Acknowledge(b)).db)
  {
    if b in w.issued && Complete(w.db, b.route, b.expected, b.through).Ok? {
      CompleteKeeps(w.db, w.log, b.route, b.expected, b.through);
      AcknowledgeCovers(w, b);
      GaplessKeeps(w.db, Step(w, Acknowledge(b)).db, w.issued);
    }
  }

  lemma StepKeeps(w: World, e: Event)
    requires Inv(w)
    ensures Inv(Step(w, e)) && Forward(w.db, Step(w, e).db)
  {
    if e.Open? || e.Publish? || e.Settle? {
      PublishKeeps(w, e);
    } else if e.AddRoute? || e.Attach? {
      RouteKeeps(w, e);
    } else if e.Acknowledge? {
      AcknowledgeKeeps(w, e.batch);
    }
  }

  lemma {:induction false} RunKeeps(events: seq<Event>)
    ensures Inv(Run(events))
  {
    if events == [] {
      EmptyWf();
    } else {
      RunKeeps(events[..|events| - 1]);
      StepKeeps(Run(events[..|events| - 1]), events[|events| - 1]);
    }
  }

  /** The route's head has passed a position that came after the route's start. */
  ghost predicate Passed(w: World, route: Route, p: nat) {
    route in w.db.heads && route in w.starts && w.starts[route] < p <= w.db.heads[route]
  }

  /** A head never passes a position that no acknowledged batch carried. */
  lemma HeadNeverSkips(events: seq<Event>, route: Route, p: nat)
    requires Passed(Run(events), route, p)
    ensures Covered(Run(events).acked, route, p)
  {
    RunKeeps(events);
  }

  /** Heads never move back, over any continuation of a run. */
  lemma {:induction false} HeadNeverMovesBack(events: seq<Event>, more: seq<Event>, route: Route)
    requires route in Run(events).db.heads
    ensures route in Run(events + more).db.heads
    ensures Run(events).db.heads[route] <= Run(events + more).db.heads[route]
  {
    if more == [] {
      assert events + more == events;
    } else {
      var rest := more[..|more| - 1];
      assert (events + more)[..|events + more| - 1] == events + rest;
      HeadNeverMovesBack(events, rest, route);
      RunKeeps(events + rest);
      StepKeeps(Run(events + rest), more[|more| - 1]);
    }
  }

  /** Whatever a route has not passed is still in the table, as published. */
  lemma PruningLosesNothing(events: seq<Event>, route: Route, p: nat)
    requires var w := Run(events);
             route in w.db.heads && w.db.heads[route] < p <= |w.log|
    ensures var w := Run(events);
            && Visible(w.db, p)
            && w.db.ops[p] == StoredRow(w.log[p - 1].input, w.log[p - 1].op)
  {
    RunKeeps(events);
    AllVisible(Run(events).db, Run(events).log);
  }

  /** The route starts at its head, at or above the floor, and everything above the floor is stored. */
  ghost predicate StartsRetained(w: World, route: Route) {
    && route in w.starts && route in w.db.heads
    && w.db.floor <= w.starts[route] == w.db.heads[route]
    && (forall p :: p in w.db.ops <==> w.db.floor < p <= w.db.tail)
  }

  lemma NewRouteStarts(w: World, e: Event, route: Route)
    requires Inv(w) && route !in w.db.heads
    requires e.AddRoute? || e.Attach?
    requires e.route == route
    ensures StartsRetained(Step(w, e), route)
  {
    RouteKeeps(w, e);
  }

  /** A route that is new in any reachable state starts where nothing it needs is gone. */
  lemma NewRouteStartsRetained(events: seq<Event>, e: Event)
    requires e.AddRoute? || e.Attach?
    requires e.route !in Run(events).db.heads
    ensures StartsRetained(Run(events + [e]), e.route)
  {
    assert (events + [e])[..|events + [e]| - 1] == events;
    RunKeeps(events);
    NewRouteStarts(Run(events), e, e.route);
  }

  /** Every batch a cursor hands out is one that a run may issue. */
  lemma CursorBatchesIssuable(route: Route, records: seq<Live.Record>, after: nat, through: nat, db: Database, log: seq<Entry>)
    requires Wf(db, log) && Cursors.NextBatch(records, after, through, db.floor, log)
    ensures Issuable(db, Issued(route, after, records[0].position, through))
  {
    var p := if after < db.floor && records[0].position == db.floor + 1 then db.floor + 1 else after + 1;
    assert p == records[0].position;
  }

  /** An acknowledgement whose expected position the head has reached always takes effect. */
  lemma ExpectedHeadIsReached(events: seq<Event>, b: Issued)
    requires b in Run(events).issued && b.route in Run(events).db.heads
    requires Run(events).db.heads[b.route] >= b.expected
    ensures var w := Run(events + [Acknowledge(b)]);
            && b in w.acked
            && w.db.heads[b.route] == (if Run(events).db.heads[b.route] > b.through
                                       then Run(events).db.heads[b.route] else b.through)
  {
    var all := events + [Acknowledge(b)];
    assert all[..|all| - 1] == events;
    RunKeeps(events);
    var w := Run(events);
    CompleteKeeps(w.db, w.log, b.route, b.expected, b.through);
  }
}
