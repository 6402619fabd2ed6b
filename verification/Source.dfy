/** The worker that turns a source's records into published operations, one record after the other. */
module Sources {
  import opened Wrappers
  import opened Spans
  import Roots
  import Store
  import opened Publication
  import opened SpanJournal

  class Source {
    const journal: Journal
    const plan: Plan
    var worker: Worker

    ghost function World(): World
      reads this, journal
    {
      Publication.World(journal.db, journal.log, worker)
    }

    /** Tables, history and worker stand at some point of the run without failures. */
    ghost predicate Valid()
      reads this, journal, journal.live, journal.live.routes
    {
      journal.Valid() && Ordered(plan) && Sound(plan, World())
    }

    constructor (journal: Journal, plan: Plan)
      requires journal.Valid() && journal.db == Store.EMPTY && journal.log == [] && Ordered(plan)
      ensures Valid() && this.journal == journal && this.plan == plan && worker == Down
    {
      this.journal, this.plan, worker := journal, plan, Down;
      new;
      RunKeeps(plan, []);
    }

    /** Everything in memory is lost. */
    method Crash()
      requires Valid()
      modifies this
      ensures Valid() && worker == Down
    {
      hide Inv;
      StepKeeps(plan, World(), Event.Crash);
      worker := Down;
    }

    /** Reload the held roots, and skip the records that are committed. */
    method Initialize()
      requires Valid() && worker.Down?
      modifies this
      ensures Valid() && worker.Waiting?
    {
      hide Inv;
      StepKeeps(plan, World(), Boot);
      var committed := CommittedInputs(journal.db);
      var last := GreatestOf(committed);
      worker := Waiting(Skip(plan, last, committed != {}, 0), journal.db.roots);
    }

    method Open() returns (ok: bool)
      requires Valid() && worker.Waiting? && worker.index < |plan|
      modifies this, journal`db
      ensures Valid() && journal.db.heads == old(journal.db.heads)
      ensures ok ==> worker == Busy(old(worker).index, 0, old(worker).roots, [], 0)
      ensures !ok ==> worker == old(worker)
    {
      hide Inv;
      var unavailable: bool := *;
      if unavailable {
        return false;
      }
      StepKeeps(plan, World(), Event.Open(true));
      var accepted := journal.Begin(plan[worker.index].input, plan[worker.index].observation);
      worker := Busy(worker.index, 0, worker.roots, [], 0);
      return true;
    }

    /** Some more of the record's operations leave the translator and pass the root stage. */
    method Translate()
      requires Valid() && worker.Busy? && worker.index < |plan| && worker.ready == [] && worker.taken < |plan[worker.index].ops|
      modifies this
      ensures Valid() && worker.Busy? && worker.index == old(worker).index
      ensures old(worker).taken < worker.taken <= |plan[worker.index].ops|
    {
      hide Inv;
      var count :| 0 < count <= |plan[worker.index].ops| - worker.taken;
      StepKeeps(plan, World(), Event.Translate(count));
      worker := Translated(plan, worker, count);
    }

    /** Journal what is ready; a failure keeps the rest for the next try. */
    method Write() returns (ok: bool)
      requires Valid() && worker.Busy? && worker.index < |plan| && worker.ready != []
      modifies this, journal`db, journal`log, journal`changed, journal.live.routes
      ensures Valid() && journal.db.heads == old(journal.db.heads) && old(journal.log) <= journal.log
      ensures worker.Busy? && worker.index == old(worker).index && worker.taken == old(worker).taken
      ensures ok ==> worker.ready == []
    {
      hide Inv;
      ghost var before := World();
      var ordinal, rest;
      ok, ordinal, rest := journal.AppendLive(plan[worker.index].input, worker.ordinal, worker.ready);
      ghost var count := |worker.ready| - |rest|;
      worker := worker.(ready := rest, ordinal := ordinal);
      if count > 0 {
        WroteIsWritten(plan, before, World(), count);
        StepKeeps(plan, before, Event.Write(count, true));
        Store.AppendFrame(before.db, plan[worker.index].input, before.worker.ordinal, before.worker.ready[..count]);
      } else {
        assert before.worker.ready[..count] == [];
        assert World() == before;
      }
    }

    /** Commit the record with the roots that are held after it. */
    method Commit() returns (ok: bool)
      requires Valid() && worker.Busy? && worker.index < |plan| && worker.ready == [] && worker.taken == |plan[worker.index].ops|
      modifies this, journal`db, journal`changed
      ensures Valid() && journal.db.heads == old(journal.db.heads)
      ensures if ok then worker == Waiting(old(worker).index + 1, old(worker).roots) else worker == old(worker)
    {
      hide Inv;
      ghost var before := World();
      StepKeeps(plan, before, Finish(true));
      var committed := journal.CommitOutput(plan[worker.index].input, Some(worker.roots));
      ok := committed.Ok?;
      if ok {
        Store.CommitFrame(before.db, plan[worker.index].input, Some(worker.roots));
        worker := Waiting(worker.index + 1, worker.roots);
      }
    }

    /** Publish one record. A failure keeps what has been done, and the call can be repeated. */
    method Publish() returns (ok: bool)
      requires Valid() && !worker.Down? && worker.index < |plan|
      modifies this, journal`db, journal`log, journal`changed, journal.live.routes
      ensures Valid() && journal.db.heads == old(journal.db.heads) && old(journal.log) <= journal.log
      ensures ok ==> worker.Waiting? && worker.index == old(worker).index + 1
      ensures !worker.Down?
    {
      hide Inv;
      if worker.Waiting? {
        ok := Open();
        if !ok {
          return;
        }
      }
      while worker.ready != [] || worker.taken < |plan[worker.index].ops|
        invariant Valid() && worker.Busy? && worker.index == old(worker).index
        invariant journal.db.heads == old(journal.db.heads) && old(journal.log) <= journal.log
        decreases |plan[worker.index].ops| - worker.taken, |worker.ready|
      {
        if worker.ready != [] {
          ok := Write();
          if !ok {
            return;
          }
        } else {
          Translate();
        }
      }
      TakenIsBounded();
      ok := Commit();
    }

    lemma TakenIsBounded()
      requires Valid() && worker.Busy? && worker.index < |plan| && worker.ready == [] && worker.taken >= |plan[worker.index].ops|
      ensures worker.taken == |plan[worker.index].ops|
    {
      var k, r :| Inv(plan, World(), k, r);
    }

    /** Publish every record. When no call fails, exactly the history without failures is published, whatever failed before. */
    method Advance() returns (ok: bool)
      requires Valid()
      modifies this, journal`db, journal`log, journal`changed, journal.live.routes
      ensures Valid() && journal.db.heads == old(journal.db.heads) && old(journal.log) <= journal.log
      ensures ok ==> journal.log == LogOf(plan, |plan|)
    {
      hide Inv;
      if worker.Down? {
        Initialize();
      }
      if worker.Busy? {
        InsideThePlan();
      }
      while worker.index < |plan|
        invariant Valid() && !worker.Down?
        invariant worker.index >= |plan| ==> worker.Waiting?
        invariant journal.db.heads == old(journal.db.heads) && old(journal.log) <= journal.log
        decreases |plan| - worker.index
      {
        ok := Publish();
        if !ok {
          return;
        }
      }
      EndIsReached();
      return true;
    }

    lemma InsideThePlan()
      requires Valid() && worker.Busy?
      ensures worker.index < |plan|
    {
      var k, r :| Inv(plan, World(), k, r);
    }

    lemma EndIsReached()
      requires Valid() && worker.Waiting? && worker.index >= |plan|
      ensures journal.log == LogOf(plan, |plan|)
    {
      var k, r :| Inv(plan, World(), k, r);
    }
  }

  lemma WroteIsWritten(plan: Plan, before: World, after: World, count: nat)
    requires before.worker.Busy? && before.worker.index < |plan| && 0 < count <= |before.worker.ready|
    requires Wrote(before.db, before.log, after.db, after.log, plan[before.worker.index].input, before.worker.ordinal, before.worker.ready[..count])
    requires after.worker == before.worker.(ready := before.worker.ready[count..], ordinal := before.worker.ordinal + count)
    ensures after == Written(plan, before, count, true)
    ensures Step(plan, before, Event.Write(count, true)) == after
  {
    assert before.worker.ready[..count] != [];
  }
}
