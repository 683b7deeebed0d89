/**
 What users and crashes can do to a deletion job of internal/storage/deletion.go: when a cancelled or failed job stays
 as it is, how much a job that is being cancelled still deletes, and which rows no job ever deletes.
 */
module DeletionControl {
  import opened Deletion
  import Runs

  // ---------------------------------------------------------------- rows after the fence

  /** A history row after the fence is never deleted, whatever happens to the job. */
  lemma NewRowsStay(job: Job, w: World, steps: seq<Step>, k: Key)
    requires Valid(job) && k in w.db && IsHistory(k.table) && job.fence < w.db[k].ts
    ensures var after := Run(job, w, steps); k in after.db && job.fence < after.db[k].ts
  {
    hide Apply;
    forall x: World, step | k in x.db && job.fence < x.db[k].ts
      ensures k in Apply(job, x, step).db && job.fence < Apply(job, x, step).db[k].ts
    {
      NewRowStays(job, x, step, k);
    }
    Runs.Keeps(Steps(job), (x: World) => k in x.db && job.fence < x.db[k].ts, w, steps);
  }

  lemma NewRowStays(job: Job, w: World, step: Step, k: Key)
    requires Valid(job) && k in w.db && IsHistory(k.table) && job.fence < w.db[k].ts
    ensures var after := Apply(job, w, step); k in after.db && job.fence < after.db[k].ts
  {
    assert forall t :: k !in Matching(job, w.db, t);
  }

  // ---------------------------------------------------------------- jobs that were stopped

  /** Nobody asks for the job again and no collector writes. */
  ghost predicate LeftAlone(steps: seq<Step>) {
    forall i :: 0 <= i < |steps| ==> !steps[i].Retry? && !steps[i].Write?
  }

  lemma {:induction false} StoppedStays(job: Job, w: World, steps: seq<Step>)
    requires w.state in {Cancelled, Failed, Completed} && w.place == Idle && LeftAlone(steps)
    ensures Run(job, w, steps) == w
    decreases |steps|
  {
    if steps != [] { StoppedStays(job, w, steps[..|steps| - 1]); }
  }

  /** A cancelled or failed job stays as it is until it is retried exactly when the worker has not loaded it yet: once
      loaded, it is marked running without another look at its state. */
  lemma StoppedStaysUnlessLoaded(job: Job, w: World)
    requires w.state in {Cancelled, Failed} && (w.place == Idle || w.place == Loaded)
    ensures (forall steps :: LeftAlone(steps) ==>
               Run(job, w, steps).state == w.state && Run(job, w, steps).db == w.db) <==> w.place == Idle
  {
    if w.place == Idle {
      forall steps | LeftAlone(steps) ensures Run(job, w, steps) == w { StoppedStays(job, w, steps); }
    } else {
      Runs.Nothing(Steps(job), w);
      Runs.OneMore(Steps(job), w, [], Begin);
      assert LeftAlone([] + [Begin]) && Run(job, w, [] + [Begin]).state == Running;
    }
  }

  /** A queued job that is cancelled just after it was loaded runs all the same. */
  lemma CancelCanBeLost(job: Job, db: Db)
    ensures var w := Run(job, Start(db), [Load, Cancel]);
            w.state == Cancelled && Run(job, Start(db), [Load, Cancel, Begin]).state == Running
  {
    var w0 := Start(db);
    Runs.Nothing(Steps(job), w0);
    Runs.OneMore(Steps(job), w0, [], Load);
    Runs.OneMore(Steps(job), w0, [] + [Load], Cancel);
    Runs.OneMore(Steps(job), w0, [] + [Load] + [Cancel], Begin);
    assert [] + [Load] + [Cancel] == [Load, Cancel] && [] + [Load] + [Cancel] + [Begin] == [Load, Cancel, Begin];
  }

  /** A restart keeps the rows and the worker's next turn: it loads the job exactly if it was queued or running, and
      leaves it alone if it was being cancelled. A retry makes it load one that was cancelled or has failed. */
  lemma InterruptedJobsResume(job: Job, w: World)
    ensures var after := Apply(job, w, Restart);
            && after.db == w.db && after.base == w.base && after.place == Idle
            && (Apply(job, after, Load).place == Loaded <==> w.state in {Queued, Running})
            && (w.state == Cancelling ==> after.state == Cancelled)
            && (Apply(job, Apply(job, after, Retry), Load).place == Loaded <==> w.state != Completed)
  {
  }

  // ---------------------------------------------------------------- jobs that are being cancelled

  /** At most one batch of rows, with what cascades, is gone. */
  ghost predicate OneBatchLess(before: Db, after: Db) {
    exists picked: set<Key> :: |picked| <= 500 && after == Without(before, picked)
  }

  /** The job cannot delete anything any more. */
  ghost predicate Spent(x: World) {
    x.state !in {Queued, Running} && (x.place.Idle? || (x.place.Polling? && x.state == Cancelling))
  }

  /** Where a job that was being cancelled in `w` can get to. */
  ghost predicate WindsDown(w: World, x: World) {
    || (x.state == w.state && x.place == w.place && x.db == w.db)
    || (Spent(x) && (x.db == w.db || (w.place.Deleting? && OneBatchLess(w.db, x.db))))
  }

  lemma StepWindsDown(job: Job, w: World, x: World, step: Step)
    requires w.state == Cancelling && (w.place.Polling? || w.place.Deleting?) && WindsDown(w, x)
    requires !step.Retry? && !step.Write?
    ensures WindsDown(w, Apply(job, x, step))
  {
    if step.Batch? && Apply(job, x, step).db != x.db {
      assert |step.picked| <= 500 && Apply(job, x, step).db == Without(w.db, step.picked);
    }
  }

  lemma {:induction false} RunWindsDown(job: Job, w: World, steps: seq<Step>)
    requires w.state == Cancelling && (w.place.Polling? || w.place.Deleting?) && LeftAlone(steps)
    ensures WindsDown(w, Run(job, w, steps))
    decreases |steps|
  {
    hide WindsDown, Apply;
    if steps == [] {
      WindsDownFromHere(w);
    } else {
      RunWindsDown(job, w, steps[..|steps| - 1]);
      StepWindsDown(job, w, Run(job, w, steps[..|steps| - 1]), steps[|steps| - 1]);
    }
  }

  lemma WindsDownFromHere(w: World)
    ensures WindsDown(w, w)
  {
  }

  /** Whatever follows but a retry, a job that is being cancelled deletes nothing more, or one batch of at most 500 rows
      if the worker had already looked at its state. */
  lemma CancellingDeletesOneBatchMore(job: Job, w: World, steps: seq<Step>)
    requires w.state == Cancelling && (w.place.Polling? || w.place.Deleting?) && LeftAlone(steps)
    ensures var after := Run(job, w, steps);
            after.db == w.db || (w.place.Deleting? && OneBatchLess(w.db, after.db))
  {
    RunWindsDown(job, w, steps);
  }
}
