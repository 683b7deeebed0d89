/**
 History deletion while the rest of the system does as it likes: internal/storage/writer.go stores samples that were
 queued before the fence, inserts containers and moves them to other resources, rollups are rewritten, and retention
 removes rows. What then remains of `Deletion`: nothing is deleted that is not in scope when it is deleted, and
 whatever is still in scope when the job completes was stored while it ran.
 */
module DeletionInterference {
  import opened Deletion
  import Runs

  /** A step of the job, a row stored by someone else, new or in place of an old one, or rows that someone else
      removed. */
  datatype Act = Own(step: Step) | Store(key: Key, row: Row) | Forget(keys: set<Key>)

  /** `touched` are the rows stored by others since the job last began. */
  datatype Scene = Scene(w: World, touched: set<Key>)

  ghost function Play(job: Job, x: Scene, act: Act): Scene {
    match act
    case Own(step) =>
      if step.Write? then x
      else Scene(Apply(job, x.w, step), if step.Begin? && x.w.place.Loaded? then {} else x.touched)
    case Store(k, row) =>
      if Referential(x.w.db[k := row])
      then Scene(x.w.(base := x.w.base[k := row], db := x.w.db[k := row]), x.touched + {k}) else x
    case Forget(keys) =>
      if Referential(x.w.db - keys)
      then x.(w := x.w.(base := x.w.base - keys, db := x.w.db - keys)) else x
  }

  ghost function Plays(job: Job): (Scene, Act) -> Scene { (x, act) => Play(job, x, act) }

  ghost function Played(job: Job, x: Scene, acts: seq<Act>): Scene { Runs.Run(Plays(job), x, acts) }

  function Opening(db: Db): Scene { Scene(Start(db), {}) }

  // ---------------------------------------------------------------- what is deleted

  /** The row is in scope, or is a grace period that goes with a resource in scope. */
  ghost predicate Condemned(job: Job, db: Db, k: Key)
    requires k in db
  {
    || k in Scope(job, db)
    || (k.table.GracePeriods? && db[k].link.Some? && Key(Resources, db[k].link.value) in Scope(job, db))
  }

  /** The job's next act takes row `k` away. */
  ghost predicate Deletes(job: Job, x: Scene, act: Act, k: Key) {
    act.Own? && k in x.w.db && k !in Play(job, x, act).w.db
  }

  lemma OnlyTheCondemnedGo(job: Job, x: Scene, act: Act, k: Key)
    requires Deletes(job, x, act, k)
    ensures Condemned(job, x.w.db, k)
  {
    assert forall p, t :: p in Matching(job, x.w.db, t) ==> p in Scope(job, x.w.db);
  }

  /** Whatever others do, a row that is missing because of the job was in its scope when the job took it away. */
  lemma {:induction false} LostRowsWereInScope(job: Job, db: Db, acts: seq<Act>, k: Key)
    requires var w := Played(job, Opening(db), acts).w; k in w.base && k !in w.db
    ensures exists j :: 0 <= j < |acts| && Deletes(job, Played(job, Opening(db), acts[..j]), acts[j], k)
                        && Condemned(job, Played(job, Opening(db), acts[..j]).w.db, k)
    decreases |acts|
  {
    if acts != [] {
      var n := |acts| - 1;
      var before, x := acts[..n], Played(job, Opening(db), acts[..n]);
      if k in x.w.base && k !in x.w.db {
        LostRowsWereInScope(job, db, before, k);
        var j :| 0 <= j < n && Deletes(job, Played(job, Opening(db), before[..j]), before[j], k)
                 && Condemned(job, Played(job, Opening(db), before[..j]).w.db, k);
        assert before[..j] == acts[..j] && before[j] == acts[j];
      } else {
        LossIsDeletion(job, x, acts[n], k);
        OnlyTheCondemnedGo(job, x, acts[n], k);
      }
    }
  }

  lemma LossIsDeletion(job: Job, x: Scene, act: Act, k: Key)
    requires !(k in x.w.base && k !in x.w.db)
    requires var w := Play(job, x, act).w; k in w.base && k !in w.db
    ensures Deletes(job, x, act, k)
  {
  }

  // ---------------------------------------------------------------- what remains

  /** The row, or the container through which it is found, was stored by others since the job last began. */
  ghost predicate Disturbed(x: Scene, k: Key)
    requires k in x.w.db
  {
    || k in x.touched
    || (k.table.ContainerSamples? && x.w.db[k].link.Some? && Key(ContainerInstances, x.w.db[k].link.value) in x.touched)
  }

  /** What is left in scope in the tables given is disturbed. */
  ghost predicate OnlyDisturbed(job: Job, x: Scene, tables: seq<Table>) {
    forall k :: k in Scope(job, x.w.db) && k.table in tables ==> Disturbed(x, k)
  }

  ghost predicate Tidy(job: Job, x: Scene) {
    && (x.w.place.Polling? || x.w.place.Deleting? ==>
          x.w.place.i <= |Tables(job.kind)| && OnlyDisturbed(job, x, Tables(job.kind)[..x.w.place.i]))
    && (x.w.state == Completed ==> OnlyDisturbed(job, x, Tables(job.kind)))
  }

  /** Removing rows brings none into scope. */
  lemma RemovingNarrowsScope(job: Job, db: Db, keys: set<Key>)
    ensures Scope(job, db - keys) <= Scope(job, db)
  {
  }

  lemma BatchStaysTidy(job: Job, x: Scene, picked: set<Key>)
    requires Tidy(job, x)
    ensures Tidy(job, Play(job, x, Own(Batch(picked))))
  {
    var db, tables := x.w.db, Tables(job.kind);
    RemovingNarrowsScope(job, db, picked);
    RemovingNarrowsScope(job, db - picked, Cascade(db, picked));
    assert Without(db, {}) == db;
    if x.w.place.Deleting? && x.w.place.i < |tables| {
      var i := x.w.place.i;
      assert tables[..i + 1] == tables[..i] + [tables[i]];
      assert forall k :: k in Scope(job, db) ==> k in Matching(job, db, k.table);
    }
  }

  lemma StoreStaysTidy(job: Job, x: Scene, key: Key, row: Row)
    requires Tidy(job, x)
    ensures Tidy(job, Play(job, x, Store(key, row)))
  {
    var x' := Play(job, x, Store(key, row));
    forall k | k in Scope(job, x'.w.db) && !Disturbed(x', k) ensures k in Scope(job, x.w.db) && !Disturbed(x, k) {
    }
  }

  lemma ActStaysTidy(job: Job, x: Scene, act: Act)
    requires Tidy(job, x)
    ensures Tidy(job, Play(job, x, act))
  {
    match act
    case Store(key, row) => StoreStaysTidy(job, x, key, row);
    case Forget(keys) => RemovingNarrowsScope(job, x.w.db, keys);
    case Own(step) =>
      if step.Batch? {
        BatchStaysTidy(job, x, step.picked);
      } else if step.Finish? {
        assert Tables(job.kind)[..|Tables(job.kind)|] == Tables(job.kind);
      }
  }

  lemma PlayStaysTidy(job: Job, x: Scene, acts: seq<Act>)
    requires Tidy(job, x)
    ensures Tidy(job, Played(job, x, acts))
  {
    hide Tidy, Play;
    forall y, act | Tidy(job, y) ensures Tidy(job, Play(job, y, act)) { ActStaysTidy(job, y, act); }
    Runs.Keeps(Plays(job), y => Tidy(job, y), x, acts);
  }

  /** Whatever others do, a row in scope that a completed job has left behind, or the container through which it is in
      scope, was stored by others since the job last began. */
  lemma SurvivorsWereStoredMeanwhile(job: Job, db: Db, acts: seq<Act>, k: Key)
    requires var w := Played(job, Opening(db), acts).w; w.state == Completed && k in Scope(job, w.db)
    ensures Disturbed(Played(job, Opening(db), acts), k)
  {
    PlayStaysTidy(job, Opening(db), acts);
    ScopeSparesGracePeriods(job, Played(job, Opening(db), acts).w.db);
  }
}
