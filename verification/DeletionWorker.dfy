/**
 The deletion worker of internal/storage/deletion.go as the program it is: nested loops over tables and batches
 that change the database and the job's state in place. Each execution is a run of the steps in `Deletion`.
 */
module DeletionWorker {
  import opened Options
  import opened Deletion
  import Runs

  /** What happens elsewhere around a batch: a collector appends history after the fence, a user cancels before or
      after the job's state is read, the statement fails, or the process stops. */
  datatype Outside =
    | Nothing | Append(key: Key, row: Row) | CancelRequest | LateCancelRequest | StatementFails | ProcessStops

  /** Nobody disturbs the job: at most collectors write. */
  predicate Undisturbed(event: Outside) { event.Nothing? || event.Append? }

  /** The job that a preview at time `now` offers: a limit in the future is cut back to the fence. */
  function Previewed(kind: Kind, now: int): (job: Job)
    ensures Valid(job) && job.fence == now
    ensures kind.Before? ==> job.kind.Before? && (job.kind.limit == kind.limit || job.kind.limit == now < kind.limit)
    ensures !kind.Before? ==> job.kind == kind
  {
    match kind
    case Before(limit) => Job(Before(if limit > now then now else limit), now)
    case _ => Job(kind, now)
  }

  lemma NothingLeftToWatch(job: Job, db: Db)
    requires Scope(job, db) == {}
    ensures !Watched(job, db)
  {
  }

  /** Appending history does not change what is watched. */
  lemma WritingKeepsWatched(job: Job, db: Db, base: Db, k: Key, row: Row)
    requires Valid(job) && Partway(job, base, db) && Referential(db) && AfterFence(job, db, k, row)
    ensures Watched(job, base[k := row]) <==> Watched(job, base)
  {
    WatchedStaysWatched(job, base, db);
    WritingKeepsScope(job, db, k, row);
    WritingKeepsPlace(job, base, db, k, row);
    WatchedStaysWatched(job, base[k := row], db[k := row]);
    if p, c :| c in db && c.table.HealthChecks? && p in Scope(job, db) && Refers(db, c, p) {
      assert Refers(db[k := row], c, p);
    }
    if p, c :| c in db[k := row] && c.table.HealthChecks? && p in Scope(job, db) && Refers(db[k := row], c, p) {
      assert Refers(db, c, p);
    }
  }

  /** One more step at the end of a run. */
  lemma Advance(job: Job, w0: World, w: World, steps: seq<Step>, step: Step) returns (after: World, longer: seq<Step>)
    requires w == Run(job, w0, steps) && Inv(job, w)
    ensures longer == steps + [step]
    ensures after == Run(job, w0, longer) == Apply(job, w, step) && Inv(job, after)
  {
    after, longer := Apply(job, w, step), steps + [step];
    Runs.OneMore(Steps(job), w0, steps, step);
    StepKeepsInv(job, w, step);
  }

  /** Rows that a batch removes are no longer in scope, and no others leave it. */
  lemma BatchCounts(job: Job, base: Db, db: Db, picked: set<Key>)
    requires Partway(job, base, db) && Partway(job, base, Without(db, picked)) && picked <= Scope(job, db)
    ensures |Scope(job, Without(db, picked))| == |Scope(job, db)| - |picked|
  {
    BatchLeavesTheRest(job, base, db, picked);
  }

  lemma BatchLeavesTheRest(job: Job, base: Db, db: Db, picked: set<Key>)
    requires Partway(job, base, db) && Partway(job, base, Without(db, picked)) && picked <= Scope(job, db)
    ensures Scope(job, Without(db, picked)) == Scope(job, db) - picked
  {
    hide Scope, Partway;
    ScopeShrinks(job, base, db);
    ScopeShrinks(job, base, Without(db, picked));
    ScopeSparesGracePeriods(job, db);
    assert forall k :: k in db && !k.table.GracePeriods? && k !in picked ==> k in Without(db, picked);
  }

  lemma SameSize<T>(a: set<T>, b: set<T>)
    requires a <= b && |a| == |b|
    ensures a == b
  {
    assert |b - a| == |b| - |a|;
  }

  class Manager {
    var db: Db
    var state: State
    var deletedRows: nat

    /** Some `limit` of the given rows, or all of them if there are fewer. */
    method Pick(rows: set<Key>, limit: nat) returns (picked: set<Key>)
      ensures picked <= rows && |picked| == if |rows| < limit then |rows| else limit
    {
      picked := {};
      var rest := rows;
      while rest != {} && |picked| < limit
        invariant picked !! rest && picked + rest == rows && |picked| <= limit
        decreases |rest|
      {
        var k :| k in rest;
        rest := rest - {k};
        picked := picked + {k};
      }
      if rest == {} {
        assert picked == rows;
      } else {
        assert |rows| == |picked| + |rest|;
      }
    }

    /** `deleteBatch` and `deleteMetadataBatch`; no count means that the statement was refused. */
    method DeleteBatch(job: Job, t: Table) returns (n: Option<nat>, ghost picked: set<Key>)
      modifies this`db
      ensures IsBatch(job, old(db), t, picked)
      ensures |picked| == 500 || (|picked| < 500 && picked == Matching(job, old(db), t))
      ensures if Blocked(old(db), picked) then n == None && db == old(db)
              else n == Some(|picked|) && db == Without(old(db), picked)
    {
      var rows := Pick(Matching(job, db, t), BATCH);
      picked := rows;
      if |picked| < BATCH { SameSize(picked, Matching(job, db, t)); }
      if Blocked(db, rows) {
        return None, picked;
      }
      db := Without(db, rows);
      n := Some(|rows|);
    }

    /** The state of the job and the database are those of `w`. */
    ghost predicate At(w: World)
      reads this
    {
      w.db == db && w.state == state
    }

    /** One turn of the inner loop: read the job's state, stop if it is to be cancelled, delete a batch. */
    method Turn(job: Job, i: nat, event: Outside, ghost w0: World)
      returns (stopped: bool, n: nat, ghost w: World, ghost steps: seq<Step>)
      requires Inv(job, w0) && At(w0) && w0.place == Polling(i) && i < |Tables(job.kind)|
      requires state == Running || state == Cancelling
      modifies this`db, this`state
      ensures w == Run(job, w0, steps) && Inv(job, w) && At(w)
      ensures (Watched(job, w.base) <==> Watched(job, w0.base)) && (!event.Append? ==> w.base == w0.base)
      ensures w.place == if stopped then Idle else Polling(if n == 0 then i + 1 else i)
      ensures state == Running || (!Undisturbed(event) && state == Cancelling) || stopped
      ensures stopped ==> state != Completed && state != Queued
      ensures |Scope(job, db)| + n == |Scope(job, old(db))|
      ensures stopped && Undisturbed(event) && old(state) == Running ==> state == Failed && Watched(job, db)
    {
      hide Inv, Runs.Run, Scope, Watched, Tables;
      n := 0;
      w, steps := w0, [];
      Runs.Nothing(Steps(job), w0);
      if event.Append? {
        w, steps := AppendRow(job, event.key, event.row, w0);
      }
      if event == CancelRequest {
        w, steps := Advance(job, w0, w, steps, Cancel);
        if state == Running {
          state := Cancelling;
        }
      }
      if event == ProcessStops {
        w, steps := Advance(job, w0, w, steps, Abandon);
        return true, 0, w, steps;
      }
      w, steps := Advance(job, w0, w, steps, Poll);
      if state == Cancelling {
        state := Cancelled;
        return true, 0, w, steps;
      }
      if event == LateCancelRequest {
        w, steps := Advance(job, w0, w, steps, Cancel);
        state := Cancelling;
      }
      if event == StatementFails {
        w, steps := Advance(job, w0, w, steps, BatchFails);
        state := Failed;
        return true, 0, w, steps;
      }
      stopped, n, w, steps := DeleteOrFail(job, i, w0, w, steps);
    }

    /** A collector's write; one that is not after the fence is not one. */
    method AppendRow(job: Job, key: Key, row: Row, ghost w0: World) returns (ghost w: World, ghost steps: seq<Step>)
      requires Inv(job, w0) && At(w0)
      modifies this`db
      ensures w == Run(job, w0, steps) && Inv(job, w) && At(w) && w.place == w0.place
      ensures Scope(job, db) == Scope(job, old(db)) && (Watched(job, w.base) <==> Watched(job, w0.base))
    {
      Runs.Nothing(Steps(job), w0);
      w, steps := Advance(job, w0, w0, [], Write(key, row));
      if AfterFence(job, db, key, row) {
        WritingKeepsScope(job, db, key, row);
        WritingKeepsWatched(job, db, w0.base, key, row);
        db := db[key := row];
      }
    }

    /** The batch itself, and what follows if it is refused. */
    method DeleteOrFail(job: Job, i: nat, ghost w0: World, ghost w1: World, ghost done: seq<Step>)
      returns (stopped: bool, n: nat, ghost w: World, ghost steps: seq<Step>)
      requires w1 == Run(job, w0, done) && Inv(job, w1) && At(w1) && w1.place == Deleting(i)
      requires i < |Tables(job.kind)| && state != Completed && state != Queued
      modifies this`db, this`state
      ensures w == Run(job, w0, steps) && Inv(job, w) && At(w) && w.base == w1.base
      ensures w.place == if stopped then Idle else Polling(if n == 0 then i + 1 else i)
      ensures |Scope(job, db)| + n == |Scope(job, old(db))|
      ensures if stopped then state == Failed && Watched(job, db) else state == old(state)
    {
      var count, picked := DeleteBatch(job, Tables(job.kind)[i]);
      w, steps := Advance(job, w0, w1, done, Batch(picked));
      assert picked <= Scope(job, w1.db);
      if count == None {
        OnlyChecksBlock(job, w1.db, i, picked);
        state := Failed;
        return true, 0, w, steps;
      }
      BatchCounts(job, w1.base, w1.db, picked);
      stopped, n := false, count.value;
    }

    /** `RunDeletion`. Whatever the outside does, the execution ends and is a run of the job's steps from the world it
        started in; undisturbed, if only collectors write, it completes exactly when no health check watches a resource
        that has to go. Whenever it completes it reports the number of rows that were in scope. */
    method RunDeletion(job: Job, outside: nat -> Outside, ghost w0: World)
      returns (ghost w: World, ghost steps: seq<Step>)
      requires Inv(job, w0) && w0.place == Idle && At(w0)
      modifies this
      ensures w == Run(job, w0, steps) && Inv(job, w) && At(w) && w.place == Idle
      ensures (forall i :: !outside(i).Append?) ==> w.base == w0.base
      ensures state == Completed ==> Leaves(job, w.base, db)
      ensures old(state) != Queued ==> db == old(db) && state == old(state) && deletedRows == old(deletedRows)
      ensures old(state) == Queued && state == Completed ==> deletedRows == |Scope(job, old(db))|
      ensures old(state) == Queued && (forall i :: Undisturbed(outside(i))) ==>
                state == if Watched(job, w0.base) then Failed else Completed
    {
      hide Runs.Run, Scope, Watched, Tables, Partway, Referential, Cleared, Leaves, Without;
      w, steps := w0, [];
      Runs.Nothing(Steps(job), w0);
      if state != Queued {
        CompletedMeansScopeIsGone(job, w);
        return;
      }
      w, steps := Advance(job, w0, w, steps, Load);
      w, steps := Advance(job, w0, w, steps, Begin);
      state := Running;
      var deleted: nat, batches: nat, tables := 0, 0, Tables(job.kind);
      for i := 0 to |tables|
        invariant w == Run(job, w0, steps) && Inv(job, w) && At(w) && w.place == Polling(i)
        invariant (Watched(job, w.base) <==> Watched(job, w0.base))
        invariant (forall j :: !outside(j).Append?) ==> w.base == w0.base
        invariant state == Running || ((exists j :: !Undisturbed(outside(j))) && state == Cancelling)
        invariant deleted + |Scope(job, db)| == |Scope(job, old(db))|
      {
        var more := true;
        while more
          invariant w == Run(job, w0, steps) && Inv(job, w) && At(w)
          invariant (Watched(job, w.base) <==> Watched(job, w0.base))
          invariant (forall j :: !outside(j).Append?) ==> w.base == w0.base
          invariant w.place == Polling(if more then i else i + 1)
          invariant state == Running || ((exists j :: !Undisturbed(outside(j))) && state == Cancelling)
          invariant deleted + |Scope(job, db)| == |Scope(job, old(db))|
          decreases |Scope(job, db)|, more
        {
          var stopped, n, w2, turn := Turn(job, i, outside(batches), w);
          Runs.Concat(Steps(job), w0, steps, turn);
          w, steps := w2, steps + turn;
          if stopped {
            WatchedStaysWatched(job, w.base, w.db);
            return;
          }
          deleted, batches, more := deleted + n, batches + 1, n != 0;
          deletedRows := deleted;
        }
      }
      ClearedMeansDone(job, db);
      NothingLeftToWatch(job, db);
      WatchedStaysWatched(job, w.base, w.db);
      w, steps := Advance(job, w0, w, steps, Finish);
      CompletedMeansScopeIsGone(job, w);
      state := Completed;
      deletedRows := deleted;
    }

    /** `deletionCountTx`: the number that a preview promises is the size of the scope. */
    method CountRows(job: Job) returns (total: nat)
      ensures total == |Scope(job, db)|
    {
      total := 0;
      var tables := Tables(job.kind);
      for i := 0 to |tables|
        invariant total == |InTables(job, db, tables[..i])|
      {
        NextTable(job, db, i);
        total := total + |Matching(job, db, tables[i])|;
      }
      ScopeSparesGracePeriods(job, db);
      assert tables[..|tables|] == tables;
      assert InTables(job, db, tables) == Scope(job, db);
    }
  }

  function InTables(job: Job, db: Db, tables: seq<Table>): set<Key> {
    set k | k in Scope(job, db) && k.table in tables
  }

  lemma NextTable(job: Job, db: Db, i: nat)
    requires i < |Tables(job.kind)|
    ensures var tables := Tables(job.kind);
            |InTables(job, db, tables[..i + 1])| == |InTables(job, db, tables[..i])| + |Matching(job, db, tables[i])|
  {
    var tables := Tables(job.kind);
    TablesAreDistinct(job.kind, i);
    assert tables[..i + 1] == tables[..i] + [tables[i]];
    assert InTables(job, db, tables[..i + 1]) == InTables(job, db, tables[..i]) + Matching(job, db, tables[i]);
  }

  /** Where a table stands in the order of deletion, host tables first. */
  function Position(t: Table): nat {
    match t
    case HostSamples => 0 case HostRollups1m => 1 case HostRollups15m => 2 case HostRollups1h => 3
    case CollectorEvents => 4
    case ContainerSamples => 5 case ResourceSamples => 6 case ResourceRollups1m => 7 case ResourceRollups15m => 8
    case ResourceRollups1h => 9 case Events => 10
    case ContainerInstances => 11 case Resources => 12 case BootSessions => 13 case Hosts => 14
    case HealthChecks => 15 case GracePeriods => 16
  }

  lemma TableAt(kind: Kind, i: nat)
    requires i < |Tables(kind)|
    ensures Position(Tables(kind)[i]) == if kind.Before? || kind.All? then i else i + 5
  {
  }

  lemma TablesAreDistinct(kind: Kind, i: nat)
    requires i < |Tables(kind)|
    ensures Tables(kind)[i] !in Tables(kind)[..i]
  {
    hide Tables, Position;
    TableAt(kind, i);
    forall j: nat | j < i ensures Tables(kind)[j] != Tables(kind)[i] { TableAt(kind, j); }
  }
}
