/**
 History deletion of internal/storage/deletion.go. The database is one map from (table, row id) to row.
 A statement deletes at most 500 of the rows its WHERE clause matches; which ones is not determined.
 */
module Deletion {
  import opened Options
  import Runs

  type Id = nat

  datatype Table =
    | HostSamples | HostRollups1m | HostRollups15m | HostRollups1h | CollectorEvents
    | ContainerSamples | ResourceSamples | ResourceRollups1m | ResourceRollups15m | ResourceRollups1h | Events
    | ContainerInstances | Resources | BootSessions | Hosts
    | HealthChecks | GracePeriods

  datatype Key = Key(table: Table, id: Id)

  /** `link` is the row's reference: the instance of a container sample, the host of a resource or boot session,
      and the resource of every other row that has one. */
  datatype Row = Row(ts: int, link: Option<Id>, archived: bool)

  type Db = map<Key, Row>

  datatype Kind = OneResource(id: Id) | Archived(id: Id) | Before(limit: int) | All

  datatype Job = Job(kind: Kind, fence: int)

  const BATCH := 500

  /** A preview never promises rows newer than its fence. */
  ghost predicate Valid(job: Job) {
    job.kind.Before? ==> job.kind.limit <= job.fence
  }

  // ---------------------------------------------------------------- what a job deletes

  predicate IsHistory(t: Table) { IsHostHistory(t) || IsResourceHistory(t) || t.ContainerSamples? }

  predicate IsHostHistory(t: Table) {
    t.HostSamples? || t.HostRollups1m? || t.HostRollups15m? || t.HostRollups1h? || t.CollectorEvents?
  }

  predicate IsResourceHistory(t: Table) {
    t.ResourceSamples? || t.ResourceRollups1m? || t.ResourceRollups15m? || t.ResourceRollups1h? || t.Events?
  }

  predicate IsMetadata(t: Table) { t.ContainerInstances? || t.Resources? || t.BootSessions? || t.Hosts? }

  function Tables(kind: Kind): seq<Table> {
    var scoped := [ContainerSamples, ResourceSamples, ResourceRollups1m, ResourceRollups15m, ResourceRollups1h, Events];
    var host := [HostSamples, HostRollups1m, HostRollups15m, HostRollups1h, CollectorEvents];
    match kind
    case OneResource(_) => scoped
    case Archived(_) => scoped + [ContainerInstances, Resources]
    case Before(_) => host + scoped
    case All => host + scoped + [ContainerInstances, Resources, BootSessions, Hosts]
  }

  /** The sample's container belongs to resource `r`, as the join sees it now. */
  predicate OwnedBy(db: Db, link: Option<Id>, r: Id) {
    link.Some? &&
    var i := Key(ContainerInstances, link.value);
    i in db && db[i].link == Some(r)
  }

  predicate ResourceRow(fence: int, db: Db, k: Key, r: Id)
    requires k in db
  {
    db[k].ts <= fence &&
    if k.table.ContainerSamples? then OwnedBy(db, db[k].link, r)
    else IsResourceHistory(k.table) && db[k].link == Some(r)
  }

  /** The row meets the condition of the job's statement for its table. */
  predicate Matches(job: Job, db: Db, k: Key)
    requires k in db
  {
    match job.kind
    case OneResource(r) => ResourceRow(job.fence, db, k, r)
    case Archived(r) =>
      || ResourceRow(job.fence, db, k, r)
      || (k.table.ContainerInstances? && db[k].link == Some(r))
      || (k == Key(Resources, r) && db[k].archived)
    case Before(limit) => IsHistory(k.table) && db[k].ts < limit
    case All => IsMetadata(k.table) || (IsHistory(k.table) && db[k].ts <= job.fence)
  }

  function Scope(job: Job, db: Db): set<Key> { set k | k in db && Matches(job, db, k) }

  function Matching(job: Job, db: Db, t: Table): set<Key> { set k | k in db && k.table == t && Matches(job, db, k) }

  // ---------------------------------------------------------------- deleting rows

  /** The foreign keys that forbid deleting a row that is still referred to. */
  function Parent(t: Table): Option<Table> {
    match t
    case ContainerInstances => Some(Resources)
    case HealthChecks => Some(Resources)
    case Resources => Some(Hosts)
    case BootSessions => Some(Hosts)
    case _ => None
  }

  predicate Refers(db: Db, k: Key, p: Key)
    requires k in db
  {
    Parent(k.table) == Some(p.table) && db[k].link == Some(p.id)
  }

  predicate Blocked(db: Db, picked: set<Key>) {
    exists k, p | k in db && p in picked :: k !in picked && Refers(db, k, p)
  }

  /** Grace periods go with their resource. */
  function Cascade(db: Db, picked: set<Key>): set<Key> {
    set k | k in db && k.table.GracePeriods? && db[k].link.Some? && Key(Resources, db[k].link.value) in picked
  }

  function Without(db: Db, picked: set<Key>): Db { db - picked - Cascade(db, picked) }

  ghost predicate Referential(db: Db) {
    && (forall k :: k in db && Parent(k.table).Some? && db[k].link.Some? ==>
          Key(Parent(k.table).value, db[k].link.value) in db)
    && (forall k :: k in db && k.table.GracePeriods? && db[k].link.Some? ==> Key(Resources, db[k].link.value) in db)
  }

  lemma DeletingKeepsReferences(db: Db, picked: set<Key>)
    requires Referential(db) && !Blocked(db, picked)
    requires forall k :: k in picked ==> IsHistory(k.table) || IsMetadata(k.table)
    ensures Referential(Without(db, picked))
  {
    var after := Without(db, picked);
    forall k | k in after && Parent(k.table).Some? && db[k].link.Some?
      ensures Key(Parent(k.table).value, db[k].link.value) in after
    {
      var p := Key(Parent(k.table).value, db[k].link.value);
      assert Refers(db, k, p);
      assert k !in picked && p !in picked;
    }
  }

  // ---------------------------------------------------------------- where an interrupted job stands

  function Gone(job: Job, base: Db, db: Db): set<Key> { Scope(job, base) - db.Keys }

  /** `db` is `base` less some of the job's rows, and no container was deleted before the last of the samples that
      are found through it. */
  ghost predicate Partway(job: Job, base: Db, db: Db) {
    && db == Without(base, Gone(job, base, db))
    && ((exists k :: k in Gone(job, base, db) && k.table.ContainerInstances?) ==>
          forall k :: k in Scope(job, base) && k in db ==> !k.table.ContainerSamples?)
  }

  /** What is left to delete is what is left of the original scope: the join finds the same samples as at the start. */
  lemma ScopeShrinks(job: Job, base: Db, db: Db)
    requires Partway(job, base, db)
    ensures Scope(job, db) == Scope(job, base) * db.Keys
  {
    forall k | k in db ensures k in Scope(job, db) <==> k in Scope(job, base) {
      if k.table.ContainerSamples? && (job.kind.OneResource? || job.kind.Archived?) && k in Scope(job, base) {
        var i := Key(ContainerInstances, base[k].link.value);
        assert i in base && i !in Gone(job, base, db);
      }
    }
  }

  lemma WithoutTwice(base: Db, gone: set<Key>, picked: set<Key>)
    requires forall k :: k in gone + picked ==> !k.table.GracePeriods?
    ensures Without(Without(base, gone), picked) == Without(base, gone + picked)
  {
  }

  lemma ScopeSparesGracePeriods(job: Job, db: Db)
    ensures forall k :: k in Scope(job, db) ==>
              (IsHistory(k.table) || IsMetadata(k.table)) && k.table in Tables(job.kind)
  {
  }

  /** A batch keeps a job's place, provided that containers go after the samples. */
  lemma BatchKeepsPlace(job: Job, base: Db, db: Db, picked: set<Key>)
    requires Partway(job, base, db) && picked <= Scope(job, db)
    requires (exists k :: k in picked && k.table.ContainerInstances?) ==> Matching(job, db, ContainerSamples) == {}
    ensures Partway(job, base, Without(db, picked))
  {
    ScopeShrinks(job, base, db);
    ScopeSparesGracePeriods(job, base);
    var after := Without(db, picked);
    assert Gone(job, base, after) == Gone(job, base, db) + picked by {
      assert forall k :: k in db && k !in picked && !k.table.GracePeriods? ==> k in after;
    }
    WithoutTwice(base, Gone(job, base, db), picked);
    if k :| k in picked && k.table.ContainerInstances? {
      forall s | s in Scope(job, base) && s in after ensures !s.table.ContainerSamples? {
        assert s in Scope(job, db);
        assert s.table.ContainerSamples? ==> s in Matching(job, db, ContainerSamples);
      }
    }
  }

  /** A row that a collector adds behind the fence changes neither the scope nor what is gone from it. */
  lemma WritingKeepsPlace(job: Job, base: Db, db: Db, k: Key, row: Row)
    requires Valid(job) && Partway(job, base, db) && AfterFence(job, db, k, row)
    ensures Partway(job, base[k := row], db[k := row])
  {
    WritingKeepsScope(job, base, k, row);
    var gone := Gone(job, base, db) - {k};
    assert Gone(job, base[k := row], db[k := row]) == gone;
    assert db[k := row] == Without(base[k := row], gone);
  }

  /** A history row after the fence, new or in place of another such row. */
  predicate AfterFence(job: Job, db: Db, k: Key, row: Row) {
    IsHistory(k.table) && row.ts > job.fence && (k in db ==> db[k].ts > job.fence)
  }

  lemma WritingKeepsScope(job: Job, db: Db, k: Key, row: Row)
    requires Valid(job) && IsHistory(k.table) && row.ts > job.fence
    ensures Scope(job, db[k := row]) == Scope(job, db) - {k}
    ensures AfterFence(job, db, k, row) ==> Scope(job, db[k := row]) == Scope(job, db)
  {
    forall s | s in db && s != k ensures Matches(job, db[k := row], s) <==> Matches(job, db, s) {
      assert forall i: Id :: Key(ContainerInstances, i) != k;
    }
  }

  lemma NothingGoneYet(job: Job, db: Db)
    ensures Partway(job, db, db)
  {
    assert Gone(job, db, db) == {};
  }

  // ---------------------------------------------------------------- interleavings

  datatype State = Queued | Running | Cancelling | Cancelled | Failed | Completed

  /** Where the deletion worker is: between jobs, about to mark the job running, about to read its state before a
      batch of its `i`th table, or about to delete that batch. */
  datatype Place = Idle | Loaded | Polling(i: nat) | Deleting(i: nat)

  /** `base` is what the database would hold had the job never run. */
  datatype World = World(base: Db, db: Db, state: State, place: Place)

  datatype Step =
    | Load | Begin | Poll | Batch(picked: set<Key>) | BatchFails | Finish | Abandon
    | Cancel | Retry | Restart | Write(key: Key, row: Row)

  function Start(db: Db): World { World(db, db, Queued, Idle) }

  /** A batch deletes as many matching rows as there are, up to the limit. */
  ghost predicate IsBatch(job: Job, db: Db, t: Table, picked: set<Key>) {
    var matching := Matching(job, db, t);
    picked <= matching && |picked| == if |matching| < BATCH then |matching| else BATCH
  }

  /** One step of the worker, of a user, of a restart, or of a collector that appends history after the fence. A step
      that is not enabled does nothing. */
  ghost function Apply(job: Job, w: World, step: Step): World {
    var tables := Tables(job.kind);
    match step
    case Load => if w.place.Idle? && w.state == Queued then w.(place := Loaded) else w
    case Begin => if w.place.Loaded? then w.(state := Running, place := Polling(0)) else w
    case Poll =>
      if !w.place.Polling? || w.place.i >= |tables| then w
      else if w.state == Cancelling then w.(state := Cancelled, place := Idle)
      else w.(place := Deleting(w.place.i))
    case Batch(picked) =>
      if !w.place.Deleting? || w.place.i >= |tables| || !IsBatch(job, w.db, tables[w.place.i], picked) then w
      else if Blocked(w.db, picked) then w.(state := Failed, place := Idle)
      else w.(db := Without(w.db, picked), place := Polling(if picked == {} then w.place.i + 1 else w.place.i))
    case BatchFails => if w.place.Deleting? then w.(state := Failed, place := Idle) else w
    case Finish =>
      if w.place.Polling? && w.place.i >= |tables| then w.(state := Completed, place := Idle) else w
    case Abandon => w.(place := Idle)
    case Cancel =>
      if w.state == Queued then w.(state := Cancelled) else if w.state == Running then w.(state := Cancelling) else w
    case Retry => if w.state == Cancelled || w.state == Failed then w.(state := Queued) else w
    case Restart =>
      w.(place := Idle, state := if w.state == Running then Queued
                                 else if w.state == Cancelling then Cancelled else w.state)
    case Write(k, row) =>
      if AfterFence(job, w.db, k, row)
      then w.(base := w.base[k := row], db := w.db[k := row]) else w
  }

  /** The steps of one job. */
  ghost function Steps(job: Job): (World, Step) -> World { (w, step) => Apply(job, w, step) }

  ghost function Run(job: Job, w: World, steps: seq<Step>): World { Runs.Run(Steps(job), w, steps) }

  /** Nothing is left to delete in the first `i` tables. */
  ghost predicate Cleared(job: Job, db: Db, i: nat) {
    forall k :: k in Scope(job, db) ==> k.table !in Tables(job.kind)[..if i <= |Tables(job.kind)| then i else 0]
  }

  ghost predicate Inv(job: Job, w: World) {
    && Valid(job)
    && Partway(job, w.base, w.db)
    && Referential(w.db)
    && (w.place.Polling? || w.place.Deleting? ==>
          w.place.i <= |Tables(job.kind)| && Cleared(job, w.db, w.place.i) && w.state != Completed)
    && (w.place.Loaded? ==> w.state != Completed)
    && (w.state == Completed ==> Scope(job, w.db) == {})
  }

  lemma SamplesComeFirst(kind: Kind, i: nat)
    requires i < |Tables(kind)| && Tables(kind)[i] == ContainerInstances
    ensures ContainerSamples in Tables(kind)[..i]
  {
    assert forall j: nat :: j <= i && Tables(kind)[j] == ContainerSamples ==> Tables(kind)[j] in Tables(kind)[..i + 1];
    if kind.Archived? {
      assert Tables(kind)[0] == ContainerSamples;
    } else {
      assert Tables(kind)[5] == ContainerSamples;
    }
  }

  lemma BatchKeepsInv(job: Job, w: World, picked: set<Key>)
    requires Inv(job, w)
    ensures Inv(job, Apply(job, w, Batch(picked)))
  {
    var tables, i := Tables(job.kind), if w.place.Deleting? then w.place.i else 0;
    if w.place.Deleting? && i < |tables| && IsBatch(job, w.db, tables[i], picked) && !Blocked(w.db, picked) {
      var after := Without(w.db, picked);
      assert picked <= Scope(job, w.db);
      ScopeSparesGracePeriods(job, w.db);
      DeletingKeepsReferences(w.db, picked);
      if tables[i] == ContainerInstances { SamplesComeFirst(job.kind, i); }
      assert tables[i] == ContainerInstances ==> Matching(job, w.db, ContainerSamples) == {} by {
        assert forall k :: k in Matching(job, w.db, ContainerSamples) ==> k in Scope(job, w.db);
      }
      BatchKeepsPlace(job, w.base, w.db, picked);
      BatchClears(job, w.base, w.db, i, picked);
    }
  }

  lemma BatchClears(job: Job, base: Db, db: Db, i: nat, picked: set<Key>)
    requires i < |Tables(job.kind)| && IsBatch(job, db, Tables(job.kind)[i], picked) && Cleared(job, db, i)
    requires Partway(job, base, db) && Partway(job, base, Without(db, picked))
    ensures Cleared(job, Without(db, picked), if picked == {} then i + 1 else i)
  {
    if picked == {} {
      assert Without(db, {}) == db;
      EmptyBatchClears(job, db, i);
    } else {
      ScopeShrinks(job, base, db);
      ScopeShrinks(job, base, Without(db, picked));
    }
  }

  lemma EmptyBatchClears(job: Job, db: Db, i: nat)
    requires i < |Tables(job.kind)| && Matching(job, db, Tables(job.kind)[i]) == {} && Cleared(job, db, i)
    ensures Cleared(job, db, i + 1)
  {
    var tables := Tables(job.kind);
    assert tables[..i + 1] == tables[..i] + [tables[i]];
    assert forall k :: k in Scope(job, db) ==> k in Matching(job, db, k.table);
  }

  lemma ClearedMeansDone(job: Job, db: Db)
    requires Cleared(job, db, |Tables(job.kind)|)
    ensures Scope(job, db) == {}
  {
    ScopeSparesGracePeriods(job, db);
    assert Tables(job.kind)[..|Tables(job.kind)|] == Tables(job.kind);
  }

  lemma WriteKeepsInv(job: Job, w: World, k: Key, row: Row)
    requires Inv(job, w)
    ensures Inv(job, Apply(job, w, Write(k, row)))
  {
    if AfterFence(job, w.db, k, row) {
      WritingKeepsPlace(job, w.base, w.db, k, row);
      WritingKeepsScope(job, w.db, k, row);
    }
  }

  lemma StepKeepsInv(job: Job, w: World, step: Step)
    requires Inv(job, w)
    ensures Inv(job, Apply(job, w, step))
  {
    match step
    case Batch(picked) => BatchKeepsInv(job, w, picked);
    case Write(k, row) => WriteKeepsInv(job, w, k, row);
    case Finish =>
      if w.place.Polling? && w.place.i >= |Tables(job.kind)| { ClearedMeansDone(job, w.db); }
    case _ =>
  }

  lemma RunKeepsInv(job: Job, w: World, steps: seq<Step>)
    requires Inv(job, w)
    ensures Inv(job, Run(job, w, steps))
  {
    hide Inv, Apply;
    forall x, step | Inv(job, x) ensures Inv(job, Apply(job, x, step)) { StepKeepsInv(job, x, step); }
    Runs.Keeps(Steps(job), x => Inv(job, x), w, steps);
  }

  // ---------------------------------------------------------------- what is proved

  /** However a job is cancelled, fails, crashes and is retried, while history is appended after the fence and nothing
      else is written, at every moment only rows of its scope are missing and no reference dangles; once it is completed
      exactly the scope is missing. */
  lemma OnlyTheScopeIsDeleted(job: Job, db: Db, steps: seq<Step>)
    requires Valid(job) && Referential(db)
    ensures var w := Run(job, Start(db), steps);
            && Referential(w.db)
            && w.db == Without(w.base, Scope(job, w.base) - w.db.Keys)
            && (w.state == Completed ==> w.db == Without(w.base, Scope(job, w.base)) && Leaves(job, w.base, w.db))
  {
    NothingGoneYet(job, db);
    RunKeepsInv(job, Start(db), steps);
    CompletedMeansScopeIsGone(job, Run(job, Start(db), steps));
  }

  lemma CompletedMeansScopeIsGone(job: Job, w: World)
    requires Inv(job, w)
    ensures w.state == Completed ==> w.db == Without(w.base, Scope(job, w.base)) && Leaves(job, w.base, w.db)
  {
    hide Leaves;
    ScopeShrinks(job, w.base, w.db);
    if w.state == Completed {
      assert forall k :: k in Scope(job, w.base) && k in w.db ==> k in Scope(job, w.db);
      assert Gone(job, w.base, w.db) == Scope(job, w.base);
      ScopeGoneLeavesTheRest(job, w.base, w.db);
    }
  }

  /** Row `k` is history of resource `r`: a container sample through its container, anything else through its own
      reference. */
  ghost predicate HistoryOf(base: Db, k: Key, r: Id)
    requires k in base
  {
    || (k.table in {ResourceSamples, ResourceRollups1m, ResourceRollups15m, ResourceRollups1h, Events}
        && base[k].link == Some(r))
    || (k.table == ContainerSamples && base[k].link.Some? && Key(ContainerInstances, base[k].link.value) in base
        && base[Key(ContainerInstances, base[k].link.value)].link == Some(r))
  }

  ghost predicate IsArchived(base: Db, r: Id) { Key(Resources, r) in base && base[Key(Resources, r)].archived }

  /** Row `k` of `base` outlives the job, on the contents of the tables. */
  ghost predicate Outlives(job: Job, base: Db, k: Key)
    requires k in base
  {
    var history := {HostSamples, HostRollups1m, HostRollups15m, HostRollups1h, CollectorEvents, ContainerSamples,
                    ResourceSamples, ResourceRollups1m, ResourceRollups15m, ResourceRollups1h, Events};
    match job.kind
    case Before(limit) => k.table in history ==> limit <= base[k].ts
    case OneResource(r) => HistoryOf(base, k, r) ==> job.fence < base[k].ts
    case Archived(r) =>
      && (HistoryOf(base, k, r) ==> job.fence < base[k].ts)
      && (k.table == ContainerInstances ==> base[k].link != Some(r))
      && (IsArchived(base, r) ==> k != Key(Resources, r) && (k.table == GracePeriods ==> base[k].link != Some(r)))
    case All =>
      || (k.table in history && job.fence < base[k].ts)
      || k.table == HealthChecks
      || (k.table == GracePeriods && base[k].link == None)
  }

  /** Of `base` exactly the rows that outlive the job are left, as they were. */
  ghost predicate Leaves(job: Job, base: Db, db: Db) {
    && (forall k :: k in db ==> k in base && db[k] == base[k])
    && (forall k :: k in base ==> (k in db <==> Outlives(job, base, k)))
  }

  lemma ScopeGoneLeavesTheRest(job: Job, base: Db, db: Db)
    requires db == Without(base, Scope(job, base)) && Referential(db)
    ensures Leaves(job, base, db)
  {
    hide Outlives, Matches;
    forall k | k in base ensures k in db <==> Outlives(job, base, k) {
      if k.table.GracePeriods? {
        GracePeriodOutlives(job, base, db, k);
      } else {
        UnmatchedOutlives(job, base, k);
      }
    }
  }

  lemma UnmatchedOutlives(job: Job, base: Db, k: Key)
    requires k in base && !k.table.GracePeriods?
    ensures Outlives(job, base, k) <==> !Matches(job, base, k)
  {
  }

  lemma GracePeriodOutlives(job: Job, base: Db, db: Db, k: Key)
    requires db == Without(base, Scope(job, base)) && Referential(db) && k in base && k.table.GracePeriods?
    ensures k in db <==> Outlives(job, base, k)
  {
    GracePeriodsFollow(job, base, db, k);
    if base[k].link.Some? && Key(Resources, base[k].link.value) in base {
      assert !job.kind.All? ==>
               (Matches(job, base, Key(Resources, base[k].link.value)) <==>
                  job.kind.Archived? && job.kind.id == base[k].link.value && IsArchived(base, job.kind.id));
    }
  }

  lemma GracePeriodsFollow(job: Job, base: Db, db: Db, k: Key)
    requires db == Without(base, Scope(job, base)) && Referential(db) && k in base && k.table.GracePeriods?
    ensures base[k].link == None ==> k in db
    ensures base[k].link.Some? ==>
              var p := Key(Resources, base[k].link.value);
              k in db <==> p in base && !Matches(job, base, p)
  {
    hide Matches, Parent;
    ScopeSparesGracePeriods(job, base);
    assert k in db <==> k !in Cascade(base, Scope(job, base));
  }

  /** A completed reset up to a limit: of the history exactly what is not older is left, and every other row. */
  lemma BeforeLeavesTheNewer(limit: int, fence: int, db: Db, steps: seq<Step>)
    requires limit <= fence && Referential(db)
    requires Run(Job(Before(limit), fence), Start(db), steps).state == Completed
    ensures var w := Run(Job(Before(limit), fence), Start(db), steps);
            forall k :: k in w.base ==> (k in w.db <==> (IsHistory(k.table) ==> limit <= w.base[k].ts))
  {
    OnlyTheScopeIsDeleted(Job(Before(limit), fence), db, steps);
  }

  /** A completed deletion for one resource: of its history exactly what is after the fence is left, and all other
      history, of other resources and of the host. Of the other rows an archived resource takes itself, its containers
      and its grace periods with it. */
  lemma OneResourceLeavesTheOthers(job: Job, r: Id, db: Db, steps: seq<Step>)
    requires (job.kind == OneResource(r) || job.kind == Archived(r)) && Referential(db)
    requires Run(job, Start(db), steps).state == Completed
    ensures var w := Run(job, Start(db), steps);
            && (forall k :: k in w.base && HistoryOf(w.base, k, r) ==> (k in w.db <==> job.fence < w.base[k].ts))
            && (forall k :: k in w.base && IsHistory(k.table) && !HistoryOf(w.base, k, r) ==> k in w.db)
            && (forall k :: k in w.base && !IsHistory(k.table) ==>
                  (k !in w.db <==>
                     && job.kind.Archived?
                     && (|| (k.table == ContainerInstances && w.base[k].link == Some(r))
                         || (IsArchived(w.base, r) && k == Key(Resources, r))
                         || (IsArchived(w.base, r) && k.table == GracePeriods && w.base[k].link == Some(r)))))
  {
    hide Run, Start, Referential, Without, Scope;
    OnlyTheScopeIsDeleted(job, db, steps);
  }

  /** A completed reset of everything: the history after the fence, the health checks and the grace periods of no
      resource are left, and nothing else. */
  lemma AllLeavesTheNewer(fence: int, db: Db, steps: seq<Step>)
    requires Referential(db) && Run(Job(All, fence), Start(db), steps).state == Completed
    ensures var w := Run(Job(All, fence), Start(db), steps);
            forall k :: k in w.base ==>
              (k in w.db <==>
                 if IsHistory(k.table) then fence < w.base[k].ts
                 else k.table == HealthChecks || (k.table == GracePeriods && w.base[k].link == None))
  {
    OnlyTheScopeIsDeleted(Job(All, fence), db, steps);
  }

  ghost predicate Quiet(steps: seq<Step>) { forall i :: 0 <= i < |steps| ==> !steps[i].Write? }

  lemma {:induction false} NoWriterNoChange(job: Job, db: Db, steps: seq<Step>)
    requires Quiet(steps)
    ensures Run(job, Start(db), steps).base == db
    decreases |steps|
  {
    if steps != [] { NoWriterNoChange(job, db, steps[..|steps| - 1]); }
  }

  /** Two runs of a job that both complete, however each was interrupted, end in the same database. */
  lemma CompletedRunsAgree(job: Job, db: Db, steps: seq<Step>, others: seq<Step>)
    requires Valid(job) && Referential(db) && Quiet(steps) && Quiet(others)
    requires Run(job, Start(db), steps).state == Completed && Run(job, Start(db), others).state == Completed
    ensures Run(job, Start(db), steps).db == Run(job, Start(db), others).db == Without(db, Scope(job, db))
  {
    OnlyTheScopeIsDeleted(job, db, steps);
    OnlyTheScopeIsDeleted(job, db, others);
    NoWriterNoChange(job, db, steps);
    NoWriterNoChange(job, db, others);
  }

  /** A health check watches a resource that the job has to delete. */
  ghost predicate Watched(job: Job, db: Db) {
    exists k, p :: k in db && k.table.HealthChecks? && p in Scope(job, db) && Refers(db, k, p)
  }

  lemma WatchedStaysWatched(job: Job, base: Db, db: Db)
    requires Partway(job, base, db) && Referential(db)
    ensures Watched(job, base) <==> Watched(job, db)
  {
    ScopeShrinks(job, base, db);
    ScopeSparesGracePeriods(job, base);
    if k, p :| k in base && k.table.HealthChecks? && p in Scope(job, base) && Refers(base, k, p) {
      assert k in db;
      assert Refers(db, k, p);
    }
    if k, p :| k in db && k.table.HealthChecks? && p in Scope(job, db) && Refers(db, k, p) {
      assert Refers(base, k, p);
    }
  }

  /** No run whatever completes a job while a health check watches a resource in its scope. */
  lemma WatchedJobsNeverComplete(job: Job, db: Db, steps: seq<Step>)
    requires Valid(job) && Referential(db) && Watched(job, Run(job, Start(db), steps).base)
    ensures Run(job, Start(db), steps).state != Completed
  {
    NothingGoneYet(job, db);
    RunKeepsInv(job, Start(db), steps);
    var w := Run(job, Start(db), steps);
    WatchedStaysWatched(job, w.base, w.db);
  }

  /** There are such jobs: a reset of all history where one resource has one check. */
  lemma WatchedJobsExist() returns (job: Job, db: Db)
    ensures Valid(job) && Referential(db) && Watched(job, db)
  {
    var host, resource, check := Key(Hosts, 0), Key(Resources, 0), Key(HealthChecks, 0);
    job := Job(All, 0);
    db := map[host := Row(0, None, false), resource := Row(0, Some(0), false), check := Row(0, Some(0), false)];
    assert resource in Scope(job, db) && Refers(db, check, resource);
  }

  /** Nothing else blocks: a batch taken in the order of the tables fails only over a watched resource. */
  lemma OnlyChecksBlock(job: Job, db: Db, i: nat, picked: set<Key>)
    requires i < |Tables(job.kind)| && Cleared(job, db, i) && picked <= Matching(job, db, Tables(job.kind)[i])
    requires Blocked(db, picked)
    ensures Watched(job, db)
  {
    var k, p :| k in db && p in picked && k !in picked && Refers(db, k, p);
    assert p in Scope(job, db);
    if !k.table.HealthChecks? {
      ChildIsInScope(job, db, k, p);
      ChildrenComeFirst(job.kind, i, k.table);
      assert false;
    }
  }

  lemma ChildIsInScope(job: Job, db: Db, k: Key, p: Key)
    requires k in db && p in Scope(job, db) && Refers(db, k, p) && !k.table.HealthChecks?
    ensures k in Scope(job, db)
  {
  }

  lemma ChildrenComeFirst(kind: Kind, i: nat, child: Table)
    requires i < |Tables(kind)| && Parent(child) == Some(Tables(kind)[i]) && !child.HealthChecks?
    requires kind.Archived? ==> child.ContainerInstances?
    ensures child in Tables(kind)[..i]
  {
    if kind.Archived? {
      assert Tables(kind)[6] == ContainerInstances && i == 7;
    } else {
      assert Tables(kind)[11] == ContainerInstances && Tables(kind)[12] == Resources;
      assert Tables(kind)[13] == BootSessions;
    }
  }
}
