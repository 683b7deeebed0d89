/**
 The alert, incident and delivery tables under every interleaving of the evaluator, the notification
 workers, reminders, manual actions, cleanup, event purging and restarts.

 A step is one transaction or one statement, and either commits whole or changes nothing. `Apply` is
 total: a step whose guard fails, whose transaction rolls back or whose `order` is not a listing of the
 rows its query returns leaves the world as it is. Theorems are about `Run` of any sequence of steps.
 */
module Pipeline {
  import opened Options
  import opened Alerting
  import opened Outbox
  import Runs
  import L = Lifecycle

  /** The tables, whether workers run and which rows they hold, and history variables no step reads:
      pairs ever claimed, rows ever retried by hand, alerts whose event row was ever purged, and the
      observations of the committed evaluations of each key. */
  datatype World = World(t: Tables, b: Box, running: bool, held: set<Id>,
                         claimed: set<(Id, Id)>, retried: set<Id>, purged: set<Id>,
                         log: map<string, seq<L.Observation>>)

  datatype Step =
    | Evaluation(e: Alerting.Evaluation, fault: bool, interval: int, clock: int, order: seq<Id>)
    | PurgeEvents(gone: set<Id>)
    | Reminders(now: int, interval: int, clock: int, due: seq<Id>, orders: seq<seq<Id>>)
    | Start(now: int, interval: int, orphans: seq<Id>, fault: bool)
    | Stop
    | ClaimRow(id: Id, now: int)
    | FinishDelivery(id: Id, result: Result, now: int)
    | Abandon(id: Id)
    | ManualRetry(id: Id, now: int)
    | NewChannel(enabled: bool, minimum: Severity, notifyResolved: bool)
    | ChangeChannel(c: Id, enabled: bool, minimum: Severity, notifyResolved: bool, now: int)
    | RemoveChannel(c: Id, now: int)
    | TestChannel(c: Id, now: int)
    | CleanAlerts(cutoff: int)
    | CleanIncidents(cutoff: int)
    | CleanDeliveries(cutoff: int)

  /** A committed firing is announced fifteen seconds later, so that alerts of one outage coalesce. */
  const COALESCING_DELAY := 15 * SECOND

  function Log(w: World, key: string): seq<L.Observation> {
    if key in w.log then w.log[key] else []
  }

  function Logged(w: World, e: Alerting.Evaluation): World {
    w.(log := w.log[DedupKey(e) := Log(w, DedupKey(e)) + [e.seen]])
  }

  /** What a committed evaluation asks of the outbox, on the channels its query returned. */
  ghost function Announce(b: Box, effect: Effect, now: int, clock: int, order: seq<Id>): Box
    requires effect.Notify? ==> Lists(order, Targets(b))
  {
    match effect
    case Quiet => b
    case Notify(i, isNew, severity) =>
      EnqueueIncident(b, order, i, if isNew then Opening else Update, severity, now + COALESCING_DELAY, clock)
    case Close(i) => EnqueueResolution(b, order, i, now, clock)
  }

  /** `order` lists the channels that the effect's query returns. */
  ghost predicate ListsChannels(b: Box, effect: Effect, order: seq<Id>) {
    match effect
    case Quiet => true
    case Notify(_, _, _) => Lists(order, Targets(b))
    case Close(_) => Lists(order, ResolutionTargets(b))
  }

  ghost function ApplyEvaluation(w: World, s: Step): World
    requires s.Evaluation?
  {
    var outcome := Evaluate(w.t, s.e, s.interval);
    if s.fault || outcome.RolledBack? || !ListsChannels(w.b, outcome.effect, s.order) then w
    else Logged(w, s.e).(t := outcome.tables, b := Announce(w.b, outcome.effect, s.e.seen.now, s.clock, s.order))
  }

  function DueReminders(t: Tables, now: int): set<Id> {
    set i | i in t.incidents && t.incidents[i].open && t.incidents[i].nextReminder.Some?
            && t.incidents[i].nextReminder.value <= Unix(now)
  }

  /** `ScheduleReminders` falls back to two hours. */
  function Interval(interval: int): int {
    if interval <= 0 then 7200 * SECOND else interval
  }

  function Postpone(t: Tables, i: Id, now: int, interval: int): Tables
    requires i in t.incidents
  {
    t.(incidents := t.incidents[i := t.incidents[i].(nextReminder := Some(Unix(now + interval)))])
  }

  /** `orders` has one listing of the channels for each incident due. */
  ghost predicate ListsPer(due: seq<Id>, orders: seq<seq<Id>>, s: set<Id>) {
    |orders| == |due| && forall k :: 0 <= k < |orders| ==> Lists(orders[k], s)
  }

  /** One round of the loop in `ScheduleReminders`. */
  ghost function RemindOne(w: World, i: Id, order: seq<Id>, now: int, interval: int, clock: int): (w': World)
    requires i in w.t.incidents && forall c :: c in order ==> c in w.b.channels
    ensures w'.b.channels == w.b.channels && w'.t.incidents.Keys == w.t.incidents.Keys
  {
    EnqueueKeepsChannels(w.b, order, i, Reminder, w.t.incidents[i].severity, now, clock);
    w.(t := Postpone(w.t, i, now, interval),
       b := EnqueueIncident(w.b, order, i, Reminder, w.t.incidents[i].severity, now, clock))
  }

  /** `ScheduleReminders` over the incidents its query returned. */
  ghost function Remind(w: World, due: seq<Id>, orders: seq<seq<Id>>, now: int, interval: int, clock: int): World
    requires forall i :: i in due ==> i in w.t.incidents
    requires ListsPer(due, orders, Targets(w.b))
    decreases |due|
  {
    if due == [] then w else
      var w' := RemindOne(w, due[0], orders[0], now, interval, clock);
      assert Targets(w'.b) == Targets(w.b);
      Remind(w', due[1..], orders[1..], now, interval, clock)
  }

  lemma {:induction false} EnqueueKeepsChannels(b: Box, order: seq<Id>, i: Id, event: Event, severity: Severity,
                                                due: int, clock: int)
    requires forall c :: c in order ==> c in b.channels
    ensures EnqueueIncident(b, order, i, event, severity, due, clock).channels == b.channels
    decreases |order|
  {
    if order != [] {
      var b' := if Accepts(b, i, order[0], event, severity) then Upsert(b, i, order[0], event, due, clock) else b;
      EnqueueKeepsChannels(b', order[1..], i, event, severity, due, clock);
    }
  }

  ghost function Apply(w: World, s: Step): World {
    match s
    case Evaluation(_, _, _, _, _) => ApplyEvaluation(w, s)
    case PurgeEvents(gone) => w.(t := w.t.(events := w.t.events - gone), purged := w.purged + gone)
    case Reminders(now, interval, clock, due, orders) =>
      if Lists(due, DueReminders(w.t, now)) && ListsPer(due, orders, Targets(w.b)) then
        Remind(w, due, orders, now, Interval(interval), clock)
      else w
    case Start(now, interval, orphans, fault) =>
      if w.running then w
      else if fault || !Lists(orphans, Orphans(w.t)) then w.(b := Recover(w.b, now))
      else w.(b := Recover(w.b, now), t := Reconcile(w.t, orphans, now, interval), running := true)
    case Stop => w.(running := false, held := {})
    case ClaimRow(id, now) =>
      if w.running && Claimable(w.b, id, now) then
        var row := w.b.deliveries[id];
        w.(b := Claim(w.b, id, now), held := w.held + {id},
           claimed := if row.incident == None then w.claimed else w.claimed + {(row.incident.value, row.channel)})
      else w
    case FinishDelivery(id, result, now) =>
      if id in w.held then w.(b := Finish(w.b, id, result, now), held := w.held - {id}) else w
    case Abandon(id) => w.(held := w.held - {id})
    case ManualRetry(id, now) =>
      if id in w.b.deliveries && w.b.deliveries[id].status == PermanentFailure then
        w.(b := Retry(w.b, id, now), retried := w.retried + {id})
      else w
    case NewChannel(enabled, minimum, notifyResolved) => w.(b := CreateChannel(w.b, enabled, minimum, notifyResolved))
    case ChangeChannel(c, enabled, minimum, notifyResolved, now) =>
      w.(b := PatchChannel(w.b, c, enabled, minimum, notifyResolved, now))
    case RemoveChannel(c, now) => w.(b := DeleteChannel(w.b, c, now))
    case TestChannel(c, now) => w.(b := SendTest(w.b, c, now))
    case CleanAlerts(cutoff) => w.(t := ForgetAlerts(w.t, cutoff))
    case CleanIncidents(cutoff) => w.(t := ForgetIncidents(w.t, cutoff), b := Detach(w.b, OldIncidents(w.t, cutoff)))
    case CleanDeliveries(cutoff) => w.(b := ForgetDeliveries(w.b, cutoff))
  }

  ghost function Run(w: World, steps: seq<Step>): World { Runs.Run(Apply, w, steps) }

  // ---------------------------------------------------------------- the invariant

  /** Rows held by workers are in progress, and nobody holds rows unless workers run. */
  ghost predicate HeldRowsAreInProgress(w: World) {
    && (forall id :: id in w.held ==> id in w.b.deliveries && w.b.deliveries[id].status == InProgress)
    && (!w.running ==> w.held == {})
  }

  /** The stored phase of every key is the lifecycle run over its committed observations, in whole seconds. */
  ghost predicate PhasesFollowTheLog(w: World) {
    forall key :: Stored(w.t, key) == L.Before(SECOND, Log(w, key), |Log(w, key)|)
  }

  /** A firing alert still has its event row, unless that row was purged. */
  ghost predicate FiringAlertsHaveEvents(w: World) {
    forall a :: a in w.t.alerts && w.t.alerts[a].firing ==> a in w.t.events || a in w.purged
  }

  ghost predicate Inv(w: World) {
    && Coherent(w.t)
    && Sound(w.b, w.claimed, w.retried, w.t.incidents)
    && HeldRowsAreInProgress(w)
    && PhasesFollowTheLog(w)
    && FiringAlertsHaveEvents(w)
  }

  /** A database on which no notification component has run yet: alerts of earlier evaluations may be firing. */
  ghost predicate Initial(w: World) {
    && References(w.t) && OneAlertPerActiveKey(w.t) && PhasesFollowTheLog(w) && FiringAlertsHaveEvents(w)
    && w.t.members == map[] && w.t.incidents == map[]
    && RowsOk(w.b) && w.b.deliveries == map[]
    && !w.running && w.held == {} && w.claimed == {} && w.retried == {}
  }

  const EMPTY := World(Tables(map[], map[], map[], map[], {}, 0, 0), Box(map[], map[], 0, 0),
                       false, {}, {}, {}, {}, map[])

  lemma EmptyDatabaseIsInitial()
    ensures Initial(EMPTY) && EveryFiringAlertJoined(EMPTY.t)
  {
    assert forall key :: FiringFor(EMPTY.t, key) == {};
  }

  lemma InitialWorldsAreGood(w: World)
    requires Initial(w)
    ensures Inv(w)
  {
    forall i, c ensures Live(w.b, i, c) == {} {}
  }

  // ---------------------------------------------------------------- every step keeps it

  lemma ProgressKeepsSoundness(b: Box, claimed: set<(Id, Id)>, retried: set<Id>,
                               before: map<Id, Incident>, after: map<Id, Incident>)
    requires Sound(b, claimed, retried, before) && Progress(before, after)
    ensures Sound(b, claimed, retried, after)
  {
  }

  /** `b'` leaves every in-progress row of `b` as it is. */
  ghost predicate LeavesBusyAlone(b: Box, b': Box) {
    forall d :: d in b.deliveries && b.deliveries[d].status == InProgress ==>
      d in b'.deliveries && b'.deliveries[d] == b.deliveries[d]
  }

  lemma UpsertLeavesBusyAlone(b: Box, i: Id, c: Id, event: Event, due: int, clock: int)
    requires RowsOk(b) && c in b.channels
    ensures LeavesBusyAlone(b, Upsert(b, i, c, event, due, clock)) && RowsOk(Upsert(b, i, c, event, due, clock))
    ensures Upsert(b, i, c, event, due, clock).channels == b.channels
  {
  }

  lemma {:induction false} EnqueueLeavesBusyAlone(b: Box, order: seq<Id>, i: Id, event: Event, severity: Severity,
                                                  due: int, clock: int)
    requires RowsOk(b) && forall c :: c in order ==> c in b.channels
    ensures LeavesBusyAlone(b, EnqueueIncident(b, order, i, event, severity, due, clock))
    decreases |order|
  {
    if order != [] {
      UpsertLeavesBusyAlone(b, i, order[0], event, due, clock);
      var b' := if Accepts(b, i, order[0], event, severity) then Upsert(b, i, order[0], event, due, clock) else b;
      EnqueueLeavesBusyAlone(b', order[1..], i, event, severity, due, clock);
    }
  }

  lemma {:induction false} ResolutionLeavesBusyAlone(b: Box, order: seq<Id>, i: Id, now: int, clock: int)
    requires RowsOk(b) && forall c :: c in order ==> c in b.channels
    ensures LeavesBusyAlone(b, EnqueueResolution(b, order, i, now, clock))
    decreases |order|
  {
    if order != [] {
      var c := order[0];
      var b' := Cancel(b, Waiting(b, i, c), now);
      CancelIsCalm(b, Waiting(b, i, c), now);
      UpsertLeavesBusyAlone(b', i, c, Resolution, now, clock);
      ResolveChannelKeepsRows(b, i, c, now, clock);
      ResolutionLeavesBusyAlone(ResolveChannel(b, i, c, now, clock), order[1..], i, now, clock);
    }
  }

  /** A committed evaluation stores the advanced phase, keeps events, and gives a new firing alert its event. */
  lemma WhatEvaluationWrites(t: Tables, e: Alerting.Evaluation, interval: int)
    requires Evaluate(t, e, interval).Committed?
    ensures var u := Evaluate(t, e, interval).tables;
            && u.phases == WithPhase(t, e).phases && t.events <= u.events
            && forall a :: a in u.alerts && u.alerts[a].firing ==>
                 (a in t.alerts && t.alerts[a].firing) || a in u.events
  {
    hide GroupFor, L.Advance, L.Store, LatestFiring, HasFiring, HasCritical;
  }

  lemma PhasesStillFollow(w: World, e: Alerting.Evaluation, w': World)
    requires PhasesFollowTheLog(w)
    requires w'.t.phases == WithPhase(w.t, e).phases && w'.log == Logged(w, e).log
    ensures PhasesFollowTheLog(w')
  {
    forall key ensures Stored(w'.t, key) == L.Before(SECOND, Log(w', key), |Log(w', key)|) {
      var run := Log(w, key);
      assert Stored(w.t, key) == L.Before(SECOND, run, |run|);
      if key == DedupKey(e) {
        L.BeforePrefix(SECOND, run, [e.seen], |run|);
        assert Log(w', key) == run + [e.seen];
      } else {
        assert Log(w', key) == run;
      }
    }
  }

  /** The rows held by workers survive a change that leaves in-progress rows alone. */
  lemma HeldSurvive(w: World, w': World)
    requires HeldRowsAreInProgress(w) && LeavesBusyAlone(w.b, w'.b) && w'.held == w.held && w'.running == w.running
    ensures HeldRowsAreInProgress(w')
  {
  }

  lemma NotifyKeepsBox(b: Box, order: seq<Id>, i: Id, event: Event, severity: Severity, due: int, clock: int,
                       claimed: set<(Id, Id)>, retried: set<Id>, before: map<Id, Incident>, after: map<Id, Incident>)
    requires Sound(b, claimed, retried, before) && Progress(before, after) && i in after
    requires event != Resolution && Lists(order, Targets(b))
    ensures var b' := EnqueueIncident(b, order, i, event, severity, due, clock);
            Sound(b', claimed, retried, after) && LeavesBusyAlone(b, b')
  {
    ProgressKeepsSoundness(b, claimed, retried, before, after);
    EnqueueIncidentKeepsSoundness(b, order, i, event, severity, due, clock, claimed, retried, after);
    EnqueueLeavesBusyAlone(b, order, i, event, severity, due, clock);
  }

  lemma CloseKeepsBox(b: Box, order: seq<Id>, i: Id, now: int, clock: int,
                      claimed: set<(Id, Id)>, retried: set<Id>, before: map<Id, Incident>, after: map<Id, Incident>)
    requires Sound(b, claimed, retried, before) && Progress(before, after)
    requires i in before && before[i].open && i in after && !after[i].open && Lists(order, ResolutionTargets(b))
    ensures var b' := EnqueueResolution(b, order, i, now, clock);
            Sound(b', claimed, retried, after) && LeavesBusyAlone(b, b')
  {
    assert forall d, c :: !Announces(b, d, i, c);
    ProgressKeepsSoundness(b, claimed, retried, before, after);
    EnqueueResolutionKeepsSoundness(b, order, i, now, clock, claimed, retried, after);
    ResolutionLeavesBusyAlone(b, order, i, now, clock);
  }

  /** What a committed evaluation does to the outbox. */
  lemma AnnounceKeepsBox(b: Box, effect: Effect, now: int, clock: int, order: seq<Id>,
                         claimed: set<(Id, Id)>, retried: set<Id>, before: map<Id, Incident>, after: map<Id, Incident>)
    requires Sound(b, claimed, retried, before) && Progress(before, after) && ListsChannels(b, effect, order)
    requires effect.Notify? ==> effect.incident in after
    requires effect.Close? ==>
               var i := effect.incident; i in before && before[i].open && i in after && !after[i].open
    ensures var b' := Announce(b, effect, now, clock, order);
            Sound(b', claimed, retried, after) && LeavesBusyAlone(b, b')
  {
    match effect
    case Quiet =>
      ProgressKeepsSoundness(b, claimed, retried, before, after);
    case Notify(i, isNew, severity) =>
      NotifyKeepsBox(b, order, i, if isNew then Opening else Update, severity, now + COALESCING_DELAY, clock,
                     claimed, retried, before, after);
    case Close(i) =>
      CloseKeepsBox(b, order, i, now, clock, claimed, retried, before, after);
  }

  lemma EvaluationKeepsInv(w: World, s: Step)
    requires Inv(w) && s.Evaluation?
    ensures Inv(Apply(w, s))
  {
    var w' := Apply(w, s);
    if w' != w {
      EvaluateKeepsCoherence(w.t, s.e, s.interval);
      var outcome := Evaluate(w.t, s.e, s.interval);
      AnnounceKeepsBox(w.b, outcome.effect, s.e.seen.now, s.clock, s.order, w.claimed, w.retried,
                       w.t.incidents, outcome.tables.incidents);
      WhatEvaluationWrites(w.t, s.e, s.interval);
      PhasesStillFollow(w, s.e, w');
      HeldSurvive(w, w');
    }
  }

  lemma PostponeKeepsCoherence(t: Tables, i: Id, now: int, interval: int)
    requires Coherent(t) && i in t.incidents && t.incidents[i].open
    ensures Coherent(Postpone(t, i, now, interval)) && Progress(t.incidents, Postpone(t, i, now, interval).incidents)
  {
    var u := Postpone(t, i, now, interval);
    forall j | j in u.incidents ensures RowIsExact(u, j) {
      assert RowIsExact(t, j);
      SameFiringMembers(t, u, j);
    }
    assert forall j, group :: OpenIn(u, j, group) <==> OpenIn(t, j, group);
    SameAlertsSameCounts(t, u);
  }

  lemma RemindOneKeepsInv(w: World, i: Id, order: seq<Id>, now: int, interval: int, clock: int)
    requires Inv(w) && i in w.t.incidents && w.t.incidents[i].open && Lists(order, Targets(w.b))
    ensures Inv(RemindOne(w, i, order, now, interval, clock))
  {
    var w' := RemindOne(w, i, order, now, interval, clock);
    PostponeKeepsCoherence(w.t, i, now, interval);
    NotifyKeepsBox(w.b, order, i, Reminder, w.t.incidents[i].severity, now, clock, w.claimed, w.retried,
                   w.t.incidents, w'.t.incidents);
    HeldSurvive(w, w');
    assert forall key :: Stored(w'.t, key) == Stored(w.t, key) && Log(w', key) == Log(w, key);
  }

  lemma {:induction false} RemindKeepsInv(w: World, due: seq<Id>, orders: seq<seq<Id>>, now: int, interval: int,
                                          clock: int)
    requires Inv(w) && forall i :: i in due ==> i in w.t.incidents && w.t.incidents[i].open
    requires ListsPer(due, orders, Targets(w.b))
    ensures Inv(Remind(w, due, orders, now, interval, clock))
    decreases |due|
  {
    if due != [] {
      RemindOneKeepsInv(w, due[0], orders[0], now, interval, clock);
      var w' := RemindOne(w, due[0], orders[0], now, interval, clock);
      assert Targets(w'.b) == Targets(w.b);
      RemindKeepsInv(w', due[1..], orders[1..], now, interval, clock);
    }
  }

  lemma StartKeepsInv(w: World, s: Step)
    requires Inv(w) && s.Start?
    ensures Inv(Apply(w, s))
  {
    var b := Recover(w.b, s.now);
    RecoverIsCalm(w.b, s.now);
    CalmerKeepsSoundness(w.b, b, w.claimed, w.retried, w.t.incidents);
    if Lists(s.orphans, Orphans(w.t)) {
      ReconcileJoinsEverything(w.t, s.orphans, s.now, s.interval);
      var u := Reconcile(w.t, s.orphans, s.now, s.interval);
      ProgressKeepsSoundness(b, w.claimed, w.retried, w.t.incidents, u.incidents);
      assert forall key :: Stored(u, key) == Stored(w.t, key);
    }
  }

  predicate IsWorkerStep(s: Step) {
    s.Stop? || s.ClaimRow? || s.FinishDelivery? || s.Abandon? || s.ManualRetry?
  }

  lemma WorkerStepKeepsInv(w: World, s: Step)
    requires Inv(w) && IsWorkerStep(s)
    ensures Inv(Apply(w, s))
  {
    var w' := Apply(w, s);
    assert forall key :: Log(w', key) == Log(w, key);
    match s
    case Stop =>
    case Abandon(_) =>
    case ClaimRow(id, now) =>
      if w.running && Claimable(w.b, id, now) {
        ClaimKeepsSoundness(w.b, id, now, w.claimed, w.retried, w.t.incidents);
      }
    case FinishDelivery(id, result, now) =>
      if id in w.held {
        FinishIsCalm(w.b, id, result, now);
        CalmerKeepsSoundness(w.b, w'.b, w.claimed, w.retried, w.t.incidents);
      }
    case ManualRetry(id, now) =>
      RetryKeepsSoundness(w.b, id, now, w.claimed, w.retried, w.t.incidents);
  }

  predicate IsChannelStep(s: Step) {
    s.NewChannel? || s.ChangeChannel? || s.RemoveChannel? || s.TestChannel? || s.CleanDeliveries?
  }

  lemma ChannelStepIsCalm(w: World, s: Step)
    requires Inv(w) && IsChannelStep(s) && !s.TestChannel?
    ensures var w' := Apply(w, s);
            w' == w.(b := w'.b) && RowsOk(w'.b) && Calmer(w.b, w'.b) && LeavesBusyAlone(w.b, w'.b)
  {
    hide RowsOk, Calmer, Coherent;
    match s
    case NewChannel(enabled, minimum, notifyResolved) => CreatingIsCalm(w.b, enabled, minimum, notifyResolved);
    case ChangeChannel(c, enabled, minimum, notifyResolved, now) =>
      PatchingIsCalm(w.b, c, enabled, minimum, notifyResolved, now);
    case RemoveChannel(c, now) => DeletingIsCalm(w.b, c, now);
    case CleanDeliveries(cutoff) => ForgettingIsCalm(w.b, cutoff, {});
  }

  lemma ChannelStepKeepsInv(w: World, s: Step)
    requires Inv(w) && IsChannelStep(s)
    ensures Inv(Apply(w, s))
  {
    var w' := Apply(w, s);
    assert forall key :: Log(w', key) == Log(w, key);
    if s.TestChannel? {
      if s.c in w.b.channels && !w.b.channels[s.c].deleted {
        InsertKeepsSoundness(w.b, NewRow(None, s.c, Test, s.now, s.now), w.claimed, w.retried, w.t.incidents);
      }
    } else {
      ChannelStepIsCalm(w, s);
      CalmerKeepsSoundness(w.b, w'.b, w.claimed, w.retried, w.t.incidents);
      HeldSurvive(w, w');
    }
  }

  lemma CleanIncidentsKeepsInv(w: World, cutoff: int)
    requires Inv(w)
    ensures Inv(Apply(w, CleanIncidents(cutoff)))
  {
    var w' := Apply(w, CleanIncidents(cutoff));
    ForgettingIncidentsKeepsCoherence(w.t, cutoff);
    DetachKeepsSoundness(w.b, OldIncidents(w.t, cutoff), w.claimed, w.retried, w.t.incidents);
    assert forall key :: Log(w', key) == Log(w, key) && Stored(w'.t, key) == Stored(w.t, key);
  }

  lemma TableStepKeepsInv(w: World, s: Step)
    requires Inv(w) && (s.PurgeEvents? || s.CleanAlerts?)
    ensures Inv(Apply(w, s))
  {
    var w' := Apply(w, s);
    assert forall key :: Log(w', key) == Log(w, key) && Stored(w'.t, key) == Stored(w.t, key);
    match s
    case PurgeEvents(gone) => PurgingEventsKeepsCoherence(w.t, gone);
    case CleanAlerts(cutoff) => ForgettingAlertsKeepsCoherence(w.t, cutoff);
  }

  /** One step, whatever it is. */
  lemma StepKeepsInv(w: World, s: Step)
    requires Inv(w)
    ensures Inv(Apply(w, s))
  {
    if IsWorkerStep(s) { WorkerStepKeepsInv(w, s); }
    else if IsChannelStep(s) { ChannelStepKeepsInv(w, s); }
    else {
      match s
      case Evaluation(_, _, _, _, _) => EvaluationKeepsInv(w, s);
      case Reminders(now, interval, clock, due, orders) =>
        if Lists(due, DueReminders(w.t, now)) && ListsPer(due, orders, Targets(w.b)) {
          RemindKeepsInv(w, due, orders, now, Interval(interval), clock);
        }
      case Start(_, _, _, _) => StartKeepsInv(w, s);
      case CleanIncidents(cutoff) => CleanIncidentsKeepsInv(w, cutoff);
      case PurgeEvents(_) => TableStepKeepsInv(w, s);
      case CleanAlerts(_) => TableStepKeepsInv(w, s);
    }
  }

  /** The invariant holds in every world that any interleaving of any length can reach. */
  lemma {:induction false} EveryReachableWorldIsGood(w: World, steps: seq<Step>)
    requires Initial(w)
    ensures Inv(Run(w, steps))
  {
    if steps == [] { InitialWorldsAreGood(w); }
    else {
      EveryReachableWorldIsGood(w, steps[..|steps| - 1]);
      StepKeepsInv(Run(w, steps[..|steps| - 1]), steps[|steps| - 1]);
    }
  }
}
