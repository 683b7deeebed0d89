/** What the pipeline guarantees over every run, stated without reference to the invariant that proves it. */
module Guarantees {
  import opened Alerting
  import opened Outbox
  import opened Pipeline
  import Runs
  import L = Lifecycle

  // ---------------------------------------------------------------- alerts and incidents

  /** In every reachable world each dedup key has exactly one firing alert while its phase is firing or
      recovering and none otherwise, and each incident is open exactly while it has a firing member, is
      critical exactly when one of them is, and has a reminder due exactly while it is open. */
  lemma TablesAreExact(w0: World, steps: seq<Step>, key: string, i: Id)
    requires Initial(w0)
    ensures var t := Run(w0, steps).t;
            && |FiringFor(t, key)| == (if L.Active(Stored(t, key).phase) then 1 else 0)
            && (i in t.incidents ==>
                  && (t.incidents[i].open <==> HasFiring(t, i))
                  && (t.incidents[i].open ==> (t.incidents[i].severity == Critical <==> HasCritical(t, i)))
                  && (t.incidents[i].nextReminder.Some? <==> t.incidents[i].open))
            && (forall j, group :: OpenIn(t, i, group) && OpenIn(t, j, group) ==> i == j)
  {
    EveryReachableWorldIsGood(w0, steps);
    var t := Run(w0, steps).t;
    assert i in t.incidents ==> RowIsExact(t, i);
  }

  lemma StepKeepsJoined(w: World, s: Step)
    requires Inv(w) && EveryFiringAlertJoined(w.t)
    ensures EveryFiringAlertJoined(Apply(w, s).t)
  {
    hide Sound, Coherent, PhasesFollowTheLog, FiringAlertsHaveEvents, Reconcile, Evaluate, Announce, Remind;
    match s
    case Evaluation(e, _, interval, _, _) =>
      if Apply(w, s) != w { EvaluateKeepsCoherence(w.t, e, interval); }
    case Reminders(now, interval, clock, due, orders) =>
      if Lists(due, DueReminders(w.t, now)) && ListsPer(due, orders, Targets(w.b)) {
        RemindKeepsAlerts(w, due, orders, now, Interval(interval), clock);
      }
    case Start(now, interval, orphans, _) =>
      if Lists(orphans, Orphans(w.t)) { ReconcileJoinsEverything(w.t, orphans, now, interval); }
    case CleanAlerts(cutoff) => ForgettingAlertsKeepsCoherence(w.t, cutoff);
    case CleanIncidents(cutoff) => ForgettingIncidentsKeepsCoherence(w.t, cutoff);
    case _ =>
  }

  /** Reminders change only due times of incidents, and the outbox. */
  lemma {:induction false} RemindKeepsAlerts(w: World, due: seq<Id>, orders: seq<seq<Id>>, now: int, interval: int,
                                             clock: int)
    requires forall i :: i in due ==> i in w.t.incidents
    requires ListsPer(due, orders, Targets(w.b))
    ensures var w' := Remind(w, due, orders, now, interval, clock);
            && w'.t == w.t.(incidents := w'.t.incidents) && w'.t.incidents.Keys == w.t.incidents.Keys
            && (forall i :: i in w.t.incidents ==> w'.t.incidents[i].open == w.t.incidents[i].open)
            && (forall i :: i in w.t.incidents && i !in due ==> w'.t.incidents[i] == w.t.incidents[i])
            && w' == w.(t := w'.t, b := w'.b)
    decreases |due|
  {
    if due != [] {
      var w' := RemindOne(w, due[0], orders[0], now, interval, clock);
      assert Targets(w'.b) == Targets(w.b);
      RemindKeepsAlerts(w', due[1..], orders[1..], now, interval, clock);
    }
  }

  lemma {:induction false} RunKeepsJoined(w: World, steps: seq<Step>)
    requires Inv(w) && EveryFiringAlertJoined(w.t)
    ensures Inv(Run(w, steps)) && EveryFiringAlertJoined(Run(w, steps).t)
  {
    if steps != [] {
      var before := steps[..|steps| - 1];
      RunKeepsJoined(w, before);
      StepKeepsInv(Run(w, before), steps[|steps| - 1]);
      StepKeepsJoined(Run(w, before), steps[|steps| - 1]);
    }
  }

  /** A start of the workers that gets through its reconciliation. */
  ghost predicate Reconciles(w: World, s: Step) {
    s.Start? && !w.running && !s.fault && Lists(s.orphans, Orphans(w.t))
  }

  /** Starting from an empty database, or once a start has reconciled an older one, each firing alert
      belongs to exactly one incident, which is open and carries the group key of the alert. */
  lemma FiringAlertsAreInTheirOpenIncident(w0: World, before: seq<Step>, s: Step, after: seq<Step>, a: Id)
    requires Initial(w0)
    requires Reconciles(Run(w0, before), s) || (before == [] && EveryFiringAlertJoined(w0.t))
    ensures var t := Run(Apply(Run(w0, before), s), after).t;
            a in t.alerts && t.alerts[a].firing ==>
              a in t.members && OpenIn(t, t.members[a].incident, GroupFor(t.alerts[a]).key)
  {
    EveryReachableWorldIsGood(w0, before);
    var w := Run(w0, before);
    StepKeepsInv(w, s);
    if Reconciles(w, s) {
      ReconcileJoinsEverything(w.t, s.orphans, s.now, s.interval);
    } else {
      StepKeepsJoined(w, s);
    }
    RunKeepsJoined(Apply(w, s), after);
  }

  // ---------------------------------------------------------------- alerts are earned

  predicate EarnedAt(w: World, a: Id, k: nat) {
    && a in w.t.alerts
    && var run := Log(w, w.t.alerts[a].key);
       k < |run| && L.At(SECOND, run, k).triggered && Unix(run[k].now) == w.t.alerts[a].startedAt
  }

  ghost predicate AlertsAreEarned(w: World) {
    forall a :: a in w.t.alerts ==> exists k :: EarnedAt(w, a, k)
  }

  lemma EarnedStays(w: World, w': World, a: Id, k: nat)
    requires EarnedAt(w, a, k) && a in w'.t.alerts
    requires w'.t.alerts[a].key == w.t.alerts[a].key && w'.t.alerts[a].startedAt == w.t.alerts[a].startedAt
    requires Log(w, w.t.alerts[a].key) <= Log(w', w.t.alerts[a].key)
    ensures EarnedAt(w', a, k)
  {
    var run := Log(w, w.t.alerts[a].key);
    var run' := Log(w', w.t.alerts[a].key);
    var more := run'[|run|..];
    assert run' == run + more;
    L.BeforePrefix(SECOND, run, more, k);
  }

  /** Alert rows keep their key and start; the only new one is the alert of a committed trigger. */
  lemma EvaluationAlerts(t: Tables, e: Alerting.Evaluation, interval: int, a: Id)
    requires References(t) && Evaluate(t, e, interval).Committed? && a in Evaluate(t, e, interval).tables.alerts
    ensures var u := Evaluate(t, e, interval).tables;
            if a in t.alerts then
              u.alerts[a].key == t.alerts[a].key && u.alerts[a].startedAt == t.alerts[a].startedAt
            else
              && L.Advance(e.seen, Stored(t, DedupKey(e))).triggered
              && u.alerts[a].key == DedupKey(e) && u.alerts[a].startedAt == Unix(e.seen.now)
  {
  }

  lemma EvaluationKeepsEarned(w: World, s: Step)
    requires Inv(w) && AlertsAreEarned(w) && s.Evaluation?
    ensures AlertsAreEarned(Apply(w, s))
  {
    var w' := Apply(w, s);
    if w' != w {
      var key := DedupKey(s.e);
      forall a | a in w'.t.alerts ensures exists k :: EarnedAt(w', a, k) {
        EvaluationAlerts(w.t, s.e, s.interval, a);
        if a in w.t.alerts {
          var k :| EarnedAt(w, a, k);
          EarnedStays(w, w', a, k);
        } else {
          var run := Log(w, key);
          L.BeforePrefix(SECOND, run, [s.e.seen], |run|);
          assert Log(w', key) == run + [s.e.seen];
          assert EarnedAt(w', a, |run|);
        }
      }
    }
  }

  lemma StepKeepsEarned(w: World, s: Step)
    requires Inv(w) && AlertsAreEarned(w)
    ensures AlertsAreEarned(Apply(w, s))
  {
    if s.Evaluation? { EvaluationKeepsEarned(w, s); }
    else {
      var w' := Apply(w, s);
      OtherStepsKeepAlerts(w, s);
      forall a | a in w'.t.alerts ensures exists k :: EarnedAt(w', a, k) {
        var k :| EarnedAt(w, a, k);
        EarnedStays(w, w', a, k);
      }
    }
  }

  lemma OtherStepsKeepAlerts(w: World, s: Step)
    requires Inv(w) && !s.Evaluation?
    ensures var w' := Apply(w, s);
            && w'.log == w.log && (!s.PurgeEvents? ==> w'.purged == w.purged)
            && forall a :: a in w'.t.alerts ==> a in w.t.alerts && w'.t.alerts[a] == w.t.alerts[a]
  {
    hide Sound, Coherent, PhasesFollowTheLog, FiringAlertsHaveEvents, Reconcile, Remind;
    match s
    case Reminders(now, interval, clock, due, orders) =>
      if Lists(due, DueReminders(w.t, now)) && ListsPer(due, orders, Targets(w.b)) {
        RemindKeepsAlerts(w, due, orders, now, Interval(interval), clock);
      }
    case Start(now, interval, orphans, _) =>
      if Lists(orphans, Orphans(w.t)) { ReconcileJoinsEverything(w.t, orphans, now, interval); }
    case _ =>
  }

  lemma {:induction false} RunKeepsEarned(steps: seq<Step>)
    ensures Inv(Run(EMPTY, steps)) && AlertsAreEarned(Run(EMPTY, steps))
  {
    EmptyDatabaseIsInitial();
    EveryReachableWorldIsGood(EMPTY, steps);
    if steps != [] {
      var before := steps[..|steps| - 1];
      RunKeepsEarned(before);
      StepKeepsEarned(Run(EMPTY, before), steps[|steps| - 1]);
    }
  }

  /** Every alert ever inserted, in any run from an empty database, ends an unbroken run of failing
      observations of its key that is longer than the trigger duration less one second. */
  lemma EveryAlertWasEarned(steps: seq<Step>, a: Id)
    requires a in Run(EMPTY, steps).t.alerts
    ensures var w := Run(EMPTY, steps);
            var alert := w.t.alerts[a];
            var run := Log(w, alert.key);
            exists j, k :: 0 <= j < k < |run| && L.AllFailing(run, j, k + 1) && !run[k].suppressed
                           && run[k].now - run[j].now > run[k].rule.triggerDuration - SECOND
                           && Unix(run[k].now) == alert.startedAt
  {
    RunKeepsEarned(steps);
    var w := Run(EMPTY, steps);
    var k :| EarnedAt(w, a, k);
    L.TriggerIsEarned(SECOND, Log(w, w.t.alerts[a].key), k);
  }

  // ---------------------------------------------------------------- resolution

  /** A run in which no event row is purged. */
  predicate NeverPurges(steps: seq<Step>) {
    forall k :: 0 <= k < |steps| ==> !steps[k].PurgeEvents?
  }

  ghost predicate NothingResolved(w: World) {
    && w.purged == {}
    && (forall a :: a in w.t.alerts ==> w.t.alerts[a].firing)
    && (forall i :: i in w.t.incidents ==> w.t.incidents[i].open)
  }

  lemma ResolutionRollsBack(w: World, s: Step)
    requires Inv(w) && w.purged == {} && s.Evaluation?
    requires L.Advance(s.e.seen, Stored(w.t, DedupKey(s.e))).resolved
    ensures Evaluate(w.t, s.e, s.interval).RolledBack? && Apply(w, s) == w
  {
    ResolutionCommitsIffEventWasPurged(w.t, s.e, s.interval);
    ActivityFollowsFlags(s.e.seen, Stored(w.t, DedupKey(s.e)));
    var a :| a in FiringFor(w.t, DedupKey(s.e));
    assert a in w.t.events;
  }

  lemma StepResolvesNothing(w: World, s: Step)
    requires Inv(w) && NothingResolved(w) && !s.PurgeEvents?
    ensures NothingResolved(Apply(w, s))
  {
    if !s.Evaluation? {
      OtherStepsKeepAlerts(w, s);
      OtherStepsCloseNothing(w, s);
    } else if L.Advance(s.e.seen, Stored(w.t, DedupKey(s.e))).resolved {
      ResolutionRollsBack(w, s);
    } else if Apply(w, s) != w {
      TriggerOrNothing(w.t, s.e, s.interval);
    }
  }

  lemma TriggerOrNothing(t: Tables, e: Alerting.Evaluation, interval: int)
    requires Coherent(t) && Evaluate(t, e, interval).Committed?
    requires !L.Advance(e.seen, Stored(t, DedupKey(e))).resolved
    requires forall a :: a in t.alerts ==> t.alerts[a].firing
    requires forall i :: i in t.incidents ==> t.incidents[i].open
    ensures var u := Evaluate(t, e, interval).tables;
            (forall a :: a in u.alerts ==> u.alerts[a].firing) && (forall i :: i in u.incidents ==> u.incidents[i].open)
  {
  }

  lemma OtherStepsCloseNothing(w: World, s: Step)
    requires Inv(w) && !s.Evaluation? && NothingResolved(w)
    ensures forall i :: i in Apply(w, s).t.incidents ==> Apply(w, s).t.incidents[i].open
  {
    hide Sound, Coherent, PhasesFollowTheLog, FiringAlertsHaveEvents, Reconcile, Remind;
    match s
    case Reminders(now, interval, clock, due, orders) =>
      if Lists(due, DueReminders(w.t, now)) && ListsPer(due, orders, Targets(w.b)) {
        RemindKeepsAlerts(w, due, orders, now, Interval(interval), clock);
      }
    case Start(now, interval, orphans, _) =>
      if Lists(orphans, Orphans(w.t)) { ReconcileOpens(w.t, orphans, now, interval); }
    case _ =>
  }

  lemma {:induction false} ReconcileOpens(t: Tables, order: seq<Id>, now: int, interval: int)
    requires forall a :: a in order ==> a in t.alerts
    requires forall i :: i in t.incidents ==> t.incidents[i].open
    ensures forall i :: i in Reconcile(t, order, now, interval).incidents ==>
              Reconcile(t, order, now, interval).incidents[i].open
    decreases |order|
  {
    if order != [] { ReconcileOpens(ReconcileOne(t, order[0], now, interval), order[1..], now, interval); }
  }

  /** Because an alert's two events share a primary key, no alert and no incident is ever resolved, in any run
      from an empty database, before an event row has been purged. */
  lemma {:induction false} NothingResolvesBeforeAPurge(steps: seq<Step>)
    requires NeverPurges(steps)
    ensures NothingResolved(Run(EMPTY, steps))
  {
    if steps != [] {
      var before := steps[..|steps| - 1];
      NothingResolvesBeforeAPurge(before);
      EmptyDatabaseIsInitial();
      EveryReachableWorldIsGood(EMPTY, before);
      StepResolvesNothing(Run(EMPTY, before), steps[|steps| - 1]);
    }
  }

  // ---------------------------------------------------------------- and it does come to a resolution

  /** One look at the host's processor, on a database without channels. */
  function Look(now: int, failing: bool): Step {
    var seen := L.Observation(now, failing, !failing, false, L.Rule(0, 0, 0, 0));
    Step.Evaluation(Alerting.Evaluation("host_cpu_warning", Warning, "host", "server", seen), false, SECOND, 0, [])
  }

  lemma NobodyToTell(w: World, s: Step)
    requires s.Evaluation? && !s.fault && s.order == [] && w.b.channels == map[]
    requires Evaluate(w.t, s.e, s.interval).Committed?
    ensures Apply(w, s) == Logged(w, s.e).(t := Evaluate(w.t, s.e, s.interval).tables)
  {
    hide Evaluate;
    assert Targets(w.b) == {} && ResolutionTargets(w.b) == {};
  }

  lemma LookIsLogged(w: World, now: int, failing: bool)
    requires Inv(w) && w.b.channels == map[] && w.purged == {}
    requires var e := Look(now, failing).e;
             var next := L.Advance(e.seen, Stored(w.t, DedupKey(e)));
             !next.resolved && (next.triggered ==> w.t.alerts == map[])
    ensures var s := Look(now, failing);
            var w' := Apply(w, s);
            && Inv(w') && w'.b.channels == map[] && w'.purged == {}
            && Log(w', DedupKey(s.e)) == Log(w, DedupKey(s.e)) + [s.e.seen]
            && (!L.Advance(s.e.seen, Stored(w.t, DedupKey(s.e))).triggered ==> w'.t.alerts == w.t.alerts)
  {
    hide Inv, L.Advance;
    var s := Look(now, failing);
    InvIsCoherent(w);
    if L.Advance(s.e.seen, Stored(w.t, DedupKey(s.e))).triggered {
      TriggerCommitsIffStartIsFree(w.t, s.e, s.interval);
    }
    NobodyToTell(w, s);
    StepKeepsInv(w, s);
  }

  lemma InvIsCoherent(w: World)
    requires Inv(w)
    ensures Coherent(w.t)
    ensures forall key :: Stored(w.t, key) == L.Before(SECOND, Log(w, key), |Log(w, key)|)
  {
  }

  /** The lifecycle over: failing, failing, recovered, recovered. */
  lemma FourLooks(run: seq<L.Observation>)
    requires |run| == 4 && forall k :: 0 <= k < 4 ==> run[k] == Look(k * SECOND, k < 2).e.seen
    ensures !L.At(SECOND, run, 0).triggered && !L.At(SECOND, run, 0).resolved
    ensures L.At(SECOND, run, 1).triggered && !L.At(SECOND, run, 1).resolved
    ensures !L.At(SECOND, run, 2).triggered && !L.At(SECOND, run, 2).resolved
    ensures L.At(SECOND, run, 3).resolved
  {
    assert L.Before(SECOND, run, 1).phase == L.Pending && L.Before(SECOND, run, 1).since == 0;
    assert L.Before(SECOND, run, 2).phase == L.Firing;
    assert L.Before(SECOND, run, 3).phase == L.Recovering && L.Before(SECOND, run, 3).since == 2 * SECOND;
  }

  /** The looks above have been taken up to the `n`th. */
  ghost predicate Looked(w: World, run: seq<L.Observation>, n: nat)
    requires n <= |run|
  {
    && Inv(w) && w.b.channels == map[] && w.purged == {}
    && Log(w, DedupKey(Look(0, true).e)) == run[..n] && (n <= 1 ==> w.t.alerts == map[])
  }

  /** The stored phase is that of the looks taken. */
  lemma LookedFollows(w: World, run: seq<L.Observation>, n: nat)
    requires n < |run| && Looked(w, run, n)
    ensures L.Advance(run[n], Stored(w.t, DedupKey(Look(0, true).e))) == L.At(SECOND, run, n)
  {
    hide L.Advance;
    InvIsCoherent(w);
    L.BeforePrefix(SECOND, run[..n], run[n..], n);
    assert run[..n] + run[n..] == run;
  }

  lemma NextLook(w: World, run: seq<L.Observation>, n: nat)
    requires |run| == 4 && forall k :: 0 <= k < 4 ==> run[k] == Look(k * SECOND, k < 2).e.seen
    requires n < 3 && Looked(w, run, n)
    ensures Looked(Apply(w, Look(n * SECOND, n < 2)), run, n + 1)
  {
    hide Inv, Apply, L.Advance, L.At;
    FourLooks(run);
    LookedFollows(w, run, n);
    LookIsLogged(w, n * SECOND, n < 2);
    assert run[..n + 1] == run[..n] + [run[n]];
  }

  /** Runs do come to a resolution, and it is rolled back: from an empty database, after two failing and one
      recovered look, a second recovered one resolves and leaves the database as it was. */
  lemma ResolutionsAreRolledBack() returns (steps: seq<Step>, s: Step)
    ensures NeverPurges(steps)
    ensures var w := Run(EMPTY, steps);
            && s.Evaluation? && !s.fault && L.Advance(s.e.seen, Stored(w.t, DedupKey(s.e))).resolved
            && Evaluate(w.t, s.e, s.interval).RolledBack? && Apply(w, s) == w
  {
    var run := Looks();
    NothingLookedAt(run);
    hide Inv, Apply, L.Advance, L.At, Runs.Run, Evaluate, Looked;
    steps, s := [], Look(3 * SECOND, false);
    var w := EMPTY;
    Runs.Nothing(Apply, EMPTY);
    for n := 0 to 3
      invariant w == Run(EMPTY, steps) && Looked(w, run, n) && NeverPurges(steps)
    {
      NextLook(w, run, n);
      Runs.OneMore(Apply, EMPTY, steps, Look(n * SECOND, n < 2));
      w, steps := Apply(w, Look(n * SECOND, n < 2)), steps + [Look(n * SECOND, n < 2)];
    }
    LastLook(w, run);
  }

  function Looks(): seq<L.Observation> {
    seq(4, (k: int) requires 0 <= k < 4 => Look(k * SECOND, k < 2).e.seen)
  }

  lemma NothingLookedAt(run: seq<L.Observation>)
    ensures Looked(EMPTY, run, 0)
  {
    hide Inv;
    EmptyDatabaseIsInitial();
    InitialWorldsAreGood(EMPTY);
  }

  lemma LastLook(w: World, run: seq<L.Observation>)
    requires run == Looks() && Looked(w, run, 3)
    ensures var s := Look(3 * SECOND, false);
            && L.Advance(s.e.seen, Stored(w.t, DedupKey(s.e))).resolved
            && Evaluate(w.t, s.e, s.interval).RolledBack? && Apply(w, s) == w
  {
    hide Inv, Apply, L.Advance, L.At, Evaluate;
    FourLooks(run);
    LookedFollows(w, run, 3);
    ResolutionRollsBack(w, Look(3 * SECOND, false));
  }
}
