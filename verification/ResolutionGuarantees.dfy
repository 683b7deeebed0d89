/** Incidents resolve once and are announced once per channel; critical-only channels hear only of critical ones. */
module ResolutionGuarantees {
  import opened Options
  import opened Alerting
  import opened Outbox
  import opened Pipeline
  import Guarantees
  import RowHistory

  // ---------------------------------------------------------------- resolved incidents stay resolved

  /** After a step every incident row is new, or still open before, or unchanged. */
  ghost predicate IncidentStep(t: Tables, u: Tables) {
    && t.nextIncident <= u.nextIncident
    && forall i :: i in u.incidents ==>
         if i in t.incidents then t.incidents[i].open || u.incidents[i] == t.incidents[i] else t.nextIncident <= i
  }

  lemma EveryStepIsAnIncidentStep(w: World, s: Step)
    requires Inv(w)
    ensures IncidentStep(w.t, Apply(w, s).t)
  {
    hide Sound, Coherent, PhasesFollowTheLog, FiringAlertsHaveEvents, Evaluate, Announce, Reconcile, Remind;
    match s
    case Evaluation(e, _, interval, _, _) =>
      if Apply(w, s) != w { EvaluateKeepsCoherence(w.t, e, interval); }
    case Reminders(now, interval, clock, due, orders) =>
      if Lists(due, DueReminders(w.t, now)) && ListsPer(due, orders, Targets(w.b)) {
        Guarantees.RemindKeepsAlerts(w, due, orders, now, Interval(interval), clock);
      }
    case Start(now, interval, orphans, _) =>
      if Lists(orphans, Orphans(w.t)) { ReconcileJoinsEverything(w.t, orphans, now, interval); }
    case _ =>
  }

  ghost predicate StillResolved(w: World, i: Id, row: Incident) {
    i < w.t.nextIncident && (i in w.t.incidents ==> w.t.incidents[i] == row)
  }

  lemma {:induction false} ResolvedIncidentsStay(w: World, steps: seq<Step>, i: Id, row: Incident)
    requires Inv(w) && StillResolved(w, i, row) && !row.open
    ensures Inv(Run(w, steps)) && StillResolved(Run(w, steps), i, row)
  {
    if steps != [] {
      var before, s := steps[..|steps| - 1], steps[|steps| - 1];
      ResolvedIncidentsStay(w, before, i, row);
      StepKeepsInv(Run(w, before), s);
      EveryStepIsAnIncidentStep(Run(w, before), s);
    }
  }

  /** An incident resolves at most once: from then on its row never changes and is never open again. */
  lemma ResolvedIsForever(w0: World, before: seq<Step>, after: seq<Step>, i: Id)
    requires Initial(w0) && i in Run(w0, before).t.incidents && !Run(w0, before).t.incidents[i].open
    ensures var w := Run(Run(w0, before), after);
            i in w.t.incidents ==> w.t.incidents[i] == Run(w0, before).t.incidents[i]
  {
    EveryReachableWorldIsGood(w0, before);
    ResolvedIncidentsStay(Run(w0, before), after, i, Run(w0, before).t.incidents[i]);
  }

  // ---------------------------------------------------------------- one announcement per channel

  lemma {:induction false} IncidentEventsAnnounceNothing(b: Box, order: seq<Id>, i: Id, event: Event,
                                                         severity: Severity,
                                                         due: int, clock: int, d: Id, j: Id, c: Id)
    requires event != Resolution && forall x :: x in order ==> x in b.channels
    requires Announces(EnqueueIncident(b, order, i, event, severity, due, clock), d, j, c)
    requires RowHistory.IdsBelowNext(b)
    ensures Announces(b, d, j, c)
    decreases |order|
  {
    if order != [] {
      var b' := if Accepts(b, i, order[0], event, severity) then Upsert(b, i, order[0], event, due, clock) else b;
      RowHistory.UpsertEnqueues(b, i, order[0], event, due, clock);
      IncidentEventsAnnounceNothing(b', order[1..], i, event, severity, due, clock, d, j, c);
    }
  }

  lemma {:induction false} ResolutionAnnouncesItsIncident(b: Box, order: seq<Id>, i: Id, now: int, clock: int, d: Id,
                                                          j: Id, c: Id)
    requires Announces(EnqueueResolution(b, order, i, now, clock), d, j, c) && !Announces(b, d, j, c)
    requires RowHistory.IdsBelowNext(b)
    ensures j == i
    decreases |order|
  {
    if order != [] {
      var b1 := Cancel(b, Waiting(b, i, order[0]), now);
      RowHistory.CancelEnqueues(b, Waiting(b, i, order[0]), now);
      RowHistory.CancelEnqueues(b, Untried(b, i, order[0]), now);
      RowHistory.UpsertEnqueues(b1, i, order[0], Resolution, now, clock);
      var b' := ResolveChannel(b, i, order[0], now, clock);
      if !Announces(b', d, j, c) {
        ResolutionAnnouncesItsIncident(b', order[1..], i, now, clock, d, j, c);
      }
    }
  }

  lemma {:induction false} RemindersAnnounceNothing(w: World, due: seq<Id>, orders: seq<seq<Id>>, now: int,
                                                    interval: int, clock: int,
                                                    d: Id, j: Id, c: Id)
    requires RowHistory.IdsBelowNext(w.b)
    requires forall i :: i in due ==> i in w.t.incidents
    requires ListsPer(due, orders, Targets(w.b))
    requires Announces(Remind(w, due, orders, now, interval, clock).b, d, j, c)
    ensures Announces(w.b, d, j, c)
    decreases |due|
  {
    if due != [] {
      var i, severity := due[0], w.t.incidents[due[0]].severity;
      RowHistory.IncidentEnqueues(w.b, orders[0], i, Reminder, severity, now, clock);
      var w' := RemindOne(w, i, orders[0], now, interval, clock);
      assert Targets(w'.b) == Targets(w.b);
      RemindersAnnounceNothing(w', due[1..], orders[1..], now, interval, clock, d, j, c);
      IncidentEventsAnnounceNothing(w.b, orders[0], i, Reminder, severity, now, clock, d, j, c);
    }
  }

  lemma OtherStepsAnnounceNothing(w: World, s: Step, d: Id, i: Id, c: Id)
    requires Inv(w) && !s.Evaluation?
    ensures Announces(Apply(w, s).b, d, i, c) ==> Announces(w.b, d, i, c)
  {
    hide Inv, Apply;
    RowHistory.EveryStepIsABoxStep(w, s);
    if s.Reminders? {
      ReminderStepAnnouncesNothing(w, s, d, i, c);
    } else if s.TestChannel? {
      TestAnnouncesNothing(w, s, d, i, c);
    }
  }

  lemma ReminderStepAnnouncesNothing(w: World, s: Step, d: Id, i: Id, c: Id)
    requires Inv(w) && s.Reminders?
    ensures Announces(Apply(w, s).b, d, i, c) ==> Announces(w.b, d, i, c)
  {
    hide Coherent, OneInProgress, AtMostTwoLive, AttemptsWereClaimed, ResolutionsOk, KnownIncidents, Remind;
    if && Lists(s.due, DueReminders(w.t, s.now)) && ListsPer(s.due, s.orders, Targets(w.b))
       && Announces(Apply(w, s).b, d, i, c) {
      RemindersAnnounceNothing(w, s.due, s.orders, s.now, Interval(s.interval), s.clock, d, i, c);
    }
  }

  lemma TestAnnouncesNothing(w: World, s: Step, d: Id, i: Id, c: Id)
    requires s.TestChannel?
    ensures Announces(Apply(w, s).b, d, i, c) ==> Announces(w.b, d, i, c)
  {
  }

  lemma AnnounceMeansClose(b: Box, effect: Effect, now: int, clock: int, order: seq<Id>, d: Id, i: Id, c: Id)
    requires RowHistory.IdsBelowNext(b) && ListsChannels(b, effect, order)
    requires Announces(Announce(b, effect, now, clock, order), d, i, c) && !Announces(b, d, i, c)
    ensures effect == Close(i)
  {
    match effect
    case Quiet =>
    case Notify(i0, isNew, severity) =>
      IncidentEventsAnnounceNothing(b, order, i0, if isNew then Opening else Update, severity,
                                    now + COALESCING_DELAY, clock, d, i, c);
    case Close(i0) => ResolutionAnnouncesItsIncident(b, order, i0, now, clock, d, i, c);
  }

  /** A resolution row is only ever created by the step that closes its incident, for a pair already claimed. */
  lemma AnnouncementsComeFromClosing(w: World, s: Step, d: Id, i: Id, c: Id)
    requires Inv(w) && Announces(Apply(w, s).b, d, i, c) && !Announces(w.b, d, i, c)
    ensures i in w.t.incidents && w.t.incidents[i].open && (i, c) in w.claimed
    ensures i in Apply(w, s).t.incidents && !Apply(w, s).t.incidents[i].open
  {
    if s.Evaluation? {
      EvaluateKeepsCoherence(w.t, s.e, s.interval);
      var r := Evaluate(w.t, s.e, s.interval);
      AnnounceMeansClose(w.b, r.effect, s.e.seen.now, s.clock, s.order, d, i, c);
      StepKeepsInv(w, s);
    } else {
      OtherStepsAnnounceNothing(w, s, d, i, c);
    }
  }

  lemma {:induction false} AnnouncedOnceFrom(w: World, steps: seq<Step>, d: Id, e: Id, i: Id, c: Id)
    requires Inv(w) && Announces(w.b, d, i, c) && Announces(Run(w, steps).b, e, i, c)
    ensures e == d
  {
    if steps != [] {
      var before, s := steps[..|steps| - 1], steps[|steps| - 1];
      ResolvedIncidentsStay(w, before, i, w.t.incidents[i]);
      var v := Run(w, before);
      if Announces(v.b, e, i, c) {
        AnnouncedOnceFrom(w, before, d, e, i, c);
      } else {
        AnnouncementsComeFromClosing(v, s, e, i, c);
        assert false;
      }
    }
  }

  /** A row stays with its event and its channel, so one that comes to announce a resolution is new. */
  lemma AnnouncingRowsAreNew(w: World, s: Step, d: Id, i: Id, c: Id)
    requires Inv(w) && Announces(Apply(w, s).b, d, i, c) && !Announces(w.b, d, i, c)
    ensures w.b.nextDelivery <= d
  {
    hide Inv, Apply;
    RowHistory.EveryStepIsABoxStep(w, s);
  }

  lemma {:induction false} IdsOnlyGrow(w0: World, steps: seq<Step>, k: nat)
    requires Initial(w0) && k <= |steps|
    ensures Run(w0, steps[..k]).b.nextDelivery <= Run(w0, steps).b.nextDelivery
    decreases |steps|
  {
    hide Initial, Inv, Apply;
    if k < |steps| {
      var n := |steps| - 1;
      assert steps[..n][..k] == steps[..k];
      IdsOnlyGrow(w0, steps[..n], k);
      EveryReachableWorldIsGood(w0, steps[..n]);
      RowHistory.EveryStepIsABoxStep(Run(w0, steps[..n]), steps[n]);
    } else {
      assert steps[..k] == steps;
    }
  }

  lemma ClaimedRowsExist(w0: World, before: seq<Step>, s: Step, i: Id, c: Id)
    requires Initial(w0) && ClaimsPair(Run(w0, before), s, i, c)
    ensures s.id < Run(w0, before).b.nextDelivery
  {
    EveryReachableWorldIsGood(w0, before);
  }

  /** An announced pair was claimed before, for another row than the one that announces. */
  lemma {:induction false} AnotherRowWasClaimed(w0: World, steps: seq<Step>, d: Id, i: Id, c: Id)
    requires Initial(w0) && Announces(Run(w0, steps).b, d, i, c)
    ensures exists k :: 0 <= k < |steps| && ClaimsPair(Run(w0, steps[..k]), steps[k], i, c) && steps[k].id != d
    decreases |steps|
  {
    hide Inv, Apply, Claimable;
    if steps != [] {
      var n := |steps| - 1;
      var before, s := steps[..n], steps[n];
      var w := Run(w0, before);
      EveryReachableWorldIsGood(w0, before);
      if Announces(w.b, d, i, c) {
        AnotherRowWasClaimed(w0, before, d, i, c);
        var k :| 0 <= k < n && ClaimsPair(Run(w0, before[..k]), before[k], i, c) && before[k].id != d;
        assert before[..k] == steps[..k];
      } else {
        AnnouncementsComeFromClosing(w, s, d, i, c);
        AnnouncingRowsAreNew(w, s, d, i, c);
        ClaimedMeansClaimed(w0, before, i, c);
        var k :| 0 <= k < n && ClaimsPair(Run(w0, before[..k]), before[k], i, c);
        assert before[..k] == steps[..k];
        ClaimedRowsExist(w0, before[..k], before[k], i, c);
        IdsOnlyGrow(w0, before, k);
      }
    }
  }

  /** Over a whole run a channel gets at most one "resolved" delivery of an incident, even if cleanup has removed the
      first, and only if a worker claimed another delivery of the incident to the channel before. */
  lemma ResolutionIsAnnouncedOnce(w0: World, before: seq<Step>, after: seq<Step>, d: Id, e: Id, i: Id, c: Id)
    requires Initial(w0)
    requires Announces(Run(w0, before).b, d, i, c) && Announces(Run(Run(w0, before), after).b, e, i, c)
    ensures e == d
    ensures exists k :: 0 <= k < |before| && ClaimsPair(Run(w0, before[..k]), before[k], i, c) && before[k].id != d
  {
    EveryReachableWorldIsGood(w0, before);
    AnnouncedOnceFrom(Run(w0, before), after, d, e, i, c);
    AnotherRowWasClaimed(w0, before, d, i, c);
  }

  /** Step `s` claims a delivery of incident `i` to channel `c`. */
  ghost predicate ClaimsPair(w: World, s: Step, i: Id, c: Id) {
    s.ClaimRow? && w.running && Claimable(w.b, s.id, s.now) && Concerns(w.b, s.id, i, c)
  }

  lemma {:induction false} ClaimedMeansClaimed(w0: World, steps: seq<Step>, i: Id, c: Id)
    requires w0.claimed == {} && (i, c) in Run(w0, steps).claimed
    ensures exists k :: 0 <= k < |steps| && ClaimsPair(Run(w0, steps[..k]), steps[k], i, c)
  {
    if steps != [] {
      var n := |steps| - 1;
      var before := steps[..n];
      var w := Run(w0, before);
      if (i, c) in w.claimed {
        ClaimedMeansClaimed(w0, before, i, c);
        var k :| 0 <= k < |before| && ClaimsPair(Run(w0, before[..k]), before[k], i, c);
        assert before[..k] == steps[..k];
      } else {
        ClaimedGrowsByClaims(w, steps[n], i, c);
        assert ClaimsPair(Run(w0, steps[..n]), steps[n], i, c);
      }
    }
  }

  lemma ClaimedGrowsByClaims(w: World, s: Step, i: Id, c: Id)
    requires (i, c) in Apply(w, s).claimed && (i, c) !in w.claimed
    ensures ClaimsPair(w, s, i, c)
  {
    match s
    case Reminders(now, interval, clock, due, orders) =>
      if Lists(due, DueReminders(w.t, now)) && ListsPer(due, orders, Targets(w.b)) {
        Guarantees.RemindKeepsAlerts(w, due, orders, now, Interval(interval), clock);
      }
    case _ =>
  }

  /** Right after the transaction that closes an incident, a channel in use that wants resolutions has nothing left to
      tell of it but its resolution, due now, which it has exactly if an earlier delivery was tried; no row of any other
      channel changes. */
  lemma ClosingLeavesNothingPending(w: World, s: Step, c: Id)
    requires Inv(w) && s.Evaluation? && Apply(w, s) != w
    requires var r := Evaluate(w.t, s.e, s.interval); r.Committed? && r.effect.Close?
    ensures var i, b' := Evaluate(w.t, s.e, s.interval).effect.incident, Apply(w, s).b;
            if c in w.b.channels && w.b.channels[c].enabled && !w.b.channels[c].deleted
               && w.b.channels[c].notifyResolved
            then Settled(w.b, b', i, c, s.e.seen.now, s.clock)
            else SameChannel(w.b, b', c)
  {
    hide Evaluate, EnqueueResolution, Settled, SameChannel;
    EnqueueResolutionSettles(w.b, s.order, Evaluate(w.t, s.e, s.interval).effect.incident, s.e.seen.now, s.clock, c);
  }

  // ---------------------------------------------------------------- critical-only channels

  /** Row `d` was inserted or changed. */
  predicate Written(b: Box, b': Box, d: Id) {
    d in b'.deliveries && (d !in b.deliveries || b'.deliveries[d] != b.deliveries[d])
  }

  lemma {:induction false} EnqueueingRespectsTheMinimum(b: Box, order: seq<Id>, i: Id, event: Event, severity: Severity,
                                                        due: int, clock: int, d: Id)
    requires event != Resolution && RowHistory.IdsBelowNext(b) && forall c :: c in order ==> c in b.channels
    requires Written(b, EnqueueIncident(b, order, i, event, severity, due, clock), d)
    ensures var r := EnqueueIncident(b, order, i, event, severity, due, clock).deliveries[d];
            && r.incident == Some(i) && r.channel in b.channels
            && (b.channels[r.channel].minimum == Critical ==> severity == Critical)
    decreases |order|
  {
    if order != [] {
      var c := order[0];
      var b' := if Accepts(b, i, c, event, severity) then Upsert(b, i, c, event, due, clock) else b;
      RowHistory.UpsertEnqueues(b, i, c, event, due, clock);
      if Written(b', EnqueueIncident(b', order[1..], i, event, severity, due, clock), d) {
        EnqueueingRespectsTheMinimum(b', order[1..], i, event, severity, due, clock, d);
      }
    }
  }

  lemma {:induction false} RemindingRespectsTheMinimum(w: World, due: seq<Id>, orders: seq<seq<Id>>, now: int,
                                                       interval: int, clock: int, d: Id)
    requires RowHistory.IdsBelowNext(w.b)
    requires forall i :: i in due ==> i in w.t.incidents
    requires ListsPer(due, orders, Targets(w.b))
    requires forall k, l :: 0 <= k < l < |due| ==> due[k] != due[l]
    requires Written(w.b, Remind(w, due, orders, now, interval, clock).b, d)
    ensures var r := Remind(w, due, orders, now, interval, clock).b.deliveries[d];
            && r.incident.Some? && r.incident.value in due && r.channel in w.b.channels
            && (w.b.channels[r.channel].minimum == Critical ==> w.t.incidents[r.incident.value].severity == Critical)
    decreases |due|
  {
    if due != [] {
      var i, severity := due[0], w.t.incidents[due[0]].severity;
      RowHistory.IncidentEnqueues(w.b, orders[0], i, Reminder, severity, now, clock);
      var w' := RemindOne(w, i, orders[0], now, interval, clock);
      assert Targets(w'.b) == Targets(w.b);
      if Written(w'.b, Remind(w', due[1..], orders[1..], now, interval, clock).b, d) {
        RemindingRespectsTheMinimum(w', due[1..], orders[1..], now, interval, clock, d);
      } else {
        EnqueueingRespectsTheMinimum(w.b, orders[0], i, Reminder, severity, now, clock, d);
      }
    }
  }

  /** Every pending opened, updated or reminder row that a firing or a reminder transaction writes for a channel
      that wants only critical incidents belongs to an incident with a firing critical alert at that moment. */
  lemma CriticalChannelsHearOnlyOfCriticalIncidents(w: World, s: Step, d: Id)
    requires Inv(w) && (s.Evaluation? || s.Reminders?)
    requires var w' := Apply(w, s);
             && Written(w.b, w'.b, d) && w'.b.deliveries[d].status == Pending && w'.b.deliveries[d].event != Resolution
             && w'.b.deliveries[d].channel in w.b.channels
             && w.b.channels[w'.b.deliveries[d].channel].minimum == Critical
    ensures var w' := Apply(w, s);
            && w'.b.deliveries[d].incident.Some?
            && HasCritical(w'.t, w'.b.deliveries[d].incident.value)
  {
    StepKeepsInv(w, s);
    var w' := Apply(w, s);
    if s.Evaluation? {
      EvaluateKeepsCoherence(w.t, s.e, s.interval);
      match Evaluate(w.t, s.e, s.interval).effect
      case Quiet =>
      case Notify(i, isNew, severity) =>
        EnqueueingRespectsTheMinimum(w.b, s.order, i, if isNew then Opening else Update, severity,
                                     s.e.seen.now + COALESCING_DELAY, s.clock, d);
        assert RowIsExact(w'.t, i);
      case Close(i) =>
        ResolutionWritesNoNews(w.b, s.order, i, s.e.seen.now, s.clock, d);
    } else {
      RemindingRespectsTheMinimum(w, s.due, s.orders, s.now, Interval(s.interval), s.clock, d);
      Guarantees.RemindKeepsAlerts(w, s.due, s.orders, s.now, Interval(s.interval), s.clock);
      var i := w'.b.deliveries[d].incident.value;
      assert RowIsExact(w.t, i);
      SameFiringMembers(w.t, w'.t, i);
    }
  }

  lemma {:induction false} ResolutionWritesNoNews(b: Box, order: seq<Id>, i: Id, now: int, clock: int, d: Id)
    requires RowHistory.IdsBelowNext(b)
    requires Written(b, EnqueueResolution(b, order, i, now, clock), d)
    ensures var r := EnqueueResolution(b, order, i, now, clock).deliveries[d];
            r.status == Cancelled || r.event == Resolution
    decreases |order|
  {
    if order != [] {
      var b1 := Cancel(b, Waiting(b, i, order[0]), now);
      RowHistory.CancelEnqueues(b, Waiting(b, i, order[0]), now);
      RowHistory.CancelEnqueues(b, Untried(b, i, order[0]), now);
      RowHistory.UpsertEnqueues(b1, i, order[0], Resolution, now, clock);
      var b' := ResolveChannel(b, i, order[0], now, clock);
      if Written(b', EnqueueResolution(b', order[1..], i, now, clock), d) {
        ResolutionWritesNoNews(b', order[1..], i, now, clock, d);
      }
    }
  }
}
