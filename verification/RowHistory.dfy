/** The life of one delivery row over every run: how often it is attempted and when it is final. */
module RowHistory {
  import opened Options
  import opened Alerting
  import opened Outbox
  import opened Pipeline
  import Backoff

  // ---------------------------------------------------------------- what a transaction does to rows

  /** A change made by the enqueueing statements: none, a new due time, or cancellation, of a pending row. */
  predicate Requeued(r: Delivery, r': Delivery) {
    || r' == r
    || (r.status == Pending && r' == r.(nextAttempt := r'.nextAttempt))
    || (r.status == Pending
        && r' == r.(status := Cancelled, completedAt := r'.completedAt, nextAttempt := r'.nextAttempt))
  }

  predicate Newborn(r: Delivery) {
    (r.status == Pending || r.status == Cancelled) && r.attempts == 0
  }

  ghost predicate IdsBelowNext(b: Box) {
    forall d :: d in b.deliveries ==> d < b.nextDelivery
  }

  /** `b'` is `b` after enqueueing statements: no row is lost, rows are requeued, new ids are fresh. */
  ghost predicate Enqueued(b: Box, b': Box) {
    && b.nextDelivery <= b'.nextDelivery && IdsBelowNext(b')
    && (forall d :: d in b.deliveries ==> d in b'.deliveries && Requeued(b.deliveries[d], b'.deliveries[d]))
    && (forall d :: d in b'.deliveries && d !in b.deliveries ==> b.nextDelivery <= d && Newborn(b'.deliveries[d]))
  }

  lemma EnqueuedIsTransitive(b1: Box, b2: Box, b3: Box)
    requires Enqueued(b1, b2) && Enqueued(b2, b3)
    ensures Enqueued(b1, b3)
  {
    forall d | d in b1.deliveries ensures d in b3.deliveries && Requeued(b1.deliveries[d], b3.deliveries[d]) {
      assert Requeued(b1.deliveries[d], b2.deliveries[d]) && Requeued(b2.deliveries[d], b3.deliveries[d]);
    }
    forall d | d in b3.deliveries && d !in b1.deliveries
      ensures b1.nextDelivery <= d && Newborn(b3.deliveries[d])
    {
      if d in b2.deliveries { assert Requeued(b2.deliveries[d], b3.deliveries[d]); }
    }
  }

  lemma UpsertEnqueues(b: Box, i: Id, c: Id, event: Event, due: int, clock: int)
    requires IdsBelowNext(b)
    ensures Enqueued(b, Upsert(b, i, c, event, due, clock))
  {
  }

  lemma CancelEnqueues(b: Box, rows: set<Id>, now: int)
    requires IdsBelowNext(b) && forall d :: d in rows && d in b.deliveries ==> b.deliveries[d].status == Pending
    ensures Enqueued(b, Cancel(b, rows, now))
  {
  }

  lemma {:induction false} IncidentEnqueues(b: Box, order: seq<Id>, i: Id, event: Event, severity: Severity, due: int,
                                            clock: int)
    requires IdsBelowNext(b) && forall c :: c in order ==> c in b.channels
    ensures Enqueued(b, EnqueueIncident(b, order, i, event, severity, due, clock))
    decreases |order|
  {
    if order != [] {
      UpsertEnqueues(b, i, order[0], event, due, clock);
      var b' := if Accepts(b, i, order[0], event, severity) then Upsert(b, i, order[0], event, due, clock) else b;
      IncidentEnqueues(b', order[1..], i, event, severity, due, clock);
      EnqueuedIsTransitive(b, b', EnqueueIncident(b', order[1..], i, event, severity, due, clock));
    }
  }

  lemma {:induction false} ResolutionEnqueues(b: Box, order: seq<Id>, i: Id, now: int, clock: int)
    requires IdsBelowNext(b)
    ensures Enqueued(b, EnqueueResolution(b, order, i, now, clock))
    decreases |order|
  {
    if order != [] {
      var c := order[0];
      var b' := Cancel(b, Waiting(b, i, c), now);
      CancelEnqueues(b, Waiting(b, i, c), now);
      CancelEnqueues(b, Untried(b, i, c), now);
      UpsertEnqueues(b', i, c, Resolution, now, clock);
      var b'' := ResolveChannel(b, i, c, now, clock);
      if AnyAttempt(b, i, c) { EnqueuedIsTransitive(b, b', b''); }
      ResolutionEnqueues(b'', order[1..], i, now, clock);
      EnqueuedIsTransitive(b, b'', EnqueueResolution(b'', order[1..], i, now, clock));
    }
  }

  lemma {:induction false} RemindEnqueues(w: World, due: seq<Id>, orders: seq<seq<Id>>, now: int, interval: int,
                                          clock: int)
    requires IdsBelowNext(w.b)
    requires forall i :: i in due ==> i in w.t.incidents
    requires ListsPer(due, orders, Targets(w.b))
    ensures Enqueued(w.b, Remind(w, due, orders, now, interval, clock).b)
    decreases |due|
  {
    if due != [] {
      IncidentEnqueues(w.b, orders[0], due[0], Reminder, w.t.incidents[due[0]].severity, now, clock);
      var w' := RemindOne(w, due[0], orders[0], now, interval, clock);
      assert Targets(w'.b) == Targets(w.b);
      RemindEnqueues(w', due[1..], orders[1..], now, interval, clock);
      EnqueuedIsTransitive(w.b, w'.b, Remind(w, due, orders, now, interval, clock).b);
    }
  }

  // ---------------------------------------------------------------- what a step does to one row

  /** All the ways in which step `s` may change row `d`. */
  ghost predicate RowStep(w: World, s: Step, d: Id, r: Delivery, r': Delivery) {
    || Requeued(r, r')
    || (s.ClaimRow? && s.id == d && r.status == Pending
        && r.nextAttempt.Some? && r.nextAttempt.value <= Unix(s.now)
        && r' == r.(status := InProgress, startedAt := Some(Unix(s.now))))
    || (s.FinishDelivery? && s.id == d && d in w.held && r.status == InProgress && r' == FinishRow(r, s.result, s.now))
    || (s.Start? && r.status == InProgress
        && r' == r.(status := Pending, startedAt := None, nextAttempt := Some(Unix(s.now))))
    || (s.ManualRetry? && s.id == d && r.status == PermanentFailure
        && r' == r.(status := Pending, attempts := 0, startedAt := None, nextAttempt := Some(Unix(s.now)),
                    completedAt := None))
    || (s.CleanIncidents? && r' == r.(incident := None))
  }

  ghost predicate BoxStep(w: World, s: Step, b': Box) {
    && w.b.nextDelivery <= b'.nextDelivery
    && (forall d :: d in b'.deliveries && d in w.b.deliveries ==> RowStep(w, s, d, w.b.deliveries[d], b'.deliveries[d]))
    && (forall d :: d in b'.deliveries && d !in w.b.deliveries ==>
          && w.b.nextDelivery <= d && Newborn(b'.deliveries[d])
          && (s.Evaluation? || s.Reminders? || s.TestChannel?))
    && (forall d :: d in w.b.deliveries && d !in b'.deliveries ==>
          s.CleanDeliveries? && Terminal(w.b.deliveries[d].status))
  }

  /** A step that enqueues is a step of the box. */
  lemma EnqueuedIsABoxStep(w: World, s: Step, b': Box)
    requires Enqueued(w.b, b') && (s.Evaluation? || s.Reminders?)
    ensures BoxStep(w, s, b')
  {
  }

  lemma WorkerStepIsABoxStep(w: World, s: Step)
    requires IdsBelowNext(w.b) && HeldRowsAreInProgress(w) && (IsWorkerStep(s) || s.Start?)
    ensures BoxStep(w, s, Apply(w, s).b)
  {
    hide Backoff.RetryDelay, Backoff.ParseRetryAfter, Reconcile, FinishRow;
  }

  lemma ChannelStepIsABoxStep(w: World, s: Step)
    requires IdsBelowNext(w.b) && IsChannelStep(s)
    ensures BoxStep(w, s, Apply(w, s).b)
  {
  }

  lemma EveryStepIsABoxStep(w: World, s: Step)
    requires Inv(w)
    ensures BoxStep(w, s, Apply(w, s).b)
  {
    hide Coherent, OneInProgress, AtMostTwoLive, AttemptsWereClaimed, ResolutionsOk, KnownIncidents,
         PhasesFollowTheLog, FiringAlertsHaveEvents, Evaluate, EnqueueIncident, EnqueueResolution, Remind;
    if IsWorkerStep(s) || s.Start? {
      WorkerStepIsABoxStep(w, s);
    } else if IsChannelStep(s) {
      ChannelStepIsABoxStep(w, s);
    } else if s.Evaluation? {
      EvaluationEnqueues(w, s);
      EnqueuedIsABoxStep(w, s, Apply(w, s).b);
    } else if s.Reminders? && Lists(s.due, DueReminders(w.t, s.now)) && ListsPer(s.due, s.orders, Targets(w.b)) {
      RemindEnqueues(w, s.due, s.orders, s.now, Interval(s.interval), s.clock);
      EnqueuedIsABoxStep(w, s, Apply(w, s).b);
    }
  }

  lemma EvaluationEnqueues(w: World, s: Step)
    requires s.Evaluation? && IdsBelowNext(w.b)
    ensures Enqueued(w.b, Apply(w, s).b)
  {
    hide Evaluate, EnqueueIncident, EnqueueResolution;
    var outcome := Evaluate(w.t, s.e, s.interval);
    if Apply(w, s) != w {
      match outcome.effect
      case Quiet =>
      case Notify(i, isNew, severity) =>
        var event := if isNew then Opening else Update;
        IncidentEnqueues(w.b, s.order, i, event, severity, s.e.seen.now + COALESCING_DELAY, s.clock);
      case Close(i) =>
        ResolutionEnqueues(w.b, s.order, i, s.e.seen.now, s.clock);
    }
  }

  // ---------------------------------------------------------------- final rows

  predicate Final(s: Status) { s == Succeeded || s == Cancelled }

  /** Row `d` is gone for good, or still what it was when it became final; cleanup may detach its incident. */
  ghost predicate StillFinal(w: World, d: Id, r: Delivery) {
    && d < w.b.nextDelivery
    && (d in w.b.deliveries ==> w.b.deliveries[d] == r || w.b.deliveries[d] == r.(incident := None))
  }

  /** A run in which no incident and no delivery is cleaned up. */
  predicate NeverCleans(steps: seq<Step>) {
    forall k :: 0 <= k < |steps| ==> !steps[k].CleanIncidents? && !steps[k].CleanDeliveries?
  }

  lemma {:induction false} FinalRowsStay(w: World, steps: seq<Step>, d: Id, r: Delivery)
    requires Inv(w) && d in w.b.deliveries && w.b.deliveries[d] == r && Final(r.status)
    ensures Inv(Run(w, steps)) && StillFinal(Run(w, steps), d, r)
    ensures NeverCleans(steps) ==> d in Run(w, steps).b.deliveries && Run(w, steps).b.deliveries[d] == r
  {
    hide Apply, Coherent, OneInProgress, AtMostTwoLive, AttemptsWereClaimed, ResolutionsOk, KnownIncidents,
         PhasesFollowTheLog, FiringAlertsHaveEvents, HeldRowsAreInProgress;
    if steps != [] {
      var before, s := steps[..|steps| - 1], steps[|steps| - 1];
      FinalRowsStay(w, before, d, r);
      StepKeepsInv(Run(w, before), s);
      EveryStepIsABoxStep(Run(w, before), s);
    }
  }

  /** Succeeded and cancelled are final: from any reachable world on, such a row never changes again, except that
      cleanup may detach its incident or remove it. */
  lemma SucceededAndCancelledAreFinal(w0: World, before: seq<Step>, after: seq<Step>, d: Id)
    requires Initial(w0) && d in Run(w0, before).b.deliveries && Final(Run(w0, before).b.deliveries[d].status)
    ensures var r := Run(w0, before).b.deliveries[d];
            var b := Run(Run(w0, before), after).b;
            && StillFinal(Run(Run(w0, before), after), d, r)
            && (NeverCleans(after) ==> d in b.deliveries && b.deliveries[d] == r)
  {
    EveryReachableWorldIsGood(w0, before);
    FinalRowsStay(Run(w0, before), after, d, Run(w0, before).b.deliveries[d]);
  }

  /** `finish` itself does not look at the status: it leaves every final row alone exactly when the row it is called
      for is not final. Called for a final one, as after a claiming statement that failed, it can revive it. */
  lemma FinishSparesFinalRowsIff(b: Box, id: Id, result: Result, now: int)
    ensures (forall d :: d in b.deliveries && Final(b.deliveries[d].status) ==>
               Finish(b, id, result, now).deliveries[d] == b.deliveries[d])
            <==> !(id in b.deliveries && Final(b.deliveries[id].status))
    ensures id in b.deliveries && b.deliveries[id].attempts < 6 && !result.success && result.retryable ==>
              Finish(b, id, result, now).deliveries[id].status == Pending
  {
    if id in b.deliveries && Final(b.deliveries[id].status) {
      assert Finish(b, id, result, now).deliveries[id].attempts == b.deliveries[id].attempts + 1;
    }
  }

  // ---------------------------------------------------------------- attempts

  /** How many attempts of row `d` finish in a run. */
  ghost function Finishes(w: World, steps: seq<Step>, d: Id): nat {
    if steps == [] then 0 else
      var before, s := steps[..|steps| - 1], steps[|steps| - 1];
      Finishes(w, before, d) + if s.FinishDelivery? && s.id == d && d in Run(w, before).held then 1 else 0
  }

  predicate NeverRetries(steps: seq<Step>, d: Id) {
    forall k :: 0 <= k < |steps| ==> !(steps[k].ManualRetry? && steps[k].id == d)
  }

  ghost predicate AttemptsCount(w: World, d: Id, n: nat) {
    if d in w.b.deliveries then n <= w.b.deliveries[d].attempts
    else n <= 7 && (n == 0 || d < w.b.nextDelivery)
  }

  lemma StepCounts(w: World, s: Step, d: Id, n: nat)
    requires Inv(w) && AttemptsCount(w, d, n) && !(s.ManualRetry? && s.id == d)
    ensures AttemptsCount(Apply(w, s), d, n + if s.FinishDelivery? && s.id == d && d in w.held then 1 else 0)
  {
    hide Coherent, OneInProgress, AtMostTwoLive, AttemptsWereClaimed, ResolutionsOk, KnownIncidents,
         PhasesFollowTheLog, FiringAlertsHaveEvents, Evaluate, EnqueueIncident, EnqueueResolution, Remind, Reconcile;
    EveryStepIsABoxStep(w, s);
    var w' := Apply(w, s);
    assert d in w.held ==> d in w.b.deliveries;
    if d in w.b.deliveries {
      assert RowOk(w.b.deliveries[d]);
      if d in w'.b.deliveries { assert RowStep(w, s, d, w.b.deliveries[d], w'.b.deliveries[d]); }
    }
  }

  lemma {:induction false} FinishesAreCounted(w: World, steps: seq<Step>, d: Id)
    requires Inv(w) && NeverRetries(steps, d)
    ensures Inv(Run(w, steps)) && AttemptsCount(Run(w, steps), d, Finishes(w, steps, d))
  {
    if steps != [] {
      var before, s := steps[..|steps| - 1], steps[|steps| - 1];
      FinishesAreCounted(w, before, d);
      StepKeepsInv(Run(w, before), s);
      StepCounts(Run(w, before), s, d, Finishes(w, before, d));
    }
  }

  /** Between manual retries, whatever else happens, at most seven attempts of a delivery finish. */
  lemma AtMostSevenAttempts(w0: World, before: seq<Step>, steps: seq<Step>, d: Id)
    requires Initial(w0) && NeverRetries(steps, d)
    ensures Finishes(Run(w0, before), steps, d) <= 7
  {
    EveryReachableWorldIsGood(w0, before);
    FinishesAreCounted(Run(w0, before), steps, d);
    var w := Run(Run(w0, before), steps);
    if d in w.b.deliveries { assert RowOk(w.b.deliveries[d]); }
  }

  /** The n-th failed attempt schedules the next one after one, five or fifteen minutes, one, four or twelve hours, or
      the server's Retry-After if that is longer; the seventh, or one that is not retryable, ends the delivery, and so
      does a success. */
  lemma FailureSchedulesTheNextAttempt(r: Delivery, result: Result, now: int)
    requires r.status == InProgress && RowOk(r)
    ensures var n, r' := r.attempts + 1, FinishRow(r, result, now);
            var minutes := [1, 5, 15, 60, 240, 720];
            if result.success then
              r' == r.(status := Succeeded, attempts := n, completedAt := Some(Unix(now)), nextAttempt := None)
            else if result.retryable && n <= 6 then
              var wait := Max(minutes[n - 1] * 60 * SECOND, Backoff.ParseRetryAfter(result.retryAfter));
              r' == r.(status := Pending, attempts := n, startedAt := None, nextAttempt := Some(Unix(now + wait)))
            else
              r' == r.(status := PermanentFailure, attempts := n, completedAt := Some(Unix(now)), nextAttempt := None)
  {
    if r.attempts < 6 { Backoff.HeaderNeverShortensBackoff(r.attempts + 1, result.retryAfter); }
  }
}
