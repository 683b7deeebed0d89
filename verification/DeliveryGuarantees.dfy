/** What the pipeline guarantees about deliveries over every run. */
module DeliveryGuarantees {
  import opened Options
  import opened Alerting
  import opened Outbox
  import opened Pipeline
  import Guarantees

  // ---------------------------------------------------------------- exclusion

  predicate NeverRetriedByHand(steps: seq<Step>) {
    forall k :: 0 <= k < |steps| ==> !steps[k].ManualRetry?
  }

  lemma StepRetriesNothing(w: World, s: Step)
    requires !s.ManualRetry?
    ensures Apply(w, s).retried == w.retried
  {
    match s
    case Reminders(now, interval, clock, due, orders) =>
      if Lists(due, DueReminders(w.t, now)) && ListsPer(due, orders, Targets(w.b)) {
        Guarantees.RemindKeepsAlerts(w, due, orders, now, Interval(interval), clock);
      }
    case _ =>
  }

  lemma {:induction false} RetriesNothing(w: World, steps: seq<Step>)
    requires NeverRetriedByHand(steps)
    ensures Run(w, steps).retried == w.retried
  {
    if steps != [] {
      RetriesNothing(w, steps[..|steps| - 1]);
      StepRetriesNothing(Run(w, steps[..|steps| - 1]), steps[|steps| - 1]);
    }
  }

  /** In every interleaving an incident has at most one delivery in progress per channel. At most two of its
      opened/updated rows per channel are live, not counting rows retried by hand; without manual retries,
      at most two in all. */
  lemma DeliveriesAreExclusive(w0: World, steps: seq<Step>, i: Id, c: Id, d: Id, e: Id)
    requires Initial(w0)
    ensures var w := Run(w0, steps);
            && (Busy(w.b, d, i, c) && Busy(w.b, e, i, c) ==> d == e)
            && |Live(w.b, i, c) - w.retried| <= 2
            && (NeverRetriedByHand(steps) ==> |Live(w.b, i, c)| <= 2)
  {
    EveryReachableWorldIsGood(w0, steps);
    var w := Run(w0, steps);
    if NeverRetriedByHand(steps) {
      RetriesNothing(w0, steps);
      assert Live(w.b, i, c) - {} == Live(w.b, i, c);
    }
  }

  /** Every pending row has a next attempt, every finished one a completion time, and no row has
      been attempted more than seven times since it was inserted or last retried by hand. */
  lemma RowsAreWellFormed(w0: World, steps: seq<Step>, d: Id)
    requires Initial(w0) && d in Run(w0, steps).b.deliveries
    ensures var r := Run(w0, steps).b.deliveries[d];
            && (r.status == Pending ==> r.nextAttempt.Some? && r.completedAt == None && r.attempts <= 6)
            && (Terminal(r.status) ==> r.nextAttempt == None && r.completedAt.Some?)
            && r.attempts <= 7
  {
    EveryReachableWorldIsGood(w0, steps);
    assert RowOk(Run(w0, steps).b.deliveries[d]);
  }
}
