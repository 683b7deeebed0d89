/** Nobody is left out: which channels a firing or a reminder reaches, how reminders are spaced, what a start adopts. */
module NotificationGuarantees {
  import opened Options
  import opened Alerting
  import opened Outbox
  import opened Pipeline
  import Guarantees
  import Lifecycle

  // ---------------------------------------------------------------- every channel that wants to know is told

  /** Channel `c` is in use and wants to hear of incidents of this severity. */
  predicate Wants(b: Box, c: Id, severity: Severity) {
    && c in b.channels && b.channels[c].enabled && !b.channels[c].deleted
    && (b.channels[c].minimum == Critical ==> severity == Critical)
  }

  /** Of the rows of channel `c` only `d` changed, and only in when it is due. */
  ghost predicate Refreshed(b: Box, b': Box, c: Id, d: Id, due: int) {
    forall e :: (OnChannel(b, e, c) <==> OnChannel(b', e, c))
                && (OnChannel(b, e, c) ==>
                      b'.deliveries[e] == if e == d then b.deliveries[e].(nextAttempt := Some(Unix(due)))
                                          else b.deliveries[e])
  }

  ghost predicate IsFirst(b: Box, d: Id, i: Id, c: Id) {
    Pends(b, d, i, c) && forall e :: Pends(b, e, i, c) ==> b.deliveries[d].createdAt <= b.deliveries[e].createdAt
  }

  /** Channel `c` has got one new row and its others are unchanged. */
  ghost predicate Appended(b: Box, b': Box, c: Id, row: Delivery) {
    && Gains(b, b', c, row)
    && forall d :: OnChannel(b, d, c) ==> OnChannel(b', d, c) && b'.deliveries[d] == b.deliveries[d]
  }

  /** Channel `c` will be told of incident `i` at `due`: by the oldest row that still has to tell of it, if there is one
      and this is no reminder, else by a new row for this very event; nothing else on the channel changes. */
  ghost predicate Heard(b: Box, b': Box, i: Id, c: Id, event: Event, due: int, clock: int) {
    if event in {Opening, Update} && exists d :: Pends(b, d, i, c)
    then exists d :: IsFirst(b, d, i, c) && Refreshed(b, b', c, d, due)
    else Appended(b, b', c, Delivery(c, Some(i), event, Pending, 0, Some(Unix(due)), None, None, Unix(clock)))
  }

  lemma UpsertIsHeard(b: Box, i: Id, c: Id, event: Event, due: int, clock: int)
    requires RowsOk(b)
    ensures Heard(b, Upsert(b, i, c, event, due, clock), i, c, event, due, clock)
  {
    var b' := Upsert(b, i, c, event, due, clock);
    var found := OldestWaiting(b, i, c);
    TriedMeansAttempted(b, i, c);
    if Coalesces(event) && found.Some? {
      assert IsFirst(b, found.value, i, c) && Refreshed(b, b', c, found.value, due);
    } else {
      assert OnChannel(b', b.nextDelivery, c);
    }
  }

  lemma HeardThenLeft(b: Box, b1: Box, b2: Box, i: Id, c: Id, event: Event, due: int, clock: int)
    requires Heard(b, b1, i, c, event, due, clock) && SameChannel(b1, b2, c)
    ensures Heard(b, b2, i, c, event, due, clock)
  {
    if event in {Opening, Update} && exists d :: Pends(b, d, i, c) {
      var d :| IsFirst(b, d, i, c) && Refreshed(b, b1, c, d, due);
      assert Refreshed(b, b2, c, d, due);
    }
  }

  lemma LeftThenHeard(b: Box, b1: Box, b2: Box, i: Id, c: Id, event: Event, due: int, clock: int)
    requires SameChannel(b, b1, c) && b.nextDelivery <= b1.nextDelivery && Heard(b1, b2, i, c, event, due, clock)
    ensures Heard(b, b2, i, c, event, due, clock)
  {
    assert forall d :: Pends(b, d, i, c) <==> Pends(b1, d, i, c);
    if event in {Opening, Update} && exists d :: Pends(b, d, i, c) {
      var d :| IsFirst(b1, d, i, c) && Refreshed(b1, b2, c, d, due);
      assert IsFirst(b, d, i, c) && Refreshed(b, b2, c, d, due);
    }
  }

  /** Of the channels listed, exactly those that want incidents of this severity hear of it. */
  lemma {:induction false} EnqueueIsHeard(b: Box, order: seq<Id>, i: Id, event: Event, severity: Severity, due: int,
                                          clock: int, c: Id)
    requires RowsOk(b) && event != Resolution
    requires forall x :: x in order ==> x in b.channels && b.channels[x].enabled && !b.channels[x].deleted
    requires forall k, l :: 0 <= k < l < |order| ==> order[k] != order[l]
    ensures var b' := EnqueueIncident(b, order, i, event, severity, due, clock);
            if c in order && Wants(b, c, severity) then Heard(b, b', i, c, event, due, clock) else SameChannel(b, b', c)
    decreases |order|
  {
    hide Upsert, RowsOk, Heard, SameChannel;
    if order == [] {
      SameChannelAlways(b, c);
    } else {
      var c0, rest := order[0], order[1..];
      var b' := if Accepts(b, i, c0, event, severity) then Upsert(b, i, c0, event, due, clock) else b;
      UpsertKeepsRows(b, i, c0, event, due, clock);
      EnqueueIsHeard(b', rest, i, event, severity, due, clock, c);
      var b'' := EnqueueIncident(b', rest, i, event, severity, due, clock);
      if c == c0 {
        UpsertIsHeard(b, i, c, event, due, clock);
        if Wants(b, c, severity) { HeardThenLeft(b, b', b'', i, c, event, due, clock); }
      } else {
        UpsertAside(b, i, c0, event, due, clock, c);
        SameChannelAlways(b, c);
        if c in order && Wants(b, c, severity) { LeftThenHeard(b, b', b'', i, c, event, due, clock); }
        else { SameChannelOn(b, b', b'', c); }
      }
    }
  }

  lemma UpsertAside(b: Box, i: Id, c: Id, event: Event, due: int, clock: int, other: Id)
    requires RowsOk(b) && other != c
    ensures SameChannel(b, Upsert(b, i, c, event, due, clock), other)
    ensures b.nextDelivery <= Upsert(b, i, c, event, due, clock).nextDelivery
  {
    UpsertLeavesOtherChannels(b, i, c, event, due, clock, other);
  }

  /** After a committed evaluation that triggers, each channel in use that wants incidents of the resulting severity
      hears of its incident fifteen seconds later, as opened if it is new and as updated if not; no row of any other
      channel changes. A critical alert reaches every channel in use. */
  lemma FiringsReachEveryChannel(w: World, s: Step, c: Id)
    requires Inv(w) && s.Evaluation? && Apply(w, s) != w
    requires var r := Evaluate(w.t, s.e, s.interval); r.Committed? && r.effect.Notify?
    ensures var r, b' := Evaluate(w.t, s.e, s.interval), Apply(w, s).b;
            var i := r.effect.incident;
            && i in r.tables.incidents && FiringMember(r.tables, w.t.nextAlert, i)
            && Raised(w.t, r.tables, s.e) && Included(w.t, r.tables, s.e, i, s.interval)
            && var severity := r.tables.incidents[i].severity;
               && (s.e.severity == Critical ==> severity == Critical)
               && if Wants(w.b, c, severity)
                  then Heard(w.b, b', i, c, if i in w.t.incidents then Update else Opening,
                             s.e.seen.now + 15 * SECOND, s.clock)
                  else SameChannel(w.b, b', c)
  {
    hide Trigger, Resolve, EnqueueIncident, Lifecycle.Advance, WithPhase, Raised, Included, Coherent, Heard,
         SameChannel;
    NotifyMeansTrigger(w.t, s.e, s.interval);
    InvIsCoherentAndOk(w);
    TriggerKeepsCoherence(w.t, s.e, s.interval);
    var effect := Evaluate(w.t, s.e, s.interval).effect;
    EnqueueIsHeard(w.b, s.order, effect.incident, if effect.isNew then Opening else Update, effect.severity,
                   s.e.seen.now + COALESCING_DELAY, s.clock, c);
  }

  lemma InvIsCoherentAndOk(w: World)
    requires Inv(w)
    ensures Coherent(w.t) && RowsOk(w.b)
  {
  }

  lemma NotifyMeansTrigger(t: Tables, e: Alerting.Evaluation, interval: int)
    requires var r := Evaluate(t, e, interval); r.Committed? && r.effect.Notify?
    ensures Lifecycle.Advance(e.seen, Stored(t, DedupKey(e))).triggered
    ensures Evaluate(t, e, interval) == Trigger(WithPhase(t, e), e, interval)
  {
    hide Trigger, Lifecycle.Advance, WithPhase;
  }

  // ---------------------------------------------------------------- every incident that is due is reminded of

  /** The pair has got one new row and its others are unchanged. */
  ghost predicate PairGains(b: Box, b': Box, i: Id, c: Id, row: Delivery) {
    exists n :: && b.nextDelivery <= n && Concerns(b', n, i, c) && b'.deliveries[n] == row
                && forall d :: d != n ==> (Concerns(b, d, i, c) <==> Concerns(b', d, i, c))
                                          && (Concerns(b, d, i, c) ==> b'.deliveries[d] == b.deliveries[d])
  }

  function ReminderRow(i: Id, c: Id, now: int, clock: int): Delivery {
    Delivery(c, Some(i), Reminder, Pending, 0, Some(Unix(now)), None, None, Unix(clock))
  }

  lemma HeardIsGained(b: Box, b': Box, i: Id, c: Id, now: int, clock: int)
    requires Heard(b, b', i, c, Reminder, now, clock)
    ensures PairGains(b, b', i, c, ReminderRow(i, c, now, clock))
  {
    var row := ReminderRow(i, c, now, clock);
    assert Gains(b, b', c, row);
    var n :| b.nextDelivery <= n && OnChannel(b', n, c) && b'.deliveries[n] == row
             && forall d :: OnChannel(b', d, c) && d != n ==> OnChannel(b, d, c);
    assert Concerns(b', n, i, c);
    assert forall d :: Concerns(b, d, i, c) ==> OnChannel(b, d, c);
    assert forall d :: Concerns(b', d, i, c) ==> OnChannel(b', d, c);
  }

  lemma GainedThenLeft(b: Box, b1: Box, b2: Box, i: Id, c: Id, row: Delivery)
    requires PairGains(b, b1, i, c, row) && SamePair(b1, b2, i, c)
    ensures PairGains(b, b2, i, c, row)
  {
  }

  lemma LeftThenGained(b: Box, b1: Box, b2: Box, i: Id, c: Id, row: Delivery)
    requires SamePair(b, b1, i, c) && b.nextDelivery <= b1.nextDelivery && PairGains(b1, b2, i, c, row)
    ensures PairGains(b, b2, i, c, row)
  {
  }

  lemma SamePairAlways(b: Box, i: Id, c: Id)
    ensures SamePair(b, b, i, c)
  {
  }

  lemma SamePairOn(b: Box, b1: Box, b2: Box, i: Id, c: Id)
    requires SamePair(b, b1, i, c) && SamePair(b1, b2, i, c)
    ensures SamePair(b, b2, i, c)
  {
  }

  lemma {:induction false} EnqueueLeavesOtherIncidents(b: Box, order: seq<Id>, j: Id, event: Event,
                                                       severity: Severity, due: int, clock: int, i: Id, c: Id)
    requires RowsOk(b) && i != j && forall x :: x in order ==> x in b.channels
    ensures SamePair(b, EnqueueIncident(b, order, j, event, severity, due, clock), i, c)
    decreases |order|
  {
    if order != [] {
      UpsertLeavesBusyAlone(b, j, order[0], event, due, clock);
      var b' := if Accepts(b, j, order[0], event, severity) then Upsert(b, j, order[0], event, due, clock) else b;
      assert SamePair(b, b', i, c);
      EnqueueLeavesOtherIncidents(b', order[1..], j, event, severity, due, clock, i, c);
    }
  }

  lemma {:induction false} EnqueueRowsOk(b: Box, order: seq<Id>, i: Id, event: Event, severity: Severity, due: int,
                                         clock: int)
    requires RowsOk(b) && forall x :: x in order ==> x in b.channels
    ensures var b' := EnqueueIncident(b, order, i, event, severity, due, clock);
            RowsOk(b') && b.nextDelivery <= b'.nextDelivery
    decreases |order|
  {
    if order != [] {
      UpsertLeavesBusyAlone(b, i, order[0], event, due, clock);
      var b' := if Accepts(b, i, order[0], event, severity) then Upsert(b, i, order[0], event, due, clock) else b;
      EnqueueRowsOk(b', order[1..], i, event, severity, due, clock);
    }
  }

  /** What one round of the loop does to a pair. */
  lemma RemindOneTells(w: World, j: Id, order: seq<Id>, now: int, interval: int, clock: int, i: Id, c: Id)
    requires RowsOk(w.b) && j in w.t.incidents && Lists(order, Targets(w.b))
    ensures var w' := RemindOne(w, j, order, now, interval, clock);
            && RowsOk(w'.b) && w.b.nextDelivery <= w'.b.nextDelivery
            && if i == j && Wants(w.b, c, w.t.incidents[j].severity)
               then PairGains(w.b, w'.b, i, c, ReminderRow(i, c, now, clock)) else SamePair(w.b, w'.b, i, c)
  {
    hide RowsOk, Heard, SameChannel, SamePair, PairGains, EnqueueIncident;
    var severity := w.t.incidents[j].severity;
    var b' := Outbox.EnqueueIncident(w.b, order, j, Reminder, severity, now, clock);
    EnqueueRowsOk(w.b, order, j, Reminder, severity, now, clock);
    if i != j {
      EnqueueLeavesOtherIncidents(w.b, order, j, Reminder, severity, now, clock, i, c);
    } else {
      EnqueueIsHeard(w.b, order, j, Reminder, severity, now, clock, c);
      if Wants(w.b, c, severity) { HeardIsGained(w.b, b', i, c, now, clock); }
      else { SameChannelSamePair(w.b, b', i, c); }
    }
  }

  /** A reminder round adds, for each incident listed, a reminder due now on each channel in use that wants it, and
      nothing else. */
  lemma {:induction false} RemindTells(w: World, due: seq<Id>, orders: seq<seq<Id>>, now: int, interval: int,
                                       clock: int, i: Id, c: Id)
    requires RowsOk(w.b) && i in w.t.incidents && forall j :: j in due ==> j in w.t.incidents
    requires forall k, l :: 0 <= k < l < |due| ==> due[k] != due[l]
    requires ListsPer(due, orders, Targets(w.b))
    ensures var b' := Remind(w, due, orders, now, interval, clock).b;
            if i in due && Wants(w.b, c, w.t.incidents[i].severity)
            then PairGains(w.b, b', i, c, ReminderRow(i, c, now, clock)) else SamePair(w.b, b', i, c)
    decreases |due|
  {
    hide RowsOk, SamePair, PairGains;
    if due == [] {
      SamePairAlways(w.b, i, c);
    } else {
      var w' := RemindOne(w, due[0], orders[0], now, interval, clock);
      assert Targets(w'.b) == Targets(w.b);
      RemindOneTells(w, due[0], orders[0], now, interval, clock, i, c);
      RemindTells(w', due[1..], orders[1..], now, interval, clock, i, c);
      RemindedPair(w.b, w'.b, Remind(w', due[1..], orders[1..], now, interval, clock).b, i, c,
                   ReminderRow(i, c, now, clock));
    }
  }

  lemma RemindedPair(b: Box, b1: Box, b2: Box, i: Id, c: Id, row: Delivery)
    requires b.nextDelivery <= b1.nextDelivery
    ensures SamePair(b, b1, i, c) && SamePair(b1, b2, i, c) ==> SamePair(b, b2, i, c)
    ensures PairGains(b, b1, i, c, row) && SamePair(b1, b2, i, c) ==> PairGains(b, b2, i, c, row)
    ensures SamePair(b, b1, i, c) && PairGains(b1, b2, i, c, row) ==> PairGains(b, b2, i, c, row)
  {
    hide SamePair, PairGains;
    if SamePair(b, b1, i, c) && SamePair(b1, b2, i, c) { SamePairOn(b, b1, b2, i, c); }
    if PairGains(b, b1, i, c, row) && SamePair(b1, b2, i, c) { GainedThenLeft(b, b1, b2, i, c, row); }
    if SamePair(b, b1, i, c) && PairGains(b1, b2, i, c, row) { LeftThenGained(b, b1, b2, i, c, row); }
  }

  /** The incident is open and its time has come. */
  predicate IsDue(t: Tables, i: Id, now: int) {
    && i in t.incidents && t.incidents[i].open
    && t.incidents[i].nextReminder.Some? && t.incidents[i].nextReminder.value <= Unix(now)
  }

  /** `ScheduleReminders` reminds of every incident that is due and of no other: its next reminder is an interval away,
      two hours if none is set, and each channel in use that wants it has one new row, due now. */
  lemma RemindersReachEveryChannel(w: World, s: Step, i: Id, c: Id)
    requires Inv(w) && s.Reminders? && i in w.t.incidents
    requires Lists(s.due, DueReminders(w.t, s.now)) && ListsPer(s.due, s.orders, Targets(w.b))
    ensures var w' := Apply(w, s);
            var every := if s.interval <= 0 then 2 * 3600 * SECOND else s.interval;
            && i in w'.t.incidents
            && w'.t.incidents[i] == (if IsDue(w.t, i, s.now)
                                     then w.t.incidents[i].(nextReminder := Some(Unix(s.now + every)))
                                     else w.t.incidents[i])
            && if IsDue(w.t, i, s.now) && Wants(w.b, c, w.t.incidents[i].severity)
               then PairGains(w.b, w'.b, i, c, ReminderRow(i, c, s.now, s.clock)) else SamePair(w.b, w'.b, i, c)
  {
    hide Coherent, OneInProgress, AtMostTwoLive, AttemptsWereClaimed, ResolutionsOk, KnownIncidents,
         PhasesFollowTheLog, FiringAlertsHaveEvents, Remind, SamePair, PairGains;
    assert i in s.due <==> IsDue(w.t, i, s.now);
    assert forall j :: j in s.due ==> j in DueReminders(w.t, s.now);
    RemindTells(w, s.due, s.orders, s.now, Interval(s.interval), s.clock, i, c);
    Guarantees.RemindKeepsAlerts(w, s.due, s.orders, s.now, Interval(s.interval), s.clock);
    if i in s.due { RemindSetsNext(w, s.due, s.orders, s.now, Interval(s.interval), s.clock, i); }
  }

  // ---------------------------------------------------------------- reminders are spaced

  /** Step `s` reminds of incident `i`. */
  ghost predicate Reminds(w: World, s: Step, i: Id) {
    s.Reminders? && Lists(s.due, DueReminders(w.t, s.now)) && ListsPer(s.due, s.orders, Targets(w.b)) && i in s.due
  }

  /** While incident `i` is open, its next reminder is due at `at`. */
  ghost predicate NextAt(t: Tables, i: Id, at: int) {
    i < t.nextIncident && (i in t.incidents && t.incidents[i].open ==> t.incidents[i].nextReminder == Some(at))
  }

  lemma JoinKeepsNext(t: Tables, id: Id, now: int, interval: int, i: Id, at: int)
    requires id in t.alerts && NextAt(t, i, at) && (forall j :: j in t.incidents ==> j < t.nextIncident)
    ensures NextAt(Join(t, id, now, interval).tables, i, at)
    ensures var u := Join(t, id, now, interval).tables; forall j :: j in u.incidents ==> j < u.nextIncident
  {
    hide GroupFor;
  }

  lemma LeaveKeepsNext(t: Tables, id: Id, now: int, i: Id, at: int)
    requires NextAt(t, i, at)
    ensures NextAt(Leave(t, id, now).tables, i, at)
  {
  }

  lemma EvaluationKeepsNext(t: Tables, e: Alerting.Evaluation, interval: int, i: Id, at: int)
    requires References(t) && NextAt(t, i, at) && Evaluate(t, e, interval).Committed?
    ensures NextAt(Evaluate(t, e, interval).tables, i, at)
  {
    hide Join, Leave, LatestFiring, Lifecycle.Advance;
    var w := WithPhase(t, e);
    if Lifecycle.Advance(e.seen, Stored(t, DedupKey(e))).triggered {
      JoinKeepsNext(w.(alerts := w.alerts[w.nextAlert := NewAlert(e)], nextAlert := w.nextAlert + 1), w.nextAlert,
                    e.seen.now, interval, i, at);
    } else if Lifecycle.Advance(e.seen, Stored(t, DedupKey(e))).resolved && LatestFiring(w, DedupKey(e)).Some? {
      var id := LatestFiring(w, DedupKey(e)).value;
      LatestIsAnAlert(w, DedupKey(e));
      LeaveKeepsNext(MarkResolved(w, id, e.seen.now), id, e.seen.now, i, at);
    }
  }

  lemma LatestIsAnAlert(t: Tables, key: string)
    requires LatestFiring(t, key).Some?
    ensures LatestFiring(t, key).value in t.alerts
  {
  }

  lemma AdoptingKeepsNext(t: Tables, id: Id, now: int, interval: int, i: Id, at: int)
    requires id in t.alerts && NextAt(t, i, at) && (forall j :: j in t.incidents ==> j < t.nextIncident)
    ensures var u := ReconcileOne(t, id, now, interval);
            NextAt(u, i, at) && u.alerts == t.alerts && (forall j :: j in u.incidents ==> j < u.nextIncident)
  {
    hide GroupFor;
    JoinKeepsNext(t, id, now, interval, i, at);
  }

  lemma {:induction false} ReconcileKeepsNext(t: Tables, order: seq<Id>, now: int, interval: int, i: Id, at: int)
    requires NextAt(t, i, at) && (forall j :: j in t.incidents ==> j < t.nextIncident)
    requires forall a :: a in order ==> a in t.alerts
    ensures NextAt(Reconcile(t, order, now, interval), i, at)
    decreases |order|
  {
    hide ReconcileOne, NextAt;
    if order != [] {
      AdoptingKeepsNext(t, order[0], now, interval, i, at);
      ReconcileKeepsNext(ReconcileOne(t, order[0], now, interval), order[1..], now, interval, i, at);
    }
  }

  /** Nothing but a reminder moves the next reminder of an open incident. */
  lemma StepKeepsNext(w: World, s: Step, i: Id, at: int)
    requires Inv(w) && NextAt(w.t, i, at) && !Reminds(w, s, i)
    ensures NextAt(Apply(w, s).t, i, at)
  {
    hide Sound, PhasesFollowTheLog, FiringAlertsHaveEvents, Evaluate, Announce, Reconcile, Remind, IncidentRowsAreExact;
    match s
    case Evaluation(e, _, interval, _, _) =>
      if Apply(w, s) != w { EvaluationKeepsNext(w.t, e, interval, i, at); }
    case Reminders(now, interval, clock, due, orders) =>
      if Lists(due, DueReminders(w.t, now)) && ListsPer(due, orders, Targets(w.b)) {
        Guarantees.RemindKeepsAlerts(w, due, orders, now, Interval(interval), clock);
      }
    case Start(now, interval, orphans, _) =>
      if Lists(orphans, Orphans(w.t)) { ReconcileKeepsNext(w.t, orphans, now, interval, i, at); }
    case _ =>
  }

  ghost predicate NoReminderOf(w: World, steps: seq<Step>, i: Id) {
    forall k :: 0 <= k < |steps| ==> !Reminds(Run(w, steps[..k]), steps[k], i)
  }

  lemma {:induction false} RunKeepsNext(w: World, steps: seq<Step>, i: Id, at: int)
    requires Inv(w) && NextAt(w.t, i, at) && NoReminderOf(w, steps, i)
    ensures Inv(Run(w, steps)) && NextAt(Run(w, steps).t, i, at)
  {
    hide Inv, Apply, NextAt, Reminds;
    if steps != [] {
      var n := |steps| - 1;
      assert forall k :: 0 <= k < n ==> steps[..n][..k] == steps[..k];
      assert !Reminds(Run(w, steps[..n]), steps[n], i);
      RunKeepsNext(w, steps[..n], i, at);
      StepKeepsInv(Run(w, steps[..n]), steps[n]);
      StepKeepsNext(Run(w, steps[..n]), steps[n], i, at);
    }
  }

  lemma {:induction false} RemindSetsNext(w: World, due: seq<Id>, orders: seq<seq<Id>>, now: int, interval: int,
                                          clock: int, i: Id)
    requires i in due && forall j :: j in due ==> j in w.t.incidents
    requires forall k, l :: 0 <= k < l < |due| ==> due[k] != due[l]
    requires ListsPer(due, orders, Targets(w.b))
    ensures var t := Remind(w, due, orders, now, interval, clock).t;
            i in t.incidents && t.incidents[i] == w.t.incidents[i].(nextReminder := Some(Unix(now + interval)))
    decreases |due|
  {
    var w' := RemindOne(w, due[0], orders[0], now, interval, clock);
    assert Targets(w'.b) == Targets(w.b);
    if i == due[0] {
      Guarantees.RemindKeepsAlerts(w', due[1..], orders[1..], now, interval, clock);
    } else {
      RemindSetsNext(w', due[1..], orders[1..], now, interval, clock, i);
    }
  }

  /** Over every run, two successive reminders of an incident are apart by more than the interval of the first less
      one second, whatever happens to the incident in between. */
  lemma RemindersAreSpaced(w0: World, before: seq<Step>, first: Step, between: seq<Step>, second: Step, i: Id)
    requires Initial(w0) && Reminds(Run(w0, before), first, i)
    requires var w := Apply(Run(w0, before), first); NoReminderOf(w, between, i) && Reminds(Run(w, between), second, i)
    ensures second.now > first.now + (if first.interval <= 0 then 2 * 3600 * SECOND else first.interval) - SECOND
  {
    hide Inv, Apply, Run, NextAt, NoReminderOf, Unix, Lists, ListsPer, Targets, DueReminders;
    EveryReachableWorldIsGood(w0, before);
    var w := Run(w0, before);
    var v, at := Apply(w, first), Unix(first.now + Interval(first.interval));
    StepKeepsInv(w, first);
    ReminderSetsNext(w, first, i);
    RunKeepsNext(v, between, i, at);
    ReminderIsDue(Run(v, between), second, i, at);
    UnixIsMonotone(first.now + Interval(first.interval), second.now);
  }

  lemma ReminderSetsNext(w: World, s: Step, i: Id)
    requires Inv(w) && Reminds(w, s, i)
    ensures NextAt(Apply(w, s).t, i, Unix(s.now + Interval(s.interval)))
  {
    hide Coherent, Sound, HeldRowsAreInProgress, PhasesFollowTheLog, FiringAlertsHaveEvents, Remind;
    assert forall i :: i in s.due ==> i in DueReminders(w.t, s.now);
    InvBoundsIncidents(w);
    RemindSetsNext(w, s.due, s.orders, s.now, Interval(s.interval), s.clock, i);
    Guarantees.RemindKeepsAlerts(w, s.due, s.orders, s.now, Interval(s.interval), s.clock);
  }

  lemma InvBoundsIncidents(w: World)
    requires Inv(w)
    ensures forall i :: i in w.t.incidents ==> i < w.t.nextIncident
  {
  }

  lemma ReminderIsDue(w: World, s: Step, i: Id, at: int)
    requires Reminds(w, s, i) && NextAt(w.t, i, at)
    ensures at <= Unix(s.now)
  {
    assert i in DueReminders(w.t, s.now);
  }

  /** The first reminder of an incident comes more than the interval less one second after it was opened, by an
      evaluation or by a start. */
  lemma FirstReminderWaits(w0: World, before: seq<Step>, opening: Step, between: seq<Step>, second: Step, i: Id)
    requires Initial(w0) && Opens(Run(w0, before), opening, i)
    requires var w := Apply(Run(w0, before), opening);
             NoReminderOf(w, between, i) && Reminds(Run(w, between), second, i)
    ensures second.now > ClockOf(opening) + opening.interval - SECOND
  {
    hide Inv, Apply, Run, NextAt, NoReminderOf, Unix, Lists, ListsPer, Targets, DueReminders, Evaluate;
    EveryReachableWorldIsGood(w0, before);
    var w := Run(w0, before);
    var v, at := Apply(w, opening), Unix(ClockOf(opening) + opening.interval);
    StepKeepsInv(w, opening);
    if opening.Evaluation? {
      EvaluationSetsNext(w, opening, i);
    } else {
      StartSetsNext(w, opening, i);
    }
    RunKeepsNext(v, between, i, at);
    ReminderIsDue(Run(v, between), second, i, at);
    UnixIsMonotone(ClockOf(opening) + opening.interval, second.now);
  }

  /** Step `s` opens incident `i`. */
  ghost predicate Opens(w: World, s: Step, i: Id) {
    (s.Evaluation? || s.Start?) && i !in w.t.incidents && i in Apply(w, s).t.incidents
  }

  /** The time that an evaluation or a start reads. */
  function ClockOf(s: Step): int
    requires s.Evaluation? || s.Start?
  {
    if s.Evaluation? then s.e.seen.now else s.now
  }

  /** Incidents from `first` on have their first reminder due at `at`. */
  ghost predicate NewAt(t: Tables, first: Id, at: int) {
    && first <= t.nextIncident && (forall i :: i in t.incidents ==> i < t.nextIncident)
    && (forall i :: i in t.incidents && first <= i ==> t.incidents[i].nextReminder == Some(at))
  }

  lemma JoinSetsNew(t: Tables, id: Id, now: int, interval: int, first: Id)
    requires id in t.alerts && NewAt(t, first, Unix(now + interval))
    ensures NewAt(Join(t, id, now, interval).tables, first, Unix(now + interval))
  {
    hide GroupFor;
  }

  lemma LeaveAddsNone(t: Tables, id: Id, now: int)
    ensures Leave(t, id, now).tables.incidents.Keys == t.incidents.Keys
  {
  }

  lemma EvaluationSetsNext(w: World, s: Step, i: Id)
    requires Inv(w) && s.Evaluation? && Opens(w, s, i)
    ensures NextAt(Apply(w, s).t, i, Unix(s.e.seen.now + s.interval))
  {
    hide Join, Leave, LatestFiring, Lifecycle.Advance, Announce, Sound, PhasesFollowTheLog;
    var t, at := WithPhase(w.t, s.e), Unix(s.e.seen.now + s.interval);
    InvBoundsIncidents(w);
    if Lifecycle.Advance(s.e.seen, Stored(w.t, DedupKey(s.e))).triggered {
      var inserted := t.(alerts := t.alerts[t.nextAlert := NewAlert(s.e)], nextAlert := t.nextAlert + 1);
      JoinSetsNew(inserted, t.nextAlert, s.e.seen.now, s.interval, t.nextIncident);
      JoinIsNew(inserted, t.nextAlert, s.e.seen.now, s.interval, i);
    } else if Lifecycle.Advance(s.e.seen, Stored(w.t, DedupKey(s.e))).resolved
              && LatestFiring(t, DedupKey(s.e)).Some? {
      var id := LatestFiring(t, DedupKey(s.e)).value;
      LatestIsAnAlert(t, DedupKey(s.e));
      LeaveAddsNone(MarkResolved(t, id, s.e.seen.now), id, s.e.seen.now);
    }
  }

  /** The incidents that joining or reconciling adds are new. */
  lemma JoinIsNew(t: Tables, id: Id, now: int, interval: int, i: Id)
    requires id in t.alerts && i !in t.incidents && i in Join(t, id, now, interval).tables.incidents
    ensures t.nextIncident <= i
  {
    hide GroupFor;
  }

  lemma AdoptingSetsNew(t: Tables, id: Id, now: int, interval: int, first: Id)
    requires id in t.alerts && NewAt(t, first, Unix(now + interval))
    ensures var u := ReconcileOne(t, id, now, interval);
            NewAt(u, first, Unix(now + interval)) && u.alerts == t.alerts
            && forall i :: i in u.incidents ==> i in t.incidents || t.nextIncident <= i
  {
    hide GroupFor;
    JoinSetsNew(t, id, now, interval, first);
  }

  lemma {:induction false} ReconcileSetsNew(t: Tables, order: seq<Id>, now: int, interval: int, first: Id)
    requires NewAt(t, first, Unix(now + interval)) && forall a :: a in order ==> a in t.alerts
    ensures var u := Reconcile(t, order, now, interval);
            NewAt(u, first, Unix(now + interval)) && forall i :: i in u.incidents ==> i in t.incidents || first <= i
    decreases |order|
  {
    hide ReconcileOne;
    if order != [] {
      AdoptingSetsNew(t, order[0], now, interval, first);
      ReconcileSetsNew(ReconcileOne(t, order[0], now, interval), order[1..], now, interval, first);
    }
  }

  lemma StartSetsNext(w: World, s: Step, i: Id)
    requires Inv(w) && s.Start? && Opens(w, s, i)
    ensures NextAt(Apply(w, s).t, i, Unix(s.now + s.interval))
  {
    hide Reconcile, Coherent, Sound, PhasesFollowTheLog, FiringAlertsHaveEvents;
    InvBoundsIncidents(w);
    assert Lists(s.orphans, Orphans(w.t));
    ReconcileSetsNew(w.t, s.orphans, s.now, s.interval, w.t.nextIncident);
  }

  lemma UnixIsMonotone(a: int, b: int)
    requires Unix(a) <= Unix(b)
    ensures b > a - SECOND
  {
  }

  // ---------------------------------------------------------------- what a start adopts

  /** An incident holds alert `a` and is not younger than it. */
  ghost predicate HeldSince(t: Tables, a: Id) {
    && a in t.members && a in t.alerts && t.members[a].incident in t.incidents
    && t.incidents[t.members[a].incident].openedAt <= t.alerts[a].startedAt
  }

  lemma AdoptingKeepsHeld(t: Tables, id: Id, now: int, interval: int, a: Id)
    requires References(t) && id in t.alerts && id !in t.members && HeldSince(t, a)
    ensures HeldSince(ReconcileOne(t, id, now, interval), a)
  {
    hide GroupFor;
  }

  lemma AdoptedIsHeld(t: Tables, id: Id, now: int, interval: int)
    requires References(t) && id in t.alerts && id !in t.members
    ensures HeldSince(ReconcileOne(t, id, now, interval), id)
  {
    hide GroupFor;
  }

  /** After a start has reconciled, every alert it adopted is in an incident that opened no later than the alert. */
  lemma {:induction false} AdoptedIncidentsAreBackdated(t: Tables, order: seq<Id>, now: int, interval: int, a: Id)
    requires Coherent(t)
    requires forall x :: x in order ==> x in t.alerts && t.alerts[x].firing && x !in t.members
    requires forall k, l :: 0 <= k < l < |order| ==> order[k] != order[l]
    requires a in order || HeldSince(t, a)
    ensures HeldSince(Reconcile(t, order, now, interval), a)
    decreases |order|
  {
    hide ReconcileOne, HeldSince, OneAlertPerActiveKey, FiringMembersAreInOpenIncidents, IncidentRowsAreExact,
         OneOpenIncidentPerGroup;
    if order != [] {
      var u := ReconcileOne(t, order[0], now, interval);
      ReconcileOneKeepsCoherence(t, order[0], now, interval);
      if a == order[0] {
        AdoptedIsHeld(t, a, now, interval);
      } else if a !in order[1..] {
        assert order == [order[0]] + order[1..];
        AdoptingKeepsHeld(t, order[0], now, interval, a);
      }
      assert forall x :: x in order[1..] ==> x != order[0];
      AdoptedIncidentsAreBackdated(u, order[1..], now, interval, a);
    }
  }

  /** Why incident `i` says that it opened when it does: it said so before, it is new, or it holds an adopted alert that
      started then. */
  ghost predicate OpeningExplained(t: Tables, u: Tables, now: int, i: Id)
    requires i in u.incidents
  {
    || (i in t.incidents && u.incidents[i].openedAt == t.incidents[i].openedAt)
    || (i !in t.incidents && u.incidents[i].openedAt == Unix(now))
    || (exists a :: a in u.members && a !in t.members && u.members[a].incident == i
                    && a in t.alerts && u.incidents[i].openedAt == t.alerts[a].startedAt)
  }

  lemma AdoptingExplains(t: Tables, id: Id, now: int, interval: int, i: Id)
    requires References(t) && id in t.alerts && id !in t.members
    requires i in ReconcileOne(t, id, now, interval).incidents
    ensures OpeningExplained(t, ReconcileOne(t, id, now, interval), now, i)
  {
    hide GroupFor;
  }

  lemma AdoptingKeepsMembers(t: Tables, id: Id, now: int, interval: int)
    requires id in t.alerts && id !in t.members
    ensures var u := ReconcileOne(t, id, now, interval);
            && u.alerts == t.alerts && id in u.members && u.members == t.members[id := u.members[id]]
            && (forall i :: i in t.incidents ==> i in u.incidents)
  {
    hide GroupFor;
  }

  lemma {:induction false} ReconcileKeepsMembers(t: Tables, order: seq<Id>, now: int, interval: int)
    requires forall x :: x in order ==> x in t.alerts && x !in t.members
    requires forall k, l :: 0 <= k < l < |order| ==> order[k] != order[l]
    ensures var u := Reconcile(t, order, now, interval);
            forall a :: a in t.members ==> a in u.members && u.members[a] == t.members[a]
    decreases |order|
  {
    hide ReconcileOne;
    if order != [] {
      AdoptingKeepsMembers(t, order[0], now, interval);
      assert forall x :: x in order[1..] ==> x in order && x != order[0];
      ReconcileKeepsMembers(ReconcileOne(t, order[0], now, interval), order[1..], now, interval);
    }
  }

  lemma ExplainedOn(t: Tables, u: Tables, v: Tables, now: int, i: Id)
    requires u.alerts == t.alerts && (forall a :: a in t.members ==> a in u.members)
    requires forall a :: a in u.members ==> a in v.members && v.members[a] == u.members[a]
    requires forall j :: j in t.incidents ==> j in u.incidents
    requires i in v.incidents && OpeningExplained(u, v, now, i)
    requires i in u.incidents ==> OpeningExplained(t, u, now, i)
    ensures OpeningExplained(t, v, now, i)
  {
  }

  /** Reconciliation backdates no incident beyond what it adopts: each incident opened when it said before, at the
      start, or when an alert began that was adopted into it. */
  lemma {:induction false} BackdatingIsExplained(t: Tables, order: seq<Id>, now: int, interval: int, i: Id)
    requires Coherent(t)
    requires forall x :: x in order ==> x in t.alerts && t.alerts[x].firing && x !in t.members
    requires forall k, l :: 0 <= k < l < |order| ==> order[k] != order[l]
    requires i in Reconcile(t, order, now, interval).incidents
    ensures OpeningExplained(t, Reconcile(t, order, now, interval), now, i)
    decreases |order|
  {
    hide ReconcileOne, OpeningExplained, OneAlertPerActiveKey, FiringMembersAreInOpenIncidents, IncidentRowsAreExact,
         OneOpenIncidentPerGroup;
    if order == [] {
      NothingToExplain(t, now, i);
    } else {
      var u, rest := ReconcileOne(t, order[0], now, interval), order[1..];
      ReconcileOneKeepsCoherence(t, order[0], now, interval);
      AdoptingKeepsMembers(t, order[0], now, interval);
      assert forall x :: x in rest ==> x in order && x != order[0];
      BackdatingIsExplained(u, rest, now, interval, i);
      ReconcileKeepsMembers(u, rest, now, interval);
      if i in u.incidents { AdoptingExplains(t, order[0], now, interval, i); }
      ExplainedOn(t, u, Reconcile(u, rest, now, interval), now, i);
    }
  }

  lemma NothingToExplain(t: Tables, now: int, i: Id)
    requires i in t.incidents
    ensures OpeningExplained(t, t, now, i)
  {
  }
}
