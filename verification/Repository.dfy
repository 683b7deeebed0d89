/**
 internal/notifications/repository.go as the program it is: statements that change rows in place and loops over the
 rows of queries. Each method is proved to do what the corresponding function of `Alerting` or `Outbox` says; the
 out-parameters list the rows that its queries returned.
 */
module Repository {
  import opened Options
  import opened Alerting
  import opened Outbox
  import opened Database
  import P = Pipeline

  /** The deliveries counted before a resolution goes to a critical-only channel, and before a resolution at all. */
  function Uncancelled(b: Box, i: Id, c: Id): set<Id> {
    set d | d in b.deliveries && Concerns(b, d, i, c) && b.deliveries[d].status != Cancelled
  }

  function Attempts(b: Box, i: Id, c: Id): set<Id> {
    set d | d in b.deliveries && Concerns(b, d, i, c) && Attempted(b.deliveries[d])
  }

  lemma DeliveriesAreCounted(b: Box, i: Id, c: Id)
    ensures Uncancelled(b, i, c) == {} <==> !AnyUncancelled(b, i, c)
    ensures Attempts(b, i, c) == {} <==> !AnyAttempt(b, i, c)
  {
    if d :| Concerns(b, d, i, c) && b.deliveries[d].status != Cancelled { assert d in Uncancelled(b, i, c); }
    if d :| d in Uncancelled(b, i, c) { assert Concerns(b, d, i, c); }
    if d :| Concerns(b, d, i, c) && Attempted(b.deliveries[d]) { assert d in Attempts(b, i, c); }
    if d :| d in Attempts(b, i, c) { assert Concerns(b, d, i, c); }
  }

  function Firing(t: Tables, i: Id): set<Id> { set a | a in t.members && FiringMember(t, a, i) }

  function FiringCritical(t: Tables, i: Id): set<Id> { set a | a in Firing(t, i) && t.alerts[a].severity == Critical }

  lemma MembersAreCounted(t: Tables, i: Id)
    ensures Firing(t, i) != {} <==> HasFiring(t, i)
    ensures FiringCritical(t, i) != {} <==> HasCritical(t, i)
  {
    if a :| FiringMember(t, a, i) { assert a in Firing(t, i); }
    if a :| a in Firing(t, i) { assert FiringMember(t, a, i); }
    if a :| FiringMember(t, a, i) && t.alerts[a].severity == Critical { assert a in FiringCritical(t, i); }
    if a :| a in FiringCritical(t, i) { assert FiringMember(t, a, i); }
  }

  /** Of the rows of `rows` exactly the pending ones of channel `c` are cancelled. */
  ghost predicate Silenced(rows: map<Id, Delivery>, rows': map<Id, Delivery>, c: Id, now: int) {
    && rows'.Keys == rows.Keys
    && forall d :: d in rows ==>
         rows'[d] == if rows[d].channel == c && rows[d].status == Pending
                     then rows[d].(status := Cancelled, completedAt := Some(Unix(now)), nextAttempt := None)
                     else rows[d]
  }

  class Repository {
    const db: Database

    constructor (db: Database)
      ensures this.db == db
    {
      this.db := db;
    }

    /** `upsertDeliveryTx`. */
    method UpsertDelivery(i: Id, c: Id, event: Event, due: int, clock: int)
      modifies db`deliveries, db`nextDelivery
      ensures db.B() == Upsert(old(db.B()), i, c, event, due, clock)
    {
      var b := db.B();
      var found := Smallest(set d | d in Waiting(b, i, c) && IsOldest(b, d, i, c));
      assert found == OldestWaiting(b, i, c);
      if Coalesces(event) && found.Some? {
        var id := found.value;
        db.deliveries := db.deliveries[id := db.deliveries[id].(nextAttempt := Some(Unix(due)))];
      } else {
        db.deliveries := db.deliveries[db.nextDelivery := NewRow(Some(i), c, event, due, clock)];
        db.nextDelivery := db.nextDelivery + 1;
      }
    }

    /** `enqueueIncidentTx`. */
    method EnqueueIncident(i: Id, event: Event, severity: Severity, due: int, clock: int) returns (order: seq<Id>)
      modifies db`deliveries, db`nextDelivery
      ensures Lists(order, Targets(old(db.B())))
      ensures db.B() == Outbox.EnqueueIncident(old(db.B()), order, i, event, severity, due, clock)
    {
      order := List(Targets(db.B()));
      for k := 0 to |order|
        invariant forall c :: c in order[k..] ==> c in db.channels
        invariant Outbox.EnqueueIncident(db.B(), order[k..], i, event, severity, due, clock)
                  == Outbox.EnqueueIncident(old(db.B()), order, i, event, severity, due, clock)
      {
        var c := order[k];
        assert order[k..][0] == c && order[k..][1..] == order[k + 1..];
        DeliveriesAreCounted(db.B(), i, c);
        if db.channels[c].minimum == Critical && severity != Critical {
          if event != Resolution || |Uncancelled(db.B(), i, c)| == 0 {
            continue;
          }
        }
        if event == Resolution && !db.channels[c].notifyResolved {
          continue;
        }
        UpsertDelivery(i, c, event, due, clock);
      }
    }

    /** `enqueueResolutionTx`. */
    method EnqueueResolution(i: Id, now: int, clock: int) returns (order: seq<Id>)
      modifies db`deliveries, db`nextDelivery
      ensures Lists(order, ResolutionTargets(old(db.B())))
      ensures db.B() == Outbox.EnqueueResolution(old(db.B()), order, i, now, clock)
      ensures RowsOk(old(db.B())) ==>
        forall c :: if c in db.channels && db.channels[c].enabled && !db.channels[c].deleted
                       && db.channels[c].notifyResolved
                    then Settled(old(db.B()), db.B(), i, c, now, clock)
                    else SameChannel(old(db.B()), db.B(), c)
    {
      order := List(ResolutionTargets(db.B()));
      for k := 0 to |order|
        invariant Outbox.EnqueueResolution(db.B(), order[k..], i, now, clock)
                  == Outbox.EnqueueResolution(old(db.B()), order, i, now, clock)
      {
        var c, b := order[k], db.B();
        assert order[k..][0] == c && order[k..][1..] == order[k + 1..];
        DeliveriesAreCounted(b, i, c);
        if |Attempts(b, i, c)| == 0 {
          db.deliveries := Cancel(b, Untried(b, i, c), now).deliveries;
          continue;
        }
        db.deliveries := Cancel(b, Waiting(b, i, c), now).deliveries;
        UpsertDelivery(i, c, Resolution, now, clock);
      }
      if RowsOk(old(db.B())) { AllChannelsSettle(old(db.B()), order, i, now, clock); }
    }

    /** `alertFiredTx` without its notification. The membership's UNIQUE column refuses an alert that has one. */
    method JoinIncident(id: Id, now: int, interval: int) returns (ok: bool, incident: Id, isNew: bool,
                        severity: Severity)
      requires id in db.alerts
      modifies db`incidents, db`members, db`nextIncident
      ensures ok <==> id !in old(db.members)
      ensures ok ==> Joined(db.T(), incident, isNew, severity) == Join(old(db.T()), id, now, interval)
    {
      var alert, t := db.alerts[id], db.T();
      var group := GroupFor(alert);
      var found := Smallest(set i | i in t.incidents && t.incidents[i].open && t.incidents[i].group == group.key);
      assert found == OpenIncident(t, group.key);
      isNew := found == None;
      if isNew {
        incident, severity := db.nextIncident, alert.severity;
        var row := Incident(group.key, true, severity, group.targetType, group.targetId, Unix(now), None, 1,
                            Some(Unix(now + interval)));
        db.incidents, db.nextIncident := db.incidents[incident := row], incident + 1;
      } else {
        incident := found.value;
        var row := db.incidents[incident];
        severity := row.severity;
        if severity == Warning && alert.severity == Critical {
          severity := Critical;
        }
        db.incidents := db.incidents[incident := row.(severity := severity, version := row.version + 1)];
      }
      ok := id !in db.members;
      if ok {
        db.members := db.members[id := Member(incident, Unix(now), None)];
      }
    }

    /** `AlertFiredTx`. */
    method AlertFired(id: Id, now: int, interval: int, clock: int)
      returns (ok: bool, incident: Id, isNew: bool, severity: Severity, order: seq<Id>)
      requires id in db.alerts
      modifies db`incidents, db`members, db`nextIncident, db`deliveries, db`nextDelivery
      ensures ok <==> id !in old(db.members)
      ensures ok ==>
        && Joined(db.T(), incident, isNew, severity) == Join(old(db.T()), id, now, interval)
        && Lists(order, Targets(old(db.B())))
        && db.B() == P.Announce(old(db.B()), Notify(incident, isNew, severity), now, clock, order)
    {
      order := [];
      ok, incident, isNew, severity := JoinIncident(id, now, interval);
      if ok {
        var event := if isNew then Opening else Update;
        order := EnqueueIncident(incident, event, severity, now + P.COALESCING_DELAY, clock);
      }
    }

    /** `AlertResolvedTx`. */
    method AlertResolved(id: Id, now: int, clock: int) returns (closed: Option<Id>, order: seq<Id>)
      modifies db`incidents, db`members, db`deliveries, db`nextDelivery
      ensures Left(db.T(), closed) == Leave(old(db.T()), id, now)
      ensures if closed == None then db.B() == old(db.B())
              else Lists(order, ResolutionTargets(old(db.B())))
                   && db.B() == P.Announce(old(db.B()), Close(closed.value), now, clock, order)
    {
      hide Settled, SameChannel, RowsOk, Outbox.EnqueueResolution, Lists;
      closed, order := None, [];
      if id !in db.members || db.members[id].incident !in db.incidents {
        return;
      }
      var i := db.members[id].incident;
      if db.members[id].resolvedAt == None {
        db.members := db.members[id := db.members[id].(resolvedAt := Some(Unix(now)))];
      }
      var t := db.T();
      assert t.members == old(db.members)[id := t.members[id]];
      var row := db.incidents[i];
      MembersAreCounted(t, i);
      if |Firing(t, i)| > 0 {
        var severity := if FiringCritical(t, i) != {} then Critical else Warning;
        db.incidents := db.incidents[i := row.(severity := severity, version := row.version + 1)];
        return;
      }
      db.incidents := db.incidents[i := row.(open := false, resolvedAt := Some(Unix(now)), nextReminder := None,
                                             version := row.version + 1)];
      closed := Some(i);
      order := EnqueueResolution(i, now, clock);
    }

    /** One round of the loop in `Reconcile`. */
    method Adopt(id: Id, now: int, interval: int)
      requires id in db.alerts && id !in db.members
      modifies db`incidents, db`members, db`nextIncident
      ensures db.T() == ReconcileOne(old(db.T()), id, now, interval) && db.members.Keys == old(db.members).Keys + {id}
    {
      var ok, incident, isNew, severity := JoinIncident(id, now, interval);
      if db.alerts[id].startedAt < db.incidents[incident].openedAt {
        db.incidents := db.incidents[incident := db.incidents[incident].(openedAt := db.alerts[id].startedAt)];
      }
    }

    /** `Reconcile`. */
    method Reconcile(now: int, interval: int) returns (orphans: seq<Id>)
      modifies db`incidents, db`members, db`nextIncident
      ensures Lists(orphans, Orphans(old(db.T()))) && db.T() == Alerting.Reconcile(old(db.T()), orphans, now, interval)
    {
      var t := db.T();
      orphans := List(set a | a in t.alerts && t.alerts[a].firing && a !in t.members);
      assert Lists(orphans, Orphans(t));
      hide ReconcileOne, Alerting.Reconcile, Lists, Orphans;
      OrphansAreListed(t, orphans);
      for k := 0 to |orphans|
        invariant forall j :: k <= j < |orphans| ==> orphans[j] in db.alerts && orphans[j] !in db.members
        invariant Alerting.Reconcile(db.T(), orphans[k..], now, interval)
                  == Alerting.Reconcile(t, orphans, now, interval)
      {
        ReconcileFirst(db.T(), orphans, k, now, interval);
        Adopt(orphans[k], now, interval);
      }
      ReconcileNone(db.T(), orphans[|orphans|..], now, interval);
    }

    /** One round of the loop in `ScheduleReminders`. The world stands for what reminders do not touch. */
    method RemindOf(i: Id, now: int, every: int, clock: int, ghost w: P.World) returns (order: seq<Id>)
      requires w.t == db.T() && w.b == db.B() && i in db.incidents
      modifies db`incidents, db`deliveries, db`nextDelivery
      ensures Lists(order, Targets(w.b))
      ensures w.(t := db.T(), b := db.B()) == P.RemindOne(w, i, order, now, every, clock)
    {
      var severity := db.incidents[i].severity;
      db.incidents := db.incidents[i := db.incidents[i].(nextReminder := Some(Unix(now + every)))];
      order := EnqueueIncident(i, Reminder, severity, now, clock);
    }

    /** `ScheduleReminders`. */
    method ScheduleReminders(now: int, interval: int, clock: int, ghost w: P.World)
      returns (due: seq<Id>, orders: seq<seq<Id>>)
      requires w.t == db.T() && w.b == db.B()
      modifies db`incidents, db`deliveries, db`nextDelivery
      ensures Lists(due, P.DueReminders(w.t, now)) && P.ListsPer(due, orders, Targets(w.b))
      ensures w.(t := db.T(), b := db.B()) == P.Remind(w, due, orders, now, P.Interval(interval), clock)
    {
      due := List(P.DueReminders(db.T(), now));
      hide P.Remind, P.RemindOne, Lists, P.ListsPer, Targets, P.DueReminders, P.Interval;
      orders := [];
      var every := P.Interval(interval);
      DueAreOpen(w, due, now);
      RemindNothing(w, now, every, clock);
      assert due[..0] == [];
      ghost var current := w;
      for k := 0 to |due|
        invariant (forall i :: i in due ==> i in w.t.incidents) && P.ListsPer(due[..k], orders, Targets(w.b))
        invariant current == w.(t := db.T(), b := db.B()) == P.Remind(w, due[..k], orders, now, every, clock)
        invariant db.channels == w.b.channels && db.incidents.Keys == w.t.incidents.Keys
      {
        var i := due[k];
        SameTargets(current.b, w.b);
        var order := RemindOf(i, now, every, clock, current);
        RemindNext(w, due, k, orders, order, now, every, clock);
        current, orders := w.(t := db.T(), b := db.B()), orders + [order];
      }
      assert due[..|due|] == due;
    }

    /** `Retry`: a permanently failed delivery can be claimed at once, with all its attempts before it, unless another
        one of its pair is in progress. */
    method Retry(id: Id, now: int) returns (ok: bool)
      modifies db`deliveries
      ensures ok <==> id in old(db.deliveries) && old(db.deliveries)[id].status == PermanentFailure
      ensures db.B() == Outbox.Retry(old(db.B()), id, now)
      ensures !ok ==> db.deliveries == old(db.deliveries)
      ensures ok ==>
        && id in db.deliveries && db.deliveries[id].attempts == 0
        && (Claimable(db.B(), id, now) <==>
              forall d, i :: db.deliveries[id].incident == Some(i) ==>
                               !Busy(old(db.B()), d, i, db.deliveries[id].channel))
    {
      ok := id in db.deliveries && db.deliveries[id].status == PermanentFailure;
      if ok {
        db.deliveries := db.deliveries[id := db.deliveries[id].(
          status := Pending, attempts := 0, startedAt := None, nextAttempt := Some(Unix(now)), completedAt := None)];
      }
      assert forall d, i, c :: Busy(db.B(), d, i, c) <==> Busy(old(db.B()), d, i, c);
    }

    /** The UPDATE that cancels what is pending on a channel. */
    method CancelPending(c: Id, now: int)
      modifies db`deliveries
      ensures db.B() == Cancel(old(db.B()), PendingOn(old(db.B()), c), now)
      ensures Silenced(old(db.deliveries), db.deliveries, c, now)
    {
      var b := db.B();
      db.deliveries := map d | d in b.deliveries ::
        if b.deliveries[d].channel == c && b.deliveries[d].status == Pending then CancelRow(b.deliveries[d], now)
        else b.deliveries[d];
    }

    /** `PatchChannel`, once the channel's secrets are stored: a disabled channel is no target and has nothing pending,
        an enabled one is a target; deliveries in progress go on. */
    method PatchChannel(c: Id, enabled: bool, minimum: Severity, notifyResolved: bool, now: int) returns (ok: bool)
      modifies db`channels, db`deliveries
      ensures ok <==> c in old(db.channels) && !old(db.channels)[c].deleted
      ensures db.B() == Outbox.PatchChannel(old(db.B()), c, enabled, minimum, notifyResolved, now)
      ensures ok ==> (c in Targets(db.B()) <==> enabled)
      ensures if ok && !enabled then Silenced(old(db.deliveries), db.deliveries, c, now)
              else db.deliveries == old(db.deliveries)
      ensures ok ==> && db.channels == old(db.channels)[c := db.channels[c]]
                     && db.channels[c].minimum == minimum && db.channels[c].notifyResolved == notifyResolved
      ensures P.LeavesBusyAlone(old(db.B()), db.B())
    {
      ok := c in db.channels && !db.channels[c].deleted;
      if ok {
        db.channels := db.channels[c := Channel(enabled, false, minimum, notifyResolved)];
        if !enabled {
          CancelPending(c, now);
        }
      }
    }

    /** `DeleteChannel`: the channel is no target, has nothing pending and cannot be deleted or changed again;
        deliveries in progress go on. */
    method DeleteChannel(c: Id, now: int) returns (ok: bool)
      modifies db`channels, db`deliveries
      ensures ok <==> c in old(db.channels) && !old(db.channels)[c].deleted
      ensures db.B() == Outbox.DeleteChannel(old(db.B()), c, now)
      ensures c in old(db.channels) ==> c in db.channels && db.channels[c].deleted && c !in Targets(db.B())
      ensures if ok then Silenced(old(db.deliveries), db.deliveries, c, now) else db.deliveries == old(db.deliveries)
      ensures P.LeavesBusyAlone(old(db.B()), db.B())
    {
      ok := c in db.channels && !db.channels[c].deleted;
      if ok {
        db.channels := db.channels[c := db.channels[c].(enabled := false, deleted := true)];
        CancelPending(c, now);
      }
    }
  }

  lemma AllChannelsSettle(b: Box, order: seq<Id>, i: Id, now: int, clock: int)
    requires RowsOk(b) && Lists(order, ResolutionTargets(b))
    ensures var b' := Outbox.EnqueueResolution(b, order, i, now, clock);
            forall c :: if c in b.channels && b.channels[c].enabled && !b.channels[c].deleted
                           && b.channels[c].notifyResolved
                        then Settled(b, b', i, c, now, clock) else SameChannel(b, b', c)
  {
    hide Outbox.EnqueueResolution, Settled, SameChannel;
    forall c: Id { EnqueueResolutionSettles(b, order, i, now, clock, c); }
  }

  lemma OrphansAreListed(t: Tables, orphans: seq<Id>)
    requires Lists(orphans, Orphans(t))
    ensures orphans[0..] == orphans && forall a :: a in orphans ==> a in t.alerts
    ensures forall j :: 0 <= j < |orphans| ==> orphans[j] in t.alerts && orphans[j] !in t.members
    ensures forall i, j :: 0 <= i < j < |orphans| ==> orphans[i] != orphans[j]
  {
    assert forall j :: 0 <= j < |orphans| ==> orphans[j] in orphans;
  }

  lemma ReconcileFirst(t: Tables, order: seq<Id>, k: nat, now: int, interval: int)
    requires k < |order| && forall j :: k <= j < |order| ==> order[j] in t.alerts
    ensures ReconcileOne(t, order[k], now, interval).alerts == t.alerts
    ensures Alerting.Reconcile(t, order[k..], now, interval)
            == Alerting.Reconcile(ReconcileOne(t, order[k], now, interval), order[k + 1..], now, interval)
  {
    assert order[k..][0] == order[k] && order[k..][1..] == order[k + 1..];
  }

  lemma ReconcileNone(t: Tables, order: seq<Id>, now: int, interval: int)
    requires order == []
    ensures Alerting.Reconcile(t, order, now, interval) == t
  {
  }

  lemma DueAreOpen(w: P.World, due: seq<Id>, now: int)
    requires Lists(due, P.DueReminders(w.t, now))
    ensures forall i :: i in due ==> i in w.t.incidents
  {
  }

  lemma RemindNext(w: P.World, due: seq<Id>, k: nat, orders: seq<seq<Id>>, order: seq<Id>, now: int, interval: int,
                   clock: int)
    requires k < |due| && forall j :: j in due ==> j in w.t.incidents
    requires P.ListsPer(due[..k], orders, Targets(w.b)) && Lists(order, Targets(w.b))
    ensures P.ListsPer(due[..k + 1], orders + [order], Targets(w.b))
    ensures var before := P.Remind(w, due[..k], orders, now, interval, clock);
            && due[k] in before.t.incidents && (forall c :: c in order ==> c in before.b.channels)
            && P.Remind(w, due[..k + 1], orders + [order], now, interval, clock)
               == P.RemindOne(before, due[k], order, now, interval, clock)
  {
    hide P.Remind, P.RemindOne, P.ListsPer, Lists, Targets;
    assert due[..k + 1] == due[..k] + [due[k]];
    RemindLast(w, due[..k], orders, due[k], order, now, interval, clock);
  }

  lemma RemindNothing(w: P.World, now: int, interval: int, clock: int)
    ensures P.ListsPer([], [], Targets(w.b)) && P.Remind(w, [], [], now, interval, clock) == w
  {
  }

  lemma SameTargets(b: Box, b': Box)
    requires b.channels == b'.channels
    ensures Targets(b) == Targets(b')
  {
  }

  /** Reminding of one more incident, last. */
  lemma {:induction false} RemindLast(w: P.World, due: seq<Id>, orders: seq<seq<Id>>, i: Id, order: seq<Id>,
                                      now: int, interval: int, clock: int)
    requires forall j :: j in due + [i] ==> j in w.t.incidents
    requires P.ListsPer(due, orders, Targets(w.b)) && Lists(order, Targets(w.b))
    ensures P.ListsPer(due + [i], orders + [order], Targets(w.b))
    ensures var before := P.Remind(w, due, orders, now, interval, clock);
            && i in before.t.incidents && (forall c :: c in order ==> c in before.b.channels)
            && P.Remind(w, due + [i], orders + [order], now, interval, clock)
               == P.RemindOne(before, i, order, now, interval, clock)
    decreases |due|
  {
    if due == [] {
      assert [i][1..] == [] && [order][1..] == [];
    } else {
      var w' := P.RemindOne(w, due[0], orders[0], now, interval, clock);
      assert Targets(w'.b) == Targets(w.b);
      assert (due + [i])[1..] == due[1..] + [i] && (orders + [order])[1..] == orders[1..] + [order];
      RemindLast(w', due[1..], orders[1..], i, order, now, interval, clock);
    }
  }
}
