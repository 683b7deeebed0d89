/** What operators and cleanup do to channels, deliveries, incidents and alerts, on the rows. */
module OperatorGuarantees {
  import opened Options
  import opened Alerting
  import opened Outbox
  import opened Pipeline
  import opened NotificationGuarantees

  /** A channel is created, with the settings given and under a new id, exactly when fewer than 32 are not deleted. */
  lemma ChannelsAreLimited(w: World, enabled: bool, minimum: Severity, notifyResolved: bool)
    requires Inv(w)
    ensures var w' := Apply(w, NewChannel(enabled, minimum, notifyResolved));
            var c := w.b.nextChannel;
            && c !in w.b.channels && w'.b.deliveries == w.b.deliveries
            && if |Undeleted(w.b)| < 32
               then && w'.b.channels == w.b.channels[c := Channel(enabled, false, minimum, notifyResolved)]
                    && |Undeleted(w'.b)| == |Undeleted(w.b)| + 1
               else w' == w
  {
    IdsAreFresh(w);
    hide Inv, CreateChannel, Undeleted;
    CreatingAddsOne(w.b, enabled, minimum, notifyResolved);
  }

  lemma IdsAreFresh(w: World)
    requires Inv(w)
    ensures w.b.nextChannel !in w.b.channels
  {
  }

  lemma CreatingAddsOne(b: Box, enabled: bool, minimum: Severity, notifyResolved: bool)
    requires b.nextChannel !in b.channels
    ensures var b' := CreateChannel(b, enabled, minimum, notifyResolved);
            && b'.deliveries == b.deliveries
            && if |Undeleted(b)| < 32
               then && b'.channels == b.channels[b.nextChannel := Channel(enabled, false, minimum, notifyResolved)]
                    && |Undeleted(b')| == |Undeleted(b)| + 1
               else b' == b
  {
    var b' := CreateChannel(b, enabled, minimum, notifyResolved);
    if |Undeleted(b)| < 32 { assert Undeleted(b') == Undeleted(b) + {b.nextChannel}; }
  }

  /** A test of a channel that is not deleted adds one row to it, due now and about no incident, and changes nothing
      else; a test of any other is refused. */
  lemma TestsAreQueued(w: World, c: Id, now: int, other: Id)
    requires Inv(w)
    ensures var w' := Apply(w, TestChannel(c, now));
            && w'.t == w.t
            && (if c in w.b.channels && !w.b.channels[c].deleted
                then Appended(w.b, w'.b, c,
                              Delivery(c, None, Test, Pending, 0, Some(Unix(now)), None, None, Unix(now)))
                else w' == w)
            && (other != c ==> SameChannel(w.b, w'.b, other))
  {
    hide Coherent, OneInProgress, AtMostTwoLive, AttemptsWereClaimed, ResolutionsOk, KnownIncidents;
    var w' := Apply(w, TestChannel(c, now));
    if c in w.b.channels && !w.b.channels[c].deleted { assert OnChannel(w'.b, w.b.nextDelivery, c); }
  }

  /** Cleanup of deliveries removes exactly the finished ones that ended before the cutoff. */
  lemma OldDeliveriesGo(w: World, cutoff: int, d: Id)
    requires Inv(w) && d in w.b.deliveries
    ensures var w', r := Apply(w, CleanDeliveries(cutoff)), w.b.deliveries[d];
            && (r.status in {Succeeded, PermanentFailure, Cancelled} ==> r.completedAt.Some?)
            && (d in w'.b.deliveries <==>
                  r.status in {Succeeded, PermanentFailure, Cancelled} ==> cutoff <= r.completedAt.value)
            && (d in w'.b.deliveries ==> w'.b.deliveries[d] == r)
  {
    assert RowOk(w.b.deliveries[d]);
  }

  /** Cleanup of incidents removes exactly the resolved ones that were resolved before the cutoff; their deliveries stay
      and lose the reference, their memberships go. */
  lemma OldIncidentsGo(w: World, cutoff: int, i: Id, d: Id, a: Id)
    requires Inv(w) && i in w.t.incidents && d in w.b.deliveries && a in w.t.members
    ensures var w', row, r := Apply(w, CleanIncidents(cutoff)), w.t.incidents[i], w.b.deliveries[d];
            && (!row.open ==> row.resolvedAt.Some?)
            && (i in w'.t.incidents <==> row.open || cutoff <= row.resolvedAt.value)
            && (i in w'.t.incidents ==> w'.t.incidents[i] == row)
            && d in w'.b.deliveries
            && w'.b.deliveries[d] == (if r.incident.Some? && r.incident.value !in w'.t.incidents
                                      then r.(incident := None) else r)
            && (a in w'.t.members <==> w.t.members[a].incident in w'.t.incidents)
  {
    assert RowIsExact(w.t, i);
    assert w.b.deliveries[d].incident.Some? ==>
             Concerns(w.b, d, w.b.deliveries[d].incident.value, w.b.deliveries[d].channel);
  }

  /** Cleanup of alerts removes exactly the resolved ones with a time of resolution before the cutoff, and their
      memberships. */
  lemma OldAlertsGo(w: World, cutoff: int, a: Id)
    requires a in w.t.alerts
    ensures var w', alert := Apply(w, CleanAlerts(cutoff)), w.t.alerts[a];
            && (a !in w'.t.alerts <==>
                  !alert.firing && alert.resolvedAt.Some? && alert.resolvedAt.value < cutoff)
            && (a in w'.t.alerts ==> w'.t.alerts[a] == alert)
            && (a in w'.t.members <==> a in w.t.members && a in w'.t.alerts)
  {
  }
}
