/** internal/alerts/evaluator.go as the program it is: one transaction per evaluation, undone if a statement fails. */
module Evaluator {
  import opened Options
  import opened Alerting
  import opened Outbox
  import opened Database
  import Repository
  import L = Lifecycle
  import P = Pipeline

  datatype AlertRule = AlertRule(enabled: bool, family: string, scopeType: string, scopeId: string, severity: Severity)

  /** The zero value: no rule. */
  const NO_RULE := AlertRule(false, "", "", "", Warning)

  predicate Specific(r: AlertRule, family: string, targetType: string, target: string) {
    r.enabled && r.family == family && r.scopeType == targetType && r.scopeId == target
  }

  predicate Global(r: AlertRule, family: string) { r.enabled && r.family == family && r.scopeType == "global" }

  /** `effectiveRule`: the first enabled rule of the family for the target itself, else the last global one, else
      none. */
  method EffectiveRule(rules: seq<AlertRule>, family: string, targetType: string, target: string) returns (r: AlertRule)
    ensures (exists k :: 0 <= k < |rules| && Specific(rules[k], family, targetType, target)) ==>
              exists k :: 0 <= k < |rules| && r == rules[k] && Specific(r, family, targetType, target)
                          && forall j :: 0 <= j < k ==> !Specific(rules[j], family, targetType, target)
    ensures (forall k :: 0 <= k < |rules| ==> !Specific(rules[k], family, targetType, target)) ==>
              if exists k :: 0 <= k < |rules| && Global(rules[k], family) then
                exists k :: 0 <= k < |rules| && r == rules[k] && Global(r, family)
                            && forall j :: k < j < |rules| ==> !Global(rules[j], family)
              else r == NO_RULE
  {
    var global := NO_RULE;
    for i := 0 to |rules|
      invariant forall j :: 0 <= j < i ==> !Specific(rules[j], family, targetType, target)
      invariant if exists k :: 0 <= k < i && Global(rules[k], family) then
                  exists k :: 0 <= k < i && global == rules[k] && Global(global, family)
                              && forall j :: k < j < i ==> !Global(rules[j], family)
                else global == NO_RULE
    {
      var rule := rules[i];
      if !rule.enabled || rule.family != family {
        continue;
      }
      if rule.scopeType == targetType && rule.scopeId == target {
        return rule;
      }
      if rule.scopeType == "global" {
        global := rule;
      }
    }
    return global;
  }

  /** The alerts that the UNIQUE columns would clash with. */
  function StartedAt(t: Tables, key: string, at: int): set<Id> {
    set a | a in t.alerts && t.alerts[a].key == key && t.alerts[a].startedAt == at
  }

  lemma StartsAreCounted(t: Tables, key: string, at: int)
    ensures StartedAt(t, key, at) != {} <==> AlertStartTaken(t, key, at)
  {
    if a :| a in t.alerts && t.alerts[a].key == key && t.alerts[a].startedAt == at {
      assert a in StartedAt(t, key, at);
    }
  }

  class Evaluator {
    const db: Database
    const sink: Repository.Repository

    constructor (db: Database)
      ensures this.db == db && sink.db == db
    {
      this.db := db;
      sink := new Repository.Repository(db);
    }

    /** The alert of a triggering evaluation: its row, its incident and its event; refused if any of them exists. */
    method Fire(e: Evaluation, interval: int, clock: int) returns (ok: bool, ghost effect: Effect, order: seq<Id>)
      requires sink.db == db
      modifies db
      ensures var outcome := Trigger(old(db.T()), e, interval);
              && (ok <==> outcome.Committed?)
              && (ok ==> && outcome == Committed(db.T(), effect) && P.ListsChannels(old(db.B()), effect, order)
                         && db.B() == P.Announce(old(db.B()), effect, e.seen.now, clock, order))
      ensures ok ==>
        && Raised(old(db.T()), db.T(), e) && effect.Notify? && (e.severity == Critical ==> effect.severity == Critical)
    {
      hide Join, Lists, Targets, Outbox.EnqueueIncident, NewAlert, Raised;
      order, effect := [], Quiet;
      var id, t := db.nextAlert, db.T();
      if Trigger(t, e, interval).Committed? { RaisesTheAlert(t, e, interval); }
      StartsAreCounted(t, DedupKey(e), Unix(e.seen.now));
      if |StartedAt(t, DedupKey(e), Unix(e.seen.now))| > 0 || id in db.alerts {
        return false, effect, order;
      }
      db.alerts, db.nextAlert := db.alerts[id := NewAlert(e)], id + 1;
      var joined, incident, isNew, severity, channels := sink.AlertFired(id, e.seen.now, interval, clock);
      if !joined || id in db.events {
        return false, effect, order;
      }
      db.events := db.events + {id};
      ok, effect, order := true, Notify(incident, isNew, severity), channels;
    }

    /** The alert of a resolving evaluation, if one is firing; refused if its event exists already. */
    method Clear(e: Evaluation, clock: int) returns (ok: bool, ghost effect: Effect, order: seq<Id>)
      requires sink.db == db
      modifies db
      ensures var outcome := Alerting.Resolve(old(db.T()), e);
              && (ok <==> outcome.Committed?)
              && (ok ==> && outcome == Committed(db.T(), effect) && P.ListsChannels(old(db.B()), effect, order)
                         && db.B() == P.Announce(old(db.B()), effect, e.seen.now, clock, order))
    {
      order, effect := [], Quiet;
      var t, key := db.T(), DedupKey(e);
      var found := Smallest(set a | a in FiringFor(t, key)
                              && forall b :: b in FiringFor(t, key) ==> t.alerts[b].startedAt <= t.alerts[a].startedAt);
      assert found == LatestFiring(t, key);
      if found == None {
        return true, effect, order;
      }
      var id := found.value;
      db.alerts := db.alerts[id := db.alerts[id].(firing := false, resolvedAt := Some(Unix(e.seen.now)))];
      assert db.T() == MarkResolved(t, id, e.seen.now);
      var closed, channels := sink.AlertResolved(id, e.seen.now, clock);
      if id in db.events {
        return false, effect, order;
      }
      db.events := db.events + {id};
      ok, effect, order := true, if closed == None then Quiet else Close(closed.value), channels;
    }

    /** `evaluate`: commits what the specification says, or, when a statement or the commit fails, changes nothing.
        `fault` stands for a failure of the database itself. */
    method Evaluate(e: Evaluation, interval: int, clock: int, fault: bool)
      returns (committed: bool, ghost effect: Effect, order: seq<Id>)
      requires sink.db == db
      modifies db
      ensures var outcome := Alerting.Evaluate(old(db.T()), e, interval);
              && (committed <==> outcome.Committed? && !fault)
              && (committed ==> && outcome == Committed(db.T(), effect) && P.ListsChannels(old(db.B()), effect, order)
                                && db.B() == P.Announce(old(db.B()), effect, e.seen.now, clock, order))
              && (!committed ==> db.T() == old(db.T()) && db.B() == old(db.B()))
    {
      var t, b, key := db.T(), db.B(), DedupKey(e);
      order, effect := [], Quiet;
      var state := if key in db.phases then db.phases[key] else L.FRESH;
      var transition := L.Advance(e.seen, state);
      db.phases := db.phases[key := L.Store(SECOND, transition.state)];
      assert db.T() == WithPhase(t, e);
      if transition.triggered {
        committed, effect, order := Fire(e, interval, clock);
      } else if transition.resolved {
        committed, effect, order := Clear(e, clock);
      } else {
        committed := true;
      }
      if !committed || fault {
        committed := false;
        db.Rollback(t, b);
      }
    }
  }
}
