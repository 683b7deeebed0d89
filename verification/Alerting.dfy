/**
 Alert evaluation and incident grouping: `evaluate` of internal/alerts/evaluator.go together with the
 incident half of internal/notifications/repository.go, over the five tables they share.

 Each function is one transaction or one statement group inside it. A transaction that violates a
 uniqueness constraint of the schema is `RolledBack` and changes nothing. Random 128-bit identifiers
 are modelled as never repeating (`nextAlert`, `nextIncident`). Columns hold Unix seconds.
 */
module Alerting {
  import opened Options
  import L = Lifecycle

  type Id = nat

  const SECOND := 1_000_000_000

  /** `time.Time.Unix` of a time in nanoseconds. */
  function Unix(t: int): int { t / SECOND }

  datatype Severity = Warning | Critical

  datatype Alert = Alert(key: string, family: string, severity: Severity, targetType: string, targetId: string,
                         firing: bool, startedAt: int, resolvedAt: Option<int>)

  datatype Member = Member(incident: Id, joinedAt: int, resolvedAt: Option<int>)

  datatype Incident = Incident(group: string, open: bool, severity: Severity, targetType: string, targetId: string,
                               openedAt: int, resolvedAt: Option<int>, version: nat, nextReminder: Option<int>)

  /** alert_evaluation_state by dedup key, alerts, incident_alerts by alert (its UNIQUE column), incidents, and
      the alerts that have a row `alert-<id>` in events. */
  datatype Tables = Tables(phases: map<string, L.State>, alerts: map<Id, Alert>, members: map<Id, Member>,
                           incidents: map<Id, Incident>, events: set<Id>, nextAlert: Id, nextIncident: Id)

  // ---------------------------------------------------------------- queries

  datatype Group = Group(key: string, targetType: string, targetId: string)

  function GroupFor(a: Alert): (g: Group)
  {
    if a.family == "docker_collector_down" || a.family == "persistence_failure" then
      Group("subsystem:" + a.targetId, "subsystem", a.targetId)
    else if a.family == "host_cpu_warning" || a.family == "host_memory_warning" then
      Group("host:server", "host", "server")
    else if a.targetType == "resource" || a.targetType == "check" then
      Group("resource:" + a.targetId, "resource", a.targetId)
    else if a.targetType == "filesystem" then
      Group("filesystem:" + a.targetId, "filesystem", a.targetId)
    else if a.targetType == "host" then
      Group("host:server", "host", "server")
    else
      Group("resource:" + a.targetId, a.targetType, a.targetId)
  }

  /** The alerts that the evaluator raises: on the host, a resource, a check or a filesystem, or about a subsystem. */
  predicate Usual(a: Alert) {
    || a.family == "docker_collector_down" || a.family == "persistence_failure"
    || a.targetType in {"host", "resource", "check", "filesystem"}
  }

  lemma PrefixIsInjective(p: string, q: string, x: string, y: string)
    requires |p| > 0 && |q| > 0 && (p == q || p[0] != q[0])
    ensures p + x == q + y <==> p == q && x == y
  {
    assert (p + x)[0] == p[0] && (q + y)[0] == q[0];
    assert (p + x)[|p|..] == x && (q + y)[|q|..] == y;
  }

  /** What an alert is about: a subsystem, the host, a filesystem, or a resource, which a check stands for. */
  predicate OnSubsystem(a: Alert) { a.family in {"docker_collector_down", "persistence_failure"} }

  predicate OnHost(a: Alert) {
    !OnSubsystem(a) && (a.targetType == "host" || a.family in {"host_cpu_warning", "host_memory_warning"})
  }

  predicate OnFilesystem(a: Alert) { !OnSubsystem(a) && !OnHost(a) && a.targetType == "filesystem" }

  predicate OnResource(a: Alert) { !OnSubsystem(a) && !OnHost(a) && a.targetType in {"resource", "check"} }

  /** Two such alerts share a group exactly when both are about the host, or both about the same subsystem, filesystem
      or resource; and that is what the incident shows as its target. */
  lemma GroupsAreTargets(a: Alert, b: Alert)
    requires Usual(a) && Usual(b)
    ensures GroupFor(a).key == GroupFor(b).key <==>
              || (OnHost(a) && OnHost(b))
              || (a.targetId == b.targetId
                  && ((OnSubsystem(a) && OnSubsystem(b)) || (OnFilesystem(a) && OnFilesystem(b))
                      || (OnResource(a) && OnResource(b))))
    ensures GroupFor(a).targetId == if OnHost(a) then "server" else a.targetId
    ensures GroupFor(a).targetType == if OnHost(a) then "host" else if OnSubsystem(a) then "subsystem"
                                      else if OnFilesystem(a) then "filesystem" else "resource"
  {
    hide GroupFor;
    var g, h := GroupFor(a), GroupFor(b);
    GroupKeyIsTarget(a);
    GroupKeyIsTarget(b);
    PrefixIsInjective(g.targetType + ":", h.targetType + ":", g.targetId, h.targetId);
    if g.targetType != h.targetType {
      assert (g.targetType + ":")[0] != (h.targetType + ":")[0];
    }
  }

  lemma GroupKeyIsTarget(a: Alert)
    requires Usual(a)
    ensures GroupFor(a).key == GroupFor(a).targetType + ":" + GroupFor(a).targetId
    ensures GroupFor(a).targetId == if OnHost(a) then "server" else a.targetId
    ensures GroupFor(a).targetType == if OnHost(a) then "host" else if OnSubsystem(a) then "subsystem"
                                      else if OnFilesystem(a) then "filesystem" else "resource"
  {
    assert "host" + ":" + "server" == "host:server";
    assert "resource" + ":" == "resource:" && "filesystem" + ":" == "filesystem:" && "subsystem" + ":" == "subsystem:";
  }

  lemma {:induction false} LeastExists(s: set<nat>, x: nat)
    requires x in s
    ensures exists m :: m in s && forall y :: y in s ==> m <= y
    decreases x
  {
    if y :| y in s && y < x { LeastExists(s, y); }
  }

  ghost function Least(s: set<nat>): (r: Option<nat>)
    ensures r == None <==> s == {}
    ensures r.Some? ==> r.value in s && forall y :: y in s ==> r.value <= y
  {
    if s == {} then None else
      var x :| x in s;
      LeastExists(s, x);
      var m :| m in s && forall y :: y in s ==> m <= y;
      Some(m)
  }

  /** The stored lifecycle state of a dedup key. */
  function Stored(t: Tables, key: string): L.State {
    if key in t.phases then t.phases[key] else L.FRESH
  }

  function FiringFor(t: Tables, key: string): set<Id> {
    set a | a in t.alerts && t.alerts[a].firing && t.alerts[a].key == key
  }

  /** The firing alert of a key that started last. */
  ghost function LatestFiring(t: Tables, key: string): Option<Id> {
    Least(set a | a in FiringFor(t, key)
                  && forall b :: b in FiringFor(t, key) ==> t.alerts[b].startedAt <= t.alerts[a].startedAt)
  }

  ghost function OpenIncident(t: Tables, group: string): (r: Option<Id>)
    ensures r.Some? ==> r.value in t.incidents && t.incidents[r.value].open && t.incidents[r.value].group == group
    ensures r == None ==> forall i :: i in t.incidents && t.incidents[i].open ==> t.incidents[i].group != group
  {
    var open := set i | i in t.incidents && t.incidents[i].open && t.incidents[i].group == group;
    assert forall i :: i in t.incidents && t.incidents[i].open && t.incidents[i].group == group ==> i in open;
    Least(open)
  }

  /** Alert `a` is a firing member of incident `i`. */
  predicate FiringMember(t: Tables, a: Id, i: Id) {
    a in t.members && t.members[a].incident == i && a in t.alerts && t.alerts[a].firing
  }

  ghost predicate HasFiring(t: Tables, i: Id) {
    exists a :: FiringMember(t, a, i)
  }

  ghost predicate HasCritical(t: Tables, i: Id) {
    exists a :: FiringMember(t, a, i) && t.alerts[a].severity == Critical
  }

  ghost predicate AlertStartTaken(t: Tables, key: string, startedAt: int) {
    exists a :: a in t.alerts && t.alerts[a].key == key && t.alerts[a].startedAt == startedAt
  }

  // ---------------------------------------------------------------- the incident sink

  datatype Joined = Joined(tables: Tables, incident: Id, isNew: bool, severity: Severity)

  /** `alertFiredTx` up to its notification: put a firing alert into the open incident of its group. */
  ghost function Join(t: Tables, id: Id, now: int, interval: int): (r: Joined)
    requires id in t.alerts
  {
    var alert := t.alerts[id];
    var group := GroupFor(alert);
    var found := OpenIncident(t, group.key);
    if found == None then
      var i := t.nextIncident;
      var row := Incident(group.key, true, alert.severity, group.targetType, group.targetId, Unix(now), None, 1,
                          Some(Unix(now + interval)));
      Joined(t.(incidents := t.incidents[i := row], members := t.members[id := Member(i, Unix(now), None)],
                nextIncident := i + 1), i, true, alert.severity)
    else
      var i := found.value;
      var row := t.incidents[i];
      var severity := if row.severity == Warning && alert.severity == Critical then Critical else row.severity;
      Joined(t.(incidents := t.incidents[i := row.(severity := severity, version := row.version + 1)],
                members := t.members[id := Member(i, Unix(now), None)]), i, false, severity)
  }

  datatype Left = Left(tables: Tables, closed: Option<Id>)

  /** `AlertResolvedTx` up to its notification: take a resolved alert out of its incident. A membership always
      has its incident, by the foreign key. */
  ghost function Leave(t: Tables, id: Id, now: int): (r: Left)
  {
    if id !in t.members || t.members[id].incident !in t.incidents then Left(t, None)
    else
      var i := t.members[id].incident;
      var member := t.members[id];
      var stamped := if member.resolvedAt == None then member.(resolvedAt := Some(Unix(now))) else member;
      var t := t.(members := t.members[id := stamped]);
      var row := t.incidents[i];
      if HasFiring(t, i) then
        var severity := if HasCritical(t, i) then Critical else Warning;
        Left(t.(incidents := t.incidents[i := row.(severity := severity, version := row.version + 1)]), None)
      else
        Left(t.(incidents := t.incidents[i := row.(open := false, resolvedAt := Some(Unix(now)),
                                                   nextReminder := None, version := row.version + 1)]), Some(i))
  }

  // ---------------------------------------------------------------- evaluate

  /** One call of `evaluate`: the rule's family and severity, the target, and the observation. */
  datatype Evaluation = Evaluation(family: string, severity: Severity, targetType: string, target: string,
                                   seen: L.Observation)

  function DedupKey(e: Evaluation): string { e.family + ":" + e.target }

  /** Families have no colon, so a key names one family and one target. */
  lemma KeysNameTheirTarget(e: Evaluation, f: Evaluation)
    requires ':' !in e.family && ':' !in f.family
    ensures DedupKey(e) == DedupKey(f) <==> e.family == f.family && e.target == f.target
  {
    FirstColon(e);
    FirstColon(f);
    if DedupKey(e) == DedupKey(f) {
      assert |e.family| == |f.family|;
      assert DedupKey(e)[..|e.family|] == e.family && DedupKey(f)[..|f.family|] == f.family;
      assert DedupKey(e)[|e.family| + 1..] == e.target && DedupKey(f)[|f.family| + 1..] == f.target;
    }
  }

  lemma FirstColon(e: Evaluation)
    requires ':' !in e.family
    ensures DedupKey(e)[|e.family|] == ':' && forall k :: 0 <= k < |e.family| ==> DedupKey(e)[k] != ':'
  {
    assert forall k :: 0 <= k < |e.family| ==> DedupKey(e)[k] == e.family[k];
  }

  datatype Effect = Quiet | Notify(incident: Id, isNew: bool, severity: Severity) | Close(incident: Id)

  datatype Outcome = RolledBack | Committed(tables: Tables, effect: Effect)

  function NewAlert(e: Evaluation): Alert {
    Alert(DedupKey(e), e.family, e.severity, e.targetType, e.target, true, Unix(e.seen.now), None)
  }

  /** The row says what the evaluation saw. */
  predicate Reports(a: Alert, e: Evaluation) {
    && a.firing && a.resolvedAt == None && a.startedAt == Unix(e.seen.now)
    && a.key == DedupKey(e) && a.family == e.family && a.severity == e.severity
    && a.targetType == e.targetType && a.targetId == e.target
  }

  /** Of the alerts only a new one was added, and it reports the evaluation. */
  ghost predicate Raised(t: Tables, u: Tables, e: Evaluation) {
    && t.nextAlert !in t.alerts && t.nextAlert in u.alerts && Reports(u.alerts[t.nextAlert], e)
    && u.alerts == t.alerts[t.nextAlert := u.alerts[t.nextAlert]]
  }

  /** The new alert is in incident `i`. A new incident shows the alert's severity and target, opened now; an old one
      keeps all but its severity, which is critical if it was or if the alert is. */
  ghost predicate Included(t: Tables, u: Tables, e: Evaluation, i: Id, interval: int) {
    && t.nextAlert in u.alerts && t.nextAlert in u.members && i in u.incidents
    && u.members == t.members[t.nextAlert := Member(i, Unix(e.seen.now), None)]
    && u.incidents == t.incidents[i := u.incidents[i]]
    && var row := u.incidents[i];
       if i in t.incidents then
         && t.incidents[i].open && t.incidents[i].group == GroupFor(u.alerts[t.nextAlert]).key
         && row == t.incidents[i].(version := t.incidents[i].version + 1, severity := row.severity)
         && (row.severity == Critical <==> t.incidents[i].severity == Critical || e.severity == Critical)
       else
         && row.open && row.resolvedAt == None && row.severity == e.severity && row.version == 1
         && row.openedAt == Unix(e.seen.now) && row.nextReminder == Some(Unix(e.seen.now + interval))
         && Group(row.group, row.targetType, row.targetId) == GroupFor(u.alerts[t.nextAlert])
  }

  function WithPhase(t: Tables, e: Evaluation): Tables {
    var state := L.Advance(e.seen, Stored(t, DedupKey(e))).state;
    t.(phases := t.phases[DedupKey(e) := L.Store(SECOND, state)])
  }

  /** The branch of `evaluate` taken when the lifecycle triggers. */
  ghost function Trigger(t: Tables, e: Evaluation, interval: int): Outcome {
    var id := t.nextAlert;
    if AlertStartTaken(t, DedupKey(e), Unix(e.seen.now)) || id in t.alerts || id in t.members || id in t.events then
      RolledBack
    else
      var joined := Join(t.(alerts := t.alerts[id := NewAlert(e)], nextAlert := id + 1), id, e.seen.now, interval);
      Committed(joined.tables.(events := t.events + {id}), Notify(joined.incident, joined.isNew, joined.severity))
  }

  function MarkResolved(t: Tables, id: Id, now: int): Tables
    requires id in t.alerts
  {
    t.(alerts := t.alerts[id := t.alerts[id].(firing := false, resolvedAt := Some(Unix(now)))])
  }

  /** The branch of `evaluate` taken when the lifecycle resolves. The event row it inserts has the same
      primary key as the one `Trigger` inserted for the alert. */
  ghost function Resolve(t: Tables, e: Evaluation): Outcome {
    var found := LatestFiring(t, DedupKey(e));
    if found == None then Committed(t, Quiet)
    else if found.value in t.events then RolledBack
    else
      var left := Leave(MarkResolved(t, found.value, e.seen.now), found.value, e.seen.now);
      Committed(left.tables.(events := t.events + {found.value}),
                if left.closed == None then Quiet else Close(left.closed.value))
  }

  ghost function Evaluate(t: Tables, e: Evaluation, interval: int): Outcome {
    var transition := L.Advance(e.seen, Stored(t, DedupKey(e)));
    if transition.triggered then Trigger(WithPhase(t, e), e, interval)
    else if transition.resolved then Resolve(WithPhase(t, e), e)
    else Committed(WithPhase(t, e), Quiet)
  }

  // ---------------------------------------------------------------- invariants

  /** Identifiers in use are below the next one, and foreign keys point at rows. */
  ghost predicate References(t: Tables) {
    && (forall a :: a in t.alerts ==> a < t.nextAlert)
    && (forall a :: a in t.events ==> a < t.nextAlert)
    && (forall i :: i in t.incidents ==> i < t.nextIncident)
    && (forall a :: a in t.members ==> a in t.alerts && t.members[a].incident in t.incidents)
  }

  /** Exactly one firing alert for a key whose stored phase is firing or recovering, none for any other. */
  ghost predicate OneAlertPerActiveKey(t: Tables) {
    forall key {:trigger FiringFor(t, key)} ::
      |FiringFor(t, key)| == if L.Active(Stored(t, key).phase) then 1 else 0
  }

  /** A firing member's incident is open and carries the key that grouping gives the alert. */
  ghost predicate FiringMembersAreInOpenIncidents(t: Tables) {
    forall a :: a in t.members && a in t.alerts && t.alerts[a].firing ==>
      var i := t.members[a].incident;
      i in t.incidents && t.incidents[i].open && t.incidents[i].group == GroupFor(t.alerts[a]).key
  }

  /** The incrementally maintained columns of an incident say what its members say. */
  ghost predicate RowIsExact(t: Tables, i: Id)
    requires i in t.incidents
  {
    var row := t.incidents[i];
    && (row.open <==> HasFiring(t, i))
    && (row.open ==> (row.severity == Critical <==> HasCritical(t, i)))
    && (row.nextReminder.Some? <==> row.open)
    && (row.resolvedAt == None <==> row.open)
  }

  ghost predicate IncidentRowsAreExact(t: Tables) {
    forall i :: i in t.incidents ==> RowIsExact(t, i)
  }

  ghost predicate OpenIn(t: Tables, i: Id, group: string) {
    i in t.incidents && t.incidents[i].open && t.incidents[i].group == group
  }

  ghost predicate OneOpenIncidentPerGroup(t: Tables) {
    forall i, j, group :: OpenIn(t, i, group) && OpenIn(t, j, group) ==> i == j
  }

  ghost predicate Coherent(t: Tables) {
    && References(t)
    && OneAlertPerActiveKey(t)
    && FiringMembersAreInOpenIncidents(t)
    && IncidentRowsAreExact(t)
    && OneOpenIncidentPerGroup(t)
  }

  /** Incident rows are only added, and a resolved one never changes again. */
  ghost predicate Progress(before: map<Id, Incident>, after: map<Id, Incident>) {
    forall i :: i in before ==> i in after && (!before[i].open ==> after[i] == before[i])
  }

  ghost predicate Advances(t: Tables, u: Tables) {
    && Progress(t.incidents, u.incidents)
    && t.nextIncident <= u.nextIncident
    && (forall i :: i in u.incidents ==> i in t.incidents || t.nextIncident <= i)
  }

  /** Every firing alert belongs to an incident; it belongs to at most one because members is keyed by alert. */
  ghost predicate EveryFiringAlertJoined(t: Tables) {
    forall a :: a in t.alerts && t.alerts[a].firing ==> a in t.members
  }

  // ---------------------------------------------------------------- proofs, one operation at a time

  /** What grouping needs: everything of `Coherent` except the per-key count. */
  ghost predicate Grouped(t: Tables) {
    References(t) && FiringMembersAreInOpenIncidents(t) && IncidentRowsAreExact(t) && OneOpenIncidentPerGroup(t)
  }

  /** `u` is `t` after alert `id` entered incident `i`. */
  ghost predicate Entered(t: Tables, u: Tables, id: Id, i: Id, isNew: bool) {
    && id in t.alerts && t.alerts[id].firing && id !in t.members
    && u.alerts == t.alerts && u.phases == t.phases && u.events == t.events && u.nextAlert == t.nextAlert
    && id in u.members && u.members == t.members[id := u.members[id]] && u.members[id].incident == i
    && i in u.incidents && u.incidents == t.incidents[i := u.incidents[i]]
    && OpenIn(u, i, GroupFor(t.alerts[id]).key)
    && u.incidents[i].nextReminder.Some? && u.incidents[i].resolvedAt == None
    && (if isNew then
          && i == t.nextIncident && u.nextIncident == i + 1
          && (forall j :: !OpenIn(t, j, GroupFor(t.alerts[id]).key))
          && u.incidents[i].severity == t.alerts[id].severity
        else
          && OpenIn(t, i, GroupFor(t.alerts[id]).key) && u.nextIncident == t.nextIncident
          && (u.incidents[i].severity == Critical <==>
                t.incidents[i].severity == Critical || t.alerts[id].severity == Critical))
  }

  lemma JoinEnters(t: Tables, id: Id, now: int, interval: int)
    requires References(t) && IncidentRowsAreExact(t) && id in t.alerts && t.alerts[id].firing && id !in t.members
    ensures var r := Join(t, id, now, interval);
            Entered(t, r.tables, id, r.incident, r.isNew) && r.severity == r.tables.incidents[r.incident].severity
  {
    var found := OpenIncident(t, GroupFor(t.alerts[id]).key);
    if found.Some? {
      assert RowIsExact(t, found.value);
    }
  }

  lemma EnteringKeepsRows(t: Tables, u: Tables, id: Id, i: Id, isNew: bool)
    requires References(t) && IncidentRowsAreExact(t) && Entered(t, u, id, i, isNew)
    ensures IncidentRowsAreExact(u)
  {
    forall j | j in u.incidents ensures RowIsExact(u, j) {
      FiringMembersAfterJoin(t, u, id, i, j);
      if j == i && isNew {
        assert !HasFiring(t, i) && !HasCritical(t, i);
      } else {
        assert RowIsExact(t, j);
      }
    }
  }

  lemma EnteringKeepsGroups(t: Tables, u: Tables, id: Id, i: Id, isNew: bool)
    requires References(t) && FiringMembersAreInOpenIncidents(t) && OneOpenIncidentPerGroup(t)
    requires Entered(t, u, id, i, isNew)
    ensures References(u) && FiringMembersAreInOpenIncidents(u) && OneOpenIncidentPerGroup(u)
  {
    forall j, k, group | OpenIn(u, j, group) && OpenIn(u, k, group) ensures j == k {
      assert j != i ==> OpenIn(t, j, group);
      assert k != i ==> OpenIn(t, k, group);
    }
  }

  lemma JoinKeepsGrouping(t: Tables, id: Id, now: int, interval: int)
    requires Grouped(t) && id in t.alerts && t.alerts[id].firing && id !in t.members
    ensures var r := Join(t, id, now, interval);
            && Grouped(r.tables) && FiringMember(r.tables, id, r.incident)
            && r.severity == r.tables.incidents[r.incident].severity
            && r.tables.alerts == t.alerts && r.tables.phases == t.phases && r.tables.events == t.events
            && r.tables.members.Keys == t.members.Keys + {id}
            && Advances(t, r.tables)
  {
    hide Join, GroupFor, RowIsExact;
    var r := Join(t, id, now, interval);
    JoinEnters(t, id, now, interval);
    EnteringKeepsRows(t, r.tables, id, r.incident, r.isNew);
    EnteringKeepsGroups(t, r.tables, id, r.incident, r.isNew);
  }

  /** Adding one member changes the firing members of its own incident and of no other. */
  lemma FiringMembersAfterJoin(t: Tables, u: Tables, id: Id, i: Id, j: Id)
    requires u.alerts == t.alerts && id !in t.members && id in t.alerts && t.alerts[id].firing
    requires id in u.members && u.members[id].incident == i && u.members == t.members[id := u.members[id]]
    ensures HasFiring(u, j) <==> HasFiring(t, j) || j == i
    ensures HasCritical(u, j) <==> HasCritical(t, j) || (j == i && t.alerts[id].severity == Critical)
  {
    assert forall a :: a != id ==> (FiringMember(u, a, j) <==> FiringMember(t, a, j));
    assert FiringMember(u, id, j) <==> j == i;
    if HasFiring(t, j) {
      var a :| FiringMember(t, a, j);
      assert FiringMember(u, a, j);
    }
    if HasCritical(t, j) {
      var a :| FiringMember(t, a, j) && t.alerts[a].severity == Critical;
      assert FiringMember(u, a, j);
    }
  }

  /** `u` is `t` after alert `id` resolved and left incident `i`, closing it or not. */
  ghost predicate Exited(t: Tables, u: Tables, id: Id, i: Id, closed: bool) {
    && FiringMember(t, id, i) && i in t.incidents && i in u.incidents
    && id in u.alerts && u.alerts == t.alerts[id := u.alerts[id]]
    && u.alerts[id] == t.alerts[id].(firing := false, resolvedAt := u.alerts[id].resolvedAt)
    && id in u.members && u.members == t.members[id := u.members[id]] && u.members[id].incident == i
    && u.phases == t.phases && u.events == t.events && u.nextAlert == t.nextAlert && u.nextIncident == t.nextIncident
    && u.incidents == t.incidents[i := u.incidents[i]] && u.incidents[i].group == t.incidents[i].group
    && (closed <==> !HasFiring(u, i))
    && (if closed then
          !u.incidents[i].open && u.incidents[i].nextReminder == None && u.incidents[i].resolvedAt.Some?
        else
          && u.incidents[i].open == t.incidents[i].open && u.incidents[i].resolvedAt == t.incidents[i].resolvedAt
          && u.incidents[i].nextReminder == t.incidents[i].nextReminder
          && (u.incidents[i].severity == Critical <==> HasCritical(u, i)))
  }

  /** Only the members and alerts tables decide who is a firing member. */
  lemma SameFiringMembers(t: Tables, u: Tables, i: Id)
    requires forall a :: FiringMember(t, a, i) <==> FiringMember(u, a, i)
    requires forall a :: FiringMember(t, a, i) && FiringMember(u, a, i) ==> u.alerts[a].severity == t.alerts[a].severity
    ensures HasFiring(t, i) <==> HasFiring(u, i)
    ensures HasCritical(t, i) <==> HasCritical(u, i)
  {
    if HasFiring(t, i) {
      var a :| FiringMember(t, a, i);
      assert FiringMember(u, a, i);
    }
    if HasFiring(u, i) {
      var a :| FiringMember(u, a, i);
      assert FiringMember(t, a, i);
    }
    if HasCritical(t, i) {
      var a :| FiringMember(t, a, i) && t.alerts[a].severity == Critical;
      assert FiringMember(u, a, i);
    }
    if HasCritical(u, i) {
      var a :| FiringMember(u, a, i) && u.alerts[a].severity == Critical;
      assert FiringMember(t, a, i);
    }
  }

  lemma LeaveExits(t: Tables, id: Id, now: int)
    requires References(t) && id in t.members && t.alerts[id].firing
    ensures var r := Leave(MarkResolved(t, id, now), id, now);
            && Exited(t, r.tables, id, t.members[id].incident, r.closed.Some?)
            && (r.closed.Some? ==> r.closed.value == t.members[id].incident)
  {
    var marked := MarkResolved(t, id, now);
    var i := t.members[id].incident;
    var u := Leave(marked, id, now).tables;
    var stamped := marked.(members := u.members);
    SameFiringMembers(stamped, u, i);
  }

  lemma ExitingKeepsRows(t: Tables, u: Tables, id: Id, i: Id, closed: bool)
    requires IncidentRowsAreExact(t) && FiringMembersAreInOpenIncidents(t) && Exited(t, u, id, i, closed)
    ensures IncidentRowsAreExact(u)
  {
    assert RowIsExact(t, i);
    forall j | j in u.incidents ensures RowIsExact(u, j) {
      assert RowIsExact(t, j);
      if j != i {
        SameFiringMembers(t, u, j);
      } else if closed {
        assert !HasCritical(u, i);
      }
    }
  }

  lemma ExitingKeepsGroups(t: Tables, u: Tables, id: Id, i: Id, closed: bool)
    requires References(t) && FiringMembersAreInOpenIncidents(t) && OneOpenIncidentPerGroup(t)
    requires Exited(t, u, id, i, closed)
    ensures References(u) && FiringMembersAreInOpenIncidents(u) && OneOpenIncidentPerGroup(u)
  {
    forall j, k, group | OpenIn(u, j, group) && OpenIn(u, k, group) ensures j == k {
      assert OpenIn(t, j, group) && OpenIn(t, k, group);
    }
    forall a | a in u.members && a in u.alerts && u.alerts[a].firing
      ensures var j := u.members[a].incident;
              j in u.incidents && u.incidents[j].open && u.incidents[j].group == GroupFor(u.alerts[a]).key
    {
      assert a != id;
      if u.members[a].incident == i { assert FiringMember(u, a, i); }
    }
  }

  /** Resolving an alert keeps grouping exact, whether or not it belonged to an incident. */
  lemma LeaveKeepsGrouping(t: Tables, id: Id, now: int)
    requires Grouped(t) && id in t.alerts && t.alerts[id].firing
    ensures var r := Leave(MarkResolved(t, id, now), id, now);
            && Grouped(r.tables) && r.tables.alerts == MarkResolved(t, id, now).alerts
            && r.tables.phases == t.phases && r.tables.events == t.events && r.tables.nextAlert == t.nextAlert
            && r.tables.members.Keys == t.members.Keys && (r.closed.Some? ==> id in t.members)
            && Advances(t, r.tables)
  {
    var r := Leave(MarkResolved(t, id, now), id, now);
    if id in t.members {
      LeaveExits(t, id, now);
      ExitingKeepsRows(t, r.tables, id, t.members[id].incident, r.closed.Some?);
      ExitingKeepsGroups(t, r.tables, id, t.members[id].incident, r.closed.Some?);
    } else {
      forall j | j in t.incidents ensures RowIsExact(r.tables, j) {
        assert RowIsExact(t, j);
        SameFiringMembers(t, r.tables, j);
      }
      assert forall j, group :: OpenIn(r.tables, j, group) <==> OpenIn(t, j, group);
    }
  }

  // ---------------------------------------------------------------- one firing alert per active key

  lemma SingletonOf<T>(s: set<T>, x: T)
    requires |s| == 1 && x in s
    ensures s == {x}
  {
    assert |s - {x}| == 0;
    assert s == {x} + (s - {x});
  }

  /** A lifecycle step changes whether the phase is active exactly when it triggers or resolves. */
  lemma ActivityFollowsFlags(o: L.Observation, s: L.State)
    ensures var t := L.Advance(o, s);
            && (t.triggered ==> !L.Active(s.phase) && L.Active(t.state.phase))
            && (t.resolved ==> L.Active(s.phase) && !L.Active(t.state.phase))
            && (!t.triggered && !t.resolved ==> (L.Active(s.phase) <==> L.Active(t.state.phase)))
  {
  }

  lemma KeyCountsAfter(t: Tables, u: Tables, key: string)
    requires OneAlertPerActiveKey(t)
    requires forall k :: k != key ==> FiringFor(u, k) == FiringFor(t, k) && Stored(u, k) == Stored(t, k)
    requires |FiringFor(u, key)| == if L.Active(Stored(u, key).phase) then 1 else 0
    ensures OneAlertPerActiveKey(u)
  {
  }

  lemma SameAlertsSameCounts(t: Tables, u: Tables)
    requires OneAlertPerActiveKey(t) && u.alerts == t.alerts && u.phases == t.phases
    ensures OneAlertPerActiveKey(u)
  {
    forall key ensures FiringFor(u, key) == FiringFor(t, key) && Stored(u, key) == Stored(t, key) {}
  }

  lemma TriggerKeepsKeys(t: Tables, u: Tables, e: Evaluation)
    requires References(t) && OneAlertPerActiveKey(t) && L.Advance(e.seen, Stored(t, DedupKey(e))).triggered
    requires u.phases == WithPhase(t, e).phases && u.alerts == t.alerts[t.nextAlert := NewAlert(e)]
    ensures OneAlertPerActiveKey(u)
  {
    ActivityFollowsFlags(e.seen, Stored(t, DedupKey(e)));
    assert FiringFor(u, DedupKey(e)) == FiringFor(t, DedupKey(e)) + {t.nextAlert};
    KeyCountsAfter(t, u, DedupKey(e));
  }

  lemma TriggerKeepsTables(t: Tables, e: Evaluation, interval: int)
    requires Coherent(t) && L.Advance(e.seen, Stored(t, DedupKey(e))).triggered
    requires var r := Trigger(WithPhase(t, e), e, interval); r.Committed?
    ensures var r := Trigger(WithPhase(t, e), e, interval);
            && Coherent(r.tables)
            && (EveryFiringAlertJoined(t) ==> EveryFiringAlertJoined(r.tables))
            && Advances(t, r.tables)
            && r.effect.Notify? && FiringMember(r.tables, t.nextAlert, r.effect.incident)
            && r.effect.incident in r.tables.incidents
            && r.effect.severity == r.tables.incidents[r.effect.incident].severity
  {
    hide Join, GroupFor, RowIsExact, L.Advance, L.Store;
    var id := t.nextAlert;
    var inserted := WithPhase(t, e).(alerts := t.alerts[id := NewAlert(e)], nextAlert := id + 1);
    InsertKeepsGrouping(t, inserted, id);
    JoinKeepsGrouping(inserted, id, e.seen.now, interval);
    JoinEnters(inserted, id, e.seen.now, interval);
    var joined := Join(inserted, id, e.seen.now, interval).tables;
    var u := Trigger(WithPhase(t, e), e, interval).tables;
    assert u == joined.(events := t.events + {id});
    EventsDoNotMatter(joined, u);
    TriggerKeepsKeys(t, u, e);
  }

  /** A committed trigger keeps the tables coherent; of the alerts it adds one, which says what the evaluation saw, and
      puts it into an incident, which shows it. A critical alert makes the incident critical. */
  lemma TriggerKeepsCoherence(t: Tables, e: Evaluation, interval: int)
    requires Coherent(t) && L.Advance(e.seen, Stored(t, DedupKey(e))).triggered
    requires var r := Trigger(WithPhase(t, e), e, interval); r.Committed?
    ensures var r := Trigger(WithPhase(t, e), e, interval);
            && Coherent(r.tables)
            && (EveryFiringAlertJoined(t) ==> EveryFiringAlertJoined(r.tables))
            && Advances(t, r.tables)
            && r.effect.Notify? && FiringMember(r.tables, t.nextAlert, r.effect.incident)
            && r.effect.incident in r.tables.incidents
            && r.effect.severity == r.tables.incidents[r.effect.incident].severity
            && (r.effect.isNew <==> r.effect.incident !in t.incidents)
            && Raised(t, r.tables, e) && Included(t, r.tables, e, r.effect.incident, interval)
            && (e.severity == Critical ==> r.effect.severity == Critical)
  {
    hide Trigger, GroupFor, L.Advance, L.Store, Coherent, EveryFiringAlertJoined, Advances, Raised;
    TriggerKeepsTables(t, e, interval);
    CoherentRefers(t);
    TriggerRaises(t, e, interval);
  }

  lemma CoherentRefers(t: Tables)
    requires Coherent(t)
    ensures References(t)
  {
  }

  lemma TriggerRaises(t: Tables, e: Evaluation, interval: int)
    requires References(t)
    requires var r := Trigger(WithPhase(t, e), e, interval); r.Committed?
    ensures var r := Trigger(WithPhase(t, e), e, interval);
            && r.effect.Notify? && (r.effect.isNew <==> r.effect.incident !in t.incidents)
            && Raised(t, r.tables, e) && Included(t, r.tables, e, r.effect.incident, interval)
            && r.effect.severity == r.tables.incidents[r.effect.incident].severity
  {
    hide GroupFor, L.Advance, L.Store, Raised;
    RaisesTheAlert(WithPhase(t, e), e, interval);
    RaisedWithPhase(t, e, interval);
  }

  lemma RaisesTheAlert(t: Tables, e: Evaluation, interval: int)
    requires Trigger(t, e, interval).Committed?
    ensures var r := Trigger(t, e, interval);
            Raised(t, r.tables, e) && r.effect.Notify? && (e.severity == Critical ==> r.effect.severity == Critical)
  {
    hide GroupFor;
  }

  lemma RaisedWithPhase(t: Tables, e: Evaluation, interval: int)
    requires var r := Trigger(WithPhase(t, e), e, interval); r.Committed? && Raised(WithPhase(t, e), r.tables, e)
    ensures Raised(t, Trigger(WithPhase(t, e), e, interval).tables, e)
  {
    hide Trigger, L.Advance, L.Store;
  }

  /** An alert row that no incident refers to does not disturb grouping. */
  lemma InsertKeepsGrouping(t: Tables, u: Tables, id: Id)
    requires Grouped(t) && id == t.nextAlert
    requires id in u.alerts && u.alerts == t.alerts[id := u.alerts[id]] && u.nextAlert == id + 1
    requires u.members == t.members && u.incidents == t.incidents && u.nextIncident == t.nextIncident
    requires u.events == t.events
    ensures Grouped(u) && id !in u.members
  {
    forall j | j in u.incidents ensures RowIsExact(u, j) {
      assert RowIsExact(t, j);
      SameFiringMembers(t, u, j);
    }
    assert forall j, group :: OpenIn(u, j, group) <==> OpenIn(t, j, group);
  }

  /** Grouping does not look at phases or events. */
  lemma EventsDoNotMatter(t: Tables, u: Tables)
    requires Grouped(t) && u == t.(events := u.events, phases := u.phases)
    requires forall a :: a in u.events ==> a < u.nextAlert
    ensures Grouped(u)
  {
    forall j | j in u.incidents ensures RowIsExact(u, j) {
      assert RowIsExact(t, j);
      SameFiringMembers(t, u, j);
    }
    assert forall j, group :: OpenIn(u, j, group) <==> OpenIn(t, j, group);
  }

  /** A key whose evaluation resolves has exactly one firing alert, the one `evaluate` finds. */
  lemma ResolvedKeyHasOne(t: Tables, w: Tables, e: Evaluation)
    requires OneAlertPerActiveKey(t) && w.alerts == t.alerts && L.Advance(e.seen, Stored(t, DedupKey(e))).resolved
    ensures LatestFiring(w, DedupKey(e)).Some? && FiringFor(t, DedupKey(e)) == {LatestFiring(w, DedupKey(e)).value}
  {
    ActivityFollowsFlags(e.seen, Stored(t, DedupKey(e)));
    assert FiringFor(w, DedupKey(e)) == FiringFor(t, DedupKey(e));
    LatestIsTheOne(w, DedupKey(e));
  }

  lemma ClearedKeys(t: Tables, u: Tables, key: string, id: Id)
    requires FiringFor(t, key) == {id} && id in t.alerts
    requires id in u.alerts && u.alerts == t.alerts[id := u.alerts[id]] && !u.alerts[id].firing
    ensures FiringFor(u, key) == {}
    ensures forall k :: k != key ==> FiringFor(u, k) == FiringFor(t, k)
  {
    assert id in FiringFor(t, key);
    forall a ensures a !in FiringFor(u, key) {
      assert a in FiringFor(u, key) ==> a in FiringFor(t, key);
    }
    forall k | k != key ensures FiringFor(u, k) == FiringFor(t, k) {}
  }

  lemma ResolveKeepsKeys(t: Tables, u: Tables, e: Evaluation, id: Id)
    requires OneAlertPerActiveKey(t) && L.Advance(e.seen, Stored(t, DedupKey(e))).resolved
    requires FiringFor(t, DedupKey(e)) == {id} && id in t.alerts
    requires u.phases == WithPhase(t, e).phases && u.alerts == MarkResolved(t, id, e.seen.now).alerts
    ensures OneAlertPerActiveKey(u)
  {
    ActivityFollowsFlags(e.seen, Stored(t, DedupKey(e)));
    ClearedKeys(t, u, DedupKey(e), id);
    KeyCountsAfter(t, u, DedupKey(e));
  }

  lemma ResolveKeepsCoherence(t: Tables, e: Evaluation)
    requires Coherent(t) && L.Advance(e.seen, Stored(t, DedupKey(e))).resolved
    requires Resolve(WithPhase(t, e), e).Committed?
    ensures var r := Resolve(WithPhase(t, e), e);
            && Coherent(r.tables)
            && (EveryFiringAlertJoined(t) ==> EveryFiringAlertJoined(r.tables))
            && Advances(t, r.tables)
            && (r.effect.Close? ==> ClosedBy(t, r.tables, r.effect.incident))
            && !r.effect.Notify?
            && Cleared(t, r.tables, e)
            && (r.effect.Close? ==> r.tables.incidents[r.effect.incident].resolvedAt == Some(Unix(e.seen.now)))
  {
    hide Leave, L.Advance, L.Store, RowIsExact, GroupFor, OneAlertPerActiveKey;
    var key := DedupKey(e);
    var w := WithPhase(t, e);
    EventsDoNotMatter(t, w);
    ResolvedKeyHasOne(t, w, e);
    var id := LatestFiring(w, key).value;
    LeaveKeepsGrouping(w, id, e.seen.now);
    var left := Leave(MarkResolved(w, id, e.seen.now), id, e.seen.now);
    var u := Resolve(w, e).tables;
    EventsDoNotMatter(left.tables, u);
    ResolveKeepsKeys(t, u, e, id);
    if left.closed.Some? {
      LeaveExits(w, id, e.seen.now);
      ClosingIsStamped(MarkResolved(w, id, e.seen.now), id, e.seen.now);
    }
  }

  lemma ClosingIsStamped(t: Tables, id: Id, now: int)
    requires Leave(t, id, now).closed.Some?
    ensures var r := Leave(t, id, now);
            r.closed.value in r.tables.incidents && r.tables.incidents[r.closed.value].resolvedAt == Some(Unix(now))
  {
  }

  /** Of the alerts only the firing one of the key changed: it is resolved now. */
  ghost predicate Cleared(t: Tables, u: Tables, e: Evaluation) {
    exists id :: FiringFor(t, DedupKey(e)) == {id} && id in t.alerts &&
                 u.alerts == t.alerts[id := t.alerts[id].(firing := false, resolvedAt := Some(Unix(e.seen.now)))]
  }

  /** Incident `i` went from open to resolved. */
  ghost predicate ClosedBy(t: Tables, u: Tables, i: Id) {
    i in t.incidents && t.incidents[i].open && i in u.incidents && !u.incidents[i].open
  }

  lemma LatestIsTheOne(t: Tables, key: string)
    requires |FiringFor(t, key)| == 1
    ensures LatestFiring(t, key).Some? && FiringFor(t, key) == {LatestFiring(t, key).value}
  {
    var a :| a in FiringFor(t, key);
    SingletonOf(FiringFor(t, key), a);
    assert a in set b | b in FiringFor(t, key)
                        && forall c :: c in FiringFor(t, key) ==> t.alerts[c].startedAt <= t.alerts[b].startedAt;
  }

  // ---------------------------------------------------------------- evaluate as a whole

  /** Every committed `evaluate` keeps the alert and incident tables coherent, and what it asks of the
      notification half is true of the tables it leaves. */
  lemma EvaluateKeepsCoherence(t: Tables, e: Evaluation, interval: int)
    requires Coherent(t) && Evaluate(t, e, interval).Committed?
    ensures var r := Evaluate(t, e, interval);
            && Coherent(r.tables)
            && (EveryFiringAlertJoined(t) ==> EveryFiringAlertJoined(r.tables))
            && Advances(t, r.tables)
            && (r.effect.Notify? ==>
                  && r.effect.incident in r.tables.incidents && r.tables.incidents[r.effect.incident].open
                  && r.effect.severity == r.tables.incidents[r.effect.incident].severity)
            && (r.effect.Close? ==> ClosedBy(t, r.tables, r.effect.incident))
  {
    var transition := L.Advance(e.seen, Stored(t, DedupKey(e)));
    if transition.triggered {
      TriggerKeepsCoherence(t, e, interval);
    } else if transition.resolved {
      ResolveKeepsCoherence(t, e);
    } else {
      var u := WithPhase(t, e);
      EventsDoNotMatter(t, u);
      ActivityFollowsFlags(e.seen, Stored(t, DedupKey(e)));
      assert forall key :: FiringFor(u, key) == FiringFor(t, key);
      KeyCountsAfter(t, u, DedupKey(e));
    }
  }

  /** The two events of an alert share one primary key, so a step that resolves commits exactly when the
      event row written by the trigger has been purged in between. */
  lemma ResolutionCommitsIffEventWasPurged(t: Tables, e: Evaluation, interval: int)
    requires Coherent(t) && L.Advance(e.seen, Stored(t, DedupKey(e))).resolved
    ensures Evaluate(t, e, interval).Committed? <==> FiringFor(t, DedupKey(e)) !! t.events
  {
    ActivityFollowsFlags(e.seen, Stored(t, DedupKey(e)));
    assert FiringFor(WithPhase(t, e), DedupKey(e)) == FiringFor(t, DedupKey(e));
    LatestIsTheOne(WithPhase(t, e), DedupKey(e));
  }

  /** A step that triggers commits exactly when no alert of the key already started in the same second. */
  lemma TriggerCommitsIffStartIsFree(t: Tables, e: Evaluation, interval: int)
    requires Coherent(t) && L.Advance(e.seen, Stored(t, DedupKey(e))).triggered
    ensures Evaluate(t, e, interval).Committed? <==>
            forall a :: a in t.alerts && t.alerts[a].key == DedupKey(e) ==> t.alerts[a].startedAt != Unix(e.seen.now)
  {
    assert WithPhase(t, e).alerts == t.alerts;
    if AlertStartTaken(t, DedupKey(e), Unix(e.seen.now)) {
      var a :| a in t.alerts && t.alerts[a].key == DedupKey(e) && t.alerts[a].startedAt == Unix(e.seen.now);
      assert AlertStartTaken(WithPhase(t, e), DedupKey(e), Unix(e.seen.now));
    }
  }

  // ---------------------------------------------------------------- reconciliation and cleanup

  ghost function Orphans(t: Tables): set<Id> {
    set a | a in t.alerts && t.alerts[a].firing && a !in t.members
  }

  /** `order` lists the elements of `s`, each once. */
  ghost predicate Lists(order: seq<Id>, s: set<Id>) {
    && (forall x :: x in order <==> x in s)
    && (forall i, j :: 0 <= i < j < |order| ==> order[i] != order[j])
  }

  ghost function BackdateIncident(t: Tables, i: Id, startedAt: int): Tables
    requires i in t.incidents
  {
    if startedAt < t.incidents[i].openedAt then
      t.(incidents := t.incidents[i := t.incidents[i].(openedAt := startedAt)])
    else t
  }

  /** One round of the loop in `Reconcile`. */
  ghost function ReconcileOne(t: Tables, id: Id, now: int, interval: int): Tables
    requires id in t.alerts
  {
    var joined := Join(t, id, now, interval);
    BackdateIncident(joined.tables, joined.incident, t.alerts[id].startedAt)
  }

  /** `Reconcile`: join every listed alert without notifying, and backdate its incident. */
  ghost function Reconcile(t: Tables, order: seq<Id>, now: int, interval: int): Tables
    requires forall a :: a in order ==> a in t.alerts
    decreases |order|
  {
    if order == [] then t else Reconcile(ReconcileOne(t, order[0], now, interval), order[1..], now, interval)
  }

  lemma BackdatingKeepsGrouping(t: Tables, i: Id, startedAt: int)
    requires Grouped(t) && i in t.incidents && t.incidents[i].open
    ensures Grouped(BackdateIncident(t, i, startedAt)) && Advances(t, BackdateIncident(t, i, startedAt))
  {
    hide GroupFor;
    var u := BackdateIncident(t, i, startedAt);
    forall j | j in u.incidents ensures RowIsExact(u, j) {
      assert RowIsExact(t, j);
      SameFiringMembers(t, u, j);
    }
    assert forall j, group :: OpenIn(u, j, group) <==> OpenIn(t, j, group);
  }

  lemma ReconcileOneKeepsCoherence(t: Tables, id: Id, now: int, interval: int)
    requires Coherent(t) && id in t.alerts && t.alerts[id].firing && id !in t.members
    ensures var u := ReconcileOne(t, id, now, interval);
            && Coherent(u) && u.alerts == t.alerts && u.phases == t.phases && u.events == t.events
            && u.members.Keys == t.members.Keys + {id} && Advances(t, u)
  {
    hide Join, GroupFor, RowIsExact, OneAlertPerActiveKey;
    var joined := Join(t, id, now, interval);
    JoinKeepsGrouping(t, id, now, interval);
    BackdatingKeepsGrouping(joined.tables, joined.incident, t.alerts[id].startedAt);
    SameAlertsSameCounts(t, ReconcileOne(t, id, now, interval));
  }

  /** Reconciling any firing alerts that no incident holds keeps coherence and leaves none of them out. */
  lemma {:induction false} ReconcileKeepsCoherence(t: Tables, order: seq<Id>, now: int, interval: int)
    requires Coherent(t)
    requires forall a :: a in order ==> a in t.alerts && t.alerts[a].firing && a !in t.members
    requires forall i, j :: 0 <= i < j < |order| ==> order[i] != order[j]
    ensures var u := Reconcile(t, order, now, interval);
            && Coherent(u) && u.alerts == t.alerts && u.phases == t.phases && u.events == t.events
            && (forall a :: a in u.members <==> a in t.members || a in order)
            && Advances(t, u)
    decreases |order|
  {
    hide ReconcileOne, Coherent, Advances;
    if order == [] {
      AdvancesAlways(t);
    } else {
      ReconcileOneKeepsCoherence(t, order[0], now, interval);
      var u := ReconcileOne(t, order[0], now, interval);
      assert order == [order[0]] + order[1..];
      assert forall a :: a in order[1..] ==> a != order[0];
      ReconcileKeepsCoherence(u, order[1..], now, interval);
      AdvancesOn(t, u, Reconcile(t, order, now, interval));
    }
  }

  lemma AdvancesAlways(t: Tables)
    ensures Advances(t, t)
  {
  }

  lemma AdvancesOn(t: Tables, u: Tables, v: Tables)
    requires Advances(t, u) && Advances(u, v)
    ensures Advances(t, v)
  {
  }

  lemma ReconcileJoinsEverything(t: Tables, order: seq<Id>, now: int, interval: int)
    requires Coherent(t) && Lists(order, Orphans(t))
    ensures var u := Reconcile(t, order, now, interval);
            && Coherent(u) && EveryFiringAlertJoined(u) && Advances(t, u)
            && u.alerts == t.alerts && u.phases == t.phases && u.events == t.events
  {
    ReconcileKeepsCoherence(t, order, now, interval);
  }

  /** Resolved alerts older than `cutoff` go, and their memberships with them. */
  function ForgetAlerts(t: Tables, cutoff: int): Tables {
    var keep := set a | a in t.alerts
                        && (t.alerts[a].firing || t.alerts[a].resolvedAt == None
                            || cutoff <= t.alerts[a].resolvedAt.value);
    t.(alerts := map a | a in t.alerts && a in keep :: t.alerts[a],
       members := map a | a in t.members && a in keep :: t.members[a])
  }

  /** Resolved incidents older than `cutoff` go, and their memberships with them. */
  function OldIncidents(t: Tables, cutoff: int): set<Id> {
    set i | i in t.incidents && !t.incidents[i].open && t.incidents[i].resolvedAt.Some?
            && t.incidents[i].resolvedAt.value < cutoff
  }

  function ForgetIncidents(t: Tables, cutoff: int): Tables {
    t.(incidents := t.incidents - OldIncidents(t, cutoff),
       members := map a | a in t.members && t.members[a].incident !in OldIncidents(t, cutoff) :: t.members[a])
  }

  lemma ForgettingAlertsKeepsCoherence(t: Tables, cutoff: int)
    requires Coherent(t)
    ensures Coherent(ForgetAlerts(t, cutoff))
    ensures EveryFiringAlertJoined(t) ==> EveryFiringAlertJoined(ForgetAlerts(t, cutoff))
  {
    var u := ForgetAlerts(t, cutoff);
    assert forall key :: FiringFor(u, key) == FiringFor(t, key) && Stored(u, key) == Stored(t, key);
    assert OneAlertPerActiveKey(u);
    forall j | j in u.incidents ensures RowIsExact(u, j) {
      assert RowIsExact(t, j);
      SameFiringMembers(t, u, j);
    }
    assert forall j, group :: OpenIn(u, j, group) <==> OpenIn(t, j, group);
  }

  lemma ForgettingIncidentsKeepsCoherence(t: Tables, cutoff: int)
    requires Coherent(t)
    ensures Coherent(ForgetIncidents(t, cutoff))
    ensures EveryFiringAlertJoined(t) ==> EveryFiringAlertJoined(ForgetIncidents(t, cutoff))
  {
    var u := ForgetIncidents(t, cutoff);
    assert forall key :: FiringFor(u, key) == FiringFor(t, key) && Stored(u, key) == Stored(t, key);
    assert OneAlertPerActiveKey(u);
    assert forall a :: a in t.members && t.alerts[a].firing ==> a in u.members;
    forall j | j in u.incidents ensures RowIsExact(u, j) {
      assert RowIsExact(t, j);
      SameFiringMembers(t, u, j);
    }
    assert forall j, group :: OpenIn(u, j, group) ==> OpenIn(t, j, group);
  }

  /** Purging event rows does not touch coherence. */
  lemma PurgingEventsKeepsCoherence(t: Tables, gone: set<Id>)
    requires Coherent(t)
    ensures Coherent(t.(events := t.events - gone))
  {
    var u := t.(events := t.events - gone);
    EventsDoNotMatter(t, u);
    SameAlertsSameCounts(t, u);
  }
}
