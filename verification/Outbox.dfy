/**
 The delivery half of internal/notifications: channels and delivery rows, the statements that insert,
 coalesce and cancel them (repository.go) and the ones with which the worker claims, retries and
 finishes them (worker.go). Each function is one SQL statement or one loop over a query's rows.
 */
module Outbox {
  import opened Options
  import opened Alerting
  import Backoff

  datatype Channel = Channel(enabled: bool, deleted: bool, minimum: Severity, notifyResolved: bool)

  datatype Event = Opening | Update | Reminder | Resolution | Test

  datatype Status = Pending | InProgress | Succeeded | PermanentFailure | Cancelled

  datatype Delivery = Delivery(channel: Id, incident: Option<Id>, event: Event, status: Status, attempts: nat,
                               nextAttempt: Option<int>, startedAt: Option<int>, completedAt: Option<int>,
                               createdAt: int)

  datatype Box = Box(channels: map<Id, Channel>, deliveries: map<Id, Delivery>, nextDelivery: Id, nextChannel: Id)

  // ---------------------------------------------------------------- queries

  predicate Coalesces(e: Event) { e == Opening || e == Update }

  /** Row `d` belongs to incident `i` and channel `c`. */
  predicate Concerns(b: Box, d: Id, i: Id, c: Id) {
    d in b.deliveries && b.deliveries[d].incident == Some(i) && b.deliveries[d].channel == c
  }

  predicate Busy(b: Box, d: Id, i: Id, c: Id) {
    Concerns(b, d, i, c) && b.deliveries[d].status == InProgress
  }

  predicate IsWaiting(b: Box, d: Id, i: Id, c: Id) {
    Concerns(b, d, i, c) && b.deliveries[d].status == Pending && Coalesces(b.deliveries[d].event)
  }

  /** Pending opened/updated rows of a pair. */
  function Waiting(b: Box, i: Id, c: Id): set<Id> {
    set d | d in b.deliveries && IsWaiting(b, d, i, c)
  }

  /** Pending or in-progress opened/updated rows of a pair. */
  function Live(b: Box, i: Id, c: Id): set<Id> {
    set d | d in b.deliveries && (IsWaiting(b, d, i, c) || (Busy(b, d, i, c) && Coalesces(b.deliveries[d].event)))
  }

  predicate IsOldest(b: Box, d: Id, i: Id, c: Id) {
    && d in Waiting(b, i, c)
    && forall e :: e in Waiting(b, i, c) ==> b.deliveries[d].createdAt <= b.deliveries[e].createdAt
  }

  /** Of the rows that wait, one was created first. */
  lemma OldestExists(b: Box, i: Id, c: Id)
    ensures Waiting(b, i, c) != {} ==> exists d :: IsOldest(b, d, i, c)
  {
    if d :| d in Waiting(b, i, c) {
      var ages := set e | e in Waiting(b, i, c) :: b.deliveries[e].createdAt;
      SmallestInt(ages, b.deliveries[d].createdAt);
      var least :| least in ages && forall x :: x in ages ==> least <= x;
      var e :| e in Waiting(b, i, c) && b.deliveries[e].createdAt == least;
      forall f | f in Waiting(b, i, c) ensures b.deliveries[e].createdAt <= b.deliveries[f].createdAt {
        assert b.deliveries[f].createdAt in ages;
      }
      assert IsOldest(b, e, i, c);
    }
  }

  lemma {:induction false} SmallestInt(s: set<int>, x: int)
    requires x in s
    ensures exists m :: m in s && forall y :: y in s ==> m <= y
    decreases s
  {
    if y :| y in s && y < x {
      SmallestInt(s - {x}, y);
      var m :| m in s - {x} && forall z :: z in s - {x} ==> m <= z;
      assert y in s - {x};
      assert forall z :: z in s ==> z == x || z in s - {x};
    }
  }

  /** The row a new opened/updated event coalesces into: the oldest waiting one. */
  ghost function OldestWaiting(b: Box, i: Id, c: Id): (r: Option<Id>)
    ensures r.Some? ==> IsOldest(b, r.value, i, c)
    ensures r == None <==> Waiting(b, i, c) == {}
  {
    OldestExists(b, i, c);
    var oldest := set d | d in Waiting(b, i, c) && IsOldest(b, d, i, c);
    assert forall d :: IsOldest(b, d, i, c) ==> d in oldest;
    Least(oldest)
  }

  /** A row that counts as an earlier attempt to tell the channel about the incident. */
  predicate Attempted(r: Delivery) {
    && r.status != Cancelled
    && (r.attempts > 0 || r.status == InProgress || r.status == Succeeded || r.status == PermanentFailure)
  }

  ghost predicate AnyAttempt(b: Box, i: Id, c: Id) {
    exists d :: Concerns(b, d, i, c) && Attempted(b.deliveries[d])
  }

  ghost predicate AnyUncancelled(b: Box, i: Id, c: Id) {
    exists d :: Concerns(b, d, i, c) && b.deliveries[d].status != Cancelled
  }

  function Targets(b: Box): set<Id> {
    set c | c in b.channels && b.channels[c].enabled && !b.channels[c].deleted
  }

  function ResolutionTargets(b: Box): set<Id> {
    set c | c in b.channels && b.channels[c].enabled && !b.channels[c].deleted && b.channels[c].notifyResolved
  }

  // ---------------------------------------------------------------- enqueueing

  function Insert(b: Box, row: Delivery): Box {
    b.(deliveries := b.deliveries[b.nextDelivery := row], nextDelivery := b.nextDelivery + 1)
  }

  function NewRow(i: Option<Id>, c: Id, event: Event, due: int, clock: int): Delivery {
    Delivery(c, i, event, Pending, 0, Some(Unix(due)), None, None, Unix(clock))
  }

  /** `upsertDeliveryTx`: refresh the oldest waiting row, or insert one. */
  ghost function Upsert(b: Box, i: Id, c: Id, event: Event, due: int, clock: int): Box {
    var row := OldestWaiting(b, i, c);
    if Coalesces(event) && row.Some? then
      b.(deliveries := b.deliveries[row.value := b.deliveries[row.value].(nextAttempt := Some(Unix(due)))])
    else Insert(b, NewRow(Some(i), c, event, due, clock))
  }

  /** Whether `enqueueIncidentTx` writes to a channel. */
  ghost predicate Accepts(b: Box, i: Id, c: Id, event: Event, severity: Severity)
    requires c in b.channels
  {
    && (b.channels[c].minimum == Critical && severity != Critical ==> event == Resolution && AnyUncancelled(b, i, c))
    && (event == Resolution ==> b.channels[c].notifyResolved)
  }

  /** `enqueueIncidentTx` over the channels its query returned. */
  ghost function EnqueueIncident(b: Box, order: seq<Id>, i: Id, event: Event, severity: Severity, due: int,
                                 clock: int): Box
    requires forall c :: c in order ==> c in b.channels
    decreases |order|
  {
    if order == [] then b else
      var b' := if Accepts(b, i, order[0], event, severity) then Upsert(b, i, order[0], event, due, clock) else b;
      EnqueueIncident(b', order[1..], i, event, severity, due, clock)
  }

  function CancelRow(r: Delivery, now: int): Delivery {
    r.(status := Cancelled, completedAt := Some(Unix(now)), nextAttempt := None)
  }

  function Cancel(b: Box, rows: set<Id>, now: int): Box {
    b.(deliveries := map d | d in b.deliveries ::
         if d in rows then CancelRow(b.deliveries[d], now) else b.deliveries[d])
  }

  function Untried(b: Box, i: Id, c: Id): set<Id> {
    set d | d in Waiting(b, i, c) && b.deliveries[d].attempts == 0
  }

  /** One round of the loop in `enqueueResolutionTx`. */
  ghost function ResolveChannel(b: Box, i: Id, c: Id, now: int, clock: int): Box {
    if !AnyAttempt(b, i, c) then Cancel(b, Untried(b, i, c), now)
    else Upsert(Cancel(b, Waiting(b, i, c), now), i, c, Resolution, now, clock)
  }

  ghost function EnqueueResolution(b: Box, order: seq<Id>, i: Id, now: int, clock: int): Box
    decreases |order|
  {
    if order == [] then b else EnqueueResolution(ResolveChannel(b, i, order[0], now, clock), order[1..], i, now, clock)
  }

  // ---------------------------------------------------------------- the worker

  /** The guard of the claiming UPDATE in `deliver`. */
  ghost predicate Claimable(b: Box, id: Id, now: int) {
    && id in b.deliveries && b.deliveries[id].status == Pending
    && b.deliveries[id].nextAttempt.Some? && b.deliveries[id].nextAttempt.value <= Unix(now)
    && forall d, i :: b.deliveries[id].incident == Some(i) && Busy(b, d, i, b.deliveries[id].channel) ==> d == id
  }

  function Claim(b: Box, id: Id, now: int): Box
    requires id in b.deliveries
  {
    b.(deliveries := b.deliveries[id := b.deliveries[id].(status := InProgress, startedAt := Some(Unix(now)))])
  }

  datatype Result = Result(success: bool, retryable: bool, retryAfter: Backoff.RetryAfter)

  function FinishRow(r: Delivery, result: Result, now: int): Delivery {
    var attempts := r.attempts + 1;
    if result.success then
      r.(status := Succeeded, attempts := attempts, completedAt := Some(Unix(now)), nextAttempt := None)
    else
      match Backoff.RetryDelay(attempts, result.retryable, Backoff.ParseRetryAfter(result.retryAfter))
      case After(delay) =>
        r.(status := Pending, attempts := attempts, startedAt := None, nextAttempt := Some(Unix(now + delay)))
      case GiveUp =>
        r.(status := PermanentFailure, attempts := attempts, completedAt := Some(Unix(now)), nextAttempt := None)
  }

  function Finish(b: Box, id: Id, result: Result, now: int): Box {
    if id !in b.deliveries then b
    else b.(deliveries := b.deliveries[id := FinishRow(b.deliveries[id], result, now)])
  }

  function RecoverRow(r: Delivery, now: int): Delivery {
    if r.status == InProgress then r.(status := Pending, startedAt := None, nextAttempt := Some(Unix(now))) else r
  }

  /** The recovery statement of `Start`. */
  function Recover(b: Box, now: int): Box {
    b.(deliveries := map d | d in b.deliveries :: RecoverRow(b.deliveries[d], now))
  }

  /** Manual retry of a permanently failed delivery. */
  function Retry(b: Box, id: Id, now: int): Box {
    if id in b.deliveries && b.deliveries[id].status == PermanentFailure then
      var row := b.deliveries[id].(status := Pending, attempts := 0, startedAt := None,
                                   nextAttempt := Some(Unix(now)), completedAt := None);
      b.(deliveries := b.deliveries[id := row])
    else b
  }

  // ---------------------------------------------------------------- channels and cleanup

  function PendingOn(b: Box, c: Id): set<Id> {
    set d | d in b.deliveries && b.deliveries[d].channel == c && b.deliveries[d].status == Pending
  }

  const CHANNEL_LIMIT := 32

  function Undeleted(b: Box): set<Id> { set c | c in b.channels && !b.channels[c].deleted }

  function CreateChannel(b: Box, enabled: bool, minimum: Severity, notifyResolved: bool): Box {
    if |Undeleted(b)| >= CHANNEL_LIMIT then b
    else b.(channels := b.channels[b.nextChannel := Channel(enabled, false, minimum, notifyResolved)],
            nextChannel := b.nextChannel + 1)
  }

  function PatchChannel(b: Box, c: Id, enabled: bool, minimum: Severity, notifyResolved: bool, now: int): Box {
    if c !in b.channels || b.channels[c].deleted then b
    else
      var b' := b.(channels := b.channels[c := Channel(enabled, false, minimum, notifyResolved)]);
      if enabled then b' else Cancel(b', PendingOn(b', c), now)
  }

  function DeleteChannel(b: Box, c: Id, now: int): Box {
    if c !in b.channels || b.channels[c].deleted then b
    else
      var b' := b.(channels := b.channels[c := b.channels[c].(enabled := false, deleted := true)]);
      Cancel(b', PendingOn(b', c), now)
  }

  function SendTest(b: Box, c: Id, now: int): Box {
    if c !in b.channels || b.channels[c].deleted then b
    else Insert(b, NewRow(None, c, Test, now, now))
  }

  predicate Terminal(s: Status) {
    s == Succeeded || s == PermanentFailure || s == Cancelled
  }

  /** Finished rows older than `cutoff` go. */
  function ForgetDeliveries(b: Box, cutoff: int): Box {
    b.(deliveries := map d | d in b.deliveries
                       && !(Terminal(b.deliveries[d].status) && b.deliveries[d].completedAt.Some?
                            && b.deliveries[d].completedAt.value < cutoff) :: b.deliveries[d])
  }

  function DetachRow(r: Delivery, gone: set<Id>): Delivery {
    if r.incident.Some? && r.incident.value in gone then r.(incident := None) else r
  }

  /** Deleting incidents sets the incident column of their deliveries to NULL. */
  function Detach(b: Box, gone: set<Id>): Box {
    b.(deliveries := map d | d in b.deliveries :: DetachRow(b.deliveries[d], gone))
  }

  // ---------------------------------------------------------------- invariants

  predicate RowOk(r: Delivery) {
    match r.status
    case Pending => r.nextAttempt.Some? && r.startedAt == None && r.completedAt == None && r.attempts <= 6
    case InProgress => r.startedAt.Some? && r.completedAt == None && r.attempts <= 6
    case Succeeded => r.nextAttempt == None && r.completedAt.Some? && 1 <= r.attempts <= 7
    case PermanentFailure => r.nextAttempt == None && r.completedAt.Some? && 1 <= r.attempts <= 7
    case Cancelled => r.nextAttempt == None && r.completedAt.Some? && r.attempts <= 6
  }

  /** Rows are well formed: a pending row is due some time, a finished one says when, ids are fresh. */
  ghost predicate RowsOk(b: Box) {
    && (forall d :: d in b.deliveries ==>
          d < b.nextDelivery && RowOk(b.deliveries[d]) && b.deliveries[d].channel in b.channels)
    && (forall c :: c in b.channels ==> c < b.nextChannel)
  }

  /** At most one delivery of an incident to a channel is in progress. */
  ghost predicate OneInProgress(b: Box) {
    forall d, e, i, c :: Busy(b, d, i, c) && Busy(b, e, i, c) ==> d == e
  }

  /** At most two live opened/updated rows per pair, not counting rows someone retried by hand. */
  ghost predicate AtMostTwoLive(b: Box, retried: set<Id>) {
    forall i, c {:trigger Live(b, i, c)} :: |Live(b, i, c) - retried| <= 2
  }

  /** A row that records an attempt belongs to a pair that a worker has claimed before. */
  ghost predicate AttemptsWereClaimed(b: Box, claimed: set<(Id, Id)>) {
    forall d, i: Id, c: Id :: Concerns(b, d, i, c) && Attempted(b.deliveries[d]) ==> (i, c) in claimed
  }

  predicate Announces(b: Box, d: Id, i: Id, c: Id) {
    Concerns(b, d, i, c) && b.deliveries[d].event == Resolution
  }

  /** A resolution is announced once per channel, for a resolved incident, to a channel that was tried before. */
  ghost predicate ResolutionsOk(b: Box, claimed: set<(Id, Id)>, incidents: map<Id, Incident>) {
    && (forall d, e, i, c :: Announces(b, d, i, c) && Announces(b, e, i, c) ==> d == e)
    && (forall d, i: Id, c: Id :: Announces(b, d, i, c) ==> (i, c) in claimed && i in incidents && !incidents[i].open)
  }

  ghost predicate KnownIncidents(b: Box, incidents: map<Id, Incident>) {
    forall d, i, c :: Concerns(b, d, i, c) ==> i in incidents
  }

  ghost predicate Sound(b: Box, claimed: set<(Id, Id)>, retried: set<Id>, incidents: map<Id, Incident>) {
    && RowsOk(b)
    && OneInProgress(b)
    && AtMostTwoLive(b, retried)
    && AttemptsWereClaimed(b, claimed)
    && ResolutionsOk(b, claimed, incidents)
    && KnownIncidents(b, incidents)
  }

  // ---------------------------------------------------------------- steps that only calm rows down

  /** `s` is `r` after a change that starts nothing: no new claim, no revival, no new attempt. */
  predicate CalmerRow(r: Delivery, s: Delivery) {
    && s.channel == r.channel && s.event == r.event && (s.incident == r.incident || s.incident == None)
    && (s.status == InProgress ==> r.status == InProgress)
    && (s.status == Pending ==> r.status == Pending || r.status == InProgress)
    && (Attempted(s) ==> Attempted(r))
  }

  ghost predicate Calmer(b: Box, b': Box) {
    forall d :: d in b'.deliveries ==> d in b.deliveries && CalmerRow(b.deliveries[d], b'.deliveries[d])
  }

  lemma SmallerDifference<T>(a: set<T>, b: set<T>, r: set<T>)
    requires a <= b
    ensures |a - r| <= |b - r|
  {
    assert a - r <= b - r;
    CardinalityMonotone(a - r, b - r);
  }

  lemma CardinalityMonotone<T>(a: set<T>, b: set<T>)
    requires a <= b
    ensures |a| <= |b|
  {
    assert b == a + (b - a);
  }

  lemma CalmerKeepsSoundness(b: Box, b': Box, claimed: set<(Id, Id)>, retried: set<Id>, incidents: map<Id, Incident>)
    requires Sound(b, claimed, retried, incidents) && Calmer(b, b') && RowsOk(b')
    ensures Sound(b', claimed, retried, incidents)
  {
    forall d, i, c | Concerns(b', d, i, c) ensures Concerns(b, d, i, c) {}
    forall i, c ensures |Live(b', i, c) - retried| <= 2 {
      assert Live(b', i, c) <= Live(b, i, c);
      SmallerDifference(Live(b', i, c), Live(b, i, c), retried);
    }
    assert forall d, i, c :: Busy(b', d, i, c) ==> Busy(b, d, i, c);
    assert forall d, i, c :: Announces(b', d, i, c) ==> Announces(b, d, i, c);
  }

  // ---------------------------------------------------------------- steps that start something

  lemma LiveAfterInsert(b: Box, row: Delivery, i: Id, c: Id)
    requires b.nextDelivery !in b.deliveries && row.status == Pending
    ensures Live(Insert(b, row), i, c) ==
            if row.incident == Some(i) && row.channel == c && Coalesces(row.event) then Live(b, i, c) + {b.nextDelivery}
            else Live(b, i, c)
  {
  }

  lemma BusyRowsAreOne(b: Box, i: Id, c: Id)
    requires OneInProgress(b) && Waiting(b, i, c) == {}
    ensures |Live(b, i, c)| <= 1
  {
    forall d | d in Live(b, i, c) ensures Busy(b, d, i, c) {
      assert d !in Waiting(b, i, c);
    }
    AtMostOne(Live(b, i, c));
  }

  /** A fresh pending row, waiting behind nothing that is waiting, keeps the count of live rows at two. */
  lemma InsertKeepsLive(b: Box, row: Delivery, retried: set<Id>, i: Id, c: Id)
    requires RowsOk(b) && OneInProgress(b) && |Live(b, i, c) - retried| <= 2
    requires row.status == Pending
    requires Coalesces(row.event) && row.incident == Some(i) && row.channel == c ==> Waiting(b, i, c) == {}
    ensures |Live(Insert(b, row), i, c) - retried| <= 2
  {
    LiveAfterInsert(b, row, i, c);
    if row.incident == Some(i) && row.channel == c && Coalesces(row.event) {
      BusyRowsAreOne(b, i, c);
      var live := Live(b, i, c) + {b.nextDelivery};
      CardinalityMonotone(live - retried, live);
    }
  }

  lemma AtMostOne<T>(s: set<T>)
    requires forall x, y :: x in s && y in s ==> x == y
    ensures |s| <= 1
  {
    if x :| x in s { assert s == {x}; }
  }

  lemma InsertKeepsSoundness(b: Box, row: Delivery, claimed: set<(Id, Id)>, retried: set<Id>, incidents: map<Id,
                             Incident>)
    requires Sound(b, claimed, retried, incidents)
    requires RowOk(row) && row.status == Pending && row.attempts == 0 && row.channel in b.channels
    requires row.incident.Some? ==> row.incident.value in incidents
    requires Coalesces(row.event) && row.incident.Some? ==> Waiting(b, row.incident.value, row.channel) == {}
    requires row.event == Resolution && row.incident.Some? ==>
               && (row.incident.value, row.channel) in claimed && !incidents[row.incident.value].open
               && forall d :: !Announces(b, d, row.incident.value, row.channel)
    ensures Sound(Insert(b, row), claimed, retried, incidents)
  {
    forall i: Id, c: Id { InsertKeepsLive(b, row, retried, i, c); }
    var b', n := Insert(b, row), b.nextDelivery;
    forall d, i, c ensures d != n ==> (Concerns(b', d, i, c) <==> Concerns(b, d, i, c)) {}
    assert forall d, i, c :: Busy(b', d, i, c) ==> Busy(b, d, i, c);
    assert forall d, i, c :: Announces(b', d, i, c) && d != n ==> Announces(b, d, i, c);
  }

  /** Enqueueing anything but a resolution keeps the outbox sound. */
  lemma UpsertKeepsSoundness(b: Box, i: Id, c: Id, event: Event, due: int, clock: int,
                             claimed: set<(Id, Id)>, retried: set<Id>, incidents: map<Id, Incident>)
    requires Sound(b, claimed, retried, incidents) && c in b.channels && i in incidents
    requires event == Resolution ==>
               (i, c) in claimed && !incidents[i].open && forall d :: !Announces(b, d, i, c)
    ensures Sound(Upsert(b, i, c, event, due, clock), claimed, retried, incidents)
    ensures Upsert(b, i, c, event, due, clock).channels == b.channels
  {
    if Coalesces(event) && OldestWaiting(b, i, c).Some? {
      CalmerKeepsSoundness(b, Upsert(b, i, c, event, due, clock), claimed, retried, incidents);
    } else {
      InsertKeepsSoundness(b, NewRow(Some(i), c, event, due, clock), claimed, retried, incidents);
    }
  }

  /** A claim leaves every row with its pair, and every pair with its live rows. */
  lemma ClaimKeepsPairs(b: Box, id: Id, now: int)
    requires Claimable(b, id, now)
    ensures forall d, i, c :: Concerns(Claim(b, id, now), d, i, c) <==> Concerns(b, d, i, c)
    ensures forall d, i, c :: Busy(Claim(b, id, now), d, i, c) && d != id ==> Busy(b, d, i, c)
    ensures forall i, c :: Live(Claim(b, id, now), i, c) == Live(b, i, c)
    ensures forall d, i, c :: Announces(Claim(b, id, now), d, i, c) ==> Announces(b, d, i, c)
  {
    forall i, c ensures Live(Claim(b, id, now), i, c) == Live(b, i, c) {}
  }

  lemma ClaimIsExclusive(b: Box, id: Id, now: int)
    requires RowsOk(b) && OneInProgress(b) && Claimable(b, id, now)
    ensures RowsOk(Claim(b, id, now)) && OneInProgress(Claim(b, id, now))
  {
    ClaimKeepsPairs(b, id, now);
  }

  lemma ClaimKeepsSoundness(b: Box, id: Id, now: int, claimed: set<(Id, Id)>, retried: set<Id>, incidents: map<Id,
                            Incident>)
    requires Sound(b, claimed, retried, incidents) && Claimable(b, id, now)
    ensures var row := b.deliveries[id];
            Sound(Claim(b, id, now),
                  if row.incident == None then claimed else claimed + {(row.incident.value, row.channel)},
                  retried, incidents)
  {
    hide Live, RowsOk, OneInProgress, Busy;
    ClaimKeepsPairs(b, id, now);
    ClaimIsExclusive(b, id, now);
  }

  lemma RetryKeepsSoundness(b: Box, id: Id, now: int, claimed: set<(Id, Id)>, retried: set<Id>, incidents: map<Id,
                            Incident>)
    requires Sound(b, claimed, retried, incidents)
    ensures Sound(Retry(b, id, now), claimed, retried + {id}, incidents)
  {
    var b' := Retry(b, id, now);
    forall d, i, c ensures Concerns(b', d, i, c) <==> Concerns(b, d, i, c) {}
    forall i, c ensures |Live(b', i, c) - (retried + {id})| <= 2 {
      assert Live(b', i, c) - (retried + {id}) <= Live(b, i, c) - retried;
      CardinalityMonotone(Live(b', i, c) - (retried + {id}), Live(b, i, c) - retried);
    }
    assert forall d, i, c :: Busy(b', d, i, c) ==> Busy(b, d, i, c);
    assert forall d, i, c :: Announces(b', d, i, c) ==> Announces(b, d, i, c);
  }

  // ---------------------------------------------------------------- the calm steps

  lemma CancelIsCalm(b: Box, rows: set<Id>, now: int)
    requires RowsOk(b) && forall d :: d in rows && d in b.deliveries ==> b.deliveries[d].status == Pending
    ensures RowsOk(Cancel(b, rows, now)) && Calmer(b, Cancel(b, rows, now))
  {
  }

  lemma FinishIsCalm(b: Box, id: Id, result: Result, now: int)
    requires RowsOk(b) && id in b.deliveries && b.deliveries[id].status == InProgress
    ensures RowsOk(Finish(b, id, result, now)) && Calmer(b, Finish(b, id, result, now))
  {
  }

  lemma RecoverIsCalm(b: Box, now: int)
    requires RowsOk(b)
    ensures RowsOk(Recover(b, now)) && Calmer(b, Recover(b, now))
    ensures forall d :: d in b.deliveries ==> Recover(b, now).deliveries[d].status != InProgress
  {
  }

  lemma PatchingIsCalm(b: Box, c: Id, enabled: bool, minimum: Severity, notifyResolved: bool, now: int)
    requires RowsOk(b)
    ensures var b' := PatchChannel(b, c, enabled, minimum, notifyResolved, now); RowsOk(b') && Calmer(b, b')
  {
  }

  lemma DeletingIsCalm(b: Box, c: Id, now: int)
    requires RowsOk(b)
    ensures var b' := DeleteChannel(b, c, now); RowsOk(b') && Calmer(b, b')
  {
  }

  lemma CreatingIsCalm(b: Box, enabled: bool, minimum: Severity, notifyResolved: bool)
    requires RowsOk(b)
    ensures var b' := CreateChannel(b, enabled, minimum, notifyResolved); RowsOk(b') && Calmer(b, b')
  {
  }

  lemma ForgettingIsCalm(b: Box, cutoff: int, gone: set<Id>)
    requires RowsOk(b)
    ensures RowsOk(ForgetDeliveries(b, cutoff)) && Calmer(b, ForgetDeliveries(b, cutoff))
    ensures RowsOk(Detach(b, gone)) && Calmer(b, Detach(b, gone))
  {
  }

  lemma DetachKeepsSoundness(b: Box, gone: set<Id>, claimed: set<(Id, Id)>, retried: set<Id>, incidents: map<Id,
                             Incident>)
    requires Sound(b, claimed, retried, incidents)
    ensures Sound(Detach(b, gone), claimed, retried, incidents - gone)
  {
    var b' := Detach(b, gone);
    ForgettingIsCalm(b, 0, gone);
    CalmerKeepsSoundness(b, b', claimed, retried, incidents);
    assert forall d, i, c :: Concerns(b', d, i, c) ==> i !in gone;
  }

  // ---------------------------------------------------------------- loops over channels

  lemma {:induction false} EnqueueIncidentKeepsSoundness(
      b: Box, order: seq<Id>, i: Id, event: Event, severity: Severity, due: int, clock: int,
      claimed: set<(Id, Id)>, retried: set<Id>, incidents: map<Id, Incident>)
    requires Sound(b, claimed, retried, incidents) && i in incidents && event != Resolution
    requires forall c :: c in order ==> c in b.channels
    ensures Sound(EnqueueIncident(b, order, i, event, severity, due, clock), claimed, retried, incidents)
    decreases |order|
  {
    if order != [] {
      var c := order[0];
      UpsertKeepsSoundness(b, i, c, event, due, clock, claimed, retried, incidents);
      var b' := if Accepts(b, i, c, event, severity) then Upsert(b, i, c, event, due, clock) else b;
      EnqueueIncidentKeepsSoundness(b', order[1..], i, event, severity, due, clock, claimed, retried, incidents);
    }
  }

  /** `b'` has the same rows as `b` for one pair. */
  ghost predicate SamePair(b: Box, b': Box, i: Id, c: Id) {
    forall d :: (Concerns(b, d, i, c) <==> Concerns(b', d, i, c))
                && (Concerns(b, d, i, c) ==> b'.deliveries[d] == b.deliveries[d])
  }

  lemma SamePairSameAnswers(b: Box, b': Box, i: Id, c: Id)
    requires SamePair(b, b', i, c)
    ensures Waiting(b', i, c) == Waiting(b, i, c)
    ensures AnyAttempt(b', i, c) <==> AnyAttempt(b, i, c)
    ensures forall d :: Announces(b', d, i, c) <==> Announces(b, d, i, c)
  {
    assert forall d :: IsWaiting(b, d, i, c) <==> IsWaiting(b', d, i, c);
    if AnyAttempt(b, i, c) {
      var d :| Concerns(b, d, i, c) && Attempted(b.deliveries[d]);
      assert Concerns(b', d, i, c);
    }
    if AnyAttempt(b', i, c) {
      var d :| Concerns(b', d, i, c) && Attempted(b'.deliveries[d]);
      assert Concerns(b, d, i, c);
    }
  }

  predicate OnChannel(b: Box, d: Id, c: Id) { d in b.deliveries && b.deliveries[d].channel == c }

  /** `b'` has the rows of `b` for one channel, whatever they are about. */
  ghost predicate SameChannel(b: Box, b': Box, c: Id) {
    forall d :: (OnChannel(b, d, c) <==> OnChannel(b', d, c))
                && (OnChannel(b, d, c) ==> b'.deliveries[d] == b.deliveries[d])
  }

  lemma SameChannelSamePair(b: Box, b': Box, i: Id, c: Id)
    requires SameChannel(b, b', c)
    ensures SamePair(b, b', i, c)
  {
    assert forall d :: Concerns(b, d, i, c) ==> OnChannel(b, d, c);
    assert forall d :: Concerns(b', d, i, c) ==> OnChannel(b', d, c);
  }

  lemma UpsertLeavesOtherChannels(b: Box, i: Id, c: Id, event: Event, due: int, clock: int, c': Id)
    requires RowsOk(b) && c' != c
    ensures SameChannel(b, Upsert(b, i, c, event, due, clock), c')
  {
  }

  /** Row `d` still has to tell channel `c` of incident `i`. */
  predicate Pends(b: Box, d: Id, i: Id, c: Id) {
    && OnChannel(b, d, c) && b.deliveries[d].incident == Some(i) && b.deliveries[d].status == Pending
    && b.deliveries[d].event in {Opening, Update}
  }

  /** Row `d` was tried: claimed at least once, and not cancelled since. */
  predicate WasTried(b: Box, d: Id, i: Id, c: Id) {
    && OnChannel(b, d, c) && b.deliveries[d].incident == Some(i)
    && (b.deliveries[d].status in {InProgress, Succeeded, PermanentFailure}
        || (b.deliveries[d].status == Pending && b.deliveries[d].attempts > 0))
  }

  /** Of the rows of channel `c` those that still have to tell of incident `i` are cancelled, and no others change. */
  ghost predicate Withdrawn(b: Box, b': Box, i: Id, c: Id, now: int) {
    forall d :: OnChannel(b, d, c) ==>
      && OnChannel(b', d, c)
      && b'.deliveries[d] == if Pends(b, d, i, c)
                             then b.deliveries[d].(status := Cancelled, completedAt := Some(Unix(now)),
                                                   nextAttempt := None)
                             else b.deliveries[d]
  }

  /** Channel `c` has got exactly one new row. */
  ghost predicate Gains(b: Box, b': Box, c: Id, row: Delivery) {
    exists n :: && b.nextDelivery <= n && OnChannel(b', n, c) && b'.deliveries[n] == row
                && forall d :: OnChannel(b', d, c) && d != n ==> OnChannel(b, d, c)
  }

  /** What closing incident `i` does to a channel it serves: what still has to be told is withdrawn, and if anything was
      tried, a resolution due now is added. */
  ghost predicate Settled(b: Box, b': Box, i: Id, c: Id, now: int, clock: int) {
    && Withdrawn(b, b', i, c, now)
    && if exists d :: WasTried(b, d, i, c)
       then Gains(b, b', c, Delivery(c, Some(i), Resolution, Pending, 0, Some(Unix(now)), None, None, Unix(clock)))
       else forall d :: OnChannel(b', d, c) ==> OnChannel(b, d, c)
  }

  lemma TriedMeansAttempted(b: Box, i: Id, c: Id)
    ensures AnyAttempt(b, i, c) <==> exists d :: WasTried(b, d, i, c)
    ensures forall d :: d in Waiting(b, i, c) <==> Pends(b, d, i, c)
  {
    if d :| Concerns(b, d, i, c) && Attempted(b.deliveries[d]) { assert WasTried(b, d, i, c); }
    if d :| WasTried(b, d, i, c) { assert Concerns(b, d, i, c); }
  }

  lemma CancelClearsWaiting(b: Box, i: Id, c: Id, now: int)
    requires RowsOk(b)
    ensures Waiting(Cancel(b, Waiting(b, i, c), now), i, c) == {}
    ensures !AnyAttempt(b, i, c) ==> Untried(b, i, c) == Waiting(b, i, c)
    ensures forall d :: Announces(Cancel(b, Waiting(b, i, c), now), d, i, c) <==> Announces(b, d, i, c)
  {
    if !AnyAttempt(b, i, c) {
      forall d | d in Waiting(b, i, c) ensures b.deliveries[d].attempts == 0 {
        assert Concerns(b, d, i, c);
      }
    }
  }

  lemma ResolveChannelSettles(b: Box, i: Id, c: Id, now: int, clock: int)
    requires RowsOk(b)
    ensures Settled(b, ResolveChannel(b, i, c, now, clock), i, c, now, clock)
  {
    CancelClearsWaiting(b, i, c, now);
    TriedMeansAttempted(b, i, c);
    CancelWithdraws(b, i, c, now);
    if AnyAttempt(b, i, c) { InsertGains(b, Cancel(b, Waiting(b, i, c), now), i, c, now, clock); }
  }

  lemma CancelWithdraws(b: Box, i: Id, c: Id, now: int)
    ensures Withdrawn(b, Cancel(b, Waiting(b, i, c), now), i, c, now)
  {
    TriedMeansAttempted(b, i, c);
  }

  lemma InsertGains(b: Box, b1: Box, i: Id, c: Id, now: int, clock: int)
    requires RowsOk(b) && b1 == Cancel(b, Waiting(b, i, c), now)
    ensures var b2 := Upsert(b1, i, c, Resolution, now, clock);
            && Withdrawn(b, b2, i, c, now)
            && Gains(b, b2, c, Delivery(c, Some(i), Resolution, Pending, 0, Some(Unix(now)), None, None, Unix(clock)))
  {
    CancelWithdraws(b, i, c, now);
    var b2 := Upsert(b1, i, c, Resolution, now, clock);
    assert OnChannel(b2, b.nextDelivery, c);
    assert forall d :: OnChannel(b1, d, c) ==> OnChannel(b2, d, c) && b2.deliveries[d] == b1.deliveries[d];
  }

  lemma ResolveChannelLeavesOthers(b: Box, i: Id, c: Id, now: int, clock: int, c': Id)
    requires RowsOk(b) && c' != c
    ensures SameChannel(b, ResolveChannel(b, i, c, now, clock), c')
    ensures b.nextDelivery <= ResolveChannel(b, i, c, now, clock).nextDelivery
  {
    var b' := Cancel(b, Waiting(b, i, c), now);
    CancelIsCalm(b, Waiting(b, i, c), now);
    UpsertLeavesOtherChannels(b', i, c, Resolution, now, clock, c');
  }

  lemma ResolveChannelKeepsSoundness(b: Box, i: Id, c: Id, now: int, clock: int,
                                     claimed: set<(Id, Id)>, retried: set<Id>, incidents: map<Id, Incident>)
    requires Sound(b, claimed, retried, incidents) && c in b.channels && i in incidents && !incidents[i].open
    requires forall d :: !Announces(b, d, i, c)
    ensures Sound(ResolveChannel(b, i, c, now, clock), claimed, retried, incidents)
    ensures ResolveChannel(b, i, c, now, clock).channels == b.channels
  {
    if !AnyAttempt(b, i, c) {
      CancelIsCalm(b, Untried(b, i, c), now);
      CalmerKeepsSoundness(b, Cancel(b, Untried(b, i, c), now), claimed, retried, incidents);
    } else {
      var b' := Cancel(b, Waiting(b, i, c), now);
      CancelIsCalm(b, Waiting(b, i, c), now);
      CalmerKeepsSoundness(b, b', claimed, retried, incidents);
      CancelClearsWaiting(b, i, c, now);
      UpsertKeepsSoundness(b', i, c, Resolution, now, clock, claimed, retried, incidents);
    }
  }

  /** Announcing a resolution to channels that have not heard of it keeps the outbox sound. */
  lemma {:induction false} EnqueueResolutionKeepsSoundness(
      b: Box, order: seq<Id>, i: Id, now: int, clock: int,
      claimed: set<(Id, Id)>, retried: set<Id>, incidents: map<Id, Incident>)
    requires Sound(b, claimed, retried, incidents) && i in incidents && !incidents[i].open
    requires forall c :: c in order ==> c in b.channels
    requires forall c, d :: c in order ==> !Announces(b, d, i, c)
    requires forall k, l :: 0 <= k < l < |order| ==> order[k] != order[l]
    ensures Sound(EnqueueResolution(b, order, i, now, clock), claimed, retried, incidents)
    decreases |order|
  {
    if order != [] {
      var c0, rest := order[0], order[1..];
      var b' := ResolveChannel(b, i, c0, now, clock);
      ResolveChannelKeepsSoundness(b, i, c0, now, clock, claimed, retried, incidents);
      forall c, d | c in rest ensures !Announces(b', d, i, c) {
        ResolveChannelLeavesOthers(b, i, c0, now, clock, c);
        SameChannelSamePair(b, b', i, c);
        SamePairSameAnswers(b, b', i, c);
      }
      EnqueueResolutionKeepsSoundness(b', rest, i, now, clock, claimed, retried, incidents);
    }
  }

  lemma ResolveChannelKeepsRows(b: Box, i: Id, c: Id, now: int, clock: int)
    requires RowsOk(b) && c in b.channels
    ensures RowsOk(ResolveChannel(b, i, c, now, clock)) && ResolveChannel(b, i, c, now, clock).channels == b.channels
  {
    hide RowsOk, Cancel, Upsert;
    CancelIsCalm(b, Waiting(b, i, c), now);
    CancelIsCalm(b, Untried(b, i, c), now);
    CancelKeepsChannels(b, Waiting(b, i, c), now);
    CancelKeepsChannels(b, Untried(b, i, c), now);
    UpsertKeepsRows(Cancel(b, Waiting(b, i, c), now), i, c, Resolution, now, clock);
  }

  lemma CancelKeepsChannels(b: Box, rows: set<Id>, now: int)
    ensures Cancel(b, rows, now).channels == b.channels
  {
  }

  lemma UpsertKeepsRows(b: Box, i: Id, c: Id, event: Event, due: int, clock: int)
    requires RowsOk(b) && c in b.channels
    ensures RowsOk(Upsert(b, i, c, event, due, clock)) && Upsert(b, i, c, event, due, clock).channels == b.channels
  {
  }

  lemma SettledThenLeft(b: Box, b1: Box, b2: Box, i: Id, c: Id, now: int, clock: int)
    requires Settled(b, b1, i, c, now, clock) && SameChannel(b1, b2, c)
    ensures Settled(b, b2, i, c, now, clock)
  {
  }

  lemma LeftThenSettled(b: Box, b1: Box, b2: Box, i: Id, c: Id, now: int, clock: int)
    requires SameChannel(b, b1, c) && b.nextDelivery <= b1.nextDelivery && Settled(b1, b2, i, c, now, clock)
    ensures Settled(b, b2, i, c, now, clock)
  {
    assert forall d :: WasTried(b, d, i, c) <==> WasTried(b1, d, i, c);
    assert forall d :: Pends(b, d, i, c) <==> Pends(b1, d, i, c);
  }

  /** On every channel it serves, the loop withdraws what still has to be told and adds a resolution exactly where an
      earlier delivery was tried; it touches no other channel. */
  lemma {:induction false} EnqueueResolutionSettles(b: Box, order: seq<Id>, i: Id, now: int, clock: int, c: Id)
    requires RowsOk(b)
    requires forall x :: x in order ==> x in b.channels
    requires forall k, l :: 0 <= k < l < |order| ==> order[k] != order[l]
    ensures c in order ==> Settled(b, EnqueueResolution(b, order, i, now, clock), i, c, now, clock)
    ensures c !in order ==> SameChannel(b, EnqueueResolution(b, order, i, now, clock), c)
    decreases |order|
  {
    hide Settled, SameChannel, ResolveChannel, RowsOk;
    if order == [] {
      SameChannelAlways(b, c);
    } else {
      var c0, rest := order[0], order[1..];
      var b' := ResolveChannel(b, i, c0, now, clock);
      ResolveChannelKeepsRows(b, i, c0, now, clock);
      EnqueueResolutionSettles(b', rest, i, now, clock, c);
      if c == c0 {
        ResolveChannelSettles(b, i, c0, now, clock);
        SettledThenLeft(b, b', EnqueueResolution(b', rest, i, now, clock), i, c, now, clock);
      } else {
        ResolveChannelLeavesOthers(b, i, c0, now, clock, c);
        if c in order {
          LeftThenSettled(b, b', EnqueueResolution(b', rest, i, now, clock), i, c, now, clock);
        } else {
          SameChannelOn(b, b', EnqueueResolution(b', rest, i, now, clock), c);
        }
      }
    }
  }

  lemma SameChannelAlways(b: Box, c: Id)
    ensures SameChannel(b, b, c)
  {
  }

  lemma SameChannelOn(b: Box, b1: Box, b2: Box, c: Id)
    requires SameChannel(b, b1, c) && SameChannel(b1, b2, c)
    ensures SameChannel(b, b2, c)
  {
  }
}
