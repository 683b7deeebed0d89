/** The statements of internal/notifications/worker.go that change delivery rows. */
module DeliveryWorker {
  import opened Options
  import opened Alerting
  import opened Outbox
  import opened Database
  import Backoff

  const UNAVAILABLE := Result(false, false, Backoff.Absent)

  /** Row `r` waits again, as it did before it was claimed, or was not claimed and is the same. */
  predicate PutBack(r: Delivery, r': Delivery, now: int) {
    if r.status == InProgress
    then r' == r.(status := Pending, startedAt := None, nextAttempt := Some(Unix(now)))
    else r' == r
  }

  /** What becomes of a well-formed row in progress when its attempt ends. */
  predicate Ended(r: Delivery, r': Delivery, result: Result, now: int) {
    r.status == InProgress && RowOk(r) ==>
      && RowOk(r') && r'.attempts == r.attempts + 1
      && (r'.status == Succeeded <==> result.success)
      && (r'.status == Pending <==> !result.success && result.retryable && r.attempts < 6)
      && (r'.status == Pending ==> Unix(now) < r'.nextAttempt.value)
  }

  /** Row `id` is pending and due, and no row in progress has its incident and its channel. */
  predicate IsFree(rows: map<Id, Delivery>, id: Id, now: int)
    requires id in rows
  {
    && rows[id].status == Pending && rows[id].nextAttempt.Some? && rows[id].nextAttempt.value <= Unix(now)
    && forall d :: d in rows && rows[d].status == InProgress && rows[id].incident.Some? ==>
                     rows[d].incident != rows[id].incident || rows[d].channel != rows[id].channel
  }

  lemma FreeMeansClaimable(b: Box, id: Id, now: int)
    requires id in b.deliveries
    ensures IsFree(b.deliveries, id, now) <==> Claimable(b, id, now)
  {
    var row := b.deliveries[id];
    if Claimable(b, id, now) && row.incident.Some? {
      forall d | d in b.deliveries && b.deliveries[d].status == InProgress
        ensures b.deliveries[d].incident != row.incident || b.deliveries[d].channel != row.channel
      {
        assert !Busy(b, d, row.incident.value, row.channel);
      }
    }
  }

  class Worker {
    const db: Database

    constructor (db: Database)
      ensures this.db == db
    {
      this.db := db;
    }

    /** The recovery statement of `Start`: afterwards nothing is in progress, what was is pending and due with the
        attempts it had, and nothing else has changed. */
    method RecoverDeliveries(now: int)
      modifies db`deliveries
      ensures db.B() == Recover(old(db.B()), now)
      ensures forall d :: d in db.deliveries ==> d in old(db.deliveries) && db.deliveries[d].status != InProgress
      ensures forall d :: d in old(db.deliveries) ==>
                d in db.deliveries && PutBack(old(db.deliveries)[d], db.deliveries[d], now)
      ensures RowsOk(old(db.B())) ==> RowsOk(db.B()) && Calmer(old(db.B()), db.B())
    {
      if RowsOk(db.B()) { RecoverIsCalm(db.B(), now); }
      var rows := db.deliveries;
      db.deliveries := map d | d in rows ::
        if rows[d].status == InProgress then
          rows[d].(status := Pending, startedAt := None, nextAttempt := Some(Unix(now)))
        else rows[d];
    }

    /** The claiming UPDATE of `deliver`: the row is pending and due, and no other of its incident and channel is in
        progress. */
    method ClaimDelivery(id: Id, now: int) returns (claimed: bool)
      modifies db`deliveries
      ensures claimed <==> id in old(db.deliveries) && IsFree(old(db.deliveries), id, now)
      ensures claimed <==> Claimable(old(db.B()), id, now)
      ensures db.B() == if claimed then Claim(old(db.B()), id, now) else old(db.B())
    {
      if id !in db.deliveries {
        return false;
      }
      FreeMeansClaimable(db.B(), id, now);
      var b, row := db.B(), db.deliveries[id];
      var due := row.status == Pending && row.nextAttempt.Some? && row.nextAttempt.value <= Unix(now);
      var rivals := if row.incident == None then {}
                    else set d | d in b.deliveries && d != id && Busy(b, d, row.incident.value, row.channel);
      assert rivals == {} <==> forall d, i :: row.incident == Some(i) && Busy(b, d, i, row.channel) ==> d == id by {
        if d, i :| row.incident == Some(i) && Busy(b, d, i, row.channel) && d != id { assert d in rivals; }
      }
      claimed := due && rivals == {};
      if claimed {
        db.deliveries := db.deliveries[id := row.(status := InProgress, startedAt := Some(Unix(now)))];
      }
    }

    /** `finish`: a well-formed row in progress has one attempt more and is well formed again, succeeded exactly when
        the delivery did and pending exactly when it may be tried again; no other row changes. */
    method FinishDelivery(id: Id, result: Result, now: int)
      modifies db`deliveries
      ensures db.B() == Finish(old(db.B()), id, result, now)
      ensures forall d :: d in old(db.deliveries) && d != id ==>
                d in db.deliveries && db.deliveries[d] == old(db.deliveries)[d]
      ensures id in old(db.deliveries) ==>
                id in db.deliveries && Ended(old(db.deliveries)[id], db.deliveries[id], result, now)
    {
      if id !in db.deliveries {
        return;
      }
      var row := db.deliveries[id];
      row := row.(attempts := row.attempts + 1);
      if result.success {
        row := row.(status := Succeeded, completedAt := Some(Unix(now)), nextAttempt := None);
      } else {
        match Backoff.RetryDelay(row.attempts, result.retryable, Backoff.ParseRetryAfter(result.retryAfter))
        case After(delay) => row := row.(status := Pending, startedAt := None, nextAttempt := Some(Unix(now + delay)));
        case GiveUp => row := row.(status := PermanentFailure, completedAt := Some(Unix(now)), nextAttempt := None);
      }
      db.deliveries := db.deliveries[id := row];
    }

    /** `deliver`, with what the transport answers as a parameter: a row that cannot be claimed is left alone, and a
        claimed one ends with one attempt more, given up at once if its channel is gone. */
    method Deliver(id: Id, now: int, answer: Result, later: int)
      modifies db`deliveries
      ensures var b := old(db.B());
              if !Claimable(b, id, now) then db.B() == b
              else
                var c := b.deliveries[id].channel;
                db.B() == Finish(Claim(b, id, now), id, if c in Targets(b) then answer else UNAVAILABLE, later)
      ensures Claimable(old(db.B()), id, now) && old(db.deliveries)[id].channel !in Targets(old(db.B())) ==>
        && id in db.deliveries && db.deliveries[id].status == PermanentFailure
        && db.deliveries[id].attempts == old(db.deliveries)[id].attempts + 1
        && db.deliveries[id].completedAt == Some(Unix(later))
    {
      var claimed := ClaimDelivery(id, now);
      if !claimed {
        return;
      }
      var c := db.deliveries[id].channel;
      if c !in db.channels || !db.channels[c].enabled || db.channels[c].deleted {
        FinishDelivery(id, UNAVAILABLE, later);
      } else {
        FinishDelivery(id, answer, later);
      }
    }
  }
}
