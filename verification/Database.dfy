/**
 The database that the alert evaluator and the notification components share, as an object: one field per table.
 A query is a set of rows; where the code reads a query's rows in a loop it gets some listing of that set.
 */
module Database {
  import opened Options
  import opened Alerting
  import opened Outbox
  import L = Lifecycle

  class Database {
    var phases: map<string, L.State>
    var alerts: map<Id, Alert>
    var members: map<Id, Member>
    var incidents: map<Id, Incident>
    var events: set<Id>
    var channels: map<Id, Channel>
    var deliveries: map<Id, Delivery>
    var nextAlert: Id
    var nextIncident: Id
    var nextDelivery: Id
    var nextChannel: Id

    function T(): Tables
      reads this
    {
      Tables(phases, alerts, members, incidents, events, nextAlert, nextIncident)
    }

    function B(): Box
      reads this
    {
      Box(channels, deliveries, nextDelivery, nextChannel)
    }

    constructor ()
      ensures T() == Tables(map[], map[], map[], map[], {}, 0, 0) && B() == Box(map[], map[], 0, 0)
    {
      phases, alerts, members, incidents, events := map[], map[], map[], map[], {};
      channels, deliveries := map[], map[];
      nextAlert, nextIncident, nextDelivery, nextChannel := 0, 0, 0, 0;
    }

    /** Undo a transaction: the tables are again as they were when it began. */
    method Rollback(t: Tables, b: Box)
      modifies this
      ensures T() == t && B() == b
    {
      phases, alerts, members, incidents, events := t.phases, t.alerts, t.members, t.incidents, t.events;
      nextAlert, nextIncident := t.nextAlert, t.nextIncident;
      channels, deliveries, nextDelivery, nextChannel := b.channels, b.deliveries, b.nextDelivery, b.nextChannel;
    }
  }

  /** The least of some ids. */
  method Smallest(s: set<Id>) returns (r: Option<Id>)
    ensures r == Least(s)
  {
    r := None;
    var rest := s;
    while rest != {}
      invariant rest <= s
      invariant r == None ==> rest == s
      invariant r.Some? ==> r.value in s && forall x :: x in s && x !in rest ==> r.value <= x
      decreases |rest|
    {
      var x :| x in rest;
      rest := rest - {x};
      if r == None || x < r.value {
        r := Some(x);
      }
    }
  }

  /** The rows of a query, in some order. */
  method List(s: set<Id>) returns (order: seq<Id>)
    ensures Lists(order, s)
  {
    order := [];
    var rest := s;
    while rest != {}
      invariant rest <= s && Lists(order, s - rest)
      decreases |rest|
    {
      var x :| x in rest;
      rest := rest - {x};
      order := order + [x];
    }
  }
}
