/**
 The dispatcher and the workers of internal/notifications/worker.go around their bounded queue: `queued`, the set
 of delivery ids that are somewhere on their way, keeps an id from being queued or delivered twice at once.
 */
module Dispatch {
  import opened Options
  import opened Alerting
  import opened Outbox
  import Runs

  /** Where the dispatcher is: between ticks or going through the ids of its query, having marked an id and about
      to send it, or having found the queue full and about to unmark it. */
  datatype Place = Scanning(rest: seq<Id>) | Sending(id: Id, rest: seq<Id>) | Refusing(id: Id, rest: seq<Id>)

  /** `busy` says which id each working worker has taken. */
  datatype State = State(capacity: nat, queue: seq<Id>, queued: set<Id>, busy: map<nat, Id>, dropped: nat, place: Place,
                         box: Box)

  datatype Step =
    | Query(ids: seq<Id>, now: int) | Check | Send | Refuse
    | Take(worker: nat) | Claims(worker: nat, now: int) | Reports(worker: nat, result: Result, now: int)
    | Done(worker: nat)
    | Elsewhere(box: Box)

  /** The condition of the dispatcher's query: pending, due, and no delivery of the pair in progress. */
  ghost predicate Eligible(b: Box, id: Id, now: int) {
    && id in b.deliveries && b.deliveries[id].status == Pending
    && b.deliveries[id].nextAttempt.Some? && b.deliveries[id].nextAttempt.value <= Unix(now)
    && forall d, i :: b.deliveries[id].incident == Some(i) ==> !Busy(b, d, i, b.deliveries[id].channel)
  }

  /** The query asks for exactly what the claiming statement will check again. */
  lemma EligibleMeansClaimable(b: Box, id: Id, now: int)
    ensures Eligible(b, id, now) <==> Claimable(b, id, now)
  {
    if Claimable(b, id, now) {
      forall d, i | b.deliveries[id].incident == Some(i) ensures !Busy(b, d, i, b.deliveries[id].channel) {
        assert !Busy(b, id, i, b.deliveries[id].channel);
      }
    }
  }

  ghost predicate IsAnswer(b: Box, ids: seq<Id>, now: int, limit: nat) {
    && |ids| <= limit && (forall k :: 0 <= k < |ids| ==> Eligible(b, ids[k], now))
    && (|ids| < limit ==> forall id :: Eligible(b, id, now) ==> id in ids)
  }

  predicate IsInProgress(b: Box, id: Id) { id in b.deliveries && b.deliveries[id].status == InProgress }

  /** One atomic step; one that is not enabled does nothing. A worker claims the row of its id and reports how its
      delivery went; the repository and users may do anything to rows elsewhere. */
  ghost function Apply(s: State, step: Step): State {
    match step
    case Query(ids, now) =>
      if s.place == Scanning([]) && IsAnswer(s.box, ids, now, s.capacity + 1) then s.(place := Scanning(ids)) else s
    case Check =>
      if !s.place.Scanning? || s.place.rest == [] then s
      else
        var id, rest := s.place.rest[0], s.place.rest[1..];
        if id in s.queued then s.(place := Scanning(rest))
        else s.(queued := s.queued + {id}, place := Sending(id, rest))
    case Send =>
      if !s.place.Sending? then s
      else if |s.queue| < s.capacity then s.(queue := s.queue + [s.place.id], place := Scanning(s.place.rest))
      else s.(place := Refusing(s.place.id, s.place.rest))
    case Refuse =>
      if !s.place.Refusing? then s
      else s.(queued := s.queued - {s.place.id}, dropped := s.dropped + 1, place := Scanning(s.place.rest))
    case Take(worker) =>
      if worker in s.busy || s.queue == [] then s
      else s.(queue := s.queue[1..], busy := s.busy[worker := s.queue[0]])
    case Claims(worker, now) =>
      if worker in s.busy && Claimable(s.box, s.busy[worker], now)
      then s.(box := Claim(s.box, s.busy[worker], now)) else s
    case Reports(worker, result, now) =>
      if worker in s.busy && IsInProgress(s.box, s.busy[worker])
      then s.(box := Finish(s.box, s.busy[worker], result, now)) else s
    case Done(worker) =>
      if worker !in s.busy then s
      else s.(queued := s.queued - {s.busy[worker]}, busy := s.busy - {worker})
    case Elsewhere(box) => s.(box := box)
  }

  ghost function Run(s: State, steps: seq<Step>): State { Runs.Run(Apply, s, steps) }

  /** A query misses a row that could be claimed only when it returns more than the queue can hold. */
  lemma NothingIsMissed(s: State, ids: seq<Id>, now: int, id: Id)
    requires s.place == Scanning([]) && ids != [] && Apply(s, Query(ids, now)).place == Scanning(ids)
    requires Claimable(s.box, id, now) && id !in ids
    ensures s.capacity < |ids|
  {
    EligibleMeansClaimable(s.box, id, now);
  }

  function Started(capacity: nat, box: Box): State { State(capacity, [], {}, map[], 0, Scanning([]), box) }

  // ---------------------------------------------------------------- the invariant

  predicate InHand(s: State, id: Id) { !s.place.Scanning? && s.place.id == id }

  predicate Working(s: State, id: Id) { exists worker :: worker in s.busy && s.busy[worker] == id }

  /** `queued` is the disjoint union of the ids in the queue, the ids being delivered and the id being placed. */
  ghost predicate Inv(s: State) {
    && (forall id :: id in s.queued <==> id in s.queue || Working(s, id) || InHand(s, id))
    && Distinct(s.queue)
    && (forall w, v :: w in s.busy && v in s.busy && s.busy[w] == s.busy[v] ==> w == v)
    && (forall id :: id in s.queue ==> !Working(s, id) && !InHand(s, id))
    && (forall id :: Working(s, id) ==> !InHand(s, id))
    && |s.queue| <= s.capacity
  }

  lemma TakeKeepsInv(s: State, worker: nat)
    requires Inv(s)
    ensures Inv(Apply(s, Take(worker)))
  {
    if worker !in s.busy && s.queue != [] {
      var s', taken := Apply(s, Take(worker)), s.queue[0];
      assert forall id :: id in s.queue <==> id == taken || id in s'.queue;
      assert taken !in s'.queue && Distinct(s'.queue);
      forall id ensures Working(s', id) <==> Working(s, id) || id == taken {
        if Working(s, id) {
          var w :| w in s.busy && s.busy[w] == id;
          assert w in s'.busy && s'.busy[w] == id;
        }
        assert s'.busy[worker] == taken;
      }
      forall w, v | w in s'.busy && v in s'.busy && s'.busy[w] == s'.busy[v] ensures w == v {
        assert w in s.busy ==> Working(s, s.busy[w]);
        assert v in s.busy ==> Working(s, s.busy[v]);
      }
    }
  }

  lemma DoneKeepsInv(s: State, worker: nat)
    requires Inv(s)
    ensures Inv(Apply(s, Done(worker)))
  {
    if worker in s.busy {
      var s', done := Apply(s, Done(worker)), s.busy[worker];
      assert Working(s, done);
      forall id ensures Working(s', id) <==> Working(s, id) && id != done {
        if Working(s, id) && id != done {
          var w :| w in s.busy && s.busy[w] == id;
          assert w in s'.busy && s'.busy[w] == id;
        }
      }
    }
  }

  lemma DispatcherKeepsInv(s: State, step: Step)
    requires Inv(s) && (step.Check? || step.Send? || step.Refuse?)
    ensures Inv(Apply(s, step))
  {
    if step.Send? {
      SendKeepsInv(s);
    } else {
      assert forall id :: Working(Apply(s, step), id) <==> Working(s, id);
    }
  }

  lemma SendKeepsInv(s: State)
    requires Inv(s)
    ensures Inv(Apply(s, Send))
  {
    var s' := Apply(s, Send);
    assert forall id :: Working(s', id) <==> Working(s, id);
    if s.place.Sending? && |s.queue| < s.capacity {
      assert InHand(s, s.place.id);
      assert forall i :: 0 <= i < |s.queue| ==> s.queue[i] in s.queue;
      assert Distinct(s'.queue);
      assert forall id :: id in s'.queue <==> id in s.queue || id == s.place.id;
    }
  }

  lemma StepKeepsInv(s: State, step: Step)
    requires Inv(s)
    ensures Inv(Apply(s, step))
  {
    match step
    case Take(worker) => TakeKeepsInv(s, worker);
    case Done(worker) => DoneKeepsInv(s, worker);
    case Check => DispatcherKeepsInv(s, step);
    case Send => DispatcherKeepsInv(s, step);
    case Refuse => DispatcherKeepsInv(s, step);
    case _ =>
      assert forall id :: Working(Apply(s, step), id) <==> Working(s, id);
  }

  lemma RunKeepsInv(s: State, steps: seq<Step>)
    requires Inv(s)
    ensures Inv(Run(s, steps))
  {
    hide Inv, Apply;
    forall x, step | Inv(x) ensures Inv(Apply(x, step)) { StepKeepsInv(x, step); }
    Runs.Keeps(Apply, Inv, s, steps);
  }

  // ---------------------------------------------------------------- what is proved

  /** In every interleaving an id is at most once in the queue, with at most one worker and in the dispatcher's
      hand, never in two of these, and it is marked exactly while it is in one. */
  lemma MarkedIdsAreSomewhereOnce(capacity: nat, box: Box, steps: seq<Step>)
    ensures var s := Run(Started(capacity, box), steps);
            && (forall id :: id in s.queued <==> id in s.queue || Working(s, id) || InHand(s, id))
            && (forall id :: !(id in s.queue && Working(s, id)) && !(id in s.queue && InHand(s, id))
                             && !(Working(s, id) && InHand(s, id)))
            && Distinct(s.queue)
            && (forall w, v :: w in s.busy && v in s.busy && s.busy[w] == s.busy[v] ==> w == v)
            && |s.queue| <= capacity
  {
    RunKeepsInv(Started(capacity, box), steps);
    CapacityStays(Started(capacity, box), steps);
  }

  lemma {:induction false} CapacityStays(s: State, steps: seq<Step>)
    ensures Run(s, steps).capacity == s.capacity
    decreases |steps|
  {
    if steps != [] { CapacityStays(s, steps[..|steps| - 1]); }
  }

  function RowOf(b: Box, id: Id): Option<Delivery> {
    if id in b.deliveries then Some(b.deliveries[id]) else None
  }

  /** The id is neither queued nor with a worker. */
  ghost predicate Free(s: State, id: Id) { id !in s.queue && !Working(s, id) }

  /** The step puts the id into the queue. */
  predicate Accepts(s: State, step: Step, id: Id) {
    step.Send? && s.place.Sending? && s.place.id == id && |s.queue| < s.capacity
  }

  /** The step changes the id's row from outside the dispatcher and its workers. */
  predicate Touches(s: State, step: Step, id: Id) { step.Elsewhere? && RowOf(step.box, id) != RowOf(s.box, id) }

  ghost predicate NeverAccepts(s: State, steps: seq<Step>, id: Id) {
    forall k :: 0 <= k < |steps| ==> !Accepts(Run(s, steps[..k]), steps[k], id)
  }

  ghost predicate NeverTouches(s: State, steps: seq<Step>, id: Id) {
    forall k :: 0 <= k < |steps| ==> !Touches(Run(s, steps[..k]), steps[k], id)
  }

  /** Until it is accepted, a free id stays free, and neither the dispatcher nor a worker changes its row. */
  lemma FreeStaysFree(s: State, step: Step, id: Id)
    requires Inv(s) && Free(s, id) && !Accepts(s, step, id)
    ensures Free(Apply(s, step), id)
    ensures !Touches(s, step, id) ==> RowOf(Apply(s, step).box, id) == RowOf(s.box, id)
  {
    assert forall w :: w in s.busy ==> s.busy[w] != id;
  }

  lemma {:induction false} FreeUntilAccepted(s: State, steps: seq<Step>, id: Id)
    requires Inv(s) && Free(s, id) && NeverAccepts(s, steps, id)
    ensures Inv(Run(s, steps)) && Free(Run(s, steps), id)
    ensures NeverTouches(s, steps, id) ==> RowOf(Run(s, steps).box, id) == RowOf(s.box, id)
    decreases |steps|
  {
    hide Inv, Free, Apply, RowOf, Accepts, Touches;
    if steps != [] {
      var n := |steps| - 1;
      var before, v := steps[..n], Run(s, steps[..n]);
      assert forall k :: 0 <= k < n ==> before[..k] == steps[..k] && before[k] == steps[k];
      assert !Accepts(v, steps[n], id);
      if NeverTouches(s, steps, id) { assert !Touches(v, steps[n], id); }
      FreeUntilAccepted(s, before, id);
      StepKeepsInv(v, steps[n]);
      FreeStaysFree(v, steps[n], id);
    }
  }

  /** A refused id comes back: until the queue accepts it, however long that takes, no worker has it, none of them
      and not the dispatcher changes its row, so that it is as pending as it was, and the dispatcher sends it
      whenever it reaches it. */
  lemma RefusedIdsComeBack(capacity: nat, box: Box, steps: seq<Step>, more: seq<Step>)
    requires var s := Run(Started(capacity, box), steps);
             s.place.Refusing? && NeverAccepts(Apply(s, Refuse), more, s.place.id)
    ensures var s := Run(Started(capacity, box), steps);
            var id, s' := s.place.id, Apply(s, Refuse);
            var v := Run(s', more);
            && id !in s'.queued && s'.dropped == s.dropped + 1
            && id !in v.queue && !Working(v, id) && (id in v.queued <==> InHand(v, id))
            && (NeverTouches(s', more, id) ==> RowOf(v.box, id) == RowOf(s.box, id))
            && (v.place.Scanning? && v.place.rest != [] && v.place.rest[0] == id ==>
                  Apply(v, Check).place == Sending(id, v.place.rest[1..]))
  {
    RunKeepsInv(Started(capacity, box), steps);
    var s := Run(Started(capacity, box), steps);
    var id, s' := s.place.id, Apply(s, Refuse);
    assert InHand(s, id);
    StepKeepsInv(s, Refuse);
    FreeStaysFree(s, Refuse, id);
    FreeUntilAccepted(s', more, id);
  }

  // ---------------------------------------------------------------- the program

  /** What a worker does between two steps of the dispatcher. */
  datatype Act = Receives(worker: nat) | Finishes(worker: nat)

  class Worker {
    const capacity: nat
    var queue: seq<Id>
    var queued: set<Id>
    var busy: map<nat, Id>
    var dropped: nat

    ghost function At(place: Place, box: Box): State
      reads this
    {
      State(capacity, queue, queued, busy, dropped, place, box)
    }

    constructor (capacity: nat)
      ensures forall box :: At(Scanning([]), box) == Started(capacity, box)
    {
      this.capacity := capacity;
      queue, queued, busy, dropped := [], {}, map[], 0;
    }

    /** A worker takes an id off the queue, or is done with its id and unmarks it. */
    method Work(act: Act, ghost place: Place, ghost box: Box)
      modifies this`queue, this`queued, this`busy
      ensures At(place, box) == Apply(old(At(place, box)), StepOf(act))
    {
      match act
      case Receives(worker) =>
        if worker !in busy && queue != [] {
          busy, queue := busy[worker := queue[0]], queue[1..];
        }
      case Finishes(worker) =>
        if worker in busy {
          queued, busy := queued - {busy[worker]}, busy - {worker};
        }
    }

    method Others(acts: seq<Act>, ghost place: Place, ghost box: Box)
      modifies this`queue, this`queued, this`busy
      ensures At(place, box) == Run(old(At(place, box)), Steps(acts))
    {
      hide Runs.Run, Apply;
      ghost var s := At(place, box);
      Runs.Nothing(Apply, s);
      for i := 0 to |acts|
        invariant At(place, box) == Run(s, Steps(acts[..i]))
      {
        assert acts[..i + 1][..i] == acts[..i];
        Runs.OneMore(Apply, s, Steps(acts[..i]), StepOf(acts[i]));
        Work(acts[i], place, box);
      }
      assert acts[..|acts|] == acts;
    }

    /** One round of the loop in `enqueueDue`, with the workers running before each of its critical sections. */
    method EnqueueOne(id: Id, ghost rest: seq<Id>, before: seq<Act>, between: seq<Act>, after: seq<Act>,
                      ghost box: Box, ghost s: State, ghost done: seq<Step>)
      returns (ghost steps: seq<Step>)
      requires At(Scanning([id] + rest), box) == Run(s, done) && Own(done)
      modifies this
      ensures At(Scanning(rest), box) == Run(s, steps) && Own(steps)
      ensures dropped <= old(dropped) + 1
    {
      hide Runs.Run, Own, Steps;
      Others(before, Scanning([id] + rest), box);
      steps := Advance(s, done, before, Check);
      if id in queued {
        return;
      }
      queued := queued + {id};
      Others(between, Sending(id, rest), box);
      steps := Advance(s, steps, between, Send);
      if |queue| < capacity {
        queue := queue + [id];
        return;
      }
      Others(after, Refusing(id, rest), box);
      steps := Advance(s, steps, after, Refuse);
      queued, dropped := queued - {id}, dropped + 1;
    }

    /** `enqueueDue`: an execution is a run of the dispatcher's steps, among those of the workers, that has gone
        through all the ids. */
    method EnqueueDue(ids: seq<Id>, others: nat -> seq<Act>, ghost box: Box) returns (ghost steps: seq<Step>)
      modifies this
      ensures At(Scanning([]), box) == Run(old(At(Scanning(ids), box)), steps) && Own(steps)
      ensures dropped <= old(dropped) + |ids|
    {
      hide Runs.Run, Apply;
      ghost var s := At(Scanning(ids), box);
      steps := [];
      Runs.Nothing(Apply, s);
      assert ids[0..] == ids;
      for i := 0 to |ids|
        invariant At(Scanning(ids[i..]), box) == Run(s, steps) && Own(steps)
        invariant dropped <= old(dropped) + i
      {
        assert ids[i..] == [ids[i]] + ids[i + 1..];
        steps := EnqueueOne(ids[i], ids[i + 1..], others(3 * i), others(3 * i + 1), others(3 * i + 2), box, s, steps);
      }
    }
  }

  /** Steps of the dispatcher's loop and of the workers only. */
  ghost predicate Own(steps: seq<Step>) {
    forall k :: 0 <= k < |steps| ==> !steps[k].Query? && !steps[k].Elsewhere?
  }

  function StepOf(act: Act): Step {
    match act
    case Receives(worker) => Take(worker)
    case Finishes(worker) => Done(worker)
  }

  function Steps(acts: seq<Act>): seq<Step>
    ensures |Steps(acts)| == |acts|
    ensures forall k :: 0 <= k < |acts| ==> Steps(acts)[k] == StepOf(acts[k])
  {
    if acts == [] then [] else Steps(acts[..|acts| - 1]) + [StepOf(acts[|acts| - 1])]
  }

  /** The workers' acts and then one step of the dispatcher. */
  lemma Advance(s: State, steps: seq<Step>, acts: seq<Act>, step: Step) returns (longer: seq<Step>)
    requires Own(steps) && !step.Query? && !step.Elsewhere?
    ensures Own(longer)
    ensures Run(s, longer) == Apply(Run(Run(s, steps), Steps(acts)), step)
  {
    hide Runs.Run, Apply;
    Runs.Concat(Apply, s, steps, Steps(acts));
    Runs.OneMore(Apply, s, steps + Steps(acts), step);
    longer := steps + Steps(acts) + [step];
  }
}
