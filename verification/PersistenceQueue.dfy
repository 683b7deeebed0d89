/**
 The writer queue of internal/storage/persistence.go: one producer and one writer over a bounded channel whose
 oldest batch makes room for the newest. Batches are numbered in the order in which they are produced.
 */
module PersistenceQueue {
  import Runs

  /** Where the producer is: between batches, about to offer its batch, about to drop the oldest one because the
      queue was full, or about to offer its batch again. */
  datatype Place = Ready | Offering | Evicting | Placing

  datatype State = State(limit: nat, queue: seq<nat>, taken: seq<nat>, lost: set<nat>, produced: nat, dropped: nat,
                         place: Place)

  datatype Step = Snapshot(paused: bool) | Offer | Evict | Place | Take

  /** The queue of `Start`: a limit below one means sixty. */
  function Initial(limit: int): State {
    State(if limit < 1 then 60 else limit, [], [], {}, 0, 0, Ready)
  }

  /** The producer's batch, while it is neither queued nor lost. */
  function InHand(s: State): seq<nat> {
    if s.place == Ready || s.produced == 0 then [] else [s.produced - 1]
  }

  function Drop(s: State, batch: nat): State { s.(lost := s.lost + {batch}, dropped := s.dropped + 1) }

  /** One step; a step that is not enabled does nothing. */
  function Apply(s: State, step: Step): State {
    match step
    case Snapshot(paused) =>
      if s.place != Ready then s
      else if paused then Drop(s.(produced := s.produced + 1), s.produced)
      else s.(produced := s.produced + 1, place := Offering)
    case Offer =>
      if s.place != Offering then s
      else if |s.queue| < s.limit then s.(queue := s.queue + InHand(s), place := Ready)
      else s.(place := Evicting)
    case Evict =>
      if s.place != Evicting then s
      else if s.queue == [] then s.(place := Placing)
      else Drop(s.(queue := s.queue[1..], place := Placing), s.queue[0])
    case Place =>
      if s.place != Placing || s.produced == 0 then s
      else if |s.queue| < s.limit then s.(queue := s.queue + InHand(s), place := Ready)
      else Drop(s.(place := Ready), s.produced - 1)
    case Take =>
      if s.queue == [] then s else s.(queue := s.queue[1..], taken := s.taken + [s.queue[0]])
  }

  ghost function Run(s: State, steps: seq<Step>): State { Runs.Run(Apply, s, steps) }

  /** The batches that are not lost, in the order in which the writer gets them. */
  function Line(s: State): seq<nat> { s.taken + s.queue + InHand(s) }

  ghost predicate Increasing(line: seq<nat>) { forall i, j :: 0 <= i < j < |line| ==> line[i] < line[j] }

  ghost predicate Inv(s: State) {
    && 1 <= s.limit && |s.queue| <= s.limit
    && (s.place != Ready ==> s.produced > 0)
    && (s.place == Placing ==> |s.queue| < s.limit)
    && Increasing(Line(s))
    && (forall k: nat :: k < s.produced <==> k in Line(s) || k in s.lost)
    && (forall k :: k in s.lost ==> k !in Line(s))
    && |s.lost| == s.dropped
    && s.produced == |Line(s)| + s.dropped
  }

  lemma DropKeepsInv(s: State)
    requires Inv(s) && s.place == Evicting && s.queue != []
    ensures Inv(Apply(s, Evict))
  {
    var after := Apply(s, Evict);
    var n, line := |s.taken|, Line(s);
    assert line[n] == s.queue[0];
    assert Line(after) == line[..n] + line[n + 1..];
    RemovedOne(line, n, Line(after));
  }

  lemma RemovedOne(line: seq<nat>, n: nat, after: seq<nat>)
    requires n < |line| && Increasing(line) && after == line[..n] + line[n + 1..]
    ensures Increasing(after) && line[n] !in after
    ensures forall k: nat :: k in line <==> k in after || k == line[n]
  {
    forall i, j | 0 <= i < j < |after| ensures after[i] < after[j] {
      assert after[i] == line[Before(n, i)] && after[j] == line[Before(n, j)];
    }
    forall i | 0 <= i < |after| ensures after[i] in line && after[i] != line[n] {
      assert after[i] == line[Before(n, i)];
    }
    forall i | 0 <= i < |line| && i != n ensures line[i] in after {
      assert line[i] == after[if i < n then i else i - 1];
    }
  }

  /** Where the element at `i` was before the one at `n` was removed. */
  function Before(n: nat, i: nat): nat { if i < n then i else i + 1 }

  lemma SnapshotKeepsInv(s: State, paused: bool)
    requires Inv(s) && s.place == Ready
    ensures Inv(Apply(s, Snapshot(paused)))
  {
    var after := Apply(s, Snapshot(paused));
    assert s.produced !in Line(s) && s.produced !in s.lost;
    assert forall i :: 0 <= i < |Line(s)| ==> Line(s)[i] in Line(s);
    assert Line(after) == if paused then Line(s) else Line(s) + [s.produced];
  }

  lemma StepKeepsInv(s: State, step: Step)
    requires Inv(s)
    ensures Inv(Apply(s, step))
  {
    match step
    case Snapshot(paused) => if s.place == Ready { SnapshotKeepsInv(s, paused); }
    case Evict => if s.place == Evicting && s.queue != [] { DropKeepsInv(s); }
    case _ =>
      assert Line(Apply(s, step)) == Line(s);
  }

  lemma RunKeepsInv(s: State, steps: seq<Step>)
    requires Inv(s)
    ensures Inv(Run(s, steps))
  {
    hide Inv, Apply;
    forall x, step | Inv(x) ensures Inv(Apply(x, step)) { StepKeepsInv(x, step); }
    Runs.Keeps(Apply, Inv, s, steps);
  }

  lemma LimitStays(s: State, steps: seq<Step>)
    ensures Run(s, steps).limit == s.limit
  {
    Runs.Keeps(Apply, (x: State) => x.limit == s.limit, s, steps);
  }

  // ---------------------------------------------------------------- what is proved

  /** In every run, each batch produced is exactly one of taken, queued, in hand and dropped, the counter says how
      many are dropped, and the writer takes batches in the order of their production. */
  lemma EveryBatchIsAccountedFor(limit: int, steps: seq<Step>)
    ensures var s := Run(Initial(limit), steps);
            && s.produced == |s.taken| + |s.queue| + |InHand(s)| + s.dropped
            && (forall k: nat :: k < s.produced <==> k in Line(s) || k in s.lost)
            && (forall k :: k in s.lost ==> k !in Line(s))
            && Increasing(s.taken)
            && |s.queue| <= s.limit == if limit < 1 then 60 else limit
  {
    LimitStays(Initial(limit), steps);
    RunKeepsInv(Initial(limit), steps);
    var s := Run(Initial(limit), steps);
    assert forall i :: 0 <= i < |s.taken| ==> s.taken[i] == Line(s)[i];
  }

  /** In every run the second offer succeeds, so an overflow never costs the newest batch: the batch in hand ends
      at the end of the queue and the count of drops does not move. */
  lemma OverflowKeepsTheNewest(limit: int, steps: seq<Step>)
    requires Run(Initial(limit), steps).place == Placing
    ensures var s := Run(Initial(limit), steps);
            var after := Apply(s, Place);
            after.queue == s.queue + [s.produced - 1] && after.lost == s.lost && after.dropped == s.dropped
  {
    RunKeepsInv(Initial(limit), steps);
  }

  /** What an overflow does cost is the oldest batch the queue held, and only that. */
  lemma OverflowDropsTheOldest(limit: int, steps: seq<Step>, k: nat)
    requires k in Apply(Run(Initial(limit), steps), Evict).lost && k !in Run(Initial(limit), steps).lost
    ensures var s := Run(Initial(limit), steps);
            && s.queue != [] && k == s.queue[0]
            && (forall i :: 0 < i < |s.queue| ==> k < s.queue[i]) && k < s.produced - 1
            && (forall i :: 0 <= i < |s.taken| ==> s.taken[i] < k)
  {
    hide Runs.Run;
    RunKeepsInv(Initial(limit), steps);
    EvictsTheOldest(Run(Initial(limit), steps), k);
  }

  lemma EvictsTheOldest(s: State, k: nat)
    requires Inv(s) && k in Apply(s, Evict).lost && k !in s.lost
    ensures s.queue != [] && k == s.queue[0] && k < s.produced - 1
    ensures forall i :: 0 < i < |s.queue| ==> k < s.queue[i]
    ensures forall i :: 0 <= i < |s.taken| ==> s.taken[i] < k
  {
    var n, line := |s.taken|, Line(s);
    assert line[n] == s.queue[0];
    assert forall i :: 0 < i < |s.queue| ==> line[n + i] == s.queue[i];
    assert forall i :: 0 <= i < n ==> line[i] == s.taken[i];
    assert line[|line| - 1] == s.produced - 1;
  }

  /** The writer takes `n` times. */
  function Takes(n: nat): seq<Step> { seq(n, _ => Take) }

  lemma {:induction false} AfterTakes(s: State, n: nat)
    ensures var taken := if n <= |s.queue| then n else |s.queue|;
            Run(s, Takes(n)) == s.(queue := s.queue[taken..], taken := s.taken + s.queue[..taken])
    decreases n
  {
    if n == 0 {
      assert s.taken + s.queue[..0] == s.taken;
    } else {
      AfterTakes(s, n - 1);
      assert Takes(n) == Takes(n - 1) + [Take];
      Runs.OneMore(Apply, s, Takes(n - 1), Take);
      var before := Run(s, Takes(n - 1));
      if n <= |s.queue| {
        assert s.taken + s.queue[..n - 1] + [before.queue[0]] == s.taken + s.queue[..n];
      }
    }
  }

  /** Dropping from state `s` loses a batch although the queue has room. */
  predicate DropsNeedlessly(s: State) { |s.queue| < s.limit && Apply(s, Evict).lost != s.lost }

  /** The drop can be needless: in any run that offers a batch to a full queue, if the writer then takes some of the
      batches but not all before the producer goes on, room is made twice; otherwise it is not. */
  lemma DropIsNeedlessIff(limit: int, steps: seq<Step>, n: nat)
    requires var s := Run(Initial(limit), steps); s.place == Offering && |s.queue| == s.limit
    ensures var s := Run(Initial(limit), steps);
            var t := Run(Initial(limit), steps + [Offer] + Takes(n));
            t.place == Evicting && (DropsNeedlessly(t) <==> 0 < n < s.limit)
  {
    hide Runs.Run;
    var start := Initial(limit);
    var s := Run(start, steps);
    RunKeepsInvFromStart(limit, steps);
    RunKeepsInvFromStart(limit, steps + [Offer] + Takes(n));
    Runs.OneMore(Apply, start, steps, Offer);
    Runs.Concat(Apply, start, steps + [Offer], Takes(n));
    AfterTakes(Apply(s, Offer), n);
    var t := Run(start, steps + [Offer] + Takes(n));
    if t.queue != [] {
      assert t.queue[0] == Line(t)[|t.taken|];
    }
  }

  lemma RunKeepsInvFromStart(limit: int, steps: seq<Step>)
    ensures Inv(Run(Initial(limit), steps))
  {
    RunKeepsInv(Initial(limit), steps);
  }

  /** Such runs exist: two batches queued, a third offered, one taken. */
  lemma DropsCanBeNeedless() returns (steps: seq<Step>)
    ensures var s := Run(Initial(2), steps); s.place == Evicting && |s.queue| < s.limit && Apply(s, Evict).lost == {1}
  {
    hide Runs.Run;
    var s0, s1, s2, s3;
    s0, steps := Initial(2), [];
    Runs.Nothing(Apply, s0);
    s1, steps := Produce(s0, s0, steps);
    assert s1.queue == [0];
    s2, steps := Produce(s0, s1, steps);
    assert s2.queue == [0, 1];
    s3, steps := Produce(s0, s2, steps);
    Runs.OneMore(Apply, s0, steps, Take);
    steps := steps + [Take];
    assert Apply(s3, Take).queue == [1];
  }

  /** The producer takes a snapshot and offers it. */
  lemma Produce(start: State, s: State, steps: seq<Step>) returns (after: State, longer: seq<Step>)
    requires s == Run(start, steps)
    ensures after == Apply(Apply(s, Snapshot(false)), Offer) == Run(start, longer)
  {
    Runs.OneMore(Apply, start, steps, Snapshot(false));
    Runs.OneMore(Apply, start, steps + [Snapshot(false)], Offer);
    after, longer := Apply(Apply(s, Snapshot(false)), Offer), steps + [Snapshot(false)] + [Offer];
  }

  // ---------------------------------------------------------------- the program

  lemma PlacingHasRoom(s: State)
    requires Inv(s) && s.place == Placing
    ensures |s.queue| < s.limit
  {
  }

  class Persistence {
    const limit: nat
    var queue: seq<nat>
    var taken: seq<nat>
    var produced: nat
    var dropped: nat
    ghost var lost: set<nat>

    ghost function At(place: Place): State
      reads this
    {
      State(limit, queue, taken, lost, produced, dropped, place)
    }

    constructor (limit: int)
      ensures At(Ready) == Initial(limit)
    {
      this.limit := if limit < 1 then 60 else limit;
      queue, taken, produced, dropped, lost := [], [], 0, 0, {};
    }

    /** The writer takes up to `n` batches. */
    method TakeSome(n: nat, ghost place: Place) returns (ghost steps: seq<Step>)
      modifies this`queue, this`taken
      ensures At(place) == Run(old(At(place)), steps)
      ensures |queue| <= old(|queue|)
    {
      steps := [];
      for i := 0 to n
        invariant At(place) == Run(old(At(place)), steps) && |queue| <= old(|queue|)
      {
        Runs.OneMore(Apply, old(At(place)), steps, Take);
        steps := steps + [Take];
        if queue != [] {
          queue, taken := queue[1..], taken + [queue[0]];
        }
      }
    }

    /** The `enqueue` closure for a batch that holds a snapshot; the writer takes `first` batches before the oldest
        is dropped and `second` before the batch is offered again. */
    method Enqueue(paused: bool, first: nat, second: nat) returns (ghost steps: seq<Step>)
      requires Inv(At(Ready))
      modifies this
      ensures At(Ready) == Run(old(At(Ready)), steps) && Inv(At(Ready))
      ensures produced == old(produced) + 1
      ensures if paused then dropped == old(dropped) + 1 && queue == old(queue)
              else queue != [] && queue[|queue| - 1] == old(produced) && dropped <= old(dropped) + 1
    {
      hide Inv, Runs.Run, Increasing;
      ghost var start := At(Ready);
      Runs.Nothing(Apply, start);
      var batch := produced;
      produced := produced + 1;
      Runs.OneMore(Apply, start, [], Snapshot(paused));
      steps := [] + [Snapshot(paused)];
      StepKeepsInv(start, Snapshot(paused));
      if paused {
        dropped, lost := dropped + 1, lost + {batch};
        return;
      }
      Runs.OneMore(Apply, start, steps, Offer);
      StepKeepsInv(At(Offering), Offer);
      steps := steps + [Offer];
      if |queue| < limit {
        queue := queue + [batch];
        return;
      }
      steps := MakeRoom(first, second, start, steps);
      Runs.OneMore(Apply, start, steps, Place);
      StepKeepsInv(At(Placing), Place);
      steps := steps + [Place];
      queue := queue + [batch];
    }

    /** Drop the oldest batch, if the writer has not emptied the queue meanwhile. */
    method MakeRoom(first: nat, second: nat, ghost start: State, ghost before: seq<Step>)
      returns (ghost steps: seq<Step>)
      requires At(Evicting) == Run(start, before) && Inv(At(Evicting))
      modifies this`queue, this`taken, this`dropped, this`lost
      ensures At(Placing) == Run(start, steps) && Inv(At(Placing)) && |queue| < limit
      ensures dropped <= old(dropped) + 1
    {
      hide Inv, Runs.Run;
      var takes := TakeSome(first, Evicting);
      Runs.Concat(Apply, start, before, takes);
      RunKeepsInv(old(At(Evicting)), takes);
      steps := before + takes;
      Runs.OneMore(Apply, start, steps, Evict);
      StepKeepsInv(At(Evicting), Evict);
      steps := steps + [Evict];
      if queue != [] {
        dropped, lost := dropped + 1, lost + {queue[0]};
        queue := queue[1..];
      }
      ghost var evicted := At(Placing);
      var more := TakeSome(second, Placing);
      Runs.Concat(Apply, start, steps, more);
      RunKeepsInv(evicted, more);
      PlacingHasRoom(At(Placing));
      steps := steps + more;
    }
  }
}
