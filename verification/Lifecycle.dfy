/**
 The alert lifecycle of internal/alerts/state.go and its behaviour over whole runs.

 Times and durations are integers (nanoseconds). A run stores the state after every step with
 granularity `g`: `g == 1` is the in-memory lifecycle, `g == 1_000_000_000` the one whose times are
 written to whole-second columns. Every theorem is stated for all `g`, so "at least d" for the first
 and "more than d minus one second" for the second are one statement.
 */
module Lifecycle {
  import opened Options

  datatype Phase = Unset | Healthy | Pending | Firing | Recovering

  datatype State = State(phase: Phase, since: int, lastNotified: Option<int>, cooldownUntil: Option<int>)

  datatype Rule = Rule(triggerDuration: int, recoveryDuration: int, cooldown: int, repeatEvery: int)

  datatype Transition = Transition(state: State, triggered: bool, repeated: bool, resolved: bool)

  /** What one evaluation of one alert sees. */
  datatype Observation = Observation(now: int, failing: bool, recovered: bool, suppressed: bool, rule: Rule)

  /** The state of an alert that has never been evaluated. */
  const FRESH := State(Unset, 0, None, None)

  predicate Active(p: Phase) {
    p == Firing || p == Recovering
  }

  function Advance(o: Observation, stored: State): (t: Transition)
  {
    var previous := if stored.phase == Unset then State(Healthy, o.now, None, None) else stored;
    var same := Transition(previous, false, false, false);
    match previous.phase
    case Healthy =>
      if o.failing then same.(state := State(Pending, o.now, None, previous.cooldownUntil)) else same
    case Pending =>
      if !o.failing then
        same.(state := State(Healthy, o.now, None, previous.cooldownUntil))
      else if o.now - previous.since >= o.rule.triggerDuration && !o.suppressed
              && (previous.cooldownUntil == None || previous.cooldownUntil.value <= o.now) then
        Transition(previous.(phase := Firing, since := o.now, lastNotified := Some(o.now)), true, false, false)
      else same
    case Firing =>
      if o.recovered then
        same.(state := previous.(phase := Recovering, since := o.now))
      else if !o.suppressed && previous.lastNotified != None && o.rule.repeatEvery > 0
              && o.now - previous.lastNotified.value >= o.rule.repeatEvery then
        Transition(previous.(lastNotified := Some(o.now)), false, true, false)
      else same
    case Recovering =>
      if o.failing then
        same.(state := previous.(phase := Firing, since := o.now))
      else if o.recovered && o.now - previous.since >= o.rule.recoveryDuration then
        Transition(State(Healthy, o.now, None, Some(o.now + o.rule.cooldown)), false, false, true)
      else same
    case Unset => same
  }

  // ---------------------------------------------------------------- runs

  function StoreTime(g: int, t: Option<int>): Option<int>
    requires 0 < g
  {
    if t == None then None else Some(Trunc(g, t.value))
  }

  /** The state as the next evaluation will read it back. */
  function Store(g: int, s: State): State
    requires 0 < g
  {
    State(s.phase, Trunc(g, s.since), StoreTime(g, s.lastNotified), StoreTime(g, s.cooldownUntil))
  }

  /** The stored state just before observation `i` of a run. */
  function Before(g: int, run: seq<Observation>, i: nat): State
    requires 0 < g && i <= |run|
    decreases i, 0
  {
    if i == 0 then FRESH else Store(g, At(g, run, i - 1).state)
  }

  /** What observation `i` of a run does. */
  function At(g: int, run: seq<Observation>, i: nat): Transition
    requires 0 < g && i < |run|
    decreases i, 1
  {
    Advance(run[i], Before(g, run, i))
  }

  /** A run's past does not depend on its future. */
  lemma {:induction false} BeforePrefix(g: int, run: seq<Observation>, more: seq<Observation>, i: nat)
    requires 0 < g && i <= |run|
    ensures Before(g, run + more, i) == Before(g, run, i)
  {
    if i > 0 {
      BeforePrefix(g, run, more, i - 1);
      assert (run + more)[i - 1] == run[i - 1];
    }
  }

  predicate AllFailing(run: seq<Observation>, from: nat, to: nat)
    requires to <= |run|
  {
    forall k :: from <= k < to ==> run[k].failing
  }

  predicate NoneFailing(run: seq<Observation>, from: nat, to: nat)
    requires to <= |run|
  {
    forall k :: from <= k < to ==> !run[k].failing
  }

  predicate ClockNeverSteppedBack(run: seq<Observation>) {
    forall i, j :: 0 <= i <= j < |run| ==> run[i].now <= run[j].now
  }

  // ---------------------------------------------------------------- what the stored state remembers

  ghost function LastTriggered(g: int, run: seq<Observation>, i: nat): int
    requires 0 < g && i <= |run|
    ensures -1 <= LastTriggered(g, run, i) < i
  {
    if i == 0 then -1 else if At(g, run, i - 1).triggered then i - 1 else LastTriggered(g, run, i - 1)
  }

  ghost function LastResolved(g: int, run: seq<Observation>, i: nat): (k: int)
    requires 0 < g && i <= |run|
    ensures -1 <= k < i
    ensures k >= 0 ==> At(g, run, k).resolved
    ensures forall m :: k < m < i ==> !At(g, run, m).resolved
  {
    if i == 0 then -1 else if At(g, run, i - 1).resolved then i - 1 else LastResolved(g, run, i - 1)
  }

  /** The last step before `i` that notified: a trigger or a repeat. */
  ghost function LastNotice(g: int, run: seq<Observation>, i: nat): (k: int)
    requires 0 < g && i <= |run|
    ensures -1 <= k < i
    ensures k >= 0 ==> At(g, run, k).triggered || At(g, run, k).repeated
    ensures forall m :: k < m < i ==> !At(g, run, m).triggered && !At(g, run, m).repeated
  {
    if i == 0 then -1
    else if At(g, run, i - 1).triggered || At(g, run, i - 1).repeated then i - 1
    else LastNotice(g, run, i - 1)
  }

  /** The step at which the phase before observation `i` was entered. */
  ghost function Entered(g: int, run: seq<Observation>, i: nat): (k: nat)
    requires 0 < g && 0 < i <= |run|
    ensures k < i
  {
    if i == 1 || Before(g, run, i).phase != Before(g, run, i - 1).phase then i - 1 else Entered(g, run, i - 1)
  }

  /** The phase is active exactly since a trigger that no resolution followed; a resolution started the cooldown. */
  ghost predicate PhaseExplained(g: int, run: seq<Observation>, i: nat)
    requires 0 < g && i <= |run|
  {
    var s := Before(g, run, i);
    var resolved := LastResolved(g, run, i);
    && (s.phase == Unset <==> i == 0)
    && (Active(s.phase) <==> LastTriggered(g, run, i) > resolved)
    && s.cooldownUntil == (if resolved < 0 then None
                           else Some(Trunc(g, run[resolved].now + run[resolved].rule.cooldown)))
  }

  /** The phase began when it was entered, and what it stands for has been seen ever since. */
  ghost predicate SinceExplained(g: int, run: seq<Observation>, i: nat)
    requires 0 < g && i <= |run|
  {
    var s := Before(g, run, i);
    && (i > 0 ==> s.since == Trunc(g, run[Entered(g, run, i)].now))
    && (s.phase == Pending ==> i > 0 && AllFailing(run, Entered(g, run, i), i))
    && (s.phase == Recovering ==>
          i > 0 && run[Entered(g, run, i)].recovered && NoneFailing(run, Entered(g, run, i) + 1, i))
  }

  /** An active alert was last notified by its trigger or by a repeat since. */
  ghost predicate NoticeExplained(g: int, run: seq<Observation>, i: nat)
    requires 0 < g && i <= |run|
  {
    var s := Before(g, run, i);
    Active(s.phase) ==>
      && 0 <= LastNotice(g, run, i) && LastTriggered(g, run, i) <= LastNotice(g, run, i)
      && s.lastNotified == Some(Trunc(g, run[LastNotice(g, run, i)].now))
  }

  /** The stored state is explained by the run that produced it, with one truncation and no more. */
  ghost predicate Explained(g: int, run: seq<Observation>, i: nat)
    requires 0 < g && i <= |run|
  {
    PhaseExplained(g, run, i) && SinceExplained(g, run, i) && NoticeExplained(g, run, i)
  }

  lemma {:induction false} StateIsExplained(g: int, run: seq<Observation>, i: nat)
    requires 0 < g && i <= |run|
    ensures Explained(g, run, i)
  {
    if i > 0 {
      StateIsExplained(g, run, i - 1);
      ExplainedStep(g, run, i);
    }
  }

  lemma ExplainedStep(g: int, run: seq<Observation>, i: nat)
    requires 0 < g && 0 < i <= |run|
    requires Explained(g, run, i - 1)
    ensures Explained(g, run, i)
  {
    PhaseStep(g, run, i);
    SinceStep(g, run, i);
    NoticeStep(g, run, i);
  }

  lemma PhaseStep(g: int, run: seq<Observation>, i: nat)
    requires 0 < g && 0 < i <= |run| && PhaseExplained(g, run, i - 1)
    ensures PhaseExplained(g, run, i)
  {
    hide Trunc;
    var resolved := LastResolved(g, run, i - 1);
    if resolved >= 0 { TruncIdempotent(g, run[resolved].now + run[resolved].rule.cooldown); }
    assert Before(g, run, i) == Store(g, At(g, run, i - 1).state);
  }

  lemma SinceStep(g: int, run: seq<Observation>, i: nat)
    requires 0 < g && 0 < i <= |run| && PhaseExplained(g, run, i - 1) && SinceExplained(g, run, i - 1)
    ensures SinceExplained(g, run, i)
  {
    hide Trunc, LastTriggered, LastResolved;
    if i > 1 { TruncIdempotent(g, run[Entered(g, run, i - 1)].now); }
    assert Before(g, run, i) == Store(g, At(g, run, i - 1).state);
  }

  lemma NoticeStep(g: int, run: seq<Observation>, i: nat)
    requires 0 < g && 0 < i <= |run| && NoticeExplained(g, run, i - 1)
    ensures NoticeExplained(g, run, i)
  {
    hide Trunc;
    var notice := LastNotice(g, run, i - 1);
    if notice >= 0 { TruncIdempotent(g, run[notice].now); }
    assert Before(g, run, i) == Store(g, At(g, run, i - 1).state);
  }

  // ---------------------------------------------------------------- theorems over runs of any length

  /** A trigger ends an unbroken run of at least two failing observations that spans the trigger
      duration, is not suppressed, respects the cooldown of the last resolution, and follows no
      unresolved trigger. No error accumulates: each bound is missed by less than one granule. */
  lemma TriggerIsEarned(g: int, run: seq<Observation>, i: nat)
    requires 0 < g && i < |run| && At(g, run, i).triggered
    ensures !run[i].suppressed
    ensures exists j :: 0 <= j < i && AllFailing(run, j, i + 1)
                        && run[i].now - run[j].now > run[i].rule.triggerDuration - g
    ensures var k := LastResolved(g, run, i);
            k >= 0 ==> run[i].now > run[k].now + run[k].rule.cooldown - g
    ensures LastTriggered(g, run, i) <= LastResolved(g, run, i)
  {
    StateIsExplained(g, run, i);
    var j := Entered(g, run, i);
    assert AllFailing(run, j, i + 1);
  }

  /** A resolution follows a recovered observation by the recovery duration, with no failing one since. */
  lemma ResolutionIsEarned(g: int, run: seq<Observation>, i: nat)
    requires 0 < g && i < |run| && At(g, run, i).resolved
    ensures run[i].recovered
    ensures exists j :: 0 <= j < i && run[j].recovered && NoneFailing(run, j + 1, i + 1)
                        && run[i].now - run[j].now > run[i].rule.recoveryDuration - g
    ensures LastTriggered(g, run, i) > LastResolved(g, run, i)
  {
    StateIsExplained(g, run, i);
    var j := Entered(g, run, i);
    assert NoneFailing(run, j + 1, i + 1);
  }

  /** A repeat follows the previous notification of the same alert by the repeat interval. */
  lemma RepeatIsEarned(g: int, run: seq<Observation>, i: nat)
    requires 0 < g && i < |run| && At(g, run, i).repeated
    ensures !run[i].suppressed && run[i].rule.repeatEvery > 0
    ensures var k := LastNotice(g, run, i);
            k >= 0 && run[i].now - run[k].now > run[i].rule.repeatEvery - g
    ensures LastTriggered(g, run, i) > LastResolved(g, run, i)
  {
    StateIsExplained(g, run, i);
  }

  lemma {:induction false} LastTriggeredIsLast(g: int, run: seq<Observation>, i: nat, m: nat)
    requires 0 < g && m < i <= |run|
    ensures LastTriggered(g, run, i) >= 0 ==> At(g, run, LastTriggered(g, run, i)).triggered
    ensures At(g, run, m).triggered ==> m <= LastTriggered(g, run, i)
  {
    if m < i - 1 { LastTriggeredIsLast(g, run, i - 1, m); }
    else if i > 1 { LastTriggeredIsLast(g, run, i - 1, 0); }
  }

  /** Between two triggers of one alert lies a resolution. */
  lemma TriggersAreSeparated(g: int, run: seq<Observation>, i: nat, j: nat)
    requires 0 < g && i < j < |run| && At(g, run, i).triggered && At(g, run, j).triggered
    ensures exists k :: i < k < j && At(g, run, k).resolved
  {
    TriggerIsEarned(g, run, j);
    LastTriggeredIsLast(g, run, j, i);
    StateIsExplained(g, run, i);
    var k := LastResolved(g, run, j);
    assert At(g, run, k).resolved;
  }

  /** Between two resolutions of one alert, and before the first, lies a trigger: with
      `TriggersAreSeparated`, the two strictly alternate and a trigger comes first. */
  lemma ResolutionsAreSeparated(g: int, run: seq<Observation>, j: nat)
    requires 0 < g && j < |run| && At(g, run, j).resolved
    ensures exists k :: LastResolved(g, run, j) < k < j && At(g, run, k).triggered
  {
    ResolutionIsEarned(g, run, j);
    LastTriggeredIsLast(g, run, j, 0);
    var k := LastTriggered(g, run, j);
    assert At(g, run, k).triggered;
  }

  /** Truncation never delays a trigger: an alert that was not active, has failed without a break for
      its trigger duration, is past its cooldown and is not suppressed has triggered by now. */
  lemma TriggerIsNotLate(g: int, run: seq<Observation>, j: nat, i: nat)
    requires 0 < g && j < i < |run|
    requires ClockNeverSteppedBack(run)
    requires !Active(Before(g, run, j).phase) && AllFailing(run, j, i + 1)
    requires run[i].now - run[j].now >= run[i].rule.triggerDuration
    requires !run[i].suppressed
    requires var k := LastResolved(g, run, j); k >= 0 ==> run[k].now + run[k].rule.cooldown <= run[i].now
    ensures exists m :: j <= m <= i && At(g, run, m).triggered
  {
    if forall m :: j <= m < i ==> !At(g, run, m).triggered {
      StaysPending(g, run, j, i);
      StateIsExplained(g, run, i);
      assert At(g, run, i).triggered;
    }
  }

  lemma {:induction false} StaysPending(g: int, run: seq<Observation>, j: nat, i: nat)
    requires 0 < g && j < i <= |run|
    requires !Active(Before(g, run, j).phase) && AllFailing(run, j, i)
    requires forall m :: j <= m < i ==> !At(g, run, m).triggered
    ensures Before(g, run, i).phase == Pending
    ensures Entered(g, run, i) <= j
    ensures LastResolved(g, run, i) == LastResolved(g, run, j)
  {
    if i > j + 1 { StaysPending(g, run, j, i - 1); }
  }

  /** Nor a resolution: an active alert that recovered, has not failed since and is recovered after its recovery
      duration has resolved by now. */
  lemma ResolutionIsNotLate(g: int, run: seq<Observation>, j: nat, i: nat)
    requires 0 < g && j < i < |run|
    requires ClockNeverSteppedBack(run)
    requires Active(Before(g, run, j).phase) && run[j].recovered && NoneFailing(run, j, i + 1)
    requires run[i].recovered && run[i].now - run[j].now >= run[i].rule.recoveryDuration
    ensures exists m :: j <= m <= i && At(g, run, m).resolved
  {
    if forall m :: j <= m < i ==> !At(g, run, m).resolved {
      StaysRecovering(g, run, j, i);
      StateIsExplained(g, run, i);
      assert At(g, run, i).resolved;
    }
  }

  lemma {:induction false} StaysRecovering(g: int, run: seq<Observation>, j: nat, i: nat)
    requires 0 < g && j < i <= |run|
    requires Active(Before(g, run, j).phase) && run[j].recovered && NoneFailing(run, j, i)
    requires forall m :: j <= m < i ==> !At(g, run, m).resolved
    ensures Before(g, run, i).phase == Recovering
    ensures Entered(g, run, i) <= j
  {
    if i > j + 1 { StaysRecovering(g, run, j, i - 1); }
  }

  /** Nor a repeat: a firing alert that is neither recovered nor suppressed repeats once its interval has passed. */
  lemma RepeatIsNotLate(g: int, run: seq<Observation>, i: nat)
    requires 0 < g && i < |run| && Before(g, run, i).phase == Firing
    requires !run[i].recovered && !run[i].suppressed && run[i].rule.repeatEvery > 0
    requires var k := LastNotice(g, run, i); k >= 0 ==> run[i].now - run[k].now >= run[i].rule.repeatEvery
    ensures At(g, run, i).repeated
  {
    StateIsExplained(g, run, i);
  }
}
