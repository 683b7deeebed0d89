/**
 Gap reporting of internal/storage/history.go: detection in the points of a series, relabelling, and
 merging. Times and durations are integers; a gap or a sample's cell covers the instants from its
 start up to, not including, its end.
 */
module History {
  import opened Options

  datatype Point = Point(at: int, value: Option<real>)

  datatype Gap = Gap(from: int, to: int, reason: string)

  const MISSING := "missing"

  // ---------------------------------------------------------------- resolution

  const SECOND := 1_000_000_000
  const MINUTE := 60 * SECOND
  const HOUR := 60 * MINUTE

  datatype Resolution = Raw | OneMinute | FifteenMinutes | OneHour

  function SelectResolution(d: int): Resolution {
    if d <= 2 * HOUR then Raw
    else if d <= 1000 * MINUTE then OneMinute
    else if d <= 1000 * 15 * MINUTE then FifteenMinutes
    else OneHour
  }

  function StepOf(r: Resolution): int {
    match r
    case Raw => 10 * SECOND
    case OneMinute => MINUTE
    case FifteenMinutes => 15 * MINUTE
    case OneHour => HOUR
  }

  /** A query of the longest permitted range, thirty days, never spans more than a thousand steps. Up to two hours its
      step is ten seconds; beyond, it is the finest of a minute, a quarter and an hour that keeps to the thousand. */
  lemma SeriesAreBounded(d: int)
    requires 0 < d <= 30 * 24 * 3600 * SECOND
    ensures var step := StepOf(SelectResolution(d));
            && d / step <= 1000
            && if d <= 7200 * SECOND then step == 10 * SECOND
               else step in {60 * SECOND, 900 * SECOND, 3600 * SECOND} && d <= 1000 * step &&
                    forall s :: s in {60 * SECOND, 900 * SECOND, 3600 * SECOND} && d <= 1000 * s ==> step <= s
  {
  }

  // ---------------------------------------------------------------- finding gaps

  function Lead(cursor: int, at: int, step: int): seq<Gap> {
    if at - cursor > step * 2 then [Gap(cursor, at, MISSING)] else []
  }

  function Hole(p: Point, step: int): seq<Gap> {
    if p.value == None then [Gap(p.at, p.at + step, MISSING)] else []
  }

  /** The gaps from `cursor` on, given the points not yet passed. */
  function Scan(cursor: int, to: int, step: int, points: seq<Point>): seq<Gap>
    decreases |points|
  {
    if points == [] then Lead(cursor, to, step)
    else Lead(cursor, points[0].at, step) + Hole(points[0], step) + Scan(points[0].at + step, to, step, points[1..])
  }

  /** The `i`th pause lies between the end of the cell before it, or `from`, and the next point, or `to`; `g` is that
      pause, and it is longer than two steps. */
  ghost predicate PauseAt(from: int, to: int, step: int, points: seq<Point>, i: nat, g: Gap)
    requires i <= |points|
  {
    && g.from == (if i == 0 then from else points[i - 1].at + step)
    && g.to == (if i == |points| then to else points[i].at)
    && g.to - g.from > 2 * step
  }

  ghost predicate LongPause(from: int, to: int, step: int, points: seq<Point>, g: Gap) {
    exists i: nat :: i <= |points| && PauseAt(from, to, step, points, i, g)
  }

  /** `g` is the cell of a point without a value. */
  ghost predicate EmptyCell(points: seq<Point>, step: int, g: Gap) {
    exists k :: 0 <= k < |points| && points[k].value == None && g.from == points[k].at && g.to == points[k].at + step
  }

  lemma PausesOf(from: int, to: int, step: int, points: seq<Point>, g: Gap)
    requires points != []
    ensures LongPause(from, to, step, points, g) <==>
              || PauseAt(from, to, step, points, 0, g)
              || LongPause(points[0].at + step, to, step, points[1..], g)
  {
    var next, rest := points[0].at + step, points[1..];
    if i: nat :| 0 < i <= |points| && PauseAt(from, to, step, points, i, g) {
      assert PauseAt(next, to, step, rest, i - 1, g);
    }
    if i: nat :| i <= |rest| && PauseAt(next, to, step, rest, i, g) {
      assert PauseAt(from, to, step, points, i + 1, g);
    }
  }

  lemma EmptyCellsOf(points: seq<Point>, step: int, g: Gap)
    requires points != []
    ensures EmptyCell(points, step, g) <==>
              || (points[0].value == None && g.from == points[0].at && g.to == points[0].at + step)
              || EmptyCell(points[1..], step, g)
  {
    assert forall k :: 0 < k < |points| ==> points[k] == points[1..][k - 1];
  }

  /** The gaps are exactly the pauses longer than two steps and the cells of points without a value. */
  lemma {:induction false} GapsAreExact(from: int, to: int, step: int, points: seq<Point>, g: Gap)
    ensures g in Scan(from, to, step, points) <==>
              g.reason == "missing" && (LongPause(from, to, step, points, g) || EmptyCell(points, step, g))
    decreases |points|
  {
    hide LongPause, EmptyCell;
    if points == [] {
      NoPointsOnePause(from, to, step, points, g);
    } else {
      PausesOf(from, to, step, points, g);
      EmptyCellsOf(points, step, g);
      GapsAreExact(points[0].at + step, to, step, points[1..], g);
      ScanUnfolds(from, to, step, points);
    }
  }

  lemma NoPointsOnePause(from: int, to: int, step: int, points: seq<Point>, g: Gap)
    requires points == []
    ensures LongPause(from, to, step, points, g) <==> g.from == from && g.to == to && to - from > 2 * step
    ensures !EmptyCell(points, step, g)
  {
    assert g.from == from && g.to == to && to - from > 2 * step ==> PauseAt(from, to, step, points, 0, g);
  }

  /** `findGaps`. A step of zero stands for an unknown resolution. */
  method FindGaps(from: int, to: int, step: int, points: seq<Point>) returns (gaps: seq<Gap>)
    ensures gaps == if step == 0 then [] else Scan(from, to, step, points)
    ensures forall g :: g in gaps <==>
              step != 0 && g.reason == "missing"
              && (LongPause(from, to, step, points, g) || EmptyCell(points, step, g))
  {
    hide Scan, LongPause, EmptyCell;
    forall g { GapsAreExact(from, to, step, points, g); }
    if step == 0 {
      return [];
    }
    gaps := [];
    var cursor := from;
    for i := 0 to |points|
      invariant gaps + Scan(cursor, to, step, points[i..]) == Scan(from, to, step, points)
    {
      var p := points[i];
      ghost var before := gaps;
      if p.at - cursor > step * 2 {
        gaps := gaps + [Gap(cursor, p.at, MISSING)];
      }
      assert gaps == before + Lead(cursor, p.at, step);
      ghost var led := gaps;
      if p.value == None {
        gaps := gaps + [Gap(p.at, p.at + step, MISSING)];
      }
      assert gaps == led + Hole(p, step);
      ScanOne(before, cursor, to, step, points[i..], points[i + 1..]);
      cursor := p.at + step;
    }
    ScanNone(cursor, to, step, points[|points|..]);
    if to - cursor > step * 2 {
      gaps := gaps + [Gap(cursor, to, MISSING)];
    }
  }

  lemma ScanNone(cursor: int, to: int, step: int, points: seq<Point>)
    requires points == []
    ensures Scan(cursor, to, step, points) == Lead(cursor, to, step)
  {
  }

  /** One point further. */
  lemma ScanOne(before: seq<Gap>, cursor: int, to: int, step: int, points: seq<Point>, rest: seq<Point>)
    requires points != [] && rest == points[1..]
    ensures var p := points[0];
            before + Scan(cursor, to, step, points)
            == before + Lead(cursor, p.at, step) + Hole(p, step) + Scan(p.at + step, to, step, rest)
  {
    hide Scan, Lead, Hole;
    var p := points[0];
    ScanUnfolds(cursor, to, step, points);
    Regroup(before, Lead(cursor, p.at, step), Hole(p, step), Scan(p.at + step, to, step, rest));
  }

  lemma ScanUnfolds(cursor: int, to: int, step: int, points: seq<Point>)
    requires points != []
    ensures var p := points[0];
            Scan(cursor, to, step, points)
            == Lead(cursor, p.at, step) + Hole(p, step) + Scan(p.at + step, to, step, points[1..])
  {
  }

  lemma Regroup<T>(a: seq<T>, b: seq<T>, c: seq<T>, d: seq<T>)
    ensures a + (b + c + d) == a + b + c + d
  {
  }

  predicate Inside(g: Gap, t: int) { g.from <= t < g.to }

  ghost predicate InGap(gaps: seq<Gap>, t: int) {
    exists k :: 0 <= k < |gaps| && Inside(gaps[k], t)
  }

  /** `t` lies in the cell of a point that has a value, or that has none. */
  ghost predicate InCell(points: seq<Point>, step: int, t: int, known: bool) {
    exists k :: 0 <= k < |points| && points[k].value.Some? == known && points[k].at <= t < points[k].at + step
  }

  ghost predicate Accounted(gaps: seq<Gap>, points: seq<Point>, step: int, t: int) {
    InGap(gaps, t) || InCell(points, step, t, true)
  }

  lemma InGapOfParts(a: seq<Gap>, b: seq<Gap>, c: seq<Gap>, t: int)
    ensures InGap(a + b + c, t) <==> InGap(a, t) || InGap(b, t) || InGap(c, t)
  {
    var all := a + b + c;
    if InGap(a, t) {
      var k :| 0 <= k < |a| && Inside(a[k], t);
      assert Inside(all[k], t);
    }
    if InGap(b, t) {
      var k :| 0 <= k < |b| && Inside(b[k], t);
      assert Inside(all[|a| + k], t);
    }
    if InGap(c, t) {
      var k :| 0 <= k < |c| && Inside(c[k], t);
      assert Inside(all[|a| + |b| + k], t);
    }
  }

  /** What the scan accounts for, one point at a time. */
  lemma AccountedStep(cursor: int, to: int, step: int, points: seq<Point>, t: int)
    requires points != [] && 0 < step
    ensures cursor <= t < points[0].at && points[0].at - cursor > step * 2 ==>
              Accounted(Scan(cursor, to, step, points), points, step, t)
    ensures points[0].at <= t < points[0].at + step ==> Accounted(Scan(cursor, to, step, points), points, step, t)
    ensures Accounted(Scan(points[0].at + step, to, step, points[1..]), points[1..], step, t) ==>
              Accounted(Scan(cursor, to, step, points), points, step, t)
  {
    var p, rest := points[0], points[1..];
    var lead, hole, tail := Lead(cursor, p.at, step), Hole(p, step), Scan(p.at + step, to, step, rest);
    InGapOfParts(lead, hole, tail, t);
    if cursor <= t < p.at && p.at - cursor > step * 2 { assert Inside(lead[0], t); }
    if p.at <= t < p.at + step && p.value == None { assert Inside(hole[0], t); }
    if InCell(rest, step, t, true) {
      var k :| 0 <= k < |rest| && rest[k].value.Some? && rest[k].at <= t < rest[k].at + step;
      assert points[k + 1] == rest[k];
    }
  }

  /** No instant from `x` up to `y` is accounted for. */
  ghost predicate Silent(gaps: seq<Gap>, points: seq<Point>, step: int, x: int, y: int) {
    forall t :: x <= t < y ==> !Accounted(gaps, points, step, t)
  }

  /** Nothing long goes unreported: a stretch of the range that is neither in a gap nor in the cell of a known
      sample is at most two steps long. */
  lemma {:induction false} SilenceIsShort(cursor: int, to: int, step: int, points: seq<Point>, x: int, y: int)
    requires 0 < step && cursor <= x <= y <= to
    requires Silent(Scan(cursor, to, step, points), points, step, x, y)
    ensures y - x <= 2 * step
    decreases |points|
  {
    if x < y {
      assert !Accounted(Scan(cursor, to, step, points), points, step, x);
      if points == [] {
        assert to - cursor > step * 2 ==> Inside(Scan(cursor, to, step, points)[0], x);
      } else {
        var p, rest := points[0], points[1..];
        var next := p.at + step;
        AccountedStep(cursor, to, step, points, x);
        if x < p.at < y { AccountedStep(cursor, to, step, points, p.at); }
        if x >= next {
          var tail := Scan(next, to, step, rest);
          forall t | x <= t < y ensures !Accounted(tail, rest, step, t) {
            AccountedStep(cursor, to, step, points, t);
          }
          SilenceIsShort(next, to, step, rest, x, y);
        }
      }
    }
  }

  // ---------------------------------------------------------------- order, and what gaps contain

  ghost predicate Sorted(points: seq<Point>) {
    forall i, j :: 0 <= i < j < |points| ==> points[i].at <= points[j].at
  }

  /** Starts and ends never decrease, and no gap is empty. */
  ghost predicate Ordered(gaps: seq<Gap>) {
    && (forall i :: 0 <= i < |gaps| ==> gaps[i].from < gaps[i].to)
    && (forall i, j :: 0 <= i < j < |gaps| ==> gaps[i].from <= gaps[j].from && gaps[i].to <= gaps[j].to)
  }

  ghost predicate AllAfter(gaps: seq<Gap>, low: int, cursor: int) {
    forall i :: 0 <= i < |gaps| ==> low <= gaps[i].from && cursor <= gaps[i].to
  }

  lemma OrderedConcat(a: seq<Gap>, b: seq<Gap>, low: int, cursor: int)
    requires Ordered(a) && Ordered(b) && AllAfter(b, low, cursor)
    requires forall i :: 0 <= i < |a| ==> a[i].from <= low && a[i].to <= cursor
    ensures Ordered(a + b)
  {
  }

  /** The gaps found in sorted points have starts and ends that never decrease. */
  lemma {:induction false} GapsAreOrdered(cursor: int, low: int, to: int, step: int, points: seq<Point>)
    requires 0 < step && Sorted(points) && low <= cursor <= low + step
    requires forall i :: 0 <= i < |points| ==> low <= points[i].at
    ensures Ordered(Scan(cursor, to, step, points))
    ensures AllAfter(Scan(cursor, to, step, points), low, cursor)
    decreases |points|
  {
    hide Scan, Ordered, AllAfter, Hole;
    if points == [] {
      ScanNone(cursor, to, step, points);
      LeadIsOrdered(cursor, to, step, low);
    } else {
      var p, rest := points[0], points[1..];
      GapsAreOrdered(p.at + step, p.at, to, step, rest);
      var head, tail := Lead(cursor, p.at, step) + Hole(p, step), Scan(p.at + step, to, step, rest);
      HeadIsOrdered(cursor, low, step, p);
      OrderedConcat(head, tail, p.at, p.at + step);
      AfterBoth(head, tail, low, cursor, p.at, p.at + step);
      ScanUnfolds(cursor, to, step, points);
    }
  }

  lemma LeadIsOrdered(cursor: int, at: int, step: int, low: int)
    requires 0 < step && low <= cursor
    ensures Ordered(Lead(cursor, at, step)) && AllAfter(Lead(cursor, at, step), low, cursor)
  {
  }

  lemma HeadIsOrdered(cursor: int, low: int, step: int, p: Point)
    requires 0 < step && low <= cursor <= low + step && low <= p.at
    ensures var head := Lead(cursor, p.at, step) + Hole(p, step);
            && Ordered(head) && AllAfter(head, low, cursor)
            && forall i :: 0 <= i < |head| ==> head[i].from <= p.at && head[i].to <= p.at + step
  {
  }

  lemma AfterBoth(a: seq<Gap>, b: seq<Gap>, low: int, cursor: int, low': int, cursor': int)
    requires AllAfter(a, low, cursor) && AllAfter(b, low', cursor') && low <= low' && cursor <= cursor'
    ensures AllAfter(a + b, low, cursor)
  {
  }

  ghost predicate PointAt(points: seq<Point>, t: int) {
    exists k :: 0 <= k < |points| && points[k].at == t
  }

  /** An instant inside a gap is in the cell of a point without a value, or no point is there at all. */
  lemma {:induction false} GapsHoldNoPoints(cursor: int, to: int, step: int, points: seq<Point>, t: int)
    requires 0 < step && Sorted(points) && InGap(Scan(cursor, to, step, points), t)
    requires forall i :: 0 <= i < |points| ==> cursor <= points[i].at + step
    ensures InCell(points, step, t, false) || (cursor <= t && !PointAt(points, t))
    decreases |points|
  {
    if points != [] {
      var p, rest := points[0], points[1..];
      InGapOfParts(Lead(cursor, p.at, step), Hole(p, step), Scan(p.at + step, to, step, rest), t);
      if InGap(Hole(p, step), t) {
        assert points[0].value.Some? == false;
      } else if !InGap(Lead(cursor, p.at, step), t) {
        GapsHoldNoPoints(p.at + step, to, step, rest, t);
        NoPointsFromHereOn(points, step, t);
      }
    }
  }

  /** What holds of the points after the first holds of all, at an instant past the first one's cell. */
  lemma NoPointsFromHereOn(points: seq<Point>, step: int, t: int)
    requires 0 < step && points != []
    requires InCell(points[1..], step, t, false) || (points[0].at + step <= t && !PointAt(points[1..], t))
    ensures InCell(points, step, t, false) || (points[0].at + step <= t && !PointAt(points, t))
  {
    var rest := points[1..];
    if InCell(rest, step, t, false) {
      var k :| 0 <= k < |rest| && rest[k].value.Some? == false && rest[k].at <= t < rest[k].at + step;
      assert points[k + 1] == rest[k];
    } else {
      assert forall k :: 0 < k < |points| ==> points[k] == rest[k - 1];
    }
  }

  lemma {:induction false} HolesAreGaps(cursor: int, to: int, step: int, points: seq<Point>, t: int)
    requires 0 < step && InCell(points, step, t, false)
    ensures InGap(Scan(cursor, to, step, points), t)
    decreases |points|
  {
    var k :| 0 <= k < |points| && points[k].value.Some? == false && points[k].at <= t < points[k].at + step;
    var p, rest := points[0], points[1..];
    InGapOfParts(Lead(cursor, p.at, step), Hole(p, step), Scan(p.at + step, to, step, rest), t);
    if k == 0 {
      assert Inside(Hole(p, step)[0], t);
    } else {
      assert rest[k - 1] == points[k];
      HolesAreGaps(p.at + step, to, step, rest, t);
    }
  }

  /** A known sample lies inside a gap exactly when it comes less than one step after an unknown one. */
  lemma KnownSampleInGapIff(from: int, to: int, step: int, points: seq<Point>, k: nat)
    requires 0 < step && Sorted(points) && k < |points| && points[k].value.Some? && from <= points[0].at + step
    ensures InGap(Scan(from, to, step, points), points[k].at) <==> InCell(points, step, points[k].at, false)
  {
    var t := points[k].at;
    if InGap(Scan(from, to, step, points), t) {
      GapsHoldNoPoints(from, to, step, points, t);
      assert PointAt(points, t);
    }
    if InCell(points, step, t, false) { HolesAreGaps(from, to, step, points, t); }
  }

  /** With points at least a step apart, no known sample lies inside a gap. */
  lemma SpacedSamplesAreNotInGaps(from: int, to: int, step: int, points: seq<Point>, k: nat)
    requires 0 < step && k < |points| && points[k].value.Some? && from <= points[0].at + step
    requires forall i, j :: 0 <= i < j < |points| ==> points[i].at + step <= points[j].at
    ensures !InGap(Scan(from, to, step, points), points[k].at)
  {
    KnownSampleInGapIff(from, to, step, points, k);
    assert forall i :: 0 <= i < |points| && points[i].at <= points[k].at < points[i].at + step ==> i == k;
  }

  // ---------------------------------------------------------------- merging

  /** Fold `rest` into `out`, extending the last gap of `out` where it can. */
  function MergeInto(out: seq<Gap>, rest: seq<Gap>): seq<Gap>
    requires out != []
    decreases |rest|
  {
    if rest == [] then out else
      var n, gap := |out| - 1, rest[0];
      var last := out[n];
      if gap.reason == last.reason && gap.from <= last.to then
        MergeInto(out[n := if gap.to > last.to then last.(to := gap.to) else last], rest[1..])
      else MergeInto(out + [gap], rest[1..])
  }

  function Merge(gaps: seq<Gap>): seq<Gap> {
    if |gaps| < 2 then gaps else MergeInto([gaps[0]], gaps[1..])
  }

  /** `mergeGaps`, which rewrites the last gap of its result in place. */
  method MergeGaps(gaps: seq<Gap>) returns (out: seq<Gap>)
    ensures out == Merge(gaps)
  {
    if |gaps| < 2 {
      return gaps;
    }
    out := [gaps[0]];
    for i := 1 to |gaps|
      invariant out != [] && MergeInto(out, gaps[i..]) == Merge(gaps)
    {
      var gap, n := gaps[i], |out| - 1;
      assert gaps[i..][0] == gap && gaps[i..][1..] == gaps[i + 1..];
      if gap.reason == out[n].reason && gap.from <= out[n].to {
        if gap.to > out[n].to {
          out := out[n := out[n].(to := gap.to)];
        }
        assert out[n := out[n]] == out;
      } else {
        out := out + [gap];
      }
    }
  }

  /** `t` lies in a gap with this reason. */
  ghost predicate Blamed(gaps: seq<Gap>, t: int, reason: string) {
    exists k :: 0 <= k < |gaps| && Inside(gaps[k], t) && gaps[k].reason == reason
  }

  /** Neighbouring gaps with one reason do not touch. */
  ghost predicate Separated(gaps: seq<Gap>) {
    forall i :: 0 <= i < |gaps| - 1 && gaps[i].reason == gaps[i + 1].reason ==> gaps[i].to < gaps[i + 1].from
  }

  lemma BlamedConcat(a: seq<Gap>, b: seq<Gap>, t: int, reason: string)
    ensures Blamed(a + b, t, reason) <==> Blamed(a, t, reason) || Blamed(b, t, reason)
  {
    if Blamed(a, t, reason) {
      var k :| 0 <= k < |a| && Inside(a[k], t) && a[k].reason == reason;
      assert (a + b)[k] == a[k];
    }
    if Blamed(b, t, reason) {
      var k :| 0 <= k < |b| && Inside(b[k], t) && b[k].reason == reason;
      assert (a + b)[|a| + k] == b[k];
    }
    if Blamed(a + b, t, reason) {
      var k :| 0 <= k < |a + b| && Inside((a + b)[k], t) && (a + b)[k].reason == reason;
      assert k < |a| ==> (a + b)[k] == a[k];
      assert k >= |a| ==> (a + b)[k] == b[k - |a|];
    }
  }

  lemma NobodyBlamed(gaps: seq<Gap>, t: int, reason: string)
    requires gaps == []
    ensures !Blamed(gaps, t, reason)
  {
  }

  lemma BlamedOne(g: Gap, t: int, reason: string)
    ensures Blamed([g], t, reason) <==> Inside(g, t) && g.reason == reason
  {
    assert [g][0] == g;
  }

  /** Extending a gap by one that starts no earlier and no later than it ends covers exactly both. */
  lemma {:induction false} MergeKeepsBlame(out: seq<Gap>, rest: seq<Gap>, t: int, reason: string)
    requires out != [] && Ordered(rest) && (rest != [] ==> out[|out| - 1].from <= rest[0].from)
    ensures Blamed(MergeInto(out, rest), t, reason) <==> Blamed(out, t, reason) || Blamed(rest, t, reason)
    decreases |rest|
  {
    hide Blamed;
    if rest == [] {
      NobodyBlamed(rest, t, reason);
    } else {
      var n, gap, tail := |out| - 1, rest[0], rest[1..];
      var last, init := out[n], out[..n];
      assert out == init + [last] && rest == [gap] + tail;
      BlamedConcat(init, [last], t, reason);
      BlamedConcat([gap], tail, t, reason);
      BlamedOne(last, t, reason);
      BlamedOne(gap, t, reason);
      if gap.reason == last.reason && gap.from <= last.to {
        var wide := if gap.to > last.to then last.(to := gap.to) else last;
        assert out[n := wide] == init + [wide];
        BlamedConcat(init, [wide], t, reason);
        BlamedOne(wide, t, reason);
        MergeKeepsBlame(out[n := wide], tail, t, reason);
      } else {
        BlamedConcat(out, [gap], t, reason);
        MergeKeepsBlame(out + [gap], tail, t, reason);
      }
    }
  }

  lemma {:induction false} MergeSeparates(out: seq<Gap>, rest: seq<Gap>)
    requires out != [] && Separated(out)
    ensures MergeInto(out, rest) != [] && Separated(MergeInto(out, rest))
    decreases |rest|
  {
    if rest != [] {
      var n, gap, tail := |out| - 1, rest[0], rest[1..];
      if gap.reason == out[n].reason && gap.from <= out[n].to {
        var wide := if gap.to > out[n].to then out[n].(to := gap.to) else out[n];
        assert Separated(out[n := wide]);
        MergeSeparates(out[n := wide], tail);
      } else {
        assert Separated(out + [gap]);
        MergeSeparates(out + [gap], tail);
      }
    }
  }

  lemma {:induction false} SeparatedIsMerged(out: seq<Gap>, rest: seq<Gap>)
    requires out != [] && Separated(out + rest)
    ensures MergeInto(out, rest) == out + rest
    decreases |rest|
  {
    if rest != [] {
      var n := |out| - 1;
      assert (out + rest)[n] == out[n] && (out + rest)[n + 1] == rest[0];
      assert out + rest == out + [rest[0]] + rest[1..];
      SeparatedIsMerged(out + [rest[0]], rest[1..]);
    }
  }

  /** Merging ordered gaps, whatever their reasons, covers the same instants for the same reasons, leaves
      neighbours with one reason apart, and has nothing left to merge. */
  lemma MergeIsExact(gaps: seq<Gap>, t: int, reason: string)
    requires Ordered(gaps)
    ensures Blamed(Merge(gaps), t, reason) <==> Blamed(gaps, t, reason)
    ensures Separated(Merge(gaps))
    ensures Merge(Merge(gaps)) == Merge(gaps)
  {
    if |gaps| >= 2 {
      assert gaps == [gaps[0]] + gaps[1..];
      MergeKeepsBlame([gaps[0]], gaps[1..], t, reason);
      BlamedConcat([gaps[0]], gaps[1..], t, reason);
      MergeSeparates([gaps[0]], gaps[1..]);
      var m := Merge(gaps);
      if |m| >= 2 {
        assert m == [m[0]] + m[1..];
        SeparatedIsMerged([m[0]], m[1..]);
      }
    }
  }

  /** Order is needed: an earlier gap arriving later is swallowed. */
  lemma UnorderedGapsAreLost()
    ensures var gaps := [Gap(5, 6, MISSING), Gap(1, 2, MISSING)];
            Blamed(gaps, 1, MISSING) && !Blamed(Merge(gaps), 1, MISSING)
  {
    var gaps := [Gap(5, 6, MISSING), Gap(1, 2, MISSING)];
    assert Inside(gaps[1], 1);
    assert MergeInto([gaps[0]], gaps[1..]) == [gaps[0]];
  }

  // ---------------------------------------------------------------- the report

  /** Each gap with the reason that the database gives for it. */
  function Relabelled(gaps: seq<Gap>, classify: Gap -> string): seq<Gap> {
    seq(|gaps|, i requires 0 <= i < |gaps| => gaps[i].(reason := classify(gaps[i])))
  }

  /** The gap part of `QueryMetrics`. */
  method ReportGaps(from: int, to: int, points: seq<Point>, classify: Gap -> string) returns (report: seq<Gap>)
    ensures report == Merge(Relabelled(Scan(from, to, StepOf(SelectResolution(to - from)), points), classify))
  {
    var gaps := FindGaps(from, to, StepOf(SelectResolution(to - from)), points);
    ghost var found := gaps;
    for i := 0 to |gaps|
      invariant |gaps| == |found|
      invariant forall k :: 0 <= k < i ==> gaps[k] == found[k].(reason := classify(found[k]))
      invariant forall k :: i <= k < |gaps| ==> gaps[k] == found[k]
    {
      gaps := gaps[i := gaps[i].(reason := classify(gaps[i]))];
    }
    assert gaps == Relabelled(found, classify);
    report := MergeGaps(gaps);
  }

  /** The first point is at most a step before the range: the query rounds its start down to a millisecond. */
  predicate StartsInRange(from: int, to: int, points: seq<Point>) {
    points != [] ==> from <= points[0].at + StepOf(SelectResolution(to - from))
  }

  /** For sorted points in the range, an instant is reported with a reason exactly when some gap that was found
      there is classified so. */
  lemma ReportIsExact(from: int, to: int, points: seq<Point>, classify: Gap -> string, t: int, reason: string)
    requires Sorted(points) && StartsInRange(from, to, points)
    ensures var found := Scan(from, to, StepOf(SelectResolution(to - from)), points);
            var report := Merge(Relabelled(found, classify));
            && (Blamed(report, t, reason) <==>
                  exists k :: 0 <= k < |found| && Inside(found[k], t) && classify(found[k]) == reason)
            && Separated(report)
  {
    hide Scan, MergeInto, Merge;
    var step := StepOf(SelectResolution(to - from));
    var found := Scan(from, to, step, points);
    GapsAreOrdered(from, from - step, to, step, points);
    var labelled := Relabelled(found, classify);
    assert Ordered(labelled);
    MergeIsExact(labelled, t, reason);
    if Blamed(labelled, t, reason) {
      var k :| 0 <= k < |labelled| && Inside(labelled[k], t) && labelled[k].reason == reason;
      assert Inside(found[k], t) && classify(found[k]) == reason;
    }
    if k :| 0 <= k < |found| && Inside(found[k], t) && classify(found[k]) == reason {
      assert Inside(labelled[k], t) && labelled[k].reason == reason;
    }
  }

  lemma ReportCoversGaps(from: int, to: int, points: seq<Point>, classify: Gap -> string, t: int)
    requires Sorted(points) && StartsInRange(from, to, points)
    requires InGap(Scan(from, to, StepOf(SelectResolution(to - from)), points), t)
    ensures InGap(Merge(Relabelled(Scan(from, to, StepOf(SelectResolution(to - from)), points), classify)), t)
  {
    var found := Scan(from, to, StepOf(SelectResolution(to - from)), points);
    var k :| 0 <= k < |found| && Inside(found[k], t);
    ReportIsExact(from, to, points, classify, t, classify(found[k]));
  }

  /** In the final report an instant is in a gap exactly when it lies in a pause longer than two steps or in the cell of
      a point without a value. */
  lemma ReportIsGenuine(from: int, to: int, points: seq<Point>, classify: Gap -> string, t: int)
    requires Sorted(points) && StartsInRange(from, to, points)
    ensures var step := StepOf(SelectResolution(to - from));
            InGap(Merge(Relabelled(Scan(from, to, step, points), classify)), t) <==>
              exists g :: Inside(g, t) && (LongPause(from, to, step, points, g) || EmptyCell(points, step, g))
  {
    hide Scan, Merge, LongPause, EmptyCell;
    var step := StepOf(SelectResolution(to - from));
    var found := Scan(from, to, step, points);
    var report := Merge(Relabelled(found, classify));
    if InGap(report, t) {
      var k :| 0 <= k < |report| && Inside(report[k], t);
      assert Blamed(report, t, report[k].reason);
      ReportIsExact(from, to, points, classify, t, report[k].reason);
      var i :| 0 <= i < |found| && Inside(found[i], t);
      GapsAreExact(from, to, step, points, found[i]);
    }
    if g :| Inside(g, t) && (LongPause(from, to, step, points, g) || EmptyCell(points, step, g)) {
      ReasonIsNoMatter(from, to, step, points, g);
      GapsAreExact(from, to, step, points, g.(reason := "missing"));
      var i :| 0 <= i < |found| && found[i] == g.(reason := "missing");
      assert Inside(found[i], t);
      ReportCoversGaps(from, to, points, classify, t);
    }
  }

  lemma ReasonIsNoMatter(from: int, to: int, step: int, points: seq<Point>, g: Gap)
    ensures var h := g.(reason := "missing");
            && (LongPause(from, to, step, points, g) ==> LongPause(from, to, step, points, h))
            && (EmptyCell(points, step, g) ==> EmptyCell(points, step, h))
  {
    if i: nat :| i <= |points| && PauseAt(from, to, step, points, i, g) {
      assert PauseAt(from, to, step, points, i, g.(reason := "missing"));
    }
  }

  /** In the final report a stretch that is neither in a gap nor in a known sample's cell is at most two steps long. */
  lemma ReportIsComplete(from: int, to: int, points: seq<Point>, classify: Gap -> string, x: int, y: int)
    requires Sorted(points) && StartsInRange(from, to, points) && from <= x <= y <= to
    requires var step := StepOf(SelectResolution(to - from));
             Silent(Merge(Relabelled(Scan(from, to, step, points), classify)), points, step, x, y)
    ensures y - x <= 2 * StepOf(SelectResolution(to - from))
  {
    var step := StepOf(SelectResolution(to - from));
    var found := Scan(from, to, step, points);
    var report := Merge(Relabelled(found, classify));
    forall t | x <= t < y ensures !Accounted(found, points, step, t) {
      assert !Accounted(report, points, step, t);
      if InGap(found, t) { ReportCoversGaps(from, to, points, classify, t); }
    }
    SilenceIsShort(from, to, step, points, x, y);
  }
}
