/**
 Rollups of internal/storage/rollups.go. One numeric column of one samples table is modelled; a series is a
 resource, or the host. Timestamps are milliseconds since 1970.
 */
module Rollups {
  import opened Options

  datatype Sample = Sample(series: nat, ts: nat, value: Option<real>)

  /** What an aggregate knows about the values it has seen; nulls are not seen. */
  datatype Summary = Summary(count: nat, sum: real, min: Option<real>, max: Option<real>)

  const ZERO := Summary(0, 0.0, None, None)

  /** A stored rollup: AVG, MIN, MAX and COUNT of the column. */
  datatype Row = Row(avg: Option<real>, min: Option<real>, max: Option<real>, count: nat)

  datatype Bucket = Bucket(series: nat, start: nat)

  const MINUTE: nat := 60_000
  const TIERS: seq<nat> := [MINUTE, 15 * MINUTE, 60 * MINUTE]

  // ---------------------------------------------------------------- aggregation

  function Lower(a: Option<real>, b: Option<real>): Option<real> {
    if a == None then b else if b == None then a else if b.value < a.value then b else a
  }

  function Upper(a: Option<real>, b: Option<real>): Option<real> {
    if a == None then b else if b == None then a else if b.value > a.value then b else a
  }

  function Combine(a: Summary, b: Summary): Summary {
    Summary(a.count + b.count, a.sum + b.sum, Lower(a.min, b.min), Upper(a.max, b.max))
  }

  function One(value: Option<real>): Summary {
    if value == None then ZERO else Summary(1, value.value, value, value)
  }

  predicate Within(x: Sample, s: nat, lo: int, hi: int) { x.series == s && lo <= x.ts < hi }

  /** The values of series `s` from `lo` up to `hi`. */
  function Summarise(raw: seq<Sample>, s: nat, lo: int, hi: int): Summary {
    if raw == [] then ZERO
    else if Within(raw[0], s, lo, hi) then Combine(One(raw[0].value), Summarise(raw[1..], s, lo, hi))
    else Summarise(raw[1..], s, lo, hi)
  }

  predicate Has(raw: seq<Sample>, s: nat, lo: int, hi: int) {
    exists i :: 0 <= i < |raw| && Within(raw[i], s, lo, hi)
  }

  function RowOf(m: Summary): Row {
    Row(if m.count == 0 then None else Some(m.sum / m.count as real), m.min, m.max, m.count)
  }

  /** A summary that some values can have. */
  ghost predicate Proper(m: Summary) {
    (m.count == 0 ==> m.sum == 0.0) && (m.count == 0 <==> m.min == None) && (m.count == 0 <==> m.max == None)
  }

  lemma {:induction false} SummaryIsProper(raw: seq<Sample>, s: nat, lo: int, hi: int)
    ensures Proper(Summarise(raw, s, lo, hi))
    decreases |raw|
  {
    if raw != [] { SummaryIsProper(raw[1..], s, lo, hi); }
  }

  /** The minimum and the maximum bound every value in range, and each is one of them. */
  lemma {:induction false} ExtremesAreSampled(raw: seq<Sample>, s: nat, lo: int, hi: int)
    ensures var m := Summarise(raw, s, lo, hi);
            && (forall i :: 0 <= i < |raw| && Within(raw[i], s, lo, hi) && raw[i].value.Some? ==>
                  m.min.Some? && m.max.Some? && m.min.value <= raw[i].value.value <= m.max.value)
            && (m.min.Some? ==> exists i :: 0 <= i < |raw| && Within(raw[i], s, lo, hi) && raw[i].value == m.min)
            && (m.max.Some? ==> exists i :: 0 <= i < |raw| && Within(raw[i], s, lo, hi) && raw[i].value == m.max)
    decreases |raw|
  {
    if raw != [] {
      var rest := raw[1..];
      ExtremesAreSampled(rest, s, lo, hi);
      assert forall i :: 0 < i < |raw| ==> raw[i] == rest[i - 1];
      assert forall i :: 0 <= i < |rest| ==> rest[i] == raw[i + 1];
    }
  }

  /** The values themselves, and what they add up to. */
  function Values(raw: seq<Sample>, s: nat, lo: int, hi: int): seq<real> {
    if raw == [] then []
    else (if Within(raw[0], s, lo, hi) && raw[0].value.Some? then [raw[0].value.value] else [])
         + Values(raw[1..], s, lo, hi)
  }

  function Sum(values: seq<real>): real { if values == [] then 0.0 else values[0] + Sum(values[1..]) }

  lemma {:induction false} SummaryCounts(raw: seq<Sample>, s: nat, lo: int, hi: int)
    ensures var m, v := Summarise(raw, s, lo, hi), Values(raw, s, lo, hi); m.count == |v| && m.sum == Sum(v)
    decreases |raw|
  {
    if raw != [] {
      SummaryCounts(raw[1..], s, lo, hi);
      var rest := Values(raw[1..], s, lo, hi);
      assert raw[0].value.Some? ==> ([raw[0].value.value] + rest)[1..] == rest;
      assert [] + rest == rest;
    }
  }

  lemma {:induction false} ValueIsSampled(raw: seq<Sample>, s: nat, lo: int, hi: int, k: nat) returns (i: nat)
    requires k < |Values(raw, s, lo, hi)|
    ensures i < |raw| && Within(raw[i], s, lo, hi) && raw[i].value == Some(Values(raw, s, lo, hi)[k])
    decreases |raw|
  {
    var counted := Within(raw[0], s, lo, hi) && raw[0].value.Some?;
    if counted && k == 0 { return 0; }
    i := ValueIsSampled(raw[1..], s, lo, hi, if counted then k - 1 else k);
    i := i + 1;
  }

  lemma {:induction false} SumIsBounded(v: seq<real>, low: real, high: real)
    requires forall k :: 0 <= k < |v| ==> low <= v[k] <= high
    ensures low * |v| as real <= Sum(v) <= high * |v| as real
    decreases |v|
  {
    if v != [] {
      SumIsBounded(v[1..], low, high);
      TimesOneMore(low, |v| - 1);
      TimesOneMore(high, |v| - 1);
    }
  }

  lemma TimesOneMore(x: real, n: nat)
    ensures x * (n + 1) as real == x * n as real + x
  {
  }

  lemma MeanIsBounded(sum: real, n: real, low: real, high: real)
    requires 0.0 < n && low * n <= sum <= high * n
    ensures low <= sum / n <= high
  {
    DivideThenMultiply(sum, n);
    Cancels(low, sum / n, n);
    Cancels(sum / n, high, n);
  }

  lemma Cancels(x: real, y: real, n: real)
    requires 0.0 < n && x * n <= y * n
    ensures x <= y
  {
  }

  /** The row of a range counts its values, averages to their mean and has it between the minimum and the maximum. */
  lemma RowIsTheMean(raw: seq<Sample>, s: nat, lo: int, hi: int)
    ensures var row, v := RowOf(Summarise(raw, s, lo, hi)), Values(raw, s, lo, hi);
            && row.count == |v|
            && if v == [] then row.avg == None && row.min == None && row.max == None
               else && row.avg.Some? && row.min.Some? && row.max.Some?
                    && row.avg.value * |v| as real == Sum(v)
                    && row.min.value <= row.avg.value <= row.max.value
  {
    hide Summarise, Values, Sum;
    var m, v := Summarise(raw, s, lo, hi), Values(raw, s, lo, hi);
    SummaryCounts(raw, s, lo, hi);
    SummaryIsProper(raw, s, lo, hi);
    if v != [] {
      ExtremesAreSampled(raw, s, lo, hi);
      forall k | 0 <= k < |v| ensures m.min.value <= v[k] <= m.max.value {
        var i := ValueIsSampled(raw, s, lo, hi, k);
      }
      SumIsBounded(v, m.min.value, m.max.value);
      DivideThenMultiply(m.sum, m.count as real);
      MeanIsBounded(m.sum, m.count as real, m.min.value, m.max.value);
    }
  }

  /** The summary of a range is that of its two parts. */
  lemma {:induction false} SummaryOfParts(raw: seq<Sample>, s: nat, lo: int, mid: int, hi: int)
    requires lo <= mid <= hi
    ensures Summarise(raw, s, lo, hi) == Combine(Summarise(raw, s, lo, mid), Summarise(raw, s, mid, hi))
    decreases |raw|
  {
    if raw != [] {
      SummaryOfParts(raw[1..], s, lo, mid, hi);
    }
  }

  /** What a stored row tells about the summary it came from. */
  function Undo(row: Row): Summary {
    Summary(row.count, if row.avg == None then 0.0 else row.avg.value * row.count as real, row.min, row.max)
  }

  lemma UndoRow(m: Summary)
    requires Proper(m)
    ensures Undo(RowOf(m)) == m
  {
    if m.count != 0 { DivideThenMultiply(m.sum, m.count as real); }
  }

  lemma DivideThenMultiply(x: real, y: real)
    requires y != 0.0
    ensures x / y * y == x
  {
  }

  // ---------------------------------------------------------------- rolling up

  /** The bucket that a sample falls into. */
  function BucketOf(x: Sample, size: nat): Bucket
    requires 0 < size
  {
    Bucket(x.series, x.ts / size * size)
  }

  function Groups(raw: seq<Sample>, size: nat, cutoff: int): set<Bucket>
    requires 0 < size
  {
    set i | 0 <= i < |raw| && raw[i].ts < cutoff :: BucketOf(raw[i], size)
  }

  /** The rows of one statement: the samples before the cutoff, grouped by series and bucket. */
  function RolledUp(raw: seq<Sample>, size: nat, now: nat): map<Bucket, Row>
    requires 0 < size
  {
    var cutoff := Trunc(size, now);
    map b | b in Groups(raw, size, cutoff) :: RowOf(Summarise(raw, b.series, b.start, Min(b.start + size, cutoff)))
  }

  lemma BucketBounds(ts: nat, size: nat)
    requires 0 < size
    ensures ts / size * size <= ts < ts / size * size + size
    ensures (ts / size * size) % size == 0
  {
    MultipleModulo(ts / size, size);
  }

  lemma MultipleModulo(k: nat, size: nat)
    requires 0 < size
    ensures (k * size) % size == 0
  {
    var r := (k * size) % size;
    var d := k * size / size - k;
    assert k * size == k * size / size * size + r;
    assert -d * size == r;
    NoMultipleBetween(d, size);
  }

  /** Multiples of the size that lie below another lie a whole bucket below it. */
  lemma BucketGap(b: nat, c: nat, size: nat)
    requires 0 < size && b % size == 0 && c % size == 0 && b < c
    ensures b + size <= c
  {
    Quotients(b / size, c / size, size);
  }

  lemma Quotients(x: nat, y: nat, size: nat)
    requires x * size < y * size
    ensures x * size + size <= y * size
  {
    assert x < y;
    assert (x + 1) * size <= y * size;
  }

  /** A sample lies in a bucket exactly when the bucket is its own. */
  lemma InBucketIff(x: Sample, b: Bucket, size: nat)
    requires 0 < size && b.start % size == 0
    ensures Within(x, b.series, b.start, b.start + size) <==> BucketOf(x, size) == b
  {
    BucketBounds(x.ts, size);
    var own := x.ts / size * size;
    if own < b.start { BucketGap(own, b.start, size); }
    if b.start < own { BucketGap(b.start, own, size); }
  }

  lemma GroupIsAligned(raw: seq<Sample>, size: nat, cutoff: int, b: Bucket)
    requires 0 < size && b in Groups(raw, size, cutoff)
    ensures b.start % size == 0 && Has(raw, b.series, b.start, b.start + size) && b.start < cutoff
  {
    var i :| 0 <= i < |raw| && raw[i].ts < cutoff && BucketOf(raw[i], size) == b;
    BucketBounds(raw[i].ts, size);
    InBucketIff(raw[i], b, size);
  }

  /** One statement writes exactly the closed buckets that hold samples, and each row summarises the whole bucket. */
  lemma RolledUpIsExact(raw: seq<Sample>, size: nat, now: nat, b: Bucket)
    requires 0 < size && b.start % size == 0
    ensures b in RolledUp(raw, size, now) <==> b.start + size <= now && Has(raw, b.series, b.start, b.start + size)
    ensures b in RolledUp(raw, size, now) ==>
              RolledUp(raw, size, now)[b] == RowOf(Summarise(raw, b.series, b.start, b.start + size))
  {
    var cutoff := Trunc(size, now);
    BucketBounds(now, size);
    if b in RolledUp(raw, size, now) {
      GroupIsAligned(raw, size, cutoff, b);
      BucketGap(b.start, cutoff, size);
    }
    if b.start + size <= now && Has(raw, b.series, b.start, b.start + size) {
      ClosedBeforeCutoff(b.start, size, now);
      var i :| 0 <= i < |raw| && Within(raw[i], b.series, b.start, b.start + size);
      InBucketIff(raw[i], b, size);
      assert BucketOf(raw[i], size) in Groups(raw, size, cutoff);
    }
  }

  /** A bucket that ends by `now` ends by the cutoff. */
  lemma ClosedBeforeCutoff(start: nat, size: nat, now: nat)
    requires 0 < size && start % size == 0 && start + size <= now
    ensures start + size <= Trunc(size, now)
  {
    BucketBounds(now, size);
    BucketGap(start, Trunc(size, now), size);
  }

  // ---------------------------------------------------------------- the tiers

  /** What the rows of a tier say about `n` buckets from `lo` on. */
  function Total(rows: map<Bucket, Row>, s: nat, lo: nat, size: nat, n: nat): Summary
    decreases n
  {
    if n == 0 then ZERO else
      var b := Bucket(s, lo);
      Combine(if b in rows then Undo(rows[b]) else ZERO, Total(rows, s, lo + size, size, n - 1))
  }

  /** In this tier every stored row still has samples, as long as they lie in the range. */
  ghost predicate StillSampled(raw: seq<Sample>, rows: map<Bucket, Row>, size: nat, lo: nat, hi: nat) {
    forall b :: b in rows && lo <= b.start < hi ==> Has(raw, b.series, b.start, b.start + size)
  }

  lemma {:induction false} SummaryOfNothing(raw: seq<Sample>, s: nat, lo: int, hi: int)
    requires !Has(raw, s, lo, hi)
    ensures Summarise(raw, s, lo, hi) == ZERO
    decreases |raw|
  {
    if raw != [] {
      assert !Within(raw[0], s, lo, hi);
      assert forall i :: 0 <= i < |raw[1..]| ==> raw[1..][i] == raw[i + 1];
      SummaryOfNothing(raw[1..], s, lo, hi);
    }
  }

  /** The row of one closed bucket says what its samples say. */
  lemma RowTellsAll(raw: seq<Sample>, kept: map<Bucket, Row>, size: nat, now: nat, b: Bucket)
    requires 0 < size && b.start % size == 0 && b.start + size <= now
    requires b in kept ==> Has(raw, b.series, b.start, b.start + size)
    ensures var rows := kept + RolledUp(raw, size, now);
            (if b in rows then Undo(rows[b]) else ZERO) == Summarise(raw, b.series, b.start, b.start + size)
  {
    RolledUpIsExact(raw, size, now, b);
    SummaryIsProper(raw, b.series, b.start, b.start + size);
    if Has(raw, b.series, b.start, b.start + size) {
      UndoRow(Summarise(raw, b.series, b.start, b.start + size));
    } else {
      SummaryOfNothing(raw, b.series, b.start, b.start + size);
    }
  }

  lemma NextAligned(lo: nat, size: nat)
    requires 0 < size && lo % size == 0
    ensures (lo + size) % size == 0
  {
    MultipleModulo(lo / size + 1, size);
    assert (lo / size + 1) * size == lo + size;
  }

  /** The rows of closed, neighbouring buckets add up to the samples in their span. */
  lemma {:induction false} TotalIsSummary(raw: seq<Sample>, kept: map<Bucket, Row>, size: nat, now: nat,
                                          s: nat, lo: nat, n: nat)
    requires 0 < size && lo % size == 0 && lo + n * size <= now
    requires StillSampled(raw, kept, size, lo, lo + n * size)
    ensures Total(kept + RolledUp(raw, size, now), s, lo, size, n) == Summarise(raw, s, lo, lo + n * size)
    decreases n
  {
    hide RolledUp, Summarise, Combine, Undo, Has;
    if n == 0 {
      EmptyRange(raw, s, lo);
    } else {
      OneMore(n - 1, size);
      RowTellsAll(raw, kept, size, now, Bucket(s, lo));
      NextAligned(lo, size);
      TotalIsSummary(raw, kept, size, now, s, lo + size, n - 1);
      SummaryOfParts(raw, s, lo, lo + size, lo + n * size);
    }
  }

  lemma EmptyRange(raw: seq<Sample>, s: nat, lo: nat)
    ensures Summarise(raw, s, lo, lo) == ZERO
  {
    SummaryOfNothing(raw, s, lo, lo);
  }

  lemma OneMore(n: nat, size: nat)
    ensures (n + 1) * size == n * size + size && n * size >= 0
  {
  }

  /** For each closed coarse bucket whose samples are still there, the coarse row is the sum of counts, the minimum,
      the maximum and the count-weighted mean of the finer rows in its span. */
  lemma TiersAgree(raw: seq<Sample>, fineKept: map<Bucket, Row>, coarseKept: map<Bucket, Row>, fine: nat, n: nat,
                   now: nat, b: Bucket)
    requires 0 < fine && 0 < n && 0 < n * fine && b.start % (n * fine) == 0 && b.start + n * fine <= now
    requires StillSampled(raw, fineKept, fine, b.start, b.start + n * fine)
    requires b in coarseKept ==> Has(raw, b.series, b.start, b.start + n * fine)
    ensures var coarse := coarseKept + RolledUp(raw, n * fine, now);
            var total := Total(fineKept + RolledUp(raw, fine, now), b.series, b.start, fine, n);
            if b in coarse then coarse[b] == RowOf(total) else total == ZERO
  {
    CoarseIsFine(b.start, fine, n);
    TotalIsSummary(raw, fineKept, fine, now, b.series, b.start, n);
    RolledUpIsExact(raw, n * fine, now, b);
    if !Has(raw, b.series, b.start, b.start + n * fine) {
      SummaryOfNothing(raw, b.series, b.start, b.start + n * fine);
    }
  }

  lemma CoarseIsFine(start: nat, fine: nat, n: nat)
    requires 0 < fine && 0 < n * fine && start % (n * fine) == 0
    ensures start % fine == 0
  {
    var q := start / (n * fine);
    assert start == q * (n * fine) == q * n * fine;
    MultipleModulo(q * n, fine);
  }

  /** So it is for the tiers in use: the quarter-hour row of fifteen minutes, and the hourly row of four quarters. */
  lemma StoredTiersAgree(raw: seq<Sample>, before: map<nat, map<Bucket, Row>>, now: nat, k: nat, b: Bucket)
    requires k + 1 < |TIERS| && TIERS[k] in before && TIERS[k + 1] in before
    requires b.start % TIERS[k + 1] == 0 && b.start + TIERS[k + 1] <= now
    requires StillSampled(raw, before[TIERS[k]], TIERS[k], b.start, b.start + TIERS[k + 1])
    requires b in before[TIERS[k + 1]] ==> Has(raw, b.series, b.start, b.start + TIERS[k + 1])
    ensures var fine, coarse := TIERS[k], TIERS[k + 1];
            var n := if k == 0 then 15 else 4;
            var rows := before[coarse] + RolledUp(raw, coarse, now);
            var total := Total(before[fine] + RolledUp(raw, fine, now), b.series, b.start, fine, n);
            if b in rows then rows[b] == RowOf(total) else total == ZERO
  {
    hide RolledUp, Total, RowOf, StillSampled, Has;
    var n := if k == 0 then 15 else 4;
    assert TIERS[k + 1] == n * TIERS[k];
    TiersAgree(raw, before[TIERS[k]], before[TIERS[k + 1]], TIERS[k], n, now, b);
  }

  /** No bucket is written before it is closed. */
  lemma WrittenIsClosed(raw: seq<Sample>, size: nat, now: nat, b: Bucket)
    requires 0 < size && b in RolledUp(raw, size, now)
    ensures b.start % size == 0 && b.start + size <= now && Has(raw, b.series, b.start, b.start + size)
  {
    GroupIsAligned(raw, size, Trunc(size, now), b);
    RolledUpIsExact(raw, size, now, b);
  }

  /** Rolling the same samples up again, at the same time or later, rewrites each row as it was. */
  lemma RowsAreStable(raw: seq<Sample>, kept: map<Bucket, Row>, size: nat, now: nat, later: nat)
    requires 0 < size && now <= later
    ensures var rows := kept + RolledUp(raw, size, now);
            && (forall b :: b in RolledUp(raw, size, now) ==>
                  b in rows && (rows + RolledUp(raw, size, later))[b] == rows[b])
            && (later == now ==> rows + RolledUp(raw, size, later) == rows)
  {
    forall b | b in RolledUp(raw, size, now)
      ensures b in RolledUp(raw, size, later) && RolledUp(raw, size, later)[b] == RolledUp(raw, size, now)[b]
    {
      WrittenIsClosed(raw, size, now, b);
      RolledUpIsExact(raw, size, now, b);
      RolledUpIsExact(raw, size, later, b);
    }
  }

  // ---------------------------------------------------------------- retention

  /** What retention leaves of the samples. */
  function Retained(raw: seq<Sample>, cutoff: int): seq<Sample> {
    if raw == [] then []
    else (if raw[0].ts < cutoff then [] else [raw[0]]) + Retained(raw[1..], cutoff)
  }

  lemma {:induction false} RetainedSummary(raw: seq<Sample>, cutoff: int, s: nat, lo: int, hi: int)
    ensures Summarise(Retained(raw, cutoff), s, lo, hi) == Summarise(raw, s, Max(lo, cutoff), hi)
    ensures Has(Retained(raw, cutoff), s, lo, hi) <==> Has(raw, s, Max(lo, cutoff), hi)
    decreases |raw|
  {
    if raw != [] {
      var x, rest := raw[0], raw[1..];
      RetainedSummary(rest, cutoff, s, lo, hi);
      HasFirst(x, rest, s, Max(lo, cutoff), hi);
      assert raw == [x] + rest;
      if x.ts < cutoff {
        assert Retained(raw, cutoff) == Retained(rest, cutoff);
      } else {
        HasFirst(x, Retained(rest, cutoff), s, lo, hi);
        assert Retained(raw, cutoff)[1..] == Retained(rest, cutoff);
      }
    }
  }

  lemma HasFirst(x: Sample, rest: seq<Sample>, s: nat, lo: int, hi: int)
    ensures Has([x] + rest, s, lo, hi) <==> Within(x, s, lo, hi) || Has(rest, s, lo, hi)
  {
    var all := [x] + rest;
    if Within(x, s, lo, hi) { assert Within(all[0], s, lo, hi); }
    if i :| 0 <= i < |rest| && Within(rest[i], s, lo, hi) { assert Within(all[i + 1], s, lo, hi); }
    if i :| 0 <= i < |all| && Within(all[i], s, lo, hi) { assert i > 0 ==> rest[i - 1] == all[i]; }
  }

  /** The row of a closed bucket survives retention and the next rollup exactly when retention took no value out of
      the bucket, or took everything. Otherwise the rollup is recomputed from what happens to be left. */
  lemma RowSurvivesRetentionIff(raw: seq<Sample>, kept: map<Bucket, Row>, size: nat, now: nat, cutoff: int, b: Bucket)
    requires 0 < size && b.start % size == 0 && b.start + size <= now && Has(raw, b.series, b.start, b.start + size)
    requires b in kept && kept[b] == RowOf(Summarise(raw, b.series, b.start, b.start + size))
    ensures (kept + RolledUp(Retained(raw, cutoff), size, now))[b] == kept[b] <==>
            || Summarise(raw, b.series, b.start, Min(Max(b.start, cutoff), b.start + size)).count == 0
            || !Has(raw, b.series, Max(b.start, cutoff), b.start + size)
  {
    hide RolledUp, Summarise, Retained;
    var end := b.start + size;
    var mid := Min(Max(b.start, cutoff), end);
    RolledUpIsExact(raw, size, now, b);
    RolledUpIsExact(Retained(raw, cutoff), size, now, b);
    RetainedSummary(raw, cutoff, b.series, b.start, end);
    SummaryOfParts(raw, b.series, b.start, mid, end);
    SummaryIsProper(raw, b.series, b.start, mid);
    SummaryIsProper(raw, b.series, mid, end);
  }

  /** A cutoff on a bucket boundary of the tier harms no row of it. */
  lemma AlignedRetentionIsHarmless(raw: seq<Sample>, kept: map<Bucket, Row>, size: nat, now: nat, cutoff: nat,
                                   b: Bucket)
    requires 0 < size && cutoff % size == 0
    requires b.start % size == 0 && b.start + size <= now && Has(raw, b.series, b.start, b.start + size)
    requires b in kept && kept[b] == RowOf(Summarise(raw, b.series, b.start, b.start + size))
    ensures (kept + RolledUp(Retained(raw, cutoff), size, now))[b] == kept[b]
  {
    RowSurvivesRetentionIff(raw, kept, size, now, cutoff, b);
    if b.start < cutoff {
      BucketGap(b.start, cutoff, size);
    } else {
      EmptyRange(raw, b.series, b.start);
    }
  }

  lemma TwoSamples(x: Sample, y: Sample, s: nat, lo: int, hi: int)
    requires Within(x, s, lo, hi) && Within(y, s, lo, hi) && x.ts < y.ts
    ensures Summarise([x, y], s, lo, hi) == Combine(One(x.value), One(y.value)) && Has([x, y], s, lo, hi)
    ensures Summarise([y], s, lo, hi) == One(y.value) && Has([y], s, lo, hi)
    ensures Retained([x, y], y.ts) == [y]
  {
    hide Summarise, Retained;
    assert [x, y] == [x] + [y] && [y] == [y] + [];
    Prepend(x, [y], s, lo, hi, y.ts);
    Prepend(y, [], s, lo, hi, y.ts);
    NoSamples(s, lo, hi, y.ts);
    HasFirst(x, [y], s, lo, hi);
    HasFirst(y, [], s, lo, hi);
  }

  lemma NoSamples(s: nat, lo: int, hi: int, cutoff: int)
    ensures Summarise([], s, lo, hi) == ZERO && Retained([], cutoff) == []
  {
  }

  lemma Prepend(x: Sample, rest: seq<Sample>, s: nat, lo: int, hi: int, cutoff: int)
    ensures Summarise([x] + rest, s, lo, hi) ==
            if Within(x, s, lo, hi) then Combine(One(x.value), Summarise(rest, s, lo, hi))
            else Summarise(rest, s, lo, hi)
    ensures Retained([x] + rest, cutoff) == (if x.ts < cutoff then [] else [x]) + Retained(rest, cutoff)
  {
    assert ([x] + rest)[1..] == rest;
  }

  /** Any other cutoff can: a minute with samples 10 and 20 averages 15 before retention and 20 after. */
  lemma RetentionCanHarmRollups()
    ensures var raw := [Sample(0, 0, Some(10.0)), Sample(0, 30_000, Some(20.0))];
            var rows := RolledUp(raw, MINUTE, MINUTE);
            && Bucket(0, 0) in rows && rows[Bucket(0, 0)].avg == Some(15.0)
            && (rows + RolledUp(Retained(raw, 30_000), MINUTE, MINUTE))[Bucket(0, 0)].avg == Some(20.0)
  {
    hide RolledUp, Summarise, Has, Retained;
    var first, second := Sample(0, 0, Some(10.0)), Sample(0, 30_000, Some(20.0));
    TwoSamples(first, second, 0, 0, MINUTE);
    RolledUpIsExact([first, second], MINUTE, MINUTE, Bucket(0, 0));
    RolledUpIsExact([second], MINUTE, MINUTE, Bucket(0, 0));
  }

  // ---------------------------------------------------------------- the program

  class Manager {
    var raw: seq<Sample>
    var tiers: map<nat, map<Bucket, Row>>

    ghost predicate Valid()
      reads this
    {
      forall size :: size in TIERS ==> size in tiers
    }

    /** `RollupOnce`: each tier's rows are replaced or added, in place; the samples stay as they are. */
    method RollupOnce(now: nat)
      requires Valid()
      modifies this`tiers
      ensures Valid() && tiers.Keys == old(tiers).Keys
      ensures forall size :: size in {60_000, 900_000, 3_600_000} ==>
                size in tiers && tiers[size] == old(tiers)[size] + RolledUp(raw, size, now)
      ensures forall size :: size in TIERS ==> tiers[size] == old(tiers)[size] + RolledUp(raw, size, now)
      ensures forall size :: size in tiers && size !in TIERS ==> tiers[size] == old(tiers)[size]
    {
      hide RolledIn, RolledUp;
      ghost var before := tiers;
      NothingRolled(before, raw, now);
      for i := 0 to |TIERS|
        invariant Valid() && RolledIn(before, tiers, raw, now, TIERS[..i])
      {
        var size: nat := TIERS[i];
        assert size in TIERS;
        OneMoreTier(before, tiers, raw, now, i);
        tiers := tiers[size := tiers[size] + RolledUp(raw, size, now)];
      }
      AllTiersRolled(before, tiers, raw, now);
      assert TIERS[0] == 60_000 && TIERS[1] == 900_000 && TIERS[2] == 3_600_000;
    }
  }

  /** `after` is `before` with the tiers in `done` rolled up. */
  ghost predicate RolledIn(before: map<nat, map<Bucket, Row>>, after: map<nat, map<Bucket, Row>>, raw: seq<Sample>,
                           now: nat, done: seq<nat>)
  {
    && after.Keys == before.Keys
    && forall size :: size in before ==>
         after[size] == if size in done && 0 < size then before[size] + RolledUp(raw, size, now) else before[size]
  }

  lemma NothingRolled(before: map<nat, map<Bucket, Row>>, raw: seq<Sample>, now: nat)
    ensures RolledIn(before, before, raw, now, TIERS[..0])
  {
  }

  lemma OneMoreTier(before: map<nat, map<Bucket, Row>>, after: map<nat, map<Bucket, Row>>, raw: seq<Sample>, now: nat,
                    i: nat)
    requires i < |TIERS| && TIERS[i] in before && RolledIn(before, after, raw, now, TIERS[..i])
    ensures var size := TIERS[i];
            RolledIn(before, after[size := after[size] + RolledUp(raw, size, now)], raw, now, TIERS[..i + 1])
  {
    hide RolledUp;
    assert TIERS[..i + 1] == TIERS[..i] + [TIERS[i]];
    assert TIERS[i] !in TIERS[..i];
  }

  lemma AllTiersRolled(before: map<nat, map<Bucket, Row>>, after: map<nat, map<Bucket, Row>>, raw: seq<Sample>,
                       now: nat)
    requires (forall size :: size in TIERS ==> size in before) && RolledIn(before, after, raw, now, TIERS[..|TIERS|])
    ensures after.Keys == before.Keys
    ensures forall size :: size in TIERS ==> after[size] == before[size] + RolledUp(raw, size, now)
    ensures forall size :: size in before && size !in TIERS ==> after[size] == before[size]
  {
    hide RolledUp;
    assert TIERS[..|TIERS|] == TIERS;
  }
}
