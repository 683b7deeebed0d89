/** What the rate limiter guarantees over any sequence of calls. */
module LimiterBounds {
  import opened Options
  import opened RateLimiter

  datatype Call = Call(key: string, policy: Policy, now: real)

  /** The entries after a sequence of calls on a new limiter. */
  function After(calls: seq<Call>, max: nat): seq<Entry>
    requires 1 <= max
  {
    if calls == [] then [] else
      var n := |calls| - 1;
      Admit(After(calls[..n], max), calls[n].key, calls[n].policy, calls[n].now, max).entries
  }

  /** Whether call `m` is let through. */
  predicate LetThrough(calls: seq<Call>, max: nat, m: nat)
    requires 1 <= max && m < |calls|
  {
    Admit(After(calls[..m], max), calls[m].key, calls[m].policy, calls[m].now, max).allowed
  }

  // ---------------------------------------------------------------- the residents are the most recently used keys

  function Remove(s: seq<string>, key: string): seq<string> {
    if s == [] then [] else if s[0] == key then s[1..] else [s[0]] + Remove(s[1..], key)
  }

  /** The keys of all limited calls, each once, the one called last first. */
  function Recent(calls: seq<Call>): seq<string> {
    if calls == [] then [] else
      var n := |calls| - 1;
      if Limits(calls[n].policy) then [calls[n].key] + Remove(Recent(calls[..n]), calls[n].key) else Recent(calls[..n])
  }

  lemma {:induction false} RemoveKeepsRest(s: seq<string>, key: string)
    requires Distinct(s)
    ensures Distinct(Remove(s, key)) && forall x :: x in Remove(s, key) <==> x in s && x != key
  {
    if s != [] {
      assert forall x :: x in s <==> x == s[0] || x in s[1..];
      assert s[0] !in s[1..];
      if s[0] != key {
        RemoveKeepsRest(s[1..], key);
        var r := Remove(s[1..], key);
        assert s[0] !in r && Remove(s, key) == [s[0]] + r;
        assert forall k :: 0 < k < |[s[0]] + r| ==> ([s[0]] + r)[k] == r[k - 1] && r[k - 1] in r;
      }
    }
  }

  lemma {:induction false} KeysOfWithout(es: seq<Entry>, key: string)
    ensures Keys(Without(es, key)) == Remove(Keys(es), key)
  {
    if es != [] {
      assert Keys(es) == [es[0].key] + Keys(es[1..]);
      if es[0].key != key { KeysOfWithout(es[1..], key); }
    }
  }

  /** Removing a key and then truncating, or the other way round. */
  lemma {:induction false} RemoveThenTake(s: seq<string>, key: string, n: nat)
    requires Distinct(s) && 1 <= n
    ensures Take(Remove(s, key), n - 1) == if key in Take(s, n) then Remove(Take(s, n), key) else Take(s, n - 1)
  {
    if s != [] {
      var x, rest := s[0], s[1..];
      assert s == [x] + rest;
      TakeCons(x, rest, n);
      if x != key && n > 1 {
        RemoveThenTake(rest, key, n - 1);
        TakeCons(x, rest, n - 1);
        TakeCons(x, Remove(rest, key), n - 1);
      }
    }
  }

  lemma TakeCons<T>(x: T, s: seq<T>, n: nat)
    requires 1 <= n
    ensures Take([x] + s, n) == [x] + Take(s, n - 1)
  {
  }

  lemma DistinctCons<T>(x: T, s: seq<T>)
    requires x !in s && Distinct(s)
    ensures Distinct([x] + s)
  {
  }

  lemma KeysOfTake(es: seq<Entry>, n: nat)
    ensures Keys(Take(es, n)) == Take(Keys(es), n)
  {
  }

  lemma KeysOfCons(e: Entry, es: seq<Entry>)
    ensures Keys([e] + es) == [e.key] + Keys(es)
  {
  }

  lemma AdmitKeepsRecency(es: seq<Entry>, recent: seq<string>, c: Call, max: nat)
    requires 1 <= max && Distinct(recent) && Keys(es) == Take(recent, max) && Limits(c.policy)
    ensures Keys(Admit(es, c.key, c.policy, c.now, max).entries) == Take([c.key] + Remove(recent, c.key), max)
  {
    hide Use, Keys, Lookup, Without, Remove, Distinct;
    var rest := if Lookup(es, c.key) == None then Take(es, max - 1) else Without(es, c.key);
    RemoveThenTake(recent, c.key, max);
    KeysOfWithout(es, c.key);
    KeysOfTake(es, max - 1);
    assert Take(Take(recent, max), max - 1) == Take(recent, max - 1);
    TakeCons(c.key, Remove(recent, c.key), max);
    KeysOfCons(Admit(es, c.key, c.policy, c.now, max).entries[0], rest);
  }

  lemma UnlimitedChangesNothing(es: seq<Entry>, c: Call, max: nat)
    requires 1 <= max && !Limits(c.policy)
    ensures Admit(es, c.key, c.policy, c.now, max) == Outcome(es, true, 0)
  {
  }

  /** The limiter holds exactly the `max` most recently used keys, in order of recency: every key it evicts
      is the least recently used one, and it never holds more than `max`. */
  lemma {:induction false} ResidentsAreTheMostRecent(calls: seq<Call>, max: nat)
    requires 1 <= max
    ensures Distinct(Recent(calls))
    ensures Keys(After(calls, max)) == Take(Recent(calls), max)
    ensures |After(calls, max)| <= max
  {
    hide Admit;
    if calls != [] {
      var n := |calls| - 1;
      ResidentsAreTheMostRecent(calls[..n], max);
      if Limits(calls[n].policy) {
        RemoveKeepsRest(Recent(calls[..n]), calls[n].key);
        DistinctCons(calls[n].key, Remove(Recent(calls[..n]), calls[n].key));
        AdmitKeepsRecency(After(calls[..n], max), Recent(calls[..n]), calls[n], max);
      } else {
        UnlimitedChangesNothing(After(calls[..n], max), calls[n], max);
      }
    }
    assert |Keys(After(calls, max))| == |After(calls, max)|;
  }

  // ---------------------------------------------------------------- token counts

  ghost predicate ClockNeverStepsBack(calls: seq<Call>) {
    forall i, j :: 0 <= i <= j < |calls| ==> calls[i].now <= calls[j].now
  }

  ghost predicate Sane(es: seq<Entry>, now: real) {
    forall k :: 0 <= k < |es| ==> 0.0 <= es[k].bucket.tokens && es[k].bucket.at <= now
  }

  lemma AccrualFacts(p: Policy, a: real, b: real, c: real)
    requires Limits(p)
    ensures a <= b ==> 0.0 <= Accrual(p, a, b)
    ensures Accrual(p, a, b) + Accrual(p, b, c) == Accrual(p, a, c)
    ensures Accrual(p, a, a) == 0.0
  {
    RatePositive(p);
    var rate := Rate(p);
    if a <= b { Product(b - a, rate); }
    Distribute(b - a, c - b, rate);
  }

  lemma Product(a: real, b: real)
    requires 0.0 <= a && 0.0 <= b
    ensures 0.0 <= a * b
  {
  }

  lemma Distribute(a: real, b: real, c: real)
    ensures (a + b) * c == a * c + b * c
  {
  }

  lemma RatePositive(p: Policy)
    requires Limits(p)
    ensures 0.0 < Rate(p)
  {
  }

  /** Using a bucket with a clock that has not stepped back leaves between none and `capacity` tokens, adds at
      most what accrued, and charges exactly the call it lets through. */
  lemma UseBounds(b: Bucket, p: Policy, now: real)
    requires Limits(p) && 0.0 <= b.tokens && b.at <= now
    ensures var u := Use(b, p, now);
            && 0.0 <= u.bucket.tokens <= p.capacity && u.bucket.at == now
            && u.bucket.tokens + (if u.allowed then 1.0 else 0.0) <= p.capacity
            && u.bucket.tokens + (if u.allowed then 1.0 else 0.0) <= b.tokens + Accrual(p, b.at, now)
  {
    hide Accrual, WaitFor;
    AccrualFacts(p, b.at, now, now);
  }

  /** A use is allowed exactly when a whole token is there, and what is left and charged is exactly what was there and
      accrued, up to the capacity. */
  lemma UseChargesExactly(b: Bucket, p: Policy, now: real)
    requires Limits(p)
    ensures var u := Use(b, p, now);
            var held := b.tokens + Accrual(p, b.at, now);
            var there := if held > p.capacity then p.capacity else held;
            && u.bucket == Bucket(there - (if u.allowed then 1.0 else 0.0), now)
            && (u.allowed <==> 1.0 <= there)
  {
    hide Accrual, WaitFor;
  }

  /** A bucket that rests for the refill period, or longer, is full when it is used next, and one at rest for a part of
      it has gained that part of the capacity. */
  lemma RestFillsTheBucket(b: Bucket, p: Policy, part: real)
    requires Limits(p) && 0.0 <= b.tokens && 0.0 <= part
    ensures var now := b.at + part * p.refill;
            var full := if b.tokens + part * p.capacity > p.capacity then p.capacity else b.tokens + part * p.capacity;
            && Use(b, p, now).bucket.tokens == full - (if Use(b, p, now).allowed then 1.0 else 0.0)
            && (1.0 <= part ==> full == p.capacity)
  {
    hide Use;
    UseChargesExactly(b, p, b.at + part * p.refill);
    PartOfTheCapacity(part, p.capacity, p.refill);
    if 1.0 <= part { Product(part - 1.0, p.capacity); }
    assert (part - 1.0) * p.capacity == part * p.capacity - p.capacity;
  }

  lemma PartOfTheCapacity(part: real, capacity: real, refill: real)
    requires refill > 0.0
    ensures part * refill * (capacity / refill) == part * capacity
  {
    var rate := capacity / refill;
    assert rate * refill == capacity;
    assert part * refill * rate == part * (rate * refill);
  }

  lemma {:induction false} LookupIn(es: seq<Entry>, key: string)
    requires Lookup(es, key).Some?
    ensures exists k :: 0 <= k < |es| && es[k] == Entry(key, Lookup(es, key).value)
  {
    if es[0].key == key {
      assert es[0] == Entry(key, Lookup(es, key).value);
    } else {
      LookupIn(es[1..], key);
      var k :| 0 <= k < |es[1..]| && es[1..][k] == Entry(key, Lookup(es[1..], key).value);
      assert es[k + 1] == Entry(key, Lookup(es, key).value);
    }
  }

  lemma {:induction false} WithoutIsSane(es: seq<Entry>, key: string, now: real)
    requires Sane(es, now)
    ensures Sane(Without(es, key), now)
  {
    if es != [] && es[0].key != key { WithoutIsSane(es[1..], key, now); }
  }

  lemma AdmitKeepsSane(es: seq<Entry>, c: Call, max: nat)
    requires 1 <= max && Sane(es, c.now)
    ensures Sane(Admit(es, c.key, c.policy, c.now, max).entries, c.now)
  {
    if Limits(c.policy) {
      var found := Lookup(es, c.key);
      if found.Some? { LookupIn(es, c.key); }
      WithoutIsSane(es, c.key, c.now);
      UseBounds(if found == None then Bucket(c.policy.capacity, c.now) else found.value, c.policy, c.now);
    }
  }

  /** Calls that are served in the order of their clock readings never overdraw a bucket. */
  lemma {:induction false} TokensNeverNegative(calls: seq<Call>, max: nat, now: real)
    requires 1 <= max && ClockNeverStepsBack(calls) && (calls != [] ==> calls[|calls| - 1].now <= now)
    ensures Sane(After(calls, max), now)
  {
    if calls != [] {
      var n := |calls| - 1;
      TokensNeverNegative(calls[..n], max, calls[n].now);
      AdmitKeepsSane(After(calls[..n], max), calls[n], max);
    }
  }

  /** The clock is read before the lock is taken, so calls can be served out of order. A use then overdraws a bucket
      exactly when what the clock takes back is more than the bucket holds. */
  lemma OverdrawnIff(b: Bucket, p: Policy, now: real)
    requires Limits(p)
    ensures Use(b, p, now).bucket.tokens < 0.0 <==> b.tokens + Accrual(p, b.at, now) < 0.0
  {
    hide Accrual, WaitFor;
  }

  /** It happens: of two calls that race, the one that read its clock first is served second. */
  lemma RacingCallsOverdraw()
    ensures var p := Policy(1.0, 1.0);
            var b := Lookup(After([Call("a", p, 11.0), Call("a", p, 10.0)], 1), "a");
            b.Some? && b.value.tokens < 0.0
  {
    hide Admit, Lookup;
    var p := Policy(1.0, 1.0);
    var calls := [Call("a", p, 11.0), Call("a", p, 10.0)];
    assert calls[..0] == [] && calls[..2] == calls;
    AfterOne(calls, 1, 0);
    EmptyHoldsNothing(1, "a");
    BucketAfterCall([], calls[0], 1, "a");
    assert Use(Bucket(1.0, 11.0), p, 11.0).bucket == Bucket(0.0, 11.0);
    AfterOne(calls, 1, 1);
    BucketAfterCall(After(calls[..1], 1), calls[1], 1, "a");
    OverdrawnIff(Bucket(0.0, 11.0), p, 10.0);
  }

  /** Whatever the clock does, a bucket never holds more than the capacity of its key's policy. */
  lemma {:induction false} TokensNeverAboveCapacity(calls: seq<Call>, max: nat, key: string, p: Policy)
    requires 1 <= max && Limits(p)
    requires forall m :: 0 <= m < |calls| && calls[m].key == key && Limits(calls[m].policy) ==> calls[m].policy == p
    ensures var b := Lookup(After(calls, max), key); b.Some? ==> b.value.tokens <= p.capacity
  {
    hide Lookup, Admit, Accrual, WaitFor;
    if calls == [] {
      EmptyHoldsNothing(max, key);
    } else {
      var n := |calls| - 1;
      TokensNeverAboveCapacity(calls[..n], max, key, p);
      BucketAfterCall(After(calls[..n], max), calls[n], max, key);
    }
  }

  lemma EmptyHoldsNothing(max: nat, key: string)
    requires 1 <= max
    ensures Lookup(After([], max), key) == None
  {
  }

  // ---------------------------------------------------------------- the rate bound

  /** How many of the calls `i <= m < j` for a key are let through. */
  function Passed(calls: seq<Call>, max: nat, key: string, i: nat, j: nat): real
    requires 1 <= max && i <= j <= |calls|
    decreases j - i
  {
    if i == j then 0.0 else
      Passed(calls, max, key, i, j - 1)
      + if calls[j - 1].key == key && LetThrough(calls, max, j - 1) then 1.0 else 0.0
  }

  /** From call `i` on the key is among the `max` most recently used ones and is only called with policy `p`. */
  ghost predicate StaysResident(calls: seq<Call>, max: nat, key: string, p: Policy, i: nat, j: nat)
    requires 1 <= max && i <= j <= |calls|
  {
    && (forall m :: i < m < j ==> key in Take(Recent(calls[..m]), max))
    && (forall m :: i <= m < j && calls[m].key == key ==> calls[m].policy == p)
  }

  lemma {:induction false} RemovingOthersKeepsBucket(es: seq<Entry>, key: string, other: string)
    requires other != key
    ensures Lookup(Without(es, other), key) == Lookup(es, key)
  {
    if es != [] && es[0].key != other { RemovingOthersKeepsBucket(es[1..], key, other); }
  }

  lemma {:induction false} TruncatingKeepsBucket(es: seq<Entry>, key: string, n: nat)
    requires Lookup(Take(es, n), key).Some?
    ensures Lookup(Take(es, n), key) == Lookup(es, key)
  {
    if |es| > n > 0 && es[0].key != key {
      assert Take(es, n)[1..] == Take(es[1..], n - 1);
      TruncatingKeepsBucket(es[1..], key, n - 1);
    }
  }

  /** One call: the key's bucket is used if the call is for it, and is left alone if it stays resident. */
  lemma BucketAfterCall(es: seq<Entry>, c: Call, max: nat, key: string)
    requires 1 <= max
    ensures var r := Admit(es, c.key, c.policy, c.now, max);
            && (c.key == key && Limits(c.policy) ==>
                  && Lookup(r.entries, key) == Some(Use(StartOf(es, c), c.policy, c.now).bucket)
                  && r.allowed == Use(StartOf(es, c), c.policy, c.now).allowed)
            && ((c.key != key || !Limits(c.policy)) && Lookup(r.entries, key).Some? ==>
                  Lookup(r.entries, key) == Lookup(es, key))
  {
    if c.key != key && Limits(c.policy) {
      RemovingOthersKeepsBucket(es, key, c.key);
      if Lookup(Take(es, max - 1), key).Some? { TruncatingKeepsBucket(es, key, max - 1); }
    }
  }

  /** The bucket that a call starts from. */
  function StartOf(es: seq<Entry>, c: Call): Bucket {
    var found := Lookup(es, c.key);
    if found == None then Bucket(c.policy.capacity, c.now) else found.value
  }

  /** Calls passed plus tokens left are within the capacity plus what accrued since the window opened at `t0`. */
  predicate Within(passed: real, b: Bucket, p: Policy, t0: real)
    requires Limits(p)
  {
    passed + b.tokens <= p.capacity + Accrual(p, t0, b.at)
  }

  /** What is left and charged is at most what was there and accrued, and at most the capacity, for any clock. */
  lemma UseIsBounded(b: Bucket, p: Policy, now: real)
    requires Limits(p)
    ensures var u := Use(b, p, now);
            && u.bucket.at == now && (u.allowed ==> 0.0 <= u.bucket.tokens)
            && u.bucket.tokens + (if u.allowed then 1.0 else 0.0) <= p.capacity
            && u.bucket.tokens + (if u.allowed then 1.0 else 0.0) <= b.tokens + Accrual(p, b.at, now)
  {
    hide Accrual, WaitFor;
  }

  lemma UseStaysWithin(passed: real, b: Bucket, p: Policy, t0: real, now: real)
    requires Limits(p) && Within(passed, b, p, t0)
    ensures var u := Use(b, p, now); Within(passed + if u.allowed then 1.0 else 0.0, u.bucket, p, t0)
  {
    hide Use, Accrual;
    UseIsBounded(b, p, now);
    AccrualFacts(p, t0, b.at, now);
  }

  lemma FirstUseIsWithin(b: Bucket, p: Policy, now: real)
    requires Limits(p)
    ensures var u := Use(b, p, now); Within(if u.allowed then 1.0 else 0.0, u.bucket, p, now)
  {
    hide Use, Accrual;
    UseIsBounded(b, p, now);
    AccrualFacts(p, now, now, now);
  }

  /** With a clock that never steps back, the bucket a call starts from is neither overdrawn nor ahead of it. */
  lemma StartIsSane(calls: seq<Call>, max: nat, m: nat)
    requires 1 <= max && m < |calls| && ClockNeverStepsBack(calls) && Limits(calls[m].policy)
    ensures var b := StartOf(After(calls[..m], max), calls[m]); 0.0 <= b.tokens && b.at <= calls[m].now
  {
    var es := After(calls[..m], max);
    TokensNeverNegative(calls[..m], max, calls[m].now);
    if Lookup(es, calls[m].key).Some? { LookupIn(es, calls[m].key); }
  }

  lemma AfterOne(calls: seq<Call>, max: nat, m: nat)
    requires 1 <= max && m < |calls|
    ensures var c := calls[m];
            After(calls[..m + 1], max) == Admit(After(calls[..m], max), c.key, c.policy, c.now, max).entries
  {
    assert calls[..m + 1][..m] == calls[..m];
  }

  lemma RecentIsResident(calls: seq<Call>, max: nat, key: string)
    requires 1 <= max
    ensures Lookup(After(calls, max), key).Some? <==> key in Take(Recent(calls), max)
  {
    ResidentsAreTheMostRecent(calls, max);
  }

  lemma {:induction false} WindowStaysWithin(calls: seq<Call>, max: nat, key: string, p: Policy, i: nat, j: nat)
    requires 1 <= max && i < j <= |calls| && calls[i].key == key && Limits(p)
    requires StaysResident(calls, max, key, p, i, j)
    requires Lookup(After(calls[..j], max), key).Some?
    ensures Within(Passed(calls, max, key, i, j), Lookup(After(calls[..j], max), key).value, p, calls[i].now)
    decreases j - i
  {
    hide Use, Admit, After, Recent, Take, Lookup;
    var m := j - 1;
    var es, c := After(calls[..m], max), calls[m];
    AfterOne(calls, max, m);
    BucketAfterCall(es, c, max, key);
    if m > i {
      RecentIsResident(calls[..m], max, key);
      WindowStaysWithin(calls, max, key, p, i, m);
      if c.key == key { UseStaysWithin(Passed(calls, max, key, i, m), Lookup(es, key).value, p, calls[i].now, c.now); }
    } else {
      FirstUseIsWithin(StartOf(es, c), p, c.now);
      assert Passed(calls, max, key, i, m) == 0.0;
    }
  }

  /** For a key that stays resident under one policy, the calls let through between any two of its calls are at most
      the capacity plus the tokens accrued in between. The clock may step back as long as the last of the calls is
      itself let through. */
  lemma RateIsBounded(calls: seq<Call>, max: nat, key: string, p: Policy, i: nat, j: nat)
    requires 1 <= max && i <= j < |calls| && calls[i].key == key && calls[j].key == key && Limits(p)
    requires StaysResident(calls, max, key, p, i, j + 1)
    requires LetThrough(calls, max, j) || ClockNeverStepsBack(calls)
    ensures Passed(calls, max, key, i, j + 1) <= p.capacity + Accrual(p, calls[i].now, calls[j].now)
  {
    hide Use, Admit, After, Accrual, Passed;
    var es, c := After(calls[..j], max), calls[j];
    AfterOne(calls, max, j);
    BucketAfterCall(es, c, max, key);
    WindowStaysWithin(calls, max, key, p, i, j + 1);
    UseIsBounded(StartOf(es, c), p, c.now);
    if ClockNeverStepsBack(calls) {
      StartIsSane(calls, max, j);
      UseBounds(StartOf(es, c), p, c.now);
    }
  }

  // ---------------------------------------------------------------- what eviction forgets

  /** Residency is needed: a key that is not among the most recently used starts from a full bucket, however much it
      was refused before. */
  lemma NewcomersStartFull(calls: seq<Call>, max: nat, m: nat)
    requires 1 <= max && m < |calls| && Limits(calls[m].policy)
    requires calls[m].key !in Take(Recent(calls[..m]), max)
    ensures LetThrough(calls, max, m) <==> 1.0 <= calls[m].policy.capacity
  {
    hide Accrual, WaitFor, Recent, Take, Lookup;
    var es, c := After(calls[..m], max), calls[m];
    RecentIsResident(calls[..m], max, c.key);
    BucketAfterCall(es, c, max, c.key);
    AccrualFacts(c.policy, c.now, c.now, c.now);
  }

  /** Calls `first` up to `last` are all of one key, under one policy and at one instant. */
  ghost predicate Burst(calls: seq<Call>, first: nat, last: nat)
    requires first <= last < |calls|
  {
    forall k :: first <= k <= last ==> calls[k] == calls[first]
  }

  /** Tokens after `n` calls of a burst on a full bucket. */
  function Left(capacity: real, n: nat): real {
    if n == 0 then capacity
    else if Left(capacity, n - 1) < 1.0 then Left(capacity, n - 1) else Left(capacity, n - 1) - 1.0
  }

  lemma {:induction false} LeftCounts(capacity: real, n: nat)
    ensures n as real <= capacity ==> Left(capacity, n) == capacity - n as real
    ensures n as real > capacity ==> Left(capacity, n) < 1.0
  {
    if n > 0 { LeftCounts(capacity, n - 1); }
  }

  lemma {:induction false} BurstLeaves(calls: seq<Call>, max: nat, first: nat, n: nat)
    requires 1 <= max && first + n < |calls| && Burst(calls, first, first + n) && Limits(calls[first].policy)
    requires calls[first].key !in Take(Recent(calls[..first]), max)
    ensures var c := calls[first];
            StartOf(After(calls[..first + n], max), c) == Bucket(Left(c.policy.capacity, n), c.now)
  {
    hide After, Admit, StartOf, Take, Recent, Left;
    var c := calls[first];
    if n == 0 {
      NewcomerIsFull(calls[..first], max, c);
    } else {
      BurstLeaves(calls, max, first, n - 1);
      AfterOne(calls, max, first + n - 1);
      BurstGoesOn(After(calls[..first + n - 1], max), c, max, n - 1);
    }
  }

  lemma NewcomerIsFull(calls: seq<Call>, max: nat, c: Call)
    requires 1 <= max && c.key !in Take(Recent(calls), max)
    ensures StartOf(After(calls, max), c) == Bucket(Left(c.policy.capacity, 0), c.now)
  {
    hide Lookup, Take, Recent;
    RecentIsResident(calls, max, c.key);
  }

  lemma BurstGoesOn(es: seq<Entry>, c: Call, max: nat, n: nat)
    requires 1 <= max && Limits(c.policy) && StartOf(es, c) == Bucket(Left(c.policy.capacity, n), c.now)
    ensures var after := Admit(es, c.key, c.policy, c.now, max).entries;
            StartOf(after, c) == Bucket(Left(c.policy.capacity, n + 1), c.now)
  {
    hide Use, Accrual, Lookup, Admit;
    BucketAfterCall(es, c, max, c.key);
    AccrualFacts(c.policy, c.now, c.now, c.now);
    UseChargesExactly(StartOf(es, c), c.policy, c.now);
    LeftBelowCapacity(c.policy.capacity, n);
  }

  lemma {:induction false} LeftBelowCapacity(capacity: real, n: nat)
    requires 0.0 < capacity
    ensures Left(capacity, n) <= capacity
  {
    if n > 0 { LeftBelowCapacity(capacity, n - 1); }
  }

  /** Of a burst of a newcomer exactly as many calls are let through as the capacity has whole tokens. */
  lemma BurstsGetTheCapacity(calls: seq<Call>, max: nat, first: nat, n: nat)
    requires 1 <= max && first + n < |calls| && Burst(calls, first, first + n) && Limits(calls[first].policy)
    requires calls[first].key !in Take(Recent(calls[..first]), max)
    ensures LetThrough(calls, max, first + n) <==> n as real + 1.0 <= calls[first].policy.capacity
  {
    hide Use, Accrual, Lookup, Take, Recent, Admit;
    var c := calls[first];
    BurstLeaves(calls, max, first, n);
    var es := After(calls[..first + n], max);
    BucketAfterCall(es, c, max, c.key);
    AccrualFacts(c.policy, c.now, c.now, c.now);
    UseChargesExactly(StartOf(es, c), c.policy, c.now);
    LeftBelowCapacity(c.policy.capacity, n);
    LeftCounts(c.policy.capacity, n);
  }

  /** So keys that evict each other are never refused: in a limiter of size one, no sequence of calls in which
      neighbours have different keys is, at any rate. */
  lemma EvictionForgetsDebt(calls: seq<Call>, m: nat)
    requires m < |calls|
    requires forall k :: 0 <= k < |calls| ==> Limits(calls[k].policy) && 1.0 <= calls[k].policy.capacity
    requires forall k :: 0 < k < |calls| ==> calls[k].key != calls[k - 1].key
    ensures LetThrough(calls, 1, m)
  {
    hide LetThrough, Remove;
    if m > 0 { assert calls[..m][|calls[..m]| - 1] == calls[m - 1]; }
    NewcomersStartFull(calls, 1, m);
  }

  // ---------------------------------------------------------------- the advised wait

  /** A refused call leaves less than one token, and advises the missing time rounded down. */
  lemma WhatRefusalSays(b: Bucket, p: Policy, now: real)
    requires Limits(p) && !Use(b, p, now).allowed
    ensures var u := Use(b, p, now);
            && u.bucket == Refilled(b, p, now) && u.bucket.tokens < 1.0 && u.bucket.at == now
            && u.retryAfter == Missing(u.bucket, p).Floor
  {
    hide Accrual, WaitFor, Missing;
    WaitIsMissing(Refilled(b, p, now), p);
  }

  lemma WaitIsMissing(b: Bucket, p: Policy)
    requires Limits(p)
    ensures WaitFor(b.tokens, p) == Missing(b, p).Floor
  {
  }

  /** Seconds until a bucket holds a whole token. */
  function Missing(b: Bucket, p: Policy): real
    requires Limits(p)
  {
    (1.0 - b.tokens) * p.refill / p.capacity
  }

  lemma AllowedIff(b: Bucket, p: Policy, now: real)
    requires Limits(p) && 1.0 <= p.capacity
    ensures Use(b, p, now).allowed <==> 1.0 <= b.tokens + Accrual(p, b.at, now)
  {
    hide Accrual, WaitFor;
  }

  /** A bucket is served exactly when the missing fraction of a token has accrued. */
  lemma ServedOnceATokenAccrued(b: Bucket, p: Policy, wait: real)
    requires Limits(p) && 1.0 <= p.capacity
    ensures Use(b, p, b.at + wait).allowed <==> Missing(b, p) <= wait
  {
    hide Use;
    AllowedIff(b, p, b.at + wait);
    CrossMultiply(1.0 - b.tokens, wait, p.capacity, p.refill);
    assert b.at + wait - b.at == wait;
  }

  lemma MissingTimesRate(x: real, capacity: real, refill: real)
    requires 0.0 < capacity && 0.0 < refill
    ensures x * refill / capacity * (capacity / refill) == x
  {
    var rate := capacity / refill;
    assert rate * refill == capacity;
    var need := x * refill / capacity;
    assert need * capacity == x * refill;
    assert need * (rate * refill) == x * refill;
    assert (need * rate - x) * refill == 0.0;
  }

  lemma MultiplyBoth(a: real, b: real, c: real)
    requires 0.0 < c
    ensures a <= b <==> a * c <= b * c
  {
  }

  lemma CrossMultiply(x: real, wait: real, capacity: real, refill: real)
    requires 0.0 < capacity && 0.0 < refill
    ensures x * refill / capacity <= wait <==> x <= wait * (capacity / refill)
  {
    MissingTimesRate(x, capacity, refill);
    MultiplyBoth(x * refill / capacity, wait, capacity / refill);
  }

  predicate Whole(x: real) { x == x.Floor as real }

  /** The advised wait is rounded down to whole seconds, so waiting exactly that long is enough exactly when the
      missing time was whole; one second more always is. */
  lemma AdvisedWaitSufficesIffWhole(b: Bucket, p: Policy, now: real)
    requires Limits(p) && 1.0 <= p.capacity && b.tokens + Accrual(p, b.at, now) < 1.0
    ensures var u := Use(b, p, now);
            && !u.allowed
            && (Use(u.bucket, p, now + u.retryAfter as real).allowed <==> Whole(Missing(Refilled(b, p, now), p)))
            && Use(u.bucket, p, now + (u.retryAfter as real + 1.0)).allowed
  {
    hide Use, Missing, Accrual;
    var u := Use(b, p, now);
    AllowedIff(b, p, now);
    WhatRefusalSays(b, p, now);
    ServedOnceATokenAccrued(u.bucket, p, u.retryAfter as real);
    ServedOnceATokenAccrued(u.bucket, p, u.retryAfter as real + 1.0);
  }

  /** It need not be: with two tokens every three seconds an empty bucket is advised to wait one second, and is
      refused again after it. */
  lemma AdvisedWaitCanBeTooShort()
    ensures var p := Policy(2.0, 3.0);
            var u := Use(Bucket(0.0, 0.0), p, 0.0);
            !u.allowed && u.retryAfter == 1 && !Use(u.bucket, p, 1.0).allowed
  {
    hide Use, WaitFor, Missing, Accrual, Refilled;
    var p, b := Policy(2.0, 3.0), Bucket(0.0, 0.0);
    ThirdsOfTwo(b, p);
    AllowedIff(b, p, 0.0);
    WhatRefusalSays(b, p, 0.0);
    AllowedIff(b, p, 1.0);
  }

  lemma ThirdsOfTwo(b: Bucket, p: Policy)
    requires p == Policy(2.0, 3.0) && b == Bucket(0.0, 0.0)
    ensures Missing(b, p).Floor == 1 && Refilled(b, p, 0.0) == b
    ensures Accrual(p, 0.0, 0.0) == 0.0 && Accrual(p, 0.0, 1.0) < 1.0
  {
    AccrualFacts(p, 0.0, 0.0, 0.0);
    assert Rate(p) < 1.0;
    assert Missing(b, p) == 1.5;
  }
}
