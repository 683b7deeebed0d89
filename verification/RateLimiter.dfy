/**
 The login and API rate limiter of internal/auth/protection.go: a map into a recency list of token
 buckets, bounded in size. Token counts and times are exact reals, times in seconds.
 */
module RateLimiter {
  import opened Options

  datatype Policy = Policy(capacity: real, refill: real)

  datatype Bucket = Bucket(tokens: real, at: real)

  datatype Entry = Entry(key: string, bucket: Bucket)

  predicate Limits(p: Policy) { p.capacity > 0.0 && p.refill > 0.0 }

  /** Tokens per second. */
  function Rate(p: Policy): real
    requires Limits(p)
  {
    p.capacity / p.refill
  }

  // ---------------------------------------------------------------- one bucket

  /** Tokens that accrue between two times. */
  function Accrual(p: Policy, from: real, to: real): real
    requires Limits(p)
  {
    (to - from) * Rate(p)
  }

  function Refilled(b: Bucket, p: Policy, now: real): Bucket
    requires Limits(p)
  {
    var tokens := b.tokens + Accrual(p, b.at, now);
    Bucket(if tokens > p.capacity then p.capacity else tokens, now)
  }

  /** Whole seconds, rounded down, until a bucket holding less than one token holds one. */
  function WaitFor(tokens: real, p: Policy): int
    requires Limits(p)
  {
    ((1.0 - tokens) * p.refill / p.capacity).Floor
  }

  datatype Spent = Spent(bucket: Bucket, allowed: bool, retryAfter: int)

  function Spend(b: Bucket, p: Policy): Spent
    requires Limits(p)
  {
    if b.tokens < 1.0 then Spent(b, false, WaitFor(b.tokens, p))
    else Spent(b.(tokens := b.tokens - 1.0), true, 0)
  }

  function Use(b: Bucket, p: Policy, now: real): Spent
    requires Limits(p)
  {
    Spend(Refilled(b, p, now), p)
  }

  // ---------------------------------------------------------------- the recency sequence the limiter refines

  function Keys(es: seq<Entry>): seq<string> {
    seq(|es|, i requires 0 <= i < |es| => es[i].key)
  }

  function Lookup(es: seq<Entry>, key: string): (b: Option<Bucket>)
    ensures b == None <==> key !in Keys(es)
  {
    if es == [] then None
    else
      assert Keys(es) == [es[0].key] + Keys(es[1..]);
      if es[0].key == key then Some(es[0].bucket) else Lookup(es[1..], key)
  }

  function Without(es: seq<Entry>, key: string): seq<Entry> {
    if es == [] then [] else if es[0].key == key then es[1..] else [es[0]] + Without(es[1..], key)
  }

  function Take<T>(s: seq<T>, n: nat): seq<T> {
    if |s| <= n then s else s[..n]
  }

  datatype Outcome = Outcome(entries: seq<Entry>, allowed: bool, retryAfter: int)

  /** `Allow` on the recency sequence: the key moves to the front, and a new key pushes out the last ones. */
  function Admit(es: seq<Entry>, key: string, p: Policy, now: real, max: nat): Outcome
    requires 1 <= max
  {
    if !Limits(p) then Outcome(es, true, 0)
    else
      var found := Lookup(es, key);
      var rest := if found == None then Take(es, max - 1) else Without(es, key);
      var spent := Use(if found == None then Bucket(p.capacity, now) else found.value, p, now);
      Outcome([Entry(key, spent.bucket)] + rest, spent.allowed, spent.retryAfter)
  }

  // ---------------------------------------------------------------- the limiter itself

  class Element {
    var entry: Entry
    constructor (entry: Entry)
      ensures this.entry == entry
    {
      this.entry := entry;
    }
  }

  ghost function Entries(order: seq<Element>): seq<Entry>
    reads order
  {
    seq(|order|, i requires 0 <= i < |order| reads order => order[i].entry)
  }

  /** Same keys in map and list, each map entry pointing at its own list element. */
  ghost predicate Linked(order: seq<Element>, values: map<string, Element>)
    reads order
  {
    && Distinct(order)
    && (forall e :: e in order ==> e.entry.key in values && values[e.entry.key] == e)
    && (forall key :: key in values ==> values[key] in order && values[key].entry.key == key)
  }

  lemma LinkedOnce(order: seq<Element>, values: map<string, Element>, i: nat, j: nat)
    requires Linked(order, values) && i < |order| && j < |order| && order[i] == order[j]
    ensures i == j
  {
  }

  lemma LinkedRotated(order: seq<Element>, values: map<string, Element>, k: nat)
    requires Linked(order, values) && k < |order|
    ensures Linked(Rotated(order, k), values)
  {
    RotatedSame(order, k);
  }

  lemma LinkedCons(order: seq<Element>, values: map<string, Element>, e: Element)
    requires Linked(order, values) && e !in order && e.entry.key !in values
    ensures Linked([e] + order, values[e.entry.key := e])
  {
    assert forall x :: x in [e] + order <==> x == e || x in order;
    assert Distinct([e] + order);
  }

  lemma LinkedButLast(order: seq<Element>, values: map<string, Element>)
    requires Linked(order, values) && order != []
    ensures var last := order[|order| - 1]; Linked(order[..|order| - 1], values - {last.entry.key})
  {
    var last, rest := order[|order| - 1], order[..|order| - 1];
    assert order == rest + [last];
    assert last !in rest;
  }

  class Limiter {
    var values: map<string, Element>
    var order: seq<Element>
    const max: nat

    /** Map and list agree, and there are never more than `max` entries. */
    ghost predicate Valid()
      reads this, order
    {
      1 <= max && |order| <= max && Linked(order, values)
    }

    /** The entries in recency order, most recent first. */
    ghost function Contents(): seq<Entry>
      reads this, order
    {
      Entries(order)
    }

    constructor (limit: int)
      ensures Valid() && Contents() == [] && max == (if limit < 1 then 4096 else limit)
    {
      max := if limit < 1 then 4096 else limit;
      values := map[];
      order := [];
    }

    /** The eviction loop: drop elements from the back until there is room for one more. */
    method MakeRoom()
      requires Valid()
      modifies this`values, this`order
      ensures Valid() && |order| < max
      ensures order == Take(old(order), max - 1) && Contents() == Take(old(Contents()), max - 1)
      ensures values.Keys <= old(values).Keys
    {
      hide Linked;
      while |order| >= max
        invariant Valid() && values.Keys <= old(values).Keys
        invariant order <= old(order) && (order == old(order) || |order| == max - 1)
      {
        var oldest := order[|order| - 1];
        LinkedButLast(order, values);
        values := values - {oldest.entry.key};
        order := order[..|order| - 1];
      }
      EntriesTaken(old(order), max - 1);
    }

    /** `list.MoveToFront` of the element at position `k`. */
    method MoveToFront(e: Element, ghost k: nat)
      requires Valid() && k < |order| && order[k] == e
      modifies this`order
      ensures Valid() && order == Rotated(old(order), k)
      ensures Contents() == Rotated(old(Contents()), k)
    {
      hide Linked, Entries, Distinct;
      var at :| 0 <= at < |order| && order[at] == e;
      LinkedOnce(order, values, at, k);
      LinkedRotated(order, values, k);
      EntriesRotated(order, k);
      order := [e] + order[..at] + order[at + 1..];
    }

    /** Write an element's bucket. */
    method Store(e: Element, bucket: Bucket, ghost k: nat)
      requires Valid() && k < |order| && order[k] == e
      modifies e
      ensures Valid() && Contents() == old(Contents())[k := Entry(old(e.entry).key, bucket)]
    {
      e.entry := Entry(e.entry.key, bucket);
    }

    /** Put a new element with a full bucket in front, after making room. */
    method Insert(key: string, policy: Policy, now: real) returns (entry: Element)
      requires Valid() && key !in values
      modifies this
      ensures Valid() && |order| > 0 && order[0] == entry && fresh(entry)
      ensures entry.entry == Entry(key, Bucket(policy.capacity, now))
      ensures order == [entry] + Take(old(order), max - 1)
      ensures Contents() == [entry.entry] + Take(old(Contents()), max - 1)
    {
      hide Linked;
      MakeRoom();
      entry := new Element(Entry(key, Bucket(policy.capacity, now)));
      EntriesCons(entry, order);
      LinkedCons(order, values, entry);
      order := [entry] + order;
      values := values[key := entry];
    }

    /** Find the element of a key, or insert one. */
    method Locate(key: string, policy: Policy, now: real) returns (entry: Element, ghost k: nat)
      requires Valid()
      modifies this
      ensures Valid() && k < |order| && order[k] == entry && entry.entry.key == key
      ensures entry in old(order) || fresh(entry)
      ensures forall e :: e in order ==> e in old(order) || e == entry
      ensures entry.entry.bucket == if Lookup(old(Contents()), key) == None then Bucket(policy.capacity, now)
                                    else Lookup(old(Contents()), key).value
      ensures Lookup(old(Contents()), key).Some? ==>
                && Contents() == old(Contents())
                && Without(Contents(), key) == Contents()[..k] + Contents()[k + 1..]
      ensures Lookup(old(Contents()), key) == None ==>
                k == 0 && Contents() == [Entry(key, Bucket(policy.capacity, now))] + Take(old(Contents()), max - 1)
    {
      if key in values {
        entry := values[key];
        k :| 0 <= k < |order| && order[k] == entry;
        LookupAt(Contents(), key, k);
      } else {
        KeyIsMissing(Contents(), key);
        entry := Insert(key, policy, now);
        k := 0;
      }
    }

    method Allow(key: string, policy: Policy, now: real) returns (allowed: bool, retryAfter: int)
      requires Valid()
      modifies this, order
      ensures Valid()
      ensures forall e :: e in order ==> e in old(order) || fresh(e)
      ensures var spec := Admit(old(Contents()), key, policy, now, max);
              Contents() == spec.entries && allowed == spec.allowed && retryAfter == spec.retryAfter
    {
      if policy.capacity <= 0.0 || policy.refill <= 0.0 {
        return true, 0;
      }
      hide Admit, Use, Lookup, Without, Take, Rotated, Linked;
      var entry, k := Locate(key, policy, now);
      ghost var located := Contents();
      var spent := Charge(entry.entry.bucket, policy, now);
      allowed, retryAfter := spent.allowed, spent.retryAfter;
      AdmitLocated(old(Contents()), key, policy, now, max, located, k);
      Store(entry, spent.bucket, k);
      MoveToFront(entry, k);
    }
  }

  /** With the key's entry at position `k`, what is left to do is to spend, to write the bucket and to move it up. */
  lemma AdmitLocated(es: seq<Entry>, key: string, p: Policy, now: real, max: nat, located: seq<Entry>, k: nat)
    requires 1 <= max && Limits(p) && k < |located|
    requires Lookup(es, key).Some? ==> located == es && Without(es, key) == es[..k] + es[k + 1..]
    requires Lookup(es, key) == None ==> k == 0 && located == [Entry(key, Bucket(p.capacity, now))] + Take(es, max - 1)
    ensures var start := if Lookup(es, key) == None then Bucket(p.capacity, now) else Lookup(es, key).value;
            var spent := Use(start, p, now);
            Admit(es, key, p, now, max)
            == Outcome(Rotated(located[k := Entry(key, spent.bucket)], k), spent.allowed, spent.retryAfter)
  {
    hide Use, Lookup, Without, Take, Rotated;
    var start := if Lookup(es, key) == None then Bucket(p.capacity, now) else Lookup(es, key).value;
    RotatedUpdate(located, k, Entry(key, Use(start, p, now).bucket));
    if Lookup(es, key) == None {
      assert located[..0] + located[1..] == Take(es, max - 1);
    }
  }

  /** Refill a bucket up to capacity and take one token from it if there is one. */
  method Charge(v: Bucket, policy: Policy, now: real) returns (spent: Spent)
    requires Limits(policy)
    ensures spent == Use(v, policy, now)
  {
    var tokens := v.tokens + Accrual(policy, v.at, now);
    if tokens > policy.capacity {
      tokens := policy.capacity;
    }
    if tokens < 1.0 {
      return Spent(Bucket(tokens, now), false, WaitFor(tokens, policy));
    }
    return Spent(Bucket(tokens - 1.0, now), true, 0);
  }

  lemma RotatedUpdate<T>(s: seq<T>, k: nat, x: T)
    requires k < |s|
    ensures Rotated(s[k := x], k) == [x] + (s[..k] + s[k + 1..])
  {
  }

  /** `s` with its element at `k` moved to the front. */
  ghost function Rotated<T>(s: seq<T>, k: nat): seq<T>
    requires k < |s|
  {
    [s[k]] + s[..k] + s[k + 1..]
  }

  lemma RotatedSame<T>(s: seq<T>, k: nat)
    requires k < |s| && Distinct(s)
    ensures Distinct(Rotated(s, k)) && forall x :: x in Rotated(s, k) <==> x in s
  {
    var r := Rotated(s, k);
    forall i, j | 0 <= i < j < |r| ensures r[i] != r[j] {
      var a, b := Source(k, i), Source(k, j);
      assert r[i] == s[a] && r[j] == s[b] && a != b;
    }
    assert s == s[..k] + [s[k]] + s[k + 1..];
  }

  /** Where the element at position `j` of a rotation comes from. */
  function Source(k: nat, j: nat): nat {
    if j == 0 then k else if j <= k then j - 1 else j
  }

  lemma EntriesRotated(order: seq<Element>, k: nat)
    requires k < |order|
    ensures Entries(Rotated(order, k)) == Rotated(Entries(order), k)
  {
  }

  lemma EntriesTaken(order: seq<Element>, n: nat)
    ensures Entries(Take(order, n)) == Take(Entries(order), n)
  {
  }

  lemma EntriesCons(e: Element, order: seq<Element>)
    ensures Entries([e] + order) == [e.entry] + Entries(order)
  {
  }

  lemma KeyIsMissing(es: seq<Entry>, key: string)
    requires forall i :: 0 <= i < |es| ==> es[i].key != key
    ensures Lookup(es, key) == None
  {
  }

  lemma {:induction false} LookupAt(es: seq<Entry>, key: string, k: nat)
    requires k < |es| && es[k].key == key && forall j :: 0 <= j < k ==> es[j].key != key
    ensures Lookup(es, key) == Some(es[k].bucket)
    ensures Without(es, key) == es[..k] + es[k + 1..]
  {
    if k > 0 { LookupAt(es[1..], key, k - 1); }
  }
}
