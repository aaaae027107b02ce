/** The cache of /ask responses: least recently used entry out first, entries dead after a time to live.
    A history is the list of calls in the order they took the lock, with the clock reading of each. */
module AskCache {
  import opened Engrams
  import opened Collections

  datatype Entry = Entry(value: Bytes, expiresAt: int)

  /** `order` runs from the most to the least recently used key. */
  datatype Contents = Contents(order: seq<string>, entries: map<string, Entry>)

  datatype Call = Get(key: string, now: int) | Put(key: string, value: Bytes, now: int)

  const EMPTY := Contents([], map[])

  function Without<K(==)>(order: seq<K>, key: K): seq<K> {
    if order == [] then [] else if order[0] == key then order[1..] else [order[0]] + Without(order[1..], key)
  }

  /** What Get answers. */
  function Lookup(c: Contents, key: string, now: int): Option<Bytes> {
    if key in c.entries && now <= c.entries[key].expiresAt then Some(c.entries[key].value) else None
  }

  function AfterGet(c: Contents, key: string, now: int): Contents {
    if key !in c.entries then c
    else if Lookup(c, key, now) == None then Contents(Without(c.order, key), c.entries - {key})
    else Contents([key] + Without(c.order, key), c.entries)
  }

  function AfterPut(c: Contents, key: string, entry: Entry, max: nat): Contents {
    var order := [key] + Without(c.order, key);
    var entries := c.entries[key := entry];
    if key !in c.entries && |order| > max then
      Contents(order[..|order| - 1], entries - {order[|order| - 1]})
    else
      Contents(order, entries)
  }

  function After(c: Contents, call: Call, max: nat, ttl: int): Contents {
    match call
    case Get(key, now) => AfterGet(c, key, now)
    case Put(key, value, now) => AfterPut(c, key, Entry(value, now + ttl), max)
  }

  class Cache {
    const max: nat
    const ttl: int
    var order: seq<string>
    var entries: map<string, Entry>
    var hits: nat
    var misses: nat

    ghost function State(): Contents
      reads this
    {
      Contents(order, entries)
    }

    ghost predicate Valid()
      reads this
    {
      Shape(State(), max)
    }

    constructor (max: nat, ttl: int)
      ensures Valid() && State() == EMPTY && this.max == max && this.ttl == ttl && hits == misses == 0
    {
      this.max, this.ttl, order, entries, hits, misses := max, ttl, [], map[], 0, 0;
    }

    method Get(key: string, now: int) returns (r: Option<Bytes>)
      requires Valid()
      modifies this
      ensures Valid() && State() == AfterGet(old(State()), key, now)
      ensures r == Lookup(old(State()), key, now)
      ensures r == if key in old(entries) && now <= old(entries)[key].expiresAt then Some(old(entries)[key].value) else None
      ensures entries == if r == None then old(entries) - {key} else old(entries)
      ensures r != None ==> order != [] && order[0] == key
      ensures hits == old(hits) + (if r != None then 1 else 0)
      ensures misses == old(misses) + (if r == None then 1 else 0)
    {
      ShapeAfterGet(State(), key, now, max);
      if key !in entries {
        misses := misses + 1;
        return None;
      }
      var e := entries[key];
      if now > e.expiresAt {
        order := Without(order, key);
        entries := entries - {key};
        misses := misses + 1;
        return None;
      }
      order := [key] + Without(order, key);
      hits := hits + 1;
      return Some(e.value);
    }

    method Put(key: string, value: Bytes, now: int)
      requires Valid()
      modifies this`order, this`entries
      ensures Valid() && State() == AfterPut(old(State()), key, Entry(value, now + ttl), max)
      ensures key in old(entries) || |old(order)| < max ==> entries == old(entries)[key := Entry(value, now + ttl)]
      ensures key !in old(entries) && |old(order)| == max > 0 ==>
                entries == old(entries)[key := Entry(value, now + ttl)] - {old(order)[max - 1]}
      ensures max > 0 ==> order != [] && order[0] == key
    {
      hide Shape, Without;
      ShapeAfterPut(State(), key, Entry(value, now + ttl), max);
      if key in entries {
        entries := entries[key := Entry(value, now + ttl)];
        order := [key] + Without(order, key);
        return;
      }
      AbsentFromBoth(State(), key, max);
      order := [key] + order;
      entries := entries[key := Entry(value, now + ttl)];
      if |order| > max {
        var oldest := order[|order| - 1];
        order := order[..|order| - 1];
        entries := entries - {oldest};
      }
    }

    method Len() returns (n: nat)
      requires Valid()
      ensures n == |entries| && n <= max
    {
      DistinctCount(order, entries.Keys);
      n := |order|;
    }
  }

  // ----- List and map agree -----

  /** The list and the map hold the same keys, each once, and no more than `max`. */
  ghost predicate Shape(c: Contents, max: nat) {
    && NoRepeats(c.order)
    && (forall key :: key in c.order <==> key in c.entries)
    && |c.order| <= max
  }

  lemma {:induction false} WithoutAbsent<K>(order: seq<K>, key: K)
    requires key !in order
    ensures Without(order, key) == order
  {
    if order != [] {
      WithoutAbsent(order[1..], key);
    }
  }

  lemma FrontIsNew<K>(x: K, rest: seq<K>)
    ensures NoRepeats([x] + rest) <==> NoRepeats(rest) && x !in rest
  {
    var order := [x] + rest;
    assert forall i | 0 <= i < |rest| :: order[i + 1] == rest[i];
    if NoRepeats(order) {
      forall i | 0 <= i < |rest| ensures rest[i] != x {
        assert order[0] != order[i + 1];
      }
      forall i, j | 0 <= i < j < |rest| ensures rest[i] != rest[j] {
        assert order[i + 1] != order[j + 1];
      }
    }
  }

  /** The other keys, each once. */
  lemma {:induction false} WithoutKeeps<K>(order: seq<K>, key: K)
    requires NoRepeats(order)
    ensures NoRepeats(Without(order, key))
    ensures forall k :: k in Without(order, key) <==> k in order && k != key
    ensures |Without(order, key)| == |order| - (if key in order then 1 else 0)
  {
    if order != [] {
      var first, rest := order[0], order[1..];
      assert order == [first] + rest;
      FrontIsNew(first, rest);
      if first != key {
        WithoutKeeps(rest, key);
        FrontIsNew(first, Without(rest, key));
      }
    }
  }

  /** Moving a key to the front, or adding it there. */
  lemma ToFront<K>(order: seq<K>, key: K)
    requires NoRepeats(order)
    ensures NoRepeats([key] + Without(order, key))
    ensures forall k :: k in [key] + Without(order, key) <==> k == key || k in order
    ensures |[key] + Without(order, key)| == |order| + (if key in order then 0 else 1)
  {
    WithoutKeeps(order, key);
    FrontIsNew(key, Without(order, key));
  }

  lemma DropOldest<K>(order: seq<K>)
    requires order != [] && NoRepeats(order)
    ensures NoRepeats(order[..|order| - 1])
    ensures forall k :: k in order[..|order| - 1] <==> k in order && k != order[|order| - 1]
  {
    var n := |order| - 1;
    assert order == order[..n] + [order[n]];
  }

  lemma AbsentFromBoth(c: Contents, key: string, max: nat)
    requires Shape(c, max) && key !in c.entries
    ensures Without(c.order, key) == c.order
  {
    WithoutAbsent(c.order, key);
  }

  lemma ShapeAfterGet(c: Contents, key: string, now: int, max: nat)
    requires Shape(c, max)
    ensures Shape(AfterGet(c, key, now), max)
  {
    WithoutKeeps(c.order, key);
    ToFront(c.order, key);
  }

  lemma ShapeAfterPut(c: Contents, key: string, entry: Entry, max: nat)
    requires Shape(c, max)
    ensures Shape(AfterPut(c, key, entry, max), max)
  {
    ToFront(c.order, key);
    var order := [key] + Without(c.order, key);
    DropOldest(order);
    hide NoRepeats, Without;
    var r := AfterPut(c, key, entry, max);
    if key !in c.entries && |order| > max {
      assert r.order == order[..|order| - 1] && r.entries.Keys == c.entries.Keys + {key} - {order[|order| - 1]};
    } else {
      assert r.order == order && r.entries.Keys == c.entries.Keys + {key};
    }
  }

  // ----- Whole histories -----

  ghost function Run(calls: seq<Call>, max: nat, ttl: int): Contents {
    if calls == [] then EMPTY else After(Run(calls[..|calls| - 1], max, ttl), calls[|calls| - 1], max, ttl)
  }

  /** The last value put under the key, and when. */
  ghost function LatestPut(calls: seq<Call>, key: string): Option<(Bytes, int)> {
    if calls == [] then None
    else
      var last := calls[|calls| - 1];
      if last.Put? && last.key == key then Some((last.value, last.now)) else LatestPut(calls[..|calls| - 1], key)
  }

  /** A put, or a get that hits, uses its key. */
  ghost predicate Uses(before: Contents, call: Call, key: string) {
    call.key == key && (call.Put? || Lookup(before, key, call.now) != None)
  }

  /** The position, from 1, of the last call that used the key; 0 if none did. */
  ghost function LastUse(calls: seq<Call>, key: string, max: nat, ttl: int): (n: nat)
    ensures n <= |calls|
  {
    if calls == [] then 0
    else
      var prior := calls[..|calls| - 1];
      if Uses(Run(prior, max, ttl), calls[|calls| - 1], key) then |calls| else LastUse(prior, key, max, ttl)
  }

  /** No call reads an earlier time than the one before it, nor a later one than `now`. */
  ghost predicate ClockRuns(calls: seq<Call>, now: int) {
    && (forall i, j | 0 <= i < j < |calls| :: calls[i].now <= calls[j].now)
    && (forall call | call in calls :: call.now <= now)
  }

  ghost function Rank(calls: seq<Call>, max: nat, ttl: int): string -> nat {
    key => LastUse(calls, key, max, ttl)
  }

  /** The other keys used since the key's own last use. */
  ghost function UsedSince(calls: seq<Call>, key: string, max: nat, ttl: int): set<string> {
    set i | 0 <= i < |calls| && LastUse(calls, calls[i].key, max, ttl) > LastUse(calls, key, max, ttl) :: calls[i].key
  }

  lemma {:induction false} RunHasShape(calls: seq<Call>, max: nat, ttl: int)
    ensures Shape(Run(calls, max, ttl), max)
  {
    if calls != [] {
      var prior, last := calls[..|calls| - 1], calls[|calls| - 1];
      RunHasShape(prior, max, ttl);
      match last
      case Get(key, now) => ShapeAfterGet(Run(prior, max, ttl), key, now, max);
      case Put(key, value, now) => ShapeAfterPut(Run(prior, max, ttl), key, Entry(value, now + ttl), max);
    }
  }

  /** What is cached under a key is its latest put. */
  lemma {:induction false} CachedIsLatestPut(calls: seq<Call>, key: string, max: nat, ttl: int)
    requires key in Run(calls, max, ttl).entries
    ensures LatestPut(calls, key).Some?
    ensures var (value, at) := LatestPut(calls, key).value; Run(calls, max, ttl).entries[key] == Entry(value, at + ttl)
  {
    var prior, last := calls[..|calls| - 1], calls[|calls| - 1];
    if !(last.Put? && last.key == key) {
      CachedIsLatestPut(prior, key, max, ttl);
    }
  }

  /** A hit returns the value of the key's latest put, made no longer than the time to live ago. */
  lemma HitIsFresh(calls: seq<Call>, key: string, now: int, max: nat, ttl: int)
    requires Lookup(Run(calls, max, ttl), key, now) != None
    ensures LatestPut(calls, key).Some?
    ensures var (value, at) := LatestPut(calls, key).value;
            Lookup(Run(calls, max, ttl), key, now) == Some(value) && now <= at + ttl
  {
    CachedIsLatestPut(calls, key, max, ttl);
  }

  // ----- The list is the recency order -----

  ghost predicate Descending<K(!new)>(order: seq<K>, rank: K -> nat) {
    forall i, j | 0 <= i < j < |order| :: rank(order[i]) > rank(order[j])
  }

  lemma {:induction false} WithoutDescends<K(!new)>(order: seq<K>, key: K, rank: K -> nat)
    requires Descending(order, rank)
    ensures Descending(Without(order, key), rank)
    ensures forall k | k in Without(order, key) :: k in order
  {
    if order != [] {
      var first, rest := order[0], order[1..];
      assert forall k | k in rest :: rank(first) > rank(k);
      WithoutDescends(rest, key, rank);
      assert forall k | k in rest :: k in order;
      if first != key {
        FrontDescends(first, Without(rest, key), rank);
      }
    }
  }

  lemma FrontDescends<K(!new)>(x: K, rest: seq<K>, rank: K -> nat)
    requires Descending(rest, rank) && forall k | k in rest :: rank(x) > rank(k)
    ensures Descending([x] + rest, rank)
  {
  }

  lemma SameRanksDescend<K(!new)>(order: seq<K>, rank: K -> nat, other: K -> nat)
    requires Descending(order, rank) && forall k | k in order :: rank(k) == other(k)
    ensures Descending(order, other)
  {
  }

  /** Resident keys stand in the order of their last uses, so the one evicted is the least recently used. */
  lemma {:induction false} OrderIsRecency(calls: seq<Call>, max: nat, ttl: int)
    ensures Descending(Run(calls, max, ttl).order, Rank(calls, max, ttl))
    ensures forall key | key in Run(calls, max, ttl).order :: LastUse(calls, key, max, ttl) > 0
  {
    hide Shape, Without, AfterGet, AfterPut, Lookup;
    if calls != [] {
      var prior, last := calls[..|calls| - 1], calls[|calls| - 1];
      assert calls == prior + [last];
      OrderIsRecency(prior, max, ttl);
      RunHasShape(prior, max, ttl);
      if Uses(Run(prior, max, ttl), last, last.key) {
        UseMovesToFront(prior, last, max, ttl);
      } else {
        ExpiryKeepsOrder(prior, last, max, ttl);
      }
    }
  }

  lemma OrderAfterUse(c: Contents, call: Call, max: nat, ttl: int)
    requires Uses(c, call, call.key)
    ensures var order := [call.key] + Without(c.order, call.key);
            After(c, call, max, ttl).order in {order, order[..|order| - 1]}
  {
    hide Without;
  }

  lemma UseMovesToFront(prior: seq<Call>, last: Call, max: nat, ttl: int)
    requires Uses(Run(prior, max, ttl), last, last.key)
    requires Shape(Run(prior, max, ttl), max) && Descending(Run(prior, max, ttl).order, Rank(prior, max, ttl))
    requires forall key | key in Run(prior, max, ttl).order :: LastUse(prior, key, max, ttl) > 0
    ensures Descending(Run(prior + [last], max, ttl).order, Rank(prior + [last], max, ttl))
    ensures forall key | key in Run(prior + [last], max, ttl).order :: LastUse(prior + [last], key, max, ttl) > 0
  {
    hide Without, NoRepeats, Descending, AfterGet, AfterPut;
    var calls, c := prior + [last], Run(prior, max, ttl);
    assert calls[..|prior|] == prior;
    var rest := Without(c.order, last.key);
    WithoutKeeps(c.order, last.key);
    WithoutDescends(c.order, last.key, Rank(prior, max, ttl));
    SameRanksDescend(rest, Rank(prior, max, ttl), Rank(calls, max, ttl));
    FrontDescends(last.key, rest, Rank(calls, max, ttl));
    PrefixDescends([last.key] + rest, |rest|, Rank(calls, max, ttl));
    OrderAfterUse(c, last, max, ttl);
  }

  lemma ExpiryKeepsOrder(prior: seq<Call>, last: Call, max: nat, ttl: int)
    requires !Uses(Run(prior, max, ttl), last, last.key)
    requires Shape(Run(prior, max, ttl), max) && Descending(Run(prior, max, ttl).order, Rank(prior, max, ttl))
    requires forall key | key in Run(prior, max, ttl).order :: LastUse(prior, key, max, ttl) > 0
    ensures Descending(Run(prior + [last], max, ttl).order, Rank(prior + [last], max, ttl))
    ensures forall key | key in Run(prior + [last], max, ttl).order :: LastUse(prior + [last], key, max, ttl) > 0
  {
    var calls, c := prior + [last], Run(prior, max, ttl);
    assert calls[..|prior|] == prior;
    WithoutKeeps(c.order, last.key);
    WithoutDescends(c.order, last.key, Rank(prior, max, ttl));
    SameRanksDescend(Run(calls, max, ttl).order, Rank(prior, max, ttl), Rank(calls, max, ttl));
  }

  lemma PrefixDescends<K(!new)>(order: seq<K>, n: nat, rank: K -> nat)
    requires Descending(order, rank) && n <= |order|
    ensures Descending(order[..n], rank)
    ensures forall k | k in order[..n] :: k in order
  {
  }

  // ----- Residency -----

  /** A later call leaves fewer keys used since, unless it uses the key itself. */
  lemma UsedSinceGrows(prior: seq<Call>, last: Call, key: string, max: nat, ttl: int)
    requires !Uses(Run(prior, max, ttl), last, key)
    ensures |UsedSince(prior, key, max, ttl)| <= |UsedSince(prior + [last], key, max, ttl)|
  {
    var calls := prior + [last];
    assert calls[..|prior|] == prior;
    forall other | other in UsedSince(prior, key, max, ttl) ensures other in UsedSince(calls, key, max, ttl) {
      var i :| 0 <= i < |prior| && prior[i].key == other;
      assert calls[i].key == other;
    }
    SubsetIsSmaller(UsedSince(prior, key, max, ttl), UsedSince(calls, key, max, ttl));
  }

  lemma {:induction false} UsedWasCalled(calls: seq<Call>, key: string, max: nat, ttl: int)
    requires LastUse(calls, key, max, ttl) > 0
    ensures exists i :: 0 <= i < |calls| && calls[i].key == key
  {
    var prior, last := calls[..|calls| - 1], calls[|calls| - 1];
    if last.key == key {
      assert calls[|calls| - 1].key == key;
    } else {
      UsedWasCalled(prior, key, max, ttl);
      var i :| 0 <= i < |prior| && prior[i].key == key;
      assert calls[i].key == key;
    }
  }

  lemma EvictedIsOldest(c: Contents, x: string, entry: Entry, key: string, max: nat)
    requires Shape(c, max) && x != key && key in c.entries && key !in AfterPut(c, x, entry, max).entries
    ensures |c.order| == |c.entries.Keys| == max > 0
    ensures c.order[max - 1] == key && x !in c.entries
  {
    hide NoRepeats, Without;
    AbsentFromBoth(c, x, max);
    DistinctCount(c.order, c.entries.Keys);
    var order := [x] + c.order;
    assert |order| > max && order[|order| - 1] == key;
  }

  /** When a key is the oldest in the list, all others there have been used since. */
  lemma OthersUsedSince(prior: seq<Call>, last: Call, key: string, other: string, max: nat, ttl: int)
    requires last.Put? && last.key !in {key, other}
    requires var order := Run(prior, max, ttl).order;
             order != [] && order[|order| - 1] == key && other in order && other != key
    ensures other in UsedSince(prior + [last], key, max, ttl)
  {
    var calls, order, rank := prior + [last], Run(prior, max, ttl).order, Rank(prior, max, ttl);
    assert calls[..|prior|] == prior;
    OrderIsRecency(prior, max, ttl);
    var i :| 0 <= i < |order| && order[i] == other;
    assert rank(order[i]) > rank(order[|order| - 1]);
    UsedWasCalled(prior, other, max, ttl);
    var n :| 0 <= n < |prior| && prior[n].key == other;
    assert calls[n].key == other;
  }

  lemma PutUsesNow(prior: seq<Call>, last: Call, key: string, max: nat, ttl: int)
    requires last.Put? && last.key != key
    ensures last.key in UsedSince(prior + [last], key, max, ttl)
  {
    var calls := prior + [last];
    assert calls[|prior|].key == last.key && calls[..|prior|] == prior;
  }

  /** A put evicts only a key since whose last use `max` other keys have been used. */
  lemma EvictedLast(prior: seq<Call>, last: Call, key: string, max: nat, ttl: int)
    requires last.Put? && last.key != key && key in Run(prior, max, ttl).entries
    requires key !in After(Run(prior, max, ttl), last, max, ttl).entries
    ensures |UsedSince(prior + [last], key, max, ttl)| >= max
  {
    hide AfterPut, Without, UsedSince, LastUse, NoRepeats;
    var c, x := Run(prior, max, ttl), last.key;
    RunHasShape(prior, max, ttl);
    EvictedIsOldest(c, x, Entry(last.value, last.now + ttl), key, max);
    var keys := c.entries.Keys - {key} + {x};
    assert |keys| == max;
    PutUsesNow(prior, last, key, max, ttl);
    forall k | k in keys ensures k in UsedSince(prior + [last], key, max, ttl) {
      if k != x {
        OthersUsedSince(prior, last, key, k, max, ttl);
      }
    }
    SubsetIsSmaller(keys, UsedSince(prior + [last], key, max, ttl));
  }

  lemma ClockRanBefore(calls: seq<Call>, now: int)
    requires calls != [] && ClockRuns(calls, now)
    ensures calls[|calls| - 1].now <= now
    ensures ClockRuns(calls[..|calls| - 1], calls[|calls| - 1].now)
  {
    assert calls[|calls| - 1] in calls;
    var prior := calls[..|calls| - 1];
    assert forall i | 0 <= i < |prior| :: prior[i] == calls[i];
  }

  /** An unexpired put is still cached while fewer than `max` other keys have been used since its key was. */
  lemma {:induction false} StaysResident(calls: seq<Call>, key: string, now: int, max: nat, ttl: int)
    requires ClockRuns(calls, now) && LatestPut(calls, key).Some?
    requires now <= LatestPut(calls, key).value.1 + ttl
    requires |UsedSince(calls, key, max, ttl)| < max
    ensures key in Run(calls, max, ttl).entries
  {
    hide Without, NoRepeats, Shape, UsedSince, ClockRuns;
    var prior, last := calls[..|calls| - 1], calls[|calls| - 1];
    var c := Run(prior, max, ttl);
    assert calls == prior + [last];
    ClockRanBefore(calls, now);
    if last.Put? && last.key == key {
      RunHasShape(prior, max, ttl);
      PutStays(c, key, Entry(last.value, last.now + ttl), max);
    } else if !Uses(c, last, key) {
      UsedSinceGrows(prior, last, key, max, ttl);
      StaysResident(prior, key, last.now, max, ttl);
      CachedIsLatestPut(prior, key, max, ttl);
      if last.Put? && key !in After(c, last, max, ttl).entries {
        EvictedLast(prior, last, key, max, ttl);
      }
    }
  }

  lemma PutStays(c: Contents, key: string, entry: Entry, max: nat)
    requires Shape(c, max) && max > 0
    ensures key in AfterPut(c, key, entry, max).entries
  {
    WithoutKeeps(c.order, key);
  }

  /** So a get finds it. */
  lemma UnexpiredPutIsFound(calls: seq<Call>, key: string, now: int, max: nat, ttl: int)
    requires ClockRuns(calls, now) && LatestPut(calls, key).Some?
    requires now <= LatestPut(calls, key).value.1 + ttl
    requires |UsedSince(calls, key, max, ttl)| < max
    ensures Lookup(Run(calls, max, ttl), key, now) == Some(LatestPut(calls, key).value.0)
  {
    StaysResident(calls, key, now, max, ttl);
    CachedIsLatestPut(calls, key, max, ttl);
  }
}
