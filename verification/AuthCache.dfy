/**
 The revocation cache in front of the auth check: validation results with a time to live, and a
 batch eviction of the oldest tenth when the cache is full.
 */
module AuthCache {
  import opened Common

  type Key = string

  datatype Entry = Entry(valid: bool, at: real)

  type Cache = map<Key, Entry>

  datatype Answer = Unknown | Known(valid: bool)

  datatype Op =
    | Check(key: Key, now: real)
    | Store(key: Key, valid: bool, now: real)
    | Invalidate(key: Key)
    | Clear

  predicate Expired(e: Entry, now: real, ttl: real) {
    now - e.at >= ttl
  }

  function Lookup(c: Cache, key: Key, now: real, ttl: real): Answer {
    if key !in c || Expired(c[key], now, ttl) then Unknown else Known(c[key].valid)
  }

  function AfterCheck(c: Cache, key: Key, now: real, ttl: real): Cache {
    if key in c && Expired(c[key], now, ttl) then c - {key} else c
  }

  /** How many entries a full cache gives up. */
  function EvictCount(maxSize: int): int {
    Max(1, maxSize / 10)
  }

  /** A tenth of the maximum, rounded down, but at least one. */
  lemma EvictCountLaw(maxSize: int)
    ensures maxSize >= 10 ==> 10 * EvictCount(maxSize) <= maxSize < 10 * EvictCount(maxSize) + 10
    ensures maxSize < 10 ==> EvictCount(maxSize) == 1
  {
  }

  /** A check keeps every entry but an expired one of its own key, and answers from a fresh one only. */
  lemma CheckLaw(c: Cache, key: Key, now: real, ttl: real)
    ensures var c' := AfterCheck(c, key, now, ttl);
            && (forall k :: k in c' <==> k in c && (k != key || now - c[k].at < ttl))
            && forall k :: k in c' ==> c'[k] == c[k]
    ensures Lookup(c, key, now, ttl) ==
            if key in c && now - c[key].at < ttl then Known(c[key].valid) else Unknown
  {
  }

  /** `kept` is `c` without its `n` oldest entries (all of them if there are fewer); among entries of
      the same age any choice is allowed. */
  ghost predicate KeepsNewest(c: Cache, kept: Cache, n: int) {
    && kept.Keys <= c.Keys
    && (forall k :: k in kept ==> kept[k] == c[k])
    && |kept| == Max(|c| - n, 0)
    && (forall k, k' :: k in c && k !in kept && k' in kept ==> c[k].at <= c[k'].at)
  }

  ghost predicate Stores(c: Cache, key: Key, e: Entry, maxSize: int, c': Cache) {
    if |c| < maxSize then c' == c[key := e]
    else exists kept :: KeepsNewest(c, kept, EvictCount(maxSize)) && c' == kept[key := e]
  }

  /** One operation takes the cache from `c` to `c'`. */
  ghost predicate Step(c: Cache, op: Op, c': Cache, ttl: real, maxSize: int) {
    match op
    case Check(key, now) => c' == AfterCheck(c, key, now, ttl)
    case Store(key, valid, now) => Stores(c, key, Entry(valid, now), maxSize, c')
    case Invalidate(key) => c' == c - {key}
    case Clear => c' == map[]
  }

  class AuthRevocationCache {
    const ttl: real
    const maxSize: int
    var cache: Cache

    constructor (ttl: real, maxSize: int)
      ensures this.ttl == ttl && this.maxSize == maxSize && cache == map[]
    {
      this.ttl, this.maxSize, cache := ttl, maxSize, map[];
    }

    method CheckKey(key: Key, now: real) returns (answer: Answer)
      modifies this
      ensures answer == Lookup(old(cache), key, now, ttl)
      ensures Step(old(cache), Check(key, now), cache, ttl, maxSize)
    {
      if key !in cache {
        return Unknown;
      }
      if now - cache[key].at >= ttl {
        cache := cache - {key};
        return Unknown;
      }
      return Known(cache[key].valid);
    }

    method StoreKey(key: Key, valid: bool, now: real)
      modifies this
      ensures Step(old(cache), Store(key, valid, now), cache, ttl, maxSize)
    {
      if |cache| >= maxSize {
        var sorted := OldestFirst(cache);
        var left := EvictCount(maxSize);
        while left > 0 && sorted != []
          invariant 0 <= left <= EvictCount(maxSize)
          invariant Dropping(old(cache), sorted, cache)
          invariant sorted == [] || |sorted| == |old(cache)| - (EvictCount(maxSize) - left)
          invariant sorted == [] ==> |old(cache)| <= EvictCount(maxSize)
          decreases left
        {
          DropOneMore(old(cache), sorted, cache);
          cache := cache - {sorted[0]};
          sorted := sorted[1..];
          left := left - 1;
        }
        DroppedOldest(old(cache), sorted, cache, EvictCount(maxSize));
      }
      cache := cache[key := Entry(valid, now)];
    }

    method InvalidateKey(key: Key)
      modifies this
      ensures Step(old(cache), Invalidate(key), cache, ttl, maxSize)
    {
      cache := cache - {key};
    }

    method ClearAll()
      modifies this
      ensures Step(old(cache), Clear, cache, ttl, maxSize)
    {
      cache := map[];
    }
  }

  ghost predicate ByAge(c: Cache, keys: seq<Key>) {
    && |keys| == |c|
    && (forall k :: k in keys <==> k in c)
    && (forall i, j :: 0 <= i < j < |keys| ==> keys[i] != keys[j])
    && (forall i, j :: 0 <= i < j < |keys| ==> c[keys[i]].at <= c[keys[j]].at)
  }

  /** The keys still listed are the ones still cached, and no dropped key is newer than any of them. */
  ghost predicate Dropping(c: Cache, keys: seq<Key>, kept: Cache) {
    && ByAge(kept, keys)
    && (forall k :: k in kept ==> k in c && kept[k] == c[k])
    && (forall k, k' :: k in c && k !in kept && k' in kept ==> c[k].at <= c[k'].at)
  }

  lemma DropOneMore(c: Cache, keys: seq<Key>, kept: Cache)
    requires keys != [] && Dropping(c, keys, kept)
    ensures Dropping(c, keys[1..], kept - {keys[0]})
  {
    FirstIsOldest(kept, keys);
    ByAgeAfterFirst(kept, keys);
  }

  /** Dropping ends with the newest: when no key is left, or `n` have been dropped. */
  lemma DroppedOldest(c: Cache, keys: seq<Key>, kept: Cache, n: int)
    requires Dropping(c, keys, kept)
    requires if keys == [] then |c| <= n else |keys| == |c| - n
    ensures KeepsNewest(c, kept, n)
  {
  }

  lemma FirstIsOldest(c: Cache, keys: seq<Key>)
    requires keys != [] && ByAge(c, keys)
    ensures keys[0] in c && forall k :: k in c ==> c[keys[0]].at <= c[k].at
  {
    forall k | k in c
      ensures c[keys[0]].at <= c[k].at
    {
      var i :| 0 <= i < |keys| && keys[i] == k;
    }
  }

  lemma ByAgeAfterFirst(c: Cache, keys: seq<Key>)
    requires keys != [] && ByAge(c, keys)
    ensures ByAge(c - {keys[0]}, keys[1..])
  {
    var rest, later := c - {keys[0]}, keys[1..];
    assert keys[0] in c && rest.Keys == c.Keys - {keys[0]};
    ListedLater(c, keys);
    LaterInOrder(c, keys);
    assert forall k :: k in rest ==> rest[k] == c[k];
  }

  lemma LaterInOrder(c: Cache, keys: seq<Key>)
    requires keys != [] && ByAge(c, keys)
    ensures var later := keys[1..];
            && (forall i :: 0 <= i < |later| ==> later[i] in c)
            && (forall i, j :: 0 <= i < j < |later| ==> later[i] != later[j])
            && (forall i, j :: 0 <= i < j < |later| ==> c[later[i]].at <= c[later[j]].at)
  {
    assert forall i :: 0 <= i < |keys| - 1 ==> keys[1..][i] == keys[i + 1];
  }

  lemma ListedLater(c: Cache, keys: seq<Key>)
    requires keys != [] && ByAge(c, keys)
    ensures forall k :: k in keys[1..] <==> k in c && k != keys[0]
  {
    assert keys == [keys[0]] + keys[1..];
    forall i | 0 <= i < |keys[1..]|
      ensures keys[1..][i] != keys[0]
    {
      assert keys[1..][i] == keys[i + 1];
    }
  }

  /** The keys in the order of their timestamps. */
  method OldestFirst(c: Cache) returns (keys: seq<Key>)
    ensures ByAge(c, keys)
  {
    keys := [];
    var rest := c.Keys;
    while rest != {}
      invariant rest <= c.Keys && |keys| + |rest| == |c|
      invariant forall k :: k in c <==> k in rest || k in keys
      invariant forall k :: !(k in rest && k in keys)
      invariant forall i, j :: 0 <= i < j < |keys| ==> keys[i] != keys[j]
      invariant forall i, j :: 0 <= i < j < |keys| ==> c[keys[i]].at <= c[keys[j]].at
      invariant forall i, k :: 0 <= i < |keys| && k in rest ==> c[keys[i]].at <= c[k].at
      decreases |rest|
    {
      var k := Oldest(c, rest);
      keys := keys + [k];
      rest := rest - {k};
    }
  }

  method Oldest(c: Cache, keys: set<Key>) returns (k: Key)
    requires keys != {} && keys <= c.Keys
    ensures k in keys && forall k' :: k' in keys ==> c[k].at <= c[k'].at
  {
    k :| k in keys;
    var rest := keys - {k};
    while rest != {}
      invariant rest <= keys && k in keys
      invariant forall k' :: k' in keys && k' !in rest ==> c[k].at <= c[k'].at
      decreases |rest|
    {
      var k' :| k' in rest;
      if c[k'].at < c[k].at {
        k := k';
      }
      rest := rest - {k'};
    }
  }
}
