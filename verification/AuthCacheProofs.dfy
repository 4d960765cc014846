/** Facts about every history of the revocation cache, starting empty, whatever is evicted. */
module AuthCacheProofs {
  import opened Common
  import opened AuthCache

  /** The states of a history: `states[i]` is the cache before operation `i`. */
  ghost predicate Run(ops: seq<Op>, states: seq<Cache>, ttl: real, maxSize: int) {
    && |states| == |ops| + 1
    && states[0] == map[]
    && forall i :: 0 <= i < |ops| ==> StepAt(ops, states, ttl, maxSize, i)
  }

  ghost predicate StepAt(ops: seq<Op>, states: seq<Cache>, ttl: real, maxSize: int, i: nat)
    requires i < |ops| && |states| == |ops| + 1
  {
    Step(states[i], ops[i], states[i + 1], ttl, maxSize)
  }

  // ---------------------------------------------------------------- reference

  /** An unbounded map of the same history that never forgets by itself. */
  function Ideal(ops: seq<Op>): Cache {
    if ops == [] then map[]
    else
      var before := Ideal(ops[..|ops| - 1]);
      match ops[|ops| - 1]
      case Check(_, _) => before
      case Store(key, valid, now) => before[key := Entry(valid, now)]
      case Invalidate(key) => before - {key}
      case Clear => map[]
  }

  predicate Drops(op: Op, key: Key) {
    op == Invalidate(key) || op == Clear
  }

  predicate StoresKey(op: Op, key: Key) {
    op.Store? && op.key == key
  }

  /** Operation `i` is the last store of the key, and nothing has dropped the key since. */
  ghost predicate Standing(ops: seq<Op>, i: nat, key: Key) {
    && i < |ops| && StoresKey(ops[i], key)
    && forall j :: i < j < |ops| ==> !StoresKey(ops[j], key) && !Drops(ops[j], key)
  }

  /** The unbounded map holds exactly the last standing store of every key. */
  lemma {:induction false} IdealIsLastStore(ops: seq<Op>, key: Key) returns (i: nat)
    ensures key in Ideal(ops) ==> Standing(ops, i, key) && Ideal(ops)[key] == Entry(ops[i].valid, ops[i].now)
    ensures key !in Ideal(ops) ==> forall j :: !Standing(ops, j, key)
    decreases |ops|
  {
    if ops == [] {
      i := 0;
    } else {
      var n := |ops| - 1;
      var prefix := ops[..n];
      i := IdealIsLastStore(prefix, key);
      if StoresKey(ops[n], key) {
        i := n;
      } else if key !in Ideal(ops) {
        forall j: nat
          ensures !Standing(ops, j, key)
        {
          assert j < n && Standing(ops, j, key) ==> Standing(prefix, j, key);
        }
      }
    }
  }

  // ------------------------------------------------------------------ soundness

  ghost predicate Within(c: Cache, ideal: Cache) {
    forall k :: k in c ==> k in ideal && c[k] == ideal[k]
  }

  /** What the cache holds at any time is what the unbounded map holds. */
  lemma {:induction false} CacheWithinIdeal(ops: seq<Op>, states: seq<Cache>, ttl: real, maxSize: int, n: nat)
    requires Run(ops, states, ttl, maxSize) && n <= |ops|
    ensures Within(states[n], Ideal(ops[..n]))
    decreases n
  {
    if n > 0 {
      CacheWithinIdeal(ops, states, ttl, maxSize, n - 1);
      assert StepAt(ops, states, ttl, maxSize, n - 1);
      assert ops[..n][..n - 1] == ops[..n - 1] && ops[..n][n - 1] == ops[n - 1];
      StepWithin(states[n - 1], ops[..n], states[n], ttl, maxSize);
    }
  }

  lemma StepWithin(c: Cache, past: seq<Op>, c': Cache, ttl: real, maxSize: int)
    requires past != [] && Within(c, Ideal(past[..|past| - 1])) && Step(c, past[|past| - 1], c', ttl, maxSize)
    ensures Within(c', Ideal(past))
  {
  }

  /** Main result on answers.  When operation `n` of a history is a check that answers, the answer is
      the value of the key's last store, made less than the time to live before, with no
      invalidation or clear in between. */
  lemma AnswersAreSound(ops: seq<Op>, states: seq<Cache>, ttl: real, maxSize: int, n: nat)
    returns (i: nat)
    requires Run(ops, states, ttl, maxSize) && n < |ops| && ops[n].Check?
    requires Lookup(states[n], ops[n].key, ops[n].now, ttl).Known?
    ensures i < n && Standing(ops[..n], i, ops[n].key)
    ensures Lookup(states[n], ops[n].key, ops[n].now, ttl) == Known(ops[i].valid)
    ensures ops[n].now - ops[i].now < ttl
  {
    CacheWithinIdeal(ops, states, ttl, maxSize, n);
    i := IdealIsLastStore(ops[..n], ops[n].key);
  }

  // ----------------------------------------------------------------------- size

  /** The cache never holds more than its maximum, or one entry when that is less than one. */
  lemma {:induction false} SizeBound(ops: seq<Op>, states: seq<Cache>, ttl: real, maxSize: int, n: nat)
    requires Run(ops, states, ttl, maxSize) && n <= |ops|
    ensures |states[n]| <= Max(1, maxSize)
    decreases n
  {
    if n > 0 {
      SizeBound(ops, states, ttl, maxSize, n - 1);
      assert StepAt(ops, states, ttl, maxSize, n - 1);
      StepSize(states[n - 1], ops[n - 1], states[n], ttl, maxSize);
    }
  }

  lemma StepSize(c: Cache, op: Op, c': Cache, ttl: real, maxSize: int)
    requires Step(c, op, c', ttl, maxSize) && |c| <= Max(1, maxSize)
    ensures |c'| <= Max(1, maxSize)
  {
    match op
    case Check(key, _) => RemovedSize(c, key);
    case Store(key, valid, now) => StoreSize(c, key, Entry(valid, now), maxSize, c');
    case Invalidate(key) => RemovedSize(c, key);
    case Clear =>
  }

  lemma RemovedSize(c: Cache, key: Key)
    ensures |c - {key}| <= |c|
  {
    assert (c - {key}).Keys == c.Keys - {key};
  }

  lemma WrittenSize(c: Cache, key: Key, e: Entry)
    ensures |c[key := e]| <= |c| + 1
  {
    assert c[key := e].Keys == c.Keys + {key};
  }

  lemma StoreSize(c: Cache, key: Key, e: Entry, maxSize: int, c': Cache)
    requires Stores(c, key, e, maxSize, c') && |c| <= Max(1, maxSize)
    ensures |c'| <= Max(1, maxSize)
  {
    if |c| < maxSize {
      WrittenSize(c, key, e);
    } else {
      var kept :| KeepsNewest(c, kept, EvictCount(maxSize)) && c' == kept[key := e];
      WrittenSize(kept, key, e);
    }
  }

  // ------------------------------------------------------------------- eviction

  ghost predicate IncreasingStores(ops: seq<Op>) {
    forall i, j :: 0 <= i < j < |ops| && ops[i].Store? && ops[j].Store? ==> ops[i].now < ops[j].now
  }

  /** The other keys stored after operation `i`. */
  function StoredSince(ops: seq<Op>, i: nat, key: Key): set<Key>
    requires i < |ops|
  {
    set j | i < j < |ops| && ops[j].Store? && ops[j].key != key :: ops[j].key
  }

  lemma {:induction false} SubsetSize(a: set<Key>, b: set<Key>)
    requires a <= b
    ensures |a| <= |b|
    decreases |a|
  {
    if a != {} {
      var x :| x in a;
      SubsetSize(a - {x}, b - {x});
    }
  }

  /** Main result on eviction.  With increasing timestamps, a key leaves the cache through a store of
      another key only after many other keys have been stored since its own last store. */
  lemma EvictedOnlyWhenOld(ops: seq<Op>, states: seq<Cache>, ttl: real, maxSize: int, n: nat, key: Key)
    returns (i: nat)
    requires Run(ops, states, ttl, maxSize) && IncreasingStores(ops)
    requires n < |ops| && ops[n].Store? && ops[n].key != key
    requires key in states[n] && key !in states[n + 1]
    ensures i < n && Standing(ops[..n], i, key)
    ensures |StoredSince(ops[..n], i, key)| >= maxSize - EvictCount(maxSize)
  {
    var c := states[n];
    var past := ops[..n];
    CacheWithinIdeal(ops, states, ttl, maxSize, n);
    i := IdealIsLastStore(past, key);
    assert StepAt(ops, states, ttl, maxSize, n);
    var kept := EvictedFor(c, ops[n], states[n + 1], maxSize, key);
    forall k | k in kept
      ensures k in StoredSince(past, i, key)
    {
      NewerIsStoredSince(past, c, key, i, k);
    }
    SubsetSize(kept.Keys, StoredSince(past, i, key));
  }

  lemma EvictedFor(c: Cache, op: Op, c': Cache, maxSize: int, key: Key) returns (kept: Cache)
    requires op.Store? && op.key != key && key in c && key !in c'
    requires Stores(c, op.key, Entry(op.valid, op.now), maxSize, c')
    ensures |kept| >= maxSize - EvictCount(maxSize)
    ensures forall k :: k in kept ==> k in c && k != key && c[key].at <= c[k].at
  {
    kept :| KeepsNewest(c, kept, EvictCount(maxSize)) && c' == kept[op.key := Entry(op.valid, op.now)];
  }

  lemma NewerIsStoredSince(past: seq<Op>, c: Cache, key: Key, i: nat, k: Key)
    requires Within(c, Ideal(past)) && IncreasingStores(past)
    requires Standing(past, i, key) && key in c && c[key].at == past[i].now
    requires k in c && k != key && c[key].at <= c[k].at
    ensures k in StoredSince(past, i, key)
  {
    var j := IdealIsLastStore(past, k);
    assert j != i;
    assert past[i].now <= past[j].now;
  }

  // --------------------------------------------------------------- completeness

  ghost predicate ClockBefore(ops: seq<Op>, n: nat, key: Key, now: real) {
    forall j :: 0 <= j < n && j < |ops| && ops[j].Check? && ops[j].key == key ==> ops[j].now <= now
  }

  lemma StandingIsUnique(ops: seq<Op>, i: nat, j: nat, key: Key)
    requires Standing(ops, i, key) && Standing(ops, j, key)
    ensures i == j
  {
  }

  lemma {:induction false} EntryHolds(ops: seq<Op>, states: seq<Cache>, ttl: real, maxSize: int,
                                      i: nat, m: nat, n: nat, key: Key, now: real)
    requires Run(ops, states, ttl, maxSize) && IncreasingStores(ops)
    requires i < m <= n <= |ops| && Standing(ops[..n], i, key)
    requires ClockBefore(ops, n, key, now) && now - ops[i].now < ttl
    requires |StoredSince(ops[..n], i, key)| < maxSize - EvictCount(maxSize)
    ensures key in states[m] && states[m][key] == Entry(ops[i].valid, ops[i].now)
    decreases m
  {
    assert StepAt(ops, states, ttl, maxSize, m - 1);
    assert ops[m - 1] == ops[..n][m - 1];
    if m == i + 1 {
      StoredIsThere(states[m - 1], ops[m - 1], states[m], ttl, maxSize);
    } else {
      EntryHolds(ops, states, ttl, maxSize, i, m - 1, n, key, now);
      if ops[m - 1].Store? {
        NotEvicted(ops, states, ttl, maxSize, i, m - 1, n, key);
      }
      EntrySurvives(states[m - 1], ops[m - 1], states[m], ttl, maxSize, key);
    }
  }

  lemma StoredIsThere(c: Cache, op: Op, c': Cache, ttl: real, maxSize: int)
    requires op.Store? && Step(c, op, c', ttl, maxSize)
    ensures op.key in c' && c'[op.key] == Entry(op.valid, op.now)
  {
  }

  /** An entry that no store evicts and that neither expires, nor is replaced or dropped, stays. */
  lemma EntrySurvives(c: Cache, op: Op, c': Cache, ttl: real, maxSize: int, key: Key)
    requires Step(c, op, c', ttl, maxSize) && key in c
    requires !StoresKey(op, key) && !Drops(op, key)
    requires op.Store? ==> key in c'
    requires op.Check? && op.key == key ==> !Expired(c[key], op.now, ttl)
    ensures key in c' && c'[key] == c[key]
  {
  }

  lemma NotEvicted(ops: seq<Op>, states: seq<Cache>, ttl: real, maxSize: int, i: nat, m: nat, n: nat, key: Key)
    requires Run(ops, states, ttl, maxSize) && IncreasingStores(ops)
    requires i < m < n <= |ops| && Standing(ops[..n], i, key)
    requires ops[m].Store? && key in states[m]
    requires |StoredSince(ops[..n], i, key)| < maxSize - EvictCount(maxSize)
    ensures key in states[m + 1]
  {
    assert ops[m] == ops[..n][m];
    if key !in states[m + 1] {
      var j := EvictedOnlyWhenOld(ops, states, ttl, maxSize, m, key);
      assert Standing(ops[..m], i, key) by {
        assert forall k :: 0 <= k < m ==> ops[..m][k] == ops[..n][k];
      }
      StandingIsUnique(ops[..m], i, j, key);
      assert StoredSince(ops[..m], i, key) <= StoredSince(ops[..n], i, key) by {
        assert forall k :: 0 <= k < m ==> ops[..m][k] == ops[..n][k];
      }
      SubsetSize(StoredSince(ops[..m], i, key), StoredSince(ops[..n], i, key));
    }
  }

  /** Main result on hits.  A check of a key whose last store stands and is younger than the time to
      live is answered with that store's value, as long as fewer other keys were stored since than
      the cache keeps after an eviction. */
  lemma FreshIsAnswered(ops: seq<Op>, states: seq<Cache>, ttl: real, maxSize: int, i: nat, n: nat)
    requires Run(ops, states, ttl, maxSize) && IncreasingStores(ops)
    requires n < |ops| && ops[n].Check? && Standing(ops[..n], i, ops[n].key)
    requires ClockBefore(ops, n, ops[n].key, ops[n].now) && ops[n].now - ops[i].now < ttl
    requires |StoredSince(ops[..n], i, ops[n].key)| < maxSize - EvictCount(maxSize)
    ensures Lookup(states[n], ops[n].key, ops[n].now, ttl) == Known(ops[i].valid)
  {
    EntryHolds(ops, states, ttl, maxSize, i, n, n, ops[n].key, ops[n].now);
  }
}
