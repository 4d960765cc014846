/**
 Rejections of valid keys.  A revocation acts at once, but after a reactivation, or after an
 invalidation that another request overtakes, the cache can go on rejecting a key that is valid.
 The condition is exact.
 */
module AuthStale {
  import opened AuthCache
  import opened AuthCheck

  /** A request that missed the cache and read the key as not valid, and has not stored that yet. */
  predicate IsLate(s: State, id: nat, key: Key) {
    id in s.requests && s.requests[id] == Request(key, Read(Unknown, false))
  }

  ghost predicate LateStore(s: State, key: Key) {
    exists id :: IsLate(s, id, key)
  }

  /** The cache still answers "revoked" at time `from`. */
  predicate CachedInvalid(s: State, key: Key, from: real, ttl: real) {
    Lookup(s.cache, key, from, ttl) == Known(false)
  }

  predicate NotBefore(e: Event, from: real) {
    match e
    case CheckCache(_, now) => now >= from
    case StoreResult(_, now) => now >= from
    case _ => true
  }

  predicate RejectedIn(s: State, id: nat, key: Key) {
    id in s.requests && s.requests[id] == Request(key, RejectedByCache)
  }

  /** A continuation from time `from` on: the key is valid throughout, and still the cache rejects a
      request for it that it had not rejected before. */
  ghost predicate Rejects(s: State, key: Key, events: seq<Event>, states: seq<State>, from: real,
                          ttl: real, maxSize: int)
  {
    && Path(s, events, states, ttl, maxSize)
    && (forall i :: 0 <= i < |events| ==> NotBefore(events[i], from))
    && (forall i :: 0 <= i < |states| ==> key in states[i].db)
    && exists id :: RejectedIn(states[|events|], id, key) && !RejectedIn(s, id, key)
  }

  ghost predicate CanReject(s: State, key: Key, from: real, ttl: real, maxSize: int) {
    exists events, states :: Rejects(s, key, events, states, from, ttl, maxSize)
  }

  // ------------------------------------------------------------ the safe half

  /** The key is valid and nothing can make the cache say otherwise. */
  ghost predicate Safe(s: State, key: Key, from: real, ttl: real) {
    key in s.db && !LateStore(s, key) && !CachedInvalid(s, key, from, ttl)
  }

  ghost predicate NoneRejected(s: State, s': State, key: Key) {
    forall id :: RejectedIn(s', id, key) ==> RejectedIn(s, id, key)
  }

  lemma StepStaysSafe(s: State, e: Event, s': State, key: Key, from: real, ttl: real, maxSize: int)
    requires Next(s, e, s', ttl, maxSize) && NotBefore(e, from)
    requires Safe(s, key, from, ttl) && key in s'.db
    ensures Safe(s', key, from, ttl) && NoneRejected(s, s', key)
  {
    forall id
      ensures !IsLate(s', id, key)
      ensures RejectedIn(s', id, key) ==> RejectedIn(s, id, key)
    {
      assert !IsLate(s, id, key);
    }
    StepCachesValid(s, e, s', key, from, ttl, maxSize);
  }

  lemma StepCachesValid(s: State, e: Event, s': State, key: Key, from: real, ttl: real, maxSize: int)
    requires Next(s, e, s', ttl, maxSize) && NotBefore(e, from) && Safe(s, key, from, ttl)
    ensures !CachedInvalid(s', key, from, ttl)
  {
    if key in s'.cache {
      if e.StoreResult? && s.requests[e.id].key == key {
        assert !IsLate(s, e.id, key);
      } else {
        EntryStays(s, e, s', ttl, maxSize, key);
      }
    }
  }

  lemma {:induction false} PathStaysSafe(s: State, events: seq<Event>, states: seq<State>, n: nat, key: Key,
                                        from: real, ttl: real, maxSize: int)
    requires Path(s, events, states, ttl, maxSize) && n <= |events|
    requires forall i :: 0 <= i < |events| ==> NotBefore(events[i], from)
    requires forall i :: 0 <= i < |states| ==> key in states[i].db
    requires Safe(s, key, from, ttl)
    ensures Safe(states[n], key, from, ttl) && NoneRejected(s, states[n], key)
    decreases n
  {
    if n > 0 {
      PathStaysSafe(s, events, states, n - 1, key, from, ttl, maxSize);
      assert StepAt(events, states, ttl, maxSize, n - 1);
      StepStaysSafe(states[n - 1], events[n - 1], states[n], key, from, ttl, maxSize);
    }
  }

  // ---------------------------------------------------------- the unsafe half

  lemma {:induction false} Above(ids: set<nat>) returns (bound: nat)
    ensures forall id :: id in ids ==> id < bound
    decreases |ids|
  {
    bound := 0;
    if ids != {} {
      var first :| first in ids;
      var rest := Above(ids - {first});
      bound := if rest <= first then first + 1 else rest;
      assert forall id :: id in ids ==> id == first || id in ids - {first};
    }
  }

  lemma {:induction false} OldestOf(c: Cache, keys: set<Key>) returns (k: Key)
    requires keys != {} && keys <= c.Keys
    ensures k in keys && forall k' :: k' in keys ==> c[k].at <= c[k'].at
    decreases |keys|
  {
    k :| k in keys;
    if keys != {k} {
      assert keys == {k} + (keys - {k});
      var l := OldestOf(c, keys - {k});
      k := if c[l].at <= c[k].at then l else k;
    }
  }

  /** A store into a full cache can always make room. */
  lemma {:induction false} RoomIsMade(c: Cache, n: nat) returns (kept: Cache)
    ensures KeepsNewest(c, kept, n)
    decreases n
  {
    kept := c;
    if n > 0 {
      kept := RoomIsMade(c, n - 1);
      if kept != map[] {
        var k := OldestOf(c, kept.Keys);
        var rest := kept - {k};
        assert rest.Keys == kept.Keys - {k};
        kept := rest;
      }
    }
  }

  lemma StoreIsPossible(c: Cache, key: Key, e: Entry, maxSize: int) returns (c': Cache)
    ensures Stores(c, key, e, maxSize, c') && key in c' && c'[key] == e
  {
    c' := c[key := e];
    if |c| >= maxSize {
      var kept := RoomIsMade(c, EvictCount(maxSize));
      c' := kept[key := e];
    }
  }

  /** A request that arrives and checks while the cache says "revoked". */
  lemma RejectsNow(s: State, before: seq<Event>, through: seq<State>, f: nat, key: Key,
                   from: real, ttl: real, maxSize: int)
    returns (events: seq<Event>, states: seq<State>)
    requires Path(s, before, through, ttl, maxSize)
    requires forall i :: 0 <= i < |before| ==> NotBefore(before[i], from)
    requires forall i :: 0 <= i < |through| ==> key in through[i].db
    requires f !in s.requests && f !in through[|before|].requests
    requires CachedInvalid(through[|before|], key, from, ttl)
    ensures Rejects(s, key, events, states, from, ttl, maxSize)
  {
    var t := through[|before|];
    var arrived := t.(requests := t.requests[f := Request(key, Arrived)]);
    var rejected := t.(requests := t.requests[f := Request(key, RejectedByCache)]);
    PathStep(s, before, through, Arrive(f, key), arrived, ttl, maxSize);
    assert arrived.requests[f := Request(key, RejectedByCache)] == rejected.requests;
    PathStep(s, before + [Arrive(f, key)], through + [arrived], CheckCache(f, from), rejected, ttl, maxSize);
    events := before + [Arrive(f, key)] + [CheckCache(f, from)];
    states := through + [arrived] + [rejected];
    assert RejectedIn(states[|events|], f, key);
  }

  lemma LateStoreRejects(s: State, id: nat, f: nat, key: Key, from: real, ttl: real, maxSize: int)
    returns (events: seq<Event>, states: seq<State>)
    requires key in s.db && ttl > 0.0
    requires IsLate(s, id, key) && f !in s.requests
    ensures Rejects(s, key, events, states, from, ttl, maxSize)
  {
    var c' := StoreIsPossible(s.cache, key, Entry(false, from), maxSize);
    var stored := SetPhase(s, id, Stored(false)).(cache := c');
    var e := StoreResult(id, from);
    assert Next(s, e, stored, ttl, maxSize);
    PathStep(s, [], [s], e, stored, ttl, maxSize);
    assert [] + [e] == [e] && [s] + [stored] == [s, stored];
    events, states := RejectsNow(s, [e], [s, stored], f, key, from, ttl, maxSize);
  }

  // ------------------------------------------------------- the exact condition

  /** Main result on valid keys.  From any state in which the key is valid, and with the clock at
      `from`, the cache can go on to reject a request for the key while the key stays valid if and
      only if it still answers "revoked", or some request has yet to store a "not valid" it read. */
  lemma RejectedIff(s: State, key: Key, from: real, ttl: real, maxSize: int)
    requires key in s.db && ttl > 0.0
    ensures CanReject(s, key, from, ttl, maxSize) <==> CachedInvalid(s, key, from, ttl) || LateStore(s, key)
  {
    if Safe(s, key, from, ttl) {
      if CanReject(s, key, from, ttl, maxSize) {
        var events, states :| Rejects(s, key, events, states, from, ttl, maxSize);
        PathStaysSafe(s, events, states, |events|, key, from, ttl, maxSize);
        assert false;
      }
    } else {
      var f := Above(s.requests.Keys);
      if CachedInvalid(s, key, from, ttl) {
        var events, states := RejectsNow(s, [], [s], f, key, from, ttl, maxSize);
      } else {
        var id :| IsLate(s, id, key);
        var events, states := LateStoreRejects(s, id, f, key, from, ttl, maxSize);
      }
    }
  }

  /** So an invalidation or a clear, in any run, protects a valid key if and only if no request has
      read the key as not valid without having stored that yet. */
  lemma InvalidationIsOvertakenIff(events: seq<Event>, states: seq<State>, v: nat, key: Key,
                                   from: real, ttl: real, maxSize: int)
    requires Run(events, states, ttl, maxSize) && ttl > 0.0
    requires v < |events| && Removes(events[v], key) && key in states[v + 1].db
    ensures CanReject(states[v + 1], key, from, ttl, maxSize) <==> LateStore(states[v + 1], key)
  {
    assert StepAt(events, states, ttl, maxSize, v);
    RejectedIff(states[v + 1], key, from, ttl, maxSize);
  }

  // -------------------------------------------------------------- two schedules

  /** A key is revoked, request 0 reads and stores that, the key is reactivated, and request 1 comes
      `t` after the store.  A reactivation invalidates nothing. */
  function ReactivatedEvent(key: Key, t: real, i: nat): Event {
    match i
    case 0 => Revoke(key)
    case 1 => Arrive(0, key)
    case 2 => CheckCache(0, 0.0)
    case 3 => ReadDb(0)
    case 4 => StoreResult(0, 0.0)
    case 5 => Reactivate(key)
    case 6 => Arrive(1, key)
    case _ => CheckCache(1, t)
  }

  function ReactivatedState(key: Key, i: nat): State {
    match i
    case 0 => State({key}, map[], map[])
    case 1 => State({}, map[], map[])
    case 2 => State({}, map[], Zero(key, Arrived))
    case 3 => State({}, map[], Zero(key, Checked(Unknown)))
    case 4 => State({}, map[], Zero(key, Read(Unknown, false)))
    case 5 => State({}, Marked(key), Zero(key, Stored(false)))
    case 6 => State({key}, Marked(key), Zero(key, Stored(false)))
    case 7 => State({key}, Marked(key), ZeroAndOne(key, Arrived))
    case _ => State({key}, Marked(key), ZeroAndOne(key, RejectedByCache))
  }

  function Marked(key: Key): Cache {
    map[key := Entry(false, 0.0)]
  }

  function Zero(key: Key, phase: Phase): map<nat, Request> {
    map[0 := Request(key, phase)]
  }

  function ZeroAndOne(key: Key, phase: Phase): map<nat, Request> {
    map[0 := Request(key, Stored(false)), 1 := Request(key, phase)]
  }

  lemma ReactivatedStep(key: Key, t: real, ttl: real, maxSize: int, i: nat)
    requires 0.0 <= t < ttl && maxSize >= 1 && i < 8
    ensures Next(ReactivatedState(key, i), ReactivatedEvent(key, t, i), ReactivatedState(key, i + 1), ttl, maxSize)
  {
    if i == 1 {
      ZeroArrives({}, map[], key);
    } else if i == 2 {
      ZeroMisses({}, key, ttl, maxSize);
    } else if i == 3 {
      ZeroReads(map[], key, ttl, maxSize);
    } else if i == 4 {
      ZeroStores({}, key, ttl, maxSize);
    } else if i >= 6 {
      OneIsRejected(key, t, ttl, maxSize);
    }
  }

  lemma ZeroArrives(db: set<Key>, c: Cache, key: Key)
    ensures State(db, c, map[]).(requests := map[][0 := Request(key, Arrived)]) == State(db, c, Zero(key, Arrived))
  {
  }

  lemma ZeroMoves(db: set<Key>, c: Cache, key: Key, p: Phase, q: Phase)
    ensures SetPhase(State(db, c, Zero(key, p)), 0, q) == State(db, c, Zero(key, q))
  {
    assert Zero(key, p)[0 := Request(key, q)] == Zero(key, q);
  }

  lemma ZeroMisses(db: set<Key>, key: Key, ttl: real, maxSize: int)
    ensures Next(State(db, map[], Zero(key, Arrived)), CheckCache(0, 0.0),
                 State(db, map[], Zero(key, Checked(Unknown))), ttl, maxSize)
  {
    ZeroMoves(db, map[], key, Arrived, Checked(Unknown));
  }

  lemma ZeroReads(c: Cache, key: Key, ttl: real, maxSize: int)
    ensures Next(State({}, c, Zero(key, Checked(Unknown))), ReadDb(0),
                 State({}, c, Zero(key, Read(Unknown, false))), ttl, maxSize)
  {
    ZeroMoves({}, c, key, Checked(Unknown), Read(Unknown, false));
  }

  lemma ZeroStores(db: set<Key>, key: Key, ttl: real, maxSize: int)
    requires maxSize >= 1
    ensures Next(State(db, map[], Zero(key, Read(Unknown, false))), StoreResult(0, 0.0),
                 State(db, Marked(key), Zero(key, Stored(false))), ttl, maxSize)
  {
    ZeroMoves(db, map[], key, Read(Unknown, false), Stored(false));
    assert map[][key := Entry(false, 0.0)] == Marked(key);
  }

  lemma OneIsRejected(key: Key, t: real, ttl: real, maxSize: int)
    requires 0.0 <= t < ttl
    ensures Next(State({key}, Marked(key), Zero(key, Stored(false))), Arrive(1, key),
                 State({key}, Marked(key), ZeroAndOne(key, Arrived)), ttl, maxSize)
    ensures Next(State({key}, Marked(key), ZeroAndOne(key, Arrived)), CheckCache(1, t),
                 State({key}, Marked(key), ZeroAndOne(key, RejectedByCache)), ttl, maxSize)
  {
    assert Zero(key, Stored(false))[1 := Request(key, Arrived)] == ZeroAndOne(key, Arrived);
    assert ZeroAndOne(key, Arrived)[1 := Request(key, RejectedByCache)] == ZeroAndOne(key, RejectedByCache);
  }

  /** A reactivated key is rejected for as long as the time to live, with no race at all. */
  lemma ReactivatedIsRejected(key: Key, t: real, ttl: real, maxSize: int)
    returns (events: seq<Event>, states: seq<State>)
    requires 0.0 <= t < ttl && maxSize >= 1
    ensures Run(events, states, ttl, maxSize) && |events| == 8
    ensures events[5] == Reactivate(key) && events[6] == Arrive(1, key) && events[7] == CheckCache(1, t)
    ensures events[4].StoreResult? && events[4].now == 0.0
    ensures forall i :: 6 <= i <= 8 ==> key in states[i].db
    ensures RejectedIn(states[8], 1, key)
  {
    events := seq(8, i requires 0 <= i => ReactivatedEvent(key, t, i));
    states := seq(9, i requires 0 <= i => ReactivatedState(key, i));
    forall i: nat | i < 8
      ensures StepAt(events, states, ttl, maxSize, i)
    {
      ReactivatedStep(key, t, ttl, maxSize, i);
    }
  }

  /** The same after an invalidation: request 0 reads the key as revoked, the revocation invalidates
      the entry, the key is reactivated, and only then does request 0 store what it read. */
  function OvertakenEvent(key: Key, t: real, i: nat): Event {
    match i
    case 0 => Arrive(0, key)
    case 1 => CheckCache(0, 0.0)
    case 2 => Revoke(key)
    case 3 => ReadDb(0)
    case 4 => InvalidateEntry(key)
    case 5 => Reactivate(key)
    case 6 => StoreResult(0, 0.0)
    case 7 => Arrive(1, key)
    case _ => CheckCache(1, t)
  }

  function OvertakenState(key: Key, i: nat): State {
    match i
    case 0 => State({key}, map[], map[])
    case 1 => State({key}, map[], Zero(key, Arrived))
    case 2 => State({key}, map[], Zero(key, Checked(Unknown)))
    case 3 => State({}, map[], Zero(key, Checked(Unknown)))
    case 4 => State({}, map[], Zero(key, Read(Unknown, false)))
    case 5 => State({}, map[], Zero(key, Read(Unknown, false)))
    case 6 => State({key}, map[], Zero(key, Read(Unknown, false)))
    case 7 => State({key}, Marked(key), Zero(key, Stored(false)))
    case 8 => State({key}, Marked(key), ZeroAndOne(key, Arrived))
    case _ => State({key}, Marked(key), ZeroAndOne(key, RejectedByCache))
  }

  lemma OvertakenStep(key: Key, t: real, ttl: real, maxSize: int, i: nat)
    requires 0.0 <= t < ttl && maxSize >= 1 && i < 9
    ensures Next(OvertakenState(key, i), OvertakenEvent(key, t, i), OvertakenState(key, i + 1), ttl, maxSize)
  {
    if i == 0 {
      ZeroArrives({key}, map[], key);
    } else if i == 1 {
      ZeroMisses({key}, key, ttl, maxSize);
    } else if i == 3 {
      ZeroReads(map[], key, ttl, maxSize);
    } else if i == 6 {
      ZeroStores({key}, key, ttl, maxSize);
    } else if i >= 7 {
      OneIsRejected(key, t, ttl, maxSize);
    }
  }

  lemma InvalidationCanBeOvertaken(key: Key, t: real, ttl: real, maxSize: int)
    returns (events: seq<Event>, states: seq<State>)
    requires 0.0 <= t < ttl && maxSize >= 1
    ensures Run(events, states, ttl, maxSize) && |events| == 9
    ensures events[2] == Revoke(key) && events[4] == InvalidateEntry(key) && events[5] == Reactivate(key)
    ensures forall i :: 6 <= i <= 9 ==> key in states[i].db
    ensures RejectedIn(states[9], 1, key)
  {
    events := seq(9, i requires 0 <= i => OvertakenEvent(key, t, i));
    states := seq(10, i requires 0 <= i => OvertakenState(key, i));
    forall i: nat | i < 9
      ensures StepAt(events, states, ttl, maxSize, i)
    {
      OvertakenStep(key, t, ttl, maxSize, i);
    }
  }
}
