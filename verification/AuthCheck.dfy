/**
 The auth check around the revocation cache, as a state machine: any number of requests, each of
 which checks the cache, reads the database, stores the result and decides, interleaved in any way
 with revocations, reactivations and cache invalidations.

 A request is identified by a number and asks about one key, the cache key of a user or an API key;
 the database is the set of keys that are valid.  Each cache operation is one atomic step, as the
 cache's lock makes it.
 */
module AuthCheck {
  import opened AuthCache

  /** How far a request has come.  `cached` is what its cache check said, `valid` what it read. */
  datatype Phase =
    | Arrived
    | Checked(cached: Answer)
    | Read(cached: Answer, valid: bool)
    | Stored(valid: bool)
    | Accepted
    | RejectedByCache
    | RejectedByRead

  datatype Request = Request(key: Key, phase: Phase)

  datatype State = State(db: set<Key>, cache: Cache, requests: map<nat, Request>)

  datatype Event =
    | Arrive(id: nat, key: Key)
    | CheckCache(id: nat, now: real)
    | ReadDb(id: nat)
    | StoreResult(id: nat, now: real)
    | Decide(id: nat)
    | Revoke(key: Key)
    | Reactivate(key: Key)
    | InvalidateEntry(key: Key)
    | ClearCache

  function SetPhase(s: State, id: nat, phase: Phase): State
    requires id in s.requests
  {
    s.(requests := s.requests[id := s.requests[id].(phase := phase)])
  }

  function PhaseOf(s: State, id: nat): Phase
    requires id in s.requests
  {
    s.requests[id].phase
  }

  /** The decision once the result is known: a miss must have been stored first. */
  predicate ReadyToDecide(p: Phase) {
    p.Stored? || (p.Read? && p.cached != Unknown)
  }

  ghost predicate Next(s: State, e: Event, s': State, ttl: real, maxSize: int) {
    match e
    case Arrive(id, key) =>
      id !in s.requests && s' == s.(requests := s.requests[id := Request(key, Arrived)])
    case CheckCache(id, now) =>
      && id in s.requests && PhaseOf(s, id) == Arrived
      && var answer := Lookup(s.cache, s.requests[id].key, now, ttl);
         var c := AfterCheck(s.cache, s.requests[id].key, now, ttl);
         s' == SetPhase(s.(cache := c), id, if answer == Known(false) then RejectedByCache else Checked(answer))
    case ReadDb(id) =>
      && id in s.requests && PhaseOf(s, id).Checked?
      && s' == SetPhase(s, id, Read(PhaseOf(s, id).cached, s.requests[id].key in s.db))
    case StoreResult(id, now) =>
      && id in s.requests && PhaseOf(s, id).Read? && PhaseOf(s, id).cached == Unknown
      && Stores(s.cache, s.requests[id].key, Entry(PhaseOf(s, id).valid, now), maxSize, s'.cache)
      && s' == SetPhase(s, id, Stored(PhaseOf(s, id).valid)).(cache := s'.cache)
    case Decide(id) =>
      && id in s.requests && ReadyToDecide(PhaseOf(s, id))
      && s' == SetPhase(s, id, if PhaseOf(s, id).valid then Accepted else RejectedByRead)
    case Revoke(key) => s' == s.(db := s.db - {key})
    case Reactivate(key) => s' == s.(db := s.db + {key})
    case InvalidateEntry(key) => s' == s.(cache := s.cache - {key})
    case ClearCache => s' == s.(cache := map[])
  }

  /** A run from an empty cache with no requests: `states[i]` is the state before event `i`. */
  ghost predicate Run(events: seq<Event>, states: seq<State>, ttl: real, maxSize: int) {
    && |states| == |events| + 1
    && states[0].cache == map[] && states[0].requests == map[]
    && forall i :: 0 <= i < |events| ==> StepAt(events, states, ttl, maxSize, i)
  }

  ghost predicate StepAt(events: seq<Event>, states: seq<State>, ttl: real, maxSize: int, i: nat)
    requires i < |events| && |states| == |events| + 1
  {
    Next(states[i], events[i], states[i + 1], ttl, maxSize)
  }

  // ------------------------------------------------------- what a step can do

  /** A request keeps its key, and reads the database once at most. */
  ghost predicate ReadAt(events: seq<Event>, states: seq<State>, i: nat, id: nat, valid: bool) {
    && i < |events| && i < |states|
    && events[i] == ReadDb(id)
    && id in states[i].requests
    && valid == (states[i].requests[id].key in states[i].db)
  }

  /** Request `id` has read `valid` before event `n`. */
  ghost predicate HasRead(events: seq<Event>, states: seq<State>, n: nat, id: nat, valid: bool) {
    exists i: nat :: i < n && ReadAt(events, states, i, id, valid)
  }

  /** The value a phase rests on, for the phases that rest on a database read. */
  predicate RestsOn(p: Phase, valid: bool) {
    match p
    case Read(_, v) => v == valid
    case Stored(v) => v == valid
    case Accepted => valid
    case RejectedByRead => !valid
    case _ => false
  }

  lemma {:induction false} PhasesRestOnReads(events: seq<Event>, states: seq<State>, ttl: real, maxSize: int,
                                            n: nat, id: nat, valid: bool)
    requires Run(events, states, ttl, maxSize) && n <= |events|
    requires id in states[n].requests && RestsOn(PhaseOf(states[n], id), valid)
    ensures HasRead(events, states, n, id, valid)
    decreases n
  {
    if n > 0 {
      var s, e, s' := states[n - 1], events[n - 1], states[n];
      assert StepAt(events, states, ttl, maxSize, n - 1);
      if id in s.requests && RestsOn(PhaseOf(s, id), valid) {
        PhasesRestOnReads(events, states, ttl, maxSize, n - 1, id, valid);
      } else {
        assert ReadAt(events, states, n - 1, id, valid);
      }
    }
  }

  lemma {:induction false} KeysStay(events: seq<Event>, states: seq<State>, ttl: real, maxSize: int,
                                   i: nat, n: nat, id: nat)
    requires Run(events, states, ttl, maxSize) && i <= n <= |events|
    requires id in states[i].requests
    ensures id in states[n].requests && states[n].requests[id].key == states[i].requests[id].key
    decreases n
  {
    if i < n {
      KeysStay(events, states, ttl, maxSize, i, n - 1, id);
      assert StepAt(events, states, ttl, maxSize, n - 1);
      KeyStays(states[n - 1], events[n - 1], states[n], ttl, maxSize, id);
    }
  }

  lemma KeyStays(s: State, e: Event, s': State, ttl: real, maxSize: int, id: nat)
    requires Next(s, e, s', ttl, maxSize) && id in s.requests
    ensures id in s'.requests && s'.requests[id].key == s.requests[id].key
  {
  }

  /** Main result on acceptance.  However the steps interleave, an accepted request has itself read
      the database at some step, and its key was valid there: a cached answer never accepts. */
  lemma AcceptanceRestsOnOwnRead(events: seq<Event>, states: seq<State>, ttl: real, maxSize: int, n: nat, id: nat)
    returns (i: nat)
    requires Run(events, states, ttl, maxSize) && n <= |events|
    requires id in states[n].requests && PhaseOf(states[n], id) == Accepted
    ensures i < n && events[i] == ReadDb(id)
    ensures states[n].requests[id].key in states[i].db
  {
    PhasesRestOnReads(events, states, ttl, maxSize, n, id, true);
    i :| i < n && ReadAt(events, states, i, id, true);
    KeysStay(events, states, ttl, maxSize, i, n, id);
  }

  /** Every request that is decided after its read is decided as that read says. */
  lemma DecisionRestsOnOwnRead(events: seq<Event>, states: seq<State>, ttl: real, maxSize: int, n: nat, id: nat)
    returns (i: nat)
    requires Run(events, states, ttl, maxSize) && n <= |events|
    requires id in states[n].requests && PhaseOf(states[n], id) in {Accepted, RejectedByRead}
    ensures i < n && events[i] == ReadDb(id)
    ensures PhaseOf(states[n], id) == Accepted <==> states[n].requests[id].key in states[i].db
  {
    var valid := PhaseOf(states[n], id) == Accepted;
    PhasesRestOnReads(events, states, ttl, maxSize, n, id, valid);
    i :| i < n && ReadAt(events, states, i, id, valid);
    KeysStay(events, states, ttl, maxSize, i, n, id);
  }

  /** So a key that is not valid from a request's arrival on is not accepted by that request: the
      cache adds no delay to a revocation. */
  lemma RevokedIsNotAccepted(events: seq<Event>, states: seq<State>, ttl: real, maxSize: int,
                             a: nat, n: nat, id: nat)
    requires Run(events, states, ttl, maxSize) && a < n <= |events|
    requires events[a].Arrive? && events[a].id == id
    requires forall i :: a <= i < n ==> events[a].key !in states[i].db
    ensures id in states[n].requests && PhaseOf(states[n], id) != Accepted
  {
    var key := events[a].key;
    assert StepAt(events, states, ttl, maxSize, a);
    KeysStay(events, states, ttl, maxSize, a + 1, n, id);
    if PhaseOf(states[n], id) == Accepted {
      var i := AcceptanceRestsOnOwnRead(events, states, ttl, maxSize, n, id);
      assert StepAt(events, states, ttl, maxSize, i);
      if i < a {
        KeysStay(events, states, ttl, maxSize, i, a, id);
      }
    }
  }

  // ------------------------------------------------------------- rejections

  ghost predicate Removes(e: Event, key: Key) {
    e == InvalidateEntry(key) || e == ClearCache
  }

  /** Event `j` stored the entry, for a request that had read that value, and nothing has removed
      the entry before event `n`. */
  ghost predicate StoredAt(events: seq<Event>, states: seq<State>, n: nat, j: nat, key: Key, e: Entry) {
    && j < n <= |events| && |states| == |events| + 1
    && events[j].StoreResult? && events[j].now == e.at
    && events[j].id in states[j].requests
    && states[j].requests[events[j].id].key == key
    && HasRead(events, states, j, events[j].id, e.valid)
    && forall m :: j < m < n ==> !Removes(events[m], key)
  }

  lemma {:induction false} EntriesComeFromReads(events: seq<Event>, states: seq<State>, ttl: real, maxSize: int,
                                               n: nat, key: Key) returns (j: nat)
    requires Run(events, states, ttl, maxSize) && n <= |events|
    requires key in states[n].cache
    ensures StoredAt(events, states, n, j, key, states[n].cache[key])
    decreases n
  {
    var s, e, s' := states[n - 1], events[n - 1], states[n];
    assert StepAt(events, states, ttl, maxSize, n - 1);
    if e.StoreResult? && s.requests[e.id].key == key {
      j := n - 1;
      PhasesRestOnReads(events, states, ttl, maxSize, n - 1, e.id, PhaseOf(s, e.id).valid);
    } else {
      EntryStays(s, e, s', ttl, maxSize, key);
      j := EntriesComeFromReads(events, states, ttl, maxSize, n - 1, key);
    }
  }

  /** An entry that is there after a step, and that the step did not store, was there before. */
  lemma EntryStays(s: State, e: Event, s': State, ttl: real, maxSize: int, key: Key)
    requires Next(s, e, s', ttl, maxSize) && key in s'.cache
    requires e.StoreResult? ==> s.requests[e.id].key != key
    ensures key in s.cache && s.cache[key] == s'.cache[key] && !Removes(e, key)
  {
  }

  /** Main result on cache rejections.  A request rejected by the cache met an entry that another
      request stored less than the time to live earlier, after reading itself that the key was not
      valid, and that nobody had invalidated in between. */
  lemma CacheRejectionRestsOnRead(events: seq<Event>, states: seq<State>, ttl: real, maxSize: int, n: nat, id: nat)
    returns (i: nat, j: nat, m: nat)
    requires Run(events, states, ttl, maxSize) && n <= |events|
    requires id in states[n].requests && PhaseOf(states[n], id) == RejectedByCache
    ensures m < j < i < n
    ensures events[i].CheckCache? && events[i].id == id
    ensures events[j].StoreResult? && events[i].now - events[j].now < ttl
    ensures events[m] == ReadDb(events[j].id)
    ensures states[n].requests[id].key !in states[m].db
    ensures forall k :: j < k < i ==> !Removes(events[k], states[n].requests[id].key)
  {
    var key := states[n].requests[id].key;
    i := RejectedWhere(events, states, ttl, maxSize, n, id);
    KeysStay(events, states, ttl, maxSize, i, n, id);
    j := EntriesComeFromReads(events, states, ttl, maxSize, i, key);
    m :| m < j && ReadAt(events, states, m, events[j].id, false);
    KeysStay(events, states, ttl, maxSize, m, j, events[j].id);
  }

  lemma {:induction false} RejectedWhere(events: seq<Event>, states: seq<State>, ttl: real, maxSize: int, n: nat, id: nat)
    returns (i: nat)
    requires Run(events, states, ttl, maxSize) && n <= |events|
    requires id in states[n].requests && PhaseOf(states[n], id) == RejectedByCache
    ensures i < n && events[i].CheckCache? && events[i].id == id && id in states[i].requests
    ensures Lookup(states[i].cache, states[i].requests[id].key, events[i].now, ttl) == Known(false)
    decreases n
  {
    assert StepAt(events, states, ttl, maxSize, n - 1);
    RejectedNow(states[n - 1], events[n - 1], states[n], ttl, maxSize, id);
    if id in states[n - 1].requests && PhaseOf(states[n - 1], id) == RejectedByCache {
      i := RejectedWhere(events, states, ttl, maxSize, n - 1, id);
    } else {
      i := n - 1;
    }
  }

  lemma RejectedNow(s: State, e: Event, s': State, ttl: real, maxSize: int, id: nat)
    requires Next(s, e, s', ttl, maxSize)
    requires id in s'.requests && PhaseOf(s', id) == RejectedByCache
    ensures id in s.requests
    ensures PhaseOf(s, id) == RejectedByCache ||
            (e.CheckCache? && e.id == id && Lookup(s.cache, s.requests[id].key, e.now, ttl) == Known(false))
  {
  }

  // ----------------------------------------------------- one request, alone

  /** The code of one check: what it decides and the cache it leaves, given the database's answer and
      the two clock readings. */
  ghost predicate Authenticated(c: Cache, key: Key, checkedAt: real, validInDb: bool, storedAt: real,
                                ttl: real, maxSize: int, decision: Phase, c': Cache)
  {
    var answer := Lookup(c, key, checkedAt, ttl);
    var checked := AfterCheck(c, key, checkedAt, ttl);
    && decision == (if answer == Known(false) then RejectedByCache
                    else if validInDb then Accepted else RejectedByRead)
    && if answer == Unknown then Stores(checked, key, Entry(validInDb, storedAt), maxSize, c')
       else c' == checked
  }

  /** One request alone is rejected by the cache exactly on a fresh "revoked" entry, and is otherwise
      accepted exactly when the database says that the key is valid. */
  lemma AuthenticatedLaw(c: Cache, key: Key, checkedAt: real, validInDb: bool, storedAt: real,
                         ttl: real, maxSize: int, decision: Phase, c': Cache)
    requires Authenticated(c, key, checkedAt, validInDb, storedAt, ttl, maxSize, decision, c')
    ensures decision == RejectedByCache <==> key in c && !c[key].valid && checkedAt - c[key].at < ttl
    ensures decision != RejectedByCache ==> decision == if validInDb then Accepted else RejectedByRead
    ensures key !in c || checkedAt - c[key].at >= ttl ==> key in c' && c'[key] == Entry(validInDb, storedAt)
    ensures key in c && checkedAt - c[key].at < ttl ==> c' == c
  {
  }

  method Authenticate(cache: AuthRevocationCache, key: Key, checkedAt: real, validInDb: bool, storedAt: real)
    returns (decision: Phase)
    modifies cache
    ensures Authenticated(old(cache.cache), key, checkedAt, validInDb, storedAt,
                          cache.ttl, cache.maxSize, decision, cache.cache)
  {
    var cached := cache.CheckKey(key, checkedAt);
    if cached == Known(false) {
      return RejectedByCache;
    }
    if cached == Unknown {
      cache.StoreKey(key, validInDb, storedAt);
    }
    return if validInDb then Accepted else RejectedByRead;
  }

  /** Steps of the machine from any state. */
  ghost predicate Path(s: State, events: seq<Event>, states: seq<State>, ttl: real, maxSize: int) {
    && |states| == |events| + 1
    && states[0] == s
    && forall i :: 0 <= i < |events| ==> StepAt(events, states, ttl, maxSize, i)
  }

  lemma PathStep(s: State, events: seq<Event>, states: seq<State>, e: Event, s': State, ttl: real, maxSize: int)
    requires Path(s, events, states, ttl, maxSize) && Next(states[|events|], e, s', ttl, maxSize)
    ensures Path(s, events + [e], states + [s'], ttl, maxSize)
  {
    forall i | 0 <= i < |events + [e]|
      ensures StepAt(events + [e], states + [s'], ttl, maxSize, i)
    {
      assert i < |events| ==> StepAt(events, states, ttl, maxSize, i);
    }
  }

  /** That code is a run of the machine in which no other request moves: it arrives, checks, and unless
      the cache rejects it reads, stores after a miss, and decides. */
  lemma AloneIsPath(s: State, id: nat, key: Key, checkedAt: real, storedAt: real, ttl: real, maxSize: int,
                    decision: Phase, c': Cache)
    returns (events: seq<Event>, states: seq<State>)
    requires id !in s.requests
    requires Authenticated(s.cache, key, checkedAt, key in s.db, storedAt, ttl, maxSize, decision, c')
    ensures Path(s, events, states, ttl, maxSize)
    ensures states[|events|] == State(s.db, c', s.requests[id := Request(key, decision)])
  {
    var answer := Lookup(s.cache, key, checkedAt, ttl);
    var checked := AfterCheck(s.cache, key, checkedAt, ttl);
    var arrived := s.(requests := s.requests[id := Request(key, Arrived)]);
    events, states := [], [s];
    PathStep(s, events, states, Arrive(id, key), arrived, ttl, maxSize);
    events, states := events + [Arrive(id, key)], states + [arrived];
    var first := Alone(s, checked, id, key, if answer == Known(false) then RejectedByCache else Checked(answer));
    PathStep(s, events, states, CheckCache(id, checkedAt), first, ttl, maxSize);
    events, states := events + [CheckCache(id, checkedAt)], states + [first];
    if answer != Known(false) {
      events, states := AloneDecides(s, id, key, storedAt, ttl, maxSize, answer, checked, c', events, states);
    }
  }

  function Alone(s: State, c: Cache, id: nat, key: Key, phase: Phase): State {
    State(s.db, c, s.requests[id := Request(key, phase)])
  }

  lemma AloneDecides(s: State, id: nat, key: Key, storedAt: real, ttl: real, maxSize: int, answer: Answer,
                     checked: Cache, c': Cache, before: seq<Event>, through: seq<State>)
    returns (events: seq<Event>, states: seq<State>)
    requires Path(s, before, through, ttl, maxSize)
    requires through[|before|] == Alone(s, checked, id, key, Checked(answer))
    requires if answer == Unknown then Stores(checked, key, Entry(key in s.db, storedAt), maxSize, c')
             else c' == checked
    ensures Path(s, events, states, ttl, maxSize)
    ensures states[|events|] == Alone(s, c', id, key, if key in s.db then Accepted else RejectedByRead)
  {
    events, states := before, through;
    var read := Alone(s, checked, id, key, Read(answer, key in s.db));
    PathStep(s, events, states, ReadDb(id), read, ttl, maxSize);
    events, states := events + [ReadDb(id)], states + [read];
    if answer == Unknown {
      var stored := Alone(s, c', id, key, Stored(key in s.db));
      PathStep(s, events, states, StoreResult(id, storedAt), stored, ttl, maxSize);
      events, states := events + [StoreResult(id, storedAt)], states + [stored];
      AloneEnds(s, id, key, Stored(key in s.db), ttl, maxSize, c', events, states);
    } else {
      AloneEnds(s, id, key, Read(answer, key in s.db), ttl, maxSize, c', events, states);
    }
    var done := Alone(s, c', id, key, if key in s.db then Accepted else RejectedByRead);
    events, states := events + [Decide(id)], states + [done];
  }

  lemma AloneEnds(s: State, id: nat, key: Key, phase: Phase, ttl: real, maxSize: int, c': Cache,
                  events: seq<Event>, states: seq<State>)
    requires Path(s, events, states, ttl, maxSize) && states[|events|] == Alone(s, c', id, key, phase)
    requires ReadyToDecide(phase) && phase.valid == (key in s.db)
    ensures var done := Alone(s, c', id, key, if key in s.db then Accepted else RejectedByRead);
            Path(s, events + [Decide(id)], states + [done], ttl, maxSize)
  {
    var done := Alone(s, c', id, key, if key in s.db then Accepted else RejectedByRead);
    PathStep(s, events, states, Decide(id), done, ttl, maxSize);
  }
}
