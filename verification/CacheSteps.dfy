/** Concurrent readers and invalidations of the listing cache. A read is up to
    three steps: look under the lock, fetch from the source, install under the
    lock. Every step is a tick of one history clock, and the rows of a fetch
    are named by the tick at which the source read began. */
module CacheSteps {
  import opened Records
  import opened CatalogCache

  /** floor is history: the tick of the key's latest invalidation when the call
      began; only later source reads may answer it. */
  datatype Call =
    | Missed(key: Key, now: real, genPre: nat, floor: nat)
    | Fetching(key: Key, now: real, genPre: nat, floor: nat, began: nat)
    | Returned(key: Key, floor: nat, rows: nat)

  datatype State = State(cache: Cache<nat>, calls: map<nat, Call>, tick: nat, invalidated: map<Key, nat>)

  datatype Event =
    | Looked(t: nat, key: Key, now: real, ttl: real)
    | FetchBegan(t: nat)
    | FetchEnded(t: nat)
    | Invalidate(key: Key)

  const START := State(Cache([], map[]), map[], 1, map[])

  /** The tick of the key's latest invalidation, 0 when there was none. */
  function Latest(s: State, key: Key): nat { if key in s.invalidated then s.invalidated[key] else 0 }

  function LookStep(s: State, t: nat, key: Key, now: real, ttl: real): State {
    var hit := Hit(s.cache, key, now, ttl);
    var call := if hit.Some? then Returned(key, Latest(s, key), hit.value.rows)
                else Missed(key, now, Gen(s.cache, key), Latest(s, key));
    s.(cache := Touched(s.cache, key, now, ttl), calls := s.calls[t := call])
  }

  function EndStep(s: State, max: nat, t: nat, call: Call): State
    requires call.Fetching?
  {
    s.(cache := Installed(s.cache, call.key, call.now, call.began, call.genPre, max),
       calls := s.calls[t := Returned(call.key, call.floor, call.began)])
  }

  function Act(s: State, max: nat, e: Event): State {
    match e
    case Looked(t, key, now, ttl) => if t in s.calls then s else LookStep(s, t, key, now, ttl)
    case FetchBegan(t) =>
      if t in s.calls && s.calls[t].Missed? then
        var c := s.calls[t];
        s.(calls := s.calls[t := Fetching(c.key, c.now, c.genPre, c.floor, s.tick)])
      else s
    case FetchEnded(t) => if t in s.calls && s.calls[t].Fetching? then EndStep(s, max, t, s.calls[t]) else s
    case Invalidate(key) => s.(cache := Invalidated(s.cache, key), invalidated := s.invalidated[key := s.tick])
  }

  function Do(s: State, max: nat, e: Event): State { Act(s, max, e).(tick := s.tick + 1) }

  function Run(max: nat, events: seq<Event>): State {
    if events == [] then START else Do(Run(max, events[..|events| - 1]), max, events[|events| - 1])
  }

  // ----- freshness -----

  predicate EntryOk(s: State, e: Entry<nat>) { Latest(s, e.key) < e.rows < s.tick }

  /** A read whose generation still stands began after the latest invalidation. */
  predicate CallOk(s: State, call: Call) {
    match call
    case Missed(key, _, genPre, floor) =>
      genPre <= Gen(s.cache, key) && floor < s.tick
      && (genPre == Gen(s.cache, key) ==> Latest(s, key) <= floor)
    case Fetching(key, _, genPre, floor, began) =>
      genPre <= Gen(s.cache, key) && floor < began < s.tick
      && (genPre == Gen(s.cache, key) ==> Latest(s, key) <= floor)
    case Returned(_, floor, rows) => floor < rows
  }

  ghost predicate Inv(s: State) {
    && DistinctKeys(s.cache.lru)
    && s.tick >= 1
    && (forall key: Key :: Latest(s, key) < s.tick)
    && (forall e :: e in s.cache.lru ==> EntryOk(s, e))
    && (forall t :: t in s.calls ==> CallOk(s, s.calls[t]))
  }

  lemma LookKeepsInv(s: State, t: nat, key: Key, now: real, ttl: real)
    requires Inv(s) && t !in s.calls
    ensures Inv(LookStep(s, t, key, now, ttl).(tick := s.tick + 1))
  {
    var s' := LookStep(s, t, key, now, ttl).(tick := s.tick + 1);
    var hit := Hit(s.cache, key, now, ttl);
    if hit.Some? {
      PlacedDistinct(s.cache.lru, hit.value);
      OthersDistinct(s.cache.lru, key);
      assert EntryOk(s, hit.value);
    }
    forall e | e in s'.cache.lru ensures EntryOk(s', e) {
      assert e in s.cache.lru && EntryOk(s, e);
    }
    forall u | u in s'.calls ensures CallOk(s', s'.calls[u]) {
      if u != t { assert CallOk(s, s.calls[u]); }
    }
    forall k: Key ensures Latest(s', k) < s'.tick { assert Latest(s, k) < s.tick; }
  }

  lemma BeginKeepsInv(s: State, max: nat, t: nat)
    requires Inv(s) && t in s.calls && s.calls[t].Missed?
    ensures Inv(Do(s, max, FetchBegan(t)))
  {
    var s' := Do(s, max, FetchBegan(t));
    forall e | e in s'.cache.lru ensures EntryOk(s', e) { assert EntryOk(s, e); }
    forall u | u in s'.calls ensures CallOk(s', s'.calls[u]) { assert CallOk(s, s.calls[u]); }
    forall k: Key ensures Latest(s', k) < s'.tick { assert Latest(s, k) < s.tick; }
  }

  lemma EndKeepsInv(s: State, max: nat, t: nat)
    requires Inv(s) && t in s.calls && s.calls[t].Fetching?
    ensures Inv(Do(s, max, FetchEnded(t)))
  {
    var s', call := Do(s, max, FetchEnded(t)), s.calls[t];
    assert CallOk(s, call);
    if Gen(s.cache, call.key) == call.genPre {
      InstallRespectsTheBound(s.cache, call.key, call.now, call.began, max);
    }
    forall e | e in s'.cache.lru ensures EntryOk(s', e) {
      assert e in s.cache.lru ==> EntryOk(s, e);
    }
    forall u | u in s'.calls ensures CallOk(s', s'.calls[u]) {
      assert CallOk(s, s.calls[u]);
    }
    forall k: Key ensures Latest(s', k) < s'.tick { assert Latest(s, k) < s.tick; }
  }

  lemma InvalidateKeepsInv(s: State, max: nat, key: Key)
    requires Inv(s)
    ensures Inv(Do(s, max, Invalidate(key)))
  {
    var s' := Do(s, max, Invalidate(key));
    OthersDistinct(s.cache.lru, key);
    forall e | e in s'.cache.lru ensures EntryOk(s', e) { assert EntryOk(s, e); }
    forall u | u in s'.calls ensures CallOk(s', s'.calls[u]) { assert CallOk(s, s.calls[u]); }
    forall k: Key ensures Latest(s', k) < s'.tick { assert Latest(s, k) < s.tick; }
  }

  lemma IdleKeepsInv(s: State)
    requires Inv(s)
    ensures Inv(s.(tick := s.tick + 1))
  {
    var s' := s.(tick := s.tick + 1);
    forall e | e in s'.cache.lru ensures EntryOk(s', e) { assert EntryOk(s, e); }
    forall u | u in s'.calls ensures CallOk(s', s'.calls[u]) { assert CallOk(s, s.calls[u]); }
    forall k: Key ensures Latest(s', k) < s'.tick { assert Latest(s, k) < s.tick; }
  }

  lemma DoKeepsInv(s: State, max: nat, e: Event)
    requires Inv(s)
    ensures Inv(Do(s, max, e))
  {
    match e
    case Looked(t, key, now, ttl) => if t !in s.calls { LookKeepsInv(s, t, key, now, ttl); } else { IdleKeepsInv(s); }
    case FetchBegan(t) => if t in s.calls && s.calls[t].Missed? { BeginKeepsInv(s, max, t); } else { IdleKeepsInv(s); }
    case FetchEnded(t) => if t in s.calls && s.calls[t].Fetching? { EndKeepsInv(s, max, t); } else { IdleKeepsInv(s); }
    case Invalidate(key) => InvalidateKeepsInv(s, max, key);
  }

  lemma {:induction false} RunInv(max: nat, events: seq<Event>)
    ensures Inv(Run(max, events))
  {
    if events == [] {
    } else {
      RunInv(max, events[..|events| - 1]);
      DoKeepsInv(Run(max, events[..|events| - 1]), max, events[|events| - 1]);
    }
  }

  /** Whatever overlaps, the rows cached for a key come from a source read that
      began after the key's latest invalidation. */
  lemma CachedRowsAreFresh(max: nat, events: seq<Event>, key: Key)
    requires Find(Run(max, events).cache.lru, key).Some?
    ensures var s := Run(max, events); Find(s.cache.lru, key).value.rows > Latest(s, key)
  {
    RunInv(max, events);
    assert EntryOk(Run(max, events), Find(Run(max, events).cache.lru, key).value);
  }

  /** In every run a look returns at once, with the cached rows, exactly when they
      were stored less than the time bound ago; otherwise the call goes to the
      source under the key's current generation. */
  lemma LooksServeYoungRows(max: nat, events: seq<Event>, t: nat, key: Key, now: real, ttl: real)
    requires t !in Run(max, events).calls
    ensures var s := Run(max, events);
      var call := Do(s, max, Looked(t, key, now, ttl)).calls[t];
      && (call.Returned? <==> exists e :: e in s.cache.lru && e.key == key && now - e.storedAt < ttl)
      && (forall e :: e in s.cache.lru && e.key == key && now - e.storedAt < ttl ==>
            call == Returned(key, Latest(s, key), e.rows))
      && (!call.Returned? ==> call == Missed(key, now, Gen(s.cache, key), Latest(s, key)))
  {
    RunInv(max, events);
    ServedIffYoung(Run(max, events).cache, key, now, ttl);
  }

  /** The tick of the last invalidation of a key among the first n events:
      event i happens at tick i + 1. */
  function LastInvalidation(events: seq<Event>, key: Key): nat {
    if events == [] then 0
    else if events[|events| - 1] == Invalidate(key) then |events|
    else LastInvalidation(events[..|events| - 1], key)
  }

  lemma {:induction false} LatestIsLast(max: nat, events: seq<Event>, key: Key)
    ensures Latest(Run(max, events), key) == LastInvalidation(events, key)
    ensures Run(max, events).tick == |events| + 1
  {
    if events == [] {
    } else {
      LatestIsLast(max, events[..|events| - 1], key);
    }
  }

  lemma DoKeepsFloor(s: State, max: nat, e: Event, t: nat)
    requires t in s.calls
    ensures var s' := Do(s, max, e);
      t in s'.calls && s'.calls[t].key == s.calls[t].key && s'.calls[t].floor == s.calls[t].floor
  {
  }

  lemma {:induction false} FloorIsKept(max: nat, events: seq<Event>, n: nat, t: nat)
    requires n < |events| && events[n].Looked? && events[n].t == t
    requires t !in Run(max, events[..n]).calls
    ensures t in Run(max, events).calls
    ensures var call := Run(max, events).calls[t];
      call.key == events[n].key && call.floor == Latest(Run(max, events[..n]), events[n].key)
  {
    var front := events[..|events| - 1];
    if n < |events| - 1 {
      assert front[..n] == events[..n];
      FloorIsKept(max, front, n, t);
      DoKeepsFloor(Run(max, front), max, events[|events| - 1], t);
    } else {
      assert front == events[..n];
    }
  }

  /** A call that looked at event n never returns rows whose source read began
      before an invalidation that came earlier than event n. */
  lemma {:induction false} CallsSeePastInvalidations(max: nat, events: seq<Event>, n: nat, t: nat)
    requires n < |events| && events[n].Looked? && events[n].t == t
    requires t !in Run(max, events[..n]).calls
    requires t in Run(max, events).calls && Run(max, events).calls[t].Returned?
    ensures Run(max, events).calls[t].key == events[n].key
    ensures Run(max, events).calls[t].rows > LastInvalidation(events[..n], events[n].key)
  {
    RunInv(max, events);
    FloorIsKept(max, events, n, t);
    LatestIsLast(max, events[..n], events[n].key);
    assert CallOk(Run(max, events), Run(max, events).calls[t]);
  }

  lemma OverlappingFetches(max: nat, key: Key, events: seq<Event>)
    requires max >= 1
    requires events == [Looked(0, key, 0.0, 1.0), FetchBegan(0), Looked(1, key, 0.0, 1.0), FetchBegan(1), FetchEnded(1)]
    ensures var s := Run(max, events);
      && s.cache == Cache([Entry(key, 0.0, 4)], map[])
      && 0 in s.calls && s.calls[0] == Fetching(key, 0.0, 0, 0, 2)
  {
    assert events[..4][..3] == events[..3] && events[..3][..2] == events[..2];
    assert events[..2][..1] == events[..1] && events[..1][..0] == [];
    var s1 := Do(START, max, events[0]);
    assert Run(max, events[..1]) == s1;
    var s2 := Do(s1, max, events[1]);
    assert Run(max, events[..2]) == s2;
    var s3 := Do(s2, max, events[2]);
    assert Run(max, events[..3]) == s3;
    var s4 := Do(s3, max, events[3]);
    assert Run(max, events[..4]) == s4;
    assert Others<nat>([], key) == [];
  }

  /** Reads of one key are not monotone: of two overlapping fetches the one that
      began first may install last, replacing newer rows with older ones. */
  lemma OlderRowsMayReplaceNewer(max: nat, key: Key)
    requires max >= 1
    ensures exists events: seq<Event>, e: Event ::
      var s, s' := Run(max, events), Do(Run(max, events), max, e);
      && Find(s.cache.lru, key).Some? && Find(s'.cache.lru, key).Some?
      && Find(s'.cache.lru, key).value.rows < Find(s.cache.lru, key).value.rows
  {
    var events := [Looked(0, key, 0.0, 1.0), FetchBegan(0), Looked(1, key, 0.0, 1.0), FetchBegan(1), FetchEnded(1)];
    var s := Run(max, events);
    OverlappingFetches(max, key, events);
    InstallRespectsTheBound(s.cache, key, 0.0, 2, max);
    assert Find(Do(s, max, FetchEnded(0)).cache.lru, key).value.rows == 2;
  }
}
