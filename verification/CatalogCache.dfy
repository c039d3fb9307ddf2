/** The per-dataset cache of catalog listings: time-bounded, LRU-capped, and
    checked against a generation counter because the fetch runs outside the
    lock. Rows are whatever the source returned. */
module CatalogCache {
  import opened Records
  import opened Seqs

  datatype Entry<R> = Entry(key: Key, storedAt: real, rows: R)

  /** The cached entries from LRU to MRU, and every key's invalidation count. */
  datatype Cache<R> = Cache(lru: seq<Entry<R>>, gen: map<Key, nat>)

  function KeyIsNot<R>(key: Key): Entry<R> -> bool { (e: Entry<R>) => e.key != key }

  function Others<R>(lru: seq<Entry<R>>, key: Key): seq<Entry<R>> { Filter(lru, KeyIsNot(key)) }

  function Find<R>(lru: seq<Entry<R>>, key: Key): (r: Option<Entry<R>>)
    ensures r.Some? ==> r.value in lru && r.value.key == key
    ensures r.None? ==> forall e :: e in lru ==> e.key != key
  {
    if lru == [] then None else if lru[0].key == key then Some(lru[0]) else Find(lru[1..], key)
  }

  function Gen<R>(c: Cache<R>, key: Key): nat { if key in c.gen then c.gen[key] else 0 }

  /** The entry a lookup may serve: present and younger than the bound. */
  function Hit<R>(c: Cache<R>, key: Key, now: real, ttl: real): Option<Entry<R>> {
    var found := Find(c.lru, key);
    if found.Some? && now - found.value.storedAt < ttl then found else None
  }

  function Touched<R>(c: Cache<R>, key: Key, now: real, ttl: real): Cache<R> {
    var hit := Hit(c, key, now, ttl);
    if hit.None? then c else c.(lru := Others(c.lru, key) + [hit.value])
  }

  /** The newest `max` entries. */
  function Newest<R>(lru: seq<Entry<R>>, max: nat): seq<Entry<R>> {
    if |lru| <= max then lru else lru[|lru| - max..]
  }

  function Installed<R>(c: Cache<R>, key: Key, now: real, rows: R, genPre: nat, max: nat): Cache<R> {
    if Gen(c, key) != genPre then c
    else c.(lru := Newest(Others(c.lru, key) + [Entry(key, now, rows)], max))
  }

  function Invalidated<R>(c: Cache<R>, key: Key): Cache<R> {
    Cache(Others(c.lru, key), c.gen[key := Gen(c, key) + 1])
  }

  ghost predicate DistinctKeys<R(!new)>(lru: seq<Entry<R>>) {
    forall i, j :: 0 <= i < j < |lru| ==> lru[i].key != lru[j].key
  }

  lemma {:induction false} OthersDistinct<R(!new)>(lru: seq<Entry<R>>, key: Key)
    requires DistinctKeys(lru)
    ensures DistinctKeys(Others(lru, key))
    ensures forall e :: e in Others(lru, key) <==> e in lru && e.key != key
    ensures |Others(lru, key)| == |lru| - (if Find(lru, key).Some? then 1 else 0)
  {
    FilterMembers(lru, KeyIsNot(key));
    if lru == [] {
    } else {
      OthersDistinct(lru[1..], key);
      FilterMembers(lru[1..], KeyIsNot(key));
      forall e | e in Others(lru[1..], key) ensures e.key != lru[0].key {}
      if lru[0].key == key {
        assert Find(lru[1..], key).None?;
      }
    }
  }

  lemma PlacedDistinct<R(!new)>(lru: seq<Entry<R>>, e: Entry<R>)
    requires DistinctKeys(lru)
    ensures DistinctKeys(Others(lru, e.key) + [e])
  {
    OthersDistinct(lru, e.key);
    var others := Others(lru, e.key);
    forall i | 0 <= i < |others| ensures others[i].key != e.key { assert others[i] in others; }
  }

  /** An install gives up only the oldest entries, and no more than it must. */
  lemma OnlyTheOldestGo<R>(c: Cache<R>, key: Key, now: real, rows: R, max: nat) returns (gone: seq<Entry<R>>)
    ensures var kept := Installed(c, key, now, rows, Gen(c, key), max).lru;
      && gone + kept == Others(c.lru, key) + [Entry(key, now, rows)]
      && (gone == [] || |kept| == max)
  {
    var all := Others(c.lru, key) + [Entry(key, now, rows)];
    gone := all[..|all| - |Newest(all, max)|];
  }

  lemma {:induction false} FindIn<R(!new)>(lru: seq<Entry<R>>, e: Entry<R>)
    requires DistinctKeys(lru) && e in lru
    ensures Find(lru, e.key) == Some(e)
  {
    if lru[0].key != e.key {
      FindIn(lru[1..], e);
    }
  }

  /** A lookup is served exactly when the key has an entry stored less than the time
      bound ago, and then with that entry. */
  lemma ServedIffYoung<R(!new)>(c: Cache<R>, key: Key, now: real, ttl: real)
    requires DistinctKeys(c.lru)
    ensures Hit(c, key, now, ttl).Some? <==> exists e :: e in c.lru && e.key == key && now - e.storedAt < ttl
    ensures forall e :: e in c.lru && e.key == key && now - e.storedAt < ttl ==> Hit(c, key, now, ttl) == Some(e)
  {
    forall e | e in c.lru && e.key == key ensures Find(c.lru, key) == Some(e) {
      FindIn(c.lru, e);
    }
  }

  /** A lookup that is served moves its entry to the MRU end and keeps all others in
      their order; one that is not changes nothing. */
  lemma HitMovesToTheEnd<R(!new)>(c: Cache<R>, key: Key, now: real, ttl: real)
    requires DistinctKeys(c.lru)
    ensures var c', hit := Touched(c, key, now, ttl), Hit(c, key, now, ttl);
      if hit.None? then c' == c
      else
        && c'.gen == c.gen && |c'.lru| == |c.lru|
        && c'.lru[|c.lru| - 1] == hit.value && c'.lru[..|c.lru| - 1] == Filter(c.lru, (e: Entry<R>) => e.key != key)
  {
    OthersDistinct(c.lru, key);
    FilterCongruent(c.lru, KeyIsNot(key), (e: Entry<R>) => e.key != key);
  }

  /** An invalidation takes away the key's entry and nothing else, and moves the key's
      generation and no other. */
  lemma InvalidatesOneKey<R(!new)>(c: Cache<R>, key: Key, other: Key)
    requires DistinctKeys(c.lru)
    ensures var c' := Invalidated(c, key);
      && c'.lru == Filter(c.lru, (e: Entry<R>) => e.key != key)
      && Gen(c', key) == Gen(c, key) + 1 && (other != key ==> Gen(c', other) == Gen(c, other))
  {
    FilterCongruent(c.lru, KeyIsNot(key), (e: Entry<R>) => e.key != key);
  }

  /** After an install the bound holds, one entry per key, and the entry just
      installed is there exactly when the bound allows any at all. */
  lemma InstallRespectsTheBound<R(!new)>(c: Cache<R>, key: Key, now: real, rows: R, max: nat)
    requires DistinctKeys(c.lru)
    ensures var c' := Installed(c, key, now, rows, Gen(c, key), max);
      && DistinctKeys(c'.lru) && |c'.lru| <= max
      && (Find(c'.lru, key) == Some(Entry(key, now, rows)) <==> max >= 1)
      && (forall e :: e in c'.lru ==> e in c.lru || e == Entry(key, now, rows))
  {
    var e := Entry(key, now, rows);
    PlacedDistinct(c.lru, e);
    OthersDistinct(c.lru, key);
    var all := Others(c.lru, key) + [e];
    var c' := Installed(c, key, now, rows, Gen(c, key), max);
    assert c'.lru == Newest(all, max);
    if max >= 1 {
      assert c'.lru[|c'.lru| - 1] == e;
      FindIn(c'.lru, e);
    }
  }

  // ----- as updated in place -----

  class ListingCache<R(!new)> {
    const maxEntries: nat
    var lru: seq<Entry<R>>
    var gen: map<Key, nat>

    function View(): Cache<R>
      reads this
    {
      Cache(lru, gen)
    }

    ghost predicate Valid()
      reads this
    {
      DistinctKeys(lru) && |lru| <= maxEntries
    }

    constructor (maxEntries: nat)
      ensures Valid() && this.maxEntries == maxEntries && View() == Cache([], map[])
    {
      this.maxEntries := maxEntries;
      lru, gen := [], map[];
    }

    /** The first critical section of a read: serve a hit, or capture the
        generation the fetch will be checked against. */
    method Look(key: Key, now: real, ttl: real) returns (rows: Option<R>, genPre: nat)
      requires Valid()
      modifies this`lru
      ensures Valid() && View() == Touched(old(View()), key, now, ttl)
      ensures genPre == Gen(old(View()), key)
      ensures var hit := Hit(old(View()), key, now, ttl); rows == if hit.Some? then Some(hit.value.rows) else None
    {
      genPre := Gen(View(), key);
      var entry := Find(lru, key);
      if entry.Some? && now - entry.value.storedAt < ttl {
        PlacedDistinct(lru, entry.value);
        OthersDistinct(lru, key);
        lru := Others(lru, key) + [entry.value];
        return Some(entry.value.rows), genPre;
      }
      rows := None;
    }

    /** The second critical section: install what the fetch returned, unless an
        invalidation moved the generation meanwhile. */
    method Install(key: Key, now: real, rows: R, genPre: nat)
      requires Valid()
      modifies this`lru
      ensures Valid() && View() == Installed(old(View()), key, now, rows, genPre, maxEntries)
    {
      if Gen(View(), key) != genPre {
        return;
      }
      PlacedDistinct(lru, Entry(key, now, rows));
      lru := Others(lru, key) + [Entry(key, now, rows)];
      ghost var all, k := lru, 0;
      while |lru| > maxEntries
        invariant 0 <= k <= |all| && lru == all[k..]
        invariant k == 0 || |lru| >= maxEntries
      {
        lru := lru[1..];
        k := k + 1;
      }
    }

    method Invalidate(key: Key) returns (removed: bool)
      requires Valid()
      modifies this
      ensures Valid() && View() == Invalidated(old(View()), key)
      ensures removed <==> Find(old(lru), key).Some?
      ensures Find(lru, key).None?
    {
      OthersDistinct(lru, key);
      gen := gen[key := Gen(View(), key) + 1];
      removed := Find(lru, key).Some?;
      lru := Others(lru, key);
    }
  }
}
