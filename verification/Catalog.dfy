/** The in-memory shard catalog: one list of rows for every dataset, an id
    counter, and newest-first listings. */
module Catalog {
  import opened Records
  import opened Seqs
  import opened ShardGenerations

  datatype CatalogRow = CatalogRow(key: Key, shard: Shard)

  predicate NewestFirst(a: CatalogRow, b: CatalogRow) {
    a.shard.id >= b.shard.id
  }

  function OfDataset(key: Key): CatalogRow -> bool { (r: CatalogRow) => r.key == key }

  function Kept(key: Key, ids: set<nat>): CatalogRow -> bool {
    (r: CatalogRow) => !(r.key == key && r.shard.id in ids)
  }

  function ShardsOf(rows: seq<CatalogRow>): seq<Shard> {
    if rows == [] then [] else [rows[0].shard] + ShardsOf(rows[1..])
  }

  /** list_shards: sort the whole table by id, newest first, then pick the dataset. */
  function Listing(rows: seq<CatalogRow>, key: Key): seq<Shard> {
    ShardsOf(Filter(SortBy(rows, NewestFirst), OfDataset(key)))
  }

  ghost predicate Ascending(rows: seq<CatalogRow>, last: nat) {
    && (forall i, j :: 0 <= i < j < |rows| ==> rows[i].shard.id < rows[j].shard.id)
    && (forall i :: 0 <= i < |rows| ==> rows[i].shard.id <= last)
  }

  lemma {:induction false} ShardsOfConcat(a: seq<CatalogRow>, b: seq<CatalogRow>)
    ensures ShardsOf(a + b) == ShardsOf(a) + ShardsOf(b)
  {
    if a == [] {
      assert a + b == b;
    } else {
      assert (a + b)[1..] == a[1..] + b;
      ShardsOfConcat(a[1..], b);
    }
  }

  lemma {:induction false} NewestToTheHead(rows: seq<CatalogRow>, row: CatalogRow)
    requires forall i :: 0 <= i < |rows| ==> rows[i].shard.id < row.shard.id
    ensures SortBy(rows + [row], NewestFirst) == [row] + SortBy(rows, NewestFirst)
  {
    if rows == [] {
      assert rows + [row] == [row] && [row][1..] == [];
      assert SortBy([row][1..], NewestFirst) == [];
    } else {
      var tail := rows[1..];
      assert (rows + [row])[1..] == tail + [row];
      NewestToTheHead(tail, row);
      assert ([row] + SortBy(tail, NewestFirst))[1..] == SortBy(tail, NewestFirst);
    }
  }

  /** A row with an id above all others sorts to the head. */
  lemma AppendListing(rows: seq<CatalogRow>, row: CatalogRow)
    requires forall i :: 0 <= i < |rows| ==> rows[i].shard.id < row.shard.id
    requires forall i, j :: 0 <= i < j < |rows| ==> rows[i].shard.id < rows[j].shard.id
    ensures forall k: Key ::
      Listing(rows + [row], k) == (if k == row.key then [row.shard] else []) + Listing(rows, k)
  {
    NewestToTheHead(rows, row);
    forall k: Key ensures Listing(rows + [row], k) == (if k == row.key then [row.shard] else []) + Listing(rows, k) {
      FilterCons(row, SortBy(rows, NewestFirst), OfDataset(k));
      ShardsOfConcat(if k == row.key then [row] else [], Filter(SortBy(rows, NewestFirst), OfDataset(k)));
      assert ShardsOf([row]) == [row.shard] + ShardsOf([row][1..]);
    }
  }

  lemma NewestFirstIsOrder()
    ensures IsOrder(NewestFirst)
  {
  }

  lemma {:induction false} ShardsOfAt(rows: seq<CatalogRow>)
    ensures |ShardsOf(rows)| == |rows|
    ensures forall i :: 0 <= i < |rows| ==> ShardsOf(rows)[i] == rows[i].shard
  {
    if rows == [] {
    } else {
      ShardsOfAt(rows[1..]);
    }
  }

  lemma ListingMembers(rows: seq<CatalogRow>, key: Key)
    ensures forall s :: s in Listing(rows, key) <==> exists r :: r in rows && r.key == key && r.shard == s
  {
    var picked := Filter(SortBy(rows, NewestFirst), OfDataset(key));
    NewestFirstIsOrder();
    SortBySorts(rows, NewestFirst);
    FilterMembers(SortBy(rows, NewestFirst), OfDataset(key));
    ShardsOfAt(picked);
    forall r | r in rows && r.key == key ensures r.shard in Listing(rows, key) {
      assert r in picked;
      var i :| 0 <= i < |picked| && picked[i] == r;
      assert ShardsOf(picked)[i] == r.shard;
    }
    forall s | s in Listing(rows, key) ensures exists r :: r in rows && r.key == key && r.shard == s {
      var i :| 0 <= i < |picked| && ShardsOf(picked)[i] == s;
      assert picked[i] in picked;
    }
  }

  lemma SortedDescends(rows: seq<CatalogRow>, last: nat)
    requires Ascending(rows, last)
    ensures var o := SortBy(rows, NewestFirst);
      forall i, j :: 0 <= i < j < |o| ==> o[i].shard.id > o[j].shard.id
  {
    var o := SortBy(rows, NewestFirst);
    SortBySorts(rows, NewestFirst);
    PermutationDistinct(rows, o);
    forall i, j | 0 <= i < j < |o| ensures o[i].shard.id > o[j].shard.id {
      assert NewestFirst(o[i], o[j]) && o[i] != o[j];
      assert o[i] in rows && o[j] in rows;
    }
  }

  lemma ListingNewestFirst(rows: seq<CatalogRow>, last: nat, key: Key)
    requires Ascending(rows, last)
    ensures var shards := Listing(rows, key);
      forall i, j :: 0 <= i < j < |shards| ==> shards[i].id > shards[j].id
  {
    var o := SortBy(rows, NewestFirst);
    SortBySorts(rows, NewestFirst);
    SortedDescends(rows, last);
    var f := Filter(o, OfDataset(key));
    FilterSorted(o, OfDataset(key), (a: CatalogRow, b: CatalogRow) => a.shard.id > b.shard.id);
    ShardsOfAt(f);
  }

  lemma {:induction false} KeptWithin(rows: seq<CatalogRow>, key: Key, ids: set<nat>, k: Key)
    requires forall r :: r in rows ==> r.key == k
    ensures ShardsOf(Filter(rows, Kept(key, ids)))
      == if k == key then Filter(ShardsOf(rows), IdNotIn(ids)) else ShardsOf(rows)
  {
    if rows == [] {
    } else {
      assert rows[0] in rows;
      KeptWithin(rows[1..], key, ids, k);
      ShardsOfConcat(if Kept(key, ids)(rows[0]) then [rows[0]] else [], Filter(rows[1..], Kept(key, ids)));
      FilterCons(rows[0].shard, ShardsOf(rows[1..]), IdNotIn(ids));
    }
  }

  lemma DeleteListing(rows: seq<CatalogRow>, last: nat, key: Key, ids: set<nat>, k: Key)
    requires Ascending(rows, last)
    ensures Listing(Filter(rows, Kept(key, ids)), k)
      == if k == key then Filter(Listing(rows, k), IdNotIn(ids)) else Listing(rows, k)
  {
    var p := Kept(key, ids);
    var o := SortBy(rows, NewestFirst);
    SortFilterCommute(rows, p, NewestFirst);
    FilterCommutes(o, p, OfDataset(k));
    FilterMembers(o, OfDataset(k));
    KeptWithin(Filter(o, OfDataset(k)), key, ids, k);
  }

  class MemCatalog {
    var rows: seq<CatalogRow>
    var lastId: nat

    ghost predicate Valid()
      reads this
    {
      Ascending(rows, lastId)
    }

    constructor ()
      ensures Valid() && rows == [] && lastId == 0
    {
      rows, lastId := [], 0;
    }

    /** Insert a row under a fresh id; it heads its dataset's listing. */
    method AddShard(key: Key, draft: Shard) returns (id: nat)
      requires Valid()
      modifies this
      ensures Valid() && id == lastId == old(lastId) + 1
      ensures Listing(rows, key) == [draft.(id := id)] + Listing(old(rows), key)
      ensures forall k: Key :: k != key ==> Listing(rows, k) == Listing(old(rows), k)
    {
      lastId := lastId + 1;
      var row := CatalogRow(key, draft.(id := lastId));
      AppendListing(rows, row);
      rows := rows + [row];
      id := lastId;
    }

    method ListShards(key: Key) returns (shards: seq<Shard>)
      requires Valid()
      ensures shards == Listing(rows, key)
      ensures DistinctShardIds(shards)
      ensures forall i, j :: 0 <= i < j < |shards| ==> shards[i].id > shards[j].id
      ensures forall s :: s in shards <==> exists r :: r in rows && r.key == key && r.shard == s
    {
      shards := Listing(rows, key);
      ListingNewestFirst(rows, lastId, key);
      ListingMembers(rows, key);
    }

    /** Delete rows by id, within one dataset only. */
    method DeleteShards(key: Key, ids: set<nat>) returns (n: nat)
      requires Valid()
      modifies this`rows
      ensures Valid()
      ensures n == |old(rows)| - |rows|
      ensures Listing(rows, key) == Filter(Listing(old(rows), key), IdNotIn(ids))
      ensures forall k: Key :: k != key ==> Listing(rows, k) == Listing(old(rows), k)
    {
      var before := |rows|;
      FilterMembers(rows, Kept(key, ids));
      forall k: Key
        ensures Listing(Filter(rows, Kept(key, ids)), k)
          == if k == key then Filter(Listing(rows, k), IdNotIn(ids)) else Listing(rows, k)
      {
        DeleteListing(rows, lastId, key, ids, k);
      }
      FilterSorted(rows, Kept(key, ids), (a: CatalogRow, b: CatalogRow) => a.shard.id < b.shard.id);
      ghost var left := Filter(rows, Kept(key, ids));
      assert forall i :: 0 <= i < |left| ==> left[i] in left;
      rows := Filter(rows, Kept(key, ids));
      n := before - |rows|;
    }
  }
}
