/** The process-wide embedded recall store: every partition's rows and LSN
    counter, updated in place. Each method is one critical section. */
module MemRecall {
  import opened Records
  import opened Seqs
  import opened Memtable
  import opened RecallSearch

  predicate LsnLe(a: Entry, b: Entry) {
    a.row.lsn <= b.row.lsn
  }

  /** The partition a key denotes; an absent key is an empty partition. */
  function PartitionOf(parts: map<Key, map<Id, Row>>, lsn: map<Key, nat>, key: Key): Partition {
    Partition(if key in parts then parts[key] else map[], if key in lsn then lsn[key] else 0)
  }

  lemma {:induction false} CandidatesSnoc(s: seq<Entry>, e: Entry, q: seq<real>, flt: Meta)
    ensures Candidates(s + [e], q, flt)
            == Candidates(s, q, flt) + (if IsCandidate(e, flt) then [MatchOf(e, q)] else [])
  {
    if s == [] {
      assert s + [e] == [e];
    } else {
      assert (s + [e])[0] == s[0] && (s + [e])[1..] == s[1..] + [e];
      CandidatesSnoc(s[1..], e, q, flt);
      var head := if IsCandidate(s[0], flt) then [MatchOf(s[0], q)] else [];
      assert Candidates(s + [e], q, flt) == head + Candidates(s[1..] + [e], q, flt);
      assert Candidates(s, q, flt) == head + Candidates(s[1..], q, flt);
    }
  }

  /** The loop over a copied snapshot: every id suppresses, and the live
      filter-passing rows are scored. */
  method SplitAndScore(snapshot: seq<Entry>, q: seq<real>, flt: Meta)
    returns (suppress: set<Id>, scored: seq<Match>)
    ensures suppress == set e | e in snapshot :: e.id
    ensures scored == Candidates(snapshot, q, flt)
  {
    suppress, scored := {}, [];
    var i := 0;
    while i < |snapshot|
      invariant 0 <= i <= |snapshot|
      invariant suppress == set e | e in snapshot[..i] :: e.id
      invariant scored == Candidates(snapshot[..i], q, flt)
    {
      var e := snapshot[i];
      assert snapshot[..i + 1] == snapshot[..i] + [e];
      CandidatesSnoc(snapshot[..i], e, q, flt);
      i := i + 1;
      suppress := suppress + {e.id};
      if e.row.deleted {
        continue;
      }
      var ok := MetadataMatchesFilter(e.row.payload.metadata, flt);
      if ok {
        scored := scored + [MatchOf(e, q)];
      }
    }
    assert snapshot[..i] == snapshot;
  }

  /** Batch deduplication: a later record for an id replaces the earlier one
      and takes its place at the end of the batch. */
  method KeepLast(records: seq<Record>) returns (winners: seq<Record>)
    ensures winners == Dedup(records)
  {
    winners := [];
    var i := 0;
    while i < |records|
      invariant 0 <= i <= |records|
      invariant winners == Dedup(records[..i])
    {
      assert records[..i + 1][..i] == records[..i];
      winners := Without(winners, records[i].id) + [records[i]];
      i := i + 1;
    }
    assert records[..i] == records;
  }

  /** Write the winners under the LSN block that ends at `last`. */
  method StampBlock(rows: map<Id, Row>, winners: seq<Record>, last: nat) returns (part: map<Id, Row>)
    requires |winners| <= last
    ensures part == Stamp(rows, winners, last - |winners|)
  {
    part := rows;
    var offset := 0;
    while offset < |winners|
      invariant 0 <= offset <= |winners|
      invariant part == Stamp(rows, winners[..offset], last - |winners|)
    {
      assert winners[..offset + 1][..offset] == winners[..offset];
      part := part[winners[offset].id := Row(winners[offset].payload, last - |winners| + 1 + offset, false)];
      offset := offset + 1;
    }
    assert winners[..offset] == winners;
  }

  lemma AboveDropsVictims(rows: map<Id, Row>, grace: int)
    ensures var victims := set id | id in rows && rows[id].lsn <= grace;
      rows - victims == Above(rows, grace) && |rows| - |Above(rows, grace)| == |victims|
  {
    var victims := set id | id in rows && rows[id].lsn <= grace;
    assert Above(rows, grace).Keys == rows.Keys - victims;
    assert |rows.Keys| == |rows.Keys - victims| + |victims|;
    assert |rows| == |rows.Keys| && |Above(rows, grace)| == |Above(rows, grace).Keys|;
  }

  /** Delete the victims one by one. */
  method DropAll(rows: map<Id, Row>, victims: set<Id>) returns (part: map<Id, Row>)
    ensures part == rows - victims
  {
    part := rows;
    var pending := victims;
    while pending != {}
      invariant forall id :: id in pending ==> id in victims
      invariant forall id :: id in part <==> id in rows && (id in victims ==> id in pending)
      invariant forall id :: id in part ==> part[id] == rows[id]
      decreases |pending|
    {
      var id :| id in pending;
      pending := pending - {id};
      part := part - {id};
    }
  }

  lemma SuppressIsEverythingAbove(s: seq<Entry>, rows: map<Id, Row>, watermark: int)
    requires Enumerates(s, Above(rows, watermark))
    ensures forall id :: id in (set e | e in s :: e.id) <==> StatusOf(rows, id, watermark) != Absent
  {
    forall id | StatusOf(rows, id, watermark) != Absent ensures id in set e | e in s :: e.id {
      assert Entry(id, rows[id]) in s;
    }
  }

  lemma SortKeepsEnumeration(a: seq<Entry>, b: seq<Entry>, rows: map<Id, Row>)
    requires Enumerates(a, rows) && multiset(a) == multiset(b)
    ensures Enumerates(b, rows)
  {
    PermutationDistinct(a, b);
    forall i, j | 0 <= i < j < |b| ensures b[i].id != b[j].id {
      assert b[i] != b[j] && b[i] in a && b[j] in a;
    }
  }

  lemma SortedListing(unsorted: seq<Entry>, rows: map<Id, Row>)
    requires Enumerates(unsorted, rows)
    ensures var s := SortBy(unsorted, LsnLe);
            Enumerates(s, rows) && Sorted(s, LsnLe)
            && IsMaxLsn(rows, if s != [] then s[|s| - 1].row.lsn else 0)
  {
    var s := SortBy(unsorted, LsnLe);
    SortBySorts(unsorted, LsnLe);
    SortKeepsEnumeration(unsorted, s, rows);
    forall id | id in rows ensures s != [] && rows[id].lsn <= s[|s| - 1].row.lsn {
      assert Entry(id, rows[id]) in s;
      var k :| 0 <= k < |s| && s[k] == Entry(id, rows[id]);
    }
    if s != [] {
      assert s[|s| - 1] in s;
      assert s[|s| - 1].id in rows;
    }
  }

  class Store {
    var parts: map<Key, map<Id, Row>>
    var lsn: map<Key, nat>

    function At(key: Key): Partition
      reads this
    {
      PartitionOf(parts, lsn, key)
    }

    /** Every partition but one is as it was. */
    twostate predicate OthersUnchanged(key: Key)
      reads this
    {
      forall k: Key :: k != key ==> PartitionOf(parts, lsn, k) == PartitionOf(old(parts), old(lsn), k)
    }

    constructor ()
      ensures forall key :: At(key) == Partition(map[], 0)
    {
      parts, lsn := map[], map[];
    }

    /** Reserve a block of n LSNs; the caller owns last - n + 1 .. last. */
    method AllocBlock(key: Key, n: nat) returns (last: nat)
      modifies this`lsn
      ensures last == old(At(key).last) + n
      ensures At(key) == old(At(key)).(last := last)
      ensures OthersUnchanged(key)
    {
      var cur := if key in lsn then lsn[key] else 0;
      last := cur + n;
      lsn := lsn[key := last];
    }

    method UpsertVectors(key: Key, records: seq<Record>) returns (n: nat)
      modifies this
      ensures At(key) == Upsert(old(At(key)), records)
      ensures n == |Dedup(records)|
      ensures OthersUnchanged(key)
    {
      if records == [] {
        return 0;
      }
      var winners := KeepLast(records);
      n := |winners|;
      var last := AllocBlock(key, n);
      var part := StampBlock(if key in parts then parts[key] else map[], winners, last);
      parts := parts[key := part];
    }

    method DeleteVector(key: Key, id: Id, dimension: int) returns (stamp: nat)
      modifies this
      ensures At(key) == Delete(old(At(key)), id, dimension)
      ensures stamp == At(key).last == old(At(key)).last + 1
      ensures OthersUnchanged(key)
    {
      var tombstone := Tombstone(At(key), id, dimension);
      stamp := AllocBlock(key, 1);
      var part := if key in parts then parts[key] else map[];
      parts := parts[key := part[id := tombstone]];
    }

    /** _snapshot_above: copy every row above the watermark, once each. */
    method SnapshotAbove(key: Key, watermark: int) returns (s: seq<Entry>)
      ensures Enumerates(s, Above(At(key).rows, watermark))
    {
      var rows := At(key).rows;
      var pending := rows.Keys;
      s := [];
      while pending != {}
        invariant pending <= rows.Keys
        invariant forall i, j :: 0 <= i < j < |s| ==> s[i].id != s[j].id
        invariant forall e :: e in s <==>
          e.id in rows.Keys - pending && rows[e.id] == e.row && e.row.lsn > watermark
        decreases |pending|
      {
        var id :| id in pending;
        pending := pending - {id};
        if rows[id].lsn > watermark {
          assert forall i :: 0 <= i < |s| ==> s[i] in s;
          s := s + [Entry(id, rows[id])];
        }
      }
    }

    /** Exact search above a watermark: which cold copies to suppress, and the
        nearest filter-passing live rows. */
    method Search(key: Key, q: seq<real>, k: int, watermark: int, flt: Meta)
      returns (suppress: set<Id>, matches: seq<Match>)
      ensures forall id :: id in suppress <==> StatusOf(At(key).rows, id, watermark) != Absent
      ensures var rows := At(key).rows;
              NearestOf(matches, m => InPool(m, rows, watermark, q, flt), k)
    {
      ghost var rows := At(key).rows;
      var snapshot := SnapshotAbove(key, watermark);
      var scored;
      suppress, scored := SplitAndScore(snapshot, q, flt);
      SuppressIsEverythingAbove(snapshot, rows, watermark);
      SortedCandidatesAreNearest(snapshot, rows, watermark, q, flt, k);
      matches := Take(SortBy(scored, Nearer), k);
    }

    method GetVector(key: Key, id: Id, watermark: int) returns (status: Status)
      ensures status == StatusOf(At(key).rows, id, watermark)
    {
      var part := if key in parts then parts[key] else map[];
      if id !in part || part[id].lsn <= watermark {
        return Absent;
      }
      if part[id].deleted {
        return Tombstoned;
      }
      return Live(part[id].payload.metadata);
    }

    method ListRows(key: Key, watermark: int) returns (live: seq<(Id, Meta)>, suppress: set<Id>)
      ensures forall id :: id in suppress <==> StatusOf(At(key).rows, id, watermark) != Absent
      ensures forall i, j :: 0 <= i < j < |live| ==> live[i].0 != live[j].0
      ensures forall id, meta :: (id, meta) in live <==> StatusOf(At(key).rows, id, watermark) == Live(meta)
    {
      ghost var rows := At(key).rows;
      var snapshot := SnapshotAbove(key, watermark);
      suppress, live := {}, [];
      var i := 0;
      while i < |snapshot|
        invariant 0 <= i <= |snapshot|
        invariant suppress == set e | e in snapshot[..i] :: e.id
        invariant forall a, b :: 0 <= a < b < |live| ==> live[a].0 != live[b].0
        invariant forall l :: l in live <==>
          exists e :: e in snapshot[..i] && !e.row.deleted && l == (e.id, e.row.payload.metadata)
      {
        var e := snapshot[i];
        assert snapshot[..i + 1] == snapshot[..i] + [e];
        suppress := suppress + {e.id};
        if !e.row.deleted {
          assert forall a :: 0 <= a < |live| ==> live[a] in live;
          assert forall d :: d in snapshot[..i] ==> d.id != e.id;
          live := live + [(e.id, e.row.payload.metadata)];
        }
        i := i + 1;
      }
      assert snapshot[..i] == snapshot;
      SuppressIsEverythingAbove(snapshot, rows, watermark);
      forall id, meta | StatusOf(rows, id, watermark) == Live(meta) ensures (id, meta) in live {
        assert Entry(id, rows[id]) in snapshot;
      }
    }

    /** Copy a whole partition, oldest LSN first, with its highest LSN. */
    method SnapshotForConsolidation(key: Key) returns (maxLsn: nat, s: seq<Entry>)
      ensures Enumerates(s, At(key).rows)
      ensures Sorted(s, LsnLe)
      ensures IsMaxLsn(At(key).rows, maxLsn)
    {
      var unsorted := SnapshotAbove(key, -1);
      assert Above(At(key).rows, -1) == At(key).rows;
      s := SortBy(unsorted, LsnLe);
      SortedListing(unsorted, At(key).rows);
      maxLsn := if s != [] then s[|s| - 1].row.lsn else 0;
    }

    /** Drop rows at or below the grace watermark; the counter stays. */
    method TrimTo(key: Key, grace: int) returns (n: nat)
      modifies this`parts
      ensures At(key) == Trim(old(At(key)), grace)
      ensures n == |old(At(key)).rows| - |At(key).rows|
      ensures OthersUnchanged(key)
    {
      if grace <= 0 || key !in parts {
        assert Above(map[], grace) == map[];
        return 0;
      }
      var part := parts[key];
      var victims := set id | id in part && part[id].lsn <= grace;
      n := |victims|;
      AboveDropsVictims(part, grace);
      part := DropAll(part, victims);
      parts := parts[key := part];
    }
  }
}
