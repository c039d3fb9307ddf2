/** The embedded recall tier: per-(tenant, dataset) partitions of rows stamped
    with increasing log sequence numbers (LSNs). */
module Memtable {
  import opened Records
  import opened Seqs

  datatype Row = Row(payload: Payload, lsn: nat, deleted: bool)

  /** One row together with the id it is stored under. */
  datatype Entry = Entry(id: Id, row: Row)

  /** One partition and its LSN counter. The counter survives trims. */
  datatype Partition = Partition(rows: map<Id, Row>, last: nat)

  // ----- batch deduplication -----

  function Without(records: seq<Record>, id: Id): seq<Record> {
    Filter(records, (r: Record) => r.id != id)
  }

  /** The batch's winners: the last occurrence of each id, at the position of
      that last occurrence. */
  function Dedup(records: seq<Record>): seq<Record> {
    if records == [] then []
    else
      var r := records[|records| - 1];
      Without(Dedup(records[..|records| - 1]), r.id) + [r]
  }

  // ----- specifications of the mutations -----

  function Stamp(rows: map<Id, Row>, winners: seq<Record>, last: nat): map<Id, Row>
    decreases |winners|
  {
    if winners == [] then rows
    else
      var n := |winners|;
      Stamp(rows, winners[..n - 1], last)[winners[n - 1].id := Row(winners[n - 1].payload, last + n, false)]
  }

  function Upsert(p: Partition, records: seq<Record>): Partition {
    var winners := Dedup(records);
    Partition(Stamp(p.rows, winners, p.last), p.last + |winners|)
  }

  /** A tombstone keeps an existing row's payload; a new one gets a zero vector
      of the dataset's dimension and no metadata. */
  function Tombstone(p: Partition, id: Id, dimension: int): Row {
    var payload := if id in p.rows then p.rows[id].payload
                   else Payload(seq(if dimension < 1 then 1 else dimension, _ => 0.0), map[]);
    Row(payload, p.last + 1, true)
  }

  function Delete(p: Partition, id: Id, dimension: int): Partition {
    Partition(p.rows[id := Tombstone(p, id, dimension)], p.last + 1)
  }

  function Above(rows: map<Id, Row>, watermark: int): map<Id, Row> {
    rows - set id | id in rows && rows[id].lsn <= watermark
  }

  function Trim(p: Partition, grace: int): Partition {
    if grace <= 0 then p else p.(rows := Above(p.rows, grace))
  }

  /** What holds of every partition a run can reach: each row's LSN was issued
      by the counter, and no two rows share one. */
  ghost predicate Stamped(p: Partition) {
    && (forall id :: id in p.rows ==> 0 < p.rows[id].lsn <= p.last)
    && (forall a, b :: a in p.rows && b in p.rows && a != b ==> p.rows[a].lsn != p.rows[b].lsn)
  }

  // ----- facts about deduplication -----

  /** Where the batch mentions id for the last time; -1 when it never does. */
  function LastPos(records: seq<Record>, id: Id): (k: int)
    ensures -1 <= k < |records|
    ensures k >= 0 ==> records[k].id == id
    ensures forall j :: k < j < |records| ==> records[j].id != id
  {
    if records == [] then -1
    else if records[|records| - 1].id == id then |records| - 1
    else LastPos(records[..|records| - 1], id)
  }

  ghost predicate DistinctIds(records: seq<Record>) {
    forall i, j :: 0 <= i < j < |records| ==> records[i].id != records[j].id
  }

  ghost function IdsOf(records: seq<Record>): set<Id> {
    set r | r in records :: r.id
  }

  predicate Before(records: seq<Record>, x: Record, y: Record) {
    LastPos(records, x.id) < LastPos(records, y.id)
  }

  predicate IsLast(records: seq<Record>, r: Record) {
    LastPos(records, r.id) >= 0 && records[LastPos(records, r.id)] == r
  }

  /** The winners are exactly the last occurrences. */
  lemma {:induction false} DedupMembers(records: seq<Record>, r: Record)
    ensures r in Dedup(records) <==> IsLast(records, r)
  {
    if records == [] {
    } else {
      var n := |records| - 1;
      DedupMembers(records[..n], r);
      FilterMembers(Dedup(records[..n]), (x: Record) => x.id != records[n].id);
    }
  }

  /** The winners keep the order in which their last occurrences were sent. */
  lemma {:induction false} DedupOrder(records: seq<Record>)
    ensures Sorted(Dedup(records), (x, y) => Before(records, x, y))
  {
    if records == [] {
    } else {
      var n := |records| - 1;
      var r, front := records[n], records[..n];
      var kept, w := Dedup(front), Without(Dedup(front), r.id);
      DedupOrder(front);
      FilterMembers(kept, (x: Record) => x.id != r.id);
      FilterSorted(kept, (x: Record) => x.id != r.id, (x, y) => Before(front, x, y));
      forall k | 0 <= k < |w|
        ensures LastPos(records, w[k].id) == LastPos(front, w[k].id) < n
      {
        assert w[k] in w;
      }
    }
  }

  lemma DedupWinners(records: seq<Record>)
    ensures forall r :: r in Dedup(records) <==> IsLast(records, r)
    ensures Sorted(Dedup(records), (x, y) => Before(records, x, y))
  {
    forall r ensures r in Dedup(records) <==> IsLast(records, r) { DedupMembers(records, r); }
    DedupOrder(records);
  }

  lemma DedupDistinct(records: seq<Record>)
    ensures DistinctIds(Dedup(records))
  {
    DedupWinners(records);
  }

  lemma {:induction false} IdsCount(records: seq<Record>)
    requires DistinctIds(records)
    ensures |IdsOf(records)| == |records|
  {
    if records == [] {
    } else {
      var n := |records| - 1;
      var front := records[..n];
      IdsCount(front);
      assert records == front + [records[n]];
      assert IdsOf(records) == IdsOf(front) + {records[n].id};
      assert records[n].id !in IdsOf(front);
    }
  }

  /** One winner per distinct id. */
  lemma DedupCount(records: seq<Record>)
    ensures IdsOf(Dedup(records)) == IdsOf(records)
    ensures |Dedup(records)| == |IdsOf(records)|
  {
    DedupWinners(records);
    forall r | r in records ensures records[LastPos(records, r.id)] in Dedup(records) {
      var k :| 0 <= k < |records| && records[k] == r;
      assert LastPos(records, r.id) >= k;
    }
    DedupDistinct(records);
    IdsCount(Dedup(records));
  }

  lemma {:induction false} StampAt(rows: map<Id, Row>, winners: seq<Record>, last: nat, id: Id) returns (k: int)
    requires DistinctIds(winners)
    ensures -1 <= k < |winners|
    ensures k < 0 ==> forall j :: 0 <= j < |winners| ==> winners[j].id != id
    ensures k < 0 ==> (id in Stamp(rows, winners, last) <==> id in rows)
    ensures k < 0 && id in rows ==> Stamp(rows, winners, last)[id] == rows[id]
    ensures k >= 0 ==> winners[k].id == id && id in Stamp(rows, winners, last)
    ensures k >= 0 ==> Stamp(rows, winners, last)[id] == Row(winners[k].payload, last + 1 + k, false)
  {
    if winners == [] {
      k := -1;
    } else if winners[|winners| - 1].id == id {
      k := |winners| - 1;
    } else {
      k := StampAt(rows, winners[..|winners| - 1], last, id);
    }
  }

  /** What an upsert does to one id: position k among the winners, or -1. */
  lemma UpsertAt(p: Partition, records: seq<Record>, id: Id) returns (k: int)
    ensures -1 <= k < |Dedup(records)|
    ensures k < 0 <==> LastPos(records, id) < 0
    ensures k < 0 ==> (id in Upsert(p, records).rows <==> id in p.rows)
    ensures k < 0 && id in p.rows ==> Upsert(p, records).rows[id] == p.rows[id]
    ensures k >= 0 ==> id in Upsert(p, records).rows && Dedup(records)[k].id == id
    ensures k >= 0 ==> Upsert(p, records).rows[id]
                       == Row(records[LastPos(records, id)].payload, p.last + 1 + k, false)
  {
    DedupDistinct(records);
    DedupWinners(records);
    var w := Dedup(records);
    assert LastPos(records, id) >= 0 ==> records[LastPos(records, id)] in w;
    k := StampAt(p.rows, w, p.last, id);
    assert k >= 0 ==> w[k] in w;
  }

  /** A delete leaves a tombstone with the next LSN that keeps the row's payload, or
      a zero vector of the dataset's dimension, and no other id changes. */
  lemma DeleteAt(p: Partition, id: Id, dimension: int, other: Id)
    ensures var p' := Delete(p, id, dimension);
      && p'.last == p.last + 1
      && id in p'.rows && p'.rows[id].deleted && p'.rows[id].lsn == p.last + 1
      && (id in p.rows ==> p'.rows[id].payload == p.rows[id].payload)
      && (id !in p.rows ==>
            && p'.rows[id].payload.metadata == map[]
            && |p'.rows[id].payload.values| == (if dimension < 1 then 1 else dimension)
            && forall x :: x in p'.rows[id].payload.values ==> x == 0.0)
      && (other != id ==> (other in p'.rows <==> other in p.rows))
      && (other != id && other in p.rows ==> p'.rows[other] == p.rows[other])
  {
  }

  /** A trim drops the rows at or below the boundary, if that is positive, and none
      above it; the counter stays. */
  lemma TrimAt(p: Partition, grace: int, id: Id)
    ensures var p' := Trim(p, grace);
      && p'.last == p.last
      && (id in p'.rows <==> id in p.rows && (grace <= 0 || p.rows[id].lsn > grace))
      && (id in p'.rows ==> p'.rows[id] == p.rows[id])
  {
  }

  // ----- runs of mutations -----

  datatype Mutation = DoUpsert(records: seq<Record>) | DoDelete(id: Id, dimension: int) | DoTrim(grace: int)

  function Mutate(p: Partition, m: Mutation): Partition {
    match m
    case DoUpsert(records) => Upsert(p, records)
    case DoDelete(id, dimension) => Delete(p, id, dimension)
    case DoTrim(grace) => Trim(p, grace)
  }

  function MutateAll(p: Partition, ms: seq<Mutation>): Partition
    decreases |ms|
  {
    if ms == [] then p else MutateAll(Mutate(p, ms[0]), ms[1..])
  }

  /** A run is its mutations one after the other. */
  lemma {:induction false} MutateAllSnoc(p: Partition, ms: seq<Mutation>, m: Mutation)
    ensures MutateAll(p, []) == p && MutateAll(p, ms + [m]) == Mutate(MutateAll(p, ms), m)
    decreases |ms|
  {
    if ms == [] {
      assert [m][1..] == [];
    } else {
      assert (ms + [m])[1..] == ms[1..] + [m];
      MutateAllSnoc(Mutate(p, ms[0]), ms[1..], m);
    }
  }

  lemma UpsertStamped(p: Partition, records: seq<Record>)
    requires Stamped(p)
    ensures Stamped(Upsert(p, records))
  {
    var q := Upsert(p, records);
    forall id | id in q.rows ensures 0 < q.rows[id].lsn <= q.last {
      var k := UpsertAt(p, records, id);
    }
    forall a, b | a in q.rows && b in q.rows && a != b ensures q.rows[a].lsn != q.rows[b].lsn {
      var j := UpsertAt(p, records, a);
      var k := UpsertAt(p, records, b);
    }
  }

  /** Over whole runs, trims included, rows carry pairwise distinct LSNs, all
      issued by the counter, and the counter never goes back. */
  lemma {:induction false} RunStamped(p: Partition, ms: seq<Mutation>)
    requires Stamped(p)
    ensures Stamped(MutateAll(p, ms)) && MutateAll(p, ms).last >= p.last
    decreases |ms|
  {
    if ms == [] {
    } else {
      if ms[0].DoUpsert? {
        UpsertStamped(p, ms[0].records);
      }
      RunStamped(Mutate(p, ms[0]), ms[1..]);
    }
  }

  /** The watermark a consolidation snapshot of these rows returns. */
  ghost predicate IsMaxLsn(rows: map<Id, Row>, maxLsn: nat) {
    && (forall id :: id in rows ==> rows[id].lsn <= maxLsn)
    && (if rows == map[] then maxLsn == 0 else exists id :: id in rows && rows[id].lsn == maxLsn)
  }

  /** Whatever a snapshot saw and whatever ran since (trims that empty the
      partition included), every id the next upsert or delete writes is stamped
      strictly above the snapshot's watermark. */
  lemma LaterWritesLandAboveSnapshots(p: Partition, ms: seq<Mutation>, watermark: nat, w: Mutation, id: Id)
    requires Stamped(p) && IsMaxLsn(p.rows, watermark)
    requires w.DoUpsert? ==> LastPos(w.records, id) >= 0
    requires w.DoDelete? ==> id == w.id
    requires !w.DoTrim?
    ensures id in Mutate(MutateAll(p, ms), w).rows
    ensures Mutate(MutateAll(p, ms), w).rows[id].lsn > watermark
  {
    RunStamped(p, ms);
    if w.DoUpsert? {
      var k := UpsertAt(MutateAll(p, ms), w.records, id);
    }
  }

  // ----- a batch against one record at a time -----

  function OneAtATime(p: Partition, records: seq<Record>): Partition {
    if records == [] then p
    else Upsert(OneAtATime(p, records[..|records| - 1]), [records[|records| - 1]])
  }

  lemma UpsertSingle(p: Partition, r: Record)
    ensures Upsert(p, [r]) == Partition(p.rows[r.id := Row(r.payload, p.last + 1, false)], p.last + 1)
  {
    assert [r][..0] == [];
    assert Dedup([r]) == Without([], r.id) + [r] == [r];
    assert Stamp(p.rows, [r], p.last) == Stamp(p.rows, [], p.last)[r.id := Row(r.payload, p.last + 1, false)];
  }

  lemma {:induction false} OneAtATimeAt(p: Partition, records: seq<Record>, id: Id)
    ensures OneAtATime(p, records).last == p.last + |records|
    ensures var k := LastPos(records, id); var rows := OneAtATime(p, records).rows;
            if k < 0 then (id in rows <==> id in p.rows) && (id in rows ==> rows[id] == p.rows[id])
            else id in rows && rows[id] == Row(records[k].payload, p.last + 1 + k, false)
  {
    if records == [] {
    } else {
      var n := |records| - 1;
      OneAtATimeAt(p, records[..n], id);
      UpsertSingle(OneAtATime(p, records[..n]), records[n]);
    }
  }

  /** A batch with repeated ids leaves what sending its records one by one
      leaves: the same ids with the same payloads and flags, and the same
      relative LSN order of the ids it wrote, whose block is contiguous and as
      long as the number of distinct ids. */
  lemma BatchEqualsOneAtATime(p: Partition, records: seq<Record>, i: Id, j: Id)
    ensures var a, b := Upsert(p, records), OneAtATime(p, records);
      && (i in a.rows <==> i in b.rows)
      && (i in a.rows ==> a.rows[i].payload == b.rows[i].payload && a.rows[i].deleted == b.rows[i].deleted)
      && (i in a.rows && LastPos(records, i) < 0 ==> a.rows[i] == b.rows[i])
      && (LastPos(records, i) >= 0 ==>
            i in a.rows && p.last < a.rows[i].lsn <= a.last == p.last + |IdsOf(records)|)
      && (LastPos(records, i) >= 0 && LastPos(records, j) >= 0 ==>
            i in a.rows && j in a.rows && i in b.rows && j in b.rows
            && (a.rows[i].lsn < a.rows[j].lsn <==> b.rows[i].lsn < b.rows[j].lsn))
  {
    var k := UpsertAt(p, records, i);
    var l := UpsertAt(p, records, j);
    OneAtATimeAt(p, records, i);
    OneAtATimeAt(p, records, j);
    DedupCount(records);
    DedupWinners(records);
    var w := Dedup(records);
    if k >= 0 && l >= 0 {
      if k < l { assert Before(records, w[k], w[l]); }
      if l < k { assert Before(records, w[l], w[k]); }
    }
  }
}
