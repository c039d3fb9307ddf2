/** The history of one dataset's writes, and how tiers overlay each other. LSN n
    is the n-th write, so a watermark names a prefix of the history. */
module Log {
  import opened Records
  import opened Memtable
  import opened ShardGenerations

  datatype Op = Put(id: Id, payload: Payload) | Del(id: Id)

  type Contents = map<Id, Payload>

  /** Last write wins. */
  function Replay(log: seq<Op>): Contents {
    if log == [] then map[]
    else
      var before, op := Replay(log[..|log| - 1]), log[|log| - 1];
      if op.Put? then before[op.id := op.payload] else before - {op.id}
  }

  /** The LSN of the last write to id, 0 when there is none. */
  function LastLsn(log: seq<Op>, id: Id): (n: nat)
    ensures n <= |log|
    ensures n > 0 ==> log[n - 1].id == id
  {
    if log == [] then 0
    else if log[|log| - 1].id == id then |log|
    else LastLsn(log[..|log| - 1], id)
  }

  lemma {:induction false} ReplayAt(log: seq<Op>, id: Id)
    ensures id in Replay(log) <==> LastLsn(log, id) > 0 && log[LastLsn(log, id) - 1].Put?
    ensures id in Replay(log) ==> Replay(log)[id] == log[LastLsn(log, id) - 1].payload
  {
    if log == [] {
    } else {
      ReplayAt(log[..|log| - 1], id);
    }
  }

  /** A prefix that covers the last write to id decides id. */
  lemma {:induction false} LastLsnPrefix(log: seq<Op>, n: nat, id: Id)
    requires n <= |log|
    ensures LastLsn(log, id) <= n ==> LastLsn(log[..n], id) == LastLsn(log, id)
    ensures LastLsn(log[..n], id) <= LastLsn(log, id)
    ensures LastLsn(log, id) > n ==> LastLsn(log[..n], id) < LastLsn(log, id)
  {
    if n == |log| {
      assert log[..n] == log;
    } else {
      assert log[..|log| - 1][..n] == log[..n];
      LastLsnPrefix(log[..|log| - 1], n, id);
    }
  }

  lemma ReplayPrefix(log: seq<Op>, n: nat, id: Id)
    requires n <= |log| && LastLsn(log, id) <= n
    ensures id in Replay(log) <==> id in Replay(log[..n])
    ensures id in Replay(log) ==> Replay(log)[id] == Replay(log[..n])[id]
  {
    LastLsnPrefix(log, n, id);
    ReplayAt(log, id);
    ReplayAt(log[..n], id);
  }

  // ----- the recall tier against the history -----

  ghost predicate RowMatches(row: Row, op: Op) {
    (row.deleted <==> op.Del?) && (op.Put? ==> row.payload == op.payload)
  }

  ghost predicate AgreesAt(rows: map<Id, Row>, log: seq<Op>, trimmed: nat, id: Id) {
    && (id in rows <==> LastLsn(log, id) > trimmed)
    && (id in rows ==> rows[id].lsn == LastLsn(log, id) && RowMatches(rows[id], log[LastLsn(log, id) - 1]))
  }

  /** The rows are exactly the ids last written above `trimmed`, each holding
      that last write. */
  ghost predicate RecallAgrees(rows: map<Id, Row>, log: seq<Op>, trimmed: nat) {
    forall id :: AgreesAt(rows, log, trimmed, id)
  }

  lemma AgreesEverywhere(rows: map<Id, Row>, log: seq<Op>, trimmed: nat)
    requires RecallAgrees(rows, log, trimmed)
    ensures forall id :: id in rows <==> LastLsn(log, id) > trimmed
    ensures forall id :: id in rows ==>
      rows[id].lsn == LastLsn(log, id) && RowMatches(rows[id], log[LastLsn(log, id) - 1])
  {
    forall id ensures id in rows <==> LastLsn(log, id) > trimmed
    {
      assert AgreesAt(rows, log, trimmed, id);
    }
    forall id | id in rows
      ensures rows[id].lsn == LastLsn(log, id) && RowMatches(rows[id], log[LastLsn(log, id) - 1])
    {
      assert AgreesAt(rows, log, trimmed, id);
    }
  }

  // ----- overlays -----

  function LiveOf(rows: map<Id, Row>): Contents {
    var live := rows - set id | id in rows && rows[id].deleted;
    map id | id in live :: live[id].payload
  }

  /** Recall rows decide every id they mention; the cold contents decide the rest. */
  function Overlay(cold: Contents, rows: map<Id, Row>): Contents {
    (cold - rows.Keys) + LiveOf(rows)
  }

  /** One newer shard over older contents: its vectors, then its tombstones. */
  function Layer(cold: Contents, s: Shard): Contents {
    (cold + s.live) - s.tombstones
  }

  /** A generation's contents: base, then deltas oldest band first. */
  function ColdContents(gen: seq<Shard>): Contents {
    if gen == [] then map[] else Layer(ColdContents(gen[..|gen| - 1]), gen[|gen| - 1])
  }

  ghost predicate SameAt(a: Contents, b: Contents, id: Id) {
    (id in a <==> id in b) && (id in a ==> a[id] == b[id])
  }

  lemma SameEverywhere(a: Contents, b: Contents)
    requires forall id :: SameAt(a, b, id)
    ensures a == b
  {
    forall id ensures (id in a <==> id in b) && (id in a ==> a[id] == b[id]) {
      assert SameAt(a, b, id);
    }
    assert a.Keys == b.Keys;
  }

  lemma OverlayLookup(cold: Contents, rows: map<Id, Row>, id: Id)
    ensures id in rows ==> (id in Overlay(cold, rows) <==> !rows[id].deleted)
    ensures id in rows && !rows[id].deleted ==> Overlay(cold, rows)[id] == rows[id].payload
    ensures id !in rows ==> SameAt(Overlay(cold, rows), cold, id)
  {
  }

  lemma OverlayAt(log: seq<Op>, n: nat, rows: map<Id, Row>, id: Id)
    requires n <= |log|
    requires id in rows ==> LastLsn(log, id) > 0 && RowMatches(rows[id], log[LastLsn(log, id) - 1])
    requires LastLsn(log, id) > n ==> id in rows
    ensures SameAt(Overlay(Replay(log[..n]), rows), Replay(log), id)
  {
    ReplayAt(log, id);
    if id !in rows {
      ReplayPrefix(log, n, id);
    }
  }

  /** Rows that agree with the history, over the contents of a prefix they
      reach beyond, give the whole history. */
  lemma OverlayReplays(log: seq<Op>, n: nat, rows: map<Id, Row>)
    requires n <= |log|
    requires forall id :: id in rows ==> LastLsn(log, id) > 0 && RowMatches(rows[id], log[LastLsn(log, id) - 1])
    requires forall id :: LastLsn(log, id) > n ==> id in rows
    ensures Overlay(Replay(log[..n]), rows) == Replay(log)
  {
    forall id ensures SameAt(Overlay(Replay(log[..n]), rows), Replay(log), id) {
      OverlayAt(log, n, rows, id);
    }
    SameEverywhere(Overlay(Replay(log[..n]), rows), Replay(log));
  }

  // ----- shards against the history -----

  /** A base holds the whole history up to its frontier. */
  ghost predicate BaseHolds(s: Shard, log: seq<Op>) {
    && s.level == 0
    && s.coveredLo == 0
    && ShardFrontier(s) == s.consolidatedLsn <= |log|
    && s.live == Replay(log[..ShardFrontier(s)])
    && s.tombstones == {}
  }

  /** What a delta must say about one id: its last write, if that is in the band. */
  ghost predicate BandAt(s: Shard, log: seq<Op>, id: Id)
    requires s.coveredHi <= |log|
  {
    var n := LastLsn(log[..s.coveredHi], id);
    && (id in s.live <==> 0 < s.coveredLo <= n && log[n - 1].Put?)
    && (id in s.tombstones <==> 0 < s.coveredLo <= n && log[n - 1].Del?)
    && (id in s.live ==> log[n - 1].payload == s.live[id])
  }

  /** A delta holds the last writes of its band, puts and deletes apart. */
  ghost predicate DeltaHolds(s: Shard, log: seq<Op>) {
    && s.level != 0
    && 0 < s.coveredLo <= s.coveredHi == s.consolidatedLsn <= |log|
    && (forall id :: BandAt(s, log, id))
  }

  /** Base and deltas in band order, each band starting where the last ended. */
  ghost predicate Chain(gen: seq<Shard>, log: seq<Op>) {
    gen != [] &&
    if |gen| == 1 then BaseHolds(gen[0], log)
    else
      var d, front := gen[|gen| - 1], gen[..|gen| - 1];
      && Chain(front, log) && DeltaHolds(d, log)
      && d.coveredLo == ShardFrontier(front[|front| - 1]) + 1
  }

  function LastFrontier(gen: seq<Shard>): nat
    requires gen != []
  {
    ShardFrontier(gen[|gen| - 1])
  }

  lemma DeltaStable(s: Shard, log: seq<Op>, more: seq<Op>)
    requires DeltaHolds(s, log)
    ensures DeltaHolds(s, log + more)
  {
    assert (log + more)[..s.coveredHi] == log[..s.coveredHi];
    forall id ensures BandAt(s, log + more, id) {
      assert BandAt(s, log, id);
    }
  }

  /** What a chain says about the past stays true as the history grows. */
  lemma {:induction false} ChainStable(gen: seq<Shard>, log: seq<Op>, more: seq<Op>)
    requires Chain(gen, log)
    ensures Chain(gen, log + more)
  {
    if |gen| == 1 {
      assert (log + more)[..ShardFrontier(gen[0])] == log[..ShardFrontier(gen[0])];
    } else {
      ChainStable(gen[..|gen| - 1], log, more);
      DeltaStable(gen[|gen| - 1], log, more);
    }
  }

  lemma {:induction false} ChainBounds(gen: seq<Shard>, log: seq<Op>)
    requires Chain(gen, log)
    ensures BaseHolds(gen[0], log)
    ensures LastFrontier(gen) <= |log|
    ensures forall i :: 0 <= i < |gen| ==> ShardFrontier(gen[i]) <= LastFrontier(gen)
    ensures forall i :: 0 <= i < |gen| ==> gen[i].consolidatedLsn == ShardFrontier(gen[i])
    ensures forall i :: 0 < i < |gen| ==>
      DeltaHolds(gen[i], log) && gen[i].coveredLo == ShardFrontier(gen[i - 1]) + 1
  {
    if |gen| > 1 {
      var front := gen[..|gen| - 1];
      ChainBounds(front, log);
      assert forall i :: 0 <= i < |front| ==> gen[i] == front[i];
    }
  }

  lemma LayerAt(s: Shard, log: seq<Op>, id: Id)
    requires DeltaHolds(s, log)
    ensures SameAt(Layer(Replay(log[..s.coveredLo - 1]), s), Replay(log[..s.coveredHi]), id)
  {
    var past, lo := log[..s.coveredHi], s.coveredLo - 1;
    assert past[..lo] == log[..lo];
    assert BandAt(s, log, id);
    ReplayAt(past, id);
    if LastLsn(past, id) <= lo {
      ReplayPrefix(past, lo, id);
    }
  }

  /** A delta moves its prefix's contents to the end of its band. */
  lemma LayerReplays(s: Shard, log: seq<Op>)
    requires DeltaHolds(s, log)
    ensures Layer(Replay(log[..s.coveredLo - 1]), s) == Replay(log[..s.coveredHi])
  {
    var got, want := Layer(Replay(log[..s.coveredLo - 1]), s), Replay(log[..s.coveredHi]);
    forall id ensures SameAt(got, want, id) {
      LayerAt(s, log, id);
    }
    SameEverywhere(got, want);
  }

  /** A chain's contents are the history up to its last frontier. */
  lemma {:induction false} ChainContents(gen: seq<Shard>, log: seq<Op>)
    requires Chain(gen, log)
    ensures ColdContents(gen) == Replay(log[..LastFrontier(gen)])
  {
    ChainBounds(gen, log);
    var front := gen[..|gen| - 1];
    if |gen| == 1 {
      assert ColdContents(front) == map[];
      assert map[] + gen[0].live == gen[0].live;
    } else {
      ChainContents(front, log);
      LayerReplays(gen[|gen| - 1], log);
    }
  }

  lemma {:induction false} MaxOfBound(s: seq<Shard>, f: Shard -> nat, m: nat)
    requires forall i :: 0 <= i < |s| ==> f(s[i]) <= m
    ensures MaxOf(s, f) <= m
  {
    if s == [] {
    } else {
      MaxOfBound(s[1..], f, m);
    }
  }

  lemma {:induction false} MaxOfIs(s: seq<Shard>, f: Shard -> nat, k: nat)
    requires k < |s|
    requires forall i :: 0 <= i < |s| ==> f(s[i]) <= f(s[k])
    ensures MaxOf(s, f) == f(s[k])
  {
    if k == 0 {
      MaxOfBound(s[1..], f, f(s[0]));
    } else {
      MaxOfIs(s[1..], f, k - 1);
    }
  }

  /** Every way the code computes a generation's frontier agrees on a chain. */
  lemma {:induction false} ChainMaxima(gen: seq<Shard>, log: seq<Op>, f: Shard -> nat)
    requires Chain(gen, log)
    requires forall s :: s in gen ==> f(s) == ShardFrontier(s)
    ensures MaxOf(gen, f) == LastFrontier(gen)
  {
    ChainBounds(gen, log);
    MaxOfIs(gen, f, |gen| - 1);
  }

  // ----- writes -----

  function PutOps(winners: seq<Record>): seq<Op> {
    if winners == [] then []
    else PutOps(winners[..|winners| - 1]) + [Put(winners[|winners| - 1].id, winners[|winners| - 1].payload)]
  }

  lemma {:induction false} ReplayPuts(log: seq<Op>, records: seq<Record>, id: Id)
    ensures var k, after := LastPos(records, id), Replay(log + PutOps(records));
      if k < 0 then SameAt(after, Replay(log), id) else id in after && after[id] == records[k].payload
    decreases |records|
  {
    if records == [] {
      assert log + [] == log;
    } else {
      var n := |records| - 1;
      var ops := log + PutOps(records[..n]);
      ReplayPuts(log, records[..n], id);
      var all := ops + [Put(records[n].id, records[n].payload)];
      assert log + PutOps(records) == all;
      assert all[..|all| - 1] == ops;
    }
  }

  /** Dropping the repeated records of a batch keeps what the batch means. */
  lemma DedupKeepsMeaning(log: seq<Op>, records: seq<Record>)
    ensures Replay(log + PutOps(Dedup(records))) == Replay(log + PutOps(records))
  {
    var once, all := Replay(log + PutOps(Dedup(records))), Replay(log + PutOps(records));
    DedupWinners(records);
    forall id ensures SameAt(once, all, id) {
      ReplayPuts(log, records, id);
      ReplayPuts(log, Dedup(records), id);
      var j, k := LastPos(Dedup(records), id), LastPos(records, id);
      if j >= 0 {
        assert Dedup(records)[j] in Dedup(records);
      }
      if k >= 0 {
        assert IsLast(records, records[k]) && records[k] in Dedup(records);
      }
    }
    SameEverywhere(once, all);
  }

  /** One more write, recorded in both the history and the partition. */
  lemma WriteAgrees(rows: map<Id, Row>, log: seq<Op>, trimmed: nat, op: Op, row: Row)
    requires RecallAgrees(rows, log, trimmed) && trimmed <= |log|
    requires row.lsn == |log| + 1 && RowMatches(row, op)
    ensures RecallAgrees(rows[op.id := row], log + [op], trimmed)
  {
    var after := log + [op];
    assert after[..|log|] == log;
    var written := rows[op.id := row];
    forall id ensures AgreesAt(written, after, trimmed, id) {
      assert LastLsn(after, id) == if id == op.id then |log| + 1 else LastLsn(log, id);
      assert AgreesAt(rows, log, trimmed, id);
    }
  }

  lemma {:induction false} StampAgrees(rows: map<Id, Row>, log: seq<Op>, trimmed: nat, winners: seq<Record>)
    requires RecallAgrees(rows, log, trimmed) && trimmed <= |log|
    ensures RecallAgrees(Stamp(rows, winners, |log|), log + PutOps(winners), trimmed)
    ensures |PutOps(winners)| == |winners|
    decreases |winners|
  {
    if winners == [] {
      assert log + [] == log;
    } else {
      var n := |winners| - 1;
      var front, w := winners[..n], winners[n];
      StampAgrees(rows, log, trimmed, front);
      WriteAgrees(Stamp(rows, front, |log|), log + PutOps(front), trimmed,
                  Put(w.id, w.payload), Row(w.payload, |log| + n + 1, false));
      assert log + PutOps(winners) == (log + PutOps(front)) + [Put(w.id, w.payload)];
    }
  }

  lemma TrimAgrees(rows: map<Id, Row>, log: seq<Op>, trimmed: nat, grace: nat)
    requires RecallAgrees(rows, log, trimmed)
    ensures RecallAgrees(Above(rows, grace), log, if grace > trimmed then grace else trimmed)
  {
    var bound := if grace > trimmed then grace else trimmed;
    forall id ensures AgreesAt(Above(rows, grace), log, bound, id) {
      assert AgreesAt(rows, log, trimmed, id);
    }
  }

  /** A non-empty partition still holds the newest write, so the snapshot's
      highest LSN is the counter itself. */
  lemma SnapshotReachesCounter(p: Partition, log: seq<Op>, trimmed: nat, maxLsn: nat)
    requires RecallAgrees(p.rows, log, trimmed) && p.last == |log|
    requires IsMaxLsn(p.rows, maxLsn)
    ensures p.rows != map[] ==> maxLsn == p.last
    ensures maxLsn == 0 <==> p.rows == map[]
  {
    if p.rows != map[] {
      var id :| id in p.rows && p.rows[id].lsn == maxLsn;
      assert AgreesAt(p.rows, log, trimmed, id);
      var last := log[|log| - 1].id;
      assert LastLsn(log, last) == |log|;
      assert AgreesAt(p.rows, log, trimmed, last);
    }
  }
}
