/** Every event keeps the protocol's invariant, so every run does. */
module Safety {
  import opened Records
  import opened Seqs
  import opened Memtable
  import opened ShardGenerations
  import opened Log
  import opened Protocol

  // ----- facts about frontiers -----

  lemma BandLeIsOrder()
    ensures IsOrder(BandLe)
  {
  }

  /** A generation as readers use it: all its shards, the base first, then the
      deltas by band and id. */
  lemma OrderedMembers(gen: seq<Shard>)
    requires gen != []
    ensures |Ordered(gen)| == |gen| && Ordered(gen)[0] == gen[0]
    ensures forall s :: s in Ordered(gen) <==> s in gen
    ensures forall i, j :: 0 < i < j < |gen| ==>
      var a, b := Ordered(gen)[i], Ordered(gen)[j];
      a.coveredLo < b.coveredLo || (a.coveredLo == b.coveredLo && a.id <= b.id)
  {
    SortBySorts(gen[1..], BandLe);
    assert gen == [gen[0]] + gen[1..];
    var kids := SortBy(gen[1..], BandLe);
    assert Ordered(gen)[1..] == kids;
    forall i, j | 0 < i < j < |gen| ensures BandLe(Ordered(gen)[i], Ordered(gen)[j]) {
      assert Ordered(gen)[i] == kids[i - 1] && Ordered(gen)[j] == kids[j - 1];
    }
  }

  /** The maximum over a generation is its last delta's band end. */
  lemma FrontierIsLast(gen: seq<Shard>, log: seq<Op>)
    requires gen != [] && Chain(Ordered(gen), log)
    ensures Frontier(gen) == Frontier(Ordered(gen)) == LastFrontier(Ordered(gen)) <= |log|
  {
    var o := Ordered(gen);
    OrderedMembers(gen);
    ChainBounds(o, log);
    ChainMaxima(o, log, ShardFrontier);
    assert o[|o| - 1] in gen;
    var k :| 0 <= k < |gen| && gen[k] == o[|o| - 1];
    forall i | 0 <= i < |gen| ensures ShardFrontier(gen[i]) <= ShardFrontier(gen[k]) {
      assert gen[i] in o;
    }
    MaxOfIs(gen, ShardFrontier, k);
  }

  lemma FrontiersBounded(gens: seq<seq<Shard>>, log: seq<Op>, i: nat)
    requires GenerationsOk(gens, log) && i < |gens|
    ensures Frontier(gens[i]) <= |log|
    ensures Frontier(gens[i]) <= Frontier(gens[0])
  {
    FrontierIsLast(gens[i], log);
  }

  lemma GenerationsStable(gens: seq<seq<Shard>>, log: seq<Op>, more: seq<Op>)
    requires GenerationsOk(gens, log)
    ensures GenerationsOk(gens, log + more)
  {
    forall i | 0 <= i < |gens| ensures GenerationOk(gens[i], log + more) {
      ChainStable(Ordered(gens[i]), log, more);
    }
  }

  /** No generation position ever covers less than it did. */
  ghost predicate Advances(before: seq<seq<Shard>>, after: seq<seq<Shard>>) {
    && |after| >= |before|
    && forall i :: 0 <= i < |before| ==> Frontier(after[i]) >= Frontier(before[i])
  }

  // ----- writes -----

  /** A write, whatever it is, disturbs nothing already folded or resolved. */
  lemma WriteKeepsInv(c: Config, s: State, more: seq<Op>, mem: Partition)
    requires Inv(c, s)
    requires RecallAgrees(mem.rows, s.log + more, s.trimmed) && mem.last == |s.log + more|
    ensures Inv(c, s.(log := s.log + more, mem := mem))
  {
    var s' := s.(log := s.log + more, mem := mem);
    GenerationsStable(Generations(s.shards), s.log, more);
    if s.builder.Holding? {
      assert s'.log[..s.builder.maxLsn] == s.log[..s.builder.maxLsn];
    }
    forall r | r in s.readers && s.readers[r] != [] ensures Chain(s.readers[r], s'.log) {
      ChainStable(s.readers[r], s.log, more);
    }
  }

  lemma UpsertKeepsInv(c: Config, s: State, records: seq<Record>)
    requires Inv(c, s)
    ensures Inv(c, Do(c, s, Upserted(records)))
  {
    StampAgrees(s.mem.rows, s.log, s.trimmed, Dedup(records));
    WriteKeepsInv(c, s, PutOps(Dedup(records)), Upsert(s.mem, records));
  }

  lemma DeleteKeepsInv(c: Config, s: State, id: Id, dimension: int)
    requires Inv(c, s)
    ensures Inv(c, Do(c, s, Deleted(id, dimension)))
  {
    WriteAgrees(s.mem.rows, s.log, s.trimmed, Del(id), Tombstone(s.mem, id, dimension));
    WriteKeepsInv(c, s, [Del(id)], Delete(s.mem, id, dimension));
  }

  // ----- the builder -----

  lemma SnapshotKeepsInv(c: Config, s: State, maxLsn: nat)
    requires Inv(c, s)
    ensures Inv(c, Do(c, s, SnapshotTaken(maxLsn)))
  {
    if s.builder.Idle? && IsMaxLsn(s.mem.rows, maxLsn) && maxLsn > 0 {
      SnapshotReachesCounter(s.mem, s.log, s.trimmed, maxLsn);
      assert s.log[..maxLsn] == s.log;
      var gens := Generations(s.shards);
      forall i | 0 <= i < |gens| ensures Frontier(gens[i]) <= maxLsn {
        FrontiersBounded(gens, s.log, i);
      }
    }
  }

  lemma SingleGeneration(row: Shard, log: seq<Op>)
    requires BaseHolds(row, log)
    ensures GenerationOk([row], log) && Frontier([row]) == ShardFrontier(row)
  {
    FrontierSingle(row);
    assert SortBy([row][1..], BandLe) == [];
    assert Ordered([row]) == [row];
  }

  lemma PrependGeneration(row: Shard, gens: seq<seq<Shard>>, log: seq<Op>)
    requires BaseHolds(row, log) && GenerationsOk(gens, log)
    requires gens != [] ==> ShardFrontier(row) >= Frontier(gens[0])
    ensures GenerationsOk([[row]] + gens, log)
  {
    SingleGeneration(row, log);
    var gens' := [[row]] + gens;
    forall i, j | 0 <= i < j < |gens'| ensures Frontier(gens'[i]) >= Frontier(gens'[j]) {
      FrontiersBounded(gens, log, j - 1);
      assert i > 0 ==> gens'[i] == gens[i - 1];
    }
  }

  lemma OneMoreRow(c: Config, shards: seq<Shard>, nextId: nat, row: Shard)
    requires DistinctShardIds(shards) && forall t :: t in shards ==> RowOk(c, t, nextId)
    requires row.id == nextId && RowOk(c, row, nextId + 1)
    ensures DistinctShardIds([row] + shards) && forall t :: t in [row] + shards ==> RowOk(c, t, nextId + 1)
  {
    forall t | t in shards ensures RowOk(c, t, nextId + 1) && t.id != row.id {
      assert RowOk(c, t, nextId);
    }
    forall i | 0 <= i < |shards| ensures shards[i].id != row.id {
      assert shards[i] in shards;
    }
  }

  lemma NewBaseCatalog(c: Config, shards: seq<Shard>, nextId: nat, log: seq<Op>, row: Shard)
    requires CatalogOk(c, shards, nextId, log)
    requires row.id == nextId && row.parent == None && RowOk(c, row, nextId + 1)
    requires BaseHolds(row, log)
    requires Generations(shards) != [] ==> ShardFrontier(row) >= Frontier(Generations(shards)[0])
    ensures CatalogOk(c, [row] + shards, nextId + 1, log)
    ensures Generations([row] + shards) == [[row]] + Generations(shards)
  {
    forall t | t in shards ensures !IsKid(row, t) {
      assert RowOk(c, t, nextId);
    }
    AddBase(shards, row);
    OneMoreRow(c, shards, nextId, row);
    PrependGeneration(row, Generations(shards), log);
  }

  lemma AdvanceKeepsGrace(c: Config, gens: seq<seq<Shard>>, gens': seq<seq<Shard>>, trimmed: nat)
    requires GraceOk(c, gens, trimmed) && Advances(gens, gens')
    ensures GraceOk(c, gens', trimmed)
  {
    forall i | 0 <= i < |gens'| && i < AtLeastOne(c.keep) ensures trimmed <= Frontier(gens'[i]) {
      if |gens| >= AtLeastOne(c.keep) {
        assert trimmed <= Frontier(gens[i]) <= Frontier(gens'[i]);
      }
    }
  }

  /** Position by position, generations with a newer one in front cover more. */
  lemma BoundedByNewest(gens: seq<seq<Shard>>, log: seq<Op>, newest: seq<Shard>)
    requires gens != [] ==> Frontier(newest) >= Frontier(gens[0])
    requires GenerationsOk(gens, log)
    ensures Advances(gens, [newest] + gens)
  {
    var gens' := [newest] + gens;
    forall i | 0 <= i < |gens| ensures Frontier(gens'[i]) >= Frontier(gens[i]) {
      assert i > 0 ==> gens'[i] == gens[i - 1];
    }
  }

  /** A new base that holds the history up to its frontier, no lower than the
      live one's, may be added. */
  lemma NewBaseKeepsInv(c: Config, s: State, row: Shard)
    requires Inv(c, s)
    requires row.id == s.nextId && row.parent == None && RowOk(c, row, s.nextId + 1)
    requires BaseHolds(row, s.log)
    requires Generations(s.shards) != [] ==> ShardFrontier(row) >= Frontier(Generations(s.shards)[0])
    requires s.builder.Holding? ==> ShardFrontier(row) <= s.builder.maxLsn
    ensures Inv(c, AddShard(s, Some(row)))
    ensures Advances(Generations(s.shards), Generations(AddShard(s, Some(row)).shards))
  {
    var gens := Generations(s.shards);
    NewBaseCatalog(c, s.shards, s.nextId, s.log, row);
    SingleGeneration(row, s.log);
    BoundedByNewest(gens, s.log, [row]);
    AdvanceKeepsGrace(c, gens, [[row]] + gens, s.trimmed);
  }

  lemma InsertLargest(d: Shard, s: seq<Shard>)
    requires forall i :: 0 <= i < |s| ==> !BandLe(d, s[i])
    ensures Insert(d, s, BandLe) == s + [d]
  {
    if s != [] {
      InsertLargest(d, s[1..]);
      assert s == [s[0]] + s[1..];
    }
  }

  /** The newest delta's band is the last one, so readers see it appended. */
  lemma ExtendOrder(live: seq<Shard>, row: Shard, log: seq<Op>)
    requires live != [] && Chain(Ordered(live), log)
    requires row.coveredLo == LastFrontier(Ordered(live)) + 1
    ensures Ordered([live[0], row] + live[1..]) == Ordered(live) + [row]
  {
    var live' := [live[0], row] + live[1..];
    var o, kids := Ordered(live), SortBy(live[1..], BandLe);
    ChainBounds(o, log);
    forall i | 0 <= i < |kids| ensures !BandLe(row, kids[i]) {
      assert kids[i] == o[i + 1];
      assert ShardFrontier(o[i + 1]) <= LastFrontier(o);
    }
    InsertLargest(row, kids);
    assert live'[1..] == [row] + live[1..];
    assert ([row] + live[1..])[1..] == live[1..];
  }

  /** The live generation with one more delta, filed newest-first. */
  lemma ExtendGeneration(live: seq<Shard>, row: Shard, log: seq<Op>)
    requires GenerationOk(live, log) && IsNative(live[0])
    requires DeltaHolds(row, log) && row.coveredLo == Frontier(live) + 1
    ensures GenerationOk([live[0], row] + live[1..], log)
    ensures Frontier([live[0], row] + live[1..]) == ShardFrontier(row) > Frontier(live)
  {
    var o := Ordered(live);
    FrontierIsLast(live, log);
    ExtendOrder(live, row, log);
    OrderedMembers(live);
    assert (o + [row])[..|o|] == o;
    assert Chain(o + [row], log);
    FrontierIsLast([live[0], row] + live[1..], log);
  }

  lemma ExtendedGenerationsOk(gens: seq<seq<Shard>>, gens': seq<seq<Shard>>, log: seq<Op>)
    requires GenerationsOk(gens, log) && gens != []
    requires gens' != [] && gens' == [gens'[0]] + gens[1..]
    requires GenerationOk(gens'[0], log) && Frontier(gens'[0]) >= Frontier(gens[0])
    ensures GenerationsOk(gens', log) && Advances(gens, gens')
  {
    forall i | 0 < i < |gens'| ensures gens'[i] == gens[i] && Frontier(gens[i]) <= Frontier(gens[0]) {
    }
  }

  /** A new delta that starts where the live generation ends may be added. */
  lemma NewDeltaKeepsInv(c: Config, s: State, row: Shard)
    requires Inv(c, s) && c.deltaTier
    requires Generations(s.shards) != [] && IsNative(Generations(s.shards)[0][0])
    requires row.id == s.nextId && IsKid(Generations(s.shards)[0][0], row)
    requires DeltaHolds(row, s.log)
    requires row.coveredLo == Frontier(Generations(s.shards)[0]) + 1
    requires s.builder.Holding? ==> ShardFrontier(row) <= s.builder.maxLsn
    ensures Inv(c, AddShard(s, Some(row)))
    ensures Advances(Generations(s.shards), Generations(AddShard(s, Some(row)).shards))
  {
    var gens := Generations(s.shards);
    var gens' := [[gens[0][0], row] + gens[0][1..]] + gens[1..];
    AddDelta(s.shards, row);
    ExtendGeneration(gens[0], row, s.log);
    InGeneration(s.shards, 0, gens[0][0]);
    assert RowOk(c, gens[0][0], s.nextId);
    OneMoreRow(c, s.shards, s.nextId, row);
    ExtendedGenerationsOk(gens, gens', s.log);
    AdvanceKeepsGrace(c, gens, gens', s.trimmed);
  }

  lemma SnapshotRowsExtend(s: State, n: nat)
    requires RecallOk(s) && BuilderOk(s) && s.builder.Holding?
    requires s.builder.floor <= n <= s.builder.maxLsn
    ensures Overlay(Replay(s.log[..n]), s.builder.rows) == Replay(s.log[..s.builder.maxLsn])
  {
    var past := s.log[..s.builder.maxLsn];
    assert past[..n] == s.log[..n];
    AgreesEverywhere(s.builder.rows, past, s.builder.floor);
    OverlayReplays(past, n, s.builder.rows);
  }

  lemma RewriteFoldKeepsInv(c: Config, s: State, ivf: bool)
    requires Inv(c, s) && s.builder.Holding? && !DeltaTierApplies(c, s.shards)
    ensures Inv(c, AddShard(s, RewriteFold(s.shards, s.builder.maxLsn, s.builder.rows, s.nextId, ivf)))
    ensures var folded := RewriteFold(s.shards, s.builder.maxLsn, s.builder.rows, s.nextId, ivf);
      Advances(Generations(s.shards), Generations(AddShard(s, folded).shards))
  {
    var gens, rows := Generations(s.shards), s.builder.rows;
    if s.shards == [] {
      assert gens == [];
      SnapshotRowsExtend(s, 0);
      assert s.log[..0] == [];
      assert Overlay(map[], rows) == LiveOf(rows);
    } else if s.shards[0].quantizerVersion == 0 {
      var base := gens[0][0];
      assert s.shards[0] in s.shards;
      InGeneration(s.shards, 0, base);
      assert !IsNative(base) by {
        if !c.deltaTier { assert base in s.shards; }
      }
      assert base == s.shards[0];
      OrderedMembers(gens[0]);
      ChainBounds(Ordered(gens[0]), s.log);
      assert |gens[0]| == 1 && Ordered(gens[0]) == gens[0] == [base];
      FrontierSingle(base);
      SnapshotRowsExtend(s, ShardFrontier(base));
    }
    var folded := RewriteFold(s.shards, s.builder.maxLsn, rows, s.nextId, ivf);
    if folded.Some? {
      NewBaseKeepsInv(c, s, folded.value);
    }
  }

  /** The rows above the frontier, split by flag, are exactly the band's last writes. */
  lemma DeltaRowHolds(row: Shard, log: seq<Op>, rows: map<Id, Row>, floor: nat)
    requires row.level != 0 && 0 < row.coveredLo <= row.coveredHi == row.consolidatedLsn <= |log|
    requires RecallAgrees(rows, log[..row.coveredHi], floor) && floor < row.coveredLo
    requires row.live == LiveOf(Above(rows, row.coveredLo - 1))
    requires row.tombstones == DeletedIn(Above(rows, row.coveredLo - 1))
    ensures DeltaHolds(row, log)
  {
    var past, newer := log[..row.coveredHi], Above(rows, row.coveredLo - 1);
    forall id ensures BandAt(row, log, id) {
      assert AgreesAt(rows, past, floor, id);
      assert id in newer <==> LastLsn(past, id) >= row.coveredLo;
      assert id in newer ==> newer[id] == rows[id] && RowMatches(rows[id], past[LastLsn(past, id) - 1]);
    }
  }

  lemma BandIsNonEmpty(rows: map<Id, Row>)
    requires LiveOf(rows) != map[] || DeletedIn(rows) != {}
    ensures exists id :: id in rows
  {
    if DeletedIn(rows) != {} {
      var id :| id in DeletedIn(rows);
    } else {
      var id :| id in LiveOf(rows).Keys;
    }
  }

  /** A fold over an existing generation writes the band it claims. */
  lemma LaterFoldHolds(s: State, row: Shard)
    requires RecallOk(s) && BuilderOk(s) && s.builder.Holding?
    requires Generations(s.shards) != [] && GenerationsOk(Generations(s.shards), s.log)
    requires s.builder.floor <= Frontier(Generations(s.shards)[0])
    requires exists trainable ::
      DeltaFold(s.shards, s.builder.maxLsn, s.builder.rows, s.nextId, trainable) == Some(row)
    ensures DeltaHolds(row, s.log) && row.coveredLo == Frontier(Generations(s.shards)[0]) + 1
    ensures IsKid(Generations(s.shards)[0][0], row)
  {
    var rows, frontier := s.builder.rows, Frontier(Generations(s.shards)[0]);
    var newer := Above(rows, frontier);
    FrontierIsLast(Generations(s.shards)[0], s.log);
    AgreesEverywhere(rows, s.log[..s.builder.maxLsn], s.builder.floor);
    assert frontier == 0 ==> newer == rows;
    BandIsNonEmpty(newer);
    var id :| id in newer;
    assert frontier < LastLsn(s.log[..s.builder.maxLsn], id) <= s.builder.maxLsn;
    DeltaRowHolds(row, s.log, rows, s.builder.floor);
  }

  lemma DeltaFoldKeepsInv(c: Config, s: State, trainable: bool)
    requires Inv(c, s) && s.builder.Holding? && DeltaTierApplies(c, s.shards)
    ensures Inv(c, AddShard(s, DeltaFold(s.shards, s.builder.maxLsn, s.builder.rows, s.nextId, trainable)))
    ensures var folded := DeltaFold(s.shards, s.builder.maxLsn, s.builder.rows, s.nextId, trainable);
      Advances(Generations(s.shards), Generations(AddShard(s, folded).shards))
  {
    var gens, rows := Generations(s.shards), s.builder.rows;
    var folded := DeltaFold(s.shards, s.builder.maxLsn, rows, s.nextId, trainable);
    if folded.Some? && gens == [] {
      SnapshotRowsExtend(s, 0);
      assert s.log[..0] == [];
      assert Overlay(map[], rows) == LiveOf(rows);
      NewBaseKeepsInv(c, s, folded.value);
    } else if folded.Some? {
      LaterFoldHolds(s, folded.value);
      NewDeltaKeepsInv(c, s, folded.value);
    }
  }

  lemma CompactionKeepsInv(c: Config, s: State)
    requires Inv(c, s)
    ensures Inv(c, Do(c, s, Compacted))
    ensures Advances(Generations(s.shards), Generations(Do(c, s, Compacted).shards))
  {
    var merged := Compaction(c, s.shards, s.nextId);
    if merged.Some? {
      var gen := Generations(s.shards)[0];
      FrontierIsLast(gen, s.log);
      ChainContents(Ordered(gen), s.log);
      NewBaseKeepsInv(c, s, merged.value);
    }
  }

  lemma CommitKeepsInv(c: Config, s: State, trainable: bool)
    requires Inv(c, s)
    ensures Inv(c, Do(c, s, FoldCommitted(trainable)))
    ensures Advances(Generations(s.shards), Generations(Do(c, s, FoldCommitted(trainable)).shards))
  {
    if s.builder.Holding? {
      if DeltaTierApplies(c, s.shards) {
        DeltaFoldKeepsInv(c, s, trainable);
      } else {
        RewriteFoldKeepsInv(c, s, trainable);
      }
    }
  }

  // ----- clean-up -----

  lemma TrimKeepsInv(c: Config, s: State)
    requires Inv(c, s)
    ensures Inv(c, Do(c, s, Trimmed))
  {
    var gens, grace := Generations(s.shards), GraceWatermark(s.shards, c.keep);
    TrimAgrees(s.mem.rows, s.log, s.trimmed, grace);
    if |gens| >= AtLeastOne(c.keep) {
      FrontiersBounded(gens, s.log, AtLeastOne(c.keep) - 1);
    }
    AgreesEverywhere(s.mem.rows, s.log, s.trimmed);
    assert Above(s.mem.rows, 0) == s.mem.rows;
  }

  lemma SweepKeepsCatalog(c: Config, s: State)
    requires CatalogOk(c, s.shards, s.nextId, s.log)
    ensures CatalogOk(c, AfterSweep(s.shards, c.keep), s.nextId, s.log)
  {
    var gens, left := Generations(s.shards), AfterSweep(s.shards, c.keep);
    var ids := RetainedIds(s.shards, c.keep);
    SweepKeepsNewestGenerations(s.shards, c.keep);
    AfterSweepKeepsRetained(s.shards, c.keep);
    FilterMembers(s.shards, IdIn(ids));
    FilterDistinctIds(s.shards, IdIn(ids));
    assert forall t :: t in left ==> t in s.shards;
    if s.shards != [] && !IsNative(gens[0][0]) {
      InGeneration(s.shards, 0, gens[0][0]);
      RetainedMeans(s.shards, c.keep, gens[0][0]);
      assert IdIn(ids)(s.shards[0]);
      assert left[0] == s.shards[0];
    }
  }

  lemma SweepKeepsInv(c: Config, s: State)
    requires Inv(c, s)
    ensures Inv(c, Do(c, s, Swept))
  {
    SweepKeepsCatalog(c, s);
    SweepKeepsNewestGenerations(s.shards, c.keep);
  }

  /** A query resolves nothing or the live generation. */
  lemma ResolveIsChain(c: Config, s: State)
    requires CatalogOk(c, s.shards, s.nextId, s.log)
    ensures Resolve(c, s.shards) == [] <==> s.shards == []
    ensures s.shards != [] ==> Resolve(c, s.shards) == Ordered(Generations(s.shards)[0])
    ensures s.shards != [] ==> Chain(Resolve(c, s.shards), s.log)
  {
    var gens := Generations(s.shards);
    if s.shards != [] && !c.deltaTier {
      InGeneration(s.shards, 0, gens[0][0]);
      OrderedMembers(gens[0]);
      assert gens[0] == [s.shards[0]] == Ordered(gens[0]);
    }
  }

  lemma ResolveKeepsInv(c: Config, s: State, reader: nat)
    requires Inv(c, s)
    ensures Inv(c, Do(c, s, Resolved(reader)))
  {
    ResolveIsChain(c, s);
  }

  lemma StartInv(c: Config)
    ensures Inv(c, START)
  {
  }

  lemma DoKeepsInv(c: Config, s: State, e: Event)
    requires Inv(c, s)
    ensures Inv(c, Do(c, s, e))
  {
    match e
    case Upserted(records) => UpsertKeepsInv(c, s, records);
    case Deleted(id, dimension) => DeleteKeepsInv(c, s, id, dimension);
    case SnapshotTaken(maxLsn) => SnapshotKeepsInv(c, s, maxLsn);
    case FoldCommitted(trainable) => CommitKeepsInv(c, s, trainable);
    case BuilderCrashed =>
    case Compacted => CompactionKeepsInv(c, s);
    case Swept => SweepKeepsInv(c, s);
    case Trimmed => TrimKeepsInv(c, s);
    case Resolved(reader) => ResolveKeepsInv(c, s, reader);
  }

  lemma LiveWatermark(c: Config, s: State)
    requires Inv(c, s)
    ensures var gens := Generations(s.shards);
      DatasetWatermark(s.shards) == if gens == [] then 0 else Frontier(gens[0])
  {
    var gens := Generations(s.shards);
    if gens != [] {
      FrontierIsLast(gens[0], s.log);
      ChainBounds(Ordered(gens[0]), s.log);
      ChainMaxima(Ordered(gens[0]), s.log, (t: Shard) => t.consolidatedLsn);
    }
  }

  /** Every run, from the empty dataset, whatever its interleaving. */
  lemma {:induction false} RunInv(c: Config, events: seq<Event>)
    ensures Inv(c, Run(c, events))
  {
    if events == [] {
      StartInv(c);
    } else {
      RunInv(c, events[..|events| - 1]);
      DoKeepsInv(c, Run(c, events[..|events| - 1]), events[|events| - 1]);
    }
  }

  /** Watermarks only move forward: no event, in any order, lowers the live
      watermark or the trim boundary. */
  lemma WatermarksNeverRegress(c: Config, events: seq<Event>, e: Event)
    ensures var before, after := Run(c, events), Run(c, events + [e]);
      && DatasetWatermark(after.shards) >= DatasetWatermark(before.shards)
      && GraceWatermark(after.shards, c.keep) >= GraceWatermark(before.shards, c.keep)
  {
    assert (events + [e])[..|events|] == events;
    RunInv(c, events);
    RunInv(c, events + [e]);
    var s, s' := Run(c, events), Run(c, events + [e]);
    LiveWatermark(c, s);
    LiveWatermark(c, s');
    if e.FoldCommitted? {
      CommitKeepsInv(c, s, e.trainable);
    } else if e.Compacted? {
      CompactionKeepsInv(c, s);
    } else if e.Swept? {
      SweepIsSafeAndIdempotent(s.shards, c.keep);
    }
  }
}
