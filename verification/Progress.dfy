/** What the builder gets done: a fold writes everything its snapshot saw unless
    there is nothing to write, and a compaction replaces exactly the generations
    that are due. */
module Progress {
  import opened Records
  import opened Seqs
  import opened Memtable
  import opened ShardGenerations
  import opened Log
  import opened Protocol
  import opened Safety

  /** The live base is one deltas may be layered on. */
  predicate HasNativeBase(shards: seq<Shard>) {
    var gens := Generations(shards);
    gens != [] && gens[0][0].indexType == IvfFlat && gens[0][0].level == 0 && gens[0][0].quantizerVersion >= 1
  }

  /** The only ways a fold writes no shard: the dataset has none and the snapshot no
      live row, or a delta is due and no row lies above the live watermark. */
  ghost predicate NothingToFold(c: Config, s: State)
    requires s.builder.Holding?
  {
    var rows := s.builder.rows;
    || (s.shards == [] && forall id :: id in rows ==> rows[id].deleted)
    || (c.deltaTier && HasNativeBase(s.shards)
        && forall id :: id in rows ==> rows[id].lsn <= DatasetWatermark(s.shards))
  }

  /** With the frontier at some watermark, so is everything a reader computes. */
  lemma FrontierDecides(c: Config, s: State, n: nat)
    requires Inv(c, s) && s.shards != [] && Frontier(Generations(s.shards)[0]) == n
    ensures DatasetWatermark(s.shards) == n <= |s.log|
    ensures ColdContents(Resolve(c, s.shards)) == Replay(s.log[..n])
  {
    var gen := Generations(s.shards)[0];
    LiveWatermark(c, s);
    ResolveIsChain(c, s);
    FrontierIsLast(gen, s.log);
    ChainContents(Ordered(gen), s.log);
  }

  lemma BaseGoesFirst(c: Config, s: State, row: Shard)
    requires Inv(c, s) && row.id == s.nextId && row.level == 0 && row.parent == None
    ensures Generations([row] + s.shards) == [[row]] + Generations(s.shards)
    ensures Frontier(Generations([row] + s.shards)[0]) == ShardFrontier(row)
  {
    forall t | t in s.shards ensures t.parent != Some(row.id) {
      assert RowOk(c, t, s.nextId);
    }
    AddBase(s.shards, row);
    FrontierSingle(row);
  }

  /** A first fold writes a base unless all its rows are tombstones. */
  lemma LiveRowsAreSome(rows: map<Id, Row>)
    ensures LiveOf(rows) == map[] <==> forall id :: id in rows ==> rows[id].deleted
  {
    if LiveOf(rows) != map[] {
      var id :| id in LiveOf(rows).Keys;
      assert !rows[id].deleted;
    } else {
      forall id | id in rows ensures rows[id].deleted { assert id !in LiveOf(rows); }
    }
  }

  /** The rewriting fold meets no shard it cannot rewrite. */
  lemma RewritesAnyShard(c: Config, s: State)
    requires Inv(c, s) && s.shards != [] && !DeltaTierApplies(c, s.shards)
    ensures s.shards[0].quantizerVersion == 0
  {
    var base := Generations(s.shards)[0][0];
    assert s.shards[0] in s.shards && RowOk(c, s.shards[0], s.nextId);
    InGeneration(s.shards, 0, base);
    assert RowOk(c, base, s.nextId);
  }

  lemma RewriteProgress(c: Config, s: State, ivf: bool)
    requires Inv(c, s) && s.builder.Holding? && !DeltaTierApplies(c, s.shards)
    requires !NothingToFold(c, s)
    ensures var s' := Do(c, s, FoldCommitted(ivf));
      && |s'.shards| == |s.shards| + 1 && s'.shards[1..] == s.shards
      && s'.shards[0].level == 0 && (s'.shards[0].indexType == IvfFlat <==> ivf)
      && Frontier(Generations(s'.shards)[0]) == s.builder.maxLsn
  {
    LiveRowsAreSome(s.builder.rows);
    if s.shards != [] { RewritesAnyShard(c, s); }
    var row := RewriteFold(s.shards, s.builder.maxLsn, s.builder.rows, s.nextId, ivf);
    assert row.Some?;
    BaseGoesFirst(c, s, row.value);
  }

  lemma FirstFoldProgress(c: Config, s: State, trainable: bool)
    requires Inv(c, s) && s.builder.Holding? && c.deltaTier && s.shards == [] && !NothingToFold(c, s)
    ensures var s' := Do(c, s, FoldCommitted(trainable));
      && |s'.shards| == |s.shards| + 1 && s'.shards[1..] == s.shards
      && s'.shards[0].level == 0 && (s'.shards[0].indexType == IvfFlat <==> trainable)
      && Frontier(Generations(s'.shards)[0]) == s.builder.maxLsn
  {
    LiveRowsAreSome(s.builder.rows);
    var row := DeltaFold(s.shards, s.builder.maxLsn, s.builder.rows, s.nextId, trainable);
    assert row.Some?;
    BaseGoesFirst(c, s, row.value);
  }

  /** Above the frontier there is a row, live or deleted, exactly when there is. */
  lemma SomethingNewer(rows: map<Id, Row>, frontier: nat)
    requires forall id :: id in rows ==> rows[id].lsn > 0
    ensures var newer := if frontier > 0 then Above(rows, frontier) else rows;
      LiveOf(newer) == map[] && DeletedIn(newer) == {} <==> forall id :: id in rows ==> rows[id].lsn <= frontier
  {
    var newer := if frontier > 0 then Above(rows, frontier) else rows;
    LiveRowsAreSome(newer);
    forall id | id in rows && rows[id].lsn > frontier ensures id in newer && newer[id] == rows[id] {}
    if LiveOf(newer) == map[] && DeletedIn(newer) == {} {
      forall id | id in rows ensures rows[id].lsn <= frontier {
        assert id in newer ==> id in DeletedIn(newer);
      }
    }
    if forall id :: id in rows ==> rows[id].lsn <= frontier {
      assert forall id :: id !in newer;
    }
  }

  lemma SnapshotAboveFrontier(c: Config, s: State)
    requires Inv(c, s) && s.builder.Holding? && s.shards != []
    ensures var frontier, rows := Frontier(Generations(s.shards)[0]), s.builder.rows;
      && DatasetWatermark(s.shards) == frontier == Frontier(Ordered(Generations(s.shards)[0]))
      && (var newer := if frontier > 0 then Above(rows, frontier) else rows;
          LiveOf(newer) == map[] && DeletedIn(newer) == {} <==> forall id :: id in rows ==> rows[id].lsn <= frontier)
  {
    LiveWatermark(c, s);
    FrontierIsLast(Generations(s.shards)[0], s.log);
    AgreesEverywhere(s.builder.rows, s.log[..s.builder.maxLsn], s.builder.floor);
    SomethingNewer(s.builder.rows, Frontier(Generations(s.shards)[0]));
  }

  lemma DeltaProgress(c: Config, s: State, trainable: bool)
    requires Inv(c, s) && s.builder.Holding? && DeltaTierApplies(c, s.shards) && s.shards != []
    requires !NothingToFold(c, s)
    ensures var s' := Do(c, s, FoldCommitted(trainable));
      && |s'.shards| == |s.shards| + 1 && s'.shards[1..] == s.shards
      && s'.shards[0].level != 0 && s'.shards[0].indexType == IvfFlat
      && Frontier(Generations(s'.shards)[0]) == s.builder.maxLsn
  {
    var gens := Generations(s.shards);
    SnapshotAboveFrontier(c, s);
    var row := DeltaFold(s.shards, s.builder.maxLsn, s.builder.rows, s.nextId, trainable);
    assert row.Some?;
    LaterFoldHolds(s, row.value);
    AddDelta(s.shards, row.value);
    ExtendGeneration(gens[0], row.value, s.log);
  }

  lemma NoFold(c: Config, s: State, trainable: bool)
    requires Inv(c, s) && s.builder.Holding? && NothingToFold(c, s)
    ensures Do(c, s, FoldCommitted(trainable)) == s.(builder := Idle)
  {
    LiveRowsAreSome(s.builder.rows);
    if s.shards != [] {
      SnapshotAboveFrontier(c, s);
    }
  }

  lemma SomethingFolded(c: Config, s: State, trainable: bool)
    requires Inv(c, s) && s.builder.Holding? && !NothingToFold(c, s)
    ensures var s' := Do(c, s, FoldCommitted(trainable));
      && |s'.shards| == |s.shards| + 1 && s'.shards[1..] == s.shards
      && (s'.shards[0].indexType == IvfFlat <==> trainable || s'.shards[0].level != 0)
      && (s'.shards[0].level != 0 <==> c.deltaTier && HasNativeBase(s.shards))
      && Frontier(Generations(s'.shards)[0]) == s.builder.maxLsn
  {
    if !DeltaTierApplies(c, s.shards) {
      RewriteProgress(c, s, trainable);
    } else if s.shards == [] {
      FirstFoldProgress(c, s, trainable);
    } else {
      DeltaProgress(c, s, trainable);
    }
  }

  /** Every fold commit of every run: it adds one shard, after which the dataset's
      watermark is the snapshot's and a query's shards hold exactly the history the
      snapshot saw; or there was nothing to fold and it changes no shard. */
  lemma FoldWritesItsSnapshot(c: Config, events: seq<Event>, trainable: bool)
    requires Run(c, events).builder.Holding?
    ensures var s := Run(c, events);
      var s' := Do(c, s, FoldCommitted(trainable));
      if NothingToFold(c, s) then s' == s.(builder := Idle)
      else
        && |s'.shards| == |s.shards| + 1 && s'.shards[1..] == s.shards && s'.builder.Idle?
        && (s'.shards[0].indexType == IvfFlat <==> trainable || s'.shards[0].level != 0)
        && (s'.shards[0].level != 0 <==> c.deltaTier && HasNativeBase(s.shards))
        && DatasetWatermark(s'.shards) == s.builder.maxLsn <= |s.log|
        && ColdContents(Resolve(c, s'.shards)) == Replay(s.log[..s.builder.maxLsn])
  {
    var s := Run(c, events);
    RunInv(c, events);
    if NothingToFold(c, s) {
      NoFold(c, s, trainable);
    } else {
      CommitKeepsInv(c, s, trainable);
      SomethingFolded(c, s, trainable);
      FrontierDecides(c, Do(c, s, FoldCommitted(trainable)), s.builder.maxLsn);
    }
  }

  /** One undisturbed builder cycle folds every write so far. */
  lemma CycleFoldsEverything(c: Config, events: seq<Event>, trainable: bool)
    requires var s := Run(c, events);
      s.builder.Idle? && s.mem.rows != map[] && IsMaxLsn(s.mem.rows, |s.log|)
    ensures var s := Run(c, events);
      var snapped := Do(c, s, SnapshotTaken(|s.log|));
      && snapped == s.(builder := Holding(|s.log|, s.mem.rows, s.trimmed))
      && var s' := Do(c, snapped, FoldCommitted(trainable));
      (NothingToFold(c, snapped) && s' == s)
      || (DatasetWatermark(s'.shards) == |s.log| && ColdContents(Resolve(c, s'.shards)) == Replay(s.log))
  {
    var s := Run(c, events);
    var more := events + [SnapshotTaken(|s.log|)];
    RunInv(c, events);
    SnapshotReachesCounter(s.mem, s.log, s.trimmed, |s.log|);
    assert more[..|events|] == events;
    assert s.log[..|s.log|] == s.log;
    FoldWritesItsSnapshot(c, more, trainable);
  }

  /** A compaction is due: enough deltas on a native base, and something to keep. */
  ghost predicate CompactionDue(c: Config, s: State) {
    var gens := Generations(s.shards);
    && c.deltaTier && HasNativeBase(s.shards)
    && |gens[0]| > 1 && |gens[0]| - 1 >= c.maxDeltas
    && ColdContents(Resolve(c, s.shards)) != map[]
  }

  /** Every compaction event of every run: when one is due, one base without deltas
      takes the live generation's place, with the same watermark and the same
      contents and version; when none is due, nothing happens. */
  lemma CompactionReplacesDeltas(c: Config, events: seq<Event>)
    ensures var s := Run(c, events);
      var s' := Do(c, s, Compacted);
      if !CompactionDue(c, s) then s' == s
      else
        && |s'.shards| == |s.shards| + 1 && s'.shards[1..] == s.shards
        && Generations(s'.shards) == [[s'.shards[0]]] + Generations(s.shards)
        && Resolve(c, s'.shards) == [s'.shards[0]] && HasNativeBase(s'.shards)
        && s'.shards[0].quantizerVersion == Generations(s.shards)[0][0].quantizerVersion
        && DatasetWatermark(s'.shards) == DatasetWatermark(s.shards)
        && ColdContents(Resolve(c, s'.shards)) == ColdContents(Resolve(c, s.shards))
  {
    var s := Run(c, events);
    RunInv(c, events);
    var gens := Generations(s.shards);
    if gens != [] {
      InGeneration(s.shards, 0, gens[0][0]);
      LiveWatermark(c, s);
      FrontierDecides(c, s, Frontier(gens[0]));
      ResolveIsChain(c, s);
      FrontierIsLast(gens[0], s.log);
    }
    if CompactionDue(c, s) {
      var row := Compaction(c, s.shards, s.nextId);
      assert row.Some?;
      BaseGoesFirst(c, s, row.value);
      CompactionKeepsInv(c, s);
      FrontierDecides(c, Do(c, s, Compacted), Frontier(gens[0]));
      assert SortBy([row.value][1..], BandLe) == [];
    }
  }
}
