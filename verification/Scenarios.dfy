/** Two short runs of the delta tier in which a reader's answer is wrong: the
    conditions in Readers and QueryUnion are not vacuous. */
module Scenarios {
  import opened Records
  import opened Seqs
  import opened Memtable
  import opened ShardGenerations
  import opened Log
  import opened Protocol
  import opened Safety
  import opened Readers
  import opened QueryUnion

  const KEEP_2 := Config(2, true, 1)

  const TAG: Meta := map["c" := Text("x")]

  function Rec(id: Id): Record { Record(id, Payload([0.0], TAG)) }

  function LiveRow(id: Id, lsn: nat): Row { Row(Rec(id).payload, lsn, false) }

  function OneLive(id: Id): Contents { map[id := Rec(id).payload] }

  ghost predicate Reachable(c: Config, s: State) {
    exists events: seq<Event> :: Run(c, events) == s
  }

  lemma Step(c: Config, s: State, e: Event)
    requires Reachable(c, s)
    ensures Reachable(c, Do(c, s, e))
  {
    var events: seq<Event> :| Run(c, events) == s;
    assert (events + [e])[..|events|] == events;
    assert Run(c, events + [e]) == Do(c, s, e);
  }

  lemma UpsertOne(c: Config, s: State, r: Record)
    ensures Do(c, s, Upserted([r])) == s.(
      log := s.log + [Put(r.id, r.payload)],
      mem := Partition(s.mem.rows[r.id := Row(r.payload, s.mem.last + 1, false)], s.mem.last + 1))
  {
    var rs := [r];
    UpsertSingle(s.mem, r);
    assert rs[..0] == [] && Dedup(rs) == rs;
    assert PutOps(rs) == PutOps([]) + [Put(r.id, r.payload)];
  }

  /** Snapshot and commit in one go, when every row is above the live frontier
      or the dataset has no shard yet. */
  lemma DoSnapshot(c: Config, s: State, n: nat)
    requires s.builder == Idle && IsMaxLsn(s.mem.rows, n) && n > 0
    ensures Do(c, s, SnapshotTaken(n)) == s.(builder := Holding(n, s.mem.rows, s.trimmed))
  {
  }

  const BASE_1 := NewBase(1, 1, true, 1, 1, OneLive("a"))

  const AFTER_FIRST_FOLD := State([Put("a", Rec("a").payload)], Partition(map["a" := LiveRow("a", 1)], 1),
                                [BASE_1], 2, 0, Idle, map[])

  lemma FirstCommit(c: Config, s: State)
    requires c.deltaTier && s.shards == [] && s.nextId == 1
    requires s.builder == Holding(1, map["a" := LiveRow("a", 1)], 0)
    ensures Do(c, s, FoldCommitted(true)) == s.(shards := [BASE_1], nextId := 2, builder := Idle)
  {
    var rows := map["a" := LiveRow("a", 1)];
    assert Generations([]) == [];
    assert "a" in LiveOf(rows) && LiveOf(rows) == OneLive("a");
    assert [BASE_1] + [] == [BASE_1];
  }

  /** The first fold of a dataset holding one vector, "a". */
  lemma FirstFold(c: Config)
    requires c.deltaTier
    ensures Reachable(c, AFTER_FIRST_FOLD)
  {
    var rows := map["a" := LiveRow("a", 1)];
    var s1 := State([Put("a", Rec("a").payload)], Partition(rows, 1), [], 1, 0, Idle, map[]);
    assert Run(c, []) == START;
    UpsertOne(c, START, Rec("a"));
    assert Do(c, START, Upserted([Rec("a")])) == s1;
    Step(c, START, Upserted([Rec("a")]));
    assert "a" in rows && rows["a"].lsn == 1;
    DoSnapshot(c, s1, 1);
    Step(c, s1, SnapshotTaken(1));
    FirstCommit(c, s1.(builder := Holding(1, rows, 0)));
    Step(c, s1.(builder := Holding(1, rows, 0)), FoldCommitted(true));
  }

  lemma Base1Alone()
    ensures Generations([BASE_1]) == [[BASE_1]] && Ordered([BASE_1]) == [BASE_1] && Frontier([BASE_1]) == 1
    ensures ColdContents([BASE_1]) == OneLive("a")
  {
    AddBase([], BASE_1);
    assert [BASE_1] + [] == [BASE_1];
    assert Generations([]) == [] && [[BASE_1]] + Generations([]) == [[BASE_1]];
    assert SortBy([BASE_1][1..], BandLe) == [];
    FrontierSingle(BASE_1);
    assert ColdContents([BASE_1][..0]) == map[];
  }

  /** The second fold over BASE_1, with whatever recall holds above LSN 1. */
  lemma SecondFold(c: Config, s: State, hi: nat, rows: map<Id, Row>, delta: Shard)
    requires c.deltaTier && s.shards == [BASE_1] && s.nextId == 2
    requires s.builder == Holding(hi, rows, 0) && hi >= 2
    requires LiveOf(Above(rows, 1)) != map[] || DeletedIn(Above(rows, 1)) != {}
    requires delta == Shard(2, 1, Some(1), 1, IvfFlat, hi, 2, hi, LiveOf(Above(rows, 1)), DeletedIn(Above(rows, 1)))
    ensures Do(c, s, FoldCommitted(true)) == s.(shards := [delta, BASE_1], nextId := 3, builder := Idle)
    ensures Generations([delta, BASE_1]) == [[BASE_1, delta]]
    ensures Ordered([BASE_1, delta]) == [BASE_1, delta] && Frontier([BASE_1, delta]) == hi
  {
    Base1Alone();
    assert Ordered(Generations([BASE_1])[0]) == [BASE_1];
    assert [delta] + [BASE_1] == [delta, BASE_1];
    AddDelta([BASE_1], delta);
    var one, gens := [BASE_1], [[BASE_1]];
    assert one[1..] == [] && gens[1..] == [];
    assert [BASE_1, delta] + one[1..] == [BASE_1, delta];
    assert [BASE_1, delta][1..] == [delta] && SortBy([delta][1..], BandLe) == [];
    assert SortBy([delta], BandLe) == Insert(delta, [], BandLe) == [delta];
    FrontierSingle(delta);
    assert MaxOf([BASE_1, delta], ShardFrontier) == hi;
  }

  // ----- a trim that outruns a reader in flight -----

  const BOTH_ROWS := map["a" := LiveRow("a", 1), "b" := LiveRow("b", 2)]
  const B_DELTA := Shard(2, 1, Some(1), 1, IvfFlat, 2, 2, 2, LiveOf(Above(BOTH_ROWS, 1)), {})
  const BOTH_OPS := [Put("a", Rec("a").payload), Put("b", Rec("b").payload)]

  /** The query resolved only BASE_1; then "b" was written and folded. */
  const B_FOLDED := State(BOTH_OPS, Partition(BOTH_ROWS, 2), [B_DELTA, BASE_1], 3, 0, Idle, map[0 := [BASE_1]])

  lemma OnlyBIsNew()
    ensures var newer := Above(BOTH_ROWS, 1);
      "b" in LiveOf(newer) && LiveOf(newer) != map[] && DeletedIn(newer) == {}
  {
    assert "b" in BOTH_ROWS && BOTH_ROWS["b"].lsn == 2;
    assert "b" in LiveOf(Above(BOTH_ROWS, 1));
  }

  /** The query has resolved BASE_1 and "b" has been written since. */
  const B_WRITTEN := State(BOTH_OPS, Partition(BOTH_ROWS, 2), [BASE_1], 2, 0, Idle, map[0 := [BASE_1]])

  lemma WriteB(c: Config, s: State)
    requires s == AFTER_FIRST_FOLD.(readers := map[0 := [BASE_1]])
    ensures Do(c, s, Upserted([Rec("b")])) == B_WRITTEN
  {
    UpsertOne(c, s, Rec("b"));
    assert s.mem.rows["b" := LiveRow("b", 2)] == BOTH_ROWS;
    assert s.log + [Put("b", Rec("b").payload)] == BOTH_OPS;
  }

  lemma BWrittenReachable(c: Config)
    requires c.deltaTier
    ensures Reachable(c, B_WRITTEN)
  {
    FirstFold(c);
    Base1Alone();
    var s := AFTER_FIRST_FOLD.(readers := map[0 := [BASE_1]]);
    assert Do(c, AFTER_FIRST_FOLD, Resolved(0)) == s;
    Step(c, AFTER_FIRST_FOLD, Resolved(0));
    WriteB(c, s);
    Step(c, s, Upserted([Rec("b")]));
  }

  lemma SnapshotB(c: Config)
    ensures Do(c, B_WRITTEN, SnapshotTaken(2)) == B_WRITTEN.(builder := Holding(2, BOTH_ROWS, 0))
  {
    assert "b" in BOTH_ROWS && BOTH_ROWS["b"].lsn == 2;
    DoSnapshot(c, B_WRITTEN, 2);
  }

  lemma BFoldedReachable(c: Config)
    requires c.deltaTier
    ensures Reachable(c, B_FOLDED)
    ensures Generations([B_DELTA, BASE_1]) == [[BASE_1, B_DELTA]]
    ensures Ordered([BASE_1, B_DELTA]) == [BASE_1, B_DELTA] && Frontier([BASE_1, B_DELTA]) == 2
  {
    BWrittenReachable(c);
    SnapshotB(c);
    Step(c, B_WRITTEN, SnapshotTaken(2));
    var s := B_WRITTEN.(builder := Holding(2, BOTH_ROWS, 0));
    OnlyBIsNew();
    SecondFold(c, s, 2, BOTH_ROWS, B_DELTA);
    Step(c, s, FoldCommitted(true));
  }

  lemma CompactAndTrim(c: Config, s: State)
    requires c == KEEP_2 && s.shards == [B_DELTA, BASE_1] && s.nextId == 3 && s.trimmed == 0
    requires Generations([B_DELTA, BASE_1]) == [[BASE_1, B_DELTA]]
    requires Ordered([BASE_1, B_DELTA]) == [BASE_1, B_DELTA] && Frontier([BASE_1, B_DELTA]) == 2
    ensures var s' := Do(c, Do(c, s, Compacted), Trimmed);
      && s'.trimmed == 2 && s'.readers == s.readers && s'.log == s.log
      && |Generations(s'.shards)| == 2 && Generations(s'.shards)[1] == [BASE_1, B_DELTA]
  {
    assert [BASE_1, B_DELTA][..1] == [BASE_1];
    assert "b" in B_DELTA.live;
    assert "b" in ColdContents([BASE_1, B_DELTA]);
    var merged := NewBase(3, 1, true, 2, 2, ColdContents([BASE_1, B_DELTA]));
    assert Compaction(c, s.shards, 3) == Some(merged);
    AddBase([B_DELTA, BASE_1], merged);
    assert GraceWatermark([merged] + [B_DELTA, BASE_1], 2) == 2;
  }

  lemma BIsLost(c: Config, events: seq<Event>)
    requires c == KEEP_2
    requires var s := Run(c, events); s.log == BOTH_OPS && s.trimmed == 2 && 0 in s.readers && s.readers[0] == [BASE_1]
    ensures var s := Run(c, events); View(c, s.readers[0], s.mem.rows) != Replay(s.log)
  {
    var s := Run(c, events);
    Base1Alone();
    assert LastLsn(s.log, "b") == 2;
    ReplayAt(s.log, "b");
    assert SortBy([BASE_1], BandLe) == [BASE_1] by {
      assert Ordered([BASE_1]) == [BASE_1];
      assert SortBy([BASE_1][1..], BandLe) == [];
    }
    assert Watermark(c, [BASE_1]) == 1;
    InFlightReaders(c, events, 0);
    assert Lost(s, ColdContents(s.readers[0]), 1, "b");
  }

  /** In-flight loss: a query resolves the base, then one delta is folded, the
      generation is compacted, and the trim runs. The grace boundary is the old
      generation's frontier with its delta, so the delta's writes leave recall
      while the query's shards do not have them. The generation the query
      resolved from is still retained. */
  lemma TrimOutrunsAnInFlightReader()
    ensures exists events: seq<Event> ::
      var s := Run(KEEP_2, events);
      && 0 in s.readers && s.readers[0] == [BASE_1]
      && |Generations(s.shards)| == 2 && Generations(s.shards)[1][0] == BASE_1
      && View(KEEP_2, s.readers[0], s.mem.rows) != Replay(s.log)
  {
    var c := KEEP_2;
    BFoldedReachable(c);
    CompactAndTrim(c, B_FOLDED);
    Step(c, B_FOLDED, Compacted);
    Step(c, Do(c, B_FOLDED, Compacted), Trimmed);
    var s := Do(c, Do(c, B_FOLDED, Compacted), Trimmed);
    var events: seq<Event> :| Run(c, events) == s;
    BIsLost(c, events);
  }

  // ----- a rewrite hidden by an older delta's tombstone -----

  const GONE := map["a" := Row(Rec("a").payload, 2, true)]
  const BACK := map["a" := LiveRow("a", 3)]
  const D2 := Shard(2, 1, Some(1), 1, IvfFlat, 2, 2, 2, LiveOf(GONE), {"a"})
  const D3 := Shard(3, 1, Some(1), 1, IvfFlat, 3, 3, 3, OneLive("a"), {})
  const DELETE_FOLDED :=
    State([Put("a", Rec("a").payload), Del("a")], Partition(GONE, 2), [D2, BASE_1], 3, 0, Idle, map[])
  const REWRITE_FOLDED := State(DELETE_FOLDED.log + [Put("a", Rec("a").payload)], Partition(BACK, 3),
                               [D3, D2, BASE_1], 4, 0, Idle, map[])

  /** "a" has been deleted, and the deletion not yet folded. */
  const A_DELETED := State([Put("a", Rec("a").payload), Del("a")], Partition(GONE, 2), [BASE_1], 2, 0, Idle, map[])

  lemma DeleteA(c: Config)
    ensures Do(c, AFTER_FIRST_FOLD, Deleted("a", 1)) == A_DELETED
  {
    var s := AFTER_FIRST_FOLD;
    assert Tombstone(s.mem, "a", 1) == Row(Rec("a").payload, 2, true);
    assert s.mem.rows["a" := Row(Rec("a").payload, 2, true)] == GONE;
    assert s.log + [Del("a")] == A_DELETED.log;
  }

  lemma DeletedReachable(c: Config)
    requires c.deltaTier
    ensures Reachable(c, A_DELETED)
  {
    FirstFold(c);
    DeleteA(c);
    Step(c, AFTER_FIRST_FOLD, Deleted("a", 1));
  }

  lemma OnlyTheDeletion()
    ensures Above(GONE, 1) == GONE && DeletedIn(GONE) == {"a"} && "a" !in LiveOf(GONE)
    ensures IsMaxLsn(GONE, 2)
  {
    assert "a" in GONE && GONE["a"].lsn == 2;
  }

  lemma DeleteFoldedReachable(c: Config)
    requires c.deltaTier
    ensures Reachable(c, DELETE_FOLDED)
    ensures Generations([D2, BASE_1]) == [[BASE_1, D2]]
    ensures Ordered([BASE_1, D2]) == [BASE_1, D2] && Frontier([BASE_1, D2]) == 2
  {
    DeletedReachable(c);
    OnlyTheDeletion();
    DoSnapshot(c, A_DELETED, 2);
    Step(c, A_DELETED, SnapshotTaken(2));
    var s := A_DELETED.(builder := Holding(2, GONE, 0));
    SecondFold(c, s, 2, GONE, D2);
    Step(c, s, FoldCommitted(true));
  }

  lemma ThirdFold(c: Config, s: State)
    requires c.deltaTier && s.shards == [D2, BASE_1] && s.nextId == 3 && s.builder == Holding(3, BACK, 0)
    requires Generations([D2, BASE_1]) == [[BASE_1, D2]]
    requires Ordered([BASE_1, D2]) == [BASE_1, D2] && Frontier([BASE_1, D2]) == 2
    ensures Do(c, s, FoldCommitted(true)) == s.(shards := [D3, D2, BASE_1], nextId := 4, builder := Idle)
  {
    assert Above(BACK, 2) == BACK && LiveOf(BACK) == OneLive("a") && DeletedIn(BACK) == {};
    assert "a" in OneLive("a");
    assert [D3] + [D2, BASE_1] == [D3, D2, BASE_1];
  }

  lemma ThirdResolve(c: Config)
    requires c.deltaTier && Generations([D2, BASE_1]) == [[BASE_1, D2]]
    ensures Resolve(c, [D3, D2, BASE_1]) == [BASE_1, D2, D3]
  {
    AddDelta([D2, BASE_1], D3);
    var one, gens := [BASE_1, D2], [[BASE_1, D2]];
    assert [D3] + [D2, BASE_1] == [D3, D2, BASE_1];
    assert one[1..] == [D2] && gens[1..] == [];
    assert [BASE_1, D3] + one[1..] == [BASE_1, D3, D2];
    assert Generations([D3, D2, BASE_1])[0] == [BASE_1, D3, D2];
    assert [BASE_1, D3, D2][1..] == [D3, D2] && [D3, D2][1..] == [D2] && [D2][1..] == [];
    assert SortBy([D2], BandLe) == Insert(D2, [], BandLe) == [D2];
    assert SortBy([D3, D2], BandLe) == Insert(D3, [D2], BandLe);
    assert Insert(D3, [], BandLe) == [D3];
  }

  lemma RewriteFoldedReachable(c: Config)
    requires c.deltaTier
    ensures Reachable(c, REWRITE_FOLDED)
    ensures Resolve(c, [D3, D2, BASE_1]) == [BASE_1, D2, D3]
  {
    DeleteFoldedReachable(c);
    var s7 := DELETE_FOLDED.(log := REWRITE_FOLDED.log, mem := Partition(BACK, 3));
    UpsertOne(c, DELETE_FOLDED, Rec("a"));
    assert Do(c, DELETE_FOLDED, Upserted([Rec("a")])) == s7;
    Step(c, DELETE_FOLDED, Upserted([Rec("a")]));
    assert "a" in BACK && BACK["a"].lsn == 3;
    DoSnapshot(c, s7, 3);
    Step(c, s7, SnapshotTaken(3));
    ThirdFold(c, s7.(builder := Holding(3, BACK, 0)));
    ThirdResolve(c);
    Step(c, s7.(builder := Holding(3, BACK, 0)), FoldCommitted(true));
  }

  lemma AHidden(c: Config, events: seq<Event>)
    requires c.deltaTier
    requires var s := Run(c, events);
      s.log == REWRITE_FOLDED.log && s.mem == REWRITE_FOLDED.mem && s.readers == map[0 := [BASE_1, D2, D3]]
    ensures var s := Run(c, events); "a" in Replay(s.log) && "a" !in Answer(c, s.readers[0], s.mem.rows, map[])
  {
    var s := Run(c, events);
    var gen := [BASE_1, D2, D3];
    assert LastLsn(s.log, "a") == 3;
    ReplayAt(s.log, "a");
    RunInv(c, events);
    assert s.readers[0] == gen;
    ChainWatermark(c, gen, s.log);
    assert Watermark(c, gen) == 3;
    assert "a" !in Above(s.mem.rows, 3);
    assert gen[..2] == [BASE_1, D2] && [BASE_1, D2][..1] == [BASE_1];
    assert "a" in D3.live && "a" in SidecarIds(gen);
    assert DeltaTombstones([BASE_1, D2]) == DeltaTombstones([BASE_1]) + {"a"};
  }

  /** Vanishing rewrite: "a" is deleted in one delta and written again in the
      next. Every write is in the shards the query reads, yet its pooled
      tombstones hide the live copy. */
  lemma RewrittenAfterDeleteVanishes()
    ensures exists events: seq<Event> ::
      var s := Run(KEEP_2, events);
      && 0 in s.readers && s.trimmed == 0
      && "a" in Replay(s.log)
      && "a" !in Answer(KEEP_2, s.readers[0], s.mem.rows, map[])
  {
    var c := KEEP_2;
    RewriteFoldedReachable(c);
    Step(c, REWRITE_FOLDED, Resolved(0));
    var events: seq<Event> :| Run(c, events) == Do(c, REWRITE_FOLDED, Resolved(0));
    AHidden(c, events);
  }
}
