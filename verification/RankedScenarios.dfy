/** Short runs after which a query's answer is wrong: an outdated copy surfaces, or
    the shard's own cut leaves a slot nobody fills. */
module RankedScenarios {
  import opened Records
  import opened Seqs
  import opened Memtable
  import opened RecallSearch
  import opened ShardGenerations
  import opened Log
  import opened Protocol
  import opened Safety
  import opened Readers
  import opened QueryUnion
  import opened TopKMerge
  import opened RankedQuery
  import opened RankedUnion
  import opened Scenarios

  /** "a" again, far away and without its tag, and a new "b" nearer than that. */
  const FAR_A := Record("a", Payload([10.0], map[]))
  const NEAR_B := Record("b", Payload([1.0], map[]))

  function Written(r: Record, lsn: nat): Row { Row(r.payload, lsn, false) }

  function Logged(r: Record): Op { Put(r.id, r.payload) }

  // ----- outdated copies -----

  const MOVED_LOG := [Logged(Rec("a")), Logged(FAR_A), Logged(NEAR_B)]
  const MOVED_ROWS := map["a" := Written(FAR_A, 2), "b" := Written(NEAR_B, 3)]
  const MOVED_LIVE: Contents := map["a" := FAR_A.payload, "b" := NEAR_B.payload]
  const MOVED_DELTA := Shard(2, 1, Some(1), 1, IvfFlat, 3, 2, 3, MOVED_LIVE, {})

  /** Both records are folded into one delta over the base with the old "a", and a
      query has resolved the two shards. */
  const MOVED := State(MOVED_LOG, Partition(MOVED_ROWS, 3), [MOVED_DELTA, BASE_1], 3, 0, Idle,
                       map[0 := [BASE_1, MOVED_DELTA]])

  /** Written, but not yet folded. */
  const UNFOLDED := State(MOVED_LOG, Partition(MOVED_ROWS, 3), [BASE_1], 2, 0, Idle, map[])

  const HALF_WRITTEN := State([Logged(Rec("a")), Logged(FAR_A)], Partition(map["a" := Written(FAR_A, 2)], 2),
                              [BASE_1], 2, 0, Idle, map[])

  lemma WriteFarA(c: Config)
    ensures Do(c, AFTER_FIRST_FOLD, Upserted([FAR_A])) == HALF_WRITTEN
  {
    UpsertOne(c, AFTER_FIRST_FOLD, FAR_A);
    assert AFTER_FIRST_FOLD.mem.rows["a" := Written(FAR_A, 2)] == map["a" := Written(FAR_A, 2)];
    assert AFTER_FIRST_FOLD.log + [Logged(FAR_A)] == HALF_WRITTEN.log;
  }

  lemma WriteNearB(c: Config)
    ensures Do(c, HALF_WRITTEN, Upserted([NEAR_B])) == UNFOLDED
  {
    UpsertOne(c, HALF_WRITTEN, NEAR_B);
    assert HALF_WRITTEN.mem.rows["b" := Written(NEAR_B, 3)] == MOVED_ROWS;
    assert HALF_WRITTEN.log + [Logged(NEAR_B)] == MOVED_LOG;
  }

  lemma UnfoldedReachable(c: Config)
    requires c.deltaTier
    ensures Reachable(c, UNFOLDED)
  {
    FirstFold(c);
    WriteFarA(c);
    Step(c, AFTER_FIRST_FOLD, Upserted([FAR_A]));
    WriteNearB(c);
    Step(c, HALF_WRITTEN, Upserted([NEAR_B]));
  }

  lemma OnlyTheMovedAreNew()
    ensures var newer := Above(MOVED_ROWS, 1);
      LiveOf(newer) == MOVED_LIVE && LiveOf(newer) != map[] && DeletedIn(newer) == {}
    ensures IsMaxLsn(MOVED_ROWS, 3) && Above(MOVED_ROWS, 3).Keys == {}
  {
    assert Above(MOVED_ROWS, 1) == MOVED_ROWS;
    assert "b" in MOVED_ROWS && MOVED_ROWS["b"].lsn == 3;
    assert "a" in LiveOf(MOVED_ROWS) && LiveOf(MOVED_ROWS) == MOVED_LIVE;
  }

  lemma MovedReachable(c: Config)
    requires c.deltaTier
    ensures Reachable(c, MOVED)
  {
    UnfoldedReachable(c);
    OnlyTheMovedAreNew();
    DoSnapshot(c, UNFOLDED, 3);
    Step(c, UNFOLDED, SnapshotTaken(3));
    var s := UNFOLDED.(builder := Holding(3, MOVED_ROWS, 0));
    SecondFold(c, s, 3, MOVED_ROWS, MOVED_DELTA);
    Step(c, s, FoldCommitted(true));
    var folded := s.(shards := [MOVED_DELTA, BASE_1], nextId := 3, builder := Idle);
    assert Do(c, folded, Resolved(0)) == MOVED;
    Step(c, folded, Resolved(0));
  }

  /** What the query finds: recall has nothing above the frontier, and the shards
      hold the old "a" below the new one. */
  lemma MovedFacts(c: Config, events: seq<Event>)
    requires c.deltaTier && Run(c, events) == MOVED
    ensures Watermark(c, [BASE_1, MOVED_DELTA]) == 3 && Above(MOVED_ROWS, 3).Keys == {}
    ensures Suppressed(c, [BASE_1, MOVED_DELTA], MOVED_ROWS) == {}
    ensures Replay(MOVED_LOG) == MOVED_LIVE
  {
    var gen := [BASE_1, MOVED_DELTA];
    RunInv(c, events);
    assert MOVED.readers[0] == gen;
    ChainWatermark(c, gen, MOVED_LOG);
    OnlyTheMovedAreNew();
    assert gen[..1] == [BASE_1];
    assert DeltaTombstones(gen) == DeltaTombstones([BASE_1]) + {};
    forall id ensures SameAt(Replay(MOVED_LOG), MOVED_LIVE, id) {
      ReplayAt(MOVED_LOG, id);
      assert LastLsn(MOVED_LOG, id) == if id == "b" then 3 else if id == "a" then 2 else 0;
    }
    SameEverywhere(Replay(MOVED_LOG), MOVED_LIVE);
  }

  lemma MovedHits(flt: Meta)
    ensures DedupedHits([BASE_1, MOVED_DELTA], flt) == Passing(OneLive("a"), flt) + Passing(MOVED_LIVE, flt)
  {
    var gen := [BASE_1, MOVED_DELTA];
    assert gen[..1] == [BASE_1] && [BASE_1][..0] == [];
    assert DedupedHits([], flt) == map[];
  }

  /** The newest copy fails the filter, an older one passes. */
  lemma MovedCold()
    ensures var gen, cold := [BASE_1, MOVED_DELTA], ColdContents([BASE_1, MOVED_DELTA]);
      && "a" in cold && !Passes(cold["a"].metadata, TAG)
      && SomeCopyPasses(gen, "a", TAG) && "a" !in DeltaTombstones(gen)
  {
    var gen := [BASE_1, MOVED_DELTA];
    assert gen[..1] == [BASE_1] && "a" in gen[1].live && "a" in gen[0].live;
    assert gen[1].live["a"] == FAR_A.payload && "c" in TAG && "c" !in FAR_A.payload.metadata;
    assert DeltaTombstones([BASE_1]) == {};
  }

  lemma StaleCopyIn(c: Config, events: seq<Event>)
    requires c.deltaTier && Run(c, events) == MOVED
    ensures "a" !in Passing(Replay(MOVED_LOG), TAG)
    ensures "a" in Answer(c, MOVED.readers[0], MOVED_ROWS, TAG)
    ensures Misreported(c, MOVED.readers[0], MOVED_ROWS, TAG, "a")
  {
    MovedFacts(c, events);
    MovedHits(TAG);
    assert "c" in TAG && "c" !in MOVED_LIVE["a"].metadata;
    assert "a" in Passing(OneLive("a"), TAG) && "a" !in Passing(MOVED_LIVE, TAG);
    assert "a" !in Above(MOVED_ROWS, 3) && "a" !in LiveOf(Above(MOVED_ROWS, 3));
    MovedCold();
  }

  /** A filter on the old tag finds "a", although "a" has lost the tag: the new
      copy fails the filter in its shard, so nothing replaces the old one. */
  lemma StaleCopyPassesTheFilter()
    ensures exists events: seq<Event> ::
      var s := Run(KEEP_2, events);
      && 0 in s.readers && s.trimmed == 0
      && "a" !in Passing(Replay(s.log), TAG)
      && "a" in Answer(KEEP_2, s.readers[0], s.mem.rows, TAG)
      && Misreported(KEEP_2, s.readers[0], s.mem.rows, TAG, "a")
  {
    MovedReachable(KEEP_2);
    var events: seq<Event> :| Run(KEEP_2, events) == MOVED;
    StaleCopyIn(KEEP_2, events);
  }

  // ----- the same shards with a finite top_k -----

  const OLD_A := Match("a", 0.0, TAG)
  const FAR_MATCH := Match("a", 100.0, map[])
  const NEAR_MATCH := Match("b", 1.0, map[])
  const ORIGIN := [0.0]

  lemma Distances()
    ensures Dist(ORIGIN, [0.0]) == 0.0 && Dist(ORIGIN, [1.0]) == 1.0 && Dist(ORIGIN, [10.0]) == 100.0
  {
    assert Dist([0.0][1..], [0.0][1..]) == 0.0;
    assert Dist([0.0][1..], [1.0][1..]) == 0.0;
    assert Dist([0.0][1..], [10.0][1..]) == 0.0;
  }

  lemma MovedListing()
    ensures IsListing([OLD_A, NEAR_MATCH], Deduped([[OLD_A], [NEAR_MATCH, FAR_MATCH]], 1))
  {
    var rankings := [[OLD_A], [NEAR_MATCH, FAR_MATCH]];
    assert rankings[..1] == [[OLD_A]] && [[OLD_A]][..0] == [];
    assert Take([OLD_A], 1) == [OLD_A] && Take([NEAR_MATCH, FAR_MATCH], 1) == [NEAR_MATCH];
    assert [OLD_A][..0] == [] && [NEAR_MATCH][..0] == [];
    assert Overwritten(map[], [OLD_A]) == map["a" := OLD_A];
    assert Deduped([[OLD_A]], 1) == map["a" := OLD_A];
    assert Overwritten(map["a" := OLD_A], [NEAR_MATCH]) == map["a" := OLD_A, "b" := NEAR_MATCH];
  }

  lemma MovedRankings()
    ensures Passing(OneLive("a"), map[]) == OneLive("a") && Passing(MOVED_LIVE, map[]) == MOVED_LIVE
    ensures Ranks([OLD_A], OneLive("a"), ORIGIN) && Ranks([NEAR_MATCH, FAR_MATCH], MOVED_LIVE, ORIGIN)
  {
    Distances();
  }

  lemma NothingRanked(m: Contents)
    requires forall id :: id !in m
    ensures Ranks([], m, ORIGIN)
  {
  }

  lemma MovedQuery(c: Config)
    requires c.deltaTier && Watermark(c, [BASE_1, MOVED_DELTA]) == 3 && Above(MOVED_ROWS, 3).Keys == {}
    ensures IsQuery(c, [BASE_1, MOVED_DELTA], MOVED_ROWS, map[], ORIGIN, 1,
                    [], [[OLD_A], [NEAR_MATCH, FAR_MATCH]], [OLD_A, NEAR_MATCH])
    ensures Ranks([NEAR_MATCH, FAR_MATCH], Passing(MOVED_LIVE, map[]), ORIGIN)
  {
    MovedRankings();
    MovedListing();
    NothingRanked(Passing(LiveOf(Above(MOVED_ROWS, 3)), map[]));
  }

  lemma MovedCut()
    ensures Merge({}, [], [OLD_A, NEAR_MATCH], 1) == [OLD_A]
  {
    FilterAll([OLD_A, NEAR_MATCH], Unsuppressed({}));
    assert [] + [OLD_A, NEAR_MATCH] == [OLD_A, NEAR_MATCH];
    assert [OLD_A, NEAR_MATCH][1..] == [NEAR_MATCH] && [NEAR_MATCH][1..] == [];
    assert SortBy([NEAR_MATCH], NoFarther) == [NEAR_MATCH];
    assert SortBy([OLD_A, NEAR_MATCH], NoFarther) == [OLD_A, NEAR_MATCH];
  }

  /** Asked for one neighbour, the delta offers only "b"; the base's old "a" is
      never overwritten and wins, although "a" is now far away. */
  lemma StaleCopyWinsTheOnlySlot()
    ensures exists events: seq<Event>, recall: seq<Match>, rankings: seq<seq<Match>>, listed: seq<Match>,
                   truth: seq<Match> ::
      var s := Run(KEEP_2, events);
      && 0 in s.readers && s.trimmed == 0
      && IsQuery(KEEP_2, s.readers[0], s.mem.rows, map[], ORIGIN, 1, recall, rankings, listed)
      && Ranks(truth, Passing(Replay(s.log), map[]), ORIGIN)
      && Merge(Suppressed(KEEP_2, s.readers[0], s.mem.rows), Take(recall, 1), listed, 1) == [OLD_A]
      && OLD_A !in truth
  {
    MovedReachable(KEEP_2);
    var events: seq<Event> :| Run(KEEP_2, events) == MOVED;
    MovedFacts(KEEP_2, events);
    var gen := [BASE_1, MOVED_DELTA];
    assert MOVED.readers[0] == gen;
    MovedQuery(KEEP_2);
    MovedCut();
    var s := Run(KEEP_2, events);
    assert IsQuery(KEEP_2, s.readers[0], s.mem.rows, map[], ORIGIN, 1, [],
                   [[OLD_A], [NEAR_MATCH, FAR_MATCH]], [OLD_A, NEAR_MATCH]);
    assert Ranks([NEAR_MATCH, FAR_MATCH], Passing(Replay(s.log), map[]), ORIGIN);
    assert Take<Match>([], 1) == [];
  }

  // ----- an emptied slot nobody fills -----

  const NO_DELTAS := Config(2, false, 1)

  const TWO_LOG := [Logged(Rec("a")), Logged(NEAR_B)]
  const TWO_ROWS := map["a" := LiveRow("a", 1), "b" := Written(NEAR_B, 2)]
  const TWO_LIVE: Contents := map["a" := Rec("a").payload, "b" := NEAR_B.payload]
  const TWO_BASE := NewBase(1, 0, true, 2, 0, TWO_LIVE)

  /** Two vectors are folded and resolved, with the delta tier off ... */
  const TWO := State(TWO_LOG, Partition(TWO_ROWS, 2), [TWO_BASE], 2, 0, Idle, map[0 := [TWO_BASE]])

  /** ... and then the nearer one is deleted. */
  const ONE_ROWS := map["a" := Row(Rec("a").payload, 3, true), "b" := Written(NEAR_B, 2)]
  const ONE_LEFT := TWO.(log := TWO_LOG + [Del("a")], mem := Partition(ONE_ROWS, 3))

  const TWO_UNFOLDED := State(TWO_LOG, Partition(TWO_ROWS, 2), [], 1, 0, Idle, map[])

  lemma TwoWritten(c: Config)
    ensures Reachable(c, TWO_UNFOLDED)
  {
    var s := START.(log := [Logged(Rec("a"))], mem := Partition(map["a" := LiveRow("a", 1)], 1));
    assert Run(c, []) == START;
    UpsertOne(c, START, Rec("a"));
    assert Do(c, START, Upserted([Rec("a")])) == s;
    Step(c, START, Upserted([Rec("a")]));
    UpsertOne(c, s, NEAR_B);
    assert s.log + [Logged(NEAR_B)] == TWO_LOG && s.mem.rows["b" := Written(NEAR_B, 2)] == TWO_ROWS;
    Step(c, s, Upserted([NEAR_B]));
  }

  lemma TwoCommit(c: Config, s: State)
    requires c == NO_DELTAS && s.shards == [] && s.nextId == 1 && s.builder == Holding(2, TWO_ROWS, 0)
    ensures Do(c, s, FoldCommitted(true)) == s.(shards := [TWO_BASE], nextId := 2, builder := Idle)
  {
    assert "a" in LiveOf(TWO_ROWS) && LiveOf(TWO_ROWS) == TWO_LIVE;
    assert [TWO_BASE] + [] == [TWO_BASE];
  }

  lemma TwoSnapshot(c: Config)
    ensures Reachable(c, TWO_UNFOLDED.(builder := Holding(2, TWO_ROWS, 0)))
  {
    TwoWritten(c);
    assert "b" in TWO_ROWS && TWO_ROWS["b"].lsn == 2;
    DoSnapshot(c, TWO_UNFOLDED, 2);
    Step(c, TWO_UNFOLDED, SnapshotTaken(2));
  }

  lemma TwoReachable(c: Config)
    requires c == NO_DELTAS
    ensures Reachable(c, TWO)
  {
    TwoSnapshot(c);
    var s := TWO_UNFOLDED.(builder := Holding(2, TWO_ROWS, 0));
    TwoCommit(c, s);
    Step(c, s, FoldCommitted(true));
    var folded := s.(shards := [TWO_BASE], nextId := 2, builder := Idle);
    assert Do(c, folded, Resolved(0)) == TWO;
    Step(c, folded, Resolved(0));
  }

  lemma OneLeftReachable(c: Config)
    requires c == NO_DELTAS
    ensures Reachable(c, ONE_LEFT)
  {
    TwoReachable(c);
    assert Do(c, TWO, Deleted("a", 1)) == ONE_LEFT;
    Step(c, TWO, Deleted("a", 1));
  }

  lemma OnlyTheDeletionIsNew()
    ensures Above(ONE_ROWS, 2).Keys == {"a"} && forall id :: id !in LiveOf(Above(ONE_ROWS, 2))
  {
    assert "a" in ONE_ROWS && ONE_ROWS["a"].lsn == 3 && ONE_ROWS["a"].deleted;
    assert "b" in ONE_ROWS && ONE_ROWS["b"].lsn == 2;
  }

  lemma TwoRanked()
    ensures DedupedHits([TWO_BASE], map[]) == TWO_LIVE
    ensures Ranks([OLD_A, NEAR_MATCH], TWO_LIVE, ORIGIN)
  {
    Distances();
    assert [TWO_BASE][..0] == [] && DedupedHits([], map[]) == map[];
    assert Passing(TWO_LIVE, map[]) == TWO_LIVE;
  }

  lemma OneRanked()
    ensures Ranks([NEAR_MATCH], Passing(Replay(ONE_LEFT.log), map[]), ORIGIN)
  {
    Distances();
    var log := ONE_LEFT.log;
    forall id
      ensures id in Replay(log) <==> id == "b"
      ensures id == "b" ==> Replay(log)[id] == NEAR_B.payload
    {
      ReplayAt(log, id);
      assert LastLsn(log, id) == if id == "a" then 3 else if id == "b" then 2 else 0;
    }
  }

  lemma EmptySlot()
    ensures !SlotsRefilled({"a"}, [], [OLD_A, NEAR_MATCH], 1)
  {
    var cold, p := [OLD_A, NEAR_MATCH], Unsuppressed({"a"});
    assert !p(OLD_A) && p(NEAR_MATCH);
    assert cold[1..] == [NEAR_MATCH] && Take(cold, 1) == [OLD_A];
    FilterAll([NEAR_MATCH], p);
    FilterNone([OLD_A], p);
    assert CountWithin([], NEAR_MATCH.score) == 0;
  }

  /** With the delta tier off, after two writes, one fold and one delete: the shard's
      only slot goes to the deleted vector, recall has nothing to put there, and a
      query for one neighbour finds none although "b" is left. */
  lemma DeletedNearestEmptiesTheAnswer()
    ensures exists events: seq<Event>, recall: seq<Match>, cold: seq<Match>, truth: seq<Match> ::
      var s := Run(NO_DELTAS, events);
      && 0 in s.readers && s.trimmed == 0
      && var suppress := Above(s.mem.rows, Watermark(NO_DELTAS, s.readers[0])).Keys;
      && Ranks(recall, Passing(LiveOf(Above(s.mem.rows, Watermark(NO_DELTAS, s.readers[0]))), map[]), ORIGIN)
      && Ranks(cold, DedupedHits(s.readers[0], map[]), ORIGIN)
      && Ranks(truth, Passing(Replay(s.log), map[]), ORIGIN)
      && !SlotsRefilled(suppress, recall, cold, 1)
      && RankedAnswer(suppress, recall, cold, 1) == [] && truth == [NEAR_MATCH]
  {
    OneLeftReachable(NO_DELTAS);
    var events: seq<Event> :| Run(NO_DELTAS, events) == ONE_LEFT;
    DeletedNearestHidesTheNext(OLD_A, NEAR_MATCH);
    EmptySlot();
    OnlyTheDeletionIsNew();
    TwoRanked();
    OneRanked();
    NothingRanked(Passing(LiveOf(Above(ONE_ROWS, 2)), map[]));
    var s := Run(NO_DELTAS, events);
    assert s.readers[0] == [TWO_BASE] && Watermark(NO_DELTAS, [TWO_BASE]) == 2;
    assert !SlotsRefilled({"a"}, [], [OLD_A, NEAR_MATCH], 1);
    assert RankedAnswer({"a"}, [], [OLD_A, NEAR_MATCH], 1) == [];
  }
}
