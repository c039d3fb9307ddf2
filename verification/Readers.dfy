/** What a reader sees: cold contents of the shards it resolved, overlaid with
    the recall rows above the watermark computed from those same shards. */
module Readers {
  import opened Records
  import opened Seqs
  import opened Memtable
  import opened ShardGenerations
  import opened Log
  import opened Protocol
  import opened Safety

  // ----- the watermark a query pairs with its shards -----

  /** Extend the frontier over abutting bands; stop at the first gap. */
  function Walk(deltas: seq<Shard>, frontier: nat): nat {
    if deltas == [] || deltas[0].coveredLo != frontier + 1 then frontier
    else Walk(deltas[1..], deltas[0].coveredHi)
  }

  function FrontierWatermark(resolved: seq<Shard>): nat {
    if resolved == [] then 0
    else
      var ordered := SortBy(resolved, BandLe);
      if ordered == [] then 0 else Walk(ordered[1..], ShardFrontier(ordered[0]))
  }

  method ComputeFrontierWatermark(resolved: seq<Shard>) returns (frontier: nat)
    ensures frontier == FrontierWatermark(resolved)
  {
    if resolved == [] {
      return 0;
    }
    var ordered := SortBy(resolved, BandLe);
    BandLeIsOrder();
    SortBySorts(resolved, BandLe);
    frontier := ShardFrontier(ordered[0]);
    var i := 1;
    while i < |ordered|
      invariant 1 <= i <= |ordered|
      invariant Walk(ordered[i..], frontier) == FrontierWatermark(resolved)
    {
      assert ordered[i..][1..] == ordered[i + 1..];
      if ordered[i].coveredLo != frontier + 1 {
        break;
      }
      frontier := ordered[i].coveredHi;
      i := i + 1;
    }
  }

  function Watermark(c: Config, resolved: seq<Shard>): nat {
    if resolved == [] then 0
    else if c.deltaTier then FrontierWatermark(resolved)
    else resolved[0].consolidatedLsn
  }

  /** The union of the two tiers, recall authoritative above the watermark. */
  function View(c: Config, resolved: seq<Shard>, rows: map<Id, Row>): Contents {
    Overlay(ColdContents(resolved), Above(rows, Watermark(c, resolved)))
  }

  // ----- chains and parts of chains -----

  /** The base of a chain with some of its deltas, in order: what a stale
      listing that misses rows can resolve. */
  ghost predicate PartOf(part: seq<Shard>, gen: seq<Shard>) {
    if part == [] || gen == [] then false
    else if |gen| == 1 then part == gen
    else
      PartOf(part, gen[..|gen| - 1])
      || (|part| > 1 && part[|part| - 1] == gen[|gen| - 1] && PartOf(part[..|part| - 1], gen[..|gen| - 1]))
  }

  lemma {:induction false} PartMembers(part: seq<Shard>, gen: seq<Shard>, log: seq<Op>)
    requires Chain(gen, log) && PartOf(part, gen)
    ensures part != [] && part[0] == gen[0] && forall s :: s in part ==> s in gen
    ensures forall i :: 0 < i < |part| ==> DeltaHolds(part[i], log) && part[i - 1].consolidatedLsn < part[i].coveredLo
    ensures BaseHolds(part[0], log)
    ensures part[|part| - 1].consolidatedLsn <= LastFrontier(gen)
  {
    ChainBounds(gen, log);
    if |gen| > 1 {
      var front := gen[..|gen| - 1];
      if PartOf(part, front) {
        PartMembers(part, front, log);
      } else {
        var shorter := part[..|part| - 1];
        PartMembers(shorter, front, log);
        assert part == shorter + [gen[|gen| - 1]];
        ChainBounds(front, log);
      }
    }
  }

  lemma {:induction false} WholeIsPart(gen: seq<Shard>, log: seq<Op>)
    requires Chain(gen, log)
    ensures PartOf(gen, gen)
  {
    if |gen| > 1 {
      WholeIsPart(gen[..|gen| - 1], log);
    }
  }

  /** Bands of a part ascend, so sorting it changes nothing. */
  lemma {:induction false} AscendingIsSorted(s: seq<Shard>)
    requires forall i :: 0 < i < |s| ==> s[i - 1].coveredLo < s[i].coveredLo
    ensures SortBy(s, BandLe) == s
  {
    if |s| > 1 {
      AscendingIsSorted(s[1..]);
      assert s == [s[0]] + s[1..];
    } else if |s| == 1 {
      assert SortBy(s[1..], BandLe) == [];
      assert s == [s[0]];
    }
  }

  lemma PartIsSorted(part: seq<Shard>, gen: seq<Shard>, log: seq<Op>)
    requires Chain(gen, log) && PartOf(part, gen)
    ensures SortBy(part, BandLe) == part
  {
    PartMembers(part, gen, log);
    forall i | 0 < i < |part| ensures part[i - 1].coveredLo < part[i].coveredLo {
      if i > 1 {
        assert DeltaHolds(part[i - 1], log);
      }
    }
    AscendingIsSorted(part);
  }

  /** The shards the walk got through form a chain ending at its frontier. */
  lemma {:induction false} WalkFindsChain(part: seq<Shard>, n: nat, log: seq<Op>) returns (m: nat)
    requires 0 < n <= |part|
    requires forall i :: 0 < i < |part| ==> DeltaHolds(part[i], log) && part[i - 1].consolidatedLsn < part[i].coveredLo
    requires Chain(part[..n], log)
    ensures n <= m <= |part| && Chain(part[..m], log)
    ensures Walk(part[n..], LastFrontier(part[..n])) == LastFrontier(part[..m])
    ensures m < |part| ==> part[m].coveredLo != LastFrontier(part[..m]) + 1
    decreases |part| - n
  {
    m := n;
    if n < |part| && part[n].coveredLo == LastFrontier(part[..n]) + 1 {
      assert part[..n + 1][..n] == part[..n];
      assert Chain(part[..n + 1], log);
      assert part[n..][1..] == part[n + 1..];
      m := WalkFindsChain(part, n + 1, log);
    }
  }

  /** Bands ascend strictly, so everything past the m-th starts above it. */
  lemma {:induction false} LaterBandsAreHigher(part: seq<Shard>, m: nat, k: nat, log: seq<Op>)
    requires 0 < m <= k < |part|
    requires forall i :: 0 < i < |part| ==> DeltaHolds(part[i], log) && part[i - 1].consolidatedLsn < part[i].coveredLo
    ensures part[k].coveredLo > part[m - 1].consolidatedLsn
  {
    if m < k {
      LaterBandsAreHigher(part, m, k - 1, log);
      assert DeltaHolds(part[k - 1], log);
    }
  }

  /** Shards that do not mention an id leave it as it was. */
  lemma {:induction false} UnmentionedUnchanged(part: seq<Shard>, m: nat, id: Id)
    requires m <= |part|
    requires forall k :: m <= k < |part| ==> id !in part[k].live && id !in part[k].tombstones
    ensures SameAt(ColdContents(part), ColdContents(part[..m]), id)
  {
    if m < |part| {
      var front := part[..|part| - 1];
      UnmentionedUnchanged(front, m, id);
      assert front[..m] == part[..m];
    } else {
      assert part[..m] == part;
    }
  }

  /** Shards past the walk's stop start above its frontier, so they say nothing
      about an id last written at or below it. */
  lemma PastTheStop(part: seq<Shard>, m: nat, log: seq<Op>, id: Id)
    requires 0 < m <= |part| && Chain(part[..m], log)
    requires forall i :: 0 < i < |part| ==> DeltaHolds(part[i], log) && part[i - 1].consolidatedLsn < part[i].coveredLo
    requires LastLsn(log, id) <= LastFrontier(part[..m])
    ensures SameAt(ColdContents(part), Replay(log), id)
  {
    var f := LastFrontier(part[..m]);
    ChainBounds(part[..m], log);
    ChainContents(part[..m], log);
    forall k | m <= k < |part| ensures id !in part[k].live && id !in part[k].tombstones {
      assert part[..m][m - 1] == part[m - 1];
      LaterBandsAreHigher(part, m, k, log);
      assert BandAt(part[k], log, id);
      LastLsnPrefix(log, part[k].coveredHi, id);
    }
    UnmentionedUnchanged(part, m, id);
    ReplayPrefix(log, f, id);
  }

  /** The id's last write is out of the reader's sight: made after its frontier,
      so not in its shards, and trimmed, so not in recall either. */
  ghost predicate InBlindBand(s: State, watermark: nat, id: Id) {
    watermark < LastLsn(s.log, id) <= s.trimmed
  }

  /** A write the reader misses for good: in its blind band, and with an outcome
      its shards do not happen to hold already. */
  ghost predicate Lost(s: State, cold: Contents, watermark: nat, id: Id) {
    InBlindBand(s, watermark, id)
    && match s.log[LastLsn(s.log, id) - 1]
       case Put(_, payload) => !(id in cold && cold[id] == payload)
       case Del(_) => id in cold
  }

  /** The shards are right about every id last written up to the frontier. */
  ghost predicate HoldsUpTo(cold: Contents, log: seq<Op>, w: nat) {
    forall id :: LastLsn(log, id) <= w ==> SameAt(cold, Replay(log), id)
  }

  /** Reading such shards with recall above the frontier shows the whole history if
      and only if no write is lost. */
  lemma ReadsIff(s: State, cold: Contents, w: nat)
    requires RecallOk(s) && HoldsUpTo(cold, s.log, w)
    ensures Overlay(cold, Above(s.mem.rows, w)) == Replay(s.log) <==> forall id :: !Lost(s, cold, w, id)
  {
    var seen := Overlay(cold, Above(s.mem.rows, w));
    forall id ensures SameAt(seen, Replay(s.log), id) <==> !Lost(s, cold, w, id) {
      ReplayAt(s.log, id);
      OverlayLookup(cold, Above(s.mem.rows, w), id);
      assert AgreesAt(s.mem.rows, s.log, s.trimmed, id);
      assert id in Above(s.mem.rows, w) <==> LastLsn(s.log, id) > w && LastLsn(s.log, id) > s.trimmed;
    }
    if forall id :: !Lost(s, cold, w, id) {
      forall id ensures SameAt(seen, Replay(s.log), id) { assert !Lost(s, cold, w, id); }
      SameEverywhere(seen, Replay(s.log));
    } else {
      var id :| Lost(s, cold, w, id);
      assert !SameAt(seen, Replay(s.log), id);
    }
  }

  /** Any part of a chain, paired with its own gap-clamped frontier. */
  lemma PartReadsIff(s: State, part: seq<Shard>, gen: seq<Shard>)
    requires RecallOk(s) && Chain(gen, s.log) && PartOf(part, gen)
    ensures var w := FrontierWatermark(part);
      Overlay(ColdContents(part), Above(s.mem.rows, w)) == Replay(s.log)
      <==> forall id :: !Lost(s, ColdContents(part), w, id)
  {
    PartMembers(part, gen, s.log);
    PartIsSorted(part, gen, s.log);
    assert part[..1] == [part[0]];
    var m := WalkFindsChain(part, 1, s.log);
    forall id | LastLsn(s.log, id) <= FrontierWatermark(part) ensures SameAt(ColdContents(part), Replay(s.log), id) {
      PastTheStop(part, m, s.log, id);
    }
    ReadsIff(s, ColdContents(part), FrontierWatermark(part));
  }

  /** On a whole chain the walk reaches the end: all the code's frontiers agree. */
  lemma {:induction false} WalkWhole(gen: seq<Shard>, n: nat, log: seq<Op>)
    requires 0 < n <= |gen| && Chain(gen, log)
    ensures Walk(gen[n..], ShardFrontier(gen[n - 1])) == LastFrontier(gen)
    decreases |gen| - n
  {
    ChainBounds(gen, log);
    if n < |gen| {
      assert gen[n..][1..] == gen[n + 1..];
      WalkWhole(gen, n + 1, log);
    }
  }

  lemma ChainWatermark(c: Config, gen: seq<Shard>, log: seq<Op>)
    requires Chain(gen, log) && (!c.deltaTier ==> |gen| == 1)
    ensures Watermark(c, gen) == FrontierWatermark(gen) == LastFrontier(gen)
  {
    WholeIsPart(gen, log);
    PartIsSorted(gen, gen, log);
    WalkWhole(gen, 1, log);
    ChainBounds(gen, log);
  }

  // ----- main results -----

  /** In every reachable state the live watermark is the same number however it
      is computed: highest watermark, highest frontier, contiguous frontier. */
  lemma WatermarksAgree(c: Config, events: seq<Event>)
    ensures var s := Run(c, events); var gens := Generations(s.shards);
      gens != [] ==> (DatasetWatermark(s.shards) == Frontier(gens[0])
        == FrontierWatermark(Ordered(gens[0])) == Watermark(c, Resolve(c, s.shards)))
  {
    RunInv(c, events);
    var s := Run(c, events);
    var gens := Generations(s.shards);
    if gens != [] {
      InGeneration(s.shards, 0, gens[0][0]);
      var o := Ordered(gens[0]);
      ResolveIsChain(c, s);
      FrontierIsLast(gens[0], s.log);
      ChainBounds(o, s.log);
      ChainMaxima(o, s.log, (t: Shard) => t.consolidatedLsn);
      ChainWatermark(c.(deltaTier := true), o, s.log);
      ChainWatermark(c, o, s.log) by {
        if !c.deltaTier { assert o == [s.shards[0]]; }
      }
    }
  }

  /** No loss, no duplication, no staleness: in every reachable state, each of
      the newest `keep` generations, read with its own frontier, shows exactly
      the last-write-wins contents of every write so far. */
  lemma RetainedGenerationsReadHistory(c: Config, events: seq<Event>, i: nat)
    requires i < |Generations(Run(c, events).shards)| && (i == 0 || i < c.keep)
    ensures var s := Run(c, events); var gen := Ordered(Generations(s.shards)[i]);
      Overlay(ColdContents(gen), Above(s.mem.rows, FrontierWatermark(gen))) == Replay(s.log)
  {
    RunInv(c, events);
    var s := Run(c, events);
    var gen := Generations(s.shards)[i];
    FrontierIsLast(gen, s.log);
    WholeIsPart(Ordered(gen), s.log);
    ChainWatermark(c.(deltaTier := true), Ordered(gen), s.log);
    PartReadsIff(s, Ordered(gen), Ordered(gen));
  }

  /** A listing that misses deltas of a generation, read with its gap-clamped
      frontier, shows the whole history if and only if no trimmed write above that
      frontier is missing from what it lists; so it does whenever recall was not
      trimmed past the frontier. */
  lemma GappedListingsReadHistory(c: Config, events: seq<Event>, i: nat, part: seq<Shard>)
    requires var s := Run(c, events);
      i < |Generations(s.shards)| && PartOf(part, Ordered(Generations(s.shards)[i]))
    ensures var s := Run(c, events);
      var w := FrontierWatermark(part);
      var seen := Overlay(ColdContents(part), Above(s.mem.rows, w));
      && (seen == Replay(s.log) <==> forall id :: !Lost(s, ColdContents(part), w, id))
      && (s.trimmed <= w ==> seen == Replay(s.log))
  {
    RunInv(c, events);
    var s := Run(c, events);
    PartReadsIff(s, part, Ordered(Generations(s.shards)[i]));
  }

  /** The id's last write lies in the reader's shards or in the recall rows it
      pairs with them. */
  ghost predicate SeesLastWrite(s: State, watermark: nat, id: Id) {
    LastLsn(s.log, id) <= watermark || id in Above(s.mem.rows, watermark)
  }

  /** A reader in any reachable state sees the last write of every id if and only
      if none lies in its blind band; so it does whenever recall was not trimmed
      past its frontier, which can be checked before the read. */
  lemma ReaderSeesEveryWriteIff(c: Config, events: seq<Event>, watermark: nat)
    ensures var s := Run(c, events);
      && ((forall id :: SeesLastWrite(s, watermark, id)) <==> (forall id :: !InBlindBand(s, watermark, id)))
      && (s.trimmed <= watermark ==> forall id :: SeesLastWrite(s, watermark, id))
  {
    RunInv(c, events);
    var s := Run(c, events);
    forall id ensures SeesLastWrite(s, watermark, id) <==> !InBlindBand(s, watermark, id) {
      assert AgreesAt(s.mem.rows, s.log, s.trimmed, id);
    }
    if forall id :: SeesLastWrite(s, watermark, id) {
      forall id ensures !InBlindBand(s, watermark, id) { assert SeesLastWrite(s, watermark, id); }
    }
    if forall id :: !InBlindBand(s, watermark, id) {
      forall id ensures SeesLastWrite(s, watermark, id) { assert !InBlindBand(s, watermark, id); }
    }
  }

  /** What a resolution holds: nothing, or a chain; one shard when deltas are off. */
  lemma {:induction false} ReadersResolveChains(c: Config, events: seq<Event>, r: nat)
    requires r in Run(c, events).readers
    ensures !c.deltaTier ==> |Run(c, events).readers[r]| <= 1
  {
    if events == [] {
    } else {
      var before, e := Run(c, events[..|events| - 1]), events[|events| - 1];
      if r in before.readers && e != Resolved(r) {
        ReadersResolveChains(c, events[..|events| - 1], r);
      }
    }
  }

  lemma ReaderCold(c: Config, s: State, resolved: seq<Shard>)
    requires resolved == [] || Chain(resolved, s.log)
    requires !c.deltaTier ==> |resolved| <= 1
    ensures Watermark(c, resolved) <= |s.log|
    ensures ColdContents(resolved) == Replay(s.log[..Watermark(c, resolved)])
  {
    if resolved == [] {
      assert s.log[..0] == [];
    } else {
      ChainWatermark(c, resolved, s.log);
      ChainBounds(resolved, s.log);
      ChainContents(resolved, s.log);
    }
  }

  /** No trimmed write above the frontier is missing from the shards. A query can
      rely on that when no id's last write lies in its blind band. */
  ghost predicate MissesNothing(c: Config, s: State, resolved: seq<Shard>) {
    forall id :: !Lost(s, ColdContents(resolved), Watermark(c, resolved), id)
  }

  /** Exactly when the contents such a query reads are those of the whole history:
      when every write in its blind band repeats what its shards hold. */
  lemma InFlightReaders(c: Config, events: seq<Event>, r: nat)
    requires r in Run(c, events).readers
    ensures var s := Run(c, events); var resolved := s.readers[r];
      && (View(c, resolved, s.mem.rows) == Replay(s.log) <==> MissesNothing(c, s, resolved))
      && ((forall id :: !InBlindBand(s, Watermark(c, resolved), id)) ==> MissesNothing(c, s, resolved))
      && (s.trimmed <= Watermark(c, resolved) ==> MissesNothing(c, s, resolved))
  {
    RunInv(c, events);
    ReadersResolveChains(c, events, r);
    var s := Run(c, events);
    var resolved := s.readers[r];
    var w := Watermark(c, resolved);
    var cold := ColdContents(resolved);
    ReaderCold(c, s, resolved);
    forall id | LastLsn(s.log, id) <= w ensures SameAt(cold, Replay(s.log), id) {
      ReplayPrefix(s.log, w, id);
    }
    ReadsIff(s, cold, w);
  }

  /** Without deltas the grace buffer keeps its promise: a query that resolved
      a shard still among the newest `keep` loses nothing to trims. */
  lemma BaseOnlyGraceProtectsReaders(c: Config, events: seq<Event>, r: nat, i: nat)
    requires !c.deltaTier
    requires var s := Run(c, events);
      && r in s.readers && s.readers[r] != []
      && (i == 0 || i < c.keep) && i < |s.shards| && s.shards[i] == s.readers[r][0]
    ensures var s := Run(c, events); View(c, s.readers[r], s.mem.rows) == Replay(s.log)
  {
    RunInv(c, events);
    var s := Run(c, events);
    var shard := s.shards[i];
    FilterAll(s.shards, IsBase);
    BaseOnlyGenerations(s.shards, s.shards);
    FrontierSingle(shard);
    ReadersResolveChains(c, events, r);
    assert s.readers[r] == [shard];
    ChainBounds(s.readers[r], s.log);
    InFlightReaders(c, events, r);
  }

  // ----- crash safety -----

  lemma RefoldUnchanged(rows: map<Id, Row>, log: seq<Op>, trimmed: nat, f: nat)
    requires RecallAgrees(rows, log, trimmed) && f <= |log|
    ensures Overlay(Replay(log[..f]), rows - Above(rows, f).Keys) == Replay(log[..f])
  {
    var folded, past := rows - Above(rows, f).Keys, log[..f];
    forall id ensures SameAt(Overlay(Replay(past), folded), Replay(past), id) {
      assert AgreesAt(rows, log, trimmed, id);
      OverlayLookup(Replay(past), folded, id);
      ReplayAt(past, id);
      LastLsnPrefix(log, f, id);
    }
    SameEverywhere(Overlay(Replay(past), folded), Replay(past));
  }

  /** A recall row at or below a retained generation's frontier repeats what
      that generation holds, so folding it again changes nothing and dropping
      it twice is dropping it once. */
  lemma RefoldingIsHarmless(c: Config, events: seq<Event>, i: nat)
    requires i < |Generations(Run(c, events).shards)|
    ensures var s := Run(c, events); var gen := Ordered(Generations(s.shards)[i]);
      var folded := s.mem.rows - Above(s.mem.rows, FrontierWatermark(gen)).Keys;
      Overlay(ColdContents(gen), folded) == ColdContents(gen)
    ensures var s := Run(c, events); var grace := GraceWatermark(s.shards, c.keep);
      Trim(Trim(s.mem, grace), grace) == Trim(s.mem, grace)
  {
    RunInv(c, events);
    var s := Run(c, events);
    var gen := Ordered(Generations(s.shards)[i]);
    ChainWatermark(c.(deltaTier := true), gen, s.log);
    ChainContents(gen, s.log);
    ChainBounds(gen, s.log);
    RefoldUnchanged(s.mem.rows, s.log, s.trimmed, LastFrontier(gen));
    var grace := GraceWatermark(s.shards, c.keep);
    assert Above(Above(s.mem.rows, grace), grace) == Above(s.mem.rows, grace);
  }
}
