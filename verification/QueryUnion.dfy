/** The query path's union as the code computes it: per-shard filtered hits,
    newest-shard-wins deduplication, delta tombstones pooled into one
    suppression set, and recall matches on top. top_k is taken to be at least
    the number of rows, so only the filter selects. */
module QueryUnion {
  import opened Records
  import opened Memtable
  import opened ShardGenerations
  import opened Log
  import opened Protocol
  import opened Safety
  import opened Readers

  ghost function Passing(m: Contents, flt: Meta): Contents {
    m - set id | id in m && !Passes(m[id].metadata, flt)
  }

  /** Each shard's hits overwrite the hits of the older shards before it. */
  ghost function DedupedHits(resolved: seq<Shard>, flt: Meta): Contents {
    if resolved == [] then map[]
    else DedupedHits(resolved[..|resolved| - 1], flt) + Passing(resolved[|resolved| - 1].live, flt)
  }

  /** The tombstones of every resolved delta, in one pool. */
  function DeltaTombstones(resolved: seq<Shard>): set<Id> {
    if |resolved| <= 1 then {}
    else DeltaTombstones(resolved[..|resolved| - 1]) + resolved[|resolved| - 1].tombstones
  }

  /** The ids some resolved sidecar can name. */
  function SidecarIds(resolved: seq<Shard>): set<Id> {
    if resolved == [] then {}
    else SidecarIds(resolved[..|resolved| - 1]) + resolved[|resolved| - 1].live.Keys
  }

  function Suppressed(c: Config, resolved: seq<Shard>, rows: map<Id, Row>): set<Id> {
    Above(rows, Watermark(c, resolved)).Keys
    + (if c.deltaTier then DeltaTombstones(resolved) * SidecarIds(resolved) else {})
  }

  /** The matches of one query, by id. */
  ghost function Answer(c: Config, resolved: seq<Shard>, rows: map<Id, Row>, flt: Meta): Contents {
    Passing(LiveOf(Above(rows, Watermark(c, resolved))), flt)
    + (DedupedHits(resolved, flt) - Suppressed(c, resolved, rows))
  }

  // ----- what the pieces say about one id -----

  /** The newest shard that holds a live id, with nothing about it after. */
  lemma {:induction false} ColdAt(gen: seq<Shard>, id: Id) returns (k: nat)
    requires id in ColdContents(gen)
    ensures k < |gen| && id in gen[k].live && ColdContents(gen)[id] == gen[k].live[id]
    ensures forall j :: k <= j < |gen| ==> id !in gen[j].tombstones && (j > k ==> id !in gen[j].live)
  {
    var last, front := |gen| - 1, gen[..|gen| - 1];
    if id in gen[last].live {
      k := last;
    } else {
      k := ColdAt(front, id);
    }
  }

  /** An id some shard holds live but the contents lack was tombstoned. */
  lemma {:induction false} ColdDropsByTombstone(gen: seq<Shard>, log: seq<Op>, id: Id)
    requires Chain(gen, log)
    requires id !in ColdContents(gen) && id in SidecarIds(gen)
    ensures id in DeltaTombstones(gen)
  {
    var front := gen[..|gen| - 1];
    if |gen| == 1 {
      assert ColdContents(front) == map[];
      assert SidecarIds(front) == {};
    } else if id !in gen[|gen| - 1].tombstones {
      ColdDropsByTombstone(front, log, id);
    }
  }

  lemma {:induction false} SidecarAt(gen: seq<Shard>, id: Id)
    ensures id in SidecarIds(gen) <==> exists k :: 0 <= k < |gen| && id in gen[k].live
  {
    if gen == [] {
    } else {
      var front := gen[..|gen| - 1];
      SidecarAt(front, id);
      if k :| 0 <= k < |gen| && id in gen[k].live {
        assert k < |front| ==> front[k] == gen[k];
      }
      if k :| 0 <= k < |front| && id in front[k].live {
        assert id in gen[k].live;
      }
    }
  }

  /** Some shard older than the newest copy holds a copy the filter lets through. */
  ghost predicate SomeCopyPasses(gen: seq<Shard>, id: Id, flt: Meta) {
    exists k :: 0 <= k < |gen| && id in gen[k].live && Passes(gen[k].live[id].metadata, flt)
  }

  lemma {:induction false} HitsAt(gen: seq<Shard>, id: Id, flt: Meta)
    ensures id in DedupedHits(gen, flt) <==> SomeCopyPasses(gen, id, flt)
    ensures id in DedupedHits(gen, flt) ==> id in SidecarIds(gen)
  {
    if gen == [] {
    } else {
      var front := gen[..|gen| - 1];
      HitsAt(front, id, flt);
      if SomeCopyPasses(front, id, flt) {
        var k :| 0 <= k < |front| && id in front[k].live && Passes(front[k].live[id].metadata, flt);
        assert gen[k] == front[k];
      }
      if SomeCopyPasses(gen, id, flt) {
        var k :| 0 <= k < |gen| && id in gen[k].live && Passes(gen[k].live[id].metadata, flt);
        assert k < |front| ==> front[k] == gen[k];
      }
    }
  }

  /** When the newest copy passes, it is the one that survives deduplication. */
  lemma {:induction false} NewestHitWins(gen: seq<Shard>, id: Id, flt: Meta, k: nat)
    requires k < |gen| && id in gen[k].live && Passes(gen[k].live[id].metadata, flt)
    requires forall j :: k < j < |gen| ==> id !in gen[j].live
    ensures id in DedupedHits(gen, flt) && DedupedHits(gen, flt)[id] == gen[k].live[id]
  {
    if k < |gen| - 1 {
      NewestHitWins(gen[..|gen| - 1], id, flt, k);
    }
  }

  // ----- when the answer is right -----

  /** The two ways the union misreports an id recall does not cover: the id was
      deleted in one delta and written again in a later one, so the pooled
      tombstones hide its live copy; or its newest copy fails the filter while
      an older copy, which deduplication never sees replaced, passes. */
  ghost predicate Misreported(c: Config, resolved: seq<Shard>, rows: map<Id, Row>, flt: Meta, id: Id) {
    var cold := ColdContents(resolved);
    && id !in Above(rows, Watermark(c, resolved))
    && id in cold
    && if Passes(cold[id].metadata, flt) then c.deltaTier && id in DeltaTombstones(resolved)
       else !(c.deltaTier && id in DeltaTombstones(resolved)) && SomeCopyPasses(resolved, id, flt)
  }

  /** An id the shards still hold: its newest copy, or one that should be gone. */
  lemma HeldAnswerAt(c: Config, gen: seq<Shard>, rows: map<Id, Row>, flt: Meta, id: Id)
    requires id !in Above(rows, Watermark(c, gen)) && id in ColdContents(gen)
    ensures SameAt(Answer(c, gen, rows, flt), Passing(ColdContents(gen), flt), id)
      <==> !Misreported(c, gen, rows, flt, id)
  {
    HitsAt(gen, id, flt);
    SidecarAt(gen, id);
    var k := ColdAt(gen, id);
    assert id in SidecarIds(gen);
    if Passes(gen[k].live[id].metadata, flt) {
      NewestHitWins(gen, id, flt, k);
    }
  }

  /** An id they do not hold any more: every copy is covered by a tombstone. */
  lemma GoneAnswerAt(c: Config, gen: seq<Shard>, log: seq<Op>, rows: map<Id, Row>, flt: Meta, id: Id)
    requires Chain(gen, log) && (!c.deltaTier ==> |gen| == 1)
    requires id !in Above(rows, Watermark(c, gen)) && id !in ColdContents(gen)
    ensures id !in Answer(c, gen, rows, flt)
  {
    HitsAt(gen, id, flt);
    if id in SidecarIds(gen) {
      ColdDropsByTombstone(gen, log, id);
    }
  }

  lemma ColdAnswerAt(c: Config, gen: seq<Shard>, log: seq<Op>, rows: map<Id, Row>, flt: Meta, id: Id)
    requires Chain(gen, log) && (!c.deltaTier ==> |gen| == 1)
    requires id !in Above(rows, Watermark(c, gen))
    ensures SameAt(Answer(c, gen, rows, flt), Passing(ColdContents(gen), flt), id)
      <==> !Misreported(c, gen, rows, flt, id)
  {
    if id in ColdContents(gen) {
      HeldAnswerAt(c, gen, rows, flt, id);
    } else {
      GoneAnswerAt(c, gen, log, rows, flt, id);
    }
  }

  lemma {:induction false} PassingOverlayAt(cold: Contents, rows: map<Id, Row>, flt: Meta, id: Id)
    ensures id in rows ==> SameAt(Passing(Overlay(cold, rows), flt), Passing(LiveOf(rows), flt), id)
    ensures id !in rows ==> SameAt(Passing(Overlay(cold, rows), flt), Passing(cold, flt), id)
  {
    OverlayLookup(cold, rows, id);
  }

  /** A query over shards resolved in any reachable state returns exactly the
      filter-passing last-write-wins contents, provided no trimmed write lies
      above its frontier, if and only if no id is misreported. */
  lemma QueryIsExactIff(c: Config, events: seq<Event>, r: nat, flt: Meta)
    requires r in Run(c, events).readers
    requires MissesNothing(c, Run(c, events), Run(c, events).readers[r])
    ensures var s := Run(c, events); var resolved := s.readers[r];
      Answer(c, resolved, s.mem.rows, flt) == Passing(Replay(s.log), flt) <==>
      forall id :: !Misreported(c, resolved, s.mem.rows, flt, id)
  {
    RunInv(c, events);
    InFlightReaders(c, events, r);
    ReadersResolveChains(c, events, r);
    var s := Run(c, events);
    var resolved, rows := s.readers[r], s.mem.rows;
    var got, want := Answer(c, resolved, rows, flt), Passing(Replay(s.log), flt);
    var above := Above(rows, Watermark(c, resolved));
    forall id ensures SameAt(got, want, id) <==> !Misreported(c, resolved, rows, flt, id) {
      PassingOverlayAt(ColdContents(resolved), above, flt, id);
      if id !in above && resolved != [] {
        ColdAnswerAt(c, resolved, s.log, rows, flt, id);
      }
    }
    if forall id :: !Misreported(c, resolved, rows, flt, id) {
      forall id ensures SameAt(got, want, id) { assert !Misreported(c, resolved, rows, flt, id); }
      SameEverywhere(got, want);
    } else {
      var id :| Misreported(c, resolved, rows, flt, id);
      assert !SameAt(got, want, id);
    }
  }

  lemma OneCopyIsHonest(c: Config, resolved: seq<Shard>, rows: map<Id, Row>, flt: Meta, id: Id)
    requires !c.deltaTier && |resolved| <= 1
    ensures !Misreported(c, resolved, rows, flt, id)
  {
    if id in ColdContents(resolved) {
      var k := ColdAt(resolved, id);
      assert k == 0;
    }
  }

  /** With the delta tier off, nothing is ever misreported. */
  lemma SingleShardQueriesAreExact(c: Config, events: seq<Event>, r: nat, flt: Meta)
    requires !c.deltaTier && r in Run(c, events).readers
    requires MissesNothing(c, Run(c, events), Run(c, events).readers[r])
    ensures var s := Run(c, events);
      Answer(c, s.readers[r], s.mem.rows, flt) == Passing(Replay(s.log), flt)
  {
    RunInv(c, events);
    ReadersResolveChains(c, events, r);
    QueryIsExactIff(c, events, r, flt);
    var s := Run(c, events);
    var resolved := s.readers[r];
    forall id ensures !Misreported(c, resolved, s.mem.rows, flt, id) {
      OneCopyIsHonest(c, resolved, s.mem.rows, flt, id);
    }
  }
}
