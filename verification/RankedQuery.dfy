/** The whole single-shard query over any run: reachable tiers, ranked and merged
    with a finite top_k, against the ranking of the full history. */
module RankedQuery {
  import opened Records
  import opened Seqs
  import opened Memtable
  import opened RecallSearch
  import opened Log
  import opened Protocol
  import opened Readers
  import opened QueryUnion
  import opened TopKMerge

  function MatchAt(m: Contents, q: seq<real>, id: Id): Match
    requires id in m
  {
    Match(id, Dist(q, m[id].values), m[id].metadata)
  }

  /** A ranking of some contents by distance from a query vector. */
  ghost predicate Ranks(s: seq<Match>, m: Contents, q: seq<real>) {
    && Sorted(s, NoFarther) && DistinctMatchIds(s)
    && forall x :: x in s <==> x.id in m && x == MatchAt(m, q, x.id)
  }

  /** Which k are nearest depends only on what the pool holds. */
  lemma SamePool(got: seq<Match>, a: seq<Match>, b: seq<Match>, k: nat)
    requires DistinctMatchIds(a) && DistinctMatchIds(b) && forall x :: x in a <==> x in b
    ensures KNearest(got, a, k) <==> KNearest(got, b, k)
  {
    SameMembersSameMultiset(a, b);
    assert |multiset(a)| == |a| && |multiset(b)| == |b|;
  }

  lemma MergedIsTruth(above: map<Id, Row>, hits: Contents, want: Contents, flt: Meta, q: seq<real>,
                      recall: seq<Match>, cold: seq<Match>, truth: seq<Match>)
    requires want == Passing(LiveOf(above), flt) + (hits - above.Keys)
    requires Ranks(recall, Passing(LiveOf(above), flt), q) && Ranks(cold, hits, q) && Ranks(truth, want, q)
    ensures TiersOk(above.Keys, recall, cold)
    ensures forall x :: x in Union(above.Keys, recall, cold) <==> x in truth
  {
    FilterMembers(cold, Unsuppressed(above.Keys));
    var live := Passing(LiveOf(above), flt);
    assert live.Keys <= above.Keys;
    forall x ensures x in Union(above.Keys, recall, cold) <==> x in truth {
      assert x in recall <==> x.id in live && x == MatchAt(live, q, x.id);
      assert x in cold <==> x.id in hits && x == MatchAt(hits, q, x.id);
      assert x in truth <==> x.id in want && x == MatchAt(want, q, x.id);
      assert x in Kept(cold, above.Keys) <==> x in cold && x.id !in above.Keys;
    }
  }

  lemma RankedAt(above: map<Id, Row>, hits: Contents, want: Contents, flt: Meta, q: seq<real>, k: nat,
                 recall: seq<Match>, cold: seq<Match>, truth: seq<Match>)
    requires want == Passing(LiveOf(above), flt) + (hits - above.Keys)
    requires Ranks(recall, Passing(LiveOf(above), flt), q) && Ranks(cold, hits, q) && Ranks(truth, want, q)
    ensures KNearest(RankedAnswer(above.Keys, recall, cold, k), truth, k)
            <==> SlotsRefilled(above.Keys, recall, cold, k)
  {
    MergedIsTruth(above, hits, want, flt, q, recall, cold, truth);
    UnionIsDistinct(above.Keys, recall, cold);
    SamePool(RankedAnswer(above.Keys, recall, cold, k), Union(above.Keys, recall, cold), truth, k);
    MergeIsExactIff(above.Keys, recall, cold, k);
  }

  /** With the delta tier off, the history a filter asks for is what the two tiers
      hold of it. */
  lemma SingleShardWant(c: Config, events: seq<Event>, r: nat, flt: Meta)
    requires !c.deltaTier && r in Run(c, events).readers
    requires MissesNothing(c, Run(c, events), Run(c, events).readers[r])
    ensures var s := Run(c, events);
      var above := Above(s.mem.rows, Watermark(c, s.readers[r]));
      Passing(Replay(s.log), flt)
      == Passing(LiveOf(above), flt) + (DedupedHits(s.readers[r], flt) - above.Keys)
  {
    SingleShardQueriesAreExact(c, events, r, flt);
  }

  /** With the delta tier off: a query over any reachable state, paired with its
      shard as the code pairs it, returns the k nearest filter-passing vectors
      of the whole history if and only if recall refills the slots its
      suppressions emptied in the shard's own top k. */
  lemma RankedQueryIsExactIff(c: Config, events: seq<Event>, r: nat, flt: Meta, q: seq<real>, k: nat,
                              recall: seq<Match>, cold: seq<Match>, truth: seq<Match>)
    requires !c.deltaTier && r in Run(c, events).readers
    requires var s := Run(c, events); var resolved := s.readers[r]; var w := Watermark(c, resolved);
      && MissesNothing(c, s, resolved)
      && Ranks(recall, Passing(LiveOf(Above(s.mem.rows, w)), flt), q)
      && Ranks(cold, DedupedHits(resolved, flt), q)
      && Ranks(truth, Passing(Replay(s.log), flt), q)
    ensures var s := Run(c, events);
      var suppress := Above(s.mem.rows, Watermark(c, s.readers[r])).Keys;
      KNearest(RankedAnswer(suppress, recall, cold, k), truth, k) <==> SlotsRefilled(suppress, recall, cold, k)
  {
    var s := Run(c, events);
    var resolved := s.readers[r];
    SingleShardWant(c, events, r, flt);
    RankedAt(Above(s.mem.rows, Watermark(c, resolved)), DedupedHits(resolved, flt), Passing(Replay(s.log), flt),
             flt, q, k, recall, cold, truth);
  }
}
