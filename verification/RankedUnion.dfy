/** The query over any number of shards with a finite top_k: every shard's own
    top k, deduplicated newest shard last, suppressed, merged and cut. */
module RankedUnion {
  import opened Records
  import opened Seqs
  import opened Memtable
  import opened RecallSearch
  import opened ShardGenerations
  import opened Log
  import opened Protocol
  import opened Readers
  import opened QueryUnion
  import opened TopKMerge
  import opened RankedQuery

  // ----- deduplicating the shards' top hits -----

  function Overwritten(deduped: map<Id, Match>, hits: seq<Match>): map<Id, Match> {
    if hits == [] then deduped
    else
      var last := hits[|hits| - 1];
      Overwritten(deduped, hits[..|hits| - 1])[last.id := last]
  }

  /** Oldest shard first, each shard's top k overwriting older hits by id. */
  function Deduped(rankings: seq<seq<Match>>, k: nat): map<Id, Match> {
    if rankings == [] then map[]
    else Overwritten(Deduped(rankings[..|rankings| - 1], k), Take(rankings[|rankings| - 1], k))
  }

  method DedupTopHits(rankings: seq<seq<Match>>, k: nat) returns (deduped: map<Id, Match>)
    ensures deduped == Deduped(rankings, k)
  {
    deduped := map[];
    for i := 0 to |rankings|
      invariant deduped == Deduped(rankings[..i], k)
    {
      var hits := Take(rankings[i], k);
      ghost var older := deduped;
      for j := 0 to |hits|
        invariant deduped == Overwritten(older, hits[..j])
      {
        assert hits[..j + 1][..j] == hits[..j];
        deduped := deduped[hits[j].id := hits[j]];
      }
      assert hits[..|hits|] == hits && rankings[..i + 1][..i] == rankings[..i];
    }
    assert rankings[..|rankings|] == rankings;
  }

  lemma {:induction false} OverwrittenAt(deduped: map<Id, Match>, hits: seq<Match>, id: Id)
    ensures var after := Overwritten(deduped, hits);
      if forall m :: m in hits ==> m.id != id
      then (id in after <==> id in deduped) && (id in deduped ==> after[id] == deduped[id])
      else id in after && after[id] in hits && after[id].id == id
  {
    if hits == [] {
    } else {
      var front, last := hits[..|hits| - 1], hits[|hits| - 1];
      assert hits == front + [last];
      OverwrittenAt(deduped, front, id);
      if m :| m in hits && m.id == id && last.id != id {
        assert m in front;
      }
    }
  }

  /** An id that survives deduplication does so with its hit from the newest shard
      whose top k names it. */
  lemma {:induction false} DedupedAt(rankings: seq<seq<Match>>, k: nat, id: Id) returns (i: nat)
    requires id in Deduped(rankings, k)
    ensures i < |rankings| && Deduped(rankings, k)[id] in Take(rankings[i], k) && Deduped(rankings, k)[id].id == id
    ensures forall j, m :: i < j < |rankings| && m in Take(rankings[j], k) ==> m.id != id
  {
    var n := |rankings| - 1;
    var front, top := rankings[..n], Take(rankings[n], k);
    OverwrittenAt(Deduped(front, k), top, id);
    if forall m :: m in top ==> m.id != id {
      i := DedupedAt(front, k, id);
      forall j, m | i < j < |rankings| && m in Take(rankings[j], k) ensures m.id != id {
        assert j < n ==> front[j] == rankings[j];
      }
    } else {
      i := n;
    }
  }

  lemma {:induction false} NamedIsDeduped(rankings: seq<seq<Match>>, k: nat, i: nat, m: Match)
    requires i < |rankings| && m in Take(rankings[i], k)
    ensures m.id in Deduped(rankings, k)
  {
    var n := |rankings| - 1;
    var front, top := rankings[..n], Take(rankings[n], k);
    OverwrittenAt(Deduped(front, k), top, m.id);
    if i < n && forall x :: x in top ==> x.id != m.id {
      assert front[i] == rankings[i];
      NamedIsDeduped(front, k, i, m);
    }
  }

  // ----- the pieces of one query -----

  /** Each shard's filter-passing vectors, ranked. */
  ghost predicate ShardRankings(rankings: seq<seq<Match>>, resolved: seq<Shard>, flt: Meta, q: seq<real>) {
    |rankings| == |resolved|
    && forall i :: 0 <= i < |resolved| ==> Ranks(rankings[i], Passing(resolved[i].live, flt), q)
  }

  /** The dictionary's values, in any order. */
  ghost predicate IsListing(listed: seq<Match>, deduped: map<Id, Match>) {
    DistinctMatchIds(listed) && forall m :: m in listed <==> m.id in deduped && deduped[m.id] == m
  }

  /** One query as the code answers it, up to the listing of the hits. */
  ghost predicate IsQuery(c: Config, resolved: seq<Shard>, rows: map<Id, Row>, flt: Meta, q: seq<real>, k: nat,
                          recall: seq<Match>, rankings: seq<seq<Match>>, listed: seq<Match>) {
    && Ranks(recall, Passing(LiveOf(Above(rows, Watermark(c, resolved))), flt), q)
    && ShardRankings(rankings, resolved, flt, q)
    && IsListing(listed, Deduped(rankings, k))
  }

  /** The resolved shards' newest word about this id is not this hit. */
  ghost predicate IsOutdated(cold: Contents, q: seq<real>, m: Match) {
    m.id !in cold || m != MatchAt(cold, q, m.id)
  }

  /** The newest copy passes the filter, recall says nothing about the id, and yet
      the copy is not among the surviving hits. */
  ghost predicate IsMissed(cold: Contents, q: seq<real>, flt: Meta, covered: set<Id>, kept: seq<Match>, id: Id) {
    id in cold && id !in covered && Passes(cold[id].metadata, flt) && MatchAt(cold, q, id) !in kept
  }

  // ----- why hits are outdated or missed -----

  lemma HitsOfShard(rankings: seq<seq<Match>>, resolved: seq<Shard>, flt: Meta, q: seq<real>, k: nat, i: nat, m: Match)
    requires ShardRankings(rankings, resolved, flt, q) && i < |resolved| && m in Take(rankings[i], k)
    ensures m.id in resolved[i].live && Passes(m.metadata, flt) && m == MatchAt(resolved[i].live, q, m.id)
  {
    var a :| 0 <= a < |Take(rankings[i], k)| && Take(rankings[i], k)[a] == m;
    assert rankings[i][a] == m && m in rankings[i];
  }

  lemma ListedPasses(rankings: seq<seq<Match>>, resolved: seq<Shard>, flt: Meta, q: seq<real>, k: nat,
                     listed: seq<Match>, m: Match)
    requires ShardRankings(rankings, resolved, flt, q) && IsListing(listed, Deduped(rankings, k)) && m in listed
    ensures Passes(m.metadata, flt)
  {
    var i := DedupedAt(rankings, k, m.id);
    HitsOfShard(rankings, resolved, flt, q, k, i, m);
  }

  /** The shard holds the newest copy of the id, and none of its top k is it: the
      copy fails the filter, or k vectors of the shard are nearer. */
  ghost predicate IsCutOff(rankings: seq<seq<Match>>, resolved: seq<Shard>, k: nat, id: Id, j: nat)
    requires |rankings| == |resolved|
  {
    && j < |resolved| && id in ColdContents(resolved) && id in resolved[j].live
    && resolved[j].live[id] == ColdContents(resolved)[id]
    && forall n :: n in Take(rankings[j], k) ==> n.id != id
  }

  lemma NewerThanOutdated(resolved: seq<Shard>, q: seq<real>, m: Match, i: nat, j: nat)
    requires i < |resolved| && j < |resolved| && m.id in resolved[i].live && m == MatchAt(resolved[i].live, q, m.id)
    requires m.id in ColdContents(resolved) && IsOutdated(ColdContents(resolved), q, m)
    requires m.id in resolved[j].live && ColdContents(resolved)[m.id] == resolved[j].live[m.id]
    requires forall x :: j < x < |resolved| ==> m.id !in resolved[x].live
    ensures i < j
  {
  }

  /** A hit is outdated because a newer shard cut the newest copy off. */
  lemma OutdatedMeansCutOff(rankings: seq<seq<Match>>, resolved: seq<Shard>, flt: Meta, q: seq<real>, k: nat, m: Match)
    returns (j: nat)
    requires ShardRankings(rankings, resolved, flt, q)
    requires m.id in Deduped(rankings, k) && Deduped(rankings, k)[m.id] == m
    requires m.id in ColdContents(resolved) && IsOutdated(ColdContents(resolved), q, m)
    ensures IsCutOff(rankings, resolved, k, m.id, j)
  {
    var i := DedupedAt(rankings, k, m.id);
    HitsOfShard(rankings, resolved, flt, q, k, i, m);
    j := ColdAt(resolved, m.id);
    NewerThanOutdated(resolved, q, m, i, j);
  }

  /** When the shard with the newest copy ranks it among its top k, it survives. */
  lemma NewestHitIsListed(rankings: seq<seq<Match>>, resolved: seq<Shard>, flt: Meta, q: seq<real>, k: nat,
                          listed: seq<Match>, j: nat, n: Match)
    requires ShardRankings(rankings, resolved, flt, q) && IsListing(listed, Deduped(rankings, k))
    requires j < |resolved| && n in Take(rankings[j], k)
    requires forall x :: j < x < |resolved| ==> n.id !in resolved[x].live
    ensures n in listed && n == MatchAt(resolved[j].live, q, n.id)
  {
    HitsOfShard(rankings, resolved, flt, q, k, j, n);
    NamedIsDeduped(rankings, k, j, n);
    var i := DedupedAt(rankings, k, n.id);
    var d := Deduped(rankings, k)[n.id];
    HitsOfShard(rankings, resolved, flt, q, k, i, d);
    assert i == j;
  }

  /** A hit is missed because its id is in the pooled tombstones, or because its
      newest copy was cut off. */
  lemma MissedMeansHiddenOrCutOff(c: Config, rankings: seq<seq<Match>>, resolved: seq<Shard>, rows: map<Id, Row>,
                                  flt: Meta, q: seq<real>, k: nat, listed: seq<Match>, id: Id) returns (j: nat)
    requires ShardRankings(rankings, resolved, flt, q) && IsListing(listed, Deduped(rankings, k))
    requires var covered := Above(rows, Watermark(c, resolved)).Keys;
      IsMissed(ColdContents(resolved), q, flt, covered, Kept(listed, Suppressed(c, resolved, rows)), id)
    ensures (c.deltaTier && id in DeltaTombstones(resolved)) || IsCutOff(rankings, resolved, k, id, j)
  {
    j := ColdAt(resolved, id);
    FilterMembers(listed, Unsuppressed(Suppressed(c, resolved, rows)));
    if n :| n in Take(rankings[j], k) && n.id == id {
      NewestHitIsListed(rankings, resolved, flt, q, k, listed, j, n);
    }
  }

  // ----- when the answer is right -----

  /** What the whole history holds about one match, in terms of the two tiers. */
  lemma TruthAt(cold: Contents, above: map<Id, Row>, flt: Meta, q: seq<real>,
                recall: seq<Match>, truth: seq<Match>, m: Match)
    requires Ranks(recall, Passing(LiveOf(above), flt), q)
    requires Ranks(truth, Passing(Overlay(cold, above), flt), q)
    ensures m.id in above ==> (m in truth <==> m in recall)
    ensures m.id !in above ==> m !in recall
    ensures m.id !in above ==>
      (m in truth <==> m.id in cold && Passes(cold[m.id].metadata, flt) && m == MatchAt(cold, q, m.id))
  {
    PassingOverlayAt(cold, above, flt, m.id);
    var live, want := Passing(LiveOf(above), flt), Passing(Overlay(cold, above), flt);
    assert m in recall <==> m.id in live && m == MatchAt(live, q, m.id);
    assert m in truth <==> m.id in want && m == MatchAt(want, q, m.id);
  }

  lemma KeptIsDistinct(listed: seq<Match>, suppress: set<Id>)
    requires DistinctMatchIds(listed)
    ensures DistinctMatchIds(Kept(listed, suppress))
    ensures forall m :: m in Kept(listed, suppress) ==> m.id !in suppress
  {
    FilterMembers(listed, Unsuppressed(suppress));
    FilterSorted(listed, Unsuppressed(suppress), (a: Match, b: Match) => a.id != b.id);
  }

  lemma CandidatesAreDistinct(c: Config, resolved: seq<Shard>, rows: map<Id, Row>, flt: Meta, q: seq<real>, k: nat,
                              recall: seq<Match>, rankings: seq<seq<Match>>, listed: seq<Match>)
    requires IsQuery(c, resolved, rows, flt, q, k, recall, rankings, listed)
    ensures DistinctMatchIds(Take(recall, k) + Kept(listed, Suppressed(c, resolved, rows)))
  {
    var suppress := Suppressed(c, resolved, rows);
    var top, kept := Take(recall, k), Kept(listed, suppress);
    KeptIsDistinct(listed, suppress);
    forall i, j | 0 <= i < |top| && 0 <= j < |kept| ensures top[i].id != kept[j].id {
      assert top[i] == recall[i] && recall[i] in recall && kept[j] in kept;
      assert recall[i].id in suppress && kept[j].id !in suppress;
    }
  }

  /** The two halves of the condition, restated per shard. */
  lemma SameConditions(cold: Contents, above: map<Id, Row>, suppress: set<Id>, flt: Meta, q: seq<real>, k: nat,
                       recall: seq<Match>, listed: seq<Match>, truth: seq<Match>)
    requires Ranks(recall, Passing(LiveOf(above), flt), q)
    requires Ranks(truth, Passing(Overlay(cold, above), flt), q)
    requires above.Keys <= suppress && forall m :: m in listed ==> Passes(m.metadata, flt)
    ensures var kept := Kept(listed, suppress);
      var cand := Take(recall, k) + kept;
      && (forall m :: m in cand && m !in truth <==> m in kept && IsOutdated(cold, q, m))
      && ((forall u :: u in truth && u !in cand ==> CountWithin(cand, u.score) >= k) <==>
          (forall id :: IsMissed(cold, q, flt, above.Keys, kept, id) ==>
             CountWithin(cand, MatchAt(cold, q, id).score) >= k))
  {
    var kept := Kept(listed, suppress);
    var cand := Take(recall, k) + kept;
    FilterMembers(listed, Unsuppressed(suppress));
    assert forall m :: m in Take(recall, k) ==> m in recall;
    forall m | m in cand ensures m !in truth <==> m in kept && IsOutdated(cold, q, m) {
      TruthAt(cold, above, flt, q, recall, truth, m);
    }
    forall u | u in truth && u !in cand
      ensures (IsMissed(cold, q, flt, above.Keys, kept, u.id) && u == MatchAt(cold, q, u.id))
        || CountWithin(cand, u.score) >= k
    {
      TruthAt(cold, above, flt, q, recall, truth, u);
      if u in recall {
        BeyondRecallCut(recall, k, u);
        CountConcat(Take(recall, k), kept, u.score);
      }
    }
    forall id | IsMissed(cold, q, flt, above.Keys, kept, id)
      ensures MatchAt(cold, q, id) in truth && MatchAt(cold, q, id) !in cand
    {
      TruthAt(cold, above, flt, q, recall, truth, MatchAt(cold, q, id));
    }
  }

  /** Every outdated hit has k candidates ahead of it, and every missed one has k at
      least as near: both can be read off the hits before they are merged. */
  ghost predicate CutsRight(cold: Contents, covered: set<Id>, suppress: set<Id>, flt: Meta, q: seq<real>, k: nat,
                            recall: seq<Match>, listed: seq<Match>) {
    var kept := Kept(listed, suppress);
    && (forall m :: m in kept && IsOutdated(cold, q, m) ==> Ahead(Take(recall, k) + kept, m) >= k)
    && (forall id :: IsMissed(cold, q, flt, covered, kept, id) ==>
          CountWithin(Take(recall, k) + kept, MatchAt(cold, q, id).score) >= k)
  }

  lemma RankedUnionAt(c: Config, resolved: seq<Shard>, rows: map<Id, Row>, log: seq<Op>, flt: Meta,
                      q: seq<real>, k: nat, recall: seq<Match>, rankings: seq<seq<Match>>, listed: seq<Match>,
                      truth: seq<Match>)
    requires View(c, resolved, rows) == Replay(log)
    requires IsQuery(c, resolved, rows, flt, q, k, recall, rankings, listed)
    requires Ranks(truth, Passing(Replay(log), flt), q)
    ensures var covered, suppress := Above(rows, Watermark(c, resolved)).Keys, Suppressed(c, resolved, rows);
      KNearest(Merge(suppress, Take(recall, k), listed, k), truth, k)
      <==> CutsRight(ColdContents(resolved), covered, suppress, flt, q, k, recall, listed)
  {
    var above, suppress := Above(rows, Watermark(c, resolved)), Suppressed(c, resolved, rows);
    CandidatesAreDistinct(c, resolved, rows, flt, q, k, recall, rankings, listed);
    CutIsExactIff(Take(recall, k) + Kept(listed, suppress), truth, k);
    forall m | m in listed ensures Passes(m.metadata, flt) { ListedPasses(rankings, resolved, flt, q, k, listed, m); }
    SameConditions(ColdContents(resolved), above, suppress, flt, q, k, recall, listed, truth);
  }

  /** A query over any reachable state and any number of shards, with any filter
      and any top_k, returns the k nearest filter-passing vectors of the whole
      history (provided it misses no trimmed write) if and only if
      its cut is right. */
  lemma RankedUnionIsExactIff(c: Config, events: seq<Event>, r: nat, flt: Meta, q: seq<real>, k: nat,
                              recall: seq<Match>, rankings: seq<seq<Match>>, listed: seq<Match>, truth: seq<Match>)
    requires r in Run(c, events).readers
    requires var s := Run(c, events); var resolved := s.readers[r];
      && MissesNothing(c, s, resolved)
      && IsQuery(c, resolved, s.mem.rows, flt, q, k, recall, rankings, listed)
      && Ranks(truth, Passing(Replay(s.log), flt), q)
    ensures var s := Run(c, events); var resolved := s.readers[r];
      var covered, suppress := Above(s.mem.rows, Watermark(c, resolved)).Keys, Suppressed(c, resolved, s.mem.rows);
      KNearest(Merge(suppress, Take(recall, k), listed, k), truth, k)
      <==> CutsRight(ColdContents(resolved), covered, suppress, flt, q, k, recall, listed)
  {
    InFlightReaders(c, events, r);
    var s := Run(c, events);
    RankedUnionAt(c, s.readers[r], s.mem.rows, s.log, flt, q, k, recall, rankings, listed, truth);
  }
}
