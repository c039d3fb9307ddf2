/** The major compaction's merge: walk the generation's shards oldest first, let
    the last shard that mentions an id decide it, and rebuild what survives
    from that shard's vectors and the union of the sidecars. */
module MajorCompaction {
  import opened Records
  import opened ShardGenerations
  import opened Log

  /** The last shard seen to mention an id, and whether it did so as a vector. */
  datatype Mention = Mention(pos: nat, alive: bool)

  /** What the walk knows after some shards: their layered contents, spread
      over the mentions, the shards' vectors and the united sidecars. */
  ghost predicate Resolves(final: map<Id, Mention>, sidecar: map<Id, Meta>, gen: seq<Shard>, n: nat, id: Id)
    requires n <= |gen|
  {
    && (id in ColdContents(gen[..n]) <==> id in final && final[id].alive)
    && (id in final && final[id].alive ==>
          && final[id].pos < n && id in gen[final[id].pos].live && id in sidecar
          && ColdContents(gen[..n])[id] == Payload(gen[final[id].pos].live[id].values, sidecar[id]))
  }

  /** One shard's ids of one kind, in any order: the latest mention wins. */
  method MarkAll(final: map<Id, Mention>, ids: set<Id>, mention: Mention) returns (marked: map<Id, Mention>)
    ensures forall id :: id in marked <==> id in final || id in ids
    ensures forall id :: id in marked ==> marked[id] == if id in ids then mention else final[id]
  {
    marked := final;
    var pending := ids;
    while pending != {}
      invariant forall id :: id in pending ==> id in ids
      invariant forall id :: id in marked <==> id in final || (id in ids && id !in pending)
      invariant forall id :: id in marked ==>
        marked[id] == if id in ids && id !in pending then mention else final[id]
      decreases |pending|
    {
      var id :| id in pending;
      pending := pending - {id};
      marked := marked[id := mention];
    }
  }

  method MergeGeneration(gen: seq<Shard>) returns (merged: Contents)
    ensures merged == ColdContents(gen)
  {
    var final: map<Id, Mention> := map[];
    var sidecar: map<Id, Meta> := map[];
    for pos := 0 to |gen|
      invariant forall id :: Resolves(final, sidecar, gen, pos, id)
    {
      ghost var final0, sidecar0 := final, sidecar;
      var shard := gen[pos];
      final := MarkAll(final, shard.live.Keys, Mention(pos, true));
      final := MarkAll(final, shard.tombstones, Mention(pos, false));
      sidecar := sidecar + map id | id in shard.live :: shard.live[id].metadata;
      assert gen[..pos + 1][..pos] == gen[..pos];
      ghost var n := pos + 1;
      forall id ensures Resolves(final, sidecar, gen, n, id) {
        assert Resolves(final0, sidecar0, gen, pos, id);
      }
    }
    assert gen[..|gen|] == gen;
    forall id ensures id in ColdContents(gen) <==> id in final && final[id].alive {
      assert Resolves(final, sidecar, gen, |gen|, id);
    }
    assert forall id :: id in final && final[id].alive ==> Resolves(final, sidecar, gen, |gen|, id);
    merged := map id | id in final && final[id].alive ::
      Payload(gen[final[id].pos].live[id].values, sidecar[id]);
    forall id ensures SameAt(merged, ColdContents(gen), id) {
      assert Resolves(final, sidecar, gen, |gen|, id);
    }
    SameEverywhere(merged, ColdContents(gen));
  }

  /** The last shard of a generation that mentions an id, as vector or tombstone. */
  ghost predicate LastMention(gen: seq<Shard>, id: Id, k: nat) {
    && k < |gen| && (id in gen[k].live || id in gen[k].tombstones)
    && forall j :: k < j < |gen| ==> id !in gen[j].live && id !in gen[j].tombstones
  }

  /** Newest occurrence wins, tombstones included: an id survives exactly when
      its last mention is a vector and not a tombstone, with that vector; an id
      no shard mentions does not. */
  lemma {:induction false} NewestOccurrenceWins(gen: seq<Shard>, id: Id, k: nat)
    requires LastMention(gen, id, k)
    ensures id in ColdContents(gen) <==> id !in gen[k].tombstones
    ensures id !in gen[k].tombstones ==> ColdContents(gen)[id] == gen[k].live[id]
  {
    if k < |gen| - 1 {
      var front := gen[..|gen| - 1];
      assert LastMention(front, id, k);
      NewestOccurrenceWins(front, id, k);
    }
  }

  lemma {:induction false} SurvivorsAreMentioned(gen: seq<Shard>, id: Id) returns (k: nat)
    requires id in ColdContents(gen)
    ensures LastMention(gen, id, k) && id in gen[k].live && id !in gen[k].tombstones
  {
    var last, front := |gen| - 1, gen[..|gen| - 1];
    if id in gen[last].live {
      k := last;
    } else {
      k := SurvivorsAreMentioned(front, id);
    }
  }
}
