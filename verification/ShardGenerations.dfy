/** Shard catalog rows and their grouping into base-plus-delta generations. */
module ShardGenerations {
  import opened Records
  import opened Seqs

  datatype IndexType = Flat | IvfFlat

  /** One shard_catalog row, together with what its immutable objects hold:
      live is the id-to-vector content of the index and sidecar, tombstones the
      ids the row's tombstone list names. */
  datatype Shard = Shard(
    id: nat,
    level: nat,
    parent: Option<nat>,
    quantizerVersion: nat,
    indexType: IndexType,
    consolidatedLsn: nat,
    coveredLo: nat,
    coveredHi: nat,
    live: map<Id, Payload>,
    tombstones: set<Id>)

  /** The LSN a shard covers up to; rows without a band fall back to the watermark. */
  function ShardFrontier(s: Shard): nat {
    if s.coveredHi > 0 then s.coveredHi else s.consolidatedLsn
  }

  // ----- grouping -----

  predicate IsBase(s: Shard) { s.level == 0 }

  predicate IsKid(base: Shard, s: Shard) {
    s.level != 0 && s.parent == Some(base.id) && s.quantizerVersion == base.quantizerVersion
  }

  function KidOf(base: Shard): Shard -> bool { (s: Shard) => IsKid(base, s) }

  function Kids(base: Shard, shards: seq<Shard>): seq<Shard> {
    Filter(shards, KidOf(base))
  }

  function GenerationsOf(bases: seq<Shard>, shards: seq<Shard>): (gens: seq<seq<Shard>>)
    ensures forall i :: 0 <= i < |gens| ==> gens[i] != []
  {
    if bases == [] then [] else [[bases[0]] + Kids(bases[0], shards)] + GenerationsOf(bases[1..], shards)
  }

  /** Newest-first shards grouped into generations, newest first: each base
      with its own same-version deltas. */
  function Generations(shards: seq<Shard>): seq<seq<Shard>> {
    GenerationsOf(Filter(shards, IsBase), shards)
  }

  predicate IsFiled(s: Shard, parent: Option<nat>) { s.level != 0 && s.parent == parent }

  function FiledAs(parent: Option<nat>): Shard -> bool { (s: Shard) => IsFiled(s, parent) }

  function OfVersion(version: nat): Shard -> bool { (s: Shard) => s.quantizerVersion == version }

  function Filed(shards: seq<Shard>, parent: Option<nat>): seq<Shard> {
    Filter(shards, FiledAs(parent))
  }

  function FiledIn(m: map<Option<nat>, seq<Shard>>, parent: Option<nat>): seq<Shard> {
    if parent in m then m[parent] else []
  }

  lemma FiledSnoc(shards: seq<Shard>, s: Shard, parent: Option<nat>)
    ensures Filed(shards + [s], parent) == Filed(shards, parent) + (if IsFiled(s, parent) then [s] else [])
  {
    FilterConcat(shards, [s], FiledAs(parent));
  }

  lemma {:induction false} KidsAreFiledDeltas(base: Shard, shards: seq<Shard>)
    ensures Filter(Filed(shards, Some(base.id)), OfVersion(base.quantizerVersion))
            == Kids(base, shards)
  {
    if shards == [] {
    } else {
      KidsAreFiledDeltas(base, shards[1..]);
      FilterConcat(if IsFiled(shards[0], Some(base.id)) then [shards[0]] else [], Filed(shards[1..], Some(base.id)),
                   OfVersion(base.quantizerVersion));
    }
  }

  /** The first loop of _generations: deltas filed under the parent they name. */
  method FileDeltas(shards: seq<Shard>) returns (deltasByParent: map<Option<nat>, seq<Shard>>)
    ensures forall p :: FiledIn(deltasByParent, p) == Filed(shards, p)
  {
    deltasByParent := map[];
    var i := 0;
    while i < |shards|
      invariant 0 <= i <= |shards|
      invariant forall p :: FiledIn(deltasByParent, p) == Filed(shards[..i], p)
    {
      var s := shards[i];
      assert shards[..i + 1] == shards[..i] + [s];
      ghost var before := deltasByParent;
      if s.level != 0 {
        deltasByParent := deltasByParent[s.parent := FiledIn(deltasByParent, s.parent) + [s]];
      }
      i := i + 1;
      forall p: Option<nat> ensures FiledIn(deltasByParent, p) == Filed(shards[..i], p) {
        FiledSnoc(shards[..i - 1], s, p);
        assert FiledIn(before, p) == Filed(shards[..i - 1], p);
      }
    }
    assert shards[..i] == shards;
  }

  lemma {:induction false} GenerationsOfSnoc(bases: seq<Shard>, base: Shard, shards: seq<Shard>)
    ensures GenerationsOf(bases + [base], shards) == GenerationsOf(bases, shards) + [[base] + Kids(base, shards)]
  {
    if bases == [] {
      assert [base][1..] == [];
      assert [] + [base] == [base];
    } else {
      assert (bases + [base])[1..] == bases[1..] + [base];
      GenerationsOfSnoc(bases[1..], base, shards);
    }
  }

  /** _generations: file the deltas by parent, then walk the bases. */
  method BuildGenerations(shards: seq<Shard>) returns (gens: seq<seq<Shard>>)
    ensures gens == Generations(shards)
  {
    var deltasByParent := FileDeltas(shards);
    gens := [];
    var i := 0;
    while i < |shards|
      invariant 0 <= i <= |shards|
      invariant gens == GenerationsOf(Filter(shards[..i], IsBase), shards)
    {
      var base := shards[i];
      assert shards[..i + 1] == shards[..i] + [base];
      FilterConcat(shards[..i], [base], IsBase);
      assert Filter([base], IsBase) == if IsBase(base) then [base] else [];
      if base.level == 0 {
        var kids := Filter(FiledIn(deltasByParent, Some(base.id)), OfVersion(base.quantizerVersion));
        KidsAreFiledDeltas(base, shards);
        GenerationsOfSnoc(Filter(shards[..i], IsBase), base, shards);
        gens := gens + [[base] + kids];
      } else {
        assert Filter(shards[..i + 1], IsBase) == Filter(shards[..i], IsBase);
      }
      i := i + 1;
    }
    assert shards[..i] == shards;
  }

  predicate BandLe(a: Shard, b: Shard) {
    a.coveredLo < b.coveredLo || (a.coveredLo == b.coveredLo && a.id <= b.id)
  }

  /** A generation as readers use it: the base, then its deltas oldest band first. */
  function Ordered(gen: seq<Shard>): seq<Shard>
    requires gen != []
  {
    [gen[0]] + SortBy(gen[1..], BandLe)
  }

  function LiveGeneration(shards: seq<Shard>): Option<seq<Shard>> {
    var gens := Generations(shards);
    if gens == [] then None else Some(Ordered(gens[0]))
  }

  function MaxOf(shards: seq<Shard>, f: Shard -> nat): nat {
    if shards == [] then 0
    else var m := MaxOf(shards[1..], f); if f(shards[0]) > m then f(shards[0]) else m
  }

  function DatasetWatermark(shards: seq<Shard>): nat {
    match LiveGeneration(shards)
    case None => 0
    case Some(gen) => MaxOf(gen, (s: Shard) => s.consolidatedLsn)
  }

  function Frontier(gen: seq<Shard>): nat {
    MaxOf(gen, ShardFrontier)
  }

  function AtLeastOne(keep: int): nat {
    if keep < 1 then 1 else keep
  }

  /** The trim boundary: the oldest retained generation's frontier. */
  function GraceWatermark(shards: seq<Shard>, keep: int): nat {
    var gens := Generations(shards);
    if |gens| < AtLeastOne(keep) then 0 else Frontier(gens[AtLeastOne(keep) - 1])
  }

  function Flatten(gens: seq<seq<Shard>>): seq<Shard> {
    if gens == [] then [] else gens[0] + Flatten(gens[1..])
  }

  function RetainedIds(shards: seq<Shard>, keep: int): set<nat> {
    set s | s in Flatten(Take(Generations(shards), AtLeastOne(keep))) :: s.id
  }

  function IdIn(ids: set<nat>): Shard -> bool { (s: Shard) => s.id in ids }

  function IdNotIn(ids: set<nat>): Shard -> bool { (s: Shard) => s.id !in ids }

  function Superseded(shards: seq<Shard>, keep: int): seq<Shard> {
    var ids := RetainedIds(shards, keep);
    Filter(shards, IdNotIn(ids))
  }

  /** What the catalog lists once the superseded rows are deleted by id. */
  function AfterSweep(shards: seq<Shard>, keep: int): seq<Shard> {
    var gone := set s | s in Superseded(shards, keep) :: s.id;
    Filter(shards, IdNotIn(gone))
  }

  ghost predicate DistinctShardIds(shards: seq<Shard>) {
    forall i, j :: 0 <= i < j < |shards| ==> shards[i].id != shards[j].id
  }

  // ----- the shape of a grouping -----

  lemma {:induction false} GenerationsOfShape(bases: seq<Shard>, shards: seq<Shard>)
    ensures |GenerationsOf(bases, shards)| == |bases|
    ensures forall i :: 0 <= i < |bases| ==> GenerationsOf(bases, shards)[i] == [bases[i]] + Kids(bases[i], shards)
  {
    if bases == [] {
    } else {
      GenerationsOfShape(bases[1..], shards);
    }
  }

  lemma GenerationsShape(shards: seq<Shard>)
    ensures |Generations(shards)| == |Filter(shards, IsBase)|
    ensures forall i :: 0 <= i < |Generations(shards)| ==>
      var b := Filter(shards, IsBase)[i]; Generations(shards)[i] == [b] + Kids(b, shards)
  {
    GenerationsOfShape(Filter(shards, IsBase), shards);
  }

  lemma {:induction false} InFlatten(gens: seq<seq<Shard>>, s: Shard)
    ensures s in Flatten(gens) <==> exists i :: 0 <= i < |gens| && s in gens[i]
  {
    if gens == [] {
    } else {
      InFlatten(gens[1..], s);
      if s in Flatten(gens) && s !in gens[0] {
        var i :| 0 <= i < |gens[1..]| && s in gens[1..][i];
        assert s in gens[i + 1];
      }
      if i :| 0 < i < |gens| && s in gens[i] {
        assert s in gens[1..][i - 1];
      }
    }
  }

  lemma SameIdSameShard(shards: seq<Shard>, a: Shard, b: Shard)
    requires DistinctShardIds(shards) && a in shards && b in shards && a.id == b.id
    ensures a == b
  {
  }

  lemma {:induction false} FilterDistinctIds(shards: seq<Shard>, p: Shard -> bool)
    requires DistinctShardIds(shards)
    ensures DistinctShardIds(Filter(shards, p))
  {
    FilterSorted(shards, p, (a: Shard, b: Shard) => a.id != b.id);
  }

  /** What membership in the i-th generation means. */
  lemma InGeneration(shards: seq<Shard>, i: nat, s: Shard)
    requires i < |Generations(shards)|
    ensures var b := Generations(shards)[i][0];
            b in shards && IsBase(b) && (s in Generations(shards)[i] <==> s == b || (s in shards && IsKid(b, s)))
  {
    GenerationsShape(shards);
    FilterMembers(shards, IsBase);
    var b := Filter(shards, IsBase)[i];
    FilterMembers(shards, KidOf(b));
  }

  /** Each shard lies in at most one generation. */
  lemma GenerationsAreDisjoint(shards: seq<Shard>, i: nat, j: nat, s: Shard)
    requires DistinctShardIds(shards)
    requires i < |Generations(shards)| && j < |Generations(shards)|
    requires s in Generations(shards)[i] && s in Generations(shards)[j]
    ensures i == j
  {
    InGeneration(shards, i, s);
    InGeneration(shards, j, s);
    GenerationsShape(shards);
    FilterDistinctIds(shards, IsBase);
    var bases := Filter(shards, IsBase);
    assert bases[i].id == bases[j].id;
  }

  lemma {:induction false} FilterPrefix<T>(s: seq<T>, p: T -> bool, k: nat)
    requires k <= |s|
    requires forall i :: 0 <= i < |s| ==> (p(s[i]) <==> i < k)
    ensures Filter(s, p) == s[..k]
  {
    if s == [] {
    } else {
      FilterPrefix(s[1..], p, if k == 0 then 0 else k - 1);
      assert p(s[0]) <==> 0 < k;
    }
  }

  // ----- sweeping -----

  /** A retained id is the id of a shard in one of the newest `keep` generations;
      the newest is retained whatever `keep` is. */
  lemma RetainedMeans(shards: seq<Shard>, keep: int, s: Shard)
    requires DistinctShardIds(shards) && s in shards
    ensures s.id in RetainedIds(shards, keep) <==>
      exists i :: 0 <= i < |Generations(shards)| && (i == 0 || i < keep) && s in Generations(shards)[i]
  {
    var gens := Generations(shards);
    var kept := Take(gens, AtLeastOne(keep));
    InFlatten(kept, s);
    if s.id in RetainedIds(shards, keep) {
      var t :| t in Flatten(kept) && t.id == s.id;
      InFlatten(kept, t);
      var i :| 0 <= i < |kept| && t in kept[i];
      InGeneration(shards, i, t);
      SameIdSameShard(shards, s, t);
    }
    if i :| 0 <= i < |gens| && (i == 0 || i < keep) && s in gens[i] {
      assert s in kept[i];
    }
  }

  lemma AfterSweepKeepsRetained(shards: seq<Shard>, keep: int)
    requires DistinctShardIds(shards)
    ensures AfterSweep(shards, keep) == Filter(shards, IdIn(RetainedIds(shards, keep)))
  {
    var ids := RetainedIds(shards, keep);
    FilterMembers(shards, IdNotIn(ids));
    var gone := set s | s in Superseded(shards, keep) :: s.id;
    forall s | s in shards ensures s.id !in gone <==> s.id in ids {
      if s.id in gone {
        var t :| t in Superseded(shards, keep) && t.id == s.id;
      }
    }
    FilterCongruent(shards, IdNotIn(gone), IdIn(ids));
  }

  /** Sweeping leaves exactly the newest `keep` generations, each whole and in
      order; asked to keep none it keeps one. */
  lemma SweepKeepsNewestGenerations(shards: seq<Shard>, keep: int)
    requires DistinctShardIds(shards)
    ensures keep >= 1 ==> Generations(AfterSweep(shards, keep)) == Take(Generations(shards), keep)
    ensures keep < 1 ==> Generations(AfterSweep(shards, keep)) == Take(Generations(shards), 1)
  {
    var bases := Filter(shards, IsBase);
    var gens := Generations(shards);
    var ids := RetainedIds(shards, keep);
    var retained := IdIn(ids);
    var left := AfterSweep(shards, keep);
    var k := if AtLeastOne(keep) < |bases| then AtLeastOne(keep) else |bases|;
    GenerationsShape(shards);
    AfterSweepKeepsRetained(shards, keep);
    FilterMembers(shards, IsBase);
    forall i | 0 <= i < |bases| ensures retained(bases[i]) <==> i < k {
      assert bases[i] in bases;
      RetainedMeans(shards, keep, bases[i]);
      assert bases[i] in gens[i];
      if j :| 0 <= j < |gens| && (j == 0 || j < keep) && bases[i] in gens[j] {
        GenerationsAreDisjoint(shards, i, j, bases[i]);
      }
    }
    FilterCommutes(shards, retained, IsBase);
    FilterPrefix(bases, retained, k);
    assert Filter(left, IsBase) == bases[..k];
    GenerationsShape(left);
    var after := Generations(left);
    forall i | 0 <= i < k ensures after[i] == gens[i] {
      var kid := KidOf(bases[i]);
      FilterMembers(shards, kid);
      FilterCommutes(shards, retained, kid);
      forall s | s in Kids(bases[i], shards) ensures retained(s) {
        RetainedMeans(shards, keep, s);
        assert s in gens[i];
      }
      FilterAll(Kids(bases[i], shards), retained);
    }
    assert after == Take(gens, AtLeastOne(keep));
  }

  /** The whole sweep contract: what readers and the trim rely on is unchanged,
      a retained base keeps every delta wherever it sits in the list, and a
      second sweep finds nothing. */
  lemma SweepIsSafeAndIdempotent(shards: seq<Shard>, keep: int)
    requires DistinctShardIds(shards)
    ensures var left := AfterSweep(shards, keep);
      && LiveGeneration(left) == LiveGeneration(shards)
      && DatasetWatermark(left) == DatasetWatermark(shards)
      && GraceWatermark(left, keep) == GraceWatermark(shards, keep)
      && Superseded(left, keep) == []
      && DistinctShardIds(left)
    ensures forall i, d | 0 <= i < |Generations(shards)| && (i == 0 || i < keep) && d in shards ::
      IsKid(Generations(shards)[i][0], d) ==> d !in Superseded(shards, keep)
  {
    var ids := RetainedIds(shards, keep);
    var left := AfterSweep(shards, keep);
    var gens := Generations(shards);
    SweepKeepsNewestGenerations(shards, keep);
    AfterSweepKeepsRetained(shards, keep);
    FilterDistinctIds(shards, IdIn(ids));
    assert Generations(left) != [] <==> gens != [];
    assert gens != [] ==> Generations(left)[0] == gens[0];
    FilterMembers(shards, IdNotIn(ids));
    FilterMembers(shards, IdIn(ids));
    forall i, d | 0 <= i < |gens| && (i == 0 || i < keep) && d in shards && IsKid(gens[i][0], d)
      ensures d !in Superseded(shards, keep)
    {
      InGeneration(shards, i, d);
      RetainedMeans(shards, keep, d);
    }
    assert RetainedIds(left, keep) == ids by {
      assert Take(Generations(left), AtLeastOne(keep)) == Take(gens, AtLeastOne(keep));
    }
    FilterNone(left, IdNotIn(ids));
  }

  // ----- datasets without deltas -----

  lemma {:induction false} BaseOnlyGenerations(bases: seq<Shard>, shards: seq<Shard>)
    requires forall s :: s in shards ==> IsBase(s)
    ensures |GenerationsOf(bases, shards)| == |bases|
    ensures forall i :: 0 <= i < |bases| ==> GenerationsOf(bases, shards)[i] == [bases[i]]
  {
    if bases == [] {
    } else {
      BaseOnlyGenerations(bases[1..], shards);
      FilterNone(shards, KidOf(bases[0]));
    }
  }

  lemma FrontierSingle(s: Shard)
    ensures Frontier([s]) == ShardFrontier(s)
  {
    assert MaxOf([s][1..], ShardFrontier) == 0;
  }

  lemma BaseOnlyRetained(shards: seq<Shard>, keep: int)
    requires DistinctShardIds(shards)
    requires forall s :: s in shards ==> IsBase(s)
    ensures forall i :: 0 <= i < |shards| ==> (shards[i].id in RetainedIds(shards, keep) <==> i == 0 || i < keep)
  {
    FilterAll(shards, IsBase);
    BaseOnlyGenerations(shards, shards);
    var gens := Generations(shards);
    forall i | 0 <= i < |shards|
      ensures shards[i].id in RetainedIds(shards, keep) <==> i == 0 || i < keep
    {
      assert shards[i] in shards && shards[i] in gens[i];
      RetainedMeans(shards, keep, shards[i]);
      if j :| 0 <= j < |gens| && (j == 0 || j < keep) && shards[i] in gens[j] {
        GenerationsAreDisjoint(shards, i, j, shards[i]);
      }
    }
  }

  /** The trim boundary: what the `keep`-th newest generation covers, and nothing
      while there are fewer; asked to keep none it is the newest's. */
  lemma GraceIsTheLastRetainedFrontier(shards: seq<Shard>, keep: int)
    ensures var gens := Generations(shards);
      && (|gens| < keep ==> GraceWatermark(shards, keep) == 0)
      && (1 <= keep <= |gens| ==> GraceWatermark(shards, keep) == Frontier(gens[keep - 1]))
      && (keep < 1 ==> GraceWatermark(shards, keep) == if gens == [] then 0 else Frontier(gens[0]))
  {
  }

  lemma BaseOnlySuperseded(shards: seq<Shard>, keep: int, k: nat)
    requires DistinctShardIds(shards) && k <= |shards|
    requires forall i :: 0 <= i < |shards| ==> (shards[i].id in RetainedIds(shards, keep) <==> i < k)
    ensures Superseded(shards, keep) == shards[k..] && AfterSweep(shards, keep) == shards[..k]
  {
    var ids := RetainedIds(shards, keep);
    assert shards == shards[..k] + shards[k..];
    FilterConcat(shards[..k], shards[k..], IdNotIn(ids));
    FilterNone(shards[..k], IdNotIn(ids));
    FilterAll(shards[k..], IdNotIn(ids));
    AfterSweepKeepsRetained(shards, keep);
    FilterPrefix(shards, IdIn(ids), k);
  }

  lemma BaseOnlyGrace(shards: seq<Shard>, keep: int)
    requires forall s :: s in shards ==> IsBase(s)
    ensures var k := if keep < 1 then 1 else keep;
      GraceWatermark(shards, keep) == if |shards| < k then 0 else ShardFrontier(shards[k - 1])
  {
    FilterAll(shards, IsBase);
    BaseOnlyGenerations(shards, shards);
    GraceIsTheLastRetainedFrontier(shards, keep);
    var k := if keep < 1 then 1 else keep;
    if k <= |shards| {
      FrontierSingle(shards[k - 1]);
    }
  }

  /** Without deltas the generation rules are the older positional ones: all past
      position `keep` is superseded, and the shard there is the trim boundary. */
  lemma BaseOnlyRefinesPositions(shards: seq<Shard>, keep: int)
    requires DistinctShardIds(shards)
    requires forall s :: s in shards ==> IsBase(s)
    ensures var k := if keep < 1 then 1 else keep;
      && Superseded(shards, keep) == (if k < |shards| then shards[k..] else [])
      && AfterSweep(shards, keep) == Take(shards, k)
      && (|shards| < k ==> GraceWatermark(shards, keep) == 0)
      && (|shards| >= k ==>
            var s := shards[k - 1];
            GraceWatermark(shards, keep) == if s.coveredHi > 0 then s.coveredHi else s.consolidatedLsn)
  {
    var k := if keep < 1 then 1 else keep;
    BaseOnlyRetained(shards, keep);
    BaseOnlySuperseded(shards, keep, if k < |shards| then k else |shards|);
    BaseOnlyGrace(shards, keep);
  }

  // ----- adding a row at the head of the list -----

  /** Kids of every base are unchanged when a row that is nobody's delta arrives. */
  lemma {:induction false} GenerationsOfIgnores(bases: seq<Shard>, shards: seq<Shard>, s: Shard)
    requires forall b :: b in bases ==> !IsKid(b, s)
    ensures GenerationsOf(bases, [s] + shards) == GenerationsOf(bases, shards)
  {
    if bases == [] {
    } else {
      GenerationsOfIgnores(bases[1..], shards, s);
      FilterCons(s, shards, KidOf(bases[0]));
      assert bases[0] in bases && !KidOf(bases[0])(s);
      assert Kids(bases[0], [s] + shards) == Kids(bases[0], shards);
    }
  }

  /** A new base starts a generation of its own in front of the others. */
  lemma AddBase(shards: seq<Shard>, s: Shard)
    requires IsBase(s)
    requires forall t :: t in shards ==> t.parent != Some(s.id)
    ensures Generations([s] + shards) == [[s]] + Generations(shards)
  {
    var bases := Filter(shards, IsBase);
    FilterCons(s, shards, IsBase);
    FilterCons(s, shards, KidOf(s));
    FilterNone(shards, KidOf(s));
    GenerationsOfIgnores(bases, shards, s);
    assert ([s] + bases)[1..] == bases;
    assert [s] + Kids(s, [s] + shards) == [s];
  }

  /** A delta joins the base it was built on and leaves the others alone. */
  lemma DeltaJoinsFirst(bases: seq<Shard>, shards: seq<Shard>, s: Shard)
    requires bases != [] && IsKid(bases[0], s)
    requires forall b :: b in bases[1..] ==> !IsKid(b, s)
    ensures GenerationsOf(bases, [s] + shards)
            == [[bases[0], s] + Kids(bases[0], shards)] + GenerationsOf(bases[1..], shards)
  {
    GenerationsOfIgnores(bases[1..], shards, s);
    FilterCons(s, shards, KidOf(bases[0]));
    assert KidOf(bases[0])(s);
    assert [bases[0]] + ([s] + Kids(bases[0], shards)) == [bases[0], s] + Kids(bases[0], shards);
  }

  /** A new delta of the newest base joins the newest generation only. */
  lemma AddDelta(shards: seq<Shard>, s: Shard)
    requires DistinctShardIds(shards)
    requires Generations(shards) != []
    requires IsKid(Generations(shards)[0][0], s)
    ensures var gens := Generations(shards);
      Generations([s] + shards) == [[gens[0][0], s] + gens[0][1..]] + gens[1..]
  {
    var bases := Filter(shards, IsBase);
    var gens := Generations(shards);
    GenerationsShape(shards);
    FilterMembers(shards, IsBase);
    FilterDistinctIds(shards, IsBase);
    FilterCons(s, shards, IsBase);
    assert Filter([s] + shards, IsBase) == bases;
    forall b | b in bases[1..] ensures !IsKid(b, s) {
      var i :| 0 <= i < |bases[1..]| && bases[1..][i] == b;
      assert bases[i + 1] == b;
    }
    DeltaJoinsFirst(bases, shards, s);
    assert gens[0] == [bases[0]] + Kids(bases[0], shards);
    assert gens[0][1..] == Kids(bases[0], shards) && gens[1..] == GenerationsOf(bases[1..], shards);
  }
}
