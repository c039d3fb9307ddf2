/** One dataset's recall tier, shard catalog, builder and readers as a state
    machine. Any events may interleave; a run is a sequence of events. */
module Protocol {
  import opened Records
  import opened Seqs
  import opened Memtable
  import opened ShardGenerations
  import opened Log

  /** keep: generations the sweep and the trim retain. deltaTier: RB_DELTA_TIER.
      maxDeltas: the delta count that triggers a major compaction. */
  datatype Config = Config(keep: nat, deltaTier: bool, maxDeltas: nat)

  /** The single fold in flight: the watermark and rows its snapshot returned.
      floor records how far recall had been trimmed when it was taken. */
  datatype Builder = Idle | Holding(maxLsn: nat, rows: map<Id, Row>, floor: nat)

  /** log and trimmed are history: every write so far, and the highest
      watermark recall was ever trimmed to. */
  datatype State = State(
    log: seq<Op>,
    mem: Partition,
    shards: seq<Shard>,
    nextId: nat,
    trimmed: nat,
    builder: Builder,
    readers: map<nat, seq<Shard>>)

  datatype Event =
    | Upserted(records: seq<Record>)
    | Deleted(id: Id, dimension: int)
    | SnapshotTaken(maxLsn: nat)
    | FoldCommitted(trainable: bool)
    | BuilderCrashed
    | Compacted
    | Swept
    | Trimmed
    | Resolved(reader: nat)

  const START := State([], Partition(map[], 0), [], 1, 0, Idle, map[])

  // ----- folds -----

  /** A bare IVF shard with a frozen quantizer: the only kind deltas layer on. */
  predicate IsNative(s: Shard) {
    s.indexType == IvfFlat && s.level == 0 && s.quantizerVersion >= 1
  }

  predicate DeltaTierApplies(c: Config, shards: seq<Shard>) {
    var gens := Generations(shards);
    c.deltaTier && (gens == [] || IsNative(gens[0][0]))
  }

  function DeletedIn(rows: map<Id, Row>): set<Id> {
    set id | id in rows && rows[id].deleted
  }

  function NewBase(id: nat, quantizer: nat, ivf: bool, lsn: nat, hi: nat, live: Contents): Shard {
    Shard(id, 0, None, quantizer, if ivf then IvfFlat else Flat, lsn, 0, hi, live, {})
  }

  /** The rewriting fold: every snapshot row over the newest shard, which must
      be one whose vectors can be addressed by id. */
  function RewriteFold(shards: seq<Shard>, maxLsn: nat, rows: map<Id, Row>, id: nat, ivf: bool): Option<Shard> {
    if shards == [] then
      if LiveOf(rows) == map[] then None else Some(NewBase(id, 0, ivf, maxLsn, 0, LiveOf(rows)))
    else if shards[0].quantizerVersion >= 1 then None
    else Some(NewBase(id, 0, ivf, maxLsn, 0, Overlay(shards[0].live, rows)))
  }

  /** The delta fold: only the snapshot rows above the live frontier, as one
      new delta; the first fold of a dataset writes a base. */
  function DeltaFold(shards: seq<Shard>, maxLsn: nat, rows: map<Id, Row>, id: nat, trainable: bool): Option<Shard> {
    var gens := Generations(shards);
    if gens == [] then
      if LiveOf(rows) == map[] then None
      else Some(NewBase(id, if trainable then 1 else 0, trainable, maxLsn, maxLsn, LiveOf(rows)))
    else
      var base, frontier := gens[0][0], Frontier(Ordered(gens[0]));
      var newer := if frontier > 0 then Above(rows, frontier) else rows;
      if LiveOf(newer) == map[] && DeletedIn(newer) == {} then None
      else Some(Shard(id, 1, Some(base.id), base.quantizerVersion, IvfFlat, maxLsn, frontier + 1, maxLsn,
                      LiveOf(newer), DeletedIn(newer)))
  }

  function Fold(c: Config, shards: seq<Shard>, maxLsn: nat, rows: map<Id, Row>, id: nat, trainable: bool): Option<Shard>
  {
    if DeltaTierApplies(c, shards) then DeltaFold(shards, maxLsn, rows, id, trainable)
    else RewriteFold(shards, maxLsn, rows, id, trainable)
  }

  /** A major compaction: the live generation's contents as one new base. */
  function Compaction(c: Config, shards: seq<Shard>, id: nat): Option<Shard> {
    var gens := Generations(shards);
    if !c.deltaTier || gens == [] || |gens[0]| - 1 < AtLeastOne(c.maxDeltas) || !IsNative(gens[0][0]) then None
    else
      var gen := Ordered(gens[0]);
      if ColdContents(gen) == map[] then None
      else Some(NewBase(id, gens[0][0].quantizerVersion, true, Frontier(gen), Frontier(gen), ColdContents(gen)))
  }

  // ----- reads -----

  /** The shards one query resolves from one catalog listing. */
  function Resolve(c: Config, shards: seq<Shard>): seq<Shard> {
    if shards == [] then []
    else if !c.deltaTier then [shards[0]]
    else var gens := Generations(shards); if gens == [] then [] else Ordered(gens[0])
  }

  // ----- steps -----

  function AddShard(s: State, shard: Option<Shard>): State {
    match shard
    case None => s
    case Some(row) => s.(shards := [row] + s.shards, nextId := s.nextId + 1)
  }

  ghost function Do(c: Config, s: State, e: Event): State {
    match e
    case Upserted(records) =>
      s.(log := s.log + PutOps(Dedup(records)), mem := Upsert(s.mem, records))
    case Deleted(id, dimension) =>
      s.(log := s.log + [Del(id)], mem := Delete(s.mem, id, dimension))
    case SnapshotTaken(maxLsn) =>
      if s.builder.Idle? && IsMaxLsn(s.mem.rows, maxLsn) && maxLsn > 0
      then s.(builder := Holding(maxLsn, s.mem.rows, s.trimmed)) else s
    case FoldCommitted(trainable) =>
      if s.builder.Idle? then s
      else AddShard(s, Fold(c, s.shards, s.builder.maxLsn, s.builder.rows, s.nextId, trainable)).(builder := Idle)
    case BuilderCrashed => s.(builder := Idle)
    case Compacted => AddShard(s, Compaction(c, s.shards, s.nextId))
    case Swept => s.(shards := AfterSweep(s.shards, c.keep))
    case Trimmed =>
      var grace := GraceWatermark(s.shards, c.keep);
      s.(mem := Trim(s.mem, grace), trimmed := if grace > s.trimmed then grace else s.trimmed)
    case Resolved(reader) => s.(readers := s.readers[reader := Resolve(c, s.shards)])
  }

  ghost function Run(c: Config, events: seq<Event>): State {
    if events == [] then START else Do(c, Run(c, events[..|events| - 1]), events[|events| - 1])
  }

  // ----- the invariant -----

  ghost predicate RecallOk(s: State) {
    && s.mem.last == |s.log|
    && s.trimmed <= |s.log|
    && RecallAgrees(s.mem.rows, s.log, s.trimmed)
  }

  ghost predicate GenerationOk(gen: seq<Shard>, log: seq<Op>) {
    && gen != []
    && Chain(Ordered(gen), log)
    && (|gen| > 1 ==> IsNative(gen[0]))
  }

  ghost predicate GenerationsOk(gens: seq<seq<Shard>>, log: seq<Op>) {
    && (forall i :: 0 <= i < |gens| ==> GenerationOk(gens[i], log))
    && (forall i, j :: 0 <= i < j < |gens| ==> Frontier(gens[i]) >= Frontier(gens[j]))
  }

  /** Ids are allotted in order, and deltas exist only under the delta tier. */
  ghost predicate RowOk(c: Config, t: Shard, nextId: nat) {
    && t.id < nextId
    && (t.parent.Some? ==> t.parent.value < nextId)
    && (!c.deltaTier ==> t.level == 0 && t.quantizerVersion == 0)
    && (t.level == 0 && !IsNative(t) ==> t.quantizerVersion == 0)
  }

  /** The live base is native, or is the newest row of all. */
  ghost predicate HeadOk(shards: seq<Shard>, gens: seq<seq<Shard>>)
    requires forall i :: 0 <= i < |gens| ==> gens[i] != []
  {
    shards != [] ==> gens != [] && (IsNative(gens[0][0]) || shards[0] == gens[0][0])
  }

  ghost predicate CatalogOk(c: Config, shards: seq<Shard>, nextId: nat, log: seq<Op>) {
    && DistinctShardIds(shards)
    && (forall t :: t in shards ==> RowOk(c, t, nextId))
    && GenerationsOk(Generations(shards), log)
    && HeadOk(shards, Generations(shards))
  }

  /** Recall was never trimmed past what every retained generation covers. */
  ghost predicate GraceOk(c: Config, gens: seq<seq<Shard>>, trimmed: nat) {
    && (|gens| < AtLeastOne(c.keep) ==> trimmed == 0)
    && (forall i :: 0 <= i < |gens| && i < AtLeastOne(c.keep) ==> trimmed <= Frontier(gens[i]))
  }

  ghost predicate BuilderOk(s: State) {
    s.builder.Holding? ==>
      && s.builder.floor <= s.trimmed
      && 0 < s.builder.maxLsn <= |s.log|
      && RecallAgrees(s.builder.rows, s.log[..s.builder.maxLsn], s.builder.floor)
      && (forall i :: 0 <= i < |Generations(s.shards)| ==> Frontier(Generations(s.shards)[i]) <= s.builder.maxLsn)
  }

  ghost predicate ReadersOk(s: State) {
    forall r :: r in s.readers ==> s.readers[r] == [] || Chain(s.readers[r], s.log)
  }

  ghost predicate Inv(c: Config, s: State) {
    && RecallOk(s)
    && CatalogOk(c, s.shards, s.nextId, s.log)
    && GraceOk(c, Generations(s.shards), s.trimmed)
    && BuilderOk(s)
    && ReadersOk(s)
  }
}
