/** The last step of a query over one shard: recall matches and the shard's
    top_k hits, minus the hits recall suppresses, sorted and cut to top_k. */
module TopKMerge {
  import opened Records
  import opened Seqs
  import opened RecallSearch

  predicate Survives(suppress: set<Id>, m: Match) { m.id !in suppress }

  function Unsuppressed(suppress: set<Id>): Match -> bool { (m: Match) => Survives(suppress, m) }

  function Within(score: real): Match -> bool { (m: Match) => m.score <= score }

  function Kept(hits: seq<Match>, suppress: set<Id>): seq<Match> { Filter(hits, Unsuppressed(suppress)) }

  /** The merge: recall is authoritative for the ids it suppresses. */
  function Merge(suppress: set<Id>, matches: seq<Match>, hits: seq<Match>, k: nat): seq<Match> {
    Take(SortBy(matches + Kept(hits, suppress), NoFarther), k)
  }

  /** What the query path hands to the merge: the recall tier and the shard each
      contribute their own nearest k. */
  function RankedAnswer(suppress: set<Id>, recall: seq<Match>, cold: seq<Match>, k: nat): seq<Match> {
    Merge(suppress, Take(recall, k), Take(cold, k), k)
  }

  /** Everything the two tiers hold: all recall matches and all the shard's hits
      that recall does not cover. */
  function Union(suppress: set<Id>, recall: seq<Match>, cold: seq<Match>): seq<Match> {
    recall + Kept(cold, suppress)
  }

  ghost predicate DistinctMatchIds(s: seq<Match>) {
    forall i, j :: 0 <= i < j < |s| ==> s[i].id != s[j].id
  }

  /** Both tiers rank nearest first, without repeated ids, and recall suppresses
      everything it matches. */
  ghost predicate TiersOk(suppress: set<Id>, recall: seq<Match>, cold: seq<Match>) {
    && Sorted(recall, NoFarther) && Sorted(cold, NoFarther)
    && DistinctMatchIds(recall) && DistinctMatchIds(cold)
    && forall m :: m in recall ==> m.id in suppress
  }

  /** The k nearest of a pool, nearest first and each once, whatever the order of
      ties. */
  ghost predicate KNearest(got: seq<Match>, pool: seq<Match>, k: nat) {
    && Sorted(got, NoFarther) && DistinctMatchIds(got)
    && |got| == (if |pool| < k then |pool| else k)
    && (forall m :: m in got ==> m in pool)
    && (forall m, u :: m in got && u in pool && u !in got ==> m.score <= u.score)
  }

  // ----- counting by score -----

  function CountWithin(s: seq<Match>, score: real): (n: nat)
    ensures n <= |s|
  {
    FilterMembers(s, Within(score));
    |Filter(s, Within(score))|
  }

  lemma NoFartherIsOrder()
    ensures IsOrder(NoFarther)
  {
  }

  lemma SameCounts(a: seq<Match>, b: seq<Match>, score: real)
    requires multiset(a) == multiset(b)
    ensures CountWithin(a, score) == CountWithin(b, score)
  {
    var p := Within(score);
    forall x ensures multiset(Filter(a, p))[x] == multiset(Filter(b, p))[x] {
      FilterMultiset(a, p, x);
      FilterMultiset(b, p, x);
    }
    assert multiset(Filter(a, p)) == multiset(Filter(b, p));
    assert |multiset(Filter(a, p))| == |Filter(a, p)| && |multiset(Filter(b, p))| == |Filter(b, p)|;
  }

  /** In a ranking, exactly the first CountWithin entries are within a score. */
  lemma {:induction false} RankedCount(s: seq<Match>, score: real, i: nat)
    requires Sorted(s, NoFarther) && i < |s|
    ensures s[i].score <= score <==> i < CountWithin(s, score)
  {
    var tail, p := s[1..], Within(score);
    assert forall a :: 0 <= a < |tail| ==> tail[a] == s[a + 1];
    assert CountWithin(s, score) == (if p(s[0]) then 1 else 0) + CountWithin(tail, score);
    if p(s[0]) {
      if i > 0 { RankedCount(tail, score, i - 1); }
    } else {
      forall m | m in tail ensures !p(m) {
        var a :| 0 <= a < |tail| && tail[a] == m;
        assert NoFarther(s[0], s[a + 1]);
      }
      FilterNone(tail, p);
    }
  }

  lemma CountConcat(a: seq<Match>, b: seq<Match>, score: real)
    ensures CountWithin(a + b, score) == CountWithin(a, score) + CountWithin(b, score)
  {
    FilterConcat(a, b, Within(score));
  }

  lemma CountTake(s: seq<Match>, k: nat, score: real)
    requires Sorted(s, NoFarther)
    ensures CountWithin(Take(s, k), score)
            == if CountWithin(s, score) < k then CountWithin(s, score) else if |s| < k then |s| else k
  {
    var n, t := CountWithin(s, score), Take(s, k);
    if k < |s| {
      assert s == t + s[k..];
      CountConcat(t, s[k..], score);
      if n < k {
        forall m | m in s[k..] ensures !Within(score)(m) {
          var a :| k <= a < |s| && s[a] == m;
          RankedCount(s, score, a);
        }
        FilterNone(s[k..], Within(score));
      } else {
        forall m | m in t ensures Within(score)(m) {
          var a :| 0 <= a < k && s[a] == m;
          RankedCount(s, score, a);
        }
        FilterAll(t, Within(score));
      }
    }
  }

  // ----- the merged ranking -----

  /** The merge's candidates in rank order; the answer is its first k. */
  lemma Ranking(cand: seq<Match>, k: nat) returns (o: seq<Match>)
    ensures o == SortBy(cand, NoFarther) && Sorted(o, NoFarther) && |o| == |cand|
    ensures forall m :: m in o <==> m in cand
    ensures forall score :: CountWithin(o, score) == CountWithin(cand, score)
  {
    o := SortBy(cand, NoFarther);
    NoFartherIsOrder();
    SortBySorts(cand, NoFarther);
    forall score: real ensures CountWithin(o, score) == CountWithin(cand, score) {
      SameCounts(o, cand, score);
    }
  }

  /** At least k candidates within a score put the whole answer within it. */
  lemma AnswerWithin(cand: seq<Match>, k: nat, score: real, m: Match)
    requires CountWithin(cand, score) >= k && m in Take(SortBy(cand, NoFarther), k)
    ensures m.score <= score
  {
    var o := Ranking(cand, k);
    var i :| 0 <= i < |Take(o, k)| && Take(o, k)[i] == m;
    RankedCount(o, score, i);
  }

  /** Fewer than k candidates within a score leave one beyond it in the answer,
      or leave the answer short. */
  lemma AnswerReaches(cand: seq<Match>, k: nat, score: real)
    requires CountWithin(cand, score) < k
    ensures var got := Take(SortBy(cand, NoFarther), k);
      |got| < k || exists m :: m in got && m.score > score
  {
    var o := Ranking(cand, k);
    var got := Take(o, k);
    if |got| >= k {
      RankedCount(o, score, k - 1);
      assert got[k - 1] in got;
    }
  }

  lemma {:induction false} RankingKeepsIds(cand: seq<Match>)
    requires DistinctMatchIds(cand)
    ensures DistinctMatchIds(SortBy(cand, NoFarther))
  {
    var o := SortBy(cand, NoFarther);
    NoFartherIsOrder();
    SortBySorts(cand, NoFarther);
    PermutationDistinct(cand, o);
    forall i, j | 0 <= i < j < |o| ensures o[i].id != o[j].id {
      assert o[i] != o[j] && o[i] in cand && o[j] in cand;
    }
  }

  /** Ranking and cutting distinct candidates gives a ranking without repeats. */
  lemma CutIsRanked(cand: seq<Match>, k: nat)
    requires DistinctMatchIds(cand)
    ensures var got := Take(SortBy(cand, NoFarther), k);
      Sorted(got, NoFarther) && DistinctMatchIds(got) && |got| == if |cand| < k then |cand| else k
  {
    var o := Ranking(cand, k);
    RankingKeepsIds(cand);
    assert forall i :: 0 <= i < |Take(o, k)| ==> Take(o, k)[i] == o[i];
  }

  lemma OutsideTheCut(s: seq<Match>, k: nat, u: Match)
    requires u !in Take(s, k)
    ensures forall a :: 0 <= a < |s| && a < k ==> s[a] != u
  {
    forall a | 0 <= a < |s| && a < k ensures s[a] != u {
      assert s[a] == Take(s, k)[a];
    }
  }

  /** Repeat-free members of a repeat-free pool are no more than the pool, and if
      they are as many, they are all of it. */
  lemma {:induction false} SizeOfPart(part: seq<Match>, pool: seq<Match>)
    requires Distinct(part) && Distinct(pool) && forall m :: m in part ==> m in pool
    ensures |part| <= |pool|
    ensures |part| == |pool| ==> forall m :: m in pool ==> m in part
  {
    if part == [] {
    } else {
      var m := part[0];
      assert m in part;
      var i :| 0 <= i < |pool| && pool[i] == m;
      var rest := pool[..i] + pool[i + 1..];
      forall x | x in pool && x != m ensures x in rest {
        var j :| 0 <= j < |pool| && pool[j] == x;
        assert j < i ==> rest[j] == x;
        assert j > i ==> rest[j - 1] == x;
      }
      SizeOfPart(part[1..], rest);
    }
  }

  lemma {:induction false} CountGrows(s: seq<Match>, low: real, high: real)
    requires low <= high
    ensures CountWithin(s, low) <= CountWithin(s, high)
  {
    if s == [] {
    } else {
      CountGrows(s[1..], low, high);
    }
  }

  lemma CutIsOfCandidates(cand: seq<Match>, k: nat)
    ensures var got := Take(SortBy(cand, NoFarther), k);
      && (forall m :: m in got ==> m in cand)
      && (|got| < k ==> forall m :: m in cand ==> m in got)
  {
    var o := Ranking(cand, k);
    assert forall m :: m in Take(o, k) ==> m in o;
  }

  lemma CutIsNearest(cand: seq<Match>, k: nat, m: Match, u: Match)
    requires var got := Take(SortBy(cand, NoFarther), k); m in got && u in cand && u !in got
    ensures m.score <= u.score
  {
    var o := Ranking(cand, k);
    var i :| 0 <= i < |Take(o, k)| && Take(o, k)[i] == m;
    var j :| 0 <= j < |o| && o[j] == u;
    OutsideTheCut(o, k, u);
    assert NoFarther(o[i], o[j]);
  }

  // ----- places in the merged ranking -----

  function Below(score: real): Match -> bool { (m: Match) => m.score < score }

  function CountBelow(s: seq<Match>, score: real): nat { |Filter(s, Below(score))| }

  /** How many candidates a stable sort puts before this one: those listed before
      it that are no farther, and those listed after it that are nearer. */
  function Ahead(cand: seq<Match>, m: Match): nat {
    if cand == [] then 0
    else if cand[0] == m then CountBelow(cand[1..], m.score)
    else (if NoFarther(cand[0], m) then 1 else 0) + Ahead(cand[1..], m)
  }

  lemma SameCountsBelow(a: seq<Match>, b: seq<Match>, score: real)
    requires multiset(a) == multiset(b)
    ensures CountBelow(a, score) == CountBelow(b, score)
  {
    var p := Below(score);
    forall x ensures multiset(Filter(a, p))[x] == multiset(Filter(b, p))[x] {
      FilterMultiset(a, p, x);
      FilterMultiset(b, p, x);
    }
    assert multiset(Filter(a, p)) == multiset(Filter(b, p));
    assert |multiset(Filter(a, p))| == |Filter(a, p)| && |multiset(Filter(b, p))| == |Filter(b, p)|;
  }

  /** Inserting into a ranking: behind all that are nearer, before all others. */
  lemma {:induction false} InsertPlace(x: Match, s: seq<Match>)
    requires Sorted(s, NoFarther)
    ensures var p, o := CountBelow(s, x.score), Insert(x, s, NoFarther);
      && p <= |s| && o == s[..p] + [x] + s[p..]
      && forall i :: 0 <= i < |s| ==> (i < p <==> s[i].score < x.score)
  {
    var below := Below(x.score);
    if s == [] {
    } else if NoFarther(x, s[0]) {
      forall m | m in s ensures !below(m) {
        var i :| 0 <= i < |s| && s[i] == m;
        assert i > 0 ==> NoFarther(s[0], s[i]);
      }
      FilterNone(s, below);
      assert s[..0] == [] && s[0..] == s;
    } else {
      var tail := s[1..];
      InsertPlace(x, tail);
      var p := CountBelow(tail, x.score);
      assert below(s[0]) && CountBelow(s, x.score) == p + 1;
      assert s[..p + 1] == [s[0]] + tail[..p] && s[p + 1..] == tail[p..];
      forall i | 0 <= i < |s| ensures i < p + 1 <==> s[i].score < x.score {
        if i > 0 { assert s[i] == tail[i - 1]; }
      }
    }
  }

  lemma InsertShifts(x: Match, s: seq<Match>, a: nat)
    requires Sorted(s, NoFarther) && a < |s|
    ensures var o, b := Insert(x, s, NoFarther), if NoFarther(x, s[a]) then a + 1 else a;
      b < |o| && o[b] == s[a]
  {
    InsertPlace(x, s);
  }

  /** A candidate's place in the ranking is the number of those ahead of it. */
  lemma {:induction false} RankIsAhead(cand: seq<Match>, m: Match)
    requires DistinctMatchIds(cand) && m in cand
    ensures Ahead(cand, m) < |SortBy(cand, NoFarther)| && SortBy(cand, NoFarther)[Ahead(cand, m)] == m
  {
    var x, tail := cand[0], cand[1..];
    var o := SortBy(tail, NoFarther);
    NoFartherIsOrder();
    SortBySorts(tail, NoFarther);
    if m == x {
      InsertPlace(x, o);
      SameCountsBelow(o, tail, x.score);
    } else {
      assert m in tail;
      assert forall i :: 0 <= i < |tail| ==> tail[i] == cand[i + 1];
      RankIsAhead(tail, m);
      InsertShifts(x, o, Ahead(tail, m));
    }
  }

  /** A candidate makes the cut exactly when fewer than k are ahead of it. */
  lemma InTheCutIff(cand: seq<Match>, k: nat, m: Match)
    requires DistinctMatchIds(cand) && m in cand
    ensures m in Take(SortBy(cand, NoFarther), k) <==> Ahead(cand, m) < k
  {
    var o, a := SortBy(cand, NoFarther), Ahead(cand, m);
    RankIsAhead(cand, m);
    RankingKeepsIds(cand);
    if m in Take(o, k) {
      var i :| 0 <= i < |Take(o, k)| && Take(o, k)[i] == m;
      assert o[i].id == o[a].id;
    } else {
      OutsideTheCut(o, k, m);
    }
  }

  /** All candidates that are no members are behind k others, and every member
      that is no candidate has k candidates at least as near. */
  ghost predicate CutSuits(cand: seq<Match>, pool: seq<Match>, k: nat) {
    && (forall m :: m in cand && m !in pool ==> Ahead(cand, m) >= k)
    && (forall u :: u in pool && u !in cand ==> CountWithin(cand, u.score) >= k)
  }

  lemma SuitableCutIsOfPool(cand: seq<Match>, pool: seq<Match>, k: nat)
    requires DistinctMatchIds(cand)
    ensures (forall m :: m in cand && m !in pool ==> Ahead(cand, m) >= k)
            <==> (forall m :: m in Take(SortBy(cand, NoFarther), k) ==> m in pool)
  {
    CutIsOfCandidates(cand, k);
    forall m | m in cand ensures m in Take(SortBy(cand, NoFarther), k) <==> Ahead(cand, m) < k {
      InTheCutIff(cand, k, m);
    }
  }

  lemma SuitableCutIsNearest(cand: seq<Match>, pool: seq<Match>, k: nat)
    requires DistinctMatchIds(cand) && DistinctMatchIds(pool) && CutSuits(cand, pool, k)
    ensures KNearest(Take(SortBy(cand, NoFarther), k), pool, k)
  {
    var got := Take(SortBy(cand, NoFarther), k);
    CutIsRanked(cand, k);
    CutIsOfCandidates(cand, k);
    SuitableCutIsOfPool(cand, pool, k);
    SizeOfPart(got, pool);
    if |got| < k {
      forall u | u in pool ensures u in got { assert u in cand; }
      SizeOfPart(pool, got);
    }
    forall m, u | m in got && u in pool && u !in got ensures m.score <= u.score {
      if u in cand { CutIsNearest(cand, k, m, u); } else { AnswerWithin(cand, k, u.score, m); }
    }
  }

  /** Ranking some candidates and cutting at k gives the k nearest of a pool if and
      only if the candidates suit the pool, which says nothing of the ranking. */
  lemma CutIsExactIff(cand: seq<Match>, pool: seq<Match>, k: nat)
    requires DistinctMatchIds(cand) && DistinctMatchIds(pool)
    ensures KNearest(Take(SortBy(cand, NoFarther), k), pool, k) <==> CutSuits(cand, pool, k)
  {
    var got := Take(SortBy(cand, NoFarther), k);
    SuitableCutIsOfPool(cand, pool, k);
    if KNearest(got, pool, k) {
      forall u | u in pool && u !in cand ensures CountWithin(cand, u.score) >= k {
        SizeOfPart(got, pool);
        CutIsOfCandidates(cand, k);
        if CountWithin(cand, u.score) < k {
          AnswerReaches(cand, k, u.score);
        }
      }
    } else if CutSuits(cand, pool, k) {
      SuitableCutIsNearest(cand, pool, k);
    }
  }

  /** What the recall tier cuts off has k matches in front of it. */
  lemma BeyondRecallCut(recall: seq<Match>, k: nat, u: Match)
    requires Sorted(recall, NoFarther) && u in recall && u !in Take(recall, k)
    ensures CountWithin(Take(recall, k), u.score) >= k
  {
    var a :| 0 <= a < |recall| && recall[a] == u;
    OutsideTheCut(recall, k, u);
    RankedCount(recall, u.score, a);
    CountTake(recall, k, u.score);
  }

  /** The shard's hits below its own cut that recall does not cover. */
  function Beyond(suppress: set<Id>, cold: seq<Match>, k: nat): seq<Match> {
    if k <= |cold| then Kept(cold[k..], suppress) else []
  }

  /** How many of the shard's k hits recall suppresses. */
  function Wasted(suppress: set<Id>, cold: seq<Match>, k: nat): int {
    |Take(cold, k)| - |Kept(Take(cold, k), suppress)|
  }

  /** The merge misses nothing: no unsuppressed hit lies below the shard's cut,
      or recall fills the slots its suppressions emptied with matches at least
      as near as the first such hit. */
  predicate SlotsRefilled(suppress: set<Id>, recall: seq<Match>, cold: seq<Match>, k: nat) {
    var beyond := Beyond(suppress, cold, k);
    beyond == [] || CountWithin(recall, beyond[0].score) >= Wasted(suppress, cold, k)
  }

  lemma KeptParts(suppress: set<Id>, cold: seq<Match>, k: nat)
    ensures Kept(cold, suppress) == Kept(Take(cold, k), suppress) + Beyond(suppress, cold, k)
    ensures Beyond(suppress, cold, k) != [] ==> |Take(cold, k)| == k < |cold|
  {
    if k < |cold| {
      assert Take(cold, k) == cold[..k] && cold == cold[..k] + cold[k..];
      FilterConcat(cold[..k], cold[k..], Unsuppressed(suppress));
    } else {
      assert Take(cold, k) == cold;
      assert k == |cold| ==> cold[k..] == [];
    }
  }

  lemma TailSorted(s: seq<Match>, k: nat)
    requires Sorted(s, NoFarther) && k <= |s|
    ensures Sorted(s[k..], NoFarther)
  {
  }

  /** Hits kept from the shard's top k are no farther than those beyond it. */
  lemma KeptAreNear(suppress: set<Id>, recall: seq<Match>, cold: seq<Match>, k: nat)
    requires TiersOk(suppress, recall, cold) && Beyond(suppress, cold, k) != []
    ensures var c := Beyond(suppress, cold, k)[0];
      && CountWithin(Kept(Take(cold, k), suppress), c.score) == |Kept(Take(cold, k), suppress)|
      && c in cold && c.id !in suppress && c !in Take(cold, k)
      && forall u :: u in Beyond(suppress, cold, k) ==> c.score <= u.score
  {
    var top, beyond := Take(cold, k), Beyond(suppress, cold, k);
    var c := beyond[0];
    KeptParts(suppress, cold, k);
    FilterMembers(cold[k..], Unsuppressed(suppress));
    assert c in beyond && c in cold[k..];
    var a :| k <= a < |cold| && cold[a] == c;
    FilterMembers(top, Unsuppressed(suppress));
    forall m | m in Kept(top, suppress) ensures Within(c.score)(m) {
      var b :| 0 <= b < k && cold[b] == m;
      assert NoFarther(cold[b], cold[a]);
    }
    FilterAll(Kept(top, suppress), Within(c.score));
    forall m | m in top ensures m != c {
      var b :| 0 <= b < k && cold[b] == m;
      assert cold[b].id != cold[a].id;
    }
    TailSorted(cold, k);
    FilterSorted(cold[k..], Unsuppressed(suppress), NoFarther);
    forall u | u in beyond ensures c.score <= u.score {
      var b :| 0 <= b < |beyond| && beyond[b] == u;
      assert b > 0 ==> NoFarther(beyond[0], beyond[b]);
    }
  }

  lemma CandidateCount(suppress: set<Id>, recall: seq<Match>, cold: seq<Match>, k: nat)
    requires TiersOk(suppress, recall, cold) && Beyond(suppress, cold, k) != []
    ensures var c, cand := Beyond(suppress, cold, k)[0], Take(recall, k) + Kept(Take(cold, k), suppress);
      CountWithin(cand, c.score) >= k <==> CountWithin(recall, c.score) >= Wasted(suppress, cold, k)
  {
    var c, kept := Beyond(suppress, cold, k)[0], Kept(Take(cold, k), suppress);
    KeptAreNear(suppress, recall, cold, k);
    KeptParts(suppress, cold, k);
    CountConcat(Take(recall, k), kept, c.score);
    CountTake(recall, k, c.score);
    FilterMembers(Take(cold, k), Unsuppressed(suppress));
  }

  lemma UnionIsDistinct(suppress: set<Id>, recall: seq<Match>, cold: seq<Match>)
    requires TiersOk(suppress, recall, cold)
    ensures DistinctMatchIds(Union(suppress, recall, cold))
  {
    var kept := Kept(cold, suppress);
    FilterMembers(cold, Unsuppressed(suppress));
    FilterSorted(cold, Unsuppressed(suppress), (a: Match, b: Match) => a.id != b.id);
    forall i, j | 0 <= i < |recall| && 0 <= j < |kept| ensures recall[i].id != kept[j].id {
      assert recall[i] in recall && kept[j] in kept;
    }
  }

  lemma CutTiersOk(suppress: set<Id>, recall: seq<Match>, cold: seq<Match>, k: nat)
    requires TiersOk(suppress, recall, cold)
    ensures TiersOk(suppress, Take(recall, k), Take(cold, k))
  {
    forall m | m in Take(recall, k) ensures m in recall {}
  }

  /** The nearest hit beyond the shard's cut is a member of the union and no
      candidate, and all others beyond are no nearer. */
  lemma FirstMissed(suppress: set<Id>, recall: seq<Match>, cold: seq<Match>, k: nat)
    requires TiersOk(suppress, recall, cold) && Beyond(suppress, cold, k) != []
    ensures var c, cand := Beyond(suppress, cold, k)[0], Take(recall, k) + Kept(Take(cold, k), suppress);
      && c in Union(suppress, recall, cold) && c !in cand
      && (CountWithin(cand, c.score) >= k <==> SlotsRefilled(suppress, recall, cold, k))
      && forall u :: u in Beyond(suppress, cold, k) ==> c.score <= u.score
  {
    KeptAreNear(suppress, recall, cold, k);
    KeptParts(suppress, cold, k);
    CandidateCount(suppress, recall, cold, k);
    FilterMembers(Take(cold, k), Unsuppressed(suppress));
    assert Beyond(suppress, cold, k)[0] in Beyond(suppress, cold, k);
    assert forall m :: m in Take(recall, k) ==> m in recall;
  }

  /** A single-shard query returns the k nearest of everything the two tiers hold
      if and only if recall refills the slots its suppressions emptied. */
  lemma MergeIsExactIff(suppress: set<Id>, recall: seq<Match>, cold: seq<Match>, k: nat)
    requires TiersOk(suppress, recall, cold)
    ensures KNearest(RankedAnswer(suppress, recall, cold, k), Union(suppress, recall, cold), k)
            <==> SlotsRefilled(suppress, recall, cold, k)
  {
    var kept, beyond := Kept(Take(cold, k), suppress), Beyond(suppress, cold, k);
    var cand, all := Take(recall, k) + kept, Union(suppress, recall, cold);
    CutTiersOk(suppress, recall, cold, k);
    UnionIsDistinct(suppress, Take(recall, k), Take(cold, k));
    UnionIsDistinct(suppress, recall, cold);
    CutIsExactIff(cand, all, k);
    CutIsOfCandidates(cand, k);
    KeptParts(suppress, cold, k);
    assert forall m :: m in Take(recall, k) ==> m in recall;
    if beyond != [] {
      FirstMissed(suppress, recall, cold, k);
    }
    forall u | u in all && u !in cand && SlotsRefilled(suppress, recall, cold, k)
      ensures CountWithin(cand, u.score) >= k
    {
      if u in recall {
        BeyondRecallCut(recall, k, u);
        CountConcat(Take(recall, k), kept, u.score);
      } else {
        assert u in beyond;
        CountGrows(cand, beyond[0].score, u.score);
      }
    }
  }

  /** Two vectors in the shard, the nearer one just deleted through recall: a
      query for one neighbour finds none. */
  lemma DeletedNearestHidesTheNext(a: Match, b: Match)
    requires a.id != b.id && a.score <= b.score
    ensures RankedAnswer({a.id}, [], [a, b], 1) == [] && Union({a.id}, [], [a, b]) == [b]
  {
    var p := Unsuppressed({a.id});
    assert !p(a) && p(b);
    assert [a, b][..1] == [a] && [a, b] == [a] + [b];
    FilterNone([a], p);
    FilterAll([b], p);
    FilterConcat([a], [b], p);
    assert Take([a, b], 1) == [a];
    assert SortBy<Match>([], NoFarther) == [];
  }
}
