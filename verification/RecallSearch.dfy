/** Exact search of the recall rows above a watermark: what a search must
    return, and the two ways the backends compute it. */
module RecallSearch {
  import opened Records
  import opened Seqs
  import opened Memtable

  datatype Match = Match(id: Id, score: real, metadata: Meta)

  datatype Status = Absent | Tombstoned | Live(metadata: Meta)

  function Product(a: real, b: real): real { a * b }

  function Square(d: real): real { Product(d, d) }

  /** Squared Euclidean distance. */
  function Dist(q: seq<real>, v: seq<real>): real {
    if q == [] || v == [] then 0.0 else Square(q[0] - v[0]) + Dist(q[1..], v[1..])
  }

  function MatchOf(e: Entry, q: seq<real>): Match {
    Match(e.id, Dist(q, e.row.payload.values), e.row.payload.metadata)
  }

  predicate Nearer(a: Match, b: Match) {
    a.score < b.score || (a.score == b.score && IdLe(a.id, b.id))
  }

  predicate NoFarther(a: Match, b: Match) {
    a.score <= b.score
  }

  /** What the recall tier says about one id above a watermark. */
  function StatusOf(rows: map<Id, Row>, id: Id, watermark: int): Status {
    if id !in rows || rows[id].lsn <= watermark then Absent
    else if rows[id].deleted then Tombstoned
    else Live(rows[id].payload.metadata)
  }

  /** The matches an unbounded search would return: the filter-passing live rows. */
  ghost predicate InPool(m: Match, rows: map<Id, Row>, watermark: int, q: seq<real>, flt: Meta) {
    && StatusOf(rows, m.id, watermark).Live?
    && Passes(rows[m.id].payload.metadata, flt)
    && m == MatchOf(Entry(m.id, rows[m.id]), q)
  }

  /** The k nearest members of a pool, nearest first, ties by id. */
  ghost predicate NearestOf(matches: seq<Match>, pool: Match -> bool, k: int) {
    && Sorted(matches, Nearer)
    && (forall i, j :: 0 <= i < j < |matches| ==> matches[i] != matches[j])
    && (forall m :: m in matches ==> pool(m))
    && |matches| <= (if k < 0 then 0 else k)
    && (forall m :: pool(m) && m !in matches ==>
          |matches| == (if k < 0 then 0 else k) && forall n :: n in matches ==> Nearer(n, m))
  }

  // ----- what distance and nearest mean -----

  lemma SameSignProduct(a: real, b: real)
    ensures a == 0.0 ==> Product(a, b) == 0.0
    ensures (a > 0.0 && b > 0.0) || (a < 0.0 && b < 0.0) ==> Product(a, b) > 0.0
  {
  }

  lemma SquareIsPositive(d: real)
    ensures if d == 0.0 then Square(d) == 0.0 else Square(d) > 0.0
  {
    SameSignProduct(d, d);
  }

  /** A vector is at distance zero from itself, and any other is farther. */
  lemma {:induction false} DistIsZeroIff(q: seq<real>, v: seq<real>)
    requires |q| == |v|
    ensures if q == v then Dist(q, v) == 0.0 else Dist(q, v) > 0.0
  {
    if q == [] {
    } else {
      DistIsZeroIff(q[1..], v[1..]);
      SquareIsPositive(q[0] - v[0]);
      assert q == [q[0]] + q[1..] && v == [v[0]] + v[1..];
    }
  }

  /** Each coordinate counts with its squared difference, whichever it is. */
  lemma {:induction false} DistPerCoordinate(q: seq<real>, v: seq<real>, i: nat, x: real)
    requires i < |q| == |v|
    ensures Dist(q, v[i := x]) == Dist(q, v) - Square(q[i] - v[i]) + Square(q[i] - x)
    ensures forall d :: Square(d) == d * d
  {
    var w := v[i := x];
    if i == 0 {
      assert w[1..] == v[1..];
    } else {
      assert w[1..] == v[1..][i - 1 := x];
      DistPerCoordinate(q[1..], v[1..], i - 1, x);
    }
  }

  /** The nearest of a pool, in scores and ids: no match is farther than a later one,
      ties come in id order, and nothing left out beats a match. */
  lemma NearestInScores(matches: seq<Match>, pool: Match -> bool, k: int)
    requires NearestOf(matches, pool, k)
    ensures forall i, j :: 0 <= i < j < |matches| ==>
      matches[i].score < matches[j].score
      || (matches[i].score == matches[j].score && IdLe(matches[i].id, matches[j].id))
    ensures forall m, n :: pool(m) && m !in matches && n in matches ==>
      n.score < m.score || (n.score == m.score && IdLe(n.id, m.id))
  {
    forall i, j | 0 <= i < j < |matches| ensures Nearer(matches[i], matches[j]) {}
    forall m, n | pool(m) && m !in matches && n in matches ensures Nearer(n, m) {}
  }

  /** The rows of a partition listed once each, in any order. */
  ghost predicate Enumerates(s: seq<Entry>, rows: map<Id, Row>) {
    && (forall i, j :: 0 <= i < j < |s| ==> s[i].id != s[j].id)
    && (forall e :: e in s <==> e.id in rows && rows[e.id] == e.row)
  }

  ghost predicate IsCandidate(e: Entry, flt: Meta) {
    !e.row.deleted && Passes(e.row.payload.metadata, flt)
  }

  ghost function Candidates(s: seq<Entry>, q: seq<real>, flt: Meta): seq<Match> {
    if s == [] then []
    else (if IsCandidate(s[0], flt) then [MatchOf(s[0], q)] else []) + Candidates(s[1..], q, flt)
  }

  lemma NearerIsOrder()
    ensures IsOrder(Nearer)
  {
    forall a: Match, b: Match ensures Nearer(a, b) || Nearer(b, a) { IdLeTotal(a.id, b.id); }
    forall a: Match, b: Match, c: Match | Nearer(a, b) && Nearer(b, c) ensures Nearer(a, c) {
      if a.score == b.score == c.score { IdLeTransitive(a.id, b.id, c.id); }
    }
  }

  lemma {:induction false} CandidatesFacts(s: seq<Entry>, q: seq<real>, flt: Meta)
    requires forall i, j :: 0 <= i < j < |s| ==> s[i].id != s[j].id
    ensures forall m :: m in Candidates(s, q, flt) <==> exists e :: e in s && IsCandidate(e, flt) && m == MatchOf(e, q)
    ensures forall i, j :: 0 <= i < j < |Candidates(s, q, flt)| ==>
      Candidates(s, q, flt)[i].id != Candidates(s, q, flt)[j].id
  {
    if s == [] {
    } else {
      var tail := s[1..];
      CandidatesFacts(tail, q, flt);
      var rest := Candidates(tail, q, flt);
      assert forall e :: e in s <==> e == s[0] || e in tail;
      forall j | 0 <= j < |rest| ensures rest[j].id != s[0].id {
        assert rest[j] in rest;
        var e :| e in tail && rest[j] == MatchOf(e, q);
        var k :| 0 <= k < |tail| && tail[k] == e;
        assert s[k + 1] == e;
      }
    }
  }

  lemma TakeIsNearest(o: seq<Match>, pool: Match -> bool, k: int)
    requires Sorted(o, Nearer)
    requires forall i, j :: 0 <= i < j < |o| ==> o[i].id != o[j].id
    requires forall m :: m in o <==> pool(m)
    ensures NearestOf(Take(o, k), pool, k)
  {
    var t := Take(o, k);
    forall m | m in t ensures pool(m) {
      var i :| 0 <= i < |t| && t[i] == m;
      assert o[i] == m && m in o;
    }
    assert forall i :: 0 <= i < |t| ==> o[i] == t[i] && o[i] in t;
    forall m | pool(m) && m !in t
      ensures |t| == (if k < 0 then 0 else k) && forall n :: n in t ==> Nearer(n, m)
    {
      var j :| 0 <= j < |o| && o[j] == m;
    }
  }

  lemma SortedKeepsDistinctIds(c: seq<Match>)
    requires forall i, j :: 0 <= i < j < |c| ==> c[i].id != c[j].id
    ensures var o := SortBy(c, Nearer);
            Sorted(o, Nearer) && multiset(o) == multiset(c)
            && forall i, j :: 0 <= i < j < |o| ==> o[i].id != o[j].id
  {
    NearerIsOrder();
    SortBySorts(c, Nearer);
    var o := SortBy(c, Nearer);
    PermutationDistinct(c, o);
    forall i, j | 0 <= i < j < |o| ensures o[i].id != o[j].id {
      assert o[i] != o[j] && o[i] in c && o[j] in c;
    }
  }

  lemma CandidatesAreThePool(s: seq<Entry>, rows: map<Id, Row>, watermark: int, q: seq<real>, flt: Meta)
    requires Enumerates(s, Above(rows, watermark))
    ensures forall m :: m in Candidates(s, q, flt) <==> InPool(m, rows, watermark, q, flt)
  {
    CandidatesFacts(s, q, flt);
    forall m | InPool(m, rows, watermark, q, flt) ensures m in Candidates(s, q, flt) {
      assert Entry(m.id, rows[m.id]) in s;
    }
  }

  /** Sorting an enumeration's candidates and cutting at k gives the k nearest. */
  lemma SortedCandidatesAreNearest(s: seq<Entry>, rows: map<Id, Row>, watermark: int,
                                   q: seq<real>, flt: Meta, k: int)
    requires Enumerates(s, Above(rows, watermark))
    ensures NearestOf(Take(SortBy(Candidates(s, q, flt), Nearer), k), m => InPool(m, rows, watermark, q, flt), k)
  {
    var c := Candidates(s, q, flt);
    CandidatesFacts(s, q, flt);
    SortedKeepsDistinctIds(c);
    CandidatesAreThePool(s, rows, watermark, q, flt);
    var o := SortBy(c, Nearer);
    assert forall m :: m in o <==> m in multiset(o);
    assert forall m :: m in c <==> m in multiset(c);
    TakeIsNearest(o, m => InPool(m, rows, watermark, q, flt), k);
  }

  // ----- the one-pass scan -----

  /** The counting scan: rows arrive ordered by distance, tombstones included;
      live rows past the k-th match are skipped. */
  ghost function OnePass(s: seq<Entry>, q: seq<real>, flt: Meta, k: int, found: nat): seq<Match> {
    if s == [] then []
    else if s[0].row.deleted || found >= k || !Passes(s[0].row.payload.metadata, flt)
      then OnePass(s[1..], q, flt, k, found)
    else [MatchOf(s[0], q)] + OnePass(s[1..], q, flt, k, found + 1)
  }

  lemma TakeCons(m: Match, s: seq<Match>, n: int)
    ensures Take([m] + s, n) == if n <= 0 then [] else [m] + Take(s, n - 1)
  {
    if 0 < n <= |s| {
      assert ([m] + s)[..n] == [m] + s[..n - 1];
    }
  }

  lemma {:induction false} OnePassTakes(s: seq<Entry>, q: seq<real>, flt: Meta, k: int, found: nat)
    ensures OnePass(s, q, flt, k, found) == Take(Candidates(s, q, flt), k - found)
  {
    if s == [] {
    } else {
      var rest := Candidates(s[1..], q, flt);
      OnePassTakes(s[1..], q, flt, k, found);
      if IsCandidate(s[0], flt) {
        assert Candidates(s, q, flt) == [MatchOf(s[0], q)] + rest;
        OnePassTakes(s[1..], q, flt, k, found + 1);
        TakeCons(MatchOf(s[0], q), rest, k - found);
      } else {
        assert Candidates(s, q, flt) == rest;
      }
    }
  }

  lemma OnePassStep(s: seq<Entry>, i: nat, q: seq<real>, flt: Meta, k: int, found: nat)
    requires i < |s|
    ensures OnePass(s[i..], q, flt, k, found)
            == if s[i].row.deleted || found >= k || !Passes(s[i].row.payload.metadata, flt)
               then OnePass(s[i + 1..], q, flt, k, found)
               else [MatchOf(s[i], q)] + OnePass(s[i + 1..], q, flt, k, found + 1)
  {
    assert s[i..][1..] == s[i + 1..];
  }

  lemma IdsSnoc(s: seq<Entry>, i: nat)
    requires i < |s|
    ensures (set e | e in s[..i + 1] :: e.id) == (set e | e in s[..i] :: e.id) + {s[i].id}
  {
    assert s[..i + 1] == s[..i] + [s[i]];
  }

  /** The scan has seen the first i rows. */
  ghost predicate ScannedTo(s: seq<Entry>, q: seq<real>, flt: Meta, k: int, i: nat, suppress: set<Id>,
                            matches: seq<Match>)
    requires i <= |s|
  {
    && suppress == (set e | e in s[..i] :: e.id)
    && matches + OnePass(s[i..], q, flt, k, |matches|) == OnePass(s, q, flt, k, 0)
  }

  lemma ScanNext(s: seq<Entry>, q: seq<real>, flt: Meta, k: int, i: nat, suppress: set<Id>, matches: seq<Match>)
    requires i < |s| && ScannedTo(s, q, flt, k, i, suppress, matches)
    ensures var counts := !s[i].row.deleted && |matches| < k && Passes(s[i].row.payload.metadata, flt);
      ScannedTo(s, q, flt, k, i + 1, suppress + {s[i].id}, if counts then matches + [MatchOf(s[i], q)] else matches)
  {
    IdsSnoc(s, i);
    OnePassStep(s, i, q, flt, k, |matches|);
  }

  lemma ScanDone(s: seq<Entry>, q: seq<real>, flt: Meta, k: int, suppress: set<Id>, matches: seq<Match>)
    requires ScannedTo(s, q, flt, k, |s|, suppress, matches)
    ensures suppress == (set e | e in s :: e.id) && matches == Take(Candidates(s, q, flt), k)
  {
    assert s[..|s|] == s;
    OnePassTakes(s, q, flt, k, 0);
  }

  method OnePassScan(s: seq<Entry>, q: seq<real>, flt: Meta, k: int)
    returns (suppress: set<Id>, matches: seq<Match>)
    ensures suppress == set e | e in s :: e.id
    ensures matches == Take(Candidates(s, q, flt), k)
  {
    suppress, matches := {}, [];
    var live := 0;
    var i := 0;
    while i < |s|
      invariant 0 <= i <= |s| && live == |matches|
      invariant ScannedTo(s, q, flt, k, i, suppress, matches)
    {
      var e := s[i];
      ScanNext(s, q, flt, k, i, suppress, matches);
      i := i + 1;
      suppress := suppress + {e.id};
      if e.row.deleted || live >= k {
        continue;
      }
      var ok := MetadataMatchesFilter(e.row.payload.metadata, flt);
      if !ok {
        continue;
      }
      matches := matches + [MatchOf(e, q)];
      live := live + 1;
    }
    ScanDone(s, q, flt, k, suppress, matches);
  }

  lemma {:induction false} CandidateSource(s: seq<Entry>, q: seq<real>, flt: Meta, m: Match)
    requires m in Candidates(s, q, flt)
    ensures exists k :: 0 <= k < |s| && m == MatchOf(s[k], q)
  {
    if m in Candidates(s[1..], q, flt) {
      CandidateSource(s[1..], q, flt, m);
      var k :| 0 <= k < |s[1..]| && m == MatchOf(s[1..][k], q);
      assert s[k + 1] == s[1..][k];
    }
  }

  lemma {:induction false} CandidatesSorted(s: seq<Entry>, q: seq<real>, flt: Meta)
    requires Sorted(s, (a: Entry, b: Entry) => Nearer(MatchOf(a, q), MatchOf(b, q)))
    ensures Sorted(Candidates(s, q, flt), Nearer)
  {
    if s == [] {
    } else {
      var tail := s[1..];
      assert forall i :: 0 <= i < |tail| ==> tail[i] == s[i + 1];
      CandidatesSorted(tail, q, flt);
      if IsCandidate(s[0], flt) {
        forall m | m in Candidates(tail, q, flt) ensures Nearer(MatchOf(s[0], q), m) {
          CandidateSource(tail, q, flt, m);
          var k :| 0 <= k < |tail| && m == MatchOf(tail[k], q);
          assert s[k + 1] == tail[k];
        }
        SortedCons(MatchOf(s[0], q), Candidates(tail, q, flt), Nearer);
      }
    }
  }

  lemma NearerSeparates(a: seq<Match>)
    requires forall i, j :: 0 <= i < j < |a| ==> a[i].id != a[j].id
    ensures Separates(a, Nearer)
  {
    forall x ensures Nearer(x, x) { IdLeTotal(x.id, x.id); }
    forall x, y | Nearer(x, y) && Nearer(y, x) ensures x.id == y.id {
      IdLeAntisymmetric(x.id, y.id);
    }
  }

  /** There is one way to list some matches nearest first. */
  lemma OneRanking(a: seq<Match>, b: seq<Match>)
    requires Sorted(a, Nearer) && multiset(a) == multiset(b)
    requires forall i, j :: 0 <= i < j < |a| ==> a[i].id != a[j].id
    ensures a == SortBy(b, Nearer)
  {
    NearerIsOrder();
    SortBySorts(b, Nearer);
    NearerSeparates(a);
    SortedUnique(a, SortBy(b, Nearer), Nearer);
  }

  lemma SameCandidates(scanned: seq<Entry>, listed: seq<Entry>, rows: map<Id, Row>, q: seq<real>, flt: Meta)
    requires Enumerates(scanned, rows) && Enumerates(listed, rows)
    ensures multiset(Candidates(scanned, q, flt)) == multiset(Candidates(listed, q, flt))
  {
    CandidatesFacts(scanned, q, flt);
    CandidatesFacts(listed, q, flt);
    assert forall e :: e in scanned <==> e in listed;
    SameMembersSameMultiset(Candidates(scanned, q, flt), Candidates(listed, q, flt));
  }

  lemma RankedCandidates(scanned: seq<Entry>, listed: seq<Entry>, rows: map<Id, Row>, q: seq<real>, flt: Meta)
    requires Enumerates(scanned, rows) && Enumerates(listed, rows)
    requires Sorted(scanned, (a: Entry, b: Entry) => Nearer(MatchOf(a, q), MatchOf(b, q)))
    ensures Candidates(scanned, q, flt) == SortBy(Candidates(listed, q, flt), Nearer)
  {
    CandidatesSorted(scanned, q, flt);
    CandidatesFacts(scanned, q, flt);
    SameCandidates(scanned, listed, rows, q, flt);
    OneRanking(Candidates(scanned, q, flt), Candidates(listed, q, flt));
  }

  /** Scanning every row in (distance, id) order with a counter returns what
      filtering first, sorting and cutting returns, whatever order the rows
      were filtered in. */
  lemma OnePassEqualsFilterSortTake(scanned: seq<Entry>, listed: seq<Entry>, rows: map<Id, Row>,
                                    q: seq<real>, flt: Meta, k: int)
    requires Enumerates(scanned, rows) && Enumerates(listed, rows)
    requires Sorted(scanned, (a: Entry, b: Entry) => Nearer(MatchOf(a, q), MatchOf(b, q)))
    ensures OnePass(scanned, q, flt, k, 0) == Take(SortBy(Candidates(listed, q, flt), Nearer), k)
  {
    RankedCandidates(scanned, listed, rows, q, flt);
    OnePassTakes(scanned, q, flt, k, 0);
  }
}
