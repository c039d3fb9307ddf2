/** The local shard cache: a byte-budgeted LRU of downloaded files, with an
    unconditional admission and a dry run that respects a residency floor. */
module ShardTier {
  import opened Seqs

  /** One residency entry. Times are monotonic seconds. */
  datatype Entry = Entry(uri: string, path: string, nbytes: nat, admitAt: real, queryAt: real)

  /** The residency table from LRU to MRU, and the files on disk. */
  datatype TierState = TierState(lru: seq<Entry>, files: set<string>)

  predicate DistinctUris(lru: seq<Entry>) {
    forall i, j :: 0 <= i < j < |lru| ==> lru[i].uri != lru[j].uri
  }

  function Used(lru: seq<Entry>): nat {
    if lru == [] then 0 else lru[0].nbytes + Used(lru[1..])
  }

  function PathsOf(lru: seq<Entry>): set<string> {
    set e | e in lru :: e.path
  }

  predicate IsNot(uri: string, e: Entry) { e.uri != uri }

  function OtherThan(uri: string): Entry -> bool { (e: Entry) => IsNot(uri, e) }

  function Without(lru: seq<Entry>, uri: string): seq<Entry> { Filter(lru, OtherThan(uri)) }

  function Find(lru: seq<Entry>, uri: string): (r: Option<Entry>)
    ensures r.Some? ==> r.value in lru && r.value.uri == uri
    ensures r.None? ==> forall e :: e in lru ==> e.uri != uri
  {
    if lru == [] then None else if lru[0].uri == uri then Some(lru[0]) else Find(lru[1..], uri)
  }

  /** The entry a lookup serves: registered, and its file still on disk. */
  function Serving(t: TierState, uri: string): Option<Entry> {
    var found := Find(t.lru, uri);
    if found.Some? && found.value.path in t.files then found else None
  }

  // ----- what the operations do -----

  /** Length of the shortest LRU prefix whose removal fits the rest in `room`. */
  function Cut(lru: seq<Entry>, room: int): (k: nat)
    ensures k <= |lru|
    ensures k < |lru| ==> Used(lru[k..]) <= room
    ensures forall j :: 0 <= j < k ==> Used(lru[j..]) > room
  {
    if lru == [] || Used(lru) <= room then 0
    else
      var k := 1 + Cut(lru[1..], room);
      assert forall j :: 0 < j <= |lru| ==> lru[j..] == lru[1..][j - 1..];
      k
  }

  function Place(lru: seq<Entry>, e: Entry): seq<Entry> { Without(lru, e.uri) + [e] }

  /** The entries an admission gives up, LRU first. */
  function Victims(lru: seq<Entry>, e: Entry, budget: nat): seq<Entry> {
    Place(lru, e)[..Cut(Place(lru, e), budget)]
  }

  /** Files in `busy` cannot be unlinked. */
  function Dropped(files: set<string>, victims: seq<Entry>, busy: set<string>): set<string> {
    files - (PathsOf(victims) - busy)
  }

  /** Admission: place at the MRU end, then drop victims and their files. */
  function Admitted(t: TierState, e: Entry, budget: nat, busy: set<string>): TierState {
    TierState(Place(t.lru, e)[Cut(Place(t.lru, e), budget)..], Dropped(t.files, Victims(t.lru, e, budget), busy))
  }

  function Touched(t: TierState, uri: string, now: real): TierState {
    var found := Serving(t, uri);
    if found.None? then t else t.(lru := Without(t.lru, uri) + [found.value.(queryAt := now)])
  }

  function Evicted(t: TierState, uri: string, busy: set<string>): TierState {
    var found := Find(t.lru, uri);
    if found.None? then t
    else TierState(Without(t.lru, uri), t.files - ({found.value.path} - busy))
  }

  predicate OldEnough(entries: seq<Entry>, now: real, floor: real) {
    forall v :: v in entries ==> now - v.admitAt >= floor
  }

  /** What the dry run is for: the arrival would be kept, and only entries that
      have been resident for at least `floor` seconds would go. */
  predicate Admissible(lru: seq<Entry>, e: Entry, budget: nat, now: real, floor: real) {
    e.nbytes <= budget && OldEnough(Victims(lru, e, budget), now, floor)
  }

  // ----- facts about bytes -----

  lemma {:induction false} UsedConcat(a: seq<Entry>, b: seq<Entry>)
    ensures Used(a + b) == Used(a) + Used(b)
  {
    if a == [] {
      assert a + b == b;
    } else {
      assert (a + b)[1..] == a[1..] + b;
      UsedConcat(a[1..], b);
    }
  }

  lemma {:induction false} UsedWithout(lru: seq<Entry>, uri: string)
    requires DistinctUris(lru)
    ensures var found := Find(lru, uri);
      Used(Without(lru, uri)) == Used(lru) - (if found.Some? then found.value.nbytes else 0)
  {
    if lru == [] {
    } else {
      var rest := lru[1..];
      if lru[0].uri == uri {
        forall e | e in rest ensures e.uri != uri {}
        FilterAll(rest, OtherThan(uri));
        assert Without(lru, uri) == rest;
      } else {
        UsedWithout(rest, uri);
      }
    }
  }

  lemma {:induction false} WithoutDistinct(lru: seq<Entry>, uri: string)
    requires DistinctUris(lru)
    ensures DistinctUris(Without(lru, uri))
    ensures forall e :: e in Without(lru, uri) <==> e in lru && e.uri != uri
  {
    FilterMembers(lru, OtherThan(uri));
    if lru == [] {
    } else {
      WithoutDistinct(lru[1..], uri);
      FilterMembers(lru[1..], OtherThan(uri));
      var rest := Without(lru[1..], uri);
      forall e | e in rest ensures e.uri != lru[0].uri {}
    }
  }

  lemma PlaceDistinct(lru: seq<Entry>, e: Entry)
    requires DistinctUris(lru)
    ensures DistinctUris(Place(lru, e))
    ensures Used(Place(lru, e)) == Used(Without(lru, e.uri)) + e.nbytes
  {
    WithoutDistinct(lru, e.uri);
    UsedConcat(Without(lru, e.uri), [e]);
    assert [e][1..] == [];
    var others := Without(lru, e.uri);
    forall i | 0 <= i < |others| ensures others[i].uri != e.uri { assert others[i] in others; }
  }

  lemma OneMoreDropped(files: set<string>, all: seq<Entry>, k: nat, busy: set<string>)
    requires k < |all|
    ensures Dropped(files, all[..k + 1], busy) == Dropped(files, all[..k], busy) - ({all[k].path} - busy)
    ensures all[k..][1..] == all[k + 1..]
  {
    assert all[..k + 1] == all[..k] + [all[k]];
  }

  lemma DistinctSuffix(all: seq<Entry>, k: nat)
    requires DistinctUris(all) && k <= |all|
    ensures DistinctUris(all[k..])
  {
  }

  /** A suffix of a placed table is a suffix of the others with the arrival. */
  lemma PlacedSuffix(lru: seq<Entry>, e: Entry, k: nat)
    requires k <= |Without(lru, e.uri)|
    ensures Place(lru, e)[k..] == Without(lru, e.uri)[k..] + [e]
    ensures Used(Place(lru, e)[k..]) == Used(Without(lru, e.uri)[k..]) + e.nbytes
  {
    var others := Without(lru, e.uri);
    assert Place(lru, e)[k..] == others[k..] + [e];
    UsedConcat(others[k..], [e]);
    assert [e][1..] == [];
  }

  // ----- what a hit promises -----

  lemma {:induction false} FindPlaced(others: seq<Entry>, e: Entry)
    requires forall x :: x in others ==> x.uri != e.uri
    ensures Find(others + [e], e.uri) == Some(e)
  {
    if others == [] {
    } else {
      assert (others + [e])[1..] == others[1..] + [e];
      FindPlaced(others[1..], e);
    }
  }

  /** A hit ends at the MRU end with a new query time, keeps its size and
      admission time, and leaves the other entries, their order and all files
      alone; a lookup that serves nothing changes nothing. */
  lemma HitRefreshes(t: TierState, uri: string, now: real)
    requires DistinctUris(t.lru)
    ensures var t', e := Touched(t, uri, now), Serving(t, uri);
      && t'.files == t.files && Used(t'.lru) == Used(t.lru) && DistinctUris(t'.lru)
      && Without(t'.lru, uri) == Without(t.lru, uri)
      && (e.None? ==> t' == t)
      && (e.Some? ==> t'.lru != [] && t'.lru[|t'.lru| - 1] == e.value.(queryAt := now)
                      && Serving(t', uri) == Some(e.value.(queryAt := now)))
  {
    var e := Serving(t, uri);
    if e.Some? {
      var touched, others := e.value.(queryAt := now), Without(t.lru, uri);
      PlaceDistinct(t.lru, touched);
      UsedWithout(t.lru, uri);
      WithoutDistinct(t.lru, uri);
      FilterConcat(others, [touched], OtherThan(uri));
      FilterAll(others, OtherThan(uri));
      FilterNone([touched], OtherThan(uri));
      FindPlaced(others, touched);
    }
  }

  /** An eviction takes away the URI's entry and the file stored for it, unless that
      cannot be unlinked, and nothing else. */
  lemma EvictionTakesOneEntry(t: TierState, uri: string, busy: set<string>)
    requires DistinctUris(t.lru)
    ensures var t' := Evicted(t, uri, busy);
      && t'.lru == Filter(t.lru, (e: Entry) => e.uri != uri)
      && forall p :: p in t'.files <==>
           p in t.files && (p in busy || forall e :: e in t.lru && e.uri == uri ==> e.path != p)
  {
    FilterCongruent(t.lru, OtherThan(uri), (e: Entry) => e.uri != uri);
    if Find(t.lru, uri).None? {
      FilterAll(t.lru, (e: Entry) => e.uri != uri);
    }
  }

  // ----- what admission promises -----

  lemma Halves(all: seq<Entry>, k: nat)
    requires k <= |all|
    ensures all[..k] + all[k..] == all
  {
  }

  lemma CutFits(all: seq<Entry>, budget: nat)
    ensures Used(all[Cut(all, budget)..]) <= budget
  {
    if Cut(all, budget) == |all| {
      assert all[|all|..] == [];
    }
  }

  /** The victims are the shortest LRU prefix that lets the rest fit, and the
      survivors keep their order. */
  lemma AdmissionKeepsWhatFits(t: TierState, e: Entry, budget: nat, busy: set<string>)
    requires DistinctUris(t.lru)
    ensures var kept, gone := Admitted(t, e, budget, busy).lru, Victims(t.lru, e, budget);
      && DistinctUris(kept) && Used(kept) <= budget
      && gone + kept == Place(t.lru, e)
      && (forall j :: 0 <= j < |gone| ==> Used(Place(t.lru, e)[j..]) > budget)
  {
    var all, k := Place(t.lru, e), Cut(Place(t.lru, e), budget);
    PlaceDistinct(t.lru, e);
    DistinctSuffix(all, k);
    Halves(all, k);
    CutFits(all, budget);
  }

  lemma {:induction false} SameCut(others: seq<Entry>, e: Entry, f: Entry, budget: nat)
    requires e.nbytes == f.nbytes <= budget
    ensures Cut(others + [e], budget) == Cut(others + [f], budget) <= |others|
  {
    UsedConcat(others, [e]);
    UsedConcat(others, [f]);
    assert [e][1..] == [] && [f][1..] == [];
    if others == [] {
    } else {
      assert (others + [e])[1..] == others[1..] + [e] && (others + [f])[1..] == others[1..] + [f];
      SameCut(others[1..], e, f, budget);
    }
  }

  lemma CutSparesWhatFits(lru: seq<Entry>, e: Entry, budget: nat)
    ensures var k := Cut(Place(lru, e), budget);
      if e.nbytes <= budget then k <= |Without(lru, e.uri)| else k == |Place(lru, e)|
  {
    var k := Cut(Place(lru, e), budget);
    if e.nbytes <= budget {
      SameCut(Without(lru, e.uri), e, e, budget);
    } else if k < |Place(lru, e)| {
      PlacedSuffix(lru, e, k);
    }
  }

  /** The arrival is kept exactly when it fits alone. */
  lemma ArrivalKeptIffItFits(t: TierState, e: Entry, budget: nat, busy: set<string>)
    requires DistinctUris(t.lru)
    ensures var kept := Admitted(t, e, budget, busy).lru;
      (e in kept <==> e.nbytes <= budget) && (Find(kept, e.uri).Some? <==> e.nbytes <= budget)
  {
    var all, k := Place(t.lru, e), Cut(Place(t.lru, e), budget);
    CutSparesWhatFits(t.lru, e, budget);
    if e.nbytes <= budget {
      assert all[k..][|all| - 1 - k] == e;
    }
  }

  lemma VictimsAreOthers(lru: seq<Entry>, e: Entry, budget: nat)
    requires DistinctUris(lru) && e.nbytes <= budget
    ensures Cut(Place(lru, e), budget) <= |Without(lru, e.uri)|
    ensures forall v :: v in Victims(lru, e, budget) ==> v in lru && v.uri != e.uri
  {
    WithoutDistinct(lru, e.uri);
    SameCut(Without(lru, e.uri), e, e, budget);
    var k := Cut(Place(lru, e), budget);
    assert Victims(lru, e, budget) == Without(lru, e.uri)[..k];
  }

  lemma OversizeGoesToo(lru: seq<Entry>, e: Entry, budget: nat)
    requires DistinctUris(lru) && e.nbytes > budget
    ensures e in Victims(lru, e, budget)
  {
    var all, k := Place(lru, e), Cut(Place(lru, e), budget);
    if k < |all| {
      PlacedSuffix(lru, e, k);
    }
    assert k == |all| && all[..k] == all && all[|all| - 1] == e;
  }

  /** The file the admission was for survives it exactly when the entry fits
      the whole budget (or cannot be unlinked), provided no other entry is
      stored under the same path. */
  lemma FileSurvivesAdmission(t: TierState, e: Entry, budget: nat, busy: set<string>)
    requires DistinctUris(t.lru) && e.path in t.files
    requires forall x :: x in t.lru && x.uri != e.uri ==> x.path != e.path
    ensures e.path in Admitted(t, e, budget, busy).files <==> e.nbytes <= budget || e.path in busy
  {
    if e.nbytes <= budget {
      VictimsAreOthers(t.lru, e, budget);
      assert e.path !in PathsOf(Victims(t.lru, e, budget));
    } else {
      OversizeGoesToo(t.lru, e, budget);
      assert e.path in PathsOf(Victims(t.lru, e, budget));
    }
  }

  /** Which bytes an admission gives up depends on the arrival's size alone. */
  lemma {:induction false} SameVictims(lru: seq<Entry>, e: Entry, f: Entry, budget: nat)
    requires e.uri == f.uri && e.nbytes == f.nbytes <= budget
    ensures Victims(lru, e, budget) == Victims(lru, f, budget)
  {
    var others := Without(lru, e.uri);
    SameCut(others, e, f, budget);
  }

  lemma SplitMember(all: seq<Entry>, k: nat, v: Entry)
    requires DistinctUris(all) && k <= |all| && v in all
    ensures v in all[k..] <==> v !in all[..k]
  {
    var i :| 0 <= i < |all| && all[i] == v;
    if i < k { assert all[..k][i] == v; } else { assert all[k..][i - k] == v; }
  }

  /** An entry other than the arrival goes exactly if it is a victim. */
  lemma KeptIffNoVictim(t: TierState, e: Entry, budget: nat, busy: set<string>, v: Entry)
    requires DistinctUris(t.lru) && v in t.lru && v.uri != e.uri
    ensures v in Admitted(t, e, budget, busy).lru <==> v !in Victims(t.lru, e, budget)
  {
    PlaceDistinct(t.lru, e);
    WithoutDistinct(t.lru, e.uri);
    assert v in Without(t.lru, e.uri) + [e];
    SplitMember(Place(t.lru, e), Cut(Place(t.lru, e), budget), v);
  }

  /** What the dry run is for: it passes exactly when the arrival and every entry
      younger than the floor would be kept. */
  lemma AdmissibleMeans(t: TierState, e: Entry, budget: nat, now: real, floor: real, busy: set<string>)
    requires DistinctUris(t.lru)
    ensures var kept := Admitted(t, e, budget, busy).lru;
      Admissible(t.lru, e, budget, now, floor) <==>
        e in kept && forall v :: v in t.lru && v.uri != e.uri && now - v.admitAt < floor ==> v in kept
  {
    ArrivalKeptIffItFits(t, e, budget, busy);
    if e.nbytes <= budget {
      VictimsAreOthers(t.lru, e, budget);
      forall v | v in t.lru && v.uri != e.uri
        ensures v in Admitted(t, e, budget, busy).lru <==> v !in Victims(t.lru, e, budget)
      {
        KeptIffNoVictim(t, e, budget, busy, v);
      }
    }
  }

  // ----- local file names -----

  /** A URI's part after the first "://"; without one the code raises. */
  function AfterScheme(uri: string): Option<string> {
    if |uri| < 3 then None else if uri[..3] == "://" then Some(uri[3..]) else AfterScheme(uri[1..])
  }

  /** Slashes become underscores. */
  function Mangled(tail: string): (name: string)
    ensures |name| == |tail|
  {
    if tail == "" then "" else [if tail[0] == '/' then '_' else tail[0]] + Mangled(tail[1..])
  }

  function FileNameOf(uri: string): Option<string> {
    match AfterScheme(uri)
    case None => None
    case Some(tail) => Some(Mangled(tail))
  }

  predicate AlikeAt(a: char, b: char) { a == b || (a in "/_" && b in "/_") }

  predicate Alike(a: string, b: string) { |a| == |b| && forall i :: 0 <= i < |a| ==> AlikeAt(a[i], b[i]) }

  lemma {:induction false} MangledAlike(a: string, b: string)
    ensures Mangled(a) == Mangled(b) <==> Alike(a, b)
  {
    if a != "" && |a| == |b| {
      MangledAlike(a[1..], b[1..]);
      assert forall i :: 0 < i < |a| ==> a[i] == a[1..][i - 1] && b[i] == b[1..][i - 1];
      if Alike(a, b) {
        forall i | 0 <= i < |a[1..]| ensures AlikeAt(a[1..][i], b[1..][i]) {
          assert AlikeAt(a[i + 1], b[i + 1]);
        }
      }
      if Mangled(a) == Mangled(b) {
        assert Mangled(a)[0] == Mangled(b)[0] && Mangled(a)[1..] == Mangled(b)[1..];
      }
    }
  }

  /** Two URIs with a scheme share a file exactly when their parts after it differ
      only in slashes against underscores; the scheme itself makes no difference. */
  lemma SharedFileNames(u: string, v: string)
    requires AfterScheme(u).Some? && AfterScheme(v).Some?
    ensures FileNameOf(u) == FileNameOf(v) <==> Alike(AfterScheme(u).value, AfterScheme(v).value)
  {
    MangledAlike(AfterScheme(u).value, AfterScheme(v).value);
  }

  lemma {:induction false} SchemeIsDropped(scheme: string, tail: string)
    requires ':' !in scheme
    ensures AfterScheme(scheme + "://" + tail) == Some(tail)
  {
    var uri := scheme + "://" + tail;
    if scheme == "" {
      assert uri[..3] == "://" && uri[3..] == tail;
    } else {
      assert uri[..3][0] == scheme[0];
      assert uri[1..] == scheme[1..] + "://" + tail;
      SchemeIsDropped(scheme[1..], tail);
    }
  }

  /** Distinct URIs that share a file: another scheme, or an underscore for a slash. */
  lemma CollidingUris(bucket: string, key: string)
    ensures var uri := FileNameOf("s3" + "://" + (bucket + "/" + key));
      && uri == FileNameOf("memory" + "://" + (bucket + "/" + key))
      && uri == FileNameOf("s3" + "://" + (bucket + "_" + key))
  {
    SchemeIsDropped("s3", bucket + "/" + key);
    SchemeIsDropped("memory", bucket + "/" + key);
    SchemeIsDropped("s3", bucket + "_" + key);
    MangledAlike(bucket + "/" + key, bucket + "_" + key);
  }

  // ----- what the dry run's walk means -----

  /** One more entry of the table, skipping the arrival's own. */
  lemma WalkStep(lru: seq<Entry>, i: nat, uri: string)
    requires i < |lru|
    ensures Without(lru[..i + 1], uri)
            == if lru[i].uri != uri then Without(lru[..i], uri) + [lru[i]] else Without(lru[..i], uri)
    ensures Without(lru[..i + 1], uri) <= Without(lru, uri)
  {
    assert lru[..i + 1] == lru[..i] + [lru[i]] && lru == lru[..i + 1] + lru[i + 1..];
    FilterConcat(lru[..i], [lru[i]], OtherThan(uri));
    FilterConcat(lru[..i + 1], lru[i + 1..], OtherThan(uri));
    assert [lru[i]][1..] == [];
  }

  lemma RoomToSpare(lru: seq<Entry>, e: Entry, budget: nat, now: real, floor: real)
    requires Used(Without(lru, e.uri)) + e.nbytes <= budget
    ensures Victims(lru, e, budget) == [] && Admissible(lru, e, budget, now, floor)
  {
    PlacedSuffix(lru, e, 0);
    assert Place(lru, e)[0..] == Place(lru, e) && Without(lru, e.uri)[0..] == Without(lru, e.uri);
    assert Cut(Place(lru, e), budget) == 0;
  }

  /** While the walk has not freed enough, the eviction loop goes further. */
  lemma CannotStopAt(lru: seq<Entry>, e: Entry, budget: nat, walked: seq<Entry>)
    requires walked <= Without(lru, e.uri)
    requires Used(Without(lru, e.uri)) + e.nbytes - Used(walked) > budget
    ensures Cut(Place(lru, e), budget) > |walked|
  {
    var others, n := Without(lru, e.uri), |walked|;
    assert others == walked + others[n..];
    UsedConcat(walked, others[n..]);
    forall j | 0 <= j <= n ensures Used(Place(lru, e)[j..]) > budget {
      PlacedSuffix(lru, e, j);
      assert others[j..] == others[j..n] + others[n..];
      UsedConcat(others[j..n], others[n..]);
    }
    assert Used(Place(lru, e)[Cut(Place(lru, e), budget)..]) <= budget || Cut(Place(lru, e), budget) == |Place(lru, e)|;
  }

  lemma FitsAfter(lru: seq<Entry>, e: Entry, budget: nat, taken: seq<Entry>)
    requires taken != [] && taken <= Without(lru, e.uri)
    requires Cut(Place(lru, e), budget) > |taken| - 1
    requires Used(Without(lru, e.uri)) + e.nbytes - Used(taken) <= budget
    ensures Victims(lru, e, budget) == taken && e.nbytes <= budget
  {
    var others, n := Without(lru, e.uri), |taken|;
    assert others == taken + others[n..];
    UsedConcat(taken, others[n..]);
    PlacedSuffix(lru, e, n);
    assert Place(lru, e)[..n] == taken;
  }

  /** Once the walk has freed enough, the eviction loop stops there. */
  lemma StopsAt(lru: seq<Entry>, e: Entry, budget: nat, walked: seq<Entry>, last: Entry, now: real, floor: real)
    requires walked + [last] <= Without(lru, e.uri)
    requires Used(Without(lru, e.uri)) + e.nbytes - Used(walked) > budget
    requires Used(Without(lru, e.uri)) + e.nbytes - Used(walked + [last]) <= budget
    requires OldEnough(walked, now, floor) && now - last.admitAt >= floor
    ensures Victims(lru, e, budget) == walked + [last] && Admissible(lru, e, budget, now, floor)
  {
    assert walked <= Without(lru, e.uri);
    CannotStopAt(lru, e, budget, walked);
    FitsAfter(lru, e, budget, walked + [last]);
  }

  lemma TooYoung(lru: seq<Entry>, e: Entry, budget: nat, walked: seq<Entry>, last: Entry, now: real, floor: real)
    requires walked + [last] <= Without(lru, e.uri)
    requires Used(Without(lru, e.uri)) + e.nbytes - Used(walked) > budget
    requires now - last.admitAt < floor
    ensures !Admissible(lru, e, budget, now, floor)
  {
    assert walked <= Without(lru, e.uri) && Without(lru, e.uri)[|walked|] == last;
    CannotStopAt(lru, e, budget, walked);
    assert Victims(lru, e, budget)[|walked|] == last;
    assert last in Victims(lru, e, budget);
  }

  // ----- the table as updated in place -----

  class Tier {
    const budget: nat
    var lru: seq<Entry>
    var used: int
    var files: set<string>
    /** Paths the operating system currently refuses to unlink. */
    var busy: set<string>

    ghost predicate Valid()
      reads this
    {
      DistinctUris(lru) && used == Used(lru) && used <= budget
    }

    ghost function State(): TierState
      reads this
    {
      TierState(lru, files)
    }

    constructor (budget: nat)
      ensures Valid() && this.budget == budget && lru == [] && files == {}
    {
      this.budget := budget;
      lru, used, files, busy := [], 0, {}, {};
    }

    method Unlink(path: string)
      modifies this`files
      ensures files == old(files) - ({path} - busy)
    {
      if path !in busy {
        files := files - {path};
      }
    }

    /** A warm hit: refresh the query time and move to the MRU end. */
    method Hit(uri: string, now: real) returns (path: Option<string>)
      requires Valid()
      modifies this`lru
      ensures Valid() && State() == Touched(old(State()), uri, now)
      ensures path.Some? <==> Serving(old(State()), uri).Some?
      ensures path.Some? ==> path.value == Serving(old(State()), uri).value.path && path.value in files
    {
      var entry := Find(lru, uri);
      if entry.None? || entry.value.path !in files {
        return None;
      }
      PlaceDistinct(lru, entry.value.(queryAt := now));
      UsedWithout(lru, uri);
      lru := Without(lru, uri) + [entry.value.(queryAt := now)];
      return Some(entry.value.path);
    }

    method Evict(uri: string) returns (removed: bool)
      requires Valid()
      modifies this`lru, this`used, this`files
      ensures Valid() && State() == Evicted(old(State()), uri, busy)
      ensures removed <==> exists e :: e in old(lru) && e.uri == uri
      ensures used == old(used) - if removed then Find(old(lru), uri).value.nbytes else 0
    {
      var entry := Find(lru, uri);
      if entry.None? {
        return false;
      }
      UsedWithout(lru, uri);
      WithoutDistinct(lru, uri);
      lru := Without(lru, uri);
      used := used - entry.value.nbytes;
      Unlink(entry.value.path);
      return true;
    }

    method Admit(uri: string, path: string, nbytes: nat, now: real)
      requires Valid()
      modifies this`lru, this`used, this`files
      ensures Valid()
      ensures State() == Admitted(old(State()), Entry(uri, path, nbytes, now, now), budget, busy)
    {
      var e := Entry(uri, path, nbytes, now, now);
      ghost var all := Place(lru, e);
      PlaceDistinct(lru, e);
      UsedWithout(lru, uri);
      var existing := Find(lru, uri);
      if existing.Some? {
        lru := Without(lru, uri);
        used := used - existing.value.nbytes;
      } else {
        FilterAll(lru, OtherThan(uri));
      }
      lru := lru + [e];
      used := used + nbytes;
      assert lru == all;
      EvictToBudget();
    }

    /** Pop the LRU end until the total fits. */
    method EvictToBudget()
      requires DistinctUris(lru) && used == Used(lru)
      modifies this`lru, this`used, this`files
      ensures Valid()
      ensures lru == old(lru)[Cut(old(lru), budget)..]
      ensures files == Dropped(old(files), old(lru)[..Cut(old(lru), budget)], busy)
    {
      ghost var all, k := lru, 0;
      assert all[0..] == all && Dropped(files, all[..0], busy) == files;
      while used > budget && lru != []
        invariant 0 <= k <= |all| && lru == all[k..] && used == Used(lru)
        invariant Cut(all, budget) == k + Cut(lru, budget)
        invariant files == Dropped(old(files), all[..k], busy)
      {
        var oldest := lru[0];
        OneMoreDropped(old(files), all, k, busy);
        lru := lru[1..];
        used := used - oldest.nbytes;
        Unlink(oldest.path);
        k := k + 1;
      }
      DistinctSuffix(all, k);
    }

    /** The dry run. It passes exactly when the admission would keep the arrival
        and give up only entries old enough, and it walks just those. */
    method CheckAdmission(uri: string, nbytes: nat, now: real, floor: real) returns (ok: bool, ghost walked: seq<Entry>)
      requires Valid()
      ensures ok <==> Admissible(lru, Entry(uri, "", nbytes, now, now), budget, now, floor)
      ensures ok ==> walked == Victims(lru, Entry(uri, "", nbytes, now, now), budget)
    {
      ghost var e := Entry(uri, "", nbytes, now, now);
      PlaceDistinct(lru, e);
      UsedWithout(lru, uri);
      walked := [];
      var existing := Find(lru, uri);
      var existingBytes := if existing.Some? then existing.value.nbytes else 0;
      var projected := used - existingBytes + nbytes;
      if projected <= budget {
        RoomToSpare(lru, e, budget, now, floor);
        return true, [];
      }
      var toReclaim := projected - budget;
      var reclaimed := 0;
      for i := 0 to |lru|
        invariant walked == Without(lru[..i], uri)
        invariant reclaimed == Used(walked) < toReclaim
        invariant OldEnough(walked, now, floor)
      {
        var candidate := lru[i];
        WalkStep(lru, i, uri);
        if candidate.uri != uri {
          if now - candidate.admitAt < floor {
            TooYoung(lru, e, budget, walked, candidate, now, floor);
            return false, walked;
          }
          UsedConcat(walked, [candidate]);
          reclaimed := reclaimed + candidate.nbytes;
          if reclaimed >= toReclaim {
            StopsAt(lru, e, budget, walked, candidate, now, floor);
            return true, walked + [candidate];
          }
          walked := walked + [candidate];
        }
      }
      assert lru[..|lru|] == lru;
      return false, walked;
    }

    /** The admission half of a prewarm: all or nothing. */
    method AdmitUnderFloor(uri: string, path: string, nbytes: nat, checkedAt: real, admittedAt: real, floor: real)
      returns (ok: bool)
      requires Valid()
      modifies this`lru, this`used, this`files
      ensures Valid()
      ensures !ok ==> State() == old(State()) && used == old(used)
      ensures ok ==> State() == Admitted(old(State()), Entry(uri, path, nbytes, admittedAt, admittedAt), budget, busy)
      ensures ok ==> Entry(uri, path, nbytes, admittedAt, admittedAt) in lru
      ensures ok ==> forall e :: e in old(lru) && e.uri != uri && checkedAt - e.admitAt < floor ==> e in lru
    {
      ghost var before, arrival := State(), Entry(uri, path, nbytes, admittedAt, admittedAt);
      ghost var walked;
      ok, walked := CheckAdmission(uri, nbytes, checkedAt, floor);
      if ok {
        SameVictims(lru, arrival, Entry(uri, "", nbytes, checkedAt, checkedAt), budget);
        AdmissionKeepsWhatFits(before, arrival, budget, busy);
        ArrivalKeptIffItFits(before, arrival, budget, busy);
        WithoutDistinct(lru, uri);
        Admit(uri, path, nbytes, admittedAt);
        forall e | e in before.lru && e.uri != uri && checkedAt - e.admitAt < floor ensures e in lru {
          assert e in Place(before.lru, arrival);
          assert e in Victims(before.lru, arrival, budget) + lru;
        }
      }
    }
  }
}
