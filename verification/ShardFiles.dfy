/** What the concurrent shard cache leaves on disk: table and directory agree
    while nobody else deletes files, and what that means for a fetch. */
module ShardFiles {
  import opened ShardTier
  import opened SingleFlight
  import InFlight

  // ----- the disk and the table -----

  predicate Named(lru: seq<Entry>) {
    DistinctUris(lru) && forall e :: e in lru ==> e.path == e.uri
  }

  lemma FindResident(lru: seq<Entry>, uri: string)
    requires Named(lru)
    ensures Find(lru, uri).Some? <==> uri in PathsOf(lru)
    ensures Find(lru, uri).Some? ==> Find(lru, uri).value.path == uri
  {
  }

  lemma PlacedPaths(lru: seq<Entry>, e: Entry)
    requires Named(lru) && e.path == e.uri
    ensures Named(Place(lru, e)) && PathsOf(Place(lru, e)) == PathsOf(lru) + {e.uri}
    ensures Named(Without(lru, e.uri)) && PathsOf(Without(lru, e.uri)) == PathsOf(lru) - {e.uri}
  {
    PlaceDistinct(lru, e);
    WithoutDistinct(lru, e.uri);
  }

  lemma SplitPaths(all: seq<Entry>, k: nat)
    requires Named(all) && k <= |all|
    ensures Named(all[k..]) && PathsOf(all[k..]) == PathsOf(all) - PathsOf(all[..k])
    ensures PathsOf(all[..k]) <= PathsOf(all)
  {
    assert all == all[..k] + all[k..];
    forall e | e in all[k..] ensures e.path !in PathsOf(all[..k]) {
      var j :| k <= j < |all| && all[j] == e;
      forall v | v in all[..k] ensures v.path != e.path {
        assert v in all && v.uri != all[j].uri;
      }
    }
    DistinctSuffix(all, k);
  }

  /** Table and disk lose exactly the victims. */
  lemma AdmissionPaths(t: TierState, e: Entry, budget: nat)
    requires Named(t.lru) && e.path == e.uri
    ensures var t', gone := Admitted(t, e, budget, {}), PathsOf(Victims(t.lru, e, budget));
      && Named(t'.lru) && PathsOf(t'.lru) == PathsOf(t.lru) + {e.uri} - gone
      && t'.files == t.files - gone && gone <= PathsOf(t.lru) + {e.uri}
  {
    PlacedPaths(t.lru, e);
    SplitPaths(Place(t.lru, e), Cut(Place(t.lru, e), budget));
  }

  lemma TouchPaths(t: TierState, uri: string, now: real)
    requires Named(t.lru)
    ensures Named(Touched(t, uri, now).lru)
    ensures PathsOf(Touched(t, uri, now).lru) == PathsOf(t.lru)
  {
    FindResident(t.lru, uri);
    if Serving(t, uri).Some? {
      PlacedPaths(t.lru, Serving(t, uri).value.(queryAt := now));
    }
  }

  lemma EvictPaths(t: TierState, uri: string)
    requires Named(t.lru)
    ensures var t' := Evicted(t, uri, {});
      && Named(t'.lru) && PathsOf(t'.lru) == PathsOf(t.lru) - {uri}
      && t'.files == t.files - (if uri in PathsOf(t.lru) then {uri} else {})
  {
    FindResident(t.lru, uri);
    if Find(t.lru, uri).Some? {
      PlacedPaths(t.lru, Find(t.lru, uri).value);
    }
  }

  /** A file whose initiator still has to decide its fate. */
  predicate Pending(s: State, f: string) {
    && f in s.desk.inflight && s.desk.inflight[f] in s.desk.owner
    && s.desk.owner[s.desk.inflight[f]] in s.threads
    && HasFile(s.threads[s.desk.owner[s.desk.inflight[f]]])
  }

  predicate WorkOk(s: State, t: nat)
    requires t in s.threads
  {
    var th := s.threads[t];
    && (Holds(th) && !th.Leaving? ==> th.uri !in PathsOf(s.tier.lru))
    && (HasFile(th) ==> th.uri in s.tier.files)
  }

  predicate FileOk(s: State, f: string) { f in PathsOf(s.tier.lru) || Pending(s, f) }

  /** No file is forgotten: one without an entry has an initiator that decides
      about it. */
  ghost predicate NoLeak(s: State, uri: string) {
    Named(s.tier.lru) && (uri in s.tier.files ==> FileOk(s, uri))
  }

  /** No file of this URI is missing, and nobody works on it while it is resident. */
  ghost predicate UriOk(s: State, uri: string) {
    && Named(s.tier.lru)
    && (uri in PathsOf(s.tier.lru) ==> uri in s.tier.files)
    && (forall t :: t in s.threads && s.threads[t].uri == uri ==> WorkOk(s, t))
  }

  lemma WarmIsResident(s: State, uri: string)
    requires UriOk(s, uri)
    ensures IsWarm(s, uri) <==> uri in PathsOf(s.tier.lru)
  {
    FindResident(s.tier.lru, uri);
  }

  /** What a thread's step does to the table, in paths. */
  lemma StepPaths(s: State, budget: nat, e: Event)
    requires Named(s.tier.lru) && IsOwn(e) && e.t in s.threads
    ensures var th, s' := s.threads[e.t], Step(s, budget, e);
      && Named(s'.tier.lru)
      && if e.Admission? && th.Sized? && s'.threads[e.t].Leaving? then
           var gone := PathsOf(Victims(s.tier.lru, Arrival(th.uri, th.nbytes, e.now), budget));
           && PathsOf(s'.tier.lru) == PathsOf(s.tier.lru) + {th.uri} - gone
           && s'.tier.files == s.tier.files - gone && gone <= PathsOf(s.tier.lru) + {th.uri}
         else PathsOf(s'.tier.lru) == PathsOf(s.tier.lru)
  {
    var th := s.threads[e.t];
    if e.Registered? || e.Rechecked? {
      TouchPaths(s.tier, th.uri, e.now);
    } else if e.Admission? && th.Sized? {
      AdmissionPaths(s.tier, Arrival(th.uri, th.nbytes, e.now), budget);
    }
  }

  lemma AdmitterKeepsWork(s: State, budget: nat, e: Event)
    requires e.Admission? && e.t in s.threads && UriOk(s, s.threads[e.t].uri)
    ensures WorkOk(Step(s, budget, e), e.t)
  {
    StepPaths(s, budget, e);
    assert WorkOk(s, e.t);
  }

  lemma MoverKeepsWork(s: State, budget: nat, e: Event)
    requires IsOwn(e) && e.t in s.threads && UriOk(s, s.threads[e.t].uri)
    ensures WorkOk(Step(s, budget, e), e.t)
  {
    if e.Admission? {
      AdmitterKeepsWork(s, budget, e);
    } else {
      StepPaths(s, budget, e);
      WarmIsResident(s, s.threads[e.t].uri);
      assert WorkOk(s, e.t);
    }
  }

  lemma BystanderKeepsWork(s: State, budget: nat, e: Event, x: nat)
    requires Inv(s) && IsOwn(e) && e.t in s.threads && x in s.threads && x != e.t && UriOk(s, s.threads[x].uri)
    ensures WorkOk(Step(s, budget, e), x)
  {
    StepPaths(s, budget, e);
    assert WorkOk(s, x);
    if Holds(s.threads[x]) && Holds(s.threads[e.t]) && s.threads[x].uri == s.threads[e.t].uri {
      OneHolder(s, x, e.t);
    }
  }

  lemma StepKeepsUri(s: State, budget: nat, e: Event, uri: string)
    requires Inv(s) && UriOk(s, uri) && IsOwn(e) && e.t in s.threads
    ensures UriOk(Step(s, budget, e), uri)
  {
    var s' := Step(s, budget, e);
    StepPaths(s, budget, e);
    assert s.threads[e.t].uri == uri ==> WorkOk(s, e.t);
    forall x | x in s'.threads && s'.threads[x].uri == uri ensures WorkOk(s', x) {
      if x == e.t { MoverKeepsWork(s, budget, e); } else { BystanderKeepsWork(s, budget, e, x); }
    }
  }

  lemma DoKeepsUri(s: State, budget: nat, e: Event, uri: string)
    requires Inv(s) && UriOk(s, uri) && e != Vanished(uri)
    ensures UriOk(Do(s, budget, e), uri)
  {
    var s' := Do(s, budget, e);
    if IsOwn(e) {
      if e.t in s.threads { StepKeepsUri(s, budget, e, uri); }
    } else {
      if e.EvictCalled? { EvictPaths(s.tier, e.uri); }
      if e.Called? { TouchPaths(s.tier, e.uri, e.now); }
      forall x | x in s'.threads && s'.threads[x].uri == uri ensures WorkOk(s', x) {
        assert x in s.threads ==> WorkOk(s, x);
      }
    }
  }

  /** A file without an entry keeps an initiator that will decide about it. */
  lemma PendingFileStays(s: State, budget: nat, e: Event, f: string)
    requires Inv(s) && Named(s.tier.lru) && IsOwn(e) && e.t in s.threads && Pending(s, f)
    requires f in Step(s, budget, e).tier.files
    ensures FileOk(Step(s, budget, e), f)
  {
    StepPaths(s, budget, e);
    EntryFacts(s, f);
    var x := s.desk.owner[s.desk.inflight[f]];
    if e.t != x && Holds(s.threads[e.t]) && s.threads[e.t].uri == f {
      OneHolder(s, e.t, x);
    }
  }

  lemma StepLeaksNothing(s: State, budget: nat, e: Event, f: string)
    requires Inv(s) && NoLeak(s, f) && IsOwn(e) && e.t in s.threads
    ensures NoLeak(Step(s, budget, e), f)
  {
    StepPaths(s, budget, e);
    if f in Step(s, budget, e).tier.files {
      if f !in s.tier.files {
        InitiatorFacts(s, e.t);
      } else if Pending(s, f) {
        PendingFileStays(s, budget, e, f);
      }
    }
  }

  lemma DoLeaksNothing(s: State, budget: nat, e: Event, f: string)
    requires Inv(s) && NoLeak(s, f)
    ensures NoLeak(Do(s, budget, e), f)
  {
    if IsOwn(e) {
      if e.t in s.threads { StepLeaksNothing(s, budget, e, f); }
    } else {
      if e.EvictCalled? { EvictPaths(s.tier, e.uri); }
      if e.Called? { TouchPaths(s.tier, e.uri, e.now); }
      if Pending(s, f) { EntryFacts(s, f); }
    }
  }

  /** In every run no file is forgotten: each has its entry, or an initiator that is
      about to admit or unlink it. And unless somebody outside deletes it, the file
      of a resident URI is there, and no initiator works on a resident URI. */
  lemma {:induction false} DiskMatchesTable(budget: nat, events: seq<Event>, uri: string)
    ensures NoLeak(Run(budget, events), uri)
    ensures Vanished(uri) !in events ==> UriOk(Run(budget, events), uri)
  {
    if events == [] {
    } else {
      var front, last := events[..|events| - 1], events[|events| - 1];
      assert last in events && forall e :: e in front ==> e in events;
      DiskMatchesTable(budget, front, uri);
      RunInv(budget, front);
      DoLeaksNothing(Run(budget, front), budget, last, uri);
      if Vanished(uri) !in events {
        DoKeepsUri(Run(budget, front), budget, last, uri);
      }
    }
  }

  // ----- what an admission promises -----

  /** The step is an eviction of this URI, or an admission that picks it as a victim. */
  predicate GivesUp(s: State, budget: nat, e: Event, uri: string) {
    || e == EvictCalled(uri)
    || (e.Admission? && e.t in s.threads && s.threads[e.t].Sized?
        && Do(s, budget, e).threads[e.t].Leaving?
        && uri in PathsOf(Victims(s.tier.lru, Arrival(s.threads[e.t].uri, s.threads[e.t].nbytes, e.now), budget)))
  }

  // ----- when a warm URI stays warm -----

  lemma DoKeepsNamed(s: State, budget: nat, e: Event)
    requires Named(s.tier.lru)
    ensures Named(Do(s, budget, e).tier.lru)
  {
    if e.EvictCalled? {
      EvictPaths(s.tier, e.uri);
    } else if e.Called? {
      TouchPaths(s.tier, e.uri, e.now);
    } else if !e.Vanished? && e.t in s.threads {
      StepPaths(s, budget, e);
    }
  }

  lemma {:induction false} RunNamed(budget: nat, events: seq<Event>)
    ensures Named(Run(budget, events).tier.lru)
  {
    if events == [] {
    } else {
      RunNamed(budget, events[..|events| - 1]);
      DoKeepsNamed(Run(budget, events[..|events| - 1]), budget, events[|events| - 1]);
    }
  }

  /** A warm URI has its entry and its file. */
  lemma WarmMeans(s: State, uri: string)
    requires Named(s.tier.lru)
    ensures IsWarm(s, uri) <==> uri in PathsOf(s.tier.lru) && uri in s.tier.files
  {
    FindResident(s.tier.lru, uri);
  }

  /** The step costs a warm URI its entry or its file: somebody outside deletes the
      file, the tier gives the entry up, or a prewarm that was refused unlinks the
      file although an old entry still serves it. */
  predicate Loses(s: State, budget: nat, e: Event, uri: string) {
    || e == Vanished(uri)
    || GivesUp(s, budget, e, uri)
    || (e.CleanedUp? && e.t in s.threads && s.threads[e.t].Rejected? && s.threads[e.t].uri == uri)
  }

  lemma StepKeepsWarm(s: State, budget: nat, e: Event, uri: string)
    requires Named(s.tier.lru) && IsWarm(s, uri)
    ensures IsWarm(Do(s, budget, e), uri) <==> !Loses(s, budget, e, uri)
  {
    DoKeepsNamed(s, budget, e);
    WarmMeans(s, uri);
    WarmMeans(Do(s, budget, e), uri);
    if e.EvictCalled? {
      EvictPaths(s.tier, e.uri);
    } else if e.Called? {
      TouchPaths(s.tier, e.uri, e.now);
    } else if !e.Vanished? && e.t in s.threads {
      StepPaths(s, budget, e);
    }
  }

  predicate NeverLost(s: State, budget: nat, more: seq<Event>, uri: string) {
    more == [] ||
    (NeverLost(s, budget, more[..|more| - 1], uri)
     && !Loses(RunFrom(s, budget, more[..|more| - 1]), budget, more[|more| - 1], uri))
  }

  /** After each of these events the URI is warm. */
  predicate WarmThroughout(s: State, budget: nat, more: seq<Event>, uri: string) {
    IsWarm(RunFrom(s, budget, more), uri)
    && (more == [] || WarmThroughout(s, budget, more[..|more| - 1], uri))
  }

  /** In any run a warm URI stays warm, whatever other threads do and whatever
      happens to other files, exactly as long as no step loses it: a thread that
      registers until then never downloads it. */
  lemma {:induction false} WarmExactlyUntilLost(budget: nat, events: seq<Event>, more: seq<Event>, uri: string, t: nat,
                                                now: real)
    requires IsWarm(Run(budget, events), uri)
    ensures WarmThroughout(Run(budget, events), budget, more, uri)
            <==> NeverLost(Run(budget, events), budget, more, uri)
    ensures var s := Run(budget, events + more);
      NeverLost(Run(budget, events), budget, more, uri) ==>
        && IsWarm(s, uri)
        && (t in s.threads && s.threads[t].Missed? && s.threads[t].uri == uri ==>
              Do(s, budget, Registered(t, now)).threads[t] == Done(uri, Served))
  {
    RunFromConcat(START, budget, events, more);
    if more == [] {
    } else {
      var front, last := more[..|more| - 1], more[|more| - 1];
      WarmExactlyUntilLost(budget, events, front, uri, t, now);
      RunFromConcat(START, budget, events, front);
      RunNamed(budget, events + front);
      var before := RunFrom(Run(budget, events), budget, front);
      if IsWarm(before, uri) {
        StepKeepsWarm(before, budget, last, uri);
      }
    }
  }

  // ----- what a caller is told -----

  /** Entry and file are both there. */
  predicate Present(s: State, uri: string) { uri in PathsOf(s.tier.lru) && uri in s.tier.files }

  /** Whoever does not download a URI itself is served exactly when entry and file
      are there at the step that decides: on the call, on registering, and on the
      recheck after a wait. A waiter that finds otherwise is told so. Being served
      counts as a use of the entry. */
  lemma CallersAreToldTheTruth(budget: nat, events: seq<Event>, t: nat, kind: Kind, uri: string, now: real)
    ensures var s := Run(budget, events);
      && (t !in s.threads ==>
            var s' := Do(s, budget, Called(t, kind, uri, now));
            && s'.tier == Touched(s.tier, uri, now)
            && s'.threads[t] == if Present(s, uri) then Done(uri, Served) else Missed(kind, uri))
      && (t in s.threads && s.threads[t] == Missed(kind, uri) ==>
            var s' := Do(s, budget, Registered(t, now));
            var th := s'.threads[t];
            && s'.tier == Touched(s.tier, uri, now)
            && (th == Done(uri, Served) <==> Present(s, uri))
            && (th.Done? || th == Downloading(kind, uri, s.desk.next)
                || (uri in s.desk.inflight && th == Waiting(kind, uri, s.desk.inflight[uri]))))
      && (t in s.threads && s.threads[t] == Woken(kind, uri) ==>
            var s' := Do(s, budget, Rechecked(t, now));
            && s'.tier == Touched(s.tier, uri, now)
            && s'.threads[t]
               == Done(uri, if Present(s, uri) then Served else if kind == Fetch then NotPublished else Refused))
  {
    RunNamed(budget, events);
    WarmMeans(Run(budget, events), uri);
  }

  /** A wait ends in a wake-up exactly when the event is set, and in a timeout exactly
      when it is not; neither step changes anything else. */
  lemma WaitersWaitForTheirEvent(s: State, budget: nat, t: nat, kind: Kind, uri: string, ev: nat)
    requires t in s.threads && s.threads[t] == Waiting(kind, uri, ev)
    ensures Do(s, budget, Woke(t)) == if ev in s.desk.fired then s.(threads := s.threads[t := Woken(kind, uri)]) else s
    ensures Do(s, budget, GaveUp(t))
            == if ev in s.desk.fired then s else s.(threads := s.threads[t := Done(uri, TimedOut)])
  {
    assert s.threads[t := s.threads[t]] == s.threads;
  }

  /** Admitting the measured prewarm keeps it, and every entry younger than the floor. */
  predicate Admits(s: State, budget: nat, th: Thread, now: real, floor: real)
    requires th.Sized?
  {
    var kept := Admitted(s.tier, Arrival(th.uri, th.nbytes, now), budget, {}).lru;
    th.uri in PathsOf(kept) && forall v :: v in s.tier.lru && v.uri != th.uri && now - v.admitAt < floor ==> v in kept
  }

  /** And only then is it admitted. */
  lemma PrewarmServedIff(budget: nat, events: seq<Event>, t: nat, now: real, floor: real)
    requires var s := Run(budget, events); t in s.threads && s.threads[t].Sized? && s.threads[t].kind == Prewarm
    ensures var s := Run(budget, events);
      var uri, ev := s.threads[t].uri, s.threads[t].ev;
      Do(s, budget, Admission(t, now, floor)).threads[t]
      == if Admits(s, budget, s.threads[t], now, floor) then Leaving(uri, ev, Served) else Rejected(uri, ev)
  {
    var s := Run(budget, events);
    var e := Arrival(s.threads[t].uri, s.threads[t].nbytes, now);
    RunNamed(budget, events);
    AdmissibleMeans(s.tier, e, budget, now, floor, {});
    AdmissionPaths(s.tier, e, budget);
    FindResident(Admitted(s.tier, e, budget, {}).lru, e.uri);
    ArrivalKeptIffItFits(s.tier, e, budget, {});
  }

  /** The outcome a thread carries, from the step that decides it to its return. */
  function OutcomeOf(th: Thread): set<Outcome> {
    match th
    case Leaving(_, _, outcome) => {outcome}
    case Popped(_, _, outcome) => {outcome}
    case Done(_, outcome) => {outcome}
    case Rejected(_, _) => {Refused}
    case _ => {}
  }

  /** The step decides on this outcome, and rightly so: served for what is there or
      was admitted, refused or not published for what is not, timed out on an unset
      event, failed for want of a file. */
  predicate EarnedBy(s: State, budget: nat, e: Event, th: Thread, outcome: Outcome)
    requires IsOwn(e)
  {
    match e
    case Registered(_, _) => th.Missed? && outcome == Served && Present(s, th.uri)
    case GaveUp(_) => th.Waiting? && outcome == TimedOut && th.ev !in s.desk.fired
    case Rechecked(_, _) =>
      th.Woken? && outcome == if Present(s, th.uri) then Served else if th.kind == Fetch then NotPublished else Refused
    case Downloaded(_, ok) => th.Downloading? && outcome == Failed && !ok
    case Measured(_, _) => th.Published? && outcome == Failed && th.uri !in s.tier.files
    case Admission(_, now, floor) =>
      th.Sized? && outcome == if th.kind == Fetch || Admits(s, budget, th, now, floor) then Served else Refused
    case _ => false
  }

  predicate Earned(s: State, budget: nat, e: Event, t: nat, outcome: Outcome) {
    if e.Called? then e.t == t && t !in s.threads && outcome == Served && Present(s, e.uri)
    else IsOwn(e) && e.t == t && t in s.threads && EarnedBy(s, budget, e, s.threads[t], outcome)
  }

  lemma AdmissionDecides(budget: nat, events: seq<Event>, t: nat, now: real, floor: real, outcome: Outcome)
    requires t in Run(budget, events).threads
    ensures var s, e := Run(budget, events), Admission(t, now, floor);
      outcome in OutcomeOf(Step(s, budget, e).threads[t])
      <==> outcome in OutcomeOf(s.threads[t]) || EarnedBy(s, budget, e, s.threads[t], outcome)
  {
    var s, e := Run(budget, events), Admission(t, now, floor);
    var th, after := s.threads[t], Step(s, budget, e).threads[t];
    if !th.Sized? {
      assert after == th;
    } else if th.kind == Fetch {
      assert after == Leaving(th.uri, th.ev, Served);
    } else {
      PrewarmServedIff(budget, events, t, now, floor);
      assert Do(s, budget, e) == Step(s, budget, e);
      assert after
        == if Admits(s, budget, th, now, floor) then Leaving(th.uri, th.ev, Served) else Rejected(th.uri, th.ev);
    }
  }

  lemma OwnStepDecides(budget: nat, events: seq<Event>, e: Event, outcome: Outcome)
    requires IsOwn(e) && e.t in Run(budget, events).threads
    ensures var s := Run(budget, events);
      outcome in OutcomeOf(Step(s, budget, e).threads[e.t])
      <==> outcome in OutcomeOf(s.threads[e.t]) || EarnedBy(s, budget, e, s.threads[e.t], outcome)
  {
    var s := Run(budget, events);
    if e.Admission? {
      AdmissionDecides(budget, events, e.t, e.now, e.floor, outcome);
    } else {
      RunNamed(budget, events);
      WarmMeans(s, s.threads[e.t].uri);
    }
  }

  /** A step gives a thread an outcome exactly when it earns it; none is ever lost. */
  lemma StepDecides(budget: nat, events: seq<Event>, e: Event, t: nat, outcome: Outcome)
    ensures var s := Run(budget, events);
      var s' := Do(s, budget, e);
      t in s'.threads && outcome in OutcomeOf(s'.threads[t])
      <==> (t in s.threads && outcome in OutcomeOf(s.threads[t])) || Earned(s, budget, e, t, outcome)
  {
    var s := Run(budget, events);
    if IsOwn(e) {
      if e.t in s.threads { OwnStepDecides(budget, events, e, outcome); }
    } else if e.Called? {
      RunNamed(budget, events);
      WarmMeans(s, e.uri);
    }
  }

  predicate EverEarned(budget: nat, events: seq<Event>, t: nat, outcome: Outcome) {
    events != [] &&
    (EverEarned(budget, events[..|events| - 1], t, outcome)
     || Earned(Run(budget, events[..|events| - 1]), budget, events[|events| - 1], t, outcome))
  }

  /** A thread has exactly the outcomes it earned at some step of the run: no caller
      is told of a file that was not there or not admitted, and none is turned away
      from one that was. */
  lemma {:induction false} OutcomesAreEarned(budget: nat, events: seq<Event>, t: nat, outcome: Outcome)
    ensures t in Run(budget, events).threads && outcome in OutcomeOf(Run(budget, events).threads[t])
      <==> EverEarned(budget, events, t, outcome)
  {
    if events == [] {
    } else {
      var front := events[..|events| - 1];
      OutcomesAreEarned(budget, front, t, outcome);
      StepDecides(budget, front, events[|events| - 1], t, outcome);
    }
  }

  // ----- when a fetch ends with its file -----

  lemma ArrivalIsVictimIffOversize(lru: seq<Entry>, e: Entry, budget: nat)
    requires Named(lru) && e.path == e.uri
    ensures e.uri in PathsOf(Victims(lru, e, budget)) <==> e.nbytes > budget
  {
    if e.nbytes <= budget {
      VictimsAreOthers(lru, e, budget);
    } else {
      OversizeGoesToo(lru, e, budget);
    }
  }

  /** At the admission step of any fetch in any run: the file is there afterwards
      exactly when it was there before and fits the whole budget. */
  lemma AdmissionEndsWithTheFile(budget: nat, events: seq<Event>, t: nat, now: real, floor: real)
    requires var s := Run(budget, events); t in s.threads && s.threads[t].Sized? && s.threads[t].kind == Fetch
    ensures var s := Run(budget, events);
      var s' := Do(s, budget, Admission(t, now, floor));
      var uri := s.threads[t].uri;
      && s'.threads[t] == Leaving(uri, s.threads[t].ev, Served)
      && (uri in s'.tier.files <==> uri in s.tier.files && s.threads[t].nbytes <= budget)
      && (IsWarm(s', uri) <==> uri in s.tier.files && s.threads[t].nbytes <= budget)
  {
    var s := Run(budget, events);
    var th := s.threads[t];
    var e := Arrival(th.uri, th.nbytes, now);
    RunNamed(budget, events);
    assert Do(s, budget, Admission(t, now, floor)) == Step(s, budget, Admission(t, now, floor));
    AdmissionPaths(s.tier, e, budget);
    ArrivalKeptIffItFits(s.tier, e, budget, {});
    FindResident(Admitted(s.tier, e, budget, {}).lru, th.uri);
    ArrivalIsVictimIffOversize(s.tier.lru, e, budget);
  }

  /** An initiator between the publication of its file and its admission step. */
  predicate InTransit(th: Thread) { th.Published? || th.Sized? }

  /** An initiator that has made up its mind, or is done. */
  predicate IsPast(th: Thread) { th.Rejected? || th.Leaving? || th.Popped? || th.Done? }

  /** The step deletes this URI's file: somebody outside does, or the tier gives
      up an entry it still has for the URI. */
  predicate Unlinks(s: State, budget: nat, e: Event, uri: string) {
    e == Vanished(uri) || (uri in PathsOf(s.tier.lru) && GivesUp(s, budget, e, uri))
  }

  predicate NeverUnlinked(s: State, budget: nat, more: seq<Event>, uri: string) {
    more == [] ||
    (NeverUnlinked(s, budget, more[..|more| - 1], uri)
     && !Unlinks(RunFrom(s, budget, more[..|more| - 1]), budget, more[|more| - 1], uri))
  }

  /** Nobody moves an initiator back. */
  lemma TransitEnds(s: State, budget: nat, e: Event, t: nat)
    requires t in s.threads && (InTransit(s.threads[t]) || IsPast(s.threads[t]))
    ensures var s' := Do(s, budget, e);
      && t in s'.threads && (InTransit(s'.threads[t]) || IsPast(s'.threads[t]))
      && (InTransit(s'.threads[t]) ==> InTransit(s.threads[t]) && s'.threads[t].uri == s.threads[t].uri)
  {
  }

  /** While an initiator is in transit, its file goes exactly when a step
      unlinks it, and no step brings it back. */
  lemma TransitKeepsTheFile(s: State, budget: nat, e: Event, t: nat)
    requires Inv(s) && Named(s.tier.lru) && t in s.threads && InTransit(s.threads[t])
    requires t in Do(s, budget, e).threads && InTransit(Do(s, budget, e).threads[t])
    ensures var uri := s.threads[t].uri;
      uri in Do(s, budget, e).tier.files <==> uri in s.tier.files && !Unlinks(s, budget, e, uri)
  {
    if e.EvictCalled? {
      EvictPaths(s.tier, e.uri);
    } else if IsOwn(e) && e.t in s.threads {
      StepPaths(s, budget, e);
      if e.t != t && Holds(s.threads[e.t]) && s.threads[e.t].uri == s.threads[t].uri {
        OneHolder(s, e.t, t);
      }
    }
  }

  lemma {:induction false} TransitOverARun(budget: nat, events: seq<Event>, more: seq<Event>, t: nat)
    requires var s := Run(budget, events);
      t in s.threads && InTransit(s.threads[t]) && s.threads[t].uri in s.tier.files
    ensures var s, s' := Run(budget, events), Run(budget, events + more);
      && t in s'.threads && (InTransit(s'.threads[t]) || IsPast(s'.threads[t]))
      && (InTransit(s'.threads[t]) ==>
            && s'.threads[t].uri == s.threads[t].uri
            && (s'.threads[t].uri in s'.tier.files <==> NeverUnlinked(s, budget, more, s.threads[t].uri)))
  {
    if more == [] {
      assert events + more == events;
    } else {
      var front, last := more[..|more| - 1], more[|more| - 1];
      assert (events + more)[..|events + more| - 1] == events + front;
      TransitOverARun(budget, events, front, t);
      RunFromConcat(START, budget, events, front);
      var before := Run(budget, events + front);
      TransitEnds(before, budget, last, t);
      RunInv(budget, events + front);
      RunNamed(budget, events + front);
      if InTransit(Do(before, budget, last).threads[t]) {
        TransitKeepsTheFile(before, budget, last, t);
      }
    }
  }

  /** Exactly when a fetch ends with its file, in any run: from the step that
      publishes it (the last of `events`) to its admission, no step deletes this
      URI's file, and the file fits the whole budget. Whatever happens to other
      files does not matter. */
  lemma FetchEndsWithItsFile(budget: nat, events: seq<Event>, more: seq<Event>, t: nat, now: real, floor: real)
    requires events != [] && events[|events| - 1] == Downloaded(t, true)
    requires var before := Run(budget, events[..|events| - 1]); t in before.threads && before.threads[t].Downloading?
    requires var s := Run(budget, events + more); t in s.threads && s.threads[t].Sized? && s.threads[t].kind == Fetch
    ensures var s := Run(budget, events + more);
      var s' := Do(s, budget, Admission(t, now, floor));
      var uri := s.threads[t].uri;
      && s'.threads[t] == Leaving(uri, s.threads[t].ev, Served)
      && (uri in s'.tier.files <==>
          NeverUnlinked(Run(budget, events), budget, more, uri) && s.threads[t].nbytes <= budget)
      && (IsWarm(s', uri) <==> uri in s'.tier.files)
  {
    TransitOverARun(budget, events, more, t);
    AdmissionEndsWithTheFile(budget, events + more, t, now, floor);
  }

  /** In particular every file that fits is there, unless somebody outside deleted
      it: the tier itself never costs a fetch its file. */
  lemma UndisturbedFetchEndsWithItsFile(budget: nat, events: seq<Event>, t: nat, now: real, floor: real)
    requires var s := Run(budget, events); t in s.threads && s.threads[t].Sized? && s.threads[t].kind == Fetch
    ensures var s := Run(budget, events);
      var s' := Do(s, budget, Admission(t, now, floor));
      Vanished(s.threads[t].uri) !in events ==>
        (s.threads[t].uri in s'.tier.files <==> s.threads[t].nbytes <= budget)
  {
    var uri := Run(budget, events).threads[t].uri;
    DiskMatchesTable(budget, events, uri);
    AdmissionEndsWithTheFile(budget, events, t, now, floor);
    assert Vanished(uri) !in events ==> WorkOk(Run(budget, events), t);
  }

  // ----- what the documentation promises and the code does not keep -----

  /** One thread's steps up to the point where the file has been measured. */
  function UntilMeasured(t: nat, kind: Kind, uri: string, nbytes: nat): seq<Event> {
    [Called(t, kind, uri, 0.0), Registered(t, 0.0), Downloaded(t, true), Measured(t, nbytes)]
  }

  lemma RunFour(s: State, budget: nat, b: seq<Event>)
    requires |b| == 4
    ensures RunFrom(s, budget, b) == Do(Do(Do(Do(s, budget, b[0]), budget, b[1]), budget, b[2]), budget, b[3])
  {
    LastStep(s, budget, b);
    LastStep(s, budget, b[..3]);
    assert b[..3][..2] == b[..2];
    LastStep(s, budget, b[..2]);
    assert b[..2][..1] == b[..1];
    LastStep(s, budget, b[..1]);
    assert b[..1][..0] == [];
  }

  lemma MeasuredAfter(s: State, budget: nat, t: nat, kind: Kind, uri: string, nbytes: nat)
    requires t !in s.threads && !IsWarm(s, uri) && uri !in s.desk.inflight
    ensures var s' := RunFrom(s, budget, UntilMeasured(t, kind, uri, nbytes));
      && t in s'.threads && s'.threads[t] == Sized(kind, uri, s.desk.next, nbytes)
      && s'.tier == s.tier.(files := s.tier.files + {uri})
      && s'.desk == InFlight.Opened(s.desk, t, uri) && s'.threads.Keys == s.threads.Keys + {t}
  {
    var es := UntilMeasured(t, kind, uri, nbytes);
    RunFour(s, budget, es);
  }

  /** A fetch of a file larger than the whole budget ends without the file. */
  lemma OversizeFetchEndsWithoutItsFile(budget: nat)
    ensures exists events: seq<Event> ::
      var s := Run(budget, events);
      0 in s.threads && s.threads[0] == Leaving("u", 0, Served) && "u" !in s.tier.files
  {
    var es, last := UntilMeasured(0, Fetch, "u", budget + 1), Admission(0, 0.0, 0.0);
    MeasuredAfter(START, budget, 0, Fetch, "u", budget + 1);
    AdmissionEndsWithTheFile(budget, es, 0, 0.0, 0.0);
    assert (es + [last])[..|es|] == es;
    assert Run(budget, es + [last]) == Do(Run(budget, es), budget, last);
  }

  lemma AdmitAlone(budget: nat)
    ensures Admitted(TierState([], {"u"}), Arrival("u", 0, 0.0), budget, {}) == TierState([Arrival("u", 0, 0.0)], {"u"})
    ensures Admitted(TierState([], {}), Arrival("u", 0, 0.0), budget, {}) == TierState([Arrival("u", 0, 0.0)], {})
  {
    var e := Arrival("u", 0, 0.0);
    assert Place([], e) == [e] && Used([e]) == 0 && Cut([e], budget) == 0;
  }

  lemma AdmitAndPop(budget: nat, s: State)
    requires 0 in s.threads && s.threads[0] == Sized(Fetch, "u", 0, 0) && s.tier == TierState([], {"u"})
    ensures var s' := Do(Do(s, budget, Admission(0, 0.0, 0.0)), budget, PoppedEntry(0));
      && s'.tier == TierState([Arrival("u", 0, 0.0)], {"u"}) && s'.desk == InFlight.Closed(s.desk, "u")
      && s'.threads == s.threads[0 := Popped("u", 0, Served)]
  {
    AdmitAlone(budget);
  }

  lemma FirstFetchThenLoss(budget: nat, s: State, b: seq<Event>)
    requires b == [Admission(0, 0.0, 0.0), PoppedEntry(0), SetEvent(0), Vanished("u")]
    requires 0 in s.threads && s.threads[0] == Sized(Fetch, "u", 0, 0) && s.tier == TierState([], {"u"})
    requires s.desk == InFlight.Opened(InFlight.EMPTY, 0, "u") && s.threads.Keys == {0}
    ensures var s' := RunFrom(s, budget, b);
      && s'.tier == TierState([Arrival("u", 0, 0.0)], {}) && s'.desk.inflight == map[]
      && s'.desk.next == 1 && 1 !in s'.threads && 2 !in s'.threads
  {
    RunFour(s, budget, b);
    AdmitAndPop(budget, s);
    var popped := Do(Do(s, budget, Admission(0, 0.0, 0.0)), budget, PoppedEntry(0));
    assert popped.desk.inflight == map[] && popped.desk.next == 1;
    assert Do(popped, budget, SetEvent(0)).tier == popped.tier;
  }

  lemma FileVanishes(budget: nat) returns (events: seq<Event>)
    ensures var s := Run(budget, events);
      && s.tier == TierState([Arrival("u", 0, 0.0)], {}) && s.desk.inflight == map[]
      && s.desk.next == 1 && 1 !in s.threads && 2 !in s.threads
  {
    var a := UntilMeasured(0, Fetch, "u", 0);
    var b := [Admission(0, 0.0, 0.0), PoppedEntry(0), SetEvent(0), Vanished("u")];
    MeasuredAfter(START, budget, 0, Fetch, "u", 0);
    RunFromConcat(START, budget, a, b);
    FirstFetchThenLoss(budget, Run(budget, a), b);
    events := a + b;
  }

  /** The file of a resident URI vanished and another thread has downloaded it
      again: the old entry serves the new file. */
  lemma StaleEntryMeasured(budget: nat, kind: Kind, nbytes: nat) returns (events: seq<Event>)
    ensures var s := Run(budget, events);
      && 1 in s.threads && s.threads[1] == Sized(kind, "u", 1, nbytes)
      && s.tier == TierState([Arrival("u", 0, 0.0)], {"u"}) && 2 !in s.threads
  {
    var before := FileVanishes(budget);
    var s, c := Run(budget, before), UntilMeasured(1, kind, "u", nbytes);
    FindResident(s.tier.lru, "u");
    MeasuredAfter(s, budget, 1, kind, "u", nbytes);
    RunFromConcat(START, budget, before, c);
    events := before + c;
  }

  lemma EvictThenAdmit(budget: nat, s: State, d: seq<Event>)
    requires d == [EvictCalled("u"), Admission(1, 0.0, 0.0)]
    requires 1 in s.threads && s.threads[1] == Sized(Fetch, "u", 1, 0)
    requires s.tier == TierState([Arrival("u", 0, 0.0)], {"u"})
    ensures var s' := RunFrom(s, budget, d);
      && 1 in s'.threads && s'.threads[1] == Leaving("u", 1, Served)
      && "u" in PathsOf(s'.tier.lru) && "u" !in s'.tier.files
  {
    var e := Arrival("u", 0, 0.0);
    assert d[..1][..0] == [];
    var s1 := Do(s, budget, d[0]);
    assert [e][1..] == [] && Without([e], "u") == [];
    assert s1.tier == TierState([], {});
    assert RunFrom(s, budget, d[..1]) == s1;
    AdmitAlone(budget);
    assert e in [e];
  }

  /** A stale entry costs a later fetch its file. The file of a resident URI
      vanishes, a fetch downloads it again, and before that fetch admits it an
      eviction of the old entry unlinks the new file: the fetch succeeds, the
      URI is resident, and there is no file, however small it was. */
  lemma StaleEntryLosesTheFile(budget: nat)
    ensures exists events: seq<Event> ::
      var s := Run(budget, events);
      1 in s.threads && s.threads[1] == Leaving("u", 1, Served) && "u" in PathsOf(s.tier.lru) && "u" !in s.tier.files
  {
    var before := StaleEntryMeasured(budget, Fetch, 0);
    var d := [EvictCalled("u"), Admission(1, 0.0, 0.0)];
    EvictThenAdmit(budget, Run(budget, before), d);
    RunFromConcat(START, budget, before, d);
    assert Run(budget, before + d) == RunFrom(Run(budget, before), budget, d);
  }

  lemma ServedFromTheOldEntry(budget: nat, s: State)
    requires 1 in s.threads && 2 !in s.threads && s.tier == TierState([Arrival("u", 0, 0.0)], {"u"})
    ensures var s' := Do(s, budget, Called(2, Fetch, "u", 0.0));
      && s'.threads == s.threads[2 := Done("u", Served)] && s'.tier.files == {"u"} && "u" in PathsOf(s'.tier.lru)
  {
    FindResident(s.tier.lru, "u");
    TouchPaths(s.tier, "u", 0.0);
    assert Arrival("u", 0, 0.0) in s.tier.lru;
  }

  lemma RefusedTooLarge(budget: nat, s: State)
    requires 1 in s.threads && s.threads[1] == Sized(Prewarm, "u", 1, budget + 1)
    ensures Do(s, budget, Admission(1, 0.0, 0.0)) == s.(threads := s.threads[1 := Rejected("u", 1)])
  {
  }

  lemma CleanUpAndPop(budget: nat, s: State)
    requires 1 in s.threads && s.threads[1] == Rejected("u", 1)
    ensures var s' := Do(Do(s, budget, CleanedUp(1)), budget, PoppedEntry(1));
      && s'.threads == s.threads[1 := Popped("u", 1, Refused)]
      && s'.tier == s.tier.(files := s.tier.files - {"u"})
  {
    var s1 := Do(s, budget, CleanedUp(1));
    assert s1.threads == s.threads[1 := Leaving("u", 1, Refused)];
  }

  lemma RefuseAndCleanUp(budget: nat, s: State, d: seq<Event>)
    requires d == [Called(2, Fetch, "u", 0.0), Admission(1, 0.0, 0.0), CleanedUp(1), PoppedEntry(1)]
    requires 1 in s.threads && s.threads[1] == Sized(Prewarm, "u", 1, budget + 1) && 2 !in s.threads
    requires s.tier == TierState([Arrival("u", 0, 0.0)], {"u"})
    ensures var s' := RunFrom(s, budget, d);
      && 2 in s'.threads && s'.threads[2] == Done("u", Served) && 1 in s'.threads
      && s'.threads[1] == Popped("u", 1, Refused) && "u" in PathsOf(s'.tier.lru) && "u" !in s'.tier.files
  {
    RunFour(s, budget, d);
    ServedFromTheOldEntry(budget, s);
    var s1 := Do(s, budget, d[0]);
    RefusedTooLarge(budget, s1);
    CleanUpAndPop(budget, Do(s1, budget, d[1]));
  }

  /** A stale entry lets a refused prewarm take away a file that was served. The
      file of a resident URI vanishes; a prewarm downloads it again, finds it
      larger than the budget, and before it cleans up a fetch is served from the
      old entry. Nothing was evicted, and the served file is gone. */
  lemma RefusedPrewarmUnlinksAServedFile(budget: nat)
    ensures exists events: seq<Event> ::
      var s := Run(budget, events);
      && 2 in s.threads && s.threads[2] == Done("u", Served)
      && 1 in s.threads && s.threads[1] == Popped("u", 1, Refused)
      && "u" in PathsOf(s.tier.lru) && "u" !in s.tier.files
  {
    var before := StaleEntryMeasured(budget, Prewarm, budget + 1);
    var d := [Called(2, Fetch, "u", 0.0), Admission(1, 0.0, 0.0), CleanedUp(1), PoppedEntry(1)];
    RefuseAndCleanUp(budget, Run(budget, before), d);
    RunFromConcat(START, budget, before, d);
    assert Run(budget, before + d) == RunFrom(Run(budget, before), budget, d);
  }
}
