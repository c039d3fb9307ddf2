/** The coalesced download of the unmanaged shard cache: the file itself is the
    published state, and nothing is ever evicted. Steps of different threads
    interleave freely. Files are named by their URI, which assumes that no two
    URIs in use share a cache key. */
module CoalescedDownload {
  import InFlight

  datatype Outcome = Served | NotProduced | TimedOut | Failed

  datatype Thread =
    | Missed(uri: string)
    | Waiting(uri: string, ev: nat)
    | Woken(uri: string)
    | Downloading(uri: string, ev: nat)
    | Leaving(uri: string, ev: nat, outcome: Outcome)
    | Popped(uri: string, ev: nat, outcome: Outcome)
    | Done(uri: string, outcome: Outcome)

  /** downloads is history: how often a URI's bytes were fetched and published. */
  datatype State = State(
    files: set<string>, desk: InFlight.Desk, threads: map<nat, Thread>, downloads: map<string, nat>)

  datatype Event =
    | Called(t: nat, uri: string)
    | Registered(t: nat)
    | Woke(t: nat)
    | GaveUp(t: nat)
    | Rechecked(t: nat)
    | Downloaded(t: nat, ok: bool)
    | PoppedEntry(t: nat)
    | SetEvent(t: nat)
    | Vanished(uri: string)

  const START := State({}, InFlight.EMPTY, map[], map[])

  function Downloads(s: State, uri: string): nat { if uri in s.downloads then s.downloads[uri] else 0 }

  /** Where its next step takes a thread; a step out of turn leaves it in place. */
  function After(s: State, e: Event, th: Thread): Thread {
    match e
    case Registered(_) =>
      if !th.Missed? then th
      else if th.uri in s.files then Done(th.uri, Served)
      else if th.uri in s.desk.inflight then Waiting(th.uri, s.desk.inflight[th.uri])
      else Downloading(th.uri, s.desk.next)
    case Woke(_) => if th.Waiting? && th.ev in s.desk.fired then Woken(th.uri) else th
    case GaveUp(_) => if th.Waiting? && th.ev !in s.desk.fired then Done(th.uri, TimedOut) else th
    case Rechecked(_) =>
      if th.Woken? then Done(th.uri, if th.uri in s.files then Served else NotProduced) else th
    case Downloaded(_, ok) =>
      if th.Downloading? then Leaving(th.uri, th.ev, if ok then Served else Failed) else th
    case PoppedEntry(_) => if th.Leaving? then Popped(th.uri, th.ev, th.outcome) else th
    case SetEvent(_) => if th.Popped? then Done(th.uri, th.outcome) else th
    case _ => th
  }

  predicate Publishes(e: Event, th: Thread) { e.Downloaded? && e.ok && th.Downloading? }

  function DeskAfter(s: State, e: Event, th: Thread): InFlight.Desk {
    match e
    case Registered(t) =>
      if th.Missed? && th.uri !in s.files && th.uri !in s.desk.inflight then InFlight.Opened(s.desk, t, th.uri)
      else s.desk
    case PoppedEntry(_) => if th.Leaving? then InFlight.Closed(s.desk, th.uri) else s.desk
    case SetEvent(_) => if th.Popped? then InFlight.Fired(s.desk, th.ev) else s.desk
    case _ => s.desk
  }

  function Step(s: State, e: Event): State
    requires !e.Called? && !e.Vanished? && e.t in s.threads
  {
    var th := s.threads[e.t];
    State(if Publishes(e, th) then s.files + {th.uri} else s.files,
          DeskAfter(s, e, th),
          s.threads[e.t := After(s, e, th)],
          if Publishes(e, th) then s.downloads[th.uri := Downloads(s, th.uri) + 1] else s.downloads)
  }

  function Do(s: State, e: Event): State {
    match e
    case Called(t, uri) =>
      if t in s.threads then s
      else s.(threads := s.threads[t := if uri in s.files then Done(uri, Served) else Missed(uri)])
    case Vanished(uri) => s.(files := s.files - {uri})
    case _ => if e.t in s.threads then Step(s, e) else s
  }

  function Run(events: seq<Event>): State {
    if events == [] then START else Do(Run(events[..|events| - 1]), events[|events| - 1])
  }

  // ----- the threads at the desk -----

  predicate Holds(th: Thread) { th.Downloading? || th.Leaving? }

  function SlotOf(th: Thread): InFlight.Slot {
    if th.Waiting? then InFlight.Waiting(th.uri, th.ev)
    else if Holds(th) then InFlight.Working(th.uri, th.ev)
    else if th.Popped? then InFlight.Closing(th.uri, th.ev)
    else InFlight.Outside
  }

  function SlotsOf(threads: map<nat, Thread>): map<nat, InFlight.Slot> {
    map t | t in threads :: SlotOf(threads[t])
  }

  ghost predicate Inv(s: State) { InFlight.DeskOk(s.desk, SlotsOf(s.threads)) }

  lemma SlotsAfter(threads: map<nat, Thread>, t: nat, th: Thread)
    ensures SlotsOf(threads[t := th]) == SlotsOf(threads)[t := SlotOf(th)]
  {
  }

  lemma StepKeepsInv(s: State, e: Event)
    requires Inv(s) && !e.Called? && !e.Vanished? && e.t in s.threads
    ensures Inv(Step(s, e))
  {
    var t, th, slots := e.t, s.threads[e.t], SlotsOf(s.threads);
    var after := After(s, e, th);
    SlotsAfter(s.threads, t, after);
    if SlotOf(after) == SlotOf(th) && DeskAfter(s, e, th) == s.desk {
      assert slots[t := SlotOf(th)] == slots;
    } else if after.Waiting? {
      InFlight.WaitKeepsDesk(s.desk, slots, t, th.uri);
    } else if after.Downloading? {
      InFlight.OpenKeepsDesk(s.desk, slots, t, th.uri);
    } else if after.Popped? {
      InFlight.CloseKeepsDesk(s.desk, slots, t);
    } else if th.Popped? {
      InFlight.FireKeepsDesk(s.desk, slots, t);
    } else {
      InFlight.OutsideKeepsDesk(s.desk, slots, t);
    }
  }

  lemma DoKeepsInv(s: State, e: Event)
    requires Inv(s)
    ensures Inv(Do(s, e))
  {
    if e.Called? {
      if e.t !in s.threads {
        SlotsAfter(s.threads, e.t, Do(s, e).threads[e.t]);
        InFlight.OutsideKeepsDesk(s.desk, SlotsOf(s.threads), e.t);
      }
    } else if !e.Vanished? && e.t in s.threads {
      StepKeepsInv(s, e);
    }
  }

  lemma {:induction false} RunInv(events: seq<Event>)
    ensures Inv(Run(events))
  {
    if events == [] {
    } else {
      RunInv(events[..|events| - 1]);
      DoKeepsInv(Run(events[..|events| - 1]), events[|events| - 1]);
    }
  }

  /** One initiator per URI; a waiter's event is set or its initiator is still on
      the way; a set event is in no in-flight entry. */
  lemma SingleFlightHolds(events: seq<Event>, t: nat, u: nat, uri: string)
    requires t in Run(events).threads && u in Run(events).threads
    ensures var s := Run(events); var th := s.threads[t];
      && (Holds(th) && Holds(s.threads[u]) && th.uri == s.threads[u].uri ==> t == u)
      && (th.Waiting? ==>
            th.ev in s.desk.fired || InFlight.IsInitiator(s.desk, SlotsOf(s.threads), th.ev, th.uri))
      && (uri in s.desk.inflight ==> s.desk.inflight[uri] !in s.desk.fired)
  {
    RunInv(events);
    var s := Run(events);
    var slots := SlotsOf(s.threads);
    assert InFlight.SlotOk(s.desk, slots, t);
    if Holds(s.threads[t]) && Holds(s.threads[u]) && s.threads[t].uri == s.threads[u].uri {
      InFlight.OneWorker(s.desk, slots, t, u);
    }
    if uri in s.desk.inflight {
      InFlight.PendingEvents(s.desk, slots, uri);
    }
  }

  // ----- one download for each time the file was missing -----

  /** How often somebody outside deleted the URI's file while it was there. */
  function Removals(events: seq<Event>, uri: string): nat {
    if events == [] then 0
    else
      var front, last := events[..|events| - 1], events[|events| - 1];
      Removals(front, uri) + if last == Vanished(uri) && uri in Run(front).files then 1 else 0
  }

  predicate Unpublished(s: State, th: Thread) { th.Downloading? ==> th.uri !in s.files }

  /** A thread was given the path of this URI's file, or is about to be. */
  predicate GivenPath(th: Thread, uri: string) {
    th.uri == uri && (th.Leaving? || th.Popped? || th.Done?) && th.outcome == Served
  }

  ghost predicate NobodyRepeats(s: State) {
    forall t :: t in s.threads ==> Unpublished(s, s.threads[t])
  }

  lemma BystanderIsUnpublished(s: State, e: Event, x: nat)
    requires Inv(s) && NobodyRepeats(s) && !e.Called? && !e.Vanished?
    requires e.t in s.threads && x in s.threads && x != e.t
    ensures Unpublished(Step(s, e), s.threads[x])
  {
    assert Unpublished(s, s.threads[x]);
    if s.threads[x].Downloading? && Publishes(e, s.threads[e.t]) && s.threads[x].uri == s.threads[e.t].uri {
      InFlight.OneWorker(s.desk, SlotsOf(s.threads), x, e.t);
    }
  }

  /** Whoever downloads a file finds it missing until it publishes it. */
  lemma DoKeepsUnpublished(s: State, e: Event)
    requires Inv(s) && NobodyRepeats(s)
    ensures NobodyRepeats(Do(s, e))
  {
    var s' := Do(s, e);
    forall x | x in s'.threads ensures Unpublished(s', s'.threads[x]) {
      assert x in s.threads ==> Unpublished(s, s.threads[x]);
      if !e.Called? && !e.Vanished? && e.t in s.threads && x != e.t {
        BystanderIsUnpublished(s, e, x);
      }
    }
  }

  lemma {:induction false} RunUnpublished(events: seq<Event>)
    ensures NobodyRepeats(Run(events))
  {
    if events == [] {
    } else {
      RunUnpublished(events[..|events| - 1]);
      RunInv(events[..|events| - 1]);
      DoKeepsUnpublished(Run(events[..|events| - 1]), events[|events| - 1]);
    }
  }

  /** What one step does to a URI's file and count. */
  lemma DoCounts(s: State, e: Event, uri: string)
    requires NobodyRepeats(s)
    ensures var s' := Do(s, e);
      if e == Vanished(uri) then uri !in s'.files && Downloads(s', uri) == Downloads(s, uri)
      else Downloads(s', uri) - Downloads(s, uri)
           == (if uri in s'.files then 1 else 0) - (if uri in s.files then 1 else 0)
    ensures e != Vanished(uri) && uri in s.files ==> uri in Do(s, e).files
  {
    if !e.Called? && !e.Vanished? && e.t in s.threads {
      assert Unpublished(s, s.threads[e.t]);
    }
  }

  /** In every run, a URI is downloaded exactly as often as its file had to be
      brought back, and once more if it is there now. */
  lemma {:induction false} DownloadedPerRemoval(events: seq<Event>, uri: string)
    ensures Downloads(Run(events), uri) == Removals(events, uri) + if uri in Run(events).files then 1 else 0
  {
    if events == [] {
    } else {
      var front, last := events[..|events| - 1], events[|events| - 1];
      DownloadedPerRemoval(front, uri);
      RunUnpublished(front);
      DoCounts(Run(front), last, uri);
    }
  }

  lemma DoKeepsPaths(s: State, e: Event, uri: string)
    requires NobodyRepeats(s) && e != Vanished(uri)
    requires forall t :: t in s.threads && GivenPath(s.threads[t], uri) ==> uri in s.files
    ensures forall t :: t in Do(s, e).threads && GivenPath(Do(s, e).threads[t], uri) ==> uri in Do(s, e).files
  {
    var s' := Do(s, e);
    DoCounts(s, e, uri);
    forall t | t in s'.threads && GivenPath(s'.threads[t], uri) ensures uri in s'.files {
      assert t in s.threads && GivenPath(s.threads[t], uri) ==> uri in s.files;
    }
  }

  /** While nobody deletes this URI's file, whatever happens to others, it is
      downloaded exactly once if it is on disk and never otherwise, and every
      caller that was given its path finds it there, then and ever after. */
  lemma {:induction false} DownloadedOnce(events: seq<Event>, uri: string)
    requires Vanished(uri) !in events
    ensures var s := Run(events);
      && Downloads(s, uri) == (if uri in s.files then 1 else 0)
      && forall t :: t in s.threads && GivenPath(s.threads[t], uri) ==> uri in s.files
  {
    if events == [] {
    } else {
      var front, last := events[..|events| - 1], events[|events| - 1];
      assert last in events && forall e :: e in front ==> e in events;
      DownloadedOnce(front, uri);
      RunUnpublished(front);
      DoCounts(Run(front), last, uri);
      DoKeepsPaths(Run(front), last, uri);
    }
  }

  // ----- what a caller is told -----

  function OutcomeOf(th: Thread): set<Outcome> {
    match th
    case Leaving(_, _, outcome) => {outcome}
    case Popped(_, _, outcome) => {outcome}
    case Done(_, outcome) => {outcome}
    case _ => {}
  }

  /** The step decides on this outcome, and rightly so: served for a file that is
      there or was just published, not produced for one that is not, timed out on an
      unset event, failed by the download. */
  predicate Earned(s: State, e: Event, t: nat, outcome: Outcome) {
    match e
    case Called(u, uri) => u == t && t !in s.threads && outcome == Served && uri in s.files
    case Registered(u) =>
      u == t && t in s.threads && s.threads[t].Missed? && outcome == Served && s.threads[t].uri in s.files
    case GaveUp(u) =>
      u == t && t in s.threads && s.threads[t].Waiting? && outcome == TimedOut && s.threads[t].ev !in s.desk.fired
    case Rechecked(u) =>
      && u == t && t in s.threads && s.threads[t].Woken?
      && outcome == if s.threads[t].uri in s.files then Served else NotProduced
    case Downloaded(u, ok) =>
      u == t && t in s.threads && s.threads[t].Downloading? && outcome == if ok then Served else Failed
    case _ => false
  }

  /** A wait ends in a wake-up exactly when the event is set, and in a timeout exactly
      when it is not. */
  lemma WaitersWaitForTheirEvent(s: State, t: nat, uri: string, ev: nat)
    requires t in s.threads && s.threads[t] == Waiting(uri, ev)
    ensures Do(s, Woke(t)) == if ev in s.desk.fired then s.(threads := s.threads[t := Woken(uri)]) else s
    ensures Do(s, GaveUp(t)) == if ev in s.desk.fired then s else s.(threads := s.threads[t := Done(uri, TimedOut)])
  {
    assert s.threads[t := s.threads[t]] == s.threads;
  }

  predicate EverEarned(events: seq<Event>, t: nat, outcome: Outcome) {
    events != [] &&
    (EverEarned(events[..|events| - 1], t, outcome)
     || Earned(Run(events[..|events| - 1]), events[|events| - 1], t, outcome))
  }

  lemma StepDecides(s: State, e: Event, t: nat, outcome: Outcome)
    ensures var s' := Do(s, e);
      t in s'.threads && outcome in OutcomeOf(s'.threads[t])
      <==> (t in s.threads && outcome in OutcomeOf(s.threads[t])) || Earned(s, e, t, outcome)
  {
  }

  /** A thread has exactly the outcomes it earned at some step of the run. */
  lemma {:induction false} OutcomesAreEarned(events: seq<Event>, t: nat, outcome: Outcome)
    ensures t in Run(events).threads && outcome in OutcomeOf(Run(events).threads[t]) <==> EverEarned(events, t, outcome)
  {
    if events == [] {
    } else {
      OutcomesAreEarned(events[..|events| - 1], t, outcome);
      StepDecides(Run(events[..|events| - 1]), events[|events| - 1], t, outcome);
    }
  }

  // ----- a shared download -----

  lemma RunStep(events: seq<Event>, e: Event) returns (more: seq<Event>)
    ensures more == events + [e] && Run(more) == Do(Run(events), e)
  {
    more := events + [e];
    assert more[..|events|] == events;
  }

  /** A second caller that arrives during a download waits for it and is served by
      it: one download, two paths. */
  lemma CallersShareOneDownload(uri: string)
    ensures exists events: seq<Event> ::
      var s := Run(events);
      && 0 in s.threads && 1 in s.threads
      && s.threads[0] == s.threads[1] == Done(uri, Served) && Downloads(s, uri) == 1
  {
    var es := RunStep([], Called(0, uri));
    es := RunStep(es, Registered(0));
    es := RunStep(es, Called(1, uri));
    es := RunStep(es, Registered(1));
    assert Run(es).threads == map[0 := Downloading(uri, 0), 1 := Waiting(uri, 0)];
    es := RunStep(es, Downloaded(0, true));
    es := RunStep(es, PoppedEntry(0));
    es := RunStep(es, SetEvent(0));
    assert Run(es).threads == map[0 := Done(uri, Served), 1 := Waiting(uri, 0)];
    es := RunStep(es, Woke(1));
    es := RunStep(es, Rechecked(1));
  }
}
