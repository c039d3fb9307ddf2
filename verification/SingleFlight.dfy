/** Concurrent fetches and prewarms of the local shard cache as thread steps.
    A step is one critical section or one file-system call; steps of different
    threads interleave freely. Files are named by their URI, which assumes that
    no two URIs in use share a local file name, and every unlink succeeds. */
module SingleFlight {
  import opened ShardTier
  import InFlight

  datatype Kind = Fetch | Prewarm

  datatype Outcome = Served | NotPublished | TimedOut | Refused | Failed

  /** Where a caller is. Downloading to Leaving are the initiator's stations;
      a Rejected prewarm has yet to unlink its file, a Leaving one to pop the
      in-flight entry, a Popped one to set the event. */
  datatype Thread =
    | Missed(kind: Kind, uri: string)
    | Waiting(kind: Kind, uri: string, ev: nat)
    | Woken(kind: Kind, uri: string)
    | Downloading(kind: Kind, uri: string, ev: nat)
    | Published(kind: Kind, uri: string, ev: nat)
    | Sized(kind: Kind, uri: string, ev: nat, nbytes: nat)
    | Rejected(uri: string, ev: nat)
    | Leaving(uri: string, ev: nat, outcome: Outcome)
    | Popped(uri: string, ev: nat, outcome: Outcome)
    | Done(uri: string, outcome: Outcome)

  /** publisher is history: which event's download wrote a file. */
  datatype State = State(
    tier: TierState, desk: InFlight.Desk, threads: map<nat, Thread>, publisher: map<string, nat>)

  datatype Event =
    | Called(t: nat, kind: Kind, uri: string, now: real)
    | Registered(t: nat, now: real)
    | Woke(t: nat)
    | GaveUp(t: nat)
    | Rechecked(t: nat, now: real)
    | Downloaded(t: nat, ok: bool)
    | Measured(t: nat, nbytes: nat)
    | Admission(t: nat, now: real, floor: real)
    | CleanedUp(t: nat)
    | PoppedEntry(t: nat)
    | SetEvent(t: nat)
    | EvictCalled(uri: string)
    | Vanished(uri: string)

  const START := State(TierState([], {}), InFlight.EMPTY, map[], map[])

  function Arrival(uri: string, nbytes: nat, now: real): Entry { Entry(uri, uri, nbytes, now, now) }

  predicate IsWarm(s: State, uri: string) { Serving(s.tier, uri).Some? }

  /** A prewarm may be refused; a query's fetch is admitted unconditionally. */
  predicate IsAdmitted(s: State, budget: nat, th: Thread, now: real, floor: real)
    requires th.Sized?
  {
    th.kind == Fetch || Admissible(s.tier.lru, Arrival(th.uri, th.nbytes, now), budget, now, floor)
  }

  /** An event is a thread's own step. */
  predicate IsOwn(e: Event) { !e.Called? && !e.EvictCalled? && !e.Vanished? }

  /** Where its next step takes a thread; a step out of turn leaves it in place. */
  function After(s: State, budget: nat, e: Event, th: Thread): Thread
    requires IsOwn(e)
  {
    match e
    case Registered(_, _) =>
      if !th.Missed? then th
      else if IsWarm(s, th.uri) then Done(th.uri, Served)
      else if th.uri in s.desk.inflight then Waiting(th.kind, th.uri, s.desk.inflight[th.uri])
      else Downloading(th.kind, th.uri, s.desk.next)
    case Woke(_) => if th.Waiting? && th.ev in s.desk.fired then Woken(th.kind, th.uri) else th
    case GaveUp(_) => if th.Waiting? && th.ev !in s.desk.fired then Done(th.uri, TimedOut) else th
    case Rechecked(_, _) =>
      if !th.Woken? then th
      else Done(th.uri, if IsWarm(s, th.uri) then Served else if th.kind == Fetch then NotPublished else Refused)
    case Downloaded(_, ok) =>
      if !th.Downloading? then th
      else if ok then Published(th.kind, th.uri, th.ev) else Leaving(th.uri, th.ev, Failed)
    case Measured(_, nbytes) =>
      if !th.Published? then th
      else if th.uri in s.tier.files then Sized(th.kind, th.uri, th.ev, nbytes) else Leaving(th.uri, th.ev, Failed)
    case Admission(_, now, floor) =>
      if !th.Sized? then th
      else if IsAdmitted(s, budget, th, now, floor) then Leaving(th.uri, th.ev, Served)
      else Rejected(th.uri, th.ev)
    case CleanedUp(_) => if th.Rejected? then Leaving(th.uri, th.ev, Refused) else th
    case PoppedEntry(_) => if th.Leaving? then Popped(th.uri, th.ev, th.outcome) else th
    case SetEvent(_) => if th.Popped? then Done(th.uri, th.outcome) else th
  }

  /** What the step does to the residency table and the disk. */
  function TierAfter(s: State, budget: nat, e: Event, th: Thread): TierState {
    match e
    case Registered(_, now) => if th.Missed? then Touched(s.tier, th.uri, now) else s.tier
    case Rechecked(_, now) => if th.Woken? then Touched(s.tier, th.uri, now) else s.tier
    case Downloaded(_, ok) =>
      if th.Downloading? && ok then s.tier.(files := s.tier.files + {th.uri}) else s.tier
    case Admission(_, now, floor) =>
      if th.Sized? && IsAdmitted(s, budget, th, now, floor)
      then Admitted(s.tier, Arrival(th.uri, th.nbytes, now), budget, {}) else s.tier
    case CleanedUp(_) => if th.Rejected? then s.tier.(files := s.tier.files - {th.uri}) else s.tier
    case _ => s.tier
  }

  /** What the step does to the in-flight table and the events. */
  function DeskAfter(s: State, e: Event, th: Thread): InFlight.Desk {
    match e
    case Registered(t, _) =>
      if th.Missed? && !IsWarm(s, th.uri) && th.uri !in s.desk.inflight then InFlight.Opened(s.desk, t, th.uri)
      else s.desk
    case PoppedEntry(_) => if th.Leaving? then InFlight.Closed(s.desk, th.uri) else s.desk
    case SetEvent(_) => if th.Popped? then InFlight.Fired(s.desk, th.ev) else s.desk
    case _ => s.desk
  }

  function PublisherAfter(s: State, e: Event, th: Thread): map<string, nat> {
    if e.Downloaded? && e.ok && th.Downloading? then s.publisher[th.uri := th.ev] else s.publisher
  }

  function Step(s: State, budget: nat, e: Event): State
    requires IsOwn(e) && e.t in s.threads
  {
    var th := s.threads[e.t];
    State(TierAfter(s, budget, e, th), DeskAfter(s, e, th), s.threads[e.t := After(s, budget, e, th)],
          PublisherAfter(s, e, th))
  }

  function Do(s: State, budget: nat, e: Event): State {
    match e
    case Called(t, kind, uri, now) =>
      if t in s.threads then s
      else s.(tier := Touched(s.tier, uri, now),
              threads := s.threads[t := if IsWarm(s, uri) then Done(uri, Served) else Missed(kind, uri)])
    case EvictCalled(uri) => s.(tier := Evicted(s.tier, uri, {}))
    case Vanished(uri) => s.(tier := s.tier.(files := s.tier.files - {uri}))
    case _ => if e.t in s.threads then Step(s, budget, e) else s
  }

  function RunFrom(s: State, budget: nat, events: seq<Event>): State {
    if events == [] then s
    else Do(RunFrom(s, budget, events[..|events| - 1]), budget, events[|events| - 1])
  }

  function Run(budget: nat, events: seq<Event>): State { RunFrom(START, budget, events) }

  /** The step is the one the thread stands before. */
  predicate InTurn(e: Event, th: Thread)
    requires IsOwn(e)
  {
    match e
    case Registered(_, _) => th.Missed?
    case Woke(_) => th.Waiting?
    case GaveUp(_) => th.Waiting?
    case Rechecked(_, _) => th.Woken?
    case Downloaded(_, _) => th.Downloading?
    case Measured(_, _) => th.Published?
    case Admission(_, _, _) => th.Sized?
    case CleanedUp(_) => th.Rejected?
    case PoppedEntry(_) => th.Leaving?
    case SetEvent(_) => th.Popped?
  }

  lemma OutOfTurnChangesNothing(s: State, budget: nat, e: Event)
    requires IsOwn(e) && (e.t in s.threads ==> !InTurn(e, s.threads[e.t]))
    ensures Do(s, budget, e) == s
  {
    if e.t in s.threads {
      assert s.threads[e.t := s.threads[e.t]] == s.threads;
    }
  }

  // ----- the threads at the desk -----

  /** An initiator that has not yet popped its in-flight entry. */
  predicate Holds(th: Thread) {
    th.Downloading? || th.Published? || th.Sized? || th.Rejected? || th.Leaving?
  }

  /** An initiator that has published a file and not yet decided its fate. */
  predicate HasFile(th: Thread) { th.Published? || th.Sized? || th.Rejected? }

  predicate OnItsWay(th: Thread) { Holds(th) || th.Popped? }

  function SlotOf(th: Thread): InFlight.Slot {
    if th.Waiting? then InFlight.Waiting(th.uri, th.ev)
    else if Holds(th) then InFlight.Working(th.uri, th.ev)
    else if th.Popped? then InFlight.Closing(th.uri, th.ev)
    else InFlight.Outside
  }

  function SlotsOf(threads: map<nat, Thread>): map<nat, InFlight.Slot> {
    map t | t in threads :: SlotOf(threads[t])
  }

  /** A thread that has its file wrote it: nobody else published that URI since. */
  predicate PublisherOk(s: State, t: nat)
    requires t in s.threads
  {
    var th := s.threads[t];
    HasFile(th) && th.uri in s.tier.files ==> th.uri in s.publisher && s.publisher[th.uri] == th.ev
  }

  ghost predicate Inv(s: State) {
    && InFlight.DeskOk(s.desk, SlotsOf(s.threads))
    && (forall t :: t in s.threads ==> PublisherOk(s, t))
  }

  /** Two initiators at work on one URI are one thread. */
  lemma OneHolder(s: State, t: nat, u: nat)
    requires Inv(s) && t in s.threads && u in s.threads
    requires Holds(s.threads[t]) && Holds(s.threads[u]) && s.threads[t].uri == s.threads[u].uri
    ensures t == u
  {
    InFlight.OneWorker(s.desk, SlotsOf(s.threads), t, u);
  }

  /** An initiator's own entry and event. */
  lemma InitiatorFacts(s: State, t: nat)
    requires Inv(s) && t in s.threads
    ensures var th, d := s.threads[t], s.desk;
      && (Holds(th) ==> th.uri in d.inflight && d.inflight[th.uri] == th.ev)
      && (OnItsWay(th) ==> th.ev < d.next && th.ev !in d.fired && th.ev in d.owner && d.owner[th.ev] == t)
  {
    assert InFlight.SlotOk(s.desk, SlotsOf(s.threads), t);
  }

  /** Behind every in-flight entry there is an initiator at work. */
  lemma EntryFacts(s: State, uri: string)
    requires Inv(s) && uri in s.desk.inflight
    ensures var ev := s.desk.inflight[uri];
      && ev in s.desk.owner && s.desk.owner[ev] in s.threads && ev < s.desk.next
      && Holds(s.threads[s.desk.owner[ev]])
      && s.threads[s.desk.owner[ev]].uri == uri && s.threads[s.desk.owner[ev]].ev == ev
  {
    assert InFlight.EntryOk(s.desk, SlotsOf(s.threads), uri);
    InFlight.PendingEvents(s.desk, SlotsOf(s.threads), uri);
  }

  // ----- what every step keeps -----

  lemma SlotsAfter(threads: map<nat, Thread>, t: nat, th: Thread)
    ensures SlotsOf(threads[t := th]) == SlotsOf(threads)[t := SlotOf(th)]
  {
  }

  lemma StepKeepsDesk(s: State, budget: nat, e: Event)
    requires IsOwn(e) && e.t in s.threads && InFlight.DeskOk(s.desk, SlotsOf(s.threads))
    ensures var s' := Step(s, budget, e); InFlight.DeskOk(s'.desk, SlotsOf(s'.threads))
  {
    var t, th, slots := e.t, s.threads[e.t], SlotsOf(s.threads);
    var after := After(s, budget, e, th);
    SlotsAfter(s.threads, t, after);
    if SlotOf(after) == SlotOf(th) && DeskAfter(s, e, th) == s.desk {
      assert slots[t := SlotOf(th)] == slots;
    } else if after.Waiting? {
      InFlight.WaitKeepsDesk(s.desk, slots, t, th.uri);
    } else if after.Downloading? {
      InFlight.OpenKeepsDesk(s.desk, slots, t, th.uri);
    } else if after.Popped? {
      InFlight.CloseKeepsDesk(s.desk, slots, t);
    } else if th.Popped? {
      InFlight.FireKeepsDesk(s.desk, slots, t);
    } else {
      InFlight.OutsideKeepsDesk(s.desk, slots, t);
    }
  }

  lemma StepKeepsPublisher(s: State, budget: nat, e: Event, x: nat)
    requires Inv(s) && IsOwn(e) && e.t in s.threads && x in s.threads
    ensures PublisherOk(Step(s, budget, e), x)
  {
    assert PublisherOk(s, x);
    if e.Downloaded? && s.threads[e.t].Downloading? && HasFile(s.threads[x]) && s.threads[x].uri == s.threads[e.t].uri {
      OneHolder(s, x, e.t);
    }
  }

  lemma DoKeepsInv(s: State, budget: nat, e: Event)
    requires Inv(s)
    ensures Inv(Do(s, budget, e))
  {
    var s' := Do(s, budget, e);
    if e.EvictCalled? || e.Vanished? {
      forall x | x in s'.threads ensures PublisherOk(s', x) { assert PublisherOk(s, x); }
    } else if e.Called? {
      if e.t !in s.threads {
        SlotsAfter(s.threads, e.t, s'.threads[e.t]);
        InFlight.OutsideKeepsDesk(s.desk, SlotsOf(s.threads), e.t);
        forall x | x in s'.threads ensures PublisherOk(s', x) {
          if x != e.t { assert PublisherOk(s, x); }
        }
      }
    } else if e.t in s.threads {
      StepKeepsDesk(s, budget, e);
      forall x | x in s'.threads ensures PublisherOk(s', x) { StepKeepsPublisher(s, budget, e, x); }
    }
  }

  lemma {:induction false} RunInv(budget: nat, events: seq<Event>)
    ensures Inv(Run(budget, events))
  {
    if events == [] {
    } else {
      RunInv(budget, events[..|events| - 1]);
      DoKeepsInv(Run(budget, events[..|events| - 1]), budget, events[|events| - 1]);
    }
  }

  // ----- single flight -----

  /** In every reachable state at most one thread is working on a URI. */
  lemma SingleDownloader(budget: nat, events: seq<Event>, t: nat, u: nat)
    requires var s := Run(budget, events);
      && t in s.threads && u in s.threads
      && Holds(s.threads[t]) && Holds(s.threads[u]) && s.threads[t].uri == s.threads[u].uri
    ensures t == u
  {
    RunInv(budget, events);
    OneHolder(Run(budget, events), t, u);
  }

  /** An event that has been set is in no in-flight entry, so nobody can start
      waiting on it. */
  lemma FiredEventsAreGone(budget: nat, events: seq<Event>, uri: string)
    requires uri in Run(budget, events).desk.inflight
    ensures Run(budget, events).desk.inflight[uri] !in Run(budget, events).desk.fired
  {
    RunInv(budget, events);
    var s := Run(budget, events);
    InFlight.PendingEvents(s.desk, SlotsOf(s.threads), uri);
  }

  /** The file a rejected prewarm is about to unlink is the one it published:
      no later initiator's file can be in its place. */
  lemma RejectedPrewarmUnlinksItsOwnFile(budget: nat, events: seq<Event>, t: nat)
    requires var s := Run(budget, events);
      t in s.threads && s.threads[t].Rejected? && s.threads[t].uri in s.tier.files
    ensures var s := Run(budget, events); var uri := s.threads[t].uri;
      && uri in s.publisher && uri in s.desk.inflight
      && s.publisher[uri] == s.threads[t].ev == s.desk.inflight[uri]
  {
    RunInv(budget, events);
    InitiatorFacts(Run(budget, events), t);
    assert PublisherOk(Run(budget, events), t);
  }

  // ----- nobody waits forever -----

  predicate StepsOf(events: seq<Event>, t: nat) {
    forall e :: e in events ==> IsOwn(e) && e.t == t
  }

  /** The step an initiator takes next; a download may fail. */
  function NextStep(th: Thread, t: nat): Event
    requires OnItsWay(th)
  {
    match th
    case Downloading(_, _, _) => Downloaded(t, false)
    case Published(_, _, _) => Measured(t, 0)
    case Sized(_, _, _, _) => Admission(t, 0.0, 0.0)
    case Rejected(_, _) => CleanedUp(t)
    case Leaving(_, _, _) => PoppedEntry(t)
    case Popped(_, _, _) => SetEvent(t)
  }

  function StepsLeft(th: Thread): nat {
    match th
    case Downloading(_, _, _) => 6
    case Published(_, _, _) => 5
    case Sized(_, _, _, _) => 4
    case Rejected(_, _) => 3
    case Leaving(_, _, _) => 2
    case Popped(_, _, _) => 1
    case _ => 0
  }

  lemma {:induction false} RunFromConcat(s: State, budget: nat, a: seq<Event>, b: seq<Event>)
    ensures RunFrom(s, budget, a + b) == RunFrom(RunFrom(s, budget, a), budget, b)
  {
    if b == [] {
      assert a + b == a;
    } else {
      RunFromConcat(s, budget, a, b[..|b| - 1]);
      assert (a + b)[..|a + b| - 1] == a + b[..|b| - 1];
    }
  }

  lemma LastStep(s: State, budget: nat, es: seq<Event>)
    requires es != []
    ensures RunFrom(s, budget, es) == Do(RunFrom(s, budget, es[..|es| - 1]), budget, es[|es| - 1])
  {
  }

  /** The step brings an initiator nearer to setting its event. */
  predicate Advances(before: Thread, after: Thread) {
    OnItsWay(before) && OnItsWay(after) && after.ev == before.ev && StepsLeft(after) < StepsLeft(before)
  }

  predicate AdvancesBy(s: State, budget: nat, t: nat, e: Event)
    requires t in s.threads
  {
    t in Do(s, budget, e).threads && Advances(s.threads[t], Do(s, budget, e).threads[t])
  }

  lemma NextStepAdvances(s: State, budget: nat, t: nat)
    requires t in s.threads && OnItsWay(s.threads[t])
    ensures if s.threads[t].Popped? then s.threads[t].ev in Do(s, budget, SetEvent(t)).desk.fired
            else AdvancesBy(s, budget, t, NextStep(s.threads[t], t))
  {
  }

  /** An initiator left to itself sets its event. */
  lemma {:induction false} InitiatorFinishes(s: State, budget: nat, t: nat) returns (more: seq<Event>)
    requires t in s.threads && OnItsWay(s.threads[t])
    ensures StepsOf(more, t) && |more| <= StepsLeft(s.threads[t])
    ensures s.threads[t].ev in RunFrom(s, budget, more).desk.fired
    decreases StepsLeft(s.threads[t])
  {
    var e := NextStep(s.threads[t], t);
    LastStep(s, budget, [e]);
    assert [e][..0] == [];
    NextStepAdvances(s, budget, t);
    if s.threads[t].Popped? {
      more := [e];
    } else {
      var rest := InitiatorFinishes(Do(s, budget, e), budget, t);
      more := [e] + rest;
      RunFromConcat(s, budget, [e], rest);
    }
  }

  /** A waiter's event is set, or one other thread can set it in at most six
      steps of its own, whatever state the system is in. */
  lemma EveryWaitCanEnd(budget: nat, events: seq<Event>, t: nat)
    requires var s := Run(budget, events); t in s.threads && s.threads[t].Waiting?
    ensures var s := Run(budget, events); var ev := s.threads[t].ev;
      ev in s.desk.fired
      || exists more: seq<Event> ::
           && |more| <= 6 && ev in s.desk.owner && StepsOf(more, s.desk.owner[ev])
           && ev in RunFrom(s, budget, more).desk.fired
  {
    RunInv(budget, events);
    var s := Run(budget, events);
    var ev := s.threads[t].ev;
    assert InFlight.SlotOk(s.desk, SlotsOf(s.threads), t);
    if ev !in s.desk.fired {
      var more := InitiatorFinishes(s, budget, s.desk.owner[ev]);
      assert |more| <= 6 && StepsOf(more, s.desk.owner[ev]) && ev in RunFrom(s, budget, more).desk.fired;
    }
  }
}
