/** The reliable queue as single store commands: workers, stale workers and
    reapers interleave between any two commands and may crash anywhere. */
module QueueSteps {
  /** Who a command sequence belongs to: a worker with its message, or a reaper
      with what is left of the listing it took. */
  datatype Owner = Worker | Reaper(rest: seq<nat>, now: real, olderThan: real)

  /** Where an agent is. From Removed to ToMain the message is in its hand: off
      the processing list and on no other. A worker keeps Holding its message
      object, so it can acknowledge late or twice. */
  datatype Stage =
    | Taken(m: nat)
    | Holding(m: nat)
    | Scanning(owner: Owner)
    | Unstamped(m: nat, owner: Owner)
    | Stale(m: nat, owner: Owner)
    | Removed(m: nat, requeue: bool, owner: Owner)
    | ToDlq(m: nat, owner: Owner)
    | ToClearStamp(m: nat)
    | ToMain(m: nat, owner: Owner)
    | Clearing(m: nat, attemptsToo: bool, owner: Owner)

  /** The lists and hashes of one topic, its agents, and history: next counts
      publications, acked and lost record how messages left, deliveries counts
      stamps, refused the messages nacked without requeue. */
  datatype State = State(
    main: seq<nat>, processing: seq<nat>, dlq: seq<nat>,
    attempts: map<nat, nat>, received: map<nat, real>,
    agents: map<nat, Stage>,
    next: nat, acked: set<nat>, lost: set<nat>,
    deliveries: map<nat, nat>, refused: set<nat>)

  datatype Event =
    | Publish
    | Take(t: nat)
    | Stamp(t: nat, now: real)
    | Deliver(t: nat, now: real)
    | AckRemove(t: nat)
    | NackRemove(t: nat, requeue: bool)
    | ReaperList(t: nat, now: real, olderThan: real)
    | Command(t: nat)
    | Crash(t: nat)

  const START := State([], [], [], map[], map[], map[], 0, {}, {}, map[], {})

  function Count(m: map<nat, nat>, id: nat): nat { if id in m then m[id] else 0 }

  /** LREM with count 1: drop the first occurrence. */
  function RemoveOne(s: seq<nat>, m: nat): seq<nat> {
    if s == [] then [] else if s[0] == m then s[1..] else [s[0]] + RemoveOne(s[1..], m)
  }

  function Goto(s: State, t: nat, stage: Stage): State { s.(agents := s.agents[t := stage]) }

  function Resume(m: nat, owner: Owner): Stage {
    match owner
    case Worker => Holding(m)
    case Reaper(_, _, _) => Scanning(owner)
  }

  predicate InHand(stage: Stage) {
    stage.Removed? || stage.ToDlq? || stage.ToClearStamp? || stage.ToMain?
  }

  /** LMOVE from the left of main to the right of processing. */
  function TakeStep(s: State, t: nat): State
    requires s.main != []
  {
    var m := s.main[0];
    Goto(s, t, Taken(m)).(main := s.main[1..], processing := s.processing + [m])
  }

  /** The stamp pipeline: one more attempt, and the delivery time. */
  function StampStep(s: State, t: nat, m: nat, now: real): State {
    Goto(s, t, Holding(m)).(
      attempts := s.attempts[m := Count(s.attempts, m) + 1], received := s.received[m := now],
      deliveries := s.deliveries[m := Count(s.deliveries, m) + 1])
  }

  function RemoveFromProcessing(s: State, m: nat): State {
    s.(processing := RemoveOne(s.processing, m))
  }

  function AckStep(s: State, t: nat, m: nat): State {
    var s' := Goto(s, t, Clearing(m, true, Worker));
    if m in s.processing then RemoveFromProcessing(s', m).(acked := s.acked + {m}) else s'
  }

  function NackStep(s: State, t: nat, m: nat, requeue: bool): State {
    if m !in s.processing then s
    else RemoveFromProcessing(Goto(s, t, Removed(m, requeue, Worker)), m)
      .(refused := if requeue then s.refused else s.refused + {m})
  }

  /** A reaper reads the delivery stamp of its next listed entry. */
  function LookAt(received: map<nat, real>, owner: Owner): (stage: Stage)
    requires owner.Reaper? && owner.rest != []
    ensures !InHand(stage)
  {
    var m, later := owner.rest[0], owner.(rest := owner.rest[1..]);
    if m !in received then Unstamped(m, later)
    else if owner.now - received[m] < owner.olderThan then Scanning(later)
    else Stale(m, later)
  }

  /** The attempts are read and the message's way decided. */
  function Decide(s: State, max: nat, m: nat, requeue: bool, owner: Owner): Stage {
    if !requeue || Count(s.attempts, m) >= max then ToDlq(m, owner)
    else if owner.Worker? then ToClearStamp(m)
    else ToMain(m, owner)
  }

  /** Where an agent with no choice to make goes with its next command. */
  function NextStage(s: State, max: nat, stage: Stage): Stage {
    match stage
    case Taken(_) => stage
    case Holding(_) => stage
    case Scanning(owner) => if owner.Reaper? && owner.rest != [] then LookAt(s.received, owner) else stage
    case Unstamped(_, owner) => Scanning(owner)
    case Stale(m, owner) => if m in s.processing then Removed(m, true, owner) else Scanning(owner)
    case Removed(m, requeue, owner) => Decide(s, max, m, requeue, owner)
    case ToDlq(m, owner) => Clearing(m, true, owner)
    case ToClearStamp(m) => ToMain(m, Worker)
    case ToMain(m, owner) => if owner.Worker? then Holding(m) else Clearing(m, false, owner)
    case Clearing(m, attemptsToo, owner) => if attemptsToo then Clearing(m, false, owner) else Resume(m, owner)
  }

  /** What that command does to the lists and hashes. */
  function Effect(s: State, stage: Stage): State {
    match stage
    case Unstamped(m, owner) => if owner.Reaper? then s.(received := s.received[m := owner.now]) else s
    case Stale(m, _) => if m in s.processing then RemoveFromProcessing(s, m) else s
    case ToDlq(m, _) => s.(dlq := [m] + s.dlq)
    case ToClearStamp(m) => s.(received := s.received - {m})
    case ToMain(m, _) => s.(main := s.main + [m])
    case Clearing(m, attemptsToo, _) =>
      if attemptsToo then s.(attempts := s.attempts - {m}) else s.(received := s.received - {m})
    case _ => s
  }

  function CommandStep(s: State, max: nat, t: nat): State
    requires t in s.agents
  {
    Effect(s, s.agents[t]).(agents := s.agents[t := NextStage(s, max, s.agents[t])])
  }

  function CrashStep(s: State, t: nat): State
    requires t in s.agents
  {
    s.(agents := s.agents - {t},
       lost := if InHand(s.agents[t]) then s.lost + {s.agents[t].m} else s.lost)
  }

  function Do(s: State, max: nat, e: Event): State {
    match e
    case Publish => s.(main := [s.next] + s.main, next := s.next + 1)
    case Take(t) => if t in s.agents || s.main == [] then s else TakeStep(s, t)
    case Stamp(t, now) =>
      if t in s.agents && s.agents[t].Taken? then StampStep(s, t, s.agents[t].m, now) else s
    case Deliver(t, now) =>
      if t in s.agents || s.main == [] then s else StampStep(TakeStep(s, t), t, s.main[0], now)
    case AckRemove(t) => if t in s.agents && s.agents[t].Holding? then AckStep(s, t, s.agents[t].m) else s
    case NackRemove(t, requeue) =>
      if t in s.agents && s.agents[t].Holding? then NackStep(s, t, s.agents[t].m, requeue) else s
    case ReaperList(t, now, olderThan) =>
      if t in s.agents then s else Goto(s, t, Scanning(Reaper(s.processing, now, olderThan)))
    case Command(t) => if t in s.agents then CommandStep(s, max, t) else s
    case Crash(t) => if t in s.agents then CrashStep(s, t) else s
  }

  function Run(max: nat, events: seq<Event>): State {
    if events == [] then START else Do(Run(max, events[..|events| - 1]), max, events[|events| - 1])
  }

  // ----- where a message is -----

  predicate Carries(stage: Stage, m: nat) { InHand(stage) && stage.m == m }

  function Hands(s: State, m: nat): set<nat> {
    set t | t in s.agents && Carries(s.agents[t], m)
  }

  /** The copies of a message anywhere: on the three lists and in hand. */
  function Copies(s: State, m: nat): nat {
    multiset(s.main)[m] + multiset(s.processing)[m] + multiset(s.dlq)[m] + |Hands(s, m)|
  }

  /** One copy, or one way it left; nothing of what was never published. */
  predicate Accounted(s: State, m: nat) {
    Copies(s, m) + (if m in s.acked then 1 else 0) + (if m in s.lost then 1 else 0)
    == if m < s.next then 1 else 0
  }

  ghost predicate Conserves(s: State) {
    forall m :: Accounted(s, m)
  }

  // ----- conservation -----

  lemma WithAndWithout(a: set<nat>, x: nat)
    ensures |a| == |a - {x}| + (if x in a then 1 else 0)
  {
    if x in a {
      assert a == (a - {x}) + {x};
    } else {
      assert a == a - {x};
    }
  }

  lemma HandsAfterGoto(s: State, s': State, t: nat, stage: Stage, m: nat)
    requires s'.agents == s.agents[t := stage]
    ensures |Hands(s', m)| == |Hands(s, m)| - (if t in s.agents && Carries(s.agents[t], m) then 1 else 0)
                              + (if Carries(stage, m) then 1 else 0)
  {
    assert Hands(s', m) - {t} == Hands(s, m) - {t};
    WithAndWithout(Hands(s, m), t);
    WithAndWithout(Hands(s', m), t);
    assert t in Hands(s', m) <==> Carries(stage, m);
  }

  lemma {:induction false} RemovedOnce(s: seq<nat>, m: nat)
    ensures m in s ==> multiset(RemoveOne(s, m)) == multiset(s) - multiset{m}
    ensures m !in s ==> RemoveOne(s, m) == s
  {
    if s == [] {
    } else {
      assert s == [s[0]] + s[1..];
      if s[0] != m {
        RemovedOnce(s[1..], m);
      }
    }
  }

  lemma TakeConserves(s: State, t: nat, m: nat)
    requires Accounted(s, m) && t !in s.agents && s.main != []
    ensures Accounted(TakeStep(s, t), m)
  {
    HandsAfterGoto(s, TakeStep(s, t), t, Taken(s.main[0]), m);
    assert s.main == [s.main[0]] + s.main[1..];
  }

  lemma StampConserves(s: State, t: nat, taken: nat, now: real, m: nat)
    requires Accounted(s, m) && t in s.agents && !InHand(s.agents[t])
    ensures Accounted(StampStep(s, t, taken, now), m)
  {
    HandsAfterGoto(s, StampStep(s, t, taken, now), t, Holding(taken), m);
  }

  lemma DeliverConserves(s: State, t: nat, now: real, m: nat)
    requires Accounted(s, m) && t !in s.agents && s.main != []
    ensures Accounted(StampStep(TakeStep(s, t), t, s.main[0], now), m)
  {
    TakeConserves(s, t, m);
    StampConserves(TakeStep(s, t), t, s.main[0], now, m);
  }

  /** A message leaves the processing list into an agent's hand, or for good. */
  lemma RemovalConserves(s: State, s': State, t: nat, x: nat, stage: Stage, m: nat)
    requires Accounted(s, m) && t in s.agents && !InHand(s.agents[t])
    requires x in s.processing && s'.processing == RemoveOne(s.processing, x)
    requires s'.agents == s.agents[t := stage]
    requires s'.main == s.main && s'.dlq == s.dlq && s'.next == s.next && s'.lost == s.lost
    requires if InHand(stage) then stage.m == x && s'.acked == s.acked else s'.acked == s.acked + {x}
    ensures Accounted(s', m)
  {
    HandsAfterGoto(s, s', t, stage, m);
    RemovedOnce(s.processing, x);
    assert x in multiset(s.processing);
  }

  /** A message leaves an agent's hand for the dead-letter list or for main. */
  lemma PushConserves(s: State, s': State, t: nat, stage: Stage, m: nat)
    requires Accounted(s, m) && t in s.agents && InHand(s.agents[t]) && !InHand(stage)
    requires s'.agents == s.agents[t := stage]
    requires s'.processing == s.processing && s'.next == s.next && s'.lost == s.lost && s'.acked == s.acked
    requires var x := s.agents[t].m;
      (s'.main == s.main && s'.dlq == [x] + s.dlq) || (s'.main == s.main + [x] && s'.dlq == s.dlq)
    ensures Accounted(s', m)
  {
    HandsAfterGoto(s, s', t, stage, m);
  }

  /** Nothing moves between the lists and the hands. */
  lemma StayConserves(s: State, s': State, t: nat, stage: Stage, m: nat)
    requires Accounted(s, m)
    requires s'.agents == s.agents[t := stage]
    requires if t in s.agents && InHand(s.agents[t]) then InHand(stage) && stage.m == s.agents[t].m else !InHand(stage)
    requires s'.main == s.main && s'.processing == s.processing && s'.dlq == s.dlq
    requires s'.next == s.next && s'.lost == s.lost && s'.acked == s.acked
    ensures Accounted(s', m)
  {
    HandsAfterGoto(s, s', t, stage, m);
  }

  lemma AckConserves(s: State, t: nat, x: nat, m: nat)
    requires Accounted(s, m) && t in s.agents && s.agents[t] == Holding(x)
    ensures Accounted(AckStep(s, t, x), m)
  {
    if x in s.processing {
      RemovalConserves(s, AckStep(s, t, x), t, x, Clearing(x, true, Worker), m);
    } else {
      StayConserves(s, AckStep(s, t, x), t, Clearing(x, true, Worker), m);
    }
  }

  lemma NackConserves(s: State, t: nat, x: nat, requeue: bool, m: nat)
    requires Accounted(s, m) && t in s.agents && s.agents[t] == Holding(x) && x in s.processing
    ensures Accounted(NackStep(s, t, x, requeue), m)
  {
    RemovalConserves(s, NackStep(s, t, x, requeue), t, x, Removed(x, requeue, Worker), m);
  }

  lemma CommandConserves(s: State, max: nat, t: nat, m: nat)
    requires Accounted(s, m) && t in s.agents
    ensures Accounted(CommandStep(s, max, t), m)
  {
    var s', stage, next := CommandStep(s, max, t), s.agents[t], NextStage(s, max, s.agents[t]);
    if stage.Stale? && stage.m in s.processing {
      RemovalConserves(s, s', t, stage.m, next, m);
    } else if stage.ToDlq? || stage.ToMain? {
      PushConserves(s, s', t, next, m);
    } else {
      StayConserves(s, s', t, next, m);
    }
  }

  lemma CrashConserves(s: State, t: nat, m: nat)
    requires Accounted(s, m) && t in s.agents
    requires InHand(s.agents[t]) ==> Accounted(s, s.agents[t].m)
    ensures Accounted(CrashStep(s, t), m)
  {
    var s', stage := CrashStep(s, t), s.agents[t];
    assert Hands(s', m) == Hands(s, m) - {t};
    assert t in Hands(s, m) <==> InHand(stage) && stage.m == m;
    if InHand(stage) && stage.m == m {
      assert |Hands(s, m)| == |Hands(s, m) - {t}| + 1;
    }
  }

  lemma PublishConserves(s: State, m: nat)
    requires Accounted(s, m)
    ensures Accounted(Do(s, 0, Publish), m)
  {
    assert Hands(Do(s, 0, Publish), m) == Hands(s, m);
  }

  lemma DoConserves(s: State, max: nat, e: Event, m: nat)
    requires Conserves(s)
    ensures Accounted(Do(s, max, e), m)
  {
    assert Accounted(s, m);
    match e
    case Publish => PublishConserves(s, m);
    case Take(t) => if t !in s.agents && s.main != [] { TakeConserves(s, t, m); }
    case Stamp(t, now) =>
      if t in s.agents && s.agents[t].Taken? { StampConserves(s, t, s.agents[t].m, now, m); }
    case Deliver(t, now) => if t !in s.agents && s.main != [] { DeliverConserves(s, t, now, m); }
    case AckRemove(t) =>
      if t in s.agents && s.agents[t].Holding? {
        AckConserves(s, t, s.agents[t].m, m);
      }
    case NackRemove(t, requeue) =>
      if t in s.agents && s.agents[t].Holding? && s.agents[t].m in s.processing {
        NackConserves(s, t, s.agents[t].m, requeue, m);
      }
    case ReaperList(t, now, olderThan) =>
      if t !in s.agents {
        var listed := Scanning(Reaper(s.processing, now, olderThan));
        StayConserves(s, Goto(s, t, listed), t, listed, m);
      }
    case Command(t) => if t in s.agents { CommandConserves(s, max, t, m); }
    case Crash(t) =>
      if t in s.agents {
        assert InHand(s.agents[t]) ==> Accounted(s, s.agents[t].m);
        CrashConserves(s, t, m);
      }
  }

  lemma {:induction false} RunConserves(max: nat, events: seq<Event>)
    ensures Conserves(Run(max, events))
  {
    if events == [] {
      forall m ensures Accounted(START, m) {
        assert Hands(START, m) == {};
      }
    } else {
      var s := Run(max, events[..|events| - 1]);
      RunConserves(max, events[..|events| - 1]);
      forall m ensures Accounted(Run(max, events), m) {
        DoConserves(s, max, events[|events| - 1], m);
      }
    }
  }

  /** Every message ever published is, in every reachable state, in exactly one
      place: one copy on main, processing, dead-letter or in hand, or gone by an
      acknowledgement that removed it, or by a crash with it in hand. */
  lemma {:induction false} MessagesAreConserved(max: nat, events: seq<Event>, m: nat)
    ensures var s := Run(max, events);
      Copies(s, m) + (if m in s.acked then 1 else 0) + (if m in s.lost then 1 else 0)
      == if m < s.next then 1 else 0
  {
    RunConserves(max, events);
    assert Accounted(Run(max, events), m);
  }

  lemma OnlyCrashesLose(s: State, max: nat, e: Event)
    ensures !e.Crash? ==> Do(s, max, e).lost == s.lost
    ensures e.Crash? ==>
      Do(s, max, e).lost == s.lost + (if e.t in s.agents && InHand(s.agents[e.t]) then {s.agents[e.t].m} else {})
  {
    if e.Command? && e.t in s.agents {
      assert CommandStep(s, max, e.t).lost == s.lost;
    }
  }

  /** The i-th event is the crash of an agent with this message in its hand. */
  predicate DropsAt(max: nat, events: seq<Event>, m: nat, i: nat)
    requires i < |events|
  {
    var s := Run(max, events[..i]);
    events[i].Crash? && events[i].t in s.agents && Carries(s.agents[events[i].t], m)
  }

  lemma {:induction false} LostByCrash(max: nat, events: seq<Event>, m: nat)
    ensures m in Run(max, events).lost <==> exists i :: 0 <= i < |events| && DropsAt(max, events, m, i)
  {
    if events == [] {
    } else {
      var n, front := |events| - 1, events[..|events| - 1];
      LostByCrash(max, front, m);
      OnlyCrashesLose(Run(max, front), max, events[n]);
      forall i | 0 <= i < n ensures DropsAt(max, front, m, i) == DropsAt(max, events, m, i) {
        assert front[..i] == events[..i];
      }
      assert m in Run(max, events).lost <==> m in Run(max, front).lost || DropsAt(max, events, m, n);
    }
  }

  /** A published message is gone without an acknowledgement exactly when an
      agent crashed between removing and pushing it. */
  lemma {:induction false} LostExactlyByCrashInHand(max: nat, events: seq<Event>, m: nat)
    requires m < Run(max, events).next
    ensures var s := Run(max, events);
      Copies(s, m) == 0 && m !in s.acked <==> exists i :: 0 <= i < |events| && DropsAt(max, events, m, i)
  {
    LostByCrash(max, events, m);
    MessagesAreConserved(max, events, m);
  }
}
