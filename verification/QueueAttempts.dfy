/** Attempt counting: the counter is right exactly when no acknowledgement deletes
    it while its message is still live; the delivery cap then holds if stamps are
    in time, and runs show that it needs both. */
module QueueAttempts {
  import opened QueueSteps

  function Attempts(s: State, m: nat): nat { Count(s.attempts, m) }

  function Deliveries(s: State, m: nat): nat { Count(s.deliveries, m) }

  /** What a run is asked to keep: the counters of live messages right; also the
      cap; also a stamp on everything that was delivered. */
  datatype Claim = Accuracy | Cap | CapAndStamp

  /** The counter is the number of deliveries since publication, in the claimed range. */
  predicate Counts(s: State, claim: Claim, m: nat, low: nat, cap: int) {
    && Attempts(s, m) == Deliveries(s, m)
    && (claim != Accuracy ==> Attempts(s, m) <= cap)
    && (claim == CapAndStamp ==> low <= Attempts(s, m))
  }

  predicate MessageOk(s: State, max: nat, claim: Claim, m: nat) {
    && (m in s.main ==> Counts(s, claim, m, 0, max - 1) && m !in s.refused)
    && (m in s.processing ==> Counts(s, claim, m, 1, max) && m !in s.refused)
    && (m >= s.next ==> m !in s.attempts && Deliveries(s, m) == 0 && m !in s.refused)
    && (claim != Accuracy ==> Deliveries(s, m) <= max)
  }

  predicate AgentOk(s: State, max: nat, claim: Claim, stage: Stage) {
    match stage
    case Taken(m) =>
      m < s.next && claim != CapAndStamp && (claim == Cap ==> m in s.processing && Attempts(s, m) < max)
    case Holding(m) => Deliveries(s, m) >= 1
    case Stale(_, owner) => owner.Reaper?
    case Removed(m, requeue, owner) =>
      && Counts(s, claim, m, 1, max) && (requeue <==> m !in s.refused)
      && (!requeue || owner.Worker? ==> Deliveries(s, m) >= 1)
    case ToDlq(m, _) => Counts(s, claim, m, 1, max) && Deliveries(s, m) >= 1
    case ToClearStamp(m) =>
      Counts(s, claim, m, 1, max - 1) && m !in s.refused && Deliveries(s, m) >= 1
    case ToMain(m, owner) =>
      Counts(s, claim, m, 1, max - 1) && m !in s.refused && (owner.Worker? ==> Deliveries(s, m) >= 1)
    case Clearing(m, attemptsToo, owner) => attemptsToo || owner.Worker? ==> Deliveries(s, m) >= 1
    case _ => true
  }

  predicate TakenBy(s: State, t: nat, m: nat) { t in s.agents && s.agents[t] == Taken(m) }

  ghost predicate Inv(s: State, max: nat, claim: Claim) {
    && Conserves(s)
    && (forall m :: MessageOk(s, max, claim, m))
    && (forall t :: t in s.agents ==> AgentOk(s, max, claim, s.agents[t]))
    && (claim == Cap ==> forall t, u, m :: TakenBy(s, t, m) && TakenBy(s, u, m) ==> t == u)
  }

  predicate Live(s: State, m: nat) { m in s.main || m in s.processing || Hands(s, m) != {} }

  /** The command deletes the attempt counter of a message still to be delivered
      or settled. */
  predicate ResetsLive(s: State, e: Event) {
    && e.Command? && e.t in s.agents && s.agents[e.t].Clearing? && s.agents[e.t].attemptsToo
    && Live(s, s.agents[e.t].m)
  }

  predicate TakesOff(max: nat, s: State, e: Event, m: nat) {
    m in s.processing && m !in Do(s, max, e).processing
  }

  /** The step takes a message off processing before the worker that took it from
      main has stamped the delivery. */
  predicate RemovesUnstamped(max: nat, s: State, e: Event) {
    exists t :: t in s.agents && s.agents[t].Taken? && TakesOff(max, s, e, s.agents[t].m)
  }

  predicate AtomicDeliveries(events: seq<Event>) { forall e :: e in events ==> !e.Take? && !e.Stamp? }

  predicate NoLiveReset(max: nat, events: seq<Event>) {
    events == [] ||
    (NoLiveReset(max, events[..|events| - 1])
     && !ResetsLive(Run(max, events[..|events| - 1]), events[|events| - 1]))
  }

  /** A message stays on processing from its take to its stamp. */
  predicate StampsInTime(max: nat, events: seq<Event>) {
    events == [] ||
    (StampsInTime(max, events[..|events| - 1])
     && !RemovesUnstamped(max, Run(max, events[..|events| - 1]), events[|events| - 1]))
  }

  ghost predicate Accurate(s: State) {
    forall m :: Live(s, m) ==> Attempts(s, m) == Deliveries(s, m)
  }

  /** After every event of the run, the counters of live messages are right. */
  ghost predicate AccurateThroughout(max: nat, events: seq<Event>) {
    Accurate(Run(max, events)) && (events == [] || AccurateThroughout(max, events[..|events| - 1]))
  }

  /** A message is in one place only. */
  lemma OnePlace(s: State, m: nat)
    requires Conserves(s)
    ensures m in s.main ==>
      m < s.next && m !in s.processing && m !in s.dlq && m !in s.acked && m !in s.lost && Hands(s, m) == {}
    ensures m in s.processing ==>
      m < s.next && m !in s.dlq && m !in s.acked && m !in s.lost && Hands(s, m) == {}
    ensures m in s.dlq ==> m < s.next && m !in s.acked && m !in s.lost && Hands(s, m) == {}
    ensures m in s.acked ==> m < s.next && Hands(s, m) == {}
    ensures Hands(s, m) != {} ==> m < s.next && |Hands(s, m)| == 1
  {
    assert Accounted(s, m);
    assert m in s.main <==> multiset(s.main)[m] > 0;
    assert m in s.processing <==> multiset(s.processing)[m] > 0;
    assert m in s.dlq <==> multiset(s.dlq)[m] > 0;
  }

  lemma InOneHand(s: State, t: nat)
    requires Conserves(s) && t in s.agents && InHand(s.agents[t])
    ensures var m := s.agents[t].m;
      m < s.next && m !in s.main && m !in s.processing && m !in s.dlq && m !in s.acked && m !in s.lost
  {
    var m := s.agents[t].m;
    assert t in Hands(s, m);
    OnePlace(s, m);
    assert Accounted(s, m) && |Hands(s, m)| >= 1;
  }

  lemma TakeKeepsInv(s: State, max: nat, claim: Claim, t: nat)
    requires Inv(s, max, claim) && t !in s.agents && s.main != [] && max >= 1 && claim != CapAndStamp
    requires Conserves(TakeStep(s, t))
    ensures Inv(TakeStep(s, t), max, claim)
  {
    var s', x := TakeStep(s, t), s.main[0];
    OnePlace(s, x);
    OnePlace(s', x);
    assert x in s.main && MessageOk(s, max, claim, x);
    forall m ensures MessageOk(s', max, claim, m) {
      assert MessageOk(s, max, claim, m);
      assert m in s'.processing <==> m in s.processing || m == x;
      assert m in s'.main ==> m in s.main;
    }
    forall u | u in s'.agents ensures AgentOk(s', max, claim, s'.agents[u]) {
      if u != t { assert AgentOk(s, max, claim, s.agents[u]); }
    }
    forall u, v, m | claim == Cap && TakenBy(s', u, m) && TakenBy(s', v, m) ensures u == v {
      assert u != t ==> TakenBy(s, u, m) && AgentOk(s, max, claim, s.agents[u]);
      assert v != t ==> TakenBy(s, v, m) && AgentOk(s, max, claim, s.agents[v]);
    }
  }

  lemma StampKeepsMessage(s: State, max: nat, claim: Claim, t: nat, x: nat, now: real, m: nat)
    requires Inv(s, max, claim) && TakenBy(s, t, x)
    ensures MessageOk(StampStep(s, t, x, now), max, claim, m)
  {
    OnePlace(s, x);
    assert AgentOk(s, max, claim, s.agents[t]) && MessageOk(s, max, claim, m);
  }

  lemma StampKeepsAgent(s: State, max: nat, claim: Claim, t: nat, x: nat, now: real, u: nat)
    requires Inv(s, max, claim) && TakenBy(s, t, x) && u in s.agents && u != t
    ensures AgentOk(StampStep(s, t, x, now), max, claim, s.agents[u])
  {
    assert AgentOk(s, max, claim, s.agents[t]) && AgentOk(s, max, claim, s.agents[u]);
    assert s.agents[u] == Taken(x) ==> TakenBy(s, u, x);
    if InHand(s.agents[u]) { InOneHand(s, u); }
  }

  /** Takers after a step that makes none: still at most one a message. */
  lemma OnlyOneTook(s: State, s': State, max: nat, claim: Claim, t: nat)
    requires Inv(s, max, claim) && forall u :: u in s'.agents && u != t ==> u in s.agents && s'.agents[u] == s.agents[u]
    requires t in s'.agents && s'.agents[t].Taken? ==> t in s.agents && s'.agents[t] == s.agents[t]
    ensures claim == Cap ==> forall u, v, m :: TakenBy(s', u, m) && TakenBy(s', v, m) ==> u == v
  {
    forall u, v, m | claim == Cap && TakenBy(s', u, m) && TakenBy(s', v, m) ensures u == v {
      assert TakenBy(s, u, m) && TakenBy(s, v, m);
    }
  }

  lemma StampKeepsInv(s: State, max: nat, claim: Claim, t: nat, x: nat, now: real)
    requires Inv(s, max, claim) && TakenBy(s, t, x) && max >= 1
    requires Conserves(StampStep(s, t, x, now))
    ensures Inv(StampStep(s, t, x, now), max, claim)
  {
    var s' := StampStep(s, t, x, now);
    forall m ensures MessageOk(s', max, claim, m) {
      StampKeepsMessage(s, max, claim, t, x, now, m);
    }
    forall u | u in s'.agents ensures AgentOk(s', max, claim, s'.agents[u]) {
      if u != t { StampKeepsAgent(s, max, claim, t, x, now, u); }
    }
    OnlyOneTook(s, s', max, claim, t);
  }

  lemma DeliverKeepsMessage(s: State, max: nat, claim: Claim, t: nat, now: real, m: nat)
    requires Inv(s, max, claim) && t !in s.agents && s.main != []
    requires Conserves(Do(s, max, Deliver(t, now)))
    ensures MessageOk(Do(s, max, Deliver(t, now)), max, claim, m)
  {
    var s', x := Do(s, max, Deliver(t, now)), s.main[0];
    OnePlace(s, x);
    OnePlace(s', x);
    assert x in s.main && MessageOk(s, max, claim, x) && MessageOk(s, max, claim, m);
    assert m in s'.processing <==> m in s.processing || m == x;
    assert m in s'.main ==> m in s.main;
  }

  lemma DeliverKeepsAgent(s: State, max: nat, claim: Claim, t: nat, now: real, u: nat)
    requires Inv(s, max, claim) && t !in s.agents && s.main != [] && u in s.agents
    ensures AgentOk(Do(s, max, Deliver(t, now)), max, claim, s.agents[u])
  {
    var s', x := Do(s, max, Deliver(t, now)), s.main[0];
    OnePlace(s, x);
    assert AgentOk(s, max, claim, s.agents[u]);
    if InHand(s.agents[u]) { InOneHand(s, u); }
    assert s'.refused == s.refused && s'.next == s.next && s'.processing == s.processing + [x];
    assert forall m :: m != x ==> Attempts(s', m) == Attempts(s, m);
    assert forall m :: Deliveries(s', m) >= Deliveries(s, m);
    assert forall m :: m != x ==> Deliveries(s', m) == Deliveries(s, m);
  }

  lemma DeliverKeepsInv(s: State, max: nat, claim: Claim, t: nat, now: real)
    requires Inv(s, max, claim) && t !in s.agents && s.main != [] && max >= 1
    requires Conserves(Do(s, max, Deliver(t, now)))
    ensures Inv(Do(s, max, Deliver(t, now)), max, claim)
  {
    var s' := Do(s, max, Deliver(t, now));
    forall m ensures MessageOk(s', max, claim, m) {
      DeliverKeepsMessage(s, max, claim, t, now, m);
    }
    forall u | u in s'.agents ensures AgentOk(s', max, claim, s'.agents[u]) {
      if u != t { DeliverKeepsAgent(s, max, claim, t, now, u); }
    }
    OnlyOneTook(s, s', max, claim, t);
  }

  lemma StillThere(s: State, s': State, x: nat)
    requires Conserves(s) && x in s.processing && s'.processing == RemoveOne(s.processing, x)
    ensures forall m :: m in s'.processing <==> m in s.processing && m != x
  {
    RemovedOnce(s.processing, x);
    OnePlace(s, x);
    assert Accounted(s, x) && multiset(s'.processing)[x] == 0;
    forall m ensures m in s'.processing <==> m in s.processing && m != x {
      assert m in multiset(s'.processing) <==> m in s'.processing;
      assert m in multiset(s.processing) <==> m in s.processing;
    }
  }

  /** The message leaves processing with its counter intact. */
  lemma RemovalKeepsInv(s: State, s': State, max: nat, claim: Claim, t: nat, x: nat, stage: Stage)
    requires Inv(s, max, claim) && Conserves(s') && x in s.processing && max >= 1
    requires s'.processing == RemoveOne(s.processing, x)
    requires s'.agents == s.agents[t := stage] && AgentOk(s', max, claim, stage) && !stage.Taken?
    requires s'.main == s.main && s'.dlq == s.dlq && s'.next == s.next
    requires s'.attempts == s.attempts && s'.deliveries == s.deliveries
    requires s.acked <= s'.acked
    requires s'.refused == s.refused || (s'.refused == s.refused + {x} && Carries(stage, x))
    requires claim == Cap ==> forall u :: !TakenBy(s, u, x)
    ensures Inv(s', max, claim)
  {
    StillThere(s, s', x);
    OnePlace(s, x);
    forall m ensures MessageOk(s', max, claim, m) {
      assert MessageOk(s, max, claim, m);
    }
    forall u | u in s'.agents ensures AgentOk(s', max, claim, s'.agents[u]) {
      if u != t {
        assert AgentOk(s, max, claim, s.agents[u]);
        assert s.agents[u].Taken? ==> TakenBy(s, u, s.agents[u].m);
        if InHand(s.agents[u]) { InOneHand(s, u); }
      }
    }
    OnlyOneTook(s, s', max, claim, t);
  }

  /** Nobody has taken, and not yet stamped, a message that the step removes. */
  lemma NobodyTook(s: State, max: nat, e: Event, x: nat)
    requires Conserves(s) && x in s.processing && !RemovesUnstamped(max, s, e)
    requires Do(s, max, e).processing == RemoveOne(s.processing, x)
    ensures forall u :: !TakenBy(s, u, x)
  {
    StillThere(s, Do(s, max, e), x);
    forall u ensures !TakenBy(s, u, x) {
      assert TakesOff(max, s, e, x);
    }
  }

  lemma PushKeepsInv(s: State, s': State, max: nat, claim: Claim, t: nat, stage: Stage)
    requires Inv(s, max, claim) && Conserves(s') && t in s.agents && InHand(s.agents[t]) && !InHand(stage) && max >= 1
    requires var x := s.agents[t].m;
      if s.agents[t].ToDlq? then s'.main == s.main && s'.dlq == [x] + s.dlq
      else s.agents[t].ToMain? && s'.main == s.main + [x] && s'.dlq == s.dlq
    requires s' == s.(main := s'.main, dlq := s'.dlq, agents := s.agents[t := stage])
    requires AgentOk(s', max, claim, stage) && !stage.Taken?
    ensures Inv(s', max, claim)
  {
    var x := s.agents[t].m;
    assert AgentOk(s, max, claim, s.agents[t]);
    forall m ensures MessageOk(s', max, claim, m) {
      assert MessageOk(s, max, claim, m);
    }
    forall u | u in s'.agents ensures AgentOk(s', max, claim, s'.agents[u]) {
      if u != t { assert AgentOk(s, max, claim, s.agents[u]); }
    }
    OnlyOneTook(s, s', max, claim, t);
  }

  /** Only agents and delivery stamps differ. */
  predicate SameBooks(s: State, s': State) { s' == s.(agents := s'.agents, received := s'.received) }

  lemma SameBooksSameAgents(s: State, s': State, max: nat, claim: Claim, stage: Stage)
    requires SameBooks(s, s')
    ensures AgentOk(s, max, claim, stage) <==> AgentOk(s', max, claim, stage)
  {
  }

  /** Lists, counters and history as they were: only an agent moves, and a
      delivery stamp may change. */
  lemma StayKeepsInv(s: State, s': State, max: nat, claim: Claim, t: nat, stage: Stage)
    requires Inv(s, max, claim) && Conserves(s') && AgentOk(s, max, claim, stage)
    requires stage.Taken? ==> t in s.agents && s.agents[t] == stage
    requires s' == s.(agents := s.agents[t := stage], received := s'.received)
    ensures Inv(s', max, claim)
  {
    forall m ensures MessageOk(s', max, claim, m) {
      assert MessageOk(s, max, claim, m);
    }
    forall u | u in s'.agents ensures AgentOk(s', max, claim, s'.agents[u]) {
      SameBooksSameAgents(s, s', max, claim, s'.agents[u]);
    }
    OnlyOneTook(s, s', max, claim, t);
  }

  /** Deleting the counter of a settled message disturbs no live one. */
  lemma ClearKeepsInv(s: State, s': State, max: nat, claim: Claim, t: nat, x: nat, stage: Stage)
    requires Inv(s, max, claim) && Conserves(s') && AgentOk(s', max, claim, stage)
    requires !InHand(stage) && !stage.Taken? && !Live(s, x)
    requires s' == s.(agents := s.agents[t := stage], attempts := s.attempts - {x})
    ensures Inv(s', max, claim)
  {
    forall m ensures MessageOk(s', max, claim, m) {
      assert MessageOk(s, max, claim, m);
    }
    forall u | u in s'.agents ensures AgentOk(s', max, claim, s'.agents[u]) {
      if u != t {
        assert AgentOk(s, max, claim, s.agents[u]);
        assert InHand(s.agents[u]) && s.agents[u].m == x ==> u in Hands(s, x);
      }
    }
    OnlyOneTook(s, s', max, claim, t);
  }

  lemma ReclaimKeepsInv(s: State, max: nat, claim: Claim, t: nat)
    requires Inv(s, max, claim) && t in s.agents && max >= 1
    requires s.agents[t].Stale? && s.agents[t].m in s.processing
    requires claim == Cap ==> !RemovesUnstamped(max, s, Command(t))
    requires Conserves(CommandStep(s, max, t))
    ensures Inv(CommandStep(s, max, t), max, claim)
  {
    var x, owner := s.agents[t].m, s.agents[t].owner;
    assert AgentOk(s, max, claim, s.agents[t]) && MessageOk(s, max, claim, x);
    if claim == Cap { NobodyTook(s, max, Command(t), x); }
    RemovalKeepsInv(s, CommandStep(s, max, t), max, claim, t, x, Removed(x, true, owner));
  }

  lemma PushCommandKeepsInv(s: State, max: nat, claim: Claim, t: nat)
    requires Inv(s, max, claim) && t in s.agents && max >= 1 && (s.agents[t].ToDlq? || s.agents[t].ToMain?)
    requires Conserves(CommandStep(s, max, t))
    ensures Inv(CommandStep(s, max, t), max, claim)
  {
    var stage := s.agents[t];
    assert AgentOk(s, max, claim, stage);
    PushKeepsInv(s, CommandStep(s, max, t), max, claim, t, NextStage(s, max, stage));
  }

  lemma CommandKeepsInv(s: State, max: nat, claim: Claim, t: nat)
    requires Inv(s, max, claim) && t in s.agents && max >= 1 && !ResetsLive(s, Command(t))
    requires claim == Cap ==> !RemovesUnstamped(max, s, Command(t))
    requires Conserves(CommandStep(s, max, t))
    ensures Inv(CommandStep(s, max, t), max, claim)
  {
    var s', stage, next := CommandStep(s, max, t), s.agents[t], NextStage(s, max, s.agents[t]);
    assert AgentOk(s, max, claim, stage);
    if stage.Stale? && stage.m in s.processing {
      ReclaimKeepsInv(s, max, claim, t);
    } else if stage.ToDlq? || stage.ToMain? {
      PushCommandKeepsInv(s, max, claim, t);
    } else if stage.Clearing? && stage.attemptsToo {
      ClearKeepsInv(s, s', max, claim, t, stage.m, next);
    } else {
      StayKeepsInv(s, s', max, claim, t, next);
    }
  }

  lemma PublishKeepsInv(s: State, max: nat, claim: Claim)
    requires Inv(s, max, claim) && max >= 1 && Conserves(Do(s, max, Publish))
    ensures Inv(Do(s, max, Publish), max, claim)
  {
    var s' := Do(s, max, Publish);
    forall m ensures MessageOk(s', max, claim, m) {
      assert MessageOk(s, max, claim, m);
      OnePlace(s, m);
    }
    forall u | u in s'.agents ensures AgentOk(s', max, claim, s'.agents[u]) {
      assert AgentOk(s, max, claim, s.agents[u]);
    }
    OnlyOneTook(s, s', max, claim, 0);
  }

  lemma CrashKeepsInv(s: State, max: nat, claim: Claim, t: nat)
    requires Inv(s, max, claim) && t in s.agents && Conserves(CrashStep(s, t))
    ensures Inv(CrashStep(s, t), max, claim)
  {
    var s' := CrashStep(s, t);
    forall m ensures MessageOk(s', max, claim, m) {
      assert MessageOk(s, max, claim, m);
    }
    forall u | u in s'.agents ensures AgentOk(s', max, claim, s'.agents[u]) {
      assert AgentOk(s, max, claim, s.agents[u]);
    }
    OnlyOneTook(s, s', max, claim, t);
  }

  lemma AckKeepsInv(s: State, max: nat, claim: Claim, t: nat, x: nat)
    requires Inv(s, max, claim) && t in s.agents && s.agents[t] == Holding(x) && max >= 1
    requires claim == Cap ==> !RemovesUnstamped(max, s, AckRemove(t))
    requires Conserves(AckStep(s, t, x))
    ensures Inv(AckStep(s, t, x), max, claim)
  {
    assert AgentOk(s, max, claim, s.agents[t]) && MessageOk(s, max, claim, x);
    if x in s.processing {
      if claim == Cap { NobodyTook(s, max, AckRemove(t), x); }
      RemovalKeepsInv(s, AckStep(s, t, x), max, claim, t, x, Clearing(x, true, Worker));
    } else {
      StayKeepsInv(s, AckStep(s, t, x), max, claim, t, Clearing(x, true, Worker));
    }
  }

  lemma NackKeepsInv(s: State, max: nat, claim: Claim, t: nat, x: nat, requeue: bool)
    requires Inv(s, max, claim) && t in s.agents && s.agents[t] == Holding(x) && max >= 1 && x in s.processing
    requires claim == Cap ==> !RemovesUnstamped(max, s, NackRemove(t, requeue))
    requires Conserves(NackStep(s, t, x, requeue))
    ensures Inv(NackStep(s, t, x, requeue), max, claim)
  {
    assert AgentOk(s, max, claim, s.agents[t]) && MessageOk(s, max, claim, x);
    if claim == Cap { NobodyTook(s, max, NackRemove(t, requeue), x); }
    RemovalKeepsInv(s, NackStep(s, t, x, requeue), max, claim, t, x, Removed(x, requeue, Worker));
  }

  lemma DoKeepsInv(s: State, max: nat, claim: Claim, e: Event)
    requires Inv(s, max, claim) && !ResetsLive(s, e) && max >= 1
    requires claim == Cap ==> !RemovesUnstamped(max, s, e)
    requires claim == CapAndStamp ==> !e.Take?
    ensures Inv(Do(s, max, e), max, claim)
  {
    var s' := Do(s, max, e);
    forall m ensures Accounted(s', m) { DoConserves(s, max, e, m); }
    match e
    case Publish => PublishKeepsInv(s, max, claim);
    case Take(t) => if t !in s.agents && s.main != [] { TakeKeepsInv(s, max, claim, t); }
    case Stamp(t, now) =>
      if t in s.agents && s.agents[t].Taken? { StampKeepsInv(s, max, claim, t, s.agents[t].m, now); }
    case Deliver(t, now) => if t !in s.agents && s.main != [] { DeliverKeepsInv(s, max, claim, t, now); }
    case AckRemove(t) =>
      if t in s.agents && s.agents[t].Holding? { AckKeepsInv(s, max, claim, t, s.agents[t].m); }
    case NackRemove(t, requeue) =>
      if t in s.agents && s.agents[t].Holding? && s.agents[t].m in s.processing {
        NackKeepsInv(s, max, claim, t, s.agents[t].m, requeue);
      }
    case ReaperList(t, now, olderThan) =>
      if t !in s.agents { StayKeepsInv(s, s', max, claim, t, s'.agents[t]); }
    case Command(t) => if t in s.agents { CommandKeepsInv(s, max, claim, t); }
    case Crash(t) => if t in s.agents { CrashKeepsInv(s, max, claim, t); }
  }

  lemma {:induction false} RunInv(max: nat, claim: Claim, events: seq<Event>)
    requires NoLiveReset(max, events) && max >= 1
    requires claim == Cap ==> StampsInTime(max, events)
    requires claim == CapAndStamp ==> AtomicDeliveries(events)
    ensures Inv(Run(max, events), max, claim)
  {
    if events == [] {
      RunConserves(max, []);
    } else {
      var front, last := events[..|events| - 1], events[|events| - 1];
      assert last in events && forall e :: e in front ==> e in events;
      RunInv(max, claim, front);
      DoKeepsInv(Run(max, front), max, claim, last);
    }
  }

  lemma LiveIsAccurate(s: State, max: nat)
    requires Inv(s, max, Accuracy)
    ensures Accurate(s)
  {
    forall m | Live(s, m) ensures Attempts(s, m) == Deliveries(s, m) {
      assert MessageOk(s, max, Accuracy, m);
      if Hands(s, m) != {} {
        var t :| t in Hands(s, m);
        assert AgentOk(s, max, Accuracy, s.agents[t]);
      }
    }
  }

  lemma ResetMakesInaccurate(s: State, max: nat, e: Event)
    requires Inv(s, max, Accuracy) && ResetsLive(s, e)
    ensures !Accurate(Do(s, max, e))
  {
    var s', m := Do(s, max, e), s.agents[e.t].m;
    assert AgentOk(s, max, Accuracy, s.agents[e.t]);
    if t :| t in Hands(s, m) {
      assert t in Hands(s', m);
    }
    assert Live(s', m) && Attempts(s', m) == 0 && Deliveries(s', m) >= 1;
  }

  /** Exactly when the attempt counter can be trusted: it equals the number of
      deliveries of every live message throughout a run if and only if no step
      of the run deleted the counter of a live message. */
  lemma {:induction false} CounterAccurateIff(max: nat, events: seq<Event>)
    requires max >= 1
    ensures NoLiveReset(max, events) <==> AccurateThroughout(max, events)
  {
    if events == [] {
      RunInv(max, Accuracy, []);
      LiveIsAccurate(Run(max, []), max);
    } else {
      var front, last := events[..|events| - 1], events[|events| - 1];
      CounterAccurateIff(max, front);
      if NoLiveReset(max, front) {
        RunInv(max, Accuracy, front);
        if ResetsLive(Run(max, front), last) {
          ResetMakesInaccurate(Run(max, front), max, last);
        } else {
          DoKeepsInv(Run(max, front), max, Accuracy, last);
          LiveIsAccurate(Run(max, events), max);
        }
      }
    }
  }

  predicate AckMisses(s: State, e: Event) {
    e.AckRemove? && e.t in s.agents && s.agents[e.t].Holding? && s.agents[e.t].m !in s.processing
  }

  /** A sufficient rule a worker can follow: acknowledge only a delivery that is
      still on the processing list, as its present holder's is. */
  predicate AcksRemove(max: nat, events: seq<Event>) {
    events == [] ||
    (AcksRemove(max, events[..|events| - 1])
     && !AckMisses(Run(max, events[..|events| - 1]), events[|events| - 1]))
  }

  predicate SettledAt(s: State, stage: Stage) {
    stage.Clearing? && stage.attemptsToo ==> stage.m in s.acked || stage.m in s.dlq
  }

  ghost predicate ClearsSettled(s: State) {
    forall t :: t in s.agents ==> SettledAt(s, s.agents[t])
  }

  lemma CommandSettles(s: State, max: nat, t: nat)
    requires t in s.agents && t in CommandStep(s, max, t).agents
    ensures SettledAt(s, s.agents[t]) ==> SettledAt(CommandStep(s, max, t), CommandStep(s, max, t).agents[t])
  {
    assert s.agents[t].ToDlq? ==> CommandStep(s, max, t).dlq[0] == s.agents[t].m;
  }

  lemma AgentSettles(s: State, max: nat, e: Event, t: nat)
    requires !AckMisses(s, e) && t in Do(s, max, e).agents
    requires s.acked <= Do(s, max, e).acked && forall m :: m in s.dlq ==> m in Do(s, max, e).dlq
    requires t in s.agents ==> SettledAt(s, s.agents[t])
    ensures SettledAt(Do(s, max, e), Do(s, max, e).agents[t])
  {
    match e
    case AckRemove(u) =>
      if u in s.agents && s.agents[u].Holding? {
        assert Do(s, max, e).agents == s.agents[u := Clearing(s.agents[u].m, true, Worker)];
      }
    case Command(u) =>
      if u in s.agents && u == t { CommandSettles(s, max, t); }
    case _ =>
  }

  lemma SettlementIsFinal(s: State, max: nat, e: Event)
    ensures s.acked <= Do(s, max, e).acked && forall m :: m in s.dlq ==> m in Do(s, max, e).dlq
  {
    if e.Command? && e.t in s.agents {
      var s' := CommandStep(s, max, e.t);
      var stage := s.agents[e.t];
      assert s'.acked == s.acked;
      if stage.ToDlq? { assert s'.dlq == [stage.m] + s.dlq; } else { assert s'.dlq == s.dlq; }
    }
  }

  lemma SettledStays(s: State, max: nat, e: Event)
    requires ClearsSettled(s) && !AckMisses(s, e)
    ensures ClearsSettled(Do(s, max, e))
  {
    var s' := Do(s, max, e);
    SettlementIsFinal(s, max, e);
    forall t | t in s'.agents ensures SettledAt(s', s'.agents[t]) {
      assert t in s.agents ==> SettledAt(s, s.agents[t]);
      AgentSettles(s, max, e, t);
    }
  }

  lemma {:induction false} RunClearsSettled(max: nat, events: seq<Event>)
    requires AcksRemove(max, events)
    ensures ClearsSettled(Run(max, events))
  {
    if events == [] {
    } else {
      var front := events[..|events| - 1];
      RunClearsSettled(max, front);
      SettledStays(Run(max, front), max, events[|events| - 1]);
    }
  }

  /** If every acknowledgement removes its message, no counter is lost. */
  lemma {:induction false} AcksThatRemoveKeepTheCounter(max: nat, events: seq<Event>)
    requires AcksRemove(max, events)
    ensures NoLiveReset(max, events)
  {
    if events == [] {
    } else {
      var front, e := events[..|events| - 1], events[|events| - 1];
      AcksThatRemoveKeepTheCounter(max, front);
      RunClearsSettled(max, front);
      RunConserves(max, front);
      var s := Run(max, front);
      if e.Command? && e.t in s.agents && s.agents[e.t].Clearing? {
        assert SettledAt(s, s.agents[e.t]);
        OnePlace(s, s.agents[e.t].m);
      }
    }
  }

  /** The cap holds when counters are kept and stamps are in time: below it on
      main, within it on processing, and no message is ever delivered more often. */
  lemma AttemptsStayUnderTheCap(max: nat, events: seq<Event>, m: nat)
    requires NoLiveReset(max, events) && StampsInTime(max, events) && max >= 1
    ensures var s := Run(max, events);
      && (m in s.main ==> Attempts(s, m) == Deliveries(s, m) < max)
      && (m in s.processing ==> Attempts(s, m) == Deliveries(s, m) <= max)
      && (m in s.processing && AtomicDeliveries(events) ==> 1 <= Attempts(s, m))
      && Deliveries(s, m) <= max
  {
    RunInv(max, Cap, events);
    assert MessageOk(Run(max, events), max, Cap, m);
    if AtomicDeliveries(events) {
      RunInv(max, CapAndStamp, events);
      assert MessageOk(Run(max, events), max, CapAndStamp, m);
    }
  }

  predicate NobodyTakes(s: State) { forall t :: t in s.agents ==> !s.agents[t].Taken? }

  lemma AtomicStep(s: State, max: nat, e: Event)
    requires NobodyTakes(s) && !e.Take?
    ensures NobodyTakes(Do(s, max, e))
  {
    if e.Command? && e.t in s.agents {
      assert !NextStage(s, max, s.agents[e.t]).Taken?;
    }
  }

  /** Deliveries that are one step are stamped in time. */
  lemma {:induction false} AtomicIsInTime(max: nat, events: seq<Event>)
    requires AtomicDeliveries(events)
    ensures StampsInTime(max, events) && NobodyTakes(Run(max, events))
  {
    if events == [] {
    } else {
      var front, last := events[..|events| - 1], events[|events| - 1];
      assert last in events && forall e :: e in front ==> e in events;
      AtomicIsInTime(max, front);
      AtomicStep(Run(max, front), max, last);
    }
  }
}
