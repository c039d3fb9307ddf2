/** The delivery cap exactly: whatever workers and reapers do, it holds as long as
    no stamp lands on a message that has had all the deliveries its place allows,
    be it still under way or settled. */
module QueueCap {
  import opened QueueSteps
  import opened QueueAttempts

  /** How many deliveries a message in an agent's hand may have had: one more is
      to come if it is on its way to main. */
  function HandCap(max: nat, stage: Stage): int {
    if stage.ToClearStamp? || stage.ToMain? then max - 1 else max
  }

  /** The cap: no message at all is delivered more often, and one on main or on the
      way there has a delivery left. */
  ghost predicate Capped(s: State, max: nat) {
    && (forall m :: m in s.deliveries ==> Deliveries(s, m) <= max)
    && (forall m :: m in s.main ==> Deliveries(s, m) <= max - 1)
    && (forall t :: t in s.agents && InHand(s.agents[t]) ==>
          Deliveries(s, s.agents[t].m) <= HandCap(max, s.agents[t]))
  }

  ghost predicate CappedThroughout(max: nat, events: seq<Event>) {
    Capped(Run(max, events), max) && (events == [] || CappedThroughout(max, events[..|events| - 1]))
  }

  /** The message has had all the deliveries its place allows: by its counter while
      it is under way; once it is settled, and its counter may be gone, in fact. */
  predicate IsFull(s: State, max: nat, m: nat) {
    || (m in s.main && Attempts(s, m) >= max - 1)
    || (m in s.processing && Attempts(s, m) >= max)
    || (exists t :: t in s.agents && Carries(s.agents[t], m) && Attempts(s, m) >= HandCap(max, s.agents[t]))
    || (!Live(s, m) && Deliveries(s, m) >= max)
  }

  /** A worker stamps the delivery of a message that is full by now. */
  predicate StampsFull(s: State, max: nat, e: Event) {
    e.Stamp? && e.t in s.agents && s.agents[e.t].Taken? && IsFull(s, max, s.agents[e.t].m)
  }

  predicate NoFullStamp(max: nat, events: seq<Event>) {
    events == [] ||
    (NoFullStamp(max, events[..|events| - 1])
     && !StampsFull(Run(max, events[..|events| - 1]), max, events[|events| - 1]))
  }

  lemma HandIsLive(s: State, t: nat)
    requires t in s.agents && InHand(s.agents[t])
    ensures Live(s, s.agents[t].m)
  {
    assert t in Hands(s, s.agents[t].m);
  }

  /** What a message under way that is not full has left. */
  lemma RoomLeft(s: State, max: nat, m: nat)
    requires Accurate(s) && !IsFull(s, max, m)
    ensures Deliveries(s, m) + 1 <= max
  {
    if t :| t in Hands(s, m) {
      assert Carries(s.agents[t], m);
    }
  }

  lemma StampOnFull(s: State, max: nat, t: nat, m: nat, now: real)
    requires Accurate(s) && Capped(s, max) && TakenBy(s, t, m)
    ensures Capped(StampStep(s, t, m, now), max) <==> !IsFull(s, max, m)
  {
    var s' := StampStep(s, t, m, now);
    assert Deliveries(s', m) == Deliveries(s, m) + 1;
    if IsFull(s, max, m) {
      if u :| u in s.agents && Carries(s.agents[u], m) && Attempts(s, m) >= HandCap(max, s.agents[u]) {
        HandIsLive(s, u);
        assert s'.agents[u] == s.agents[u];
      }
    } else {
      RoomLeft(s, max, m);
      forall u | u in s'.agents && InHand(s'.agents[u])
        ensures Deliveries(s', s'.agents[u].m) <= HandCap(max, s'.agents[u])
      {
        HandIsLive(s, u);
        assert Carries(s.agents[u], s.agents[u].m);
      }
    }
  }

  lemma TakeKeepsCapped(s: State, max: nat, t: nat)
    requires Capped(s, max) && t !in s.agents && s.main != []
    ensures Capped(TakeStep(s, t), max)
  {
    var s', x := TakeStep(s, t), s.main[0];
    assert x in s.main;
    assert forall m :: m in s'.main ==> m in s.main;
    assert forall m :: m in s'.processing ==> m in s.processing || m == x;
  }

  lemma DeliverKeepsCapped(s: State, max: nat, t: nat, now: real)
    requires Conserves(s) && Capped(s, max) && t !in s.agents && s.main != []
    requires Conserves(Do(s, max, Deliver(t, now)))
    ensures Capped(Do(s, max, Deliver(t, now)), max)
  {
    var s', x := Do(s, max, Deliver(t, now)), s.main[0];
    OnePlace(s, x);
    OnePlace(s', x);
    assert x in s.main && Deliveries(s', x) == Deliveries(s, x) + 1;
    assert forall m :: m in s'.main ==> m in s.main;
    assert forall m :: m in s'.processing ==> m in s.processing || m == x;
    forall u | u in s'.agents && InHand(s'.agents[u]) ensures s'.agents[u].m != x {
      InOneHand(s, u);
    }
  }

  lemma RemovedFrom(s: seq<nat>, x: nat)
    ensures forall m :: m in RemoveOne(s, x) ==> m in s
  {
    RemovedOnce(s, x);
    forall m | m in RemoveOne(s, x) ensures m in s {
      assert m in multiset(RemoveOne(s, x));
      assert m in multiset(s);
    }
  }

  lemma RemovalKeepsOthers(s: State, stage: Stage)
    ensures forall m :: m in Effect(s, stage).processing ==> m in s.processing
  {
    if stage.Stale? && stage.m in s.processing { RemovedFrom(s.processing, stage.m); }
  }

  /** The attempts read after a removal decide where the message may go. */
  lemma CommandKeepsCapped(s: State, max: nat, t: nat)
    requires Conserves(s) && Accurate(s) && Capped(s, max) && t in s.agents
    ensures Capped(CommandStep(s, max, t), max)
  {
    var s', stage := CommandStep(s, max, t), s.agents[t];
    if InHand(stage) { HandIsLive(s, t); }
    RemovalKeepsOthers(s, stage);
    forall m | m in s'.main ensures Deliveries(s', m) <= max - 1 {
      assert m in s.main || (stage.ToMain? && m == stage.m);
    }
    forall u | u in s'.agents && InHand(s'.agents[u])
      ensures Deliveries(s', s'.agents[u].m) <= HandCap(max, s'.agents[u])
    {
      assert u != t ==> s'.agents[u] == s.agents[u];
    }
  }

  lemma RemovalKeepsCapped(s: State, s': State, max: nat, t: nat)
    requires Capped(s, max) && s'.main == s.main && s'.deliveries == s.deliveries
    requires forall m :: m in s'.processing ==> m in s.processing
    requires forall u :: u in s'.agents && u != t ==> u in s.agents && s'.agents[u] == s.agents[u]
    requires t in s'.agents && InHand(s'.agents[t]) ==> s'.agents[t].Removed? && s'.agents[t].m in s.processing
    ensures Capped(s', max)
  {
  }

  lemma AckKeepsCapped(s: State, max: nat, t: nat, x: nat)
    requires Capped(s, max)
    ensures Capped(AckStep(s, t, x), max)
  {
    RemovedFrom(s.processing, x);
    RemovalKeepsCapped(s, AckStep(s, t, x), max, t);
  }

  lemma NackKeepsCapped(s: State, max: nat, t: nat, x: nat, requeue: bool)
    requires Capped(s, max)
    ensures Capped(NackStep(s, t, x, requeue), max)
  {
    if x in s.processing {
      RemovedFrom(s.processing, x);
      RemovalKeepsCapped(s, NackStep(s, t, x, requeue), max, t);
    }
  }

  /** A step keeps the cap exactly when it is no stamp on a full message. */
  lemma StepKeepsCapIff(s: State, max: nat, e: Event)
    requires Inv(s, max, Accuracy) && Capped(s, max) && max >= 1
    ensures Capped(Do(s, max, e), max) <==> !StampsFull(s, max, e)
  {
    LiveIsAccurate(s, max);
    match e
    case Publish => assert MessageOk(s, max, Accuracy, s.next);
    case Take(t) =>
      if t !in s.agents && s.main != [] { TakeKeepsCapped(s, max, t); }
    case Stamp(t, now) =>
      if t in s.agents && s.agents[t].Taken? { StampOnFull(s, max, t, s.agents[t].m, now); }
    case Deliver(t, now) =>
      if t !in s.agents && s.main != [] {
        forall m ensures Accounted(Do(s, max, e), m) { DoConserves(s, max, e, m); }
        DeliverKeepsCapped(s, max, t, now);
      }
    case AckRemove(t) => if t in s.agents && s.agents[t].Holding? { AckKeepsCapped(s, max, t, s.agents[t].m); }
    case NackRemove(t, requeue) =>
      if t in s.agents && s.agents[t].Holding? { NackKeepsCapped(s, max, t, s.agents[t].m, requeue); }
    case Command(t) => if t in s.agents { CommandKeepsCapped(s, max, t); }
    case _ =>
  }

  /** Exactly when counters are right and the cap holds, over every run: no step
      deletes the counter of a live message, and no stamp lands on a message that
      has had all the deliveries its place allows. */
  lemma {:induction false} CountedAndCappedIff(max: nat, events: seq<Event>)
    requires max >= 1
    ensures AccurateThroughout(max, events) && CappedThroughout(max, events)
            <==> NoLiveReset(max, events) && NoFullStamp(max, events)
  {
    CounterAccurateIff(max, events);
    if events == [] {
    } else {
      var front, last := events[..|events| - 1], events[|events| - 1];
      CounterAccurateIff(max, front);
      CountedAndCappedIff(max, front);
      if NoLiveReset(max, front) && CappedThroughout(max, front) {
        RunInv(max, Accuracy, front);
        StepKeepsCapIff(Run(max, front), max, last);
      }
    }
  }

  /** Stamps in time never land on a full message. */
  lemma {:induction false} InTimeIsNeverFull(max: nat, events: seq<Event>)
    requires NoLiveReset(max, events) && StampsInTime(max, events) && max >= 1
    ensures NoFullStamp(max, events)
  {
    if events == [] {
    } else {
      var front, e := events[..|events| - 1], events[|events| - 1];
      InTimeIsNeverFull(max, front);
      RunInv(max, Cap, front);
      var s := Run(max, front);
      if e.Stamp? && e.t in s.agents && s.agents[e.t].Taken? {
        var m := s.agents[e.t].m;
        assert AgentOk(s, max, Cap, s.agents[e.t]);
        OnePlace(s, m);
        assert forall t :: t in s.agents && Carries(s.agents[t], m) ==> t in Hands(s, m);
      }
    }
  }

  // ----- dead letters -----

  predicate WellSpent(s: State, max: nat, m: nat) { m in s.refused || Deliveries(s, m) == max }

  /** Dead letters, and those about to be, were refused or have had max deliveries. */
  ghost predicate DeadLettersOk(s: State, max: nat) {
    && (forall m :: m in s.dlq ==> WellSpent(s, max, m))
    && (forall t :: t in s.agents && s.agents[t].ToDlq? ==> WellSpent(s, max, s.agents[t].m))
  }

  lemma StampKeepsDead(s: State, max: nat, t: nat, m: nat, now: real)
    requires Conserves(s) && Accurate(s) && DeadLettersOk(s, max) && TakenBy(s, t, m) && !IsFull(s, max, m)
    ensures DeadLettersOk(StampStep(s, t, m, now), max)
  {
    OnePlace(s, m);
    var s' := StampStep(s, t, m, now);
    forall u | u in s'.agents && s'.agents[u].ToDlq? ensures WellSpent(s', max, s'.agents[u].m) {
      HandIsLive(s, u);
      assert Carries(s.agents[u], s.agents[u].m);
    }
  }

  lemma DeliverKeepsDead(s: State, max: nat, t: nat, now: real)
    requires Conserves(s) && DeadLettersOk(s, max) && t !in s.agents && s.main != []
    ensures DeadLettersOk(Do(s, max, Deliver(t, now)), max)
  {
    var s', x := Do(s, max, Deliver(t, now)), s.main[0];
    OnePlace(s, x);
    assert x in s.main;
    forall u | u in s'.agents && s'.agents[u].ToDlq? ensures WellSpent(s', max, s'.agents[u].m) {
      InOneHand(s, u);
    }
  }

  lemma CommandKeepsDead(s: State, max: nat, t: nat)
    requires Inv(s, max, Accuracy) && Capped(s, max) && DeadLettersOk(s, max) && t in s.agents
    ensures DeadLettersOk(CommandStep(s, max, t), max)
  {
    var s', stage := CommandStep(s, max, t), s.agents[t];
    assert AgentOk(s, max, Accuracy, stage);
    assert s'.refused == s.refused && s'.deliveries == s.deliveries;
    forall m | m in s'.dlq ensures WellSpent(s', max, m) {
      assert m in s.dlq || (stage.ToDlq? && m == stage.m);
    }
    forall u | u in s'.agents && s'.agents[u].ToDlq? ensures WellSpent(s', max, s'.agents[u].m) {
      if u == t { assert stage.Removed?; }
    }
  }

  lemma StepKeepsDead(s: State, max: nat, e: Event)
    requires Inv(s, max, Accuracy) && Capped(s, max) && DeadLettersOk(s, max) && !StampsFull(s, max, e)
    ensures DeadLettersOk(Do(s, max, e), max)
  {
    LiveIsAccurate(s, max);
    match e
    case Stamp(t, now) =>
      if t in s.agents && s.agents[t].Taken? { StampKeepsDead(s, max, t, s.agents[t].m, now); }
    case Deliver(t, now) => if t !in s.agents && s.main != [] { DeliverKeepsDead(s, max, t, now); }
    case Command(t) => if t in s.agents { CommandKeepsDead(s, max, t); }
    case _ =>
  }

  lemma {:induction false} RunDeadLettersOk(max: nat, events: seq<Event>)
    requires NoLiveReset(max, events) && NoFullStamp(max, events) && max >= 1
    ensures DeadLettersOk(Run(max, events), max)
  {
    if events == [] {
    } else {
      var front := events[..|events| - 1];
      RunDeadLettersOk(max, front);
      RunInv(max, Accuracy, front);
      CountedAndCappedIff(max, front);
      StepKeepsDead(Run(max, front), max, events[|events| - 1]);
    }
  }

  /** A message that was neither acknowledged nor lost, and that nobody has in
      hand, is dead-lettered exactly when it was refused outright or its last
      permitted delivery has been settled: always-failing messages get `max`
      deliveries, no fewer and no more. */
  lemma DeadLetteredAfterExactlyMax(max: nat, events: seq<Event>, m: nat)
    requires NoLiveReset(max, events) && NoFullStamp(max, events) && max >= 1
    requires var s := Run(max, events); m < s.next && m !in s.acked && m !in s.lost && Hands(s, m) == {}
    ensures var s := Run(max, events);
      m in s.dlq <==> m in s.refused || (Deliveries(s, m) == max && m !in s.processing)
  {
    var s := Run(max, events);
    RunInv(max, Accuracy, events);
    CountedAndCappedIff(max, events);
    RunDeadLettersOk(max, events);
    OnePlace(s, m);
    assert MessageOk(s, max, Accuracy, m) && Accounted(s, m);
    assert m in s.main || m in s.processing || m in s.dlq;
  }
}
