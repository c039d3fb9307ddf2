/** Runs of the queue that break the delivery cap or lose a message: by stale
    acknowledgements, by late stamps, and by a crash with the message in hand. */
module QueueRuns {
  import opened QueueSteps
  import opened QueueAttempts

  /** A run leads there; if `kept`, one that deletes no live counter. */
  ghost predicate Reachable(max: nat, kept: bool, s: State) {
    exists events: seq<Event> :: Run(max, events) == s && (kept ==> NoLiveReset(max, events))
  }

  lemma Then(max: nat, kept: bool, s: State, e: Event, s': State)
    requires Reachable(max, kept, s) && Do(s, max, e) == s' && (kept ==> !ResetsLive(s, e))
    ensures Reachable(max, kept, s')
  {
    var events: seq<Event> :| Run(max, events) == s && (kept ==> NoLiveReset(max, events));
    assert (events + [e])[..|events|] == events;
    assert Run(max, events + [e]) == s' && (kept ==> NoLiveReset(max, events + [e]));
  }

  /** One message, back on main with a clean slate after n deliveries. */
  function Retried(n: nat): State {
    State([0], [], [], map[], map[], map[], 1, {}, {}, if n == 0 then map[] else map[0 := n], {})
  }

  function Delivered(n: nat): State {
    Retried(n).(main := [], processing := [0], attempts := map[0 := 1], received := map[0 := 0.0],
                agents := map[0 := Holding(0)], deliveries := map[0 := n + 1])
  }

  const SPENT := Reaper([], 1.0, 1.0)

  /** A reaper reclaims the delivery; the counter stands at one. */
  function Reclaimed(n: nat): State {
    Retried(n + 1).(attempts := map[0 := 1],
                    agents := map[0 := Holding(0), 1 := Scanning(SPENT)])
  }

  lemma EffectOutside(s: State, max: nat, t: nat, stage: Stage)
    ensures CommandStep(Goto(s, t, stage), max, t) == Goto(Effect(s, stage), t, NextStage(s, max, stage))
  {
    var s0, next := Goto(s, t, stage), NextStage(s, max, stage);
    assert NextStage(s0, max, stage) == next;
    assert Effect(s0, stage) == Effect(s, stage).(agents := s0.agents);
    assert s0.agents[t := next] == s.agents[t := next];
    assert Effect(s, stage).agents == s.agents;
  }

  /** An agent's next command, seen from the state without it. */
  lemma CommandTo(max: nat, kept: bool, s: State, t: nat, stage: Stage)
    requires Reachable(max, kept, Goto(s, t, stage))
    requires !(stage.Clearing? && stage.attemptsToo)
    ensures Reachable(max, kept, Goto(Effect(s, stage), t, NextStage(s, max, stage)))
  {
    EffectOutside(s, max, t, stage);
    Then(max, kept, Goto(s, t, stage), Command(t), Goto(Effect(s, stage), t, NextStage(s, max, stage)));
  }

  /** An agent without a message in hand may die. */
  lemma Died(max: nat, kept: bool, s: State, t: nat, stage: Stage)
    requires Reachable(max, kept, Goto(s, t, stage)) && t !in s.agents && !InHand(stage)
    ensures Reachable(max, kept, s)
  {
    assert Goto(s, t, stage).agents - {t} == s.agents;
    Then(max, kept, Goto(s, t, stage), Crash(t), s);
  }

  /** What a reaper's pass over one stale message with attempts left does. */
  function ReapedBy(s: State, t: nat, m: nat): State {
    Goto(s.(main := s.main + [m], processing := [], received := s.received - {m}), t, Scanning(SPENT))
  }

  lemma ReaperPushes(max: nat, kept: bool, s: State, t: nat, m: nat)
    requires Reachable(max, kept, Goto(s, t, Removed(m, true, SPENT))) && Attempts(s, m) < max
    requires s.processing == []
    ensures Reachable(max, kept, ReapedBy(s, t, m))
  {
    CommandTo(max, kept, s, t, Removed(m, true, SPENT));
    CommandTo(max, kept, s, t, ToMain(m, SPENT));
    CommandTo(max, kept, s.(main := s.main + [m]), t, Clearing(m, false, SPENT));
  }

  lemma ReaperRequeues(max: nat, kept: bool, s: State, t: nat, m: nat)
    requires Reachable(max, kept, s) && t !in s.agents && s.processing == [m] && Attempts(s, m) < max
    requires m in s.received && s.received[m] == 0.0
    ensures Reachable(max, kept, ReapedBy(s, t, m))
  {
    var listed := Reaper([m], 1.0, 1.0);
    Then(max, kept, s, ReaperList(t, 1.0, 1.0), Goto(s, t, Scanning(listed)));
    assert [m][1..] == [] && LookAt(s.received, listed) == Stale(m, SPENT);
    CommandTo(max, kept, s, t, Scanning(listed));
    assert RemoveOne([m], m) == [];
    CommandTo(max, kept, s, t, Stale(m, SPENT));
    ReaperPushes(max, kept, s.(processing := []), t, m);
  }

  lemma DeliverRetried(max: nat, n: nat)
    requires Reachable(max, false, Retried(n))
    ensures Reachable(max, false, Delivered(n))
  {
    var s := Do(Retried(n), max, Deliver(0, 0.0));
    assert s.main == [] && s.processing == [0] && s.agents == map[0 := Holding(0)];
    assert s.attempts == map[0 := 1] && s.received == map[0 := 0.0] && s.deliveries == map[0 := n + 1];
    Then(max, false, Retried(n), Deliver(0, 0.0), Delivered(n));
  }

  lemma ReapedDelivery(n: nat)
    ensures ReapedBy(Delivered(n), 1, 0) == Reclaimed(n)
  {
    assert Delivered(n).agents[1 := Scanning(SPENT)] == Reclaimed(n).agents;
    assert Delivered(n).received - {0} == map[] && Delivered(n).main + [0] == [0];
  }

  lemma DeliverAndReclaim(max: nat, n: nat)
    requires max >= 2 && Reachable(max, false, Retried(n))
    ensures Reachable(max, false, Reclaimed(n))
  {
    var s := Delivered(n);
    DeliverRetried(max, n);
    assert s.processing == [0] && s.received == map[0 := 0.0] && s.attempts == map[0 := 1] && 1 !in s.agents;
    ReaperRequeues(max, false, s, 1, 0);
    ReapedDelivery(n);
  }

  /** The counter is gone; the worker and the reaper are still around. */
  function Cleared(n: nat): State {
    Retried(n + 1).(agents := map[0 := Holding(0), 1 := Scanning(SPENT)])
  }

  lemma BothGone(max: nat, n: nat)
    requires Reachable(max, false, Cleared(n))
    ensures Reachable(max, false, Retried(n + 1))
  {
    var s := Retried(n + 1).(agents := map[1 := Scanning(SPENT)]);
    Then(max, false, Cleared(n), Crash(0), s);
    Then(max, false, s, Crash(1), Retried(n + 1));
  }

  /** The slow worker acknowledges: nothing is on processing any more, but its
      command still deletes the attempt counter. */
  lemma StaleAckClearsTheCounter(max: nat, n: nat)
    requires Reachable(max, false, Reclaimed(n))
    ensures Reachable(max, false, Retried(n + 1))
  {
    var s0 := Reclaimed(n);
    var s1 := Goto(s0, 0, Clearing(0, true, Worker));
    Then(max, false, s0, AckRemove(0), s1);
    var s2 := Goto(s0, 0, Clearing(0, false, Worker)).(attempts := map[]);
    Then(max, false, s1, Command(0), s2);
    Then(max, false, s2, Command(0), Cleared(n));
    BothGone(max, n);
  }

  /** From nothing to one published message. */
  lemma RetriedAtStart(max: nat, kept: bool)
    ensures Reachable(max, kept, Retried(0))
  {
    assert Run(max, []) == START && NoLiveReset(max, []);
    Then(max, kept, START, Publish, Retried(0));
  }

  lemma {:induction false} RetriedReachable(max: nat, n: nat)
    requires max >= 2
    ensures Reachable(max, false, Retried(n))
  {
    if n == 0 {
      RetriedAtStart(max, false);
    } else {
      RetriedReachable(max, n - 1);
      DeliverAndReclaim(max, n - 1);
      StaleAckClearsTheCounter(max, n - 1);
    }
  }

  /** With stale acknowledgements the cap does not hold: for any number of
      deliveries there is a run after which the message is still on main. */
  lemma {:induction false} StaleAcksRetryForever(max: nat, n: nat)
    requires max >= 2
    ensures exists events: seq<Event> ::
      var s := Run(max, events); Deliveries(s, 0) == n && s.main == [0] && s.dlq == []
  {
    RetriedReachable(max, n);
    var events: seq<Event> :| Run(max, events) == Retried(n);
    assert Deliveries(Run(max, events), 0) == n;
  }

  /** Removal and push are two commands: a worker that dies between them takes
      the message with it, although nobody acknowledged it. */
  lemma CrashInHandLosesTheMessage(max: nat)
    ensures exists events: seq<Event> ::
      var s := Run(max, events); s.next == 1 && Copies(s, 0) == 0 && s.acked == {}
  {
    RetriedAtStart(max, false);
    Then(max, false, Retried(0), Deliver(0, 0.0), Delivered(0));
    var s1 := Goto(Delivered(0), 0, Removed(0, true, Worker)).(processing := []);
    assert RemoveOne([0], 0) == [];
    Then(max, false, Delivered(0), NackRemove(0, true), s1);
    var s2 := s1.(agents := map[], lost := {0});
    Then(max, false, s1, Crash(0), s2);
    var events: seq<Event> :| Run(max, events) == s2;
    assert Hands(s2, 0) == {};
  }

  // ----- late stamps -----

  /** Delivered once more, the stamp still to come, and already stale. */
  function InTransit(n: nat): State {
    State([], [0], [], if n == 0 then map[] else map[0 := n], map[0 := 0.0], map[0 := Taken(0)], 1, {}, {},
          if n == 0 then map[] else map[0 := n], {})
  }

  /** Back on main after n late stamps. */
  function Late(n: nat): State {
    if n == 0 then Retried(0) else InTransit(n).(main := [0], processing := [], agents := map[])
  }

  /** A first pass only starts the ageing of a message without a stamp. */
  lemma ReaperStamps(max: nat, kept: bool, s: State, t: nat, m: nat)
    requires Reachable(max, kept, s) && t !in s.agents && s.processing == [m] && m !in s.received
    ensures Reachable(max, kept, s.(received := s.received[m := 0.0]))
  {
    var listed, later, s' := Reaper([m], 0.0, 1.0), Reaper([], 0.0, 1.0), s.(received := s.received[m := 0.0]);
    Then(max, kept, s, ReaperList(t, 0.0, 1.0), Goto(s, t, Scanning(listed)));
    assert [m][1..] == [] && LookAt(s.received, listed) == Unstamped(m, later);
    CommandTo(max, kept, s, t, Scanning(listed));
    CommandTo(max, kept, s, t, Unstamped(m, later));
    Died(max, kept, s', t, Scanning(later));
  }

  lemma RetakeMessage(max: nat, n: nat)
    requires Reachable(max, true, Late(n))
    ensures Reachable(max, true, InTransit(n))
  {
    if n > 0 {
      Then(max, true, Late(n), Take(0), InTransit(n));
    } else {
      Then(max, true, Late(0), Take(0), InTransit(0).(received := map[]));
      ReaperStamps(max, true, InTransit(0).(received := map[]), 1, 0);
    }
  }

  /** The worker stamps a message that a reaper put back on main before. */
  lemma StampLate(max: nat, n: nat)
    requires Reachable(max, true, ReapedBy(InTransit(n), 1, 0))
    ensures Reachable(max, true, Late(n + 1))
  {
    var s := Late(n + 1);
    Then(max, true, ReapedBy(InTransit(n), 1, 0), Stamp(0, 0.0), Goto(Goto(s, 1, Scanning(SPENT)), 0, Holding(0)));
    Died(max, true, Goto(s, 1, Scanning(SPENT)), 0, Holding(0));
    Died(max, true, s, 1, Scanning(SPENT));
  }

  lemma {:induction false} LateReachable(max: nat, n: nat)
    requires n <= max
    ensures Reachable(max, true, Late(n))
  {
    if n == 0 {
      RetriedAtStart(max, true);
    } else {
      LateReachable(max, n - 1);
      RetakeMessage(max, n - 1);
      ReaperRequeues(max, true, InTransit(n - 1), 1, 0);
      StampLate(max, n - 1);
    }
  }

  /** Stamps that come late break the cap although no counter is ever deleted:
      a message is delivered once more than permitted. */
  lemma LateStampsBreakTheCap(max: nat)
    ensures exists events: seq<Event> ::
      NoLiveReset(max, events) && Deliveries(Run(max, events), 0) == max + 1
  {
    LateReachable(max, max);
    var s := Do(Late(max), max, Deliver(0, 0.0));
    Then(max, true, Late(max), Deliver(0, 0.0), s);
    var events: seq<Event> :| Run(max, events) == s && NoLiveReset(max, events);
    assert Deliveries(Run(max, events), 0) == max + 1;
  }

  // ----- a stamp on a dead letter -----

  /** Worker 0 has still to stamp the message, which agent 2 deals with. */
  predicate Shared(s: State, n: int) {
    0 in s.agents && s.agents[0] == Taken(0) && s.dlq == [] && Attempts(s, 0) == Deliveries(s, 0) == n
  }

  lemma DeliverLast(max: nat, s: State) returns (s': State)
    requires Reachable(max, true, s) && Shared(s, max - 1)
    requires s.main == [0] && s.processing == [] && 2 !in s.agents
    ensures Reachable(max, true, s') && Shared(s', max) && s'.main == [] && s'.processing == [0]
    ensures 2 in s'.agents && s'.agents[2] == Holding(0)
  {
    s' := Do(s, max, Deliver(2, 0.0));
    Then(max, true, s, Deliver(2, 0.0), s');
  }

  lemma NackLast(max: nat, s: State) returns (s': State)
    requires Reachable(max, true, s) && Shared(s, max) && s.processing == [0]
    requires 2 in s.agents && s.agents[2] == Holding(0)
    ensures Reachable(max, true, s') && Shared(s', max)
    ensures 2 in s'.agents && s'.agents[2] == Removed(0, true, Worker)
  {
    s' := Do(s, max, NackRemove(2, true));
    Then(max, true, s, NackRemove(2, true), s');
  }

  lemma DecideLast(max: nat, s: State) returns (s': State)
    requires Reachable(max, true, s) && Shared(s, max)
    requires 2 in s.agents && s.agents[2] == Removed(0, true, Worker)
    ensures Reachable(max, true, s') && Shared(s', max) && 2 in s'.agents && s'.agents[2] == ToDlq(0, Worker)
  {
    s' := Do(s, max, Command(2));
    Then(max, true, s, Command(2), s');
  }

  lemma PushLast(max: nat, s: State) returns (s': State)
    requires Reachable(max, true, s) && Shared(s, max) && 2 in s.agents && s.agents[2] == ToDlq(0, Worker)
    ensures Reachable(max, true, s') && s'.dlq == [0] && Deliveries(s', 0) == max
    ensures 0 in s'.agents && s'.agents[0] == Taken(0)
  {
    s' := Do(s, max, Command(2));
    Then(max, true, s, Command(2), s');
  }

  lemma StampDead(max: nat, s: State) returns (s': State)
    requires Reachable(max, true, s) && s.dlq == [0] && Deliveries(s, 0) == max
    requires 0 in s.agents && s.agents[0] == Taken(0)
    ensures Reachable(max, true, s') && s'.dlq == [0] && Deliveries(s', 0) == max + 1
  {
    s' := Do(s, max, Stamp(0, 0.0));
    Then(max, true, s, Stamp(0, 0.0), s');
  }

  /** The cap breaks for settled messages too: the last permitted delivery fails, the
      message is dead-lettered, and a worker that took it before is handed it. */
  lemma LateStampDeliversADeadLetter(max: nat)
    requires max >= 1
    ensures exists events: seq<Event> ::
      var s := Run(max, events);
      NoLiveReset(max, events) && s.dlq == [0] && Deliveries(s, 0) == max + 1
  {
    var s := ReapedBy(InTransit(max - 1), 1, 0);
    LateReachable(max, max - 1);
    RetakeMessage(max, max - 1);
    ReaperRequeues(max, true, InTransit(max - 1), 1, 0);
    s := DeliverLast(max, s);
    s := NackLast(max, s);
    s := DecideLast(max, s);
    s := PushLast(max, s);
    s := StampDead(max, s);
  }
}
