/** The topic's calls are the command machine's, run without interruption: what one
    agent's commands leave of the lists and hashes is what the call leaves. */
module QueueCalls {
  import opened QueueSteps
  import opened ReliableQueue

  function ListsOf(s: State): Lists { Lists(s.main, s.processing, s.dlq, s.attempts, s.received) }

  predicate At(s: State, t: nat, stage: Stage) { t in s.agents && s.agents[t] == stage }

  function Iterate<T>(f: T -> T, x: T, n: nat): T { if n == 0 then x else f(Iterate(f, x, n - 1)) }

  lemma {:induction false} IterateAdd<T>(f: T -> T, x: T, m: nat, n: nat)
    ensures Iterate(f, x, m + n) == Iterate(f, Iterate(f, x, m), n)
  {
    if n == 0 {
    } else {
      IterateAdd(f, x, m, n - 1);
    }
  }

  function Next(max: nat, t: nat): State -> State { (s: State) => Do(s, max, Command(t)) }

  /** Some number of one agent's commands lead from one state to another. */
  ghost predicate Leads(s: State, max: nat, t: nat, s': State) {
    exists n: nat :: Iterate(Next(max, t), s, n) == s'
  }

  lemma LeadsNowhere(s: State, max: nat, t: nat)
    ensures Leads(s, max, t, s)
  {
    assert Iterate(Next(max, t), s, 0) == s;
  }

  /** One command: the agent's next stage, and its effect on lists and hashes. */
  lemma LeadsOn(s: State, max: nat, t: nat, stage: Stage) returns (s': State)
    requires At(s, t, stage)
    ensures Leads(s, max, t, s')
    ensures At(s', t, NextStage(s, max, stage)) && ListsOf(s') == ListsOf(Effect(s, stage))
  {
    s' := Next(max, t)(s);
    assert Iterate(Next(max, t), s, 0) == s && Iterate(Next(max, t), s, 1) == s';
  }

  lemma LeadsFurther(s: State, max: nat, t: nat, s1: State, s2: State)
    requires Leads(s, max, t, s1) && Leads(s1, max, t, s2)
    ensures Leads(s, max, t, s2)
  {
    var m: nat :| Iterate(Next(max, t), s, m) == s1;
    var n: nat :| Iterate(Next(max, t), s1, n) == s2;
    IterateAdd(Next(max, t), s, m, n);
  }

  /** One more command. */
  lemma OneMore(s0: State, max: nat, t: nat, s: State, stage: Stage) returns (s': State)
    requires Leads(s0, max, t, s) && At(s, t, stage)
    ensures Leads(s0, max, t, s')
    ensures At(s', t, NextStage(s, max, stage)) && ListsOf(s') == ListsOf(Effect(s, stage))
  {
    s' := LeadsOn(s, max, t, stage);
    LeadsFurther(s0, max, t, s, s');
  }

  /** A publication heads the main list with an id of its own. */
  lemma PublishIsOneCommand(s: State, max: nat)
    ensures var s' := Do(s, max, Publish);
      ListsOf(s') == ListsOf(s).(main := [s.next] + s.main) && s'.next > s.next && s'.agents == s.agents
  {
  }

  /** A consume is one take and its stamp. */
  lemma ConsumeRunsThrough(s: State, max: nat, t: nat, now: real)
    requires t !in s.agents && s.main != []
    ensures var s' := Do(Do(s, max, Take(t)), max, Stamp(t, now));
      At(s', t, Holding(s.main[0])) && ListsOf(s') == Consumed(ListsOf(s), now)
  {
  }

  lemma AckRunsThrough(s: State, max: nat, t: nat, m: nat) returns (s': State)
    requires At(s, t, Holding(m))
    ensures Leads(Do(s, max, AckRemove(t)), max, t, s')
    ensures At(s', t, Holding(m)) && ListsOf(s') == Acked(ListsOf(s), m)
  {
    RemovedOnce(s.processing, m);
    var s1 := Do(s, max, AckRemove(t));
    s' := LeadsOn(s1, max, t, Clearing(m, true, Worker));
    s' := OneMore(s1, max, t, s', Clearing(m, false, Worker));
  }

  /** From its removal on: to the dead-letter list when out of attempts or refused. */
  lemma DeadLetterRunsThrough(s: State, max: nat, t: nat, m: nat, requeue: bool, owner: Owner) returns (s': State)
    requires At(s, t, Removed(m, requeue, owner)) && (!requeue || Count(s.attempts, m) >= max)
    ensures Leads(s, max, t, s') && At(s', t, Resume(m, owner))
    ensures ListsOf(s')
            == ListsOf(s).(dlq := [m] + s.dlq, attempts := s.attempts - {m}, received := s.received - {m})
  {
    s' := LeadsOn(s, max, t, Removed(m, requeue, owner));
    s' := OneMore(s, max, t, s', ToDlq(m, owner));
    s' := OneMore(s, max, t, s', Clearing(m, true, owner));
    s' := OneMore(s, max, t, s', Clearing(m, false, owner));
  }

  /** And back to main otherwise: a worker clears the stamp first ... */
  lemma WorkerRequeues(s: State, max: nat, t: nat, m: nat) returns (s': State)
    requires At(s, t, Removed(m, true, Worker)) && Count(s.attempts, m) < max
    ensures Leads(s, max, t, s') && At(s', t, Holding(m))
    ensures ListsOf(s') == ListsOf(s).(main := s.main + [m], received := s.received - {m})
  {
    s' := LeadsOn(s, max, t, Removed(m, true, Worker));
    s' := OneMore(s, max, t, s', ToClearStamp(m));
    s' := OneMore(s, max, t, s', ToMain(m, Worker));
  }

  /** ... and a reaper last. */
  lemma ReaperRequeues(s: State, max: nat, t: nat, m: nat, owner: Owner) returns (s': State)
    requires At(s, t, Removed(m, true, owner)) && Count(s.attempts, m) < max && owner.Reaper?
    ensures Leads(s, max, t, s') && At(s', t, Scanning(owner))
    ensures ListsOf(s') == ListsOf(s).(main := s.main + [m], received := s.received - {m})
  {
    s' := LeadsOn(s, max, t, Removed(m, true, owner));
    s' := OneMore(s, max, t, s', ToMain(m, owner));
    s' := OneMore(s, max, t, s', Clearing(m, false, owner));
  }

  /** A nack is its removal and the worker's commands until it is done. */
  lemma NackRunsThrough(s: State, max: nat, t: nat, m: nat, requeue: bool) returns (s': State)
    requires At(s, t, Holding(m))
    ensures Leads(Do(s, max, NackRemove(t, requeue)), max, t, s')
    ensures At(s', t, Holding(m)) && ListsOf(s') == Nacked(ListsOf(s), m, requeue, max)
  {
    var s1 := Do(s, max, NackRemove(t, requeue));
    if m !in s.processing {
      LeadsNowhere(s1, max, t);
      s' := s1;
    } else if !requeue || Count(s.attempts, m) >= max {
      s' := DeadLetterRunsThrough(s1, max, t, m, requeue, Worker);
    } else {
      s' := WorkerRequeues(s1, max, t, m);
    }
  }

  lemma StaleRunsThrough(s: State, max: nat, t: nat, m: nat, owner: Owner) returns (s': State)
    requires At(s, t, Stale(m, owner)) && owner.Reaper?
    requires m in s.received && owner.now - s.received[m] >= owner.olderThan
    ensures Leads(s, max, t, s') && At(s', t, Scanning(owner))
    ensures ListsOf(s') == ReclaimOne(ListsOf(s), m, owner.now, owner.olderThan, max)
  {
    var s1 := LeadsOn(s, max, t, Stale(m, owner));
    if m !in s.processing {
      s' := s1;
    } else {
      assert At(s1, t, Removed(m, true, owner));
      if Count(s.attempts, m) >= max {
        s' := DeadLetterRunsThrough(s1, max, t, m, true, owner);
      } else {
        s' := ReaperRequeues(s1, max, t, m, owner);
      }
      LeadsFurther(s, max, t, s1, s');
    }
  }

  /** One listed entry is the reaper's commands until it turns to the next. */
  lemma ReclaimRunsThrough(s: State, max: nat, t: nat, m: nat, rest: seq<nat>, now: real, olderThan: real)
    returns (s': State)
    requires At(s, t, Scanning(Reaper([m] + rest, now, olderThan)))
    ensures Leads(s, max, t, s') && At(s', t, Scanning(Reaper(rest, now, olderThan)))
    ensures ListsOf(s') == ReclaimOne(ListsOf(s), m, now, olderThan, max)
  {
    var owner := Reaper(rest, now, olderThan);
    assert ([m] + rest)[1..] == rest;
    s' := LeadsOn(s, max, t, Scanning(Reaper([m] + rest, now, olderThan)));
    if m !in s.received {
      s' := OneMore(s, max, t, s', Unstamped(m, owner));
    } else if now - s.received[m] >= olderThan {
      var s1 := s';
      s' := StaleRunsThrough(s1, max, t, m, owner);
      LeadsFurther(s, max, t, s1, s');
    }
  }

  lemma {:induction false} ListRunsThrough(s: State, max: nat, t: nat, listed: seq<nat>, i: nat, now: real,
                                           olderThan: real) returns (s': State)
    requires i <= |listed| && At(s, t, Scanning(Reaper(listed, now, olderThan)))
    ensures Leads(s, max, t, s') && At(s', t, Scanning(Reaper(listed[i..], now, olderThan)))
    ensures ListsOf(s') == ReclaimAll(ListsOf(s), listed[..i], now, olderThan, max)
  {
    if i == 0 {
      assert listed[0..] == listed && listed[..0] == [];
      LeadsNowhere(s, max, t);
      s' := s;
    } else {
      var s1 := ListRunsThrough(s, max, t, listed, i - 1, now, olderThan);
      assert listed[i - 1..] == [listed[i - 1]] + listed[i..];
      s' := ReclaimRunsThrough(s1, max, t, listed[i - 1], listed[i..], now, olderThan);
      LeadsFurther(s, max, t, s1, s');
      assert listed[..i] == listed[..i - 1] + [listed[i - 1]];
      ReclaimSnoc(ListsOf(s), listed[..i - 1], listed[i - 1], now, olderThan, max);
    }
  }

  /** A reaper's whole pass is its listing and its commands until nothing is left. */
  lemma PassRunsThrough(s: State, max: nat, t: nat, now: real, olderThan: real) returns (s': State)
    requires t !in s.agents
    ensures Leads(Do(s, max, ReaperList(t, now, olderThan)), max, t, s')
    ensures At(s', t, Scanning(Reaper([], now, olderThan)))
    ensures ListsOf(s') == ReclaimAll(ListsOf(s), s.processing, now, olderThan, max)
  {
    var s1, listed := Do(s, max, ReaperList(t, now, olderThan)), s.processing;
    s' := ListRunsThrough(s1, max, t, listed, |listed|, now, olderThan);
    assert listed[..|listed|] == listed && listed[|listed|..] == [];
  }
}
