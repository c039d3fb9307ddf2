/** What protects a worker from the reaper: a delivery younger than the reclaim
    timeout stays on processing until its own worker settles it. */
module QueueReaper {
  import opened QueueSteps

  /** The reaper a stage belongs to, if any. */
  predicate IsReapers(stage: Stage) {
    && (stage.Scanning? || stage.Unstamped? || stage.Stale? || stage.Removed?
        || stage.ToDlq? || stage.ToMain? || stage.Clearing?)
    && stage.owner.Reaper?
  }

  /** The pass began after the delivery, and before the delivery came of age. */
  predicate InTime(now: real, olderThan: real, delivered: real) { delivered <= now < delivered + olderThan }

  predicate AgentHarmless(stage: Stage, m: nat, delivered: real) {
    && !(stage.Stale? && stage.m == m)
    && (IsReapers(stage) ==> InTime(stage.owner.now, stage.owner.olderThan, delivered))
  }

  ghost predicate Fresh(s: State, m: nat, delivered: real) {
    && m in s.processing
    && (m in s.received ==> s.received[m] >= delivered)
    && forall t :: t in s.agents ==> AgentHarmless(s.agents[t], m, delivered)
  }

  /** Clocks run forwards, passes are in time, and no worker settles the message. */
  predicate Timely(s: State, e: Event, m: nat, delivered: real) {
    match e
    case Stamp(_, now) => now >= delivered
    case Deliver(_, now) => now >= delivered
    case ReaperList(_, now, olderThan) => InTime(now, olderThan, delivered)
    case AckRemove(t) => !(t in s.agents && s.agents[t] == Holding(m))
    case NackRemove(t, _) => !(t in s.agents && s.agents[t] == Holding(m))
    case _ => true
  }

  predicate AllTimely(max: nat, events: seq<Event>, more: seq<Event>, m: nat, delivered: real) {
    more == [] ||
    (AllTimely(max, events, more[..|more| - 1], m, delivered)
     && Timely(Run(max, events + more[..|more| - 1]), more[|more| - 1], m, delivered))
  }

  lemma StaysListed(s: seq<nat>, x: nat, m: nat)
    requires m in s && x != m
    ensures m in RemoveOne(s, x)
  {
    RemovedOnce(s, x);
    assert m in multiset(s);
    assert m in multiset(RemoveOne(s, x));
  }

  /** A look at a fresh message passes it over or starts its ageing. */
  lemma LookSparesFresh(s: State, owner: Owner, m: nat, delivered: real)
    requires Fresh(s, m, delivered) && owner.Reaper? && owner.rest != []
    requires InTime(owner.now, owner.olderThan, delivered)
    ensures AgentHarmless(LookAt(s.received, owner), m, delivered)
  {
    if m in s.received {
      assert owner.now - s.received[m] < owner.olderThan;
    }
  }

  lemma NextIsHarmless(s: State, max: nat, t: nat, m: nat, delivered: real)
    requires Fresh(s, m, delivered) && t in s.agents
    ensures AgentHarmless(NextStage(s, max, s.agents[t]), m, delivered)
  {
    var stage := s.agents[t];
    assert AgentHarmless(stage, m, delivered);
    if stage.Scanning? && stage.owner.Reaper? && stage.owner.rest != [] {
      LookSparesFresh(s, stage.owner, m, delivered);
    }
  }

  lemma CommandKeepsFresh(s: State, max: nat, t: nat, m: nat, delivered: real)
    requires Fresh(s, m, delivered) && t in s.agents
    ensures Fresh(CommandStep(s, max, t), m, delivered)
  {
    var s', stage := CommandStep(s, max, t), s.agents[t];
    assert AgentHarmless(stage, m, delivered);
    NextIsHarmless(s, max, t, m, delivered);
    if stage.Stale? && stage.m in s.processing { StaysListed(s.processing, stage.m, m); }
    assert s'.agents == s.agents[t := NextStage(s, max, stage)];
    forall u | u in s'.agents ensures AgentHarmless(s'.agents[u], m, delivered) {
      assert u != t ==> AgentHarmless(s.agents[u], m, delivered);
    }
  }

  lemma SettlementKeepsFresh(s: State, max: nat, e: Event, m: nat, delivered: real)
    requires Fresh(s, m, delivered) && Timely(s, e, m, delivered) && (e.AckRemove? || e.NackRemove?)
    ensures Fresh(Do(s, max, e), m, delivered)
  {
    var s' := Do(s, max, e);
    if e.t in s.agents && s.agents[e.t].Holding? {
      StaysListed(s.processing, s.agents[e.t].m, m);
    }
    forall u | u in s'.agents ensures AgentHarmless(s'.agents[u], m, delivered) {
      assert u in s.agents && AgentHarmless(s.agents[u], m, delivered);
    }
  }

  lemma StepKeepsFresh(s: State, max: nat, e: Event, m: nat, delivered: real)
    requires Fresh(s, m, delivered) && Timely(s, e, m, delivered)
    ensures Fresh(Do(s, max, e), m, delivered)
  {
    var s' := Do(s, max, e);
    if e.AckRemove? || e.NackRemove? {
      SettlementKeepsFresh(s, max, e, m, delivered);
    } else if e.Command? {
      if e.t in s.agents { CommandKeepsFresh(s, max, e.t, m, delivered); }
    } else {
      forall u | u in s'.agents ensures AgentHarmless(s'.agents[u], m, delivered) {
        assert u in s.agents ==> AgentHarmless(s.agents[u], m, delivered);
      }
    }
  }

  lemma {:induction false} StaysFresh(max: nat, events: seq<Event>, more: seq<Event>, m: nat, delivered: real)
    requires Fresh(Run(max, events), m, delivered) && AllTimely(max, events, more, m, delivered)
    ensures Fresh(Run(max, events + more), m, delivered)
  {
    if more == [] {
      assert events + more == events;
    } else {
      var front, last := more[..|more| - 1], more[|more| - 1];
      assert (events + more)[..|events + more| - 1] == events + front;
      StaysFresh(max, events, front, m, delivered);
      StepKeepsFresh(Run(max, events + front), max, last, m, delivered);
    }
  }

  /** A delivery made while no reaper is under way stays on processing, whatever
      runs after it, as long as every reaper's pass begins before the delivery is
      `olderThan` old and its own holder does not settle it. */
  lemma ReapersSpareFreshDeliveries(max: nat, events: seq<Event>, w: nat, delivered: real, more: seq<Event>)
    requires var s := Run(max, events);
      && w !in s.agents && s.main != []
      && (forall t :: t in s.agents ==> !IsReapers(s.agents[t]) && !s.agents[t].Stale?)
      && AllTimely(max, events + [Deliver(w, delivered)], more, s.main[0], delivered)
    ensures Run(max, events).main[0] in Run(max, events + [Deliver(w, delivered)] + more).processing
  {
    var s, all := Run(max, events), events + [Deliver(w, delivered)];
    assert all[..|events|] == events;
    forall t | t in Run(max, all).agents ensures AgentHarmless(Run(max, all).agents[t], s.main[0], delivered) {
      assert t in s.agents ==> !IsReapers(s.agents[t]);
    }
    StaysFresh(max, all, more, s.main[0], delivered);
  }
}
