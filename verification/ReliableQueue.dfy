/** One topic of the reliable queue as its clients update it, each call run
    without interruption. QueueSteps takes the same calls apart. Message
    identities are the unique ids stamped at publication. */
module ReliableQueue {
  import opened Seqs
  import QueueSteps

  predicate IsStale(received: map<nat, real>, now: real, olderThan: real, m: nat) {
    m in received && now - received[m] >= olderThan
  }

  predicate IsSpent(attempts: map<nat, nat>, max: int, m: nat) { QueueSteps.Count(attempts, m) >= max }

  function StaleAt(received: map<nat, real>, now: real, olderThan: real): nat -> bool {
    (m: nat) => IsStale(received, now, olderThan, m)
  }

  function FreshAt(received: map<nat, real>, now: real, olderThan: real): nat -> bool {
    (m: nat) => !IsStale(received, now, olderThan, m)
  }

  function SpentIn(attempts: map<nat, nat>, max: int): nat -> bool { (m: nat) => IsSpent(attempts, max, m) }

  function UnspentIn(attempts: map<nat, nat>, max: int): nat -> bool { (m: nat) => !IsSpent(attempts, max, m) }

  function Reversed(s: seq<nat>): (r: seq<nat>)
    ensures |r| == |s|
  {
    if s == [] then [] else Reversed(s[1..]) + [s[0]]
  }

  lemma {:induction false} ReversedConcat(a: seq<nat>, b: seq<nat>)
    ensures Reversed(a + b) == Reversed(b) + Reversed(a)
  {
    if a == [] {
      assert a + b == b;
    } else {
      assert (a + b)[1..] == a[1..] + b;
      ReversedConcat(a[1..], b);
    }
  }

  lemma {:induction false} RemoveFromMiddle(a: seq<nat>, m: nat, b: seq<nat>)
    requires m !in a
    ensures QueueSteps.RemoveOne(a + [m] + b, m) == a + b
  {
    var s := a + [m] + b;
    if a == [] {
      assert s == [m] + b && s[1..] == b;
    } else {
      assert s == [a[0]] + (a[1..] + [m] + b);
      assert s[1..] == a[1..] + [m] + b;
      RemoveFromMiddle(a[1..], m, b);
      assert a + b == [a[0]] + (a[1..] + b);
    }
  }

  /** What the reaper leaves of the hashes: dead-lettered messages lose their
      counter, reclaimed ones their stamp, and unstamped ones get one now. */
  function SweptAttempts(attempts: map<nat, nat>, received: map<nat, real>, listed: seq<nat>,
                         now: real, olderThan: real, max: int): map<nat, nat> {
    attempts - set m | m in listed && IsStale(received, now, olderThan, m) && IsSpent(attempts, max, m)
  }

  function SweptReceived(received: map<nat, real>, listed: seq<nat>, now: real, olderThan: real): map<nat, real> {
    (received - set m | m in listed && IsStale(received, now, olderThan, m))
    + map m | m in listed && m !in received :: now
  }

  /** A topic's lists and hashes. */
  datatype Lists = Lists(
    main: seq<nat>, processing: seq<nat>, dlq: seq<nat>, attempts: map<nat, nat>, received: map<nat, real>)

  function CopiesIn(q: Lists, m: nat): nat {
    multiset(q.main)[m] + multiset(q.processing)[m] + multiset(q.dlq)[m]
  }

  /** One delivery: the leftmost message, one more attempt, the time of delivery. */
  function Consumed(q: Lists, now: real): Lists
    requires q.main != []
  {
    var m := q.main[0];
    q.(main := q.main[1..], processing := q.processing + [m],
       attempts := q.attempts[m := QueueSteps.Count(q.attempts, m) + 1], received := q.received[m := now])
  }

  function Acked(q: Lists, m: nat): Lists {
    q.(processing := QueueSteps.RemoveOne(q.processing, m), attempts := q.attempts - {m}, received := q.received - {m})
  }

  function Nacked(q: Lists, m: nat, requeue: bool, max: int): Lists {
    if m !in q.processing then q
    else
      var taken := q.(processing := QueueSteps.RemoveOne(q.processing, m), received := q.received - {m});
      if !requeue || IsSpent(q.attempts, max, m) then taken.(dlq := [m] + q.dlq, attempts := q.attempts - {m})
      else taken.(main := q.main + [m])
  }

  /** The reaper's handling of one listed entry. */
  function ReclaimOne(q: Lists, m: nat, now: real, olderThan: real, max: int): Lists {
    if m !in q.received then q.(received := q.received[m := now])
    else if now - q.received[m] < olderThan || m !in q.processing then q
    else
      var taken := q.(processing := QueueSteps.RemoveOne(q.processing, m), received := q.received - {m});
      if IsSpent(q.attempts, max, m) then taken.(dlq := [m] + q.dlq, attempts := q.attempts - {m})
      else taken.(main := q.main + [m])
  }

  function ReclaimAll(q: Lists, listed: seq<nat>, now: real, olderThan: real, max: int): Lists {
    if listed == [] then q
    else
      var before := ReclaimAll(q, listed[..|listed| - 1], now, olderThan, max);
      ReclaimOne(before, listed[|listed| - 1], now, olderThan, max)
  }

  lemma ReclaimOneConserves(q: Lists, m: nat, now: real, olderThan: real, max: int, x: nat)
    ensures CopiesIn(ReclaimOne(q, m, now, olderThan, max), x) == CopiesIn(q, x)
  {
    if m in q.processing {
      QueueSteps.RemovedOnce(q.processing, m);
      assert m in multiset(q.processing);
    }
  }

  lemma {:induction false} ReclaimAllConserves(q: Lists, listed: seq<nat>, now: real, olderThan: real, max: int, x: nat)
    ensures CopiesIn(ReclaimAll(q, listed, now, olderThan, max), x) == CopiesIn(q, x)
  {
    if listed == [] {
    } else {
      var front := listed[..|listed| - 1];
      ReclaimAllConserves(q, front, now, olderThan, max, x);
      ReclaimOneConserves(ReclaimAll(q, front, now, olderThan, max), listed[|listed| - 1], now, olderThan, max, x);
    }
  }

  lemma FilterSnoc(s: seq<nat>, m: nat, p: nat -> bool)
    ensures Filter(s + [m], p) == if p(m) then Filter(s, p) + [m] else Filter(s, p)
  {
    FilterConcat(s, [m], p);
    assert [m][1..] == [];
  }

  /** The messages a pass reclaims, and those of them it dead-letters. */
  function StaleOf(q: Lists, listed: seq<nat>, now: real, olderThan: real): seq<nat> {
    Filter(listed, StaleAt(q.received, now, olderThan))
  }

  function Dead(q: Lists, stale: seq<nat>, max: int): seq<nat> {
    Reversed(Filter(stale, SpentIn(q.attempts, max)))
  }

  /** What a pass over a listing does, all at once; `rest` is the unvisited end
      of the processing list. */
  function Swept(q: Lists, listed: seq<nat>, rest: seq<nat>, now: real, olderThan: real, max: int): Lists {
    var stale := StaleOf(q, listed, now, olderThan);
    Lists(q.main + Filter(stale, UnspentIn(q.attempts, max)),
          Filter(listed, FreshAt(q.received, now, olderThan)) + rest,
          Dead(q, stale, max) + q.dlq,
          SweptAttempts(q.attempts, q.received, listed, now, olderThan, max),
          SweptReceived(q.received, listed, now, olderThan))
  }

  lemma AttemptsStep(q: Lists, listed: seq<nat>, m: nat, now: real, olderThan: real, max: int)
    requires m !in listed
    ensures var before := SweptAttempts(q.attempts, q.received, listed, now, olderThan, max);
      && QueueSteps.Count(before, m) == QueueSteps.Count(q.attempts, m)
      && SweptAttempts(q.attempts, q.received, listed + [m], now, olderThan, max)
         == if IsStale(q.received, now, olderThan, m) && IsSpent(q.attempts, max, m) then before - {m} else before
  {
    assert forall x :: x in listed + [m] <==> x in listed || x == m;
  }

  lemma ReceivedStep(q: Lists, listed: seq<nat>, m: nat, now: real, olderThan: real)
    requires m !in listed
    ensures var before := SweptReceived(q.received, listed, now, olderThan);
      && (m in before <==> m in q.received) && (m in before ==> before[m] == q.received[m])
      && SweptReceived(q.received, listed + [m], now, olderThan)
         == if m !in q.received then before[m := now]
            else if IsStale(q.received, now, olderThan, m) then before - {m} else before
  {
    assert forall x :: x in listed + [m] <==> x in listed || x == m;
  }

  lemma ProcessingStep(q: Lists, listed: seq<nat>, m: nat, rest: seq<nat>, now: real, olderThan: real)
    requires m !in listed
    ensures var p := FreshAt(q.received, now, olderThan);
      && m in Filter(listed, p) + ([m] + rest)
      && Filter(listed + [m], p) + rest
         == if p(m) then Filter(listed, p) + ([m] + rest) else QueueSteps.RemoveOne(Filter(listed, p) + ([m] + rest), m)
  {
    var p := FreshAt(q.received, now, olderThan);
    FilterSnoc(listed, m, p);
    FilterMembers(listed, p);
    assert Filter(listed, p) + ([m] + rest) == Filter(listed, p) + [m] + rest;
    RemoveFromMiddle(Filter(listed, p), m, rest);
  }

  /** One more stale entry, at the end of the requeued ... */
  lemma RequeuedStep(q: Lists, stale: seq<nat>, m: nat, max: int)
    ensures var p := UnspentIn(q.attempts, max);
      q.main + Filter(stale + [m], p) == if p(m) then (q.main + Filter(stale, p)) + [m] else q.main + Filter(stale, p)
  {
    FilterSnoc(stale, m, UnspentIn(q.attempts, max));
    assert (q.main + Filter(stale, UnspentIn(q.attempts, max))) + [m]
           == q.main + (Filter(stale, UnspentIn(q.attempts, max)) + [m]);
  }

  /** ... or at the head of the dead. */
  lemma DeadStep(q: Lists, stale: seq<nat>, m: nat, max: int)
    ensures Dead(q, stale + [m], max) + q.dlq
            == if IsSpent(q.attempts, max, m) then [m] + (Dead(q, stale, max) + q.dlq) else Dead(q, stale, max) + q.dlq
  {
    var p := SpentIn(q.attempts, max);
    FilterSnoc(stale, m, p);
    assert p(m) == IsSpent(q.attempts, max, m);
    if p(m) {
      ReversedConcat(Filter(stale, p), [m]);
      assert Reversed([m]) == [m] by { assert [m][1..] == []; }
      assert ([m] + Dead(q, stale, max)) + q.dlq == [m] + (Dead(q, stale, max) + q.dlq);
    }
  }

  lemma SweptStep(q: Lists, listed: seq<nat>, m: nat, rest: seq<nat>, now: real, olderThan: real, max: int)
    requires m !in listed
    ensures ReclaimOne(Swept(q, listed, [m] + rest, now, olderThan, max), m, now, olderThan, max)
            == Swept(q, listed + [m], rest, now, olderThan, max)
    ensures |StaleOf(q, listed + [m], now, olderThan)|
            == |StaleOf(q, listed, now, olderThan)| + if IsStale(q.received, now, olderThan, m) then 1 else 0
  {
    AttemptsStep(q, listed, m, now, olderThan, max);
    ReceivedStep(q, listed, m, now, olderThan);
    ProcessingStep(q, listed, m, rest, now, olderThan);
    FilterSnoc(listed, m, StaleAt(q.received, now, olderThan));
    RequeuedStep(q, StaleOf(q, listed, now, olderThan), m, max);
    DeadStep(q, StaleOf(q, listed, now, olderThan), m, max);
    assert StaleAt(q.received, now, olderThan)(m) == IsStale(q.received, now, olderThan, m);
    assert FreshAt(q.received, now, olderThan)(m) == !IsStale(q.received, now, olderThan, m);
    assert UnspentIn(q.attempts, max)(m) == !IsSpent(q.attempts, max, m);
    var got := ReclaimOne(Swept(q, listed, [m] + rest, now, olderThan, max), m, now, olderThan, max);
    var want := Swept(q, listed + [m], rest, now, olderThan, max);
    assert got.attempts == want.attempts;
    assert got.received == want.received;
    assert got.processing == want.processing;
    assert got.main == want.main;
    assert got.dlq == want.dlq;
  }

  /** Nothing the pass did so far touched the next entry. */
  lemma EntryStillListed(q: Lists, listed: seq<nat>, m: nat, rest: seq<nat>, now: real, olderThan: real, max: int)
    requires m !in listed
    ensures var r := Swept(q, listed, [m] + rest, now, olderThan, max);
      && m in r.processing && (m in r.received <==> m in q.received)
      && (m in r.received ==> r.received[m] == q.received[m])
  {
    ReceivedStep(q, listed, m, now, olderThan);
    ProcessingStep(q, listed, m, rest, now, olderThan);
  }

  lemma ReclaimSnoc(q: Lists, listed: seq<nat>, m: nat, now: real, olderThan: real, max: int)
    ensures ReclaimAll(q, listed + [m], now, olderThan, max)
            == ReclaimOne(ReclaimAll(q, listed, now, olderThan, max), m, now, olderThan, max)
  {
    assert (listed + [m])[..|listed|] == listed;
  }

  lemma SplitsStep(q: Lists, front: seq<nat>, m: nat, rest: seq<nat>, now: real, olderThan: real, max: int)
    requires m !in front
    requires ReclaimAll(q, front, now, olderThan, max) == Swept(q, front, [m] + rest, now, olderThan, max)
    ensures ReclaimAll(q, front + [m], now, olderThan, max) == Swept(q, front + [m], rest, now, olderThan, max)
  {
    ReclaimSnoc(q, front, m, now, olderThan, max);
    SweptStep(q, front, m, rest, now, olderThan, max);
  }

  lemma SplitAt(s: seq<nat>, i: nat)
    requires i < |s|
    ensures s[..i + 1] == s[..i] + [s[i]] && s[..i + 1][..i] == s[..i] && s[i..] == [s[i]] + s[i + 1..]
    ensures Distinct(s) ==> s[i] !in s[..i]
  {
  }

  /** The first n entries are split as all at once. */
  predicate SplitsTo(q: Lists, n: nat, now: real, olderThan: real, max: int)
    requires n <= |q.processing|
  {
    ReclaimAll(q, q.processing[..n], now, olderThan, max)
    == Swept(q, q.processing[..n], q.processing[n..], now, olderThan, max)
  }

  lemma SplitsNext(q: Lists, n: nat, now: real, olderThan: real, max: int)
    requires Distinct(q.processing) && 0 < n <= |q.processing| && SplitsTo(q, n - 1, now, olderThan, max)
    ensures SplitsTo(q, n, now, olderThan, max)
  {
    SplitAt(q.processing, n - 1);
    SplitsStep(q, q.processing[..n - 1], q.processing[n - 1], q.processing[n..], now, olderThan, max);
  }

  lemma NothingSwept(q: Lists, now: real, olderThan: real, max: int)
    ensures ReclaimAll(q, [], now, olderThan, max) == Swept(q, [], q.processing, now, olderThan, max) == q
  {
    assert SweptReceived(q.received, [], now, olderThan) == q.received;
    assert SweptAttempts(q.attempts, q.received, [], now, olderThan, max) == q.attempts;
  }

  lemma PassStarts(q: Lists, now: real, olderThan: real, max: int)
    ensures var none := q.processing[..0];
      && ReclaimAll(q, none, now, olderThan, max) == q
      && Swept(q, none, q.processing[0..], now, olderThan, max) == q
      && |StaleOf(q, none, now, olderThan)| == 0
  {
    assert q.processing[..0] == [] && q.processing[0..] == q.processing;
    NothingSwept(q, now, olderThan, max);
  }

  lemma {:induction false} AllSplit(q: Lists, n: nat, now: real, olderThan: real, max: int)
    requires Distinct(q.processing) && n <= |q.processing|
    ensures SplitsTo(q, n, now, olderThan, max)
  {
    if n == 0 {
      PassStarts(q, now, olderThan, max);
    } else {
      AllSplit(q, n - 1, now, olderThan, max);
      SplitsNext(q, n, now, olderThan, max);
    }
  }

  /** A pass over the processing list moves exactly the stale entries, each to
      the right list. */
  lemma {:induction false} ReclaimSplits(q: Lists, n: nat, now: real, olderThan: real, max: int)
    requires Distinct(q.processing) && n <= |q.processing|
    ensures ReclaimAll(q, q.processing[..n], now, olderThan, max)
            == Swept(q, q.processing[..n], q.processing[n..], now, olderThan, max)
  {
    AllSplit(q, n, now, olderThan, max);
  }

  /** The pass has dealt with the first i entries and moved n of them. */
  predicate VisitedTo(q: Lists, r: Lists, i: nat, n: nat, now: real, olderThan: real, max: int)
    requires i <= |q.processing|
  {
    && r == ReclaimAll(q, q.processing[..i], now, olderThan, max)
    && n == |StaleOf(q, q.processing[..i], now, olderThan)|
  }

  /** The next entry when the pass gets to it. */
  lemma NextEntry(q: Lists, r: Lists, i: nat, n: nat, now: real, olderThan: real, max: int)
    requires Distinct(q.processing) && i < |q.processing| && VisitedTo(q, r, i, n, now, olderThan, max)
    ensures var m := q.processing[i];
      var took := IsStale(r.received, now, olderThan, m) && m in r.processing;
      VisitedTo(q, ReclaimOne(r, m, now, olderThan, max), i + 1, if took then n + 1 else n, now, olderThan, max)
  {
    var m, front, rest := q.processing[i], q.processing[..i], q.processing[i + 1..];
    SplitAt(q.processing, i);
    ReclaimSplits(q, i, now, olderThan, max);
    EntryStillListed(q, front, m, rest, now, olderThan, max);
    ReclaimSnoc(q, front, m, now, olderThan, max);
    FilterSnoc(front, m, StaleAt(q.received, now, olderThan));
    assert StaleAt(q.received, now, olderThan)(m) == IsStale(q.received, now, olderThan, m);
  }

  /** No message has two copies. */
  ghost predicate NoDuplicates(q: Lists) { forall m :: CopiesIn(q, m) <= 1 }

  lemma NothingVisited(q: Lists, now: real, olderThan: real, max: int)
    ensures VisitedTo(q, q, 0, 0, now, olderThan, max)
  {
    PassStarts(q, now, olderThan, max);
  }

  lemma AllVisited(q: Lists, r: Lists, n: nat, now: real, olderThan: real, max: int)
    requires VisitedTo(q, r, |q.processing|, n, now, olderThan, max)
    ensures r == ReclaimAll(q, q.processing, now, olderThan, max) && n == |StaleOf(q, q.processing, now, olderThan)|
  {
    assert q.processing[..|q.processing|] == q.processing;
  }

  lemma DistinctFromCopies(q: Lists)
    requires NoDuplicates(q)
    ensures Distinct(q.processing)
  {
    var s := q.processing;
    forall i, j | 0 <= i < j < |s| ensures s[i] != s[j] {
      assert CopiesIn(q, s[j]) <= 1;
      assert s == s[..j] + [s[j]] + s[j + 1..];
      assert s[..j][i] == s[i];
    }
  }

  ghost predicate SameCopies(q: Lists, r: Lists) { forall m :: CopiesIn(r, m) == CopiesIn(q, m) }

  /** Off processing and onto one of the other lists. */
  lemma PushedCopies(q: Lists, r: Lists, m: nat)
    requires m in q.processing && r.processing == QueueSteps.RemoveOne(q.processing, m)
    requires (r.main == q.main + [m] && r.dlq == q.dlq) || (r.main == q.main && r.dlq == [m] + q.dlq)
    ensures SameCopies(q, r)
  {
    QueueSteps.RemovedOnce(q.processing, m);
    assert m in multiset(q.processing);
  }

  lemma SameCopiesNoDuplicates(q: Lists, r: Lists)
    requires NoDuplicates(q) && SameCopies(q, r)
    ensures NoDuplicates(r)
  {
    forall m ensures CopiesIn(r, m) <= 1 { assert CopiesIn(q, m) <= 1; }
  }

  /** The pass over the whole list: split in one go, no message gained or lost. */
  lemma WholePass(q: Lists, now: real, olderThan: real, max: int)
    requires NoDuplicates(q)
    ensures ReclaimAll(q, q.processing, now, olderThan, max) == Swept(q, q.processing, [], now, olderThan, max)
    ensures SameCopies(q, ReclaimAll(q, q.processing, now, olderThan, max))
    ensures NoDuplicates(ReclaimAll(q, q.processing, now, olderThan, max))
  {
    var all := q.processing;
    DistinctFromCopies(q);
    ReclaimSplits(q, |all|, now, olderThan, max);
    assert all[..|all|] == all && all[|all|..] == [];
    forall x ensures CopiesIn(ReclaimAll(q, all, now, olderThan, max), x) == CopiesIn(q, x) {
      ReclaimAllConserves(q, all, now, olderThan, max, x);
    }
    SameCopiesNoDuplicates(q, ReclaimAll(q, all, now, olderThan, max));
  }

  class Topic {
    const maxAttempts: int
    var main: seq<nat>
    var processing: seq<nat>
    var dlq: seq<nat>
    var attempts: map<nat, nat>
    var received: map<nat, real>

    function Snapshot(): Lists
      reads this
    {
      Lists(main, processing, dlq, attempts, received)
    }

    ghost predicate Valid()
      reads this
    {
      NoDuplicates(Snapshot())
    }

    constructor (maxAttempts: int)
      ensures Valid() && this.maxAttempts == maxAttempts
      ensures main == [] && processing == [] && dlq == [] && attempts == map[] && received == map[]
    {
      this.maxAttempts := maxAttempts;
      main, processing, dlq, attempts, received := [], [], [], map[], map[];
    }

    method Publish(id: nat)
      requires Valid() && CopiesIn(Snapshot(), id) == 0
      modifies this`main
      ensures Valid() && main == [id] + old(main)
    {
      ghost var q := Snapshot();
      main := [id] + main;
      forall m ensures CopiesIn(Snapshot(), m) <= 1 { assert CopiesIn(q, m) <= 1; }
    }

    /** Move the leftmost message to processing, count the attempt and stamp it. */
    method Consume(now: real) returns (m: Option<nat>)
      requires Valid()
      modifies this`main, this`processing, this`attempts, this`received
      ensures Valid() && SameCopies(old(Snapshot()), Snapshot())
      ensures m.None? <==> old(main) == []
      ensures m.None? ==> main == [] && processing == old(processing)
      ensures m.None? ==> attempts == old(attempts) && received == old(received)
      ensures m.Some? ==> old(main) == [m.value] + main && processing == old(processing) + [m.value]
      ensures m.Some? ==> attempts == old(attempts)[m.value := QueueSteps.Count(old(attempts), m.value) + 1]
      ensures m.Some? ==> received == old(received)[m.value := now]
      ensures m.Some? ==> Snapshot() == Consumed(old(Snapshot()), now)
    {
      ghost var q := Snapshot();
      if main == [] {
        return None;
      }
      var taken := main[0];
      assert main == [taken] + main[1..];
      main, processing := main[1..], processing + [taken];
      attempts := attempts[taken := QueueSteps.Count(attempts, taken) + 1];
      received := received[taken := now];
      assert SameCopies(q, Snapshot());
      SameCopiesNoDuplicates(q, Snapshot());
      m := Some(taken);
    }

    /** LREM: drop the first occurrence and say whether there was one. */
    method RemoveFromProcessing(m: nat) returns (removed: bool)
      requires Valid()
      modifies this`processing
      ensures processing == QueueSteps.RemoveOne(old(processing), m)
      ensures removed <==> m in old(processing)
      ensures Valid()
      ensures forall x ::
        CopiesIn(Snapshot(), x) == CopiesIn(old(Snapshot()), x) - if x == m && removed then 1 else 0
    {
      ghost var q := Snapshot();
      QueueSteps.RemovedOnce(processing, m);
      removed := m in processing;
      assert removed <==> m in multiset(processing);
      processing := QueueSteps.RemoveOne(processing, m);
      forall x ensures CopiesIn(Snapshot(), x) == CopiesIn(q, x) - (if x == m && removed then 1 else 0) <= 1 {
        assert CopiesIn(q, x) <= 1;
      }
    }

    /** The counter and the stamp go even when nothing was left to remove. */
    method Ack(m: nat)
      requires Valid()
      modifies this`processing, this`attempts, this`received
      ensures Valid()
      ensures processing == QueueSteps.RemoveOne(old(processing), m)
      ensures attempts == old(attempts) - {m} && received == old(received) - {m}
      ensures m in old(processing) ==> CopiesIn(Snapshot(), m) == 0
      ensures Snapshot() == Acked(old(Snapshot()), m)
    {
      ghost var q := Snapshot();
      var removed := RemoveFromProcessing(m);
      ghost var r := Snapshot();
      attempts := attempts - {m};
      received := received - {m};
      assert CopiesIn(q, m) <= 1;
      assert SameCopies(r, Snapshot());
      SameCopiesNoDuplicates(r, Snapshot());
    }

    /** Dead-letter a message out of attempts or refused, requeue it otherwise,
        and leave it alone when somebody else already took it off processing. */
    method Nack(m: nat, requeue: bool) returns (dead: bool)
      requires Valid()
      modifies this`main, this`processing, this`dlq, this`attempts, this`received
      ensures Valid() && SameCopies(old(Snapshot()), Snapshot())
      ensures processing == QueueSteps.RemoveOne(old(processing), m)
      ensures dead <==> m in old(processing) && (!requeue || IsSpent(old(attempts), maxAttempts, m))
      ensures main == old(main) + if m in old(processing) && !dead then [m] else []
      ensures dlq == (if dead then [m] else []) + old(dlq)
      ensures attempts == old(attempts) - if dead then {m} else {}
      ensures received == old(received) - if m in old(processing) then {m} else {}
      ensures Snapshot() == Nacked(old(Snapshot()), m, requeue, maxAttempts)
    {
      ghost var q := Snapshot();
      var removed := RemoveFromProcessing(m);
      if !removed {
        QueueSteps.RemovedOnce(q.processing, m);
        assert SameCopies(q, Snapshot());
        return false;
      }
      var count := QueueSteps.Count(attempts, m);
      received := received - {m};
      if !requeue || count >= maxAttempts {
        dlq := [m] + dlq;
        attempts := attempts - {m};
        dead := true;
      } else {
        main := main + [m];
        dead := false;
      }
      PushedCopies(q, Snapshot(), m);
      SameCopiesNoDuplicates(q, Snapshot());
    }

    /** The reaper's handling of one listed entry. */
    method ReclaimEntry(m: nat, now: real, olderThan: real) returns (took: bool)
      requires Valid()
      modifies this`main, this`processing, this`dlq, this`attempts, this`received
      ensures Snapshot() == ReclaimOne(old(Snapshot()), m, now, olderThan, maxAttempts)
      ensures Valid() && SameCopies(old(Snapshot()), Snapshot())
      ensures took <==> IsStale(old(received), now, olderThan, m) && m in old(processing)
    {
      ghost var q := Snapshot();
      forall x ensures CopiesIn(ReclaimOne(q, m, now, olderThan, maxAttempts), x) == CopiesIn(q, x) {
        ReclaimOneConserves(q, m, now, olderThan, maxAttempts, x);
      }
      SameCopiesNoDuplicates(q, ReclaimOne(q, m, now, olderThan, maxAttempts));
      if m !in received {
        received := received[m := now];
        return false;
      }
      if now - received[m] < olderThan {
        return false;
      }
      took := RemoveFromProcessing(m);
      if !took {
        QueueSteps.RemovedOnce(q.processing, m);
        return;
      }
      received := received - {m};
      if QueueSteps.Count(attempts, m) >= maxAttempts {
        dlq := [m] + dlq;
        attempts := attempts - {m};
      } else {
        main := main + [m];
      }
    }

    /** The reaper's loop over the listing it took. */
    method VisitListed(listed: seq<nat>, now: real, olderThan: real) returns (n: nat)
      requires Valid() && listed == processing
      modifies this`main, this`processing, this`dlq, this`attempts, this`received
      ensures Snapshot() == ReclaimAll(old(Snapshot()), listed, now, olderThan, maxAttempts)
      ensures n == |StaleOf(old(Snapshot()), listed, now, olderThan)|
    {
      ghost var start := Snapshot();
      DistinctFromCopies(start);
      NothingVisited(start, now, olderThan, maxAttempts);
      n := 0;
      var i := 0;
      while i < |listed|
        invariant 0 <= i <= |listed| && Valid()
        invariant VisitedTo(start, Snapshot(), i, n, now, olderThan, maxAttempts)
      {
        NextEntry(start, Snapshot(), i, n, now, olderThan, maxAttempts);
        var took := ReclaimEntry(listed[i], now, olderThan);
        if took {
          n := n + 1;
        }
        i := i + 1;
      }
      AllVisited(start, Snapshot(), n, now, olderThan, maxAttempts);
    }

    /** One reaper pass: exactly the stale entries leave processing, the spent
        ones to the dead-letter list and the others to the end of main. */
    method ReclaimStale(now: real, olderThan: real) returns (n: nat)
      requires Valid()
      modifies this`main, this`processing, this`dlq, this`attempts, this`received
      ensures Valid() && SameCopies(old(Snapshot()), Snapshot())
      ensures Snapshot() == Swept(old(Snapshot()), old(processing), [], now, olderThan, maxAttempts)
      ensures n == |StaleOf(old(Snapshot()), old(processing), now, olderThan)|
    {
      WholePass(Snapshot(), now, olderThan, maxAttempts);
      n := VisitListed(processing, now, olderThan);
    }
  }
}
