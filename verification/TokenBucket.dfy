/** The per-key rate limiter: a token bucket over real time, and one bucket per
    key created on first use. */
module TokenBucket {
  /** Tokens left after the last call, and when that was. */
  datatype Level = Level(tokens: real, last: real)

  function Min(a: real, b: real): real { if a <= b then a else b }

  function Gained(rate: real, since: real, now: real): real { (now - since) * rate }

  function Refilled(rate: real, burst: real, level: Level, now: real): real {
    Min(burst, level.tokens + Gained(rate, level.last, now))
  }

  function Taken(rate: real, burst: real, level: Level, now: real): (bool, Level) {
    var tokens := Refilled(rate, burst, level, now);
    if tokens >= 1.0 then (true, Level(tokens - 1.0, now)) else (false, Level(tokens, now))
  }

  class Bucket {
    const rate: real
    const burst: real
    var tokens: real
    var last: real

    function View(): Level
      reads this
    {
      Level(tokens, last)
    }

    constructor (rate: real, burst: real, now: real)
      ensures this.rate == rate && this.burst == burst && View() == Level(burst, now)
    {
      this.rate, this.burst := rate, burst;
      tokens, last := burst, now;
    }

    method Take(now: real) returns (ok: bool)
      modifies this
      ensures (ok, View()) == Taken(rate, burst, old(View()), now)
    {
      var elapsed := now - last;
      assert elapsed * rate == Gained(rate, last, now);
      last := now;
      tokens := Min(burst, tokens + elapsed * rate);
      assert tokens == Refilled(rate, burst, old(View()), now);
      if tokens >= 1.0 {
        tokens := tokens - 1.0;
        return true;
      }
      return false;
    }
  }

  // ----- one bucket over a run of calls -----

  function After(rate: real, burst: real, born: real, times: seq<real>): Level {
    if times == [] then Level(burst, born)
    else Taken(rate, burst, After(rate, burst, born, times[..|times| - 1]), times[|times| - 1]).1
  }

  /** The accept or reject decision of every call. */
  function Decisions(rate: real, burst: real, born: real, times: seq<real>): (d: seq<bool>)
    ensures |d| == |times|
  {
    if times == [] then []
    else
      var front := times[..|times| - 1];
      Decisions(rate, burst, born, front) + [Taken(rate, burst, After(rate, burst, born, front), times[|times| - 1]).0]
  }

  predicate NonDecreasing(born: real, times: seq<real>) {
    && (forall i :: 0 <= i < |times| ==> born <= times[i])
    && (forall i, j :: 0 <= i < j < |times| ==> times[i] <= times[j])
  }

  /** Calls accepted by a choice among the calls i to j - 1. */
  function Accepted(d: seq<bool>, i: nat, j: nat): nat
    requires i <= j <= |d|
  {
    if i == j then 0 else Accepted(d, i, j - 1) + (if d[j - 1] then 1 else 0)
  }

  lemma {:induction false} AcceptedSplits(d: seq<bool>, i: nat, k: nat, j: nat)
    requires i <= k <= j <= |d|
    ensures Accepted(d, i, j) == Accepted(d, i, k) + Accepted(d, k, j)
  {
    if k < j {
      AcceptedSplits(d, i, k, j - 1);
    }
  }

  lemma {:induction false} AcceptedPrefix(d: seq<bool>, e: seq<bool>, i: nat, j: nat)
    requires i <= j <= |d| && d <= e
    ensures Accepted(d, i, j) == Accepted(e, i, j)
  {
    if i < j {
      AcceptedPrefix(d, e, i, j - 1);
    }
  }

  /** What a window that opens with a full bucket at call i may hold by time t. */
  function Allowance(rate: real, burst: real, start: real, t: real): real { burst + rate * (t - start) }

  lemma GainAdds(rate: real, a: real, b: real, c: real)
    ensures Gained(rate, a, c) == Gained(rate, a, b) + Gained(rate, b, c)
    ensures forall burst :: Allowance(rate, burst, a, c) == burst + Gained(rate, a, c)
    ensures Gained(rate, a, a) == 0.0
    ensures rate >= 0.0 && a <= b ==> Gained(rate, a, b) >= 0.0
  {
    if rate >= 0.0 && a <= b {
      assert (b - a) * rate >= 0.0;
    }
  }

  /** The tokens a window's bound leaves unspent. */
  function Left(rate: real, burst: real, times: seq<real>, d: seq<bool>, i: nat): real
    requires i < |times| == |d|
  {
    Allowance(rate, burst, times[i], times[|times| - 1]) - Accepted(d, i, |d|) as real
  }

  /** One call later, every open window has grown by the elapsed time and shrunk
      by the call, if accepted. */
  lemma LeftStep(rate: real, burst: real, times: seq<real>, d: seq<bool>, i: nat)
    requires i + 1 < |times| == |d|
    ensures var n := |times| - 1;
      Left(rate, burst, times, d, i)
      == Left(rate, burst, times[..n], d[..n], i) + Gained(rate, times[n - 1], times[n]) - (if d[n] then 1.0 else 0.0)
  {
    var n := |times| - 1;
    GainAdds(rate, times[i], times[n - 1], times[n]);
    AcceptedPrefix(d[..n], d, i, n);
  }

  lemma TakenTokens(rate: real, burst: real, level: Level, now: real)
    ensures var (ok, after) := Taken(rate, burst, level, now);
      && after.last == now
      && after.tokens == Refilled(rate, burst, level, now) - (if ok then 1.0 else 0.0)
      && (ok <==> Refilled(rate, burst, level, now) >= 1.0)
  {
  }

  lemma LastCall(rate: real, burst: real, born: real, times: seq<real>)
    ensures After(rate, burst, born, times).last == (if times == [] then born else times[|times| - 1])
  {
  }

  /** One call, in terms of the level before it. */
  lemma LevelStep(rate: real, burst: real, born: real, times: seq<real>)
    requires times != []
    ensures var n := |times| - 1;
      var d := Decisions(rate, burst, born, times);
      var before, after := After(rate, burst, born, times[..n]), After(rate, burst, born, times);
      && d[..n] == Decisions(rate, burst, born, times[..n])
      && before.last == (if n == 0 then born else times[n - 1])
      && after.tokens == Refilled(rate, burst, before, times[n]) - (if d[n] then 1.0 else 0.0)
      && (d[n] <==> Refilled(rate, burst, before, times[n]) >= 1.0)
  {
    var n := |times| - 1;
    LastCall(rate, burst, born, times[..n]);
    TakenTokens(rate, burst, After(rate, burst, born, times[..n]), times[n]);
  }

  lemma NoTimeRunsBack(rate: real, burst: real, born: real, times: seq<real>)
    requires rate >= 0.0 && times != [] && NonDecreasing(born, times)
    ensures Gained(rate, After(rate, burst, born, times[..|times| - 1]).last, times[|times| - 1]) >= 0.0
  {
    var n := |times| - 1;
    LastCall(rate, burst, born, times[..n]);
    var since := if n == 0 then born else times[n - 1];
    GainAdds(rate, since, times[n], times[n]);
  }

  lemma OpeningWindow(rate: real, burst: real, times: seq<real>, d: seq<bool>)
    requires 0 < |times| == |d|
    ensures var n := |times| - 1; Left(rate, burst, times, d, n) == burst - (if d[n] then 1.0 else 0.0)
  {
    var n := |times| - 1;
    GainAdds(rate, times[n], times[n], times[n]);
    assert Accepted(d, n, n) == 0;
  }

  /** The level over any run, in closed form: the least that any window of past
      calls leaves unspent. */
  lemma {:induction false} LevelIsLeastLeft(rate: real, burst: real, born: real, times: seq<real>) returns (k: nat)
    requires rate >= 0.0 && times != [] && NonDecreasing(born, times)
    ensures var d, tokens := Decisions(rate, burst, born, times), After(rate, burst, born, times).tokens;
      && k < |times| && tokens == Left(rate, burst, times, d, k)
      && forall i :: 0 <= i < |times| ==> tokens <= Left(rate, burst, times, d, i)
  {
    var n := |times| - 1;
    var d := Decisions(rate, burst, born, times);
    var before := After(rate, burst, born, times[..n]);
    LevelStep(rate, burst, born, times);
    NoTimeRunsBack(rate, burst, born, times);
    OpeningWindow(rate, burst, times, d);
    k := n;
    if n == 0 {
    } else {
      var j := LevelIsLeastLeft(rate, burst, born, times[..n]);
      LeftStep(rate, burst, times, d, j);
      if before.tokens + Gained(rate, before.last, times[n]) <= burst {
        k := j;
      }
      forall i | 0 <= i < n
        ensures After(rate, burst, born, times).tokens <= Left(rate, burst, times, d, i)
      {
        LeftStep(rate, burst, times, d, i);
      }
    }
  }

  lemma {:induction false} NeverOverdrawn(rate: real, burst: real, born: real, times: seq<real>)
    requires rate >= 0.0 && burst >= 0.0 && NonDecreasing(born, times)
    ensures After(rate, burst, born, times).tokens >= 0.0
  {
    if times == [] {
    } else {
      NeverOverdrawn(rate, burst, born, times[..|times| - 1]);
      LevelStep(rate, burst, born, times);
      NoTimeRunsBack(rate, burst, born, times);
    }
  }

  /** A choice within the limit: every window of calls i to j accepts at most
      burst plus rate times its length. */
  predicate WithinLimit(rate: real, burst: real, times: seq<real>, d: seq<bool>)
    requires |times| == |d|
  {
    forall i, j :: 0 <= i < j <= |d| ==> Accepted(d, i, j) as real <= Allowance(rate, burst, times[i], times[j - 1])
  }

  lemma {:induction false} DecisionsPrefix(rate: real, burst: real, born: real, times: seq<real>, n: nat)
    requires n <= |times|
    ensures Decisions(rate, burst, born, times)[..n] == Decisions(rate, burst, born, times[..n])
  {
    if n < |times| {
      DecisionsPrefix(rate, burst, born, times[..|times| - 1], n);
      assert times[..|times| - 1][..n] == times[..n];
    } else {
      assert times[..n] == times;
    }
  }

  /** Every window of any run is within the limit. */
  lemma BucketKeepsTheLimit(rate: real, burst: real, born: real, times: seq<real>)
    requires rate >= 0.0 && burst >= 0.0 && NonDecreasing(born, times)
    ensures WithinLimit(rate, burst, times, Decisions(rate, burst, born, times))
  {
    var d := Decisions(rate, burst, born, times);
    forall i, j | 0 <= i < j <= |d|
      ensures Accepted(d, i, j) as real <= Allowance(rate, burst, times[i], times[j - 1])
    {
      var past := times[..j];
      var k := LevelIsLeastLeft(rate, burst, born, past);
      NeverOverdrawn(rate, burst, born, past);
      DecisionsPrefix(rate, burst, born, times, j);
      AcceptedPrefix(Decisions(rate, burst, born, past), d, i, j);
      assert Left(rate, burst, past, Decisions(rate, burst, born, past), i) >= 0.0;
    }
  }

  /** A rejected call finds some window that one more acceptance would break. */
  lemma RejectionHasAReason(rate: real, burst: real, born: real, times: seq<real>) returns (k: nat)
    requires rate >= 0.0 && times != [] && NonDecreasing(born, times)
    requires !Decisions(rate, burst, born, times)[|times| - 1]
    ensures k < |times|
    ensures Accepted(Decisions(rate, burst, born, times), k, |times|) as real + 1.0
            > Allowance(rate, burst, times[k], times[|times| - 1])
  {
    k := LevelIsLeastLeft(rate, burst, born, times);
  }

  /** No other choice within the limit accepts more, on any prefix of the run. */
  lemma {:induction false} BucketIsOptimal(rate: real, burst: real, born: real, times: seq<real>, other: seq<bool>,
                                           n: nat)
    requires rate >= 0.0 && burst >= 0.0 && NonDecreasing(born, times)
    requires |other| == |times| && WithinLimit(rate, burst, times, other) && n <= |times|
    ensures Accepted(other, 0, n) <= Accepted(Decisions(rate, burst, born, times), 0, n)
  {
    if n == 0 {
    } else {
      var d := Decisions(rate, burst, born, times);
      BucketIsOptimal(rate, burst, born, times, other, n - 1);
      if other[n - 1] && !d[n - 1] {
        var past := times[..n];
        DecisionsPrefix(rate, burst, born, times, n);
        var k := RejectionHasAReason(rate, burst, born, past);
        AcceptedPrefix(Decisions(rate, burst, born, past), d, k, n);
        BucketIsOptimal(rate, burst, born, times, other, k);
        AcceptedSplits(other, 0, k, n);
        AcceptedSplits(d, 0, k, n);
        assert Accepted(other, k, n) as real <= Allowance(rate, burst, times[k], times[n - 1]);
        assert Accepted(other, k, n) <= Accepted(d, k, n);
      }
    }
  }

  // ----- one bucket per key -----

  function Limited(rate: real, burst: real, levels: map<string, Level>, key: string, created: real, now: real)
    : (bool, map<string, Level>)
  {
    var level := if key in levels then levels[key] else Level(burst, created);
    (Taken(rate, burst, level, now).0, levels[key := Taken(rate, burst, level, now).1])
  }

  class RateLimiter {
    const rate: real
    const burst: real
    var buckets: map<string, Bucket>

    /** Every key has its own bucket, at the configured rate and burst. */
    ghost predicate Valid()
      reads this, buckets.Values
    {
      && (forall k :: k in buckets ==> buckets[k].rate == rate && buckets[k].burst == burst)
      && (forall k, l :: k in buckets && l in buckets && k != l ==> buckets[k] != buckets[l])
    }

    function View(): map<string, Level>
      reads this, buckets.Values
    {
      map k | k in buckets :: buckets[k].View()
    }

    constructor (rate: real, burst: real)
      ensures Valid() && this.rate == rate && this.burst == burst && View() == map[]
    {
      this.rate, this.burst := rate, burst;
      buckets := map[];
    }

    /** Spend one token of a key's bucket, creating it full on first use. */
    method TakeToken(key: string, created: real, now: real) returns (ok: bool)
      requires Valid()
      modifies this, buckets.Values
      ensures Valid()
      ensures (ok, View()) == Limited(rate, burst, old(View()), key, created, now)
    {
      ghost var before := View();
      var bucket: Bucket;
      if key in buckets {
        bucket := buckets[key];
      } else {
        bucket := new Bucket(rate, burst, created);
        buckets := buckets[key := bucket];
      }
      ghost var level := bucket.View();
      ok := bucket.Take(now);
      assert View() == before[key := Taken(rate, burst, level, now).1];
    }
  }

  /** One call to the limiter; created matters only for a key's first call. */
  datatype Call = Call(key: string, created: real, now: real)

  function LevelsAfter(rate: real, burst: real, calls: seq<Call>): map<string, Level> {
    if calls == [] then map[]
    else
      var c := calls[|calls| - 1];
      Limited(rate, burst, LevelsAfter(rate, burst, calls[..|calls| - 1]), c.key, c.created, c.now).1
  }

  function TimesOf(calls: seq<Call>, key: string): seq<real> {
    if calls == [] then []
    else
      var c := calls[|calls| - 1];
      TimesOf(calls[..|calls| - 1], key) + (if c.key == key then [c.now] else [])
  }

  /** When a key's bucket was created: at its first call. */
  function BornOf(calls: seq<Call>, key: string): real {
    if calls == [] then 0.0
    else
      var c, front := calls[|calls| - 1], calls[..|calls| - 1];
      if TimesOf(front, key) == [] && c.key == key then c.created else BornOf(front, key)
  }

  /** A key's bucket depends on that key's calls alone: it is one bucket fed with
      just their times, whatever the other keys do. */
  lemma {:induction false} KeysAreIndependent(rate: real, burst: real, calls: seq<Call>, key: string)
    ensures var levels := LevelsAfter(rate, burst, calls);
      && (key in levels <==> TimesOf(calls, key) != [])
      && (key in levels ==> levels[key] == After(rate, burst, BornOf(calls, key), TimesOf(calls, key)))
  {
    if calls == [] {
    } else {
      var c, front := calls[|calls| - 1], calls[..|calls| - 1];
      KeysAreIndependent(rate, burst, front, key);
      if c.key == key {
        var times := TimesOf(front, key);
        assert (times + [c.now])[..|times|] == times;
        assert TimesOf(calls, key) == times + [c.now];
        assert times != [] ==> BornOf(calls, key) == BornOf(front, key);
      } else {
        assert TimesOf(calls, key) == TimesOf(front, key);
      }
    }
  }

  /** What the limiter answered to one key's calls. */
  function AnswersOf(rate: real, burst: real, calls: seq<Call>, key: string): seq<bool> {
    if calls == [] then []
    else
      var c, front := calls[|calls| - 1], calls[..|calls| - 1];
      var answer := Limited(rate, burst, LevelsAfter(rate, burst, front), c.key, c.created, c.now).0;
      AnswersOf(rate, burst, front, key) + (if c.key == key then [answer] else [])
  }

  /** To each key the limiter answers what that one bucket decides. */
  lemma {:induction false} AnswersAreTheBuckets(rate: real, burst: real, calls: seq<Call>, key: string)
    ensures AnswersOf(rate, burst, calls, key) == Decisions(rate, burst, BornOf(calls, key), TimesOf(calls, key))
  {
    if calls == [] {
    } else {
      var c, front := calls[|calls| - 1], calls[..|calls| - 1];
      AnswersAreTheBuckets(rate, burst, front, key);
      KeysAreIndependent(rate, burst, front, key);
      if c.key == key {
        var times := TimesOf(front, key);
        assert (times + [c.now])[..|times|] == times;
        assert TimesOf(calls, key) == times + [c.now];
        assert times != [] ==> BornOf(calls, key) == BornOf(front, key);
      } else {
        assert TimesOf(calls, key) == TimesOf(front, key);
      }
    }
  }

  /** What the rate limiter is for: whatever other keys do, one key's accepted calls
      keep within the limit, and no other choice within it accepts more of them. */
  lemma LimiterIsTightPerKey(rate: real, burst: real, calls: seq<Call>, key: string, other: seq<bool>, n: nat)
    requires rate >= 0.0 && burst >= 0.0
    requires var times := TimesOf(calls, key);
      && NonDecreasing(BornOf(calls, key), times)
      && |other| == |times| && WithinLimit(rate, burst, times, other) && n <= |times|
    ensures var times, answers := TimesOf(calls, key), AnswersOf(rate, burst, calls, key);
      && |answers| == |times| && WithinLimit(rate, burst, times, answers)
      && Accepted(other, 0, n) <= Accepted(answers, 0, n)
  {
    AnswersAreTheBuckets(rate, burst, calls, key);
    BucketKeepsTheLimit(rate, burst, BornOf(calls, key), TimesOf(calls, key));
    BucketIsOptimal(rate, burst, BornOf(calls, key), TimesOf(calls, key), other, n);
  }
}
