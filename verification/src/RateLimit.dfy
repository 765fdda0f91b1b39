/** The token bucket that limits control-plane events. */
module RateLimit {
  import opened Net
  import Arith

  datatype Settings = Settings(bucketSize: U64, perTopup: U64, interval: U64)

  /** struct ratelimit_value */
  datatype Bucket = Bucket(lastTopup: U64, tokens: U64)

  function Times(k: nat, n: nat): nat { k * n }

  /** Division and remainder as BPF defines them for a zero divisor. */
  function Div(x: U64, y: U64): U64 { if y == 0 then 0 else Quotient(x, y) }
  function Mod(x: U64, y: U64): U64 { if y == 0 then x else x % y }

  function Quotient(x: U64, y: U64): U64
    requires y > 0
  {
    QuotientFits(x, y);
    x / y
  }

  lemma QuotientFits(x: U64, y: U64)
    requires y > 0
    ensures 0 <= x / y <= x
  {
    var q: nat := x / y;
    assert q * y <= x;
    Arith.MulLe(q, 1, q, y);
  }

  /** Token top-ups due at `now`. */
  function Due(b: Bucket, s: Settings, now: U64): U64 {
    var since := (now - b.lastTopup) % U64_SIZE;
    if since > s.interval then Div(since, s.interval) else 0
  }

  /** The tokens of `k` intervals added with 64-bit wrap-around, then capped. */
  function Refill(tokens: U64, k: U64, s: Settings): U64 {
    var filled := (tokens + Times(k, s.perTopup)) % U64_SIZE;
    if filled > s.bucketSize then s.bucketSize else filled
  }

  /** Top up for every whole interval that has passed, without overfilling the bucket. */
  function TopUp(b: Bucket, s: Settings, now: U64): Bucket {
    var since := (now - b.lastTopup) % U64_SIZE;
    if since > s.interval then
      Bucket((now - Mod(since, s.interval)) % U64_SIZE, Refill(b.tokens, Div(since, s.interval), s))
    else b
  }

  /** The clock, and whether a missing drop counter and a missing bucket could be stored. */
  datatype Env = Env(now: U64, metricsOk: bool, insertOk: bool)

  /** ratelimit_check_and_take, for a key whose bucket is `b` (None if it has none yet). */
  function Take(b: Option<Bucket>, s: Settings, env: Env): (Option<Bucket>, bool) {
    if !env.metricsOk then (b, false)
    else if b.None? then
      if env.insertOk then (Some(Bucket(env.now, (s.perTopup - 1) % U64_SIZE)), true) else (None, false)
    else
      var full := TopUp(b.value, s, env.now);
      if full.tokens > 0 then (Some(full.(tokens := full.tokens - 1)), true) else (Some(full), false)
  }

  /** The bucket and the drop counter of one key, updated in place. The counter is None until its map entry
      exists; a counter created by the very call that drops is a local copy, so that drop goes uncounted. */
  class Limiter {
    var bucket: Option<Bucket>
    var dropped: Option<U64>

    method CheckAndTake(s: Settings, env: Env) returns (ok: bool)
      modifies this
      ensures (bucket, ok) == Take(old(bucket), s, env.(metricsOk := old(dropped).Some? || env.metricsOk))
      ensures dropped == if old(dropped).None? then if env.metricsOk then Some(0) else None
                         else if ok then old(dropped) else Some((old(dropped).value + 1) % U64_SIZE)
    {
      hide Div, Mod, TopUp;
      var counted := dropped.Some?;
      if dropped.None? {
        if !env.metricsOk { return false; }
        dropped := Some(0);
      }
      if bucket.None? {
        if env.insertOk {
          bucket := Some(Bucket(env.now, (s.perTopup - 1) % U64_SIZE));
          return true;
        }
      } else {
        var value := TopUp(bucket.value, s, env.now);
        if value.tokens > 0 {
          bucket := Some(value.(tokens := value.tokens - 1));
          return true;
        }
        bucket := Some(value);
      }
      if counted { dropped := Some((dropped.value + 1) % U64_SIZE); }
      ok := false;
    }
  }

  // ---------------------------------------------------------------- runs on an existing bucket

  function Run(b: Bucket, s: Settings, times: seq<U64>): Bucket
    decreases |times|
  {
    if times == [] then b else Run(Take(Some(b), s, Env(times[0], true, true)).0.value, s, times[1..])
  }

  function Granted(b: Bucket, s: Settings, times: seq<U64>): nat
    decreases |times|
  {
    if times == [] then 0
    else
      var (b', ok) := Take(Some(b), s, Env(times[0], true, true));
      (if ok then 1 else 0) + Granted(b'.value, s, times[1..])
  }

  /** Top-ups a run performs. */
  function TopUps(b: Bucket, s: Settings, times: seq<U64>): nat
    decreases |times|
  {
    if times == [] then 0
    else Due(b, s, times[0]) + TopUps(Take(Some(b), s, Env(times[0], true, true)).0.value, s, times[1..])
  }

  /** The clock does not go backwards. */
  ghost predicate Ordered(b: Bucket, times: seq<U64>) {
    && (forall i :: 0 <= i < |times| ==> b.lastTopup <= times[i])
    && forall i, j :: 0 <= i < j < |times| ==> times[i] <= times[j]
  }

  lemma DivMod(x: U64, y: U64)
    ensures Times(Div(x, y), y) + Mod(x, y) == x
  {
  }

  /** One top-up: whole intervals are added to the timestamp, and at most their tokens to the bucket. */
  lemma TopUpStep(b: Bucket, s: Settings, now: U64)
    requires b.lastTopup <= now
    ensures var b' := TopUp(b, s, now); var k := Due(b, s, now);
            && b'.lastTopup == b.lastTopup + Times(k, s.interval) && b'.lastTopup <= now
            && b'.tokens <= b.tokens + Times(k, s.perTopup)
            && (k > 0 ==> b'.tokens <= s.bucketSize) && (k == 0 ==> b'.tokens <= b.tokens)
  {
    hide Div, Mod, Refill, Times;
    TimesZero(s.interval);
    TimesZero(s.perTopup);
    var since := now - b.lastTopup;
    var k := Div(since, s.interval);
    DivMod(since, s.interval);
    RefillBound(b.tokens, k, s);
    if since > s.interval {
      assert TopUp(b, s, now) == Bucket(now - Mod(since, s.interval), Refill(b.tokens, k, s));
    }
  }

  lemma RefillBound(tokens: U64, k: U64, s: Settings)
    ensures var r := Refill(tokens, k, s);
            r <= tokens + Times(k, s.perTopup) && r <= s.bucketSize && (k == 0 ==> r <= tokens)
  {
    hide Times;
    TimesZero(s.perTopup);
    Reduced(tokens + Times(k, s.perTopup));
  }

  lemma Reduced(x: nat)
    ensures x % U64_SIZE <= x
  {
  }

  lemma TimesZero(n: nat)
    ensures Times(0, n) == 0
  {
  }

  lemma Distribute(k: nat, j: nat, n: nat)
    ensures Times(k + j, n) == Times(k, n) + Times(j, n)
  {
  }

  lemma OrderedTail(b: Bucket, b': Bucket, times: seq<U64>)
    requires Ordered(b, times) && times != [] && b'.lastTopup <= times[0]
    ensures Ordered(b', times[1..])
  {
  }

  /** Over any window, grants are bounded by the tokens held at its start plus the top-ups made in it; and the
      timestamp moves by whole intervals, one per top-up. */
  lemma {:induction false} WindowBound(b: Bucket, s: Settings, times: seq<U64>)
    requires Ordered(b, times)
    ensures var k := TopUps(b, s, times);
            && Granted(b, s, times) + Run(b, s, times).tokens <= b.tokens + Times(k, s.perTopup)
            && Run(b, s, times).lastTopup == b.lastTopup + Times(k, s.interval)
            && Run(b, s, times).lastTopup <= (if times == [] then b.lastTopup else times[|times| - 1])
    decreases |times|
  {
    hide TopUp, Due, Times;
    if times == [] {
      TimesZero(s.interval);
      TimesZero(s.perTopup);
    } else {
      var now := times[0];
      TopUpStep(b, s, now);
      var b1 := Take(Some(b), s, Env(now, true, true)).0.value;
      OrderedTail(b, b1, times);
      WindowBound(b1, s, times[1..]);
      Distribute(Due(b, s, now), TopUps(b1, s, times[1..]), s.perTopup);
      Distribute(Due(b, s, now), TopUps(b1, s, times[1..]), s.interval);
    }
  }

  /** From creation on, grants never exceed perTopup times (1 + elapsed intervals): the bucket is created at
      `t0`, that call is granted, and the calls at `times` follow. */
  lemma {:induction false} CreationBound(s: Settings, t0: U64, times: seq<U64>)
    requires s.perTopup > 0
    requires Ordered(Bucket(t0, 0), times)
    ensures var (b, ok) := Take(None, s, Env(t0, true, true));
            && ok && b.Some?
            && 1 + Granted(b.value, s, times) <=
               Times(1 + Div((if times == [] then t0 else times[|times| - 1]) - t0, s.interval), s.perTopup)
            && exists k: nat :: Run(b.value, s, times).lastTopup == t0 + Times(k, s.interval)
  {
    hide Div, Run, Granted, TopUps, Times;
    var b := Bucket(t0, s.perTopup - 1);
    var k := TopUps(b, s, times);
    var end := if times == [] then t0 else times[|times| - 1];
    WindowBound(b, s, times);
    assert Run(b, s, times).lastTopup == t0 + Times(k, s.interval);
    if s.interval == 0 {
      NoTopUps(b, s, times);
    } else {
      WholeIntervals(k, s.interval, end - t0);
    }
    Limit(k, Div(end - t0, s.interval), s.perTopup);
  }

  lemma Limit(k: nat, d: nat, n: nat)
    requires k <= d
    ensures n + Times(k, n) <= Times(1 + d, n)
  {
    Arith.MulLe(k, n, d, n);
    Distribute(1, d, n);
  }

  lemma WholeIntervals(k: nat, interval: U64, elapsed: U64)
    requires interval > 0 && Times(k, interval) <= elapsed
    ensures k <= Div(elapsed, interval)
  {
    var q := elapsed / interval;
    assert elapsed < q * interval + interval;
    if q < k { Arith.MulLe(q + 1, interval, k, interval); }
  }

  lemma {:induction false} NoTopUps(b: Bucket, s: Settings, times: seq<U64>)
    requires s.interval == 0
    ensures TopUps(b, s, times) == 0
    decreases |times|
  {
    if times != [] {
      NoTopUps(Take(Some(b), s, Env(times[0], true, true)).0.value, s, times[1..]);
    }
  }

  /** The bound needs perTopup > 0: with 0 the initial fill wraps around to 2^64 - 1 tokens, and the very first
      call already exceeds a limit of zero. */
  lemma ZeroTopupUnlimited(s: Settings, t0: U64)
    ensures var (b, ok) := Take(None, s, Env(t0, true, true));
            && ok && b.Some?
            && (1 <= Times(1 + Div(0, s.interval), s.perTopup) <==> s.perTopup > 0)
            && (s.perTopup == 0 <==> b.value.tokens == U64_SIZE - 1)
  {
    Distribute(1, Div(0, s.interval), s.perTopup);
    Arith.MulLe(0, s.perTopup, Div(0, s.interval), s.perTopup);
  }

  /** "A bucket will never have more than bucketSize tokens": true of every state iff it is true of the fresh
      bucket, because the initial fill is not capped. */
  lemma {:induction false} BucketSizeIff(s: Settings, t0: U64)
    ensures (forall times: seq<U64> :: Ordered(Bucket(t0, 0), times) ==>
               Run(Take(None, s, Env(t0, true, true)).0.value, s, times).tokens <= s.bucketSize)
            <==> (s.perTopup > 0 && s.perTopup - 1 <= s.bucketSize) || s.bucketSize == U64_SIZE - 1
  {
    var b := Take(None, s, Env(t0, true, true)).0.value;
    if b.tokens <= s.bucketSize {
      forall times: seq<U64> | Ordered(Bucket(t0, 0), times)
        ensures Run(b, s, times).tokens <= s.bucketSize
      {
        StaysCapped(b, s, times);
      }
    } else {
      assert Ordered(Bucket(t0, 0), []) && Run(b, s, []) == b;
    }
  }

  lemma {:induction false} StaysCapped(b: Bucket, s: Settings, times: seq<U64>)
    requires b.tokens <= s.bucketSize && Ordered(b, times)
    ensures Run(b, s, times).tokens <= s.bucketSize
    decreases |times|
  {
    hide TopUp, Due;
    if times != [] {
      TopUpStep(b, s, times[0]);
      var b1 := Take(Some(b), s, Env(times[0], true, true)).0.value;
      OrderedTail(b, b1, times);
      StaysCapped(b1, s, times[1..]);
    }
  }

  // ---------------------------------------------------------------- nothing is withheld

  /** What a top-up leaves in the bucket: everything due, up to the size of the bucket. */
  lemma TopUpFills(b: Bucket, s: Settings, now: U64)
    requires b.lastTopup <= now && b.tokens + Times(Due(b, s, now), s.perTopup) < U64_SIZE
    ensures var tokens := b.tokens + Times(Due(b, s, now), s.perTopup);
            TopUp(b, s, now).tokens ==
            if now - b.lastTopup <= s.interval then b.tokens else if tokens > s.bucketSize then s.bucketSize else tokens
    ensures now - b.lastTopup > s.interval && s.interval > 0 ==> Due(b, s, now) == (now - b.lastTopup) / s.interval
    ensures now - b.lastTopup <= s.interval ==> Due(b, s, now) == 0
  {
    hide Times;
  }

  /** A request is granted iff the bucket, topped up, holds a token; a grant takes one, a refusal none. */
  lemma GrantedIff(b: Bucket, s: Settings, now: U64, metricsOk: bool, insertOk: bool)
    ensures var (b', ok) := Take(Some(b), s, Env(now, metricsOk, insertOk)); var full := TopUp(b, s, now);
            && (ok <==> metricsOk && full.tokens > 0)
            && (metricsOk ==> b' == Some(full.(tokens := full.tokens - if ok then 1 else 0)))
            && (!metricsOk ==> b' == Some(b))
  {
    hide TopUp;
  }

  /** The first request of a key: granted iff the counter and the bucket could be stored. */
  lemma FirstRequest(s: Settings, env: Env)
    ensures var (b, ok) := Take(None, s, env);
            && (ok <==> env.metricsOk && env.insertOk)
            && (ok ==> b.Some? && b.value.lastTopup == env.now && (s.perTopup > 0 ==> b.value.tokens == s.perTopup - 1))
            && (!ok ==> b == None)
  {
  }

  /** No top-up of the run meets the size of the bucket or the end of the 64-bit range. */
  ghost predicate NeverFull(b: Bucket, s: Settings, times: seq<U64>)
    decreases |times|
  {
    times == []
    || (b.tokens + Times(Due(b, s, times[0]), s.perTopup) < U64_SIZE
        && b.tokens + Times(Due(b, s, times[0]), s.perTopup) <= s.bucketSize
        && NeverFull(Take(Some(b), s, Env(times[0], true, true)).0.value, s, times[1..]))
  }

  /** Conservation: while the bucket is never full, every token there was or was added is granted or still there. */
  lemma {:induction false} NothingIsLost(b: Bucket, s: Settings, times: seq<U64>)
    requires Ordered(b, times) && NeverFull(b, s, times)
    ensures Granted(b, s, times) + Run(b, s, times).tokens == b.tokens + Times(TopUps(b, s, times), s.perTopup)
    decreases |times|
  {
    hide Times, Due, TopUp;
    TimesZero(s.perTopup);
    if times != [] {
      var k, now := Due(b, s, times[0]), times[0];
      var b' := Take(Some(b), s, Env(now, true, true)).0.value;
      TopUpFills(b, s, now);
      TopUpStep(b, s, now);
      OrderedTail(b, b', times);
      NothingIsLost(b', s, times[1..]);
      Distribute(k, TopUps(b', s, times[1..]), s.perTopup);
    }
  }
}
