/** The token-bucket limiter of server/internal/api/middleware/ratelimit.go.

  Floats and times are reals, times in seconds.  A call reads the clock up to three
  times, so it carries three readings. */
module RateLimits {
  datatype Config = Config(rate: real, capacity: real, ttl: real)

  const BUCKET_TTL: real := 300.0

  datatype Bucket = Bucket(tokens: real, lastRefill: real)

  type Buckets = map<string, Bucket>

  /** One Allow: the readings by time.Since, by gc, and by the refill. */
  datatype Call = Call(key: string, since: real, gcNow: real, now: real)

  function Min(a: real, b: real): real {
    if a < b then a else b
  }

  /** Tokens that flow in over a span of time. */
  function Flow(rate: real, span: real): real {
    span * rate
  }

  // ---- The limiter without garbage collection: the reference ----

  function Refilled(cfg: Config, b: Bucket, now: real): Bucket {
    Bucket(Min(b.tokens + Flow(cfg.rate, now - b.lastRefill), cfg.capacity), now)
  }

  function Decided(cfg: Config, m: Buckets, key: string, now: real): (Buckets, bool) {
    if key !in m then (m[key := Bucket(cfg.capacity - 1.0, now)], true)
    else
      var b := Refilled(cfg, m[key], now);
      if b.tokens < 1.0 then (m[key := b], false)
      else (m[key := b.(tokens := b.tokens - 1.0)], true)
  }

  function Answers(cfg: Config, m: Buckets, calls: seq<Call>): (r: seq<bool>)
    ensures |r| == |calls|
    decreases |calls|
  {
    if calls == [] then []
    else
      var (next, ok) := Decided(cfg, m, calls[0].key, calls[0].now);
      [ok] + Answers(cfg, next, calls[1..])
  }

  function After(cfg: Config, m: Buckets, calls: seq<Call>): Buckets
    decreases |calls|
  {
    if calls == [] then m else After(cfg, Decided(cfg, m, calls[0].key, calls[0].now).0, calls[1..])
  }

  // ---- The limiter as written ----

  function Collected(cfg: Config, m: Buckets, now: real): Buckets {
    map k | k in m && now - m[k].lastRefill <= cfg.ttl :: m[k]
  }

  datatype State = State(buckets: Buckets, lastGC: real)

  function Swept(cfg: Config, s: State, c: Call): State {
    if c.since - s.lastGC > cfg.ttl then State(Collected(cfg, s.buckets, c.gcNow), c.gcNow) else s
  }

  function Allowed(cfg: Config, s: State, c: Call): (State, bool) {
    var t := Swept(cfg, s, c);
    var (m, ok) := Decided(cfg, t.buckets, c.key, c.now);
    (t.(buckets := m), ok)
  }

  function AnswersWithGC(cfg: Config, s: State, calls: seq<Call>): (r: seq<bool>)
    ensures |r| == |calls|
    decreases |calls|
  {
    if calls == [] then []
    else
      var (next, ok) := Allowed(cfg, s, calls[0]);
      [ok] + AnswersWithGC(cfg, next, calls[1..])
  }

  class RateLimiter {
    const cfg: Config
    var buckets: Buckets
    var lastGC: real

    ghost function View(): State
      reads this
    {
      State(buckets, lastGC)
    }

    constructor (rate: real, burst: real, now: real)
      ensures cfg == Config(rate, burst, BUCKET_TTL) && View() == State(map[], now)
    {
      cfg := Config(rate, burst, BUCKET_TTL);
      buckets, lastGC := map[], now;
    }

    method Allow(c: Call) returns (ok: bool)
      modifies this
      ensures (View(), ok) == Allowed(cfg, old(View()), c)
    {
      if c.since - lastGC > cfg.ttl {
        Gc(c.gcNow);
      }
      if c.key !in buckets {
        buckets := buckets[c.key := Bucket(cfg.capacity - 1.0, c.now)];
        return true;
      }
      var b := buckets[c.key];
      b := Bucket(Min(b.tokens + Flow(cfg.rate, c.now - b.lastRefill), cfg.capacity), c.now);
      buckets := buckets[c.key := b];
      if b.tokens < 1.0 {
        return false;
      }
      buckets := buckets[c.key := b.(tokens := b.tokens - 1.0)];
      assert buckets == Decided(cfg, Swept(cfg, old(View()), c).buckets, c.key, c.now).0;
      return true;
    }

    /** Deletes while ranging over the map, in any order. */
    method Gc(now: real)
      modifies this
      ensures View() == State(Collected(cfg, old(buckets), now), now)
    {
      var todo := buckets.Keys;
      while todo != {}
        invariant todo <= buckets.Keys <= old(buckets).Keys
        invariant forall k :: k in buckets ==> buckets[k] == old(buckets)[k]
        invariant forall k :: k in old(buckets) && k !in todo ==>
                    (k in buckets <==> now - old(buckets)[k].lastRefill <= cfg.ttl)
        decreases |todo|
      {
        var k :| k in todo;
        if now - buckets[k].lastRefill > cfg.ttl {
          buckets := buckets - {k};
        }
        todo := todo - {k};
      }
      lastGC := now;
    }
  }

  // ---- The window bound ----

  /** The clock never runs backwards, within a call or from call to call. */
  ghost predicate Ordered(calls: seq<Call>, from: real)
    decreases |calls|
  {
    calls == [] ||
    (from <= calls[0].since <= calls[0].gcNow <= calls[0].now && Ordered(calls[1..], calls[0].now))
  }

  /** The decision times alone. */
  ghost predicate Timed(calls: seq<Call>, from: real)
    decreases |calls|
  {
    calls == [] || (from <= calls[0].now && Timed(calls[1..], calls[0].now))
  }

  ghost predicate Sane(cfg: Config, m: Buckets, t: real) {
    forall k :: k in m ==> 0.0 <= m[k].tokens <= cfg.capacity && m[k].lastRefill <= t
  }

  ghost function CountAllowed(key: string, calls: seq<Call>, answers: seq<bool>): nat
    requires |calls| == |answers|
    decreases |calls|
  {
    if calls == [] then 0
    else (if calls[0].key == key && answers[0] then 1 else 0) + CountAllowed(key, calls[1..], answers[1..])
  }

  /** What a bucket holds at time t: what was left, plus the inflow since, up to the capacity. */
  ghost function Level(cfg: Config, b: Bucket, t: real): real {
    Min(cfg.capacity, b.tokens + Flow(cfg.rate, t - b.lastRefill))
  }

  /** Tokens the key could spend at time t; a full bucket if it is not known. */
  ghost function Available(cfg: Config, m: Buckets, key: string, t: real): real {
    if key in m then Level(cfg, m[key], t) else cfg.capacity
  }

  lemma FlowIsMonotone(rate: real, a: real, b: real)
    requires 0.0 <= rate && a <= b
    ensures Flow(rate, a) <= Flow(rate, b)
    ensures Flow(rate, 0.0) == 0.0
    ensures 0.0 <= a ==> 0.0 <= Flow(rate, a)
  {}

  lemma FlowIsStrict(rate: real, a: real, b: real)
    requires 0.0 < rate && a < b
    ensures Flow(rate, a) < Flow(rate, b)
  {
    assert (b - a) * rate > 0.0;
  }

  lemma FlowAdds(rate: real, a: real, b: real, c: real)
    ensures Flow(rate, c - a) == Flow(rate, b - a) + Flow(rate, c - b)
  {}

  lemma DecidedIsSane(cfg: Config, m: Buckets, key: string, t: real, now: real)
    requires 0.0 <= cfg.rate && 1.0 <= cfg.capacity && Sane(cfg, m, t) && t <= now
    ensures Sane(cfg, Decided(cfg, m, key, now).0, now)
  {
    if key in m {
      FlowIsMonotone(cfg.rate, 0.0, now - m[key].lastRefill);
    }
  }

  /** What a call spends and leaves is no more than was there plus what flowed in. */
  lemma CallConserves(cfg: Config, m: Buckets, key: string, t: real, now: real)
    requires 0.0 <= cfg.rate && 1.0 <= cfg.capacity && Sane(cfg, m, t) && t <= now
    ensures var (next, ok) := Decided(cfg, m, key, now);
            (if ok then 1.0 else 0.0) + Available(cfg, next, key, now)
              <= Available(cfg, m, key, t) + Flow(cfg.rate, now - t)
  {
    FlowIsMonotone(cfg.rate, 0.0, now - t);
    if key in m {
      var b := m[key];
      FlowAdds(cfg.rate, b.lastRefill, t, now);
    }
  }

  lemma AvailableIsPositive(cfg: Config, m: Buckets, key: string, t: real)
    requires 0.0 <= cfg.rate && 1.0 <= cfg.capacity && Sane(cfg, m, t)
    ensures 0.0 <= Available(cfg, m, key, t) <= cfg.capacity
  {
    if key in m {
      FlowIsMonotone(cfg.rate, 0.0, t - m[key].lastRefill);
    }
  }

  lemma CallSpends(cfg: Config, m: Buckets, key: string, c: Call, t: real)
    requires 0.0 <= cfg.rate && 1.0 <= cfg.capacity && Sane(cfg, m, t) && t <= c.now
    ensures var (next, ok) := Decided(cfg, m, c.key, c.now);
            (if c.key == key && ok then 1.0 else 0.0) + Available(cfg, next, key, c.now)
              <= Available(cfg, m, key, t) + Flow(cfg.rate, c.now - t)
  {
    if c.key == key {
      CallConserves(cfg, m, key, t, c.now);
    } else {
      OtherKeyRefills(cfg, m, Decided(cfg, m, c.key, c.now).0, key, t, c.now);
    }
  }

  lemma {:induction false} SpendingBound(cfg: Config, m: Buckets, key: string, calls: seq<Call>, start: real, end: real)
    requires 0.0 <= cfg.rate && 1.0 <= cfg.capacity && Sane(cfg, m, start) && Timed(calls, start)
    requires start <= end && forall c :: c in calls ==> c.now <= end
    ensures CountAllowed(key, calls, Answers(cfg, m, calls)) as real
              <= Available(cfg, m, key, start) + Flow(cfg.rate, end - start)
    decreases |calls|
  {
    if calls == [] {
      AvailableIsPositive(cfg, m, key, start);
      FlowIsMonotone(cfg.rate, 0.0, end - start);
    } else {
      var c := calls[0];
      var (next, ok) := Decided(cfg, m, c.key, c.now);
      DecidedIsSane(cfg, m, c.key, start, c.now);
      SpendingBound(cfg, next, key, calls[1..], c.now, end);
      CallSpends(cfg, m, key, c, start);
      FlowAdds(cfg.rate, start, c.now, end);
      assert Answers(cfg, m, calls)[0] == ok && Answers(cfg, m, calls)[1..] == Answers(cfg, next, calls[1..]);
    }
  }

  lemma OtherKeyRefills(cfg: Config, m: Buckets, next: Buckets, key: string, t: real, now: real)
    requires 0.0 <= cfg.rate && t <= now
    requires key in next <==> key in m
    requires key in m ==> next[key] == m[key]
    ensures Available(cfg, next, key, now) <= Available(cfg, m, key, t) + Flow(cfg.rate, now - t)
  {
    FlowIsMonotone(cfg.rate, 0.0, now - t);
    if key in m {
      FlowAdds(cfg.rate, m[key].lastRefill, t, now);
    }
  }

  lemma {:induction false} SaneAfter(cfg: Config, m: Buckets, calls: seq<Call>, start: real, t: real)
    requires 0.0 <= cfg.rate && 1.0 <= cfg.capacity && Sane(cfg, m, start)
    requires start <= t && Timed(calls, start) && forall c :: c in calls ==> c.now <= t
    ensures Sane(cfg, After(cfg, m, calls), t)
    decreases |calls|
  {
    if calls != [] {
      DecidedIsSane(cfg, m, calls[0].key, start, calls[0].now);
      SaneAfter(cfg, Decided(cfg, m, calls[0].key, calls[0].now).0, calls[1..], calls[0].now, t);
    }
  }

  lemma {:induction false} AnswersSplit(cfg: Config, m: Buckets, calls: seq<Call>, i: nat)
    requires i <= |calls|
    ensures Answers(cfg, m, calls)[i..] == Answers(cfg, After(cfg, m, calls[..i]), calls[i..])
    decreases i
  {
    if i == 0 {
      assert calls[..0] == [] && calls[0..] == calls;
    } else {
      AnswersSplit(cfg, Decided(cfg, m, calls[0].key, calls[0].now).0, calls[1..], i - 1);
      assert calls[..i][1..] == calls[1..][..i - 1] && calls[1..][i - 1..] == calls[i..];
    }
  }

  lemma {:induction false} AnswersPrefix(cfg: Config, m: Buckets, calls: seq<Call>, j: nat)
    requires j <= |calls|
    ensures Answers(cfg, m, calls)[..j] == Answers(cfg, m, calls[..j])
    decreases j
  {
    if j > 0 {
      AnswersPrefix(cfg, Decided(cfg, m, calls[0].key, calls[0].now).0, calls[1..], j - 1);
      assert calls[..j][1..] == calls[1..][..j - 1];
    }
  }

  lemma {:induction false} OrderedIsTimed(calls: seq<Call>, from: real)
    requires Ordered(calls, from)
    ensures Timed(calls, from)
    decreases |calls|
  {
    if calls != [] {
      OrderedIsTimed(calls[1..], calls[0].now);
    }
  }

  /** A history up to a call and from that call on. */
  lemma {:induction false} TimedSplits(calls: seq<Call>, from: real, i: nat)
    requires Timed(calls, from) && i < |calls|
    ensures from <= calls[i].now
    ensures Timed(calls[..i], from) && (forall c :: c in calls[..i] ==> c.now <= calls[i].now)
    ensures Timed(calls[i..], calls[i].now)
    decreases i
  {
    if i > 0 {
      TimedSplits(calls[1..], calls[0].now, i - 1);
      assert calls[1..][i - 1..] == calls[i..] && calls[..i] == [calls[0]] + calls[1..][..i - 1];
    } else {
      assert calls[0..] == calls;
    }
  }

  lemma {:induction false} TimedPrefix(calls: seq<Call>, from: real, j: nat)
    requires Timed(calls, from) && j <= |calls|
    ensures Timed(calls[..j], from)
    decreases j
  {
    if j > 0 {
      TimedPrefix(calls[1..], calls[0].now, j - 1);
      assert calls[..j][1..] == calls[1..][..j - 1];
    }
  }

  /** In any window of any history, a key is allowed at most capacity + rate * T
    requests, T being the time from the window's first decision to its end. */
  lemma WindowBound(cfg: Config, calls: seq<Call>, key: string, start: real, i: nat, j: nat, end: real)
    requires 0.0 <= cfg.rate && 1.0 <= cfg.capacity && Timed(calls, start)
    requires i < j <= |calls| && forall c :: c in calls[i..j] ==> c.now <= end
    ensures CountAllowed(key, calls[i..j], Answers(cfg, map[], calls)[i..j]) as real
              <= cfg.capacity + Flow(cfg.rate, end - calls[i].now)
  {
    var prefix := calls[..j];
    TimedPrefix(calls, start, j);
    TimedSplits(prefix, start, i);
    var m := After(cfg, map[], prefix[..i]);
    SaneAfter(cfg, map[], prefix[..i], start, calls[i].now);
    AnswersPrefix(cfg, map[], calls, j);
    AnswersSplit(cfg, map[], prefix, i);
    assert prefix[i..] == calls[i..j];
    assert Answers(cfg, map[], calls)[i..j] == Answers(cfg, map[], calls)[..j][i..];
    assert calls[i..j][0] == calls[i];
    SpendingBound(cfg, m, key, calls[i..j], calls[i].now, end);
    AvailableIsPositive(cfg, m, key, calls[i].now);
  }

  // ---- Nothing is withheld ----

  /** Looking at a bucket on the way does not change what it holds later. */
  lemma LevelLater(cfg: Config, b: Bucket, now: real, t: real)
    requires 0.0 <= cfg.rate && now <= t
    ensures Level(cfg, Bucket(Level(cfg, b, now), now), t) == Level(cfg, b, t)
  {
    FlowAdds(cfg.rate, b.lastRefill, now, t);
    FlowIsMonotone(cfg.rate, 0.0, t - now);
  }

  /** A call is allowed exactly when there is a token, and leaves one less; a refused one
    leaves what there was. */
  lemma CallTakes(cfg: Config, m: Buckets, key: string, now: real)
    requires 1.0 <= cfg.capacity
    ensures var (next, ok) := Decided(cfg, m, key, now);
            && (ok <==> Available(cfg, m, key, now) >= 1.0)
            && next == m[key := Bucket(Available(cfg, m, key, now) - (if ok then 1.0 else 0.0), now)]
  {
    if key in m {
      RefilledIsLevel(cfg, m[key], now);
    }
  }

  lemma RefilledIsLevel(cfg: Config, b: Bucket, now: real)
    ensures Refilled(cfg, b, now) == Bucket(Level(cfg, b, now), now)
  {}

  /** So refusing a call takes nothing, then or later, and no other key is ever touched. */
  lemma CallIsExact(cfg: Config, m: Buckets, key: string, now: real, k: string, t: real)
    requires 0.0 <= cfg.rate && 1.0 <= cfg.capacity && now <= t
    ensures var (next, ok) := Decided(cfg, m, key, now);
            && (k != key || (!ok && key in m) ==> Available(cfg, next, k, t) == Available(cfg, m, k, t))
            && (ok ==> Available(cfg, next, key, t)
                         == Min(cfg.capacity, Available(cfg, m, key, now) - 1.0 + Flow(cfg.rate, t - now)))
  {
    CallTakes(cfg, m, key, now);
    if key in m {
      LevelLater(cfg, m[key], now, t);
    }
  }


  /** From time t on, the two bucket maps hold the same for every key. */
  ghost predicate SameFrom(cfg: Config, m: Buckets, n: Buckets, t: real) {
    forall k, u :: t <= u ==> Available(cfg, m, k, u) == Available(cfg, n, k, u)
  }

  lemma SameDecision(cfg: Config, m: Buckets, n: Buckets, key: string, t: real, now: real)
    requires 0.0 <= cfg.rate && 1.0 <= cfg.capacity && SameFrom(cfg, m, n, t) && t <= now
    ensures Decided(cfg, m, key, now).1 == Decided(cfg, n, key, now).1
    ensures SameFrom(cfg, Decided(cfg, m, key, now).0, Decided(cfg, n, key, now).0, now)
  {
    assert Available(cfg, m, key, now) == Available(cfg, n, key, now);
    CallTakes(cfg, m, key, now);
    CallTakes(cfg, n, key, now);
    forall k, u | now <= u
      ensures Available(cfg, Decided(cfg, m, key, now).0, k, u) == Available(cfg, Decided(cfg, n, key, now).0, k, u)
    {
      CallIsExact(cfg, m, key, now, k, u);
      CallIsExact(cfg, n, key, now, k, u);
      assert Available(cfg, m, k, u) == Available(cfg, n, k, u);
    }
  }

  lemma {:induction false} SameAnswers(cfg: Config, m: Buckets, n: Buckets, calls: seq<Call>, t: real)
    requires 0.0 <= cfg.rate && 1.0 <= cfg.capacity && SameFrom(cfg, m, n, t) && Timed(calls, t)
    ensures Answers(cfg, m, calls) == Answers(cfg, n, calls)
    decreases |calls|
  {
    if calls != [] {
      var c := calls[0];
      SameDecision(cfg, m, n, c.key, t, c.now);
      SameAnswers(cfg, Decided(cfg, m, c.key, c.now).0, Decided(cfg, n, c.key, c.now).0, calls[1..], c.now);
    }
  }

  function Without<T>(s: seq<T>, i: nat): seq<T>
    requires i < |s|
  {
    s[..i] + s[i + 1..]
  }

  lemma WithoutCons<T>(s: seq<T>, i: nat)
    requires 0 < i < |s|
    ensures Without(s, i) == [s[0]] + Without(s[1..], i - 1)
  {}

  /** A refused call might as well not have been made: without it, every other call of the
    history is answered as before. */
  lemma {:induction false} RefusedCallsDoNotCount(cfg: Config, m: Buckets, calls: seq<Call>, i: nat, t: real)
    requires 0.0 <= cfg.rate && 1.0 <= cfg.capacity && Timed(calls, t)
    requires i < |calls| && !Answers(cfg, m, calls)[i]
    ensures Answers(cfg, m, Without(calls, i)) == Without(Answers(cfg, m, calls), i)
    decreases i
  {
    var c := calls[0];
    var (next, ok) := Decided(cfg, m, c.key, c.now);
    var tail := Answers(cfg, next, calls[1..]);
    assert Answers(cfg, m, calls) == [ok] + tail;
    if i == 0 {
      assert Without(calls, 0) == calls[1..] && Without([ok] + tail, 0) == tail;
      RefusalChangesNothing(cfg, m, c.key, c.now);
      SameAnswers(cfg, m, next, calls[1..], c.now);
    } else {
      RefusedCallsDoNotCount(cfg, next, calls[1..], i - 1, c.now);
      WithoutCons(calls, i);
      AnswersCons(cfg, m, c, Without(calls[1..], i - 1));
      WithoutCons([ok] + tail, i);
      assert ([ok] + tail)[1..] == tail;
    }
  }

  lemma AnswersCons(cfg: Config, m: Buckets, c: Call, rest: seq<Call>)
    ensures var (next, ok) := Decided(cfg, m, c.key, c.now);
            Answers(cfg, m, [c] + rest) == [ok] + Answers(cfg, next, rest)
  {
    assert ([c] + rest)[1..] == rest;
  }

  lemma RefusalChangesNothing(cfg: Config, m: Buckets, key: string, now: real)
    requires 0.0 <= cfg.rate && 1.0 <= cfg.capacity && !Decided(cfg, m, key, now).1
    ensures SameFrom(cfg, m, Decided(cfg, m, key, now).0, now)
  {
    forall k, u | now <= u
      ensures Available(cfg, m, k, u) == Available(cfg, Decided(cfg, m, key, now).0, k, u)
    {
      CallIsExact(cfg, m, key, now, k, u);
    }
  }

  /** Every bucket was last refilled by a call for its key, and holds no debt. */
  ghost predicate FromCalls(m: Buckets, calls: seq<Call>) {
    forall k :: k in m ==> 0.0 <= m[k].tokens && exists c :: c in calls && c.key == k && c.now == m[k].lastRefill
  }

  ghost function StateAfter(cfg: Config, s: State, calls: seq<Call>): State {
    if calls == [] then s
    else Allowed(cfg, StateAfter(cfg, s, calls[..|calls| - 1]), calls[|calls| - 1]).0
  }

  lemma CallKeepsFromCalls(cfg: Config, s: State, calls: seq<Call>, c: Call)
    requires 0.0 <= cfg.rate && 1.0 <= cfg.capacity && FromCalls(s.buckets, calls)
    requires forall d :: d in calls ==> d.now <= c.now
    ensures FromCalls(Allowed(cfg, s, c).0.buckets, calls + [c])
  {
    var m := Swept(cfg, s, c).buckets;
    assert c in calls + [c];
    if c.key in m {
      FlowIsMonotone(cfg.rate, 0.0, c.now - m[c.key].lastRefill);
    }
    forall k | k in Allowed(cfg, s, c).0.buckets && k != c.key
      ensures exists d :: d in calls + [c] && d.key == k && d.now == s.buckets[k].lastRefill
    {
      var d :| d in calls && d.key == k && d.now == s.buckets[k].lastRefill;
      assert d in calls + [c];
    }
  }

  lemma {:induction false} BucketsComeFromCalls(cfg: Config, calls: seq<Call>, start: real)
    requires 0.0 <= cfg.rate && 1.0 <= cfg.capacity && forall i, j :: 0 <= i <= j < |calls| ==> calls[i].now <= calls[j].now
    ensures FromCalls(StateAfter(cfg, State(map[], start), calls).buckets, calls)
    decreases |calls|
  {
    if calls != [] {
      var n := |calls| - 1;
      BucketsComeFromCalls(cfg, calls[..n], start);
      CallKeepsFromCalls(cfg, StateAfter(cfg, State(map[], start), calls[..n]), calls[..n], calls[n]);
      assert calls[..n] + [calls[n]] == calls;
    }
  }

  lemma LevelAtLeast(cfg: Config, b: Bucket, t: real)
    requires 1.0 <= cfg.capacity && 0.0 <= b.tokens && 1.0 <= Flow(cfg.rate, t - b.lastRefill)
    ensures 1.0 <= Level(cfg, b, t)
  {}

  /** The inflow between two calls is worth a token. */
  ghost predicate Spaced(cfg: Config, d: Call, c: Call) {
    1.0 <= (c.now - d.now) * cfg.rate
  }

  lemma SpacedDecision(cfg: Config, s: State, calls: seq<Call>, c: Call)
    requires 1.0 <= cfg.capacity && FromCalls(s.buckets, calls)
    requires forall d :: d in calls && d.key == c.key ==> Spaced(cfg, d, c)
    ensures Allowed(cfg, s, c).1
  {
    var m := Swept(cfg, s, c).buckets;
    if c.key in m {
      assert c.key in s.buckets && m[c.key] == s.buckets[c.key];
      var d :| d in calls && d.key == c.key && d.now == m[c.key].lastRefill;
      assert Spaced(cfg, d, c) && c.now - d.now == c.now - m[c.key].lastRefill;
      LevelAtLeast(cfg, m[c.key], c.now);
    }
    CallTakes(cfg, m, c.key, c.now);
  }

  /** With gc running, whatever the capacity and TTL: a call that comes at least 1/rate after
    every earlier call of its key is allowed, however often the key was refused before. */
  lemma SpacedCallIsAllowed(cfg: Config, calls: seq<Call>, c: Call, start: real)
    requires 0.0 <= cfg.rate && 1.0 <= cfg.capacity && forall i, j :: 0 <= i <= j < |calls| ==> calls[i].now <= calls[j].now
    requires forall d :: d in calls && d.key == c.key ==> Spaced(cfg, d, c)
    ensures Allowed(cfg, StateAfter(cfg, State(map[], start), calls), c).1
  {
    BucketsComeFromCalls(cfg, calls, start);
    SpacedDecision(cfg, StateAfter(cfg, State(map[], start), calls), calls, c);
  }

  // ---- Garbage collection is unobservable ----

  /** The collected map is the full one minus buckets that have been idle long enough
    to be full again. */
  ghost predicate Simulates(cfg: Config, m: Buckets, full: Buckets, t: real) {
    && (forall k :: k in m ==> k in full && full[k] == m[k])
    && (forall k :: k in full && k !in m ==> t - full[k].lastRefill > cfg.ttl)
    && Sane(cfg, full, t)
  }

  ghost predicate Refills(cfg: Config) {
    0.0 <= cfg.rate && 1.0 <= cfg.capacity && cfg.capacity <= Flow(cfg.rate, cfg.ttl)
  }

  lemma IdleBucketIsFull(cfg: Config, b: Bucket, now: real)
    requires Refills(cfg) && 0.0 <= b.tokens && now - b.lastRefill > cfg.ttl
    ensures Refilled(cfg, b, now) == Bucket(cfg.capacity, now)
  {
    FlowIsMonotone(cfg.rate, cfg.ttl, now - b.lastRefill);
  }

  lemma StepSimulates(cfg: Config, s: State, full: Buckets, t: real, c: Call)
    requires Refills(cfg) && Simulates(cfg, s.buckets, full, t)
    requires t <= c.since <= c.gcNow <= c.now
    ensures Allowed(cfg, s, c).1 == Decided(cfg, full, c.key, c.now).1
    ensures Simulates(cfg, Allowed(cfg, s, c).0.buckets, Decided(cfg, full, c.key, c.now).0, c.now)
  {
    var m := Swept(cfg, s, c).buckets;
    assert Simulates(cfg, m, full, c.gcNow);
    DecidedIsSane(cfg, full, c.key, t, c.now);
    if c.key in full && c.key !in m {
      IdleBucketIsFull(cfg, full[c.key], c.now);
    }
  }

  /** The limiter with gc answers every call as the one that never evicts. */
  lemma {:induction false} GcUnobservable(cfg: Config, s: State, full: Buckets, t: real, calls: seq<Call>)
    requires Refills(cfg) && Simulates(cfg, s.buckets, full, t) && Ordered(calls, t)
    ensures AnswersWithGC(cfg, s, calls) == Answers(cfg, full, calls)
    decreases |calls|
  {
    if calls != [] {
      StepSimulates(cfg, s, full, t, calls[0]);
      GcUnobservable(cfg, Allowed(cfg, s, calls[0]).0, Decided(cfg, full, calls[0].key, calls[0].now).0,
                     calls[0].now, calls[1..]);
    }
  }

  /** The bound for the limiter as written, from a new limiter. */
  lemma WindowBoundWithGC(cfg: Config, calls: seq<Call>, key: string, start: real, i: nat, j: nat, end: real)
    requires Refills(cfg) && Ordered(calls, start)
    requires i < j <= |calls| && forall c :: c in calls[i..j] ==> c.now <= end
    ensures CountAllowed(key, calls[i..j], AnswersWithGC(cfg, State(map[], start), calls)[i..j]) as real
              <= cfg.capacity + Flow(cfg.rate, end - calls[i].now)
  {
    GcUnobservable(cfg, State(map[], start), map[], start, calls);
    OrderedIsTimed(calls, start);
    WindowBound(cfg, calls, key, start, i, j, end);
  }

  // ---- ... and otherwise it is observable ----

  /** n calls for one key at one time, then the rest. */
  function Burst(key: string, t: real, n: nat, rest: seq<Call>): (calls: seq<Call>)
    ensures |calls| == n + |rest|
    decreases n
  {
    if n == 0 then rest else [Call(key, t, t, t)] + Burst(key, t, n - 1, rest)
  }

  function One(key: string, tokens: real, t: real, lastGC: real): State {
    State(map[key := Bucket(tokens, t)], lastGC)
  }

  lemma PaidCall(cfg: Config, key: string, tokens: real, t: real, lastGC: real)
    requires t - lastGC <= cfg.ttl && 1.0 <= tokens <= cfg.capacity
    ensures Allowed(cfg, One(key, tokens, t, lastGC), Call(key, t, t, t)) == (One(key, tokens - 1.0, t, lastGC), true)
  {
    FlowAdds(cfg.rate, t, t, t);
    assert Refilled(cfg, Bucket(tokens, t), t) == Bucket(tokens, t);
    assert map[key := Bucket(tokens, t)][key := Bucket(tokens - 1.0, t)] == map[key := Bucket(tokens - 1.0, t)];
  }

  lemma CountPaid(cfg: Config, s: State, next: State, key: string, calls: seq<Call>)
    requires calls != [] && calls[0].key == key && Allowed(cfg, s, calls[0]) == (next, true)
    ensures CountAllowed(key, calls, AnswersWithGC(cfg, s, calls))
         == 1 + CountAllowed(key, calls[1..], AnswersWithGC(cfg, next, calls[1..]))
  {}

  /** A bucket refilled at t pays for as many calls at t as it has whole tokens. */
  lemma {:induction false} BurstIsAllowed(cfg: Config, key: string, tokens: real, left: real, t: real, lastGC: real,
                                          n: nat, rest: seq<Call>)
    requires t - lastGC <= cfg.ttl && 0.0 <= left && tokens == left + n as real && tokens <= cfg.capacity
    ensures CountAllowed(key, Burst(key, t, n, rest), AnswersWithGC(cfg, One(key, tokens, t, lastGC), Burst(key, t, n, rest)))
         == n + CountAllowed(key, rest, AnswersWithGC(cfg, One(key, left, t, lastGC), rest))
    decreases n
  {
    if n > 0 {
      var calls := Burst(key, t, n, rest);
      assert calls[0] == Call(key, t, t, t) && calls[1..] == Burst(key, t, n - 1, rest);
      PaidCall(cfg, key, tokens, t, lastGC);
      CountPaid(cfg, One(key, tokens, t, lastGC), One(key, tokens - 1.0, t, lastGC), key, calls);
      BurstIsAllowed(cfg, key, tokens - 1.0, left, t, lastGC, n - 1, rest);
    }
  }

  /** The same, when the first call creates the bucket. */
  lemma FirstBurst(cfg: Config, s: State, key: string, t: real, n: nat, left: real, rest: seq<Call>)
    requires 0.0 <= cfg.ttl && 1 <= n && 0.0 <= left && cfg.capacity == left + n as real
    requires Swept(cfg, s, Call(key, t, t, t)) == State(map[], t)
    ensures CountAllowed(key, Burst(key, t, n, rest), AnswersWithGC(cfg, s, Burst(key, t, n, rest)))
         == n + CountAllowed(key, rest, AnswersWithGC(cfg, One(key, left, t, t), rest))
  {
    var calls := Burst(key, t, n, rest);
    assert calls[0] == Call(key, t, t, t) && calls[1..] == Burst(key, t, n - 1, rest);
    CountPaid(cfg, s, One(key, cfg.capacity - 1.0, t, t), key, calls);
    BurstIsAllowed(cfg, key, cfg.capacity - 1.0, left, t, t, n - 1, rest);
  }

  /** A call at the moment the bucket holds one token again is allowed, whether or not gc
    has evicted the bucket by then. */
  lemma TopUpIsAllowed(cfg: Config, key: string, left: real, t: real, w: real)
    requires 1.0 <= cfg.capacity && 0.0 <= w && left + Flow(cfg.rate, w) == 1.0
    ensures var last := [Call(key, t + w, t + w, t + w)];
            CountAllowed(key, last, AnswersWithGC(cfg, One(key, left, t, t), last)) == 1
  {
    var call := Call(key, t + w, t + w, t + w);
    assert Allowed(cfg, One(key, left, t, t), call).1;
    CountPaid(cfg, One(key, left, t, t), Allowed(cfg, One(key, left, t, t), call).0, key, [call]);
  }

  /** If it has not, the bucket is then empty. */
  lemma TopUpDrains(cfg: Config, key: string, left: real, t: real, w: real)
    requires 1.0 <= cfg.capacity && 0.0 <= w <= cfg.ttl && left + Flow(cfg.rate, w) == 1.0
    ensures Allowed(cfg, One(key, left, t, t), Call(key, t + w, t + w, t + w)) == (One(key, 0.0, t + w, t), true)
  {
    var before, after := One(key, left, t, t).buckets, One(key, 0.0, t + w, t).buckets;
    assert Refilled(cfg, before[key], t + w) == Bucket(1.0, t + w);
    assert before[key := Bucket(0.0, t + w)] == after;
  }

  /** A moment after the TTL by which less than some amount has flowed in. */
  lemma MomentBefore(cfg: Config, limit: real) returns (t: real)
    requires 0.0 <= cfg.rate && Flow(cfg.rate, cfg.ttl) < limit
    ensures cfg.ttl < t && Flow(cfg.rate, t) < limit
  {
    var gap := limit - Flow(cfg.rate, cfg.ttl);
    var step := gap / (cfg.rate + 1.0);
    assert step * (cfg.rate + 1.0) == gap;
    assert step * cfg.rate == gap - step;
    assert step > 0.0;
    t := cfg.ttl + step;
    assert Flow(cfg.rate, t) == Flow(cfg.rate, cfg.ttl) + step * cfg.rate;
  }

  lemma WaitForToken(cfg: Config, left: real) returns (w: real)
    requires 0.0 < cfg.rate && left < 1.0
    ensures 0.0 < w && left + Flow(cfg.rate, w) == 1.0
  {
    w := (1.0 - left) / cfg.rate;
    assert w * cfg.rate == 1.0 - left;
  }

  lemma {:induction false} OrderedBurst(key: string, t: real, n: nat, rest: seq<Call>, from: real, end: real)
    requires from <= t <= end && Ordered(rest, t) && forall c :: c in rest ==> c.now <= end
    ensures Ordered(Burst(key, t, n, rest), from) && forall c :: c in Burst(key, t, n, rest) ==> c.now <= end
    decreases n
  {
    if n > 0 {
      OrderedBurst(key, t, n - 1, rest, t, end);
      assert Burst(key, t, n, rest)[1..] == Burst(key, t, n - 1, rest);
    } else if rest != [] {
      assert from <= rest[0].since;
    }
  }

  /** The collecting limiter, idle for more than the TTL, starts over. */
  lemma IdleIsForgotten(cfg: Config, key: string, left: real, since: real, lastGC: real, t: real)
    requires t - since > cfg.ttl && t - lastGC > cfg.ttl
    ensures Swept(cfg, One(key, left, since, lastGC), Call(key, t, t, t)) == State(map[], t)
  {
    assert Collected(cfg, One(key, left, since, lastGC).buckets, t) == map[];
  }

  /** A history up to some time in which more is allowed than capacity and inflow. */
  ghost predicate Overdrawn(cfg: Config, key: string, calls: seq<Call>, end: real) {
    && Ordered(calls, 0.0) && (forall c :: c in calls ==> c.now <= end) && 0.0 <= end
    && CountAllowed(key, calls, AnswersWithGC(cfg, State(map[], 0.0), calls)) as real > cfg.capacity + Flow(cfg.rate, end)
  }

  /** The limiter without gc never allows that much. */
  lemma OverdrawnShowsGc(cfg: Config, key: string, calls: seq<Call>, end: real)
    requires 0.0 <= cfg.rate && 1.0 <= cfg.capacity && Overdrawn(cfg, key, calls, end)
    ensures AnswersWithGC(cfg, State(map[], 0.0), calls) != Answers(cfg, map[], calls)
  {
    OrderedIsTimed(calls, 0.0);
    SpendingBound(cfg, map[], key, calls, 0.0, end);
  }

  /** After more than the TTL, a burst is allowed in full again. */
  lemma SecondBurst(cfg: Config, key: string, tokens: real, since: real, lastGC: real, t: real, n: nat, left: real, last: seq<Call>)
    requires 0.0 <= cfg.ttl && 1 <= n && 0.0 <= left && cfg.capacity == left + n as real
    requires t - since > cfg.ttl && t - lastGC > cfg.ttl
    ensures var calls := Burst(key, t, n, last);
            CountAllowed(key, calls, AnswersWithGC(cfg, One(key, tokens, since, lastGC), calls))
              == n + CountAllowed(key, last, AnswersWithGC(cfg, One(key, left, t, t), last))
  {
    IdleIsForgotten(cfg, key, tokens, since, lastGC, t);
    FirstBurst(cfg, One(key, tokens, since, lastGC), key, t, n, left, last);
  }

  // Two full bursts, the second just after the TTL, and one more call as soon as gc's
  // bucket has a token for it.

  function TwoBursts(key: string, n: nat, t: real, last: seq<Call>): seq<Call> {
    Burst(key, 0.0, n, Burst(key, t, n, last))
  }

  lemma TwoBurstsCount(cfg: Config, key: string, n: nat, left: real, t: real, last: seq<Call>)
    requires 0.0 <= cfg.ttl < t && 1 <= n && 0.0 <= left && cfg.capacity == left + n as real
    ensures var calls := TwoBursts(key, n, t, last);
            CountAllowed(key, calls, AnswersWithGC(cfg, State(map[], 0.0), calls))
              == n + n + CountAllowed(key, last, AnswersWithGC(cfg, One(key, left, t, t), last))
  {
    FirstBurst(cfg, State(map[], 0.0), key, 0.0, n, left, Burst(key, t, n, last));
    SecondBurst(cfg, key, left, 0.0, 0.0, t, n, left, last);
  }

  lemma TwoBurstsOrdered(key: string, n: nat, t: real, last: seq<Call>, end: real)
    requires 0.0 <= t <= end && Ordered(last, t) && forall c :: c in last ==> c.now <= end
    ensures var calls := TwoBursts(key, n, t, last);
            Ordered(calls, 0.0) && forall c :: c in calls ==> c.now <= end
  {
    OrderedBurst(key, t, n, last, 0.0, end);
    OrderedBurst(key, 0.0, n, Burst(key, t, n, last), 0.0, end);
  }

  lemma BurstsExceed(cfg: Config, n: nat, left: real, t: real, w: real)
    requires cfg.capacity == left + n as real && Flow(cfg.rate, t) < n as real && left + Flow(cfg.rate, w) == 1.0
    ensures (n + n + 1) as real > cfg.capacity + Flow(cfg.rate, t + w)
  {
    FlowAdds(cfg.rate, 0.0, t, t + w);
  }

  lemma TwoBurstsOverdraw(cfg: Config, n: nat, left: real, key: string) returns (calls: seq<Call>, end: real)
    requires 0.0 <= cfg.rate && 0.0 <= cfg.ttl && 1 <= n && 0.0 <= left < 1.0 && cfg.capacity == left + n as real
    requires Flow(cfg.rate, cfg.ttl) < n as real
    ensures Overdrawn(cfg, key, calls, end)
  {
    var t := MomentBefore(cfg, n as real);
    if cfg.rate > 0.0 {
      var w := WaitForToken(cfg, left);
      var last := [Call(key, t + w, t + w, t + w)];
      calls := TwoBursts(key, n, t, last);
      TwoBurstsCount(cfg, key, n, left, t, last);
      TopUpIsAllowed(cfg, key, left, t, w);
      TwoBurstsOrdered(key, n, t, last, t + w);
      BurstsExceed(cfg, n, left, t, w);
      end := t + w;
    } else {
      calls := TwoBursts(key, n, t, []);
      TwoBurstsCount(cfg, key, n, left, t, []);
      TwoBurstsOrdered(key, n, t, [], t);
      assert Flow(cfg.rate, t) == 0.0;
      end := t;
    }
  }

  // A full burst and one more call that empties the bucket; and the same again just after
  // the TTL.

  function TwoDrains(key: string, n: nat, w: real, t: real): seq<Call> {
    Burst(key, 0.0, n, [Call(key, w, w, w)] + Burst(key, t, n, [Call(key, t + w, t + w, t + w)]))
  }

  lemma TwoDrainsCount(cfg: Config, key: string, n: nat, left: real, w: real, t: real)
    requires 1 <= n && 0.0 <= left && cfg.capacity == left + n as real
    requires 0.0 <= w <= cfg.ttl < t - w && left + Flow(cfg.rate, w) == 1.0
    ensures var calls := TwoDrains(key, n, w, t);
            CountAllowed(key, calls, AnswersWithGC(cfg, State(map[], 0.0), calls)) == n + 1 + n + 1
  {
    var last := [Call(key, t + w, t + w, t + w)];
    var pause := [Call(key, w, w, w)] + Burst(key, t, n, last);
    FirstBurst(cfg, State(map[], 0.0), key, 0.0, n, left, pause);
    TopUpDrains(cfg, key, left, 0.0, w);
    CountPaid(cfg, One(key, left, 0.0, 0.0), One(key, 0.0, w, 0.0), key, pause);
    assert pause[1..] == Burst(key, t, n, last);
    SecondBurst(cfg, key, 0.0, w, 0.0, t, n, left, last);
    TopUpIsAllowed(cfg, key, left, t, w);
  }

  lemma TwoDrainsOrdered(key: string, n: nat, w: real, t: real)
    requires 0.0 <= w <= t
    ensures var calls := TwoDrains(key, n, w, t);
            Ordered(calls, 0.0) && forall c :: c in calls ==> c.now <= t + w
  {
    var last := [Call(key, t + w, t + w, t + w)];
    var pause := [Call(key, w, w, w)] + Burst(key, t, n, last);
    OrderedBurst(key, t, n, last, w, t + w);
    assert pause[1..] == Burst(key, t, n, last);
    OrderedBurst(key, 0.0, n, pause, 0.0, t + w);
  }

  lemma DrainsExceed(cfg: Config, n: nat, left: real, span: real, w: real)
    requires cfg.capacity == left + n as real && Flow(cfg.rate, span) < cfg.capacity && left + Flow(cfg.rate, w) == 1.0
    ensures (n + 1 + n + 1) as real > cfg.capacity + Flow(cfg.rate, w + span + w)
  {
    FlowAdds(cfg.rate, 0.0, w, w + span);
    FlowAdds(cfg.rate, 0.0, w + span, w + span + w);
  }

  lemma WaitIsShort(cfg: Config, left: real) returns (w: real)
    requires 0.0 <= cfg.rate && 0.0 <= cfg.ttl && 0.0 <= left < 1.0 && 1.0 <= Flow(cfg.rate, cfg.ttl)
    ensures 0.0 < w <= cfg.ttl && left + Flow(cfg.rate, w) == 1.0
  {
    assert cfg.rate > 0.0;
    w := WaitForToken(cfg, left);
    if w > cfg.ttl {
      FlowIsStrict(cfg.rate, cfg.ttl, w);
    }
  }

  lemma TwoDrainsOverdraw(cfg: Config, n: nat, left: real, key: string) returns (calls: seq<Call>, end: real)
    requires 0.0 <= cfg.rate && 0.0 <= cfg.ttl && 1 <= n && 0.0 <= left < 1.0 && cfg.capacity == left + n as real
    requires n as real <= Flow(cfg.rate, cfg.ttl) < cfg.capacity
    ensures Overdrawn(cfg, key, calls, end)
  {
    var w := WaitIsShort(cfg, left);
    var span := MomentBefore(cfg, cfg.capacity);
    var t := w + span;
    calls := TwoDrains(key, n, w, t);
    TwoDrainsCount(cfg, key, n, left, w, t);
    TwoDrainsOrdered(key, n, w, t);
    DrainsExceed(cfg, n, left, span, w);
    end := t + w;
  }

  lemma SlowRefillOverdraws(cfg: Config, key: string) returns (calls: seq<Call>, end: real)
    requires 0.0 <= cfg.rate && 0.0 <= cfg.ttl && 1.0 <= cfg.capacity && Flow(cfg.rate, cfg.ttl) < cfg.capacity
    ensures Overdrawn(cfg, key, calls, end)
  {
    var n: nat := cfg.capacity.Floor;
    var left := cfg.capacity - n as real;
    if Flow(cfg.rate, cfg.ttl) < n as real {
      calls, end := TwoBurstsOverdraw(cfg, n, left, key);
    } else {
      calls, end := TwoDrainsOverdraw(cfg, n, left, key);
    }
  }

  /** Gc is unobservable exactly when a bucket refills within the TTL. */
  lemma GcUnobservableExactlyWhen(cfg: Config)
    requires 0.0 <= cfg.rate && 0.0 <= cfg.ttl && 1.0 <= cfg.capacity
    ensures cfg.capacity <= Flow(cfg.rate, cfg.ttl) <==>
              forall calls :: Ordered(calls, 0.0) ==>
                AnswersWithGC(cfg, State(map[], 0.0), calls) == Answers(cfg, map[], calls)
  {
    if cfg.capacity <= Flow(cfg.rate, cfg.ttl) {
      forall calls | Ordered(calls, 0.0)
        ensures AnswersWithGC(cfg, State(map[], 0.0), calls) == Answers(cfg, map[], calls)
      {
        GcUnobservable(cfg, State(map[], 0.0), map[], 0.0, calls);
      }
    } else {
      var calls, end := SlowRefillOverdraws(cfg, "k");
      OverdrawnShowsGc(cfg, "k", calls, end);
    }
  }

  /** The bound on one window, for the limiter as written. */
  ghost predicate WindowBounded(cfg: Config, calls: seq<Call>, key: string, i: nat, j: nat, end: real) {
    i < j <= |calls| && (forall c :: c in calls[i..j] ==> c.now <= end) ==>
      CountAllowed(key, calls[i..j], AnswersWithGC(cfg, State(map[], 0.0), calls)[i..j]) as real
        <= cfg.capacity + Flow(cfg.rate, end - calls[i].now)
  }

  /** The window bound has the same condition: it holds of all histories exactly when a
    bucket refills within the TTL. */
  lemma WindowBoundExactlyWhen(cfg: Config)
    requires 0.0 <= cfg.rate && 0.0 <= cfg.ttl && 1.0 <= cfg.capacity
    ensures cfg.capacity <= Flow(cfg.rate, cfg.ttl) <==>
              forall calls, key, i: nat, j: nat, end :: Ordered(calls, 0.0) ==> WindowBounded(cfg, calls, key, i, j, end)
  {
    if cfg.capacity <= Flow(cfg.rate, cfg.ttl) {
      forall calls: seq<Call>, key, i: nat, j: nat, end: real | Ordered(calls, 0.0)
        ensures WindowBounded(cfg, calls, key, i, j, end)
      {
        if i < j <= |calls| && (forall c :: c in calls[i..j] ==> c.now <= end) {
          WindowBoundWithGC(cfg, calls, key, 0.0, i, j, end);
        }
      }
    } else {
      var calls, end := SlowRefillOverdraws(cfg, "k");
      var answers := AnswersWithGC(cfg, State(map[], 0.0), calls);
      assert calls[0..|calls|] == calls && answers[0..|calls|] == answers;
      if calls != [] {
        FlowIsMonotone(cfg.rate, end - calls[0].now, end);
      } else {
        FlowIsMonotone(cfg.rate, 0.0, end);
      }
      assert !WindowBounded(cfg, calls, "k", 0, |calls|, end);
    }
  }

  /** The three limiters that server/internal/api/router.go creates meet the condition. */
  lemma RouterLimitersRefill()
    ensures Refills(Config(120.0, 200.0, BUCKET_TTL))
    ensures Refills(Config(5.0, 10.0, BUCKET_TTL))
    ensures Refills(Config(60.0, 120.0, BUCKET_TTL))
  {}
}
