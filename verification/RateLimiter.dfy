/** The per-key token bucket limiter with idle eviction and a bucket cap (pkg/auth/ratelimit.go). Times are seconds. */
module RateLimiter {

  datatype Bucket = Bucket(tokens: real, lastCheck: real, lastAccess: real)

  type Buckets = map<string, Bucket>

  datatype Config = Config(rate: real, burst: int, ttl: real, maxBuckets: int)

  /** Tokens do not drain by themselves, and the sweep ticker needs a positive interval. */
  predicate Sane(c: Config) {
    c.rate >= 0.0 && c.ttl > 0.0
  }

  // ---------------------------------------------------------------- one step

  predicate IsStale(c: Config, b: Bucket, now: real) {
    now - b.lastAccess > c.ttl
  }

  /** `evictExpiredLocked`. */
  function Swept(c: Config, bs: Buckets, now: real): Buckets {
    map k | k in bs && !IsStale(c, bs[k], now) :: bs[k]
  }

  predicate Full(c: Config, bs: Buckets) {
    c.maxBuckets > 0 && |bs| >= c.maxBuckets
  }

  function Earned(rate: real, time: real): (tokens: real)
    ensures rate >= 0.0 && time >= 0.0 ==> tokens >= 0.0
  {
    time * rate
  }

  function Refilled(c: Config, b: Bucket, now: real): real {
    var t := b.tokens + Earned(c.rate, now - b.lastCheck);
    if t > c.burst as real then c.burst as real else t
  }

  /** The bucket after a request, and whether it had a token to give. */
  function Touched(c: Config, b: Bucket, now: real): (Bucket, bool) {
    var t := Refilled(c, b, now);
    if t < 1.0 then (Bucket(t, now, now), false) else (Bucket(t - 1.0, now, now), true)
  }

  function NewBucket(c: Config, now: real): Bucket {
    Bucket(c.burst as real - 1.0, now, now)
  }

  /** A request is answered, or refused because the map is full even after reclaiming idle buckets. */
  datatype Answer = Granted | Limited | Saturated

  function Reclaimed(c: Config, bs: Buckets, now: real): Buckets {
    if Full(c, bs) then Swept(c, bs, now) else bs
  }

  /** `Allow`. */
  function Request(c: Config, bs: Buckets, key: string, now: real): (Buckets, Answer) {
    if key in bs then
      var (b, ok) := Touched(c, bs[key], now);
      (bs[key := b], if ok then Granted else Limited)
    else
      var kept := Reclaimed(c, bs, now);
      if Full(c, kept) then (kept, Saturated) else (kept[key := NewBucket(c, now)], Granted)
  }

  /** The limiter that never evicts and has no cap. */
  function PlainRequest(c: Config, bs: Buckets, key: string, now: real): (Buckets, bool) {
    if key in bs then
      var (b, ok) := Touched(c, bs[key], now);
      (bs[key := b], ok)
    else (bs[key := NewBucket(c, now)], true)
  }

  // ---------------------------------------------------------------- traces

  datatype Event = Call(key: string, at: real) | Sweep(at: real)

  datatype Reply = Reply(key: string, ok: bool)

  /** Times do not run backwards. */
  predicate Ordered(es: seq<Event>, from: real) {
    es == [] || (from <= es[0].at && Ordered(es[1..], es[0].at))
  }

  function After(c: Config, bs: Buckets, e: Event): Buckets {
    if e.Sweep? then Swept(c, bs, e.at) else Request(c, bs, e.key, e.at).0
  }

  /** The call was answered from a bucket, not refused for want of room. */
  predicate Answered(c: Config, bs: Buckets, e: Event) {
    e.Call? && !Request(c, bs, e.key, e.at).1.Saturated?
  }

  /** The answered calls of a trace, in order. */
  function Kept(c: Config, bs: Buckets, es: seq<Event>): seq<Event>
    decreases |es|
  {
    if es == [] then []
    else (if Answered(c, bs, es[0]) then [es[0]] else []) + Kept(c, After(c, bs, es[0]), es[1..])
  }

  function Replies(c: Config, bs: Buckets, es: seq<Event>): seq<Reply>
    decreases |es|
  {
    if es == [] then []
    else
      (if Answered(c, bs, es[0]) then [Reply(es[0].key, Request(c, bs, es[0].key, es[0].at).1.Granted?)] else []) +
      Replies(c, After(c, bs, es[0]), es[1..])
  }

  function PlainReplies(c: Config, bs: Buckets, es: seq<Event>): seq<Reply>
    decreases |es|
  {
    if es == [] then []
    else if es[0].Sweep? then PlainReplies(c, bs, es[1..])
    else
      var (after, ok) := PlainRequest(c, bs, es[0].key, es[0].at);
      [Reply(es[0].key, ok)] + PlainReplies(c, after, es[1..])
  }

  function RunTo(c: Config, bs: Buckets, es: seq<Event>): Buckets
    decreases |es|
  {
    if es == [] then bs else RunTo(c, After(c, bs, es[0]), es[1..])
  }

  // ---------------------------------------------------------------- what every state keeps

  predicate ValidBucket(c: Config, b: Bucket, now: real) {
    0.0 <= b.tokens <= c.burst as real && b.lastCheck == b.lastAccess <= now
  }

  predicate ValidBuckets(c: Config, bs: Buckets, now: real) {
    forall k | k in bs :: ValidBucket(c, bs[k], now)
  }

  lemma Scale(rate: real, a: real, b: real)
    requires rate >= 0.0 && a <= b
    ensures a * rate <= b * rate
  {}

  lemma RefilledValid(c: Config, b: Bucket, now: real)
    requires Sane(c) && c.burst >= 1 && ValidBucket(c, b, now)
    ensures 0.0 <= Refilled(c, b, now) <= c.burst as real
  {
    assert Earned(c.rate, now - b.lastCheck) >= 0.0;
  }

  lemma TouchedValid(c: Config, b: Bucket, now: real)
    requires Sane(c) && c.burst >= 1 && ValidBucket(c, b, now)
    ensures ValidBucket(c, Touched(c, b, now).0, now)
    ensures 0.0 <= Refilled(c, b, now) <= c.burst as real
  {
    RefilledValid(c, b, now);
  }

  /** Tokens stay between zero and the burst, and the map never outgrows its cap. */
  lemma StepValid(c: Config, bs: Buckets, e: Event, now: real)
    requires Sane(c) && c.burst >= 1 && ValidBuckets(c, bs, now) && now <= e.at
    requires c.maxBuckets > 0 ==> |bs| <= c.maxBuckets
    ensures ValidBuckets(c, After(c, bs, e), e.at)
    ensures c.maxBuckets > 0 ==> |After(c, bs, e)| <= c.maxBuckets
  {
    var swept := Swept(c, bs, e.at);
    SubmapSize(swept, bs);
    if e.Call? {
      if e.key in bs {
        TouchedValid(c, bs[e.key], e.at);
        assert bs[e.key := Touched(c, bs[e.key], e.at).0].Keys == bs.Keys;
      } else {
        var kept := Reclaimed(c, bs, e.at);
        assert kept[e.key := NewBucket(c, e.at)].Keys == kept.Keys + {e.key};
      }
    }
  }

  /** Every state of every run from an empty limiter is valid and within the cap. */
  lemma {:induction false} RunValid(c: Config, bs: Buckets, es: seq<Event>, from: real, to: real)
    requires Sane(c) && c.burst >= 1 && ValidBuckets(c, bs, from) && from <= to && Within(es, from, to)
    requires c.maxBuckets > 0 ==> |bs| <= c.maxBuckets
    ensures ValidBuckets(c, RunTo(c, bs, es), to)
    ensures c.maxBuckets > 0 ==> |RunTo(c, bs, es)| <= c.maxBuckets
    decreases |es|
  {
    if es != [] {
      TailWithin(es, from, to);
      StepValid(c, bs, es[0], from);
      RunValid(c, After(c, bs, es[0]), es[1..], es[0].at, to);
    }
  }

  lemma SubmapSize(a: Buckets, b: Buckets)
    requires a.Keys <= b.Keys
    ensures |a| <= |b|
  {
    SubsetSize(a.Keys, b.Keys);
  }

  lemma {:induction false} SubsetSize(a: set<string>, b: set<string>)
    requires a <= b
    ensures |a| <= |b|
    decreases a
  {
    if a != {} {
      var x :| x in a;
      SubsetSize(a - {x}, b - {x});
    }
  }

  // ---------------------------------------------------------------- eviction cannot be observed

  /** An evicted bucket would by now be full again. */
  predicate Replenished(c: Config, b: Bucket, now: real) {
    Refilled(c, b, now) == c.burst as real
  }

  /** The evicting limiter holds a part of the plain one's buckets; those it dropped are full again. */
  predicate Simulates(c: Config, bs: Buckets, plain: Buckets, now: real) {
    && ValidBuckets(c, plain, now)
    && (forall k | k in bs :: k in plain && plain[k] == bs[k])
    && (forall k | k in plain && k !in bs :: Replenished(c, plain[k], now))
  }

  predicate Refills(c: Config) {
    c.burst >= 1 && c.rate * c.ttl >= c.burst as real
  }

  lemma StaleIsReplenished(c: Config, b: Bucket, now: real)
    requires Sane(c) && Refills(c) && ValidBucket(c, b, now) && IsStale(c, b, now)
    ensures Replenished(c, b, now)
  {
    Scale(c.rate, c.ttl, now - b.lastCheck);
  }

  lemma StaysReplenished(c: Config, b: Bucket, now: real, later: real)
    requires Sane(c) && Replenished(c, b, now) && now <= later
    ensures Replenished(c, b, later)
  {
    Scale(c.rate, now - b.lastCheck, later - b.lastCheck);
  }

  lemma TimePasses(c: Config, bs: Buckets, plain: Buckets, now: real, later: real)
    requires Sane(c) && Simulates(c, bs, plain, now) && now <= later
    ensures Simulates(c, bs, plain, later)
  {
    forall k | k in plain && k !in bs ensures Replenished(c, plain[k], later) {
      StaysReplenished(c, plain[k], now, later);
    }
  }

  lemma SweepSimulates(c: Config, bs: Buckets, plain: Buckets, now: real)
    requires Sane(c) && Refills(c) && Simulates(c, bs, plain, now)
    ensures Simulates(c, Swept(c, bs, now), plain, now)
  {
    forall k | k in plain && k !in Swept(c, bs, now) ensures Replenished(c, plain[k], now) {
      if k in bs {
        StaleIsReplenished(c, bs[k], now);
      }
    }
  }

  /** An answered call gets the plain limiter's answer and leaves the two in step. */
  lemma CallSimulates(c: Config, bs: Buckets, plain: Buckets, key: string, now: real)
    requires Sane(c) && Refills(c) && Simulates(c, bs, plain, now)
    ensures var (after, answer) := Request(c, bs, key, now);
            var (plainAfter, ok) := PlainRequest(c, plain, key, now);
            if answer.Saturated? then Simulates(c, after, plain, now)
            else ok == answer.Granted? && Simulates(c, after, plainAfter, now)
  {
    if key in bs {
      TouchedValid(c, plain[key], now);
    } else {
      SweepSimulates(c, bs, plain, now);
      var kept := Reclaimed(c, bs, now);
      assert Simulates(c, kept, plain, now);
    }
  }

  lemma {:induction false} Simulation(c: Config, bs: Buckets, plain: Buckets, es: seq<Event>, now: real)
    requires Sane(c) && Refills(c) && Simulates(c, bs, plain, now) && Ordered(es, now)
    ensures Replies(c, bs, es) == PlainReplies(c, plain, Kept(c, bs, es))
    decreases |es|
  {
    if es != [] {
      var e := es[0];
      var after := After(c, bs, e);
      var rest := Kept(c, after, es[1..]);
      TimePasses(c, bs, plain, now, e.at);
      if e.Sweep? {
        SweepSimulates(c, bs, plain, e.at);
        Simulation(c, after, plain, es[1..], e.at);
        assert Kept(c, bs, es) == rest;
      } else {
        CallSimulates(c, bs, plain, e.key, e.at);
        if Answered(c, bs, e) {
          Simulation(c, after, PlainRequest(c, plain, e.key, e.at).0, es[1..], e.at);
          assert Kept(c, bs, es) == [e] + rest;
          assert Kept(c, bs, es)[1..] == rest;
        } else {
          Simulation(c, after, plain, es[1..], e.at);
          assert Kept(c, bs, es) == rest;
        }
      }
    }
  }

  // ---------------------------------------------------------------- the rate bound

  function GrantedTo(rs: seq<Reply>, key: string): nat {
    if rs == [] then 0 else (if rs[0] == Reply(key, true) then 1 else 0) + GrantedTo(rs[1..], key)
  }

  predicate Within(es: seq<Event>, from: real, to: real) {
    Ordered(es, from) && forall i | 0 <= i < |es| :: es[i].at <= to
  }

  /** What the plain limiter could grant a key right now. */
  function Available(c: Config, bs: Buckets, key: string, now: real): real {
    if key in bs then Refilled(c, bs[key], now) else c.burst as real
  }

  lemma RefilledGrows(c: Config, b: Bucket, now: real, later: real)
    requires Sane(c) && now <= later
    ensures Refilled(c, b, later) <= Refilled(c, b, now) + (later - now) * c.rate
  {
    var earned, more := (now - b.lastCheck) * c.rate, (later - now) * c.rate;
    Scale(c.rate, 0.0, later - now);
    assert (later - b.lastCheck) * c.rate == earned + more;
  }

  /** No time, no tokens. */
  lemma RefilledAtOnce(c: Config, b: Bucket)
    requires b.tokens <= c.burst as real
    ensures Refilled(c, b, b.lastCheck) == b.tokens
  {
    assert (b.lastCheck - b.lastCheck) * c.rate == 0.0;
  }

  lemma AvailableGrows(c: Config, bs: Buckets, key: string, now: real, later: real)
    requires Sane(c) && c.burst >= 1 && ValidBuckets(c, bs, now) && now <= later
    ensures 0.0 <= Available(c, bs, key, later) <= Available(c, bs, key, now) + (later - now) * c.rate
    ensures Available(c, bs, key, later) <= c.burst as real
  {
    assert (later - now) * c.rate == Earned(c.rate, later - now) >= 0.0;
    if key in bs {
      TouchedValid(c, bs[key], later);
      RefilledGrows(c, bs[key], now, later);
    }
  }

  /** A call takes a whole token from its own key exactly when it is granted, and none from any other. */
  lemma CallSpends(c: Config, bs: Buckets, caller: string, key: string, now: real)
    requires Sane(c) && c.burst >= 1 && ValidBuckets(c, bs, now)
    ensures var (after, ok) := PlainRequest(c, bs, caller, now);
            && ValidBuckets(c, after, now)
            && Available(c, after, key, now) == Available(c, bs, key, now) - (if ok && caller == key then 1.0 else 0.0)
  {
    if caller in bs {
      TouchedValid(c, bs[caller], now);
    }
    var after := PlainRequest(c, bs, caller, now).0;
    RefilledAtOnce(c, after[caller]);
  }

  lemma TailWithin(es: seq<Event>, from: real, to: real)
    requires es != [] && Within(es, from, to)
    ensures from <= es[0].at <= to && Within(es[1..], es[0].at, to)
  {
    forall i | 0 <= i < |es[1..]| ensures es[1..][i].at <= to {
      assert es[1..][i] == es[i + 1];
    }
  }

  lemma PlainFirst(c: Config, bs: Buckets, es: seq<Event>, key: string)
    requires es != [] && es[0].Call?
    ensures GrantedTo(PlainReplies(c, bs, es), key)
         == (if PlainRequest(c, bs, es[0].key, es[0].at).1 && es[0].key == key then 1 else 0) +
            GrantedTo(PlainReplies(c, PlainRequest(c, bs, es[0].key, es[0].at).0, es[1..]), key)
  {
    var (after, ok) := PlainRequest(c, bs, es[0].key, es[0].at);
    var first, rest := Reply(es[0].key, ok), PlainReplies(c, after, es[1..]);
    assert PlainReplies(c, bs, es) == [first] + rest;
    assert ([first] + rest)[1..] == rest;
  }

  lemma SplitTime(rate: real, a: real, b: real, c: real)
    ensures (c - a) * rate == (b - a) * rate + (c - b) * rate
  {}

  /** The plain limiter grants no more than what is available and what the window earns. */
  lemma {:induction false} PlainBound(c: Config, bs: Buckets, es: seq<Event>, key: string, from: real, to: real)
    requires Sane(c) && c.burst >= 1 && ValidBuckets(c, bs, from) && from <= to && Within(es, from, to)
    ensures GrantedTo(PlainReplies(c, bs, es), key) as real <= Available(c, bs, key, from) + (to - from) * c.rate
    decreases |es|
  {
    if es == [] {
      AvailableGrows(c, bs, key, from, to);
    } else {
      var at := es[0].at;
      TailWithin(es, from, to);
      AvailableGrows(c, bs, key, from, at);
      SplitTime(c.rate, from, at, to);
      if es[0].Sweep? {
        PlainBound(c, bs, es[1..], key, at, to);
      } else {
        CallSpends(c, bs, es[0].key, key, at);
        PlainFirst(c, bs, es, key);
        PlainBound(c, PlainRequest(c, bs, es[0].key, at).0, es[1..], key, at, to);
      }
    }
  }

  lemma {:induction false} KeptWithin(c: Config, bs: Buckets, es: seq<Event>, from: real, to: real)
    requires Within(es, from, to)
    ensures Within(Kept(c, bs, es), from, to)
    decreases |es|
  {
    if es != [] {
      var e := es[0];
      var rest := Kept(c, After(c, bs, e), es[1..]);
      TailWithin(es, from, to);
      KeptWithin(c, After(c, bs, e), es[1..], e.at, to);
      if Answered(c, bs, e) {
        assert Kept(c, bs, es) == [e] + rest;
        assert ([e] + rest)[1..] == rest;
        forall i | 0 <= i < |[e] + rest| ensures ([e] + rest)[i].at <= to {
          assert i > 0 ==> ([e] + rest)[i] == rest[i - 1];
        }
      } else {
        assert Kept(c, bs, es) == rest;
        OrderedEarlier(rest, e.at, from);
      }
    }
  }

  lemma OrderedEarlier(es: seq<Event>, from: real, earlier: real)
    requires Ordered(es, from) && earlier <= from
    ensures Ordered(es, earlier)
  {}

  /** The simulation survives any run, so every reachable state has a plain counterpart. */
  lemma {:induction false} RunSimulated(c: Config, bs: Buckets, plain: Buckets, es: seq<Event>, now: real, end: real)
    returns (plainAfter: Buckets)
    requires Sane(c) && Refills(c) && Simulates(c, bs, plain, now) && Within(es, now, end) && now <= end
    ensures Simulates(c, RunTo(c, bs, es), plainAfter, end)
    decreases |es|
  {
    if es == [] {
      plainAfter := plain;
      TimePasses(c, bs, plain, now, end);
    } else {
      var e := es[0];
      TailWithin(es, now, end);
      TimePasses(c, bs, plain, now, e.at);
      var next := plain;
      if e.Sweep? {
        SweepSimulates(c, bs, plain, e.at);
      } else {
        CallSimulates(c, bs, plain, e.key, e.at);
        if Answered(c, bs, e) {
          next := PlainRequest(c, plain, e.key, e.at).0;
        }
      }
      plainAfter := RunSimulated(c, After(c, bs, e), next, es[1..], e.at, end);
    }
  }

  /** A run from an empty limiter and a window of it. */
  ghost predicate IsWindow(before: seq<Event>, window: seq<Event>, start: real, from: real, to: real) {
    start <= from <= to && Within(before, start, from) && Within(window, from, to)
  }

  /** The calls granted to the key in the window number at most burst + rate * length. */
  ghost predicate Bounded(c: Config, before: seq<Event>, window: seq<Event>, key: string, from: real, to: real) {
    GrantedTo(Replies(c, RunTo(c, map[], before), window), key) as real <= c.burst as real + (to - from) * c.rate
  }

  /** Where idle buckets refill within the TTL, every window of every run is within the rate, for every key. */
  lemma RateBound(c: Config, before: seq<Event>, window: seq<Event>, key: string, start: real, from: real, to: real)
    requires Sane(c) && Refills(c) && IsWindow(before, window, start, from, to)
    ensures Bounded(c, before, window, key, from, to)
  {
    var bs := RunTo(c, map[], before);
    var plain := RunSimulated(c, map[], map[], before, start, from);
    Simulation(c, bs, plain, window, from);
    KeptWithin(c, bs, window, from, to);
    PlainBound(c, plain, Kept(c, bs, window), key, from, to);
    AvailableGrows(c, plain, key, from, from);
  }

  // ---------------------------------------------------------------- exactly when eviction is unobservable

  ghost predicate EvictionUnobservable(c: Config) {
    forall es | Ordered(es, 0.0) :: SameAnswers(c, es)
  }

  predicate SameAnswers(c: Config, es: seq<Event>) {
    Replies(c, map[], es) == PlainReplies(c, map[], Kept(c, map[], es))
  }

  function Times(n: nat, key: string, at: real): (es: seq<Event>)
    ensures |es| == n && forall i | 0 <= i < n :: es[i] == Call(key, at)
  {
    seq(n, i => Call(key, at))
  }

  /** A limiter that tracks one key. */
  function Only(key: string, tokens: real, at: real): Buckets {
    map[key := Bucket(tokens, at, at)]
  }

  lemma DrainOne(c: Config, key: string, tokens: real, at: real)
    requires 1.0 <= tokens <= c.burst as real
    ensures Request(c, Only(key, tokens, at), key, at) == (Only(key, tokens - 1.0, at), Granted)
  {
    RefilledAtOnce(c, Bucket(tokens, at, at));
    assert Only(key, tokens, at)[key := Bucket(tokens - 1.0, at, at)] == Only(key, tokens - 1.0, at);
  }

  /** What a limiter that holds one bucket grants to its key. */
  function Got(c: Config, key: string, tokens: real, at: real, es: seq<Event>): nat {
    GrantedTo(Replies(c, Only(key, tokens, at), es), key)
  }

  lemma DrainFirst(c: Config, tokens: real, key: string, at: real, rest: seq<Event>)
    requires 1.0 <= tokens <= c.burst as real
    ensures Got(c, key, tokens, at, [Call(key, at)] + rest) == 1 + Got(c, key, tokens - 1.0, at, rest)
  {
    DrainOne(c, key, tokens, at);
    GrantFirst(c, Only(key, tokens, at), [Call(key, at)] + rest);
    assert ([Call(key, at)] + rest)[1..] == rest;
  }

  lemma TimesFirst(n: nat, key: string, at: real, tail: seq<Event>)
    requires n > 0
    ensures Times(n, key, at) + tail == [Call(key, at)] + (Times(n - 1, key, at) + tail)
  {}

  type Count = (real, seq<Event>) -> nat

  function Counting(c: Config, key: string, at: real): Count {
    (tokens: real, es: seq<Event>) => Got(c, key, tokens, at, es)
  }

  /** Each call takes one token, as long as there is one. */
  ghost predicate TakesOne(got: Count, burst: real, first: Event) {
    forall t: real, rest: seq<Event> | 1.0 <= t <= burst :: got(t, [first] + rest) == 1 + got(t - 1.0, rest)
  }

  lemma CountingFirst(c: Config, key: string, at: real, t: real, rest: seq<Event>)
    requires 1.0 <= t <= c.burst as real
    ensures Counting(c, key, at)(t, [Call(key, at)] + rest) == 1 + Counting(c, key, at)(t - 1.0, rest)
  {
    DrainFirst(c, t, key, at, rest);
  }

  lemma CountingTakesOne(c: Config, key: string, at: real, got: Count)
    requires got == Counting(c, key, at)
    ensures TakesOne(got, c.burst as real, Call(key, at))
  {
    forall t: real, rest: seq<Event> | 1.0 <= t <= c.burst as real
      ensures got(t, [Call(key, at)] + rest) == 1 + got(t - 1.0, rest)
    {
      CountingFirst(c, key, at, t, rest);
    }
  }

  lemma {:induction false} Countdown(
      got: Count, burst: real, tokens: real, n: nat, key: string, at: real, tail: seq<Event>)
    requires n as real <= tokens <= burst && TakesOne(got, burst, Call(key, at))
    ensures got(tokens, Times(n, key, at) + tail) == n + got(tokens - n as real, tail)
    decreases n
  {
    if n == 0 {
      assert Times(n, key, at) + tail == tail;
    } else {
      TimesFirst(n, key, at, tail);
      Countdown(got, burst, tokens - 1.0, n - 1, key, at, tail);
      assert tokens - 1.0 - (n - 1) as real == tokens - n as real;
    }
  }

  /** Without time to refill, a bucket grants as many calls as it holds tokens. */
  lemma Drain(c: Config, tokens: real, n: nat, key: string, at: real, tail: seq<Event>)
    requires n as real <= tokens <= c.burst as real
    ensures Counting(c, key, at)(tokens, Times(n, key, at) + tail) == n + Counting(c, key, at)(tokens - n as real, tail)
  {
    CountingTakesOne(c, key, at, Counting(c, key, at));
    Countdown(Counting(c, key, at), c.burst as real, tokens, n, key, at, tail);
  }

  lemma GrantFirst(c: Config, bs: Buckets, es: seq<Event>)
    requires es != [] && es[0].Call? && Request(c, bs, es[0].key, es[0].at).1.Granted?
    ensures GrantedTo(Replies(c, bs, es), es[0].key) ==
            1 + GrantedTo(Replies(c, Request(c, bs, es[0].key, es[0].at).0, es[1..]), es[0].key)
  {
    var rs := Replies(c, After(c, bs, es[0]), es[1..]);
    var first := Reply(es[0].key, true);
    assert Replies(c, bs, es) == [first] + rs;
    assert ([first] + rs)[1..] == rs;
  }

  lemma FirstCall(c: Config, key: string, at: real)
    requires c.burst >= 1
    ensures Request(c, map[], key, at) == (Only(key, (c.burst - 1) as real, at), Granted)
  {}

  /** An empty limiter grants a key its whole burst at once. */
  lemma BurstAtOnce(c: Config, key: string, at: real, tail: seq<Event>)
    requires c.burst >= 1
    ensures GrantedTo(Replies(c, map[], Times(c.burst, key, at) + tail), key) ==
            c.burst + GrantedTo(Replies(c, Only(key, 0.0, at), tail), key)
  {
    var es := Times(c.burst, key, at) + tail;
    assert es[0] == Call(key, at) && es[1..] == Times(c.burst - 1, key, at) + tail;
    FirstCall(c, key, at);
    GrantFirst(c, map[], es);
    var n := c.burst - 1;
    Drain(c, n as real, n, key, at, tail);
  }

  /** Spend a burst, wait just past the TTL, spend another. */
  function TwoBursts(c: Config, key: string, later: real): seq<Event>
    requires c.burst >= 1
  {
    Times(c.burst, key, 0.0) + ([Sweep(later)] + Times(c.burst, key, later))
  }

  lemma {:induction false} TimesOrdered(n: nat, key: string, at: real, tail: seq<Event>, from: real)
    requires from <= at && Ordered(tail, at)
    ensures Ordered(Times(n, key, at) + tail, from)
    decreases n
  {
    if n == 0 {
      assert Times(n, key, at) + tail == tail;
      OrderedEarlier(tail, at, from);
    } else {
      TimesOrdered(n - 1, key, at, tail, at);
      assert (Times(n, key, at) + tail)[1..] == Times(n - 1, key, at) + tail;
    }
  }

  lemma TwoBurstsOrdered(c: Config, key: string, later: real)
    requires c.burst >= 1 && later >= 0.0
    ensures Within(TwoBursts(c, key, later), 0.0, later)
  {
    var second := Times(c.burst, key, later);
    TimesOrdered(c.burst, key, later, [], later);
    assert second + [] == second;
    assert ([Sweep(later)] + second)[1..] == second;
    TimesOrdered(c.burst, key, 0.0, [Sweep(later)] + second, 0.0);
  }

  lemma TwoBurstsGranted(c: Config, key: string, later: real)
    requires c.burst >= 1 && later > c.ttl
    ensures GrantedTo(Replies(c, map[], TwoBursts(c, key, later)), key) == 2 * c.burst
  {
    var second := Times(c.burst, key, later);
    BurstAtOnce(c, key, 0.0, [Sweep(later)] + second);
    var spent := Only(key, 0.0, 0.0);
    assert Swept(c, spent, later) == map[];
    assert ([Sweep(later)] + second)[1..] == second;
    assert Replies(c, spent, [Sweep(later)] + second) == Replies(c, map[], second);
    BurstAtOnce(c, key, later, []);
    assert second + [] == second;
  }

  /** A bucket that cannot refill within the TTL is worth a second burst once it is evicted. */
  lemma SlowRefillObservable(c: Config)
    requires Sane(c) && c.burst >= 1 && c.rate * c.ttl < c.burst as real
    ensures !EvictionUnobservable(c)
  {
    var later := if c.rate == 0.0 then c.ttl + 1.0 else (c.ttl + c.burst as real / c.rate) / 2.0;
    Between(c, later);
    var es := TwoBursts(c, "client", later);
    TwoBurstsOrdered(c, "client", later);
    TwoBurstsGranted(c, "client", later);
    KeptWithin(c, map[], es, 0.0, later);
    PlainBound(c, map[], Kept(c, map[], es), "client", 0.0, later);
    assert !SameAnswers(c, es);
  }

  lemma Between(c: Config, later: real)
    requires Sane(c) && c.burst >= 1 && c.rate * c.ttl < c.burst as real
    requires later == if c.rate == 0.0 then c.ttl + 1.0 else (c.ttl + c.burst as real / c.rate) / 2.0
    ensures later > c.ttl && later * c.rate < c.burst as real
  {
    if c.rate != 0.0 {
      var q := c.burst as real / c.rate;
      assert q * c.rate == c.burst as real;
      assert c.ttl < q;
    }
  }

  /** A limiter with no burst grants the first call of a key, and again after every eviction. */
  lemma NoBurstObservable(c: Config)
    requires Sane(c) && c.burst < 1
    ensures !EvictionUnobservable(c)
  {
    var later := c.ttl + 1.0;
    var first, second := Call("client", 0.0), Call("client", later);
    var es := [first, Sweep(later), second];
    assert es[1..] == [Sweep(later), second] && es[1..][1..] == [second] && [second][1..] == [];
    var bucket: Buckets := map["client" := NewBucket(c, 0.0)];
    assert Request(c, map[], "client", 0.0) == (bucket, Granted);
    assert Swept(c, bucket, later) == map[];
    assert Replies(c, map[], [second]) == [Reply("client", true)];
    assert Replies(c, map[], es) == [Reply("client", true), Reply("client", true)];
    assert Kept(c, map[], [second]) == [second];
    assert Kept(c, bucket, es[1..]) == [second];
    assert Kept(c, map[], es) == [first, second];
    assert [first, second][1..] == [second];
    assert PlainReplies(c, bucket, [second]) == [Reply("client", false)];
    assert PlainReplies(c, map[], [first, second]) == [Reply("client", true), Reply("client", false)];
    assert Ordered([second], later) && Ordered(es[1..], 0.0);
    assert Ordered(es, 0.0) && !SameAnswers(c, es);
  }

  /**
   Dropping idle buckets can never be observed exactly when the burst is positive and an idle bucket
   refills completely within the TTL.
   */
  lemma UnobservableIffRefills(c: Config)
    requires Sane(c)
    ensures EvictionUnobservable(c) <==> Refills(c)
  {
    if Refills(c) {
      forall es | Ordered(es, 0.0) ensures SameAnswers(c, es) {
        Simulation(c, map[], map[], es, 0.0);
      }
    } else if c.burst < 1 {
      NoBurstObservable(c);
    } else {
      SlowRefillObservable(c);
    }
  }

  // ---------------------------------------------------------------- exactly when the rate holds

  ghost predicate AlwaysBounded(c: Config) {
    forall before: seq<Event>, window: seq<Event>, key: string, start: real, from: real, to: real |
      IsWindow(before, window, start, from, to) :: Bounded(c, before, window, key, from, to)
  }

  /** Two bursts around an eviction are more than the rate allows in the time between them. */
  lemma SlowRefillExceeds(c: Config) returns (window: seq<Event>, to: real)
    requires Sane(c) && c.burst >= 1 && c.rate * c.ttl < c.burst as real
    ensures IsWindow([], window, 0.0, 0.0, to) && !Bounded(c, [], window, "client", 0.0, to)
  {
    to := if c.rate == 0.0 then c.ttl + 1.0 else (c.ttl + c.burst as real / c.rate) / 2.0;
    Between(c, to);
    window := TwoBursts(c, "client", to);
    TwoBurstsOrdered(c, "client", to);
    TwoBurstsGranted(c, "client", to);
    assert RunTo(c, map[], []) == map[];
  }

  /** Without a burst the first call of a key is granted all the same. */
  lemma NoBurstExceeds(c: Config) returns (window: seq<Event>)
    requires Sane(c) && c.burst < 1
    ensures IsWindow([], window, 0.0, 0.0, 0.0) && !Bounded(c, [], window, "client", 0.0, 0.0)
  {
    window := [Call("client", 0.0)];
    var bucket: Buckets := map["client" := NewBucket(c, 0.0)];
    assert Request(c, map[], "client", 0.0) == (bucket, Granted);
    assert window[1..] == [] && RunTo(c, map[], []) == map[];
    assert Replies(c, map[], window) == [Reply("client", true)];
    assert [Reply("client", true)][1..] == [];
    assert GrantedTo(Replies(c, map[], window), "client") == 1;
  }

  /** Every window of every run is within the rate exactly when idle buckets refill within the TTL. */
  lemma BoundedIffRefills(c: Config)
    requires Sane(c)
    ensures AlwaysBounded(c) <==> Refills(c)
  {
    if Refills(c) {
      forall before: seq<Event>, window: seq<Event>, key: string, start: real, from: real, to: real |
        IsWindow(before, window, start, from, to) ensures Bounded(c, before, window, key, from, to)
      {
        RateBound(c, before, window, key, start, from, to);
      }
    } else if c.burst >= 1 {
      var window, to := SlowRefillExceeds(c);
    } else {
      var window := NoBurstExceeds(c);
    }
  }

  // ---------------------------------------------------------------- when there is no room

  /** The keys that asked within the TTL. */
  function Active(bs: Buckets, ttl: real, now: real): set<string> {
    set k | k in bs && now - bs[k].lastAccess <= ttl
  }

  /** A new key is refused exactly when at least as many keys as there is room for asked within the TTL. */
  lemma SaturatedIff(c: Config, bs: Buckets, key: string, now: real)
    requires key !in bs
    ensures Request(c, bs, key, now).1 ==
            if c.maxBuckets > 0 && |Active(bs, c.ttl, now)| >= c.maxBuckets then Saturated else Granted
  {
    assert Swept(c, bs, now).Keys == Active(bs, c.ttl, now);
    SubsetSize(Active(bs, c.ttl, now), bs.Keys);
  }

  // ---------------------------------------------------------------- the limiter itself

  class Limiter {
    var buckets: Buckets
    const config: Config

    constructor (ratePerSecond: real, burstSize: int, ttl: real, maxBuckets: int)
      ensures buckets == map[] && config == Config(ratePerSecond, burstSize, ttl, maxBuckets)
    {
      buckets, config := map[], Config(ratePerSecond, burstSize, ttl, maxBuckets);
    }

    method EvictExpired(now: real)
      modifies this
      ensures buckets == Swept(config, old(buckets), now)
    {
      var left := buckets.Keys;
      while left != {}
        invariant left <= buckets.Keys <= old(buckets).Keys
        invariant forall k | k in buckets :: buckets[k] == old(buckets)[k]
        invariant forall k | k in old(buckets) && k !in left :: k in buckets <==> !IsStale(config, old(buckets)[k], now)
        decreases left
      {
        var key :| key in left;
        if IsStale(config, buckets[key], now) {
          buckets := buckets - {key};
        }
        left := left - {key};
      }
    }

    method Allow(key: string, now: real) returns (ok: bool)
      modifies this
      ensures buckets == Request(config, old(buckets), key, now).0
      ensures ok == Request(config, old(buckets), key, now).1.Granted?
      ensures key !in old(buckets) ==>
        (ok <==> config.maxBuckets <= 0 ||
                 |set k | k in old(buckets) && now - old(buckets)[k].lastAccess <= config.ttl| < config.maxBuckets)
      ensures forall k | k in old(buckets) && k != key ::
        (k !in buckets <==> key !in old(buckets) && 0 < config.maxBuckets <= |old(buckets)| &&
                            now - old(buckets)[k].lastAccess > config.ttl) &&
        (k in buckets ==> buckets[k] == old(buckets)[k])
    {
      if key !in buckets {
        SaturatedIff(config, buckets, key, now);
      }
      if key !in buckets {
        if config.maxBuckets > 0 && |buckets| >= config.maxBuckets {
          EvictExpired(now);
        }
        if config.maxBuckets > 0 && |buckets| >= config.maxBuckets {
          return false;
        }
        buckets := buckets[key := Bucket(config.burst as real - 1.0, now, now)];
        return true;
      }
      var b := buckets[key];
      var tokens := b.tokens + (now - b.lastCheck) * config.rate;
      if tokens > config.burst as real {
        tokens := config.burst as real;
      }
      assert tokens == Refilled(config, b, now);
      if tokens < 1.0 {
        buckets := buckets[key := Bucket(tokens, now, now)];
        return false;
      }
      buckets := buckets[key := Bucket(tokens - 1.0, now, now)];
      ok := true;
    }
  }
}
