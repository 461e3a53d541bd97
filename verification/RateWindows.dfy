/** The token buckets against a limiter that keeps no tokens and only counts the calls it granted in every window. */
module RateWindows {
  import opened RateLimiter

  function Grants(past: seq<bool>): nat {
    if past == [] then 0 else (if past[0] then 1 else 0) + Grants(past[1..])
  }

  /** What a window of this length allows. */
  function Allowance(c: Config, length: real): real {
    c.burst as real + Earned(c.rate, length)
  }

  /** One more grant keeps every window that ends now, from any earlier call on, within its allowance. */
  predicate Fits(c: Config, times: seq<real>, past: seq<bool>, now: real)
    requires |times| == |past|
  {
    c.burst >= 1 &&
    forall j | 0 <= j < |times| :: (Grants(past[j..]) + 1) as real <= Allowance(c, now - times[j])
  }

  /** The answers of the counting limiter to `more` calls of one key, after the calls at `times` were answered with `past`. */
  function Greedy(c: Config, times: seq<real>, past: seq<bool>, more: seq<real>): seq<bool>
    requires |times| == |past|
    decreases |more|
  {
    if more == [] then []
    else
      var ok := Fits(c, times, past, more[0]);
      [ok] + Greedy(c, times + [more[0]], past + [ok], more[1..])
  }

  // ---------------------------------------------------------------- one bucket

  /** The bucket holds what the tightest window leaves. */
  predicate Tight(c: Config, b: Bucket, times: seq<real>, past: seq<bool>) {
    && |times| == |past| > 0
    && b.lastCheck == times[|times| - 1]
    && (forall j | 0 <= j < |times| :: Leaves(c, b.lastCheck, times, past, j) >= b.tokens)
    && (exists j | 0 <= j < |times| :: Leaves(c, b.lastCheck, times, past, j) == b.tokens)
  }

  /** What is left at `now` of the allowance of the window from call `j` on. */
  function Leaves(c: Config, now: real, times: seq<real>, past: seq<bool>, j: int): real
    requires |times| == |past| && 0 <= j < |times|
  {
    Allowance(c, now - times[j]) - Grants(past[j..]) as real
  }

  lemma {:induction false} GrantsAppend(past: seq<bool>, ok: bool)
    ensures Grants(past + [ok]) == Grants(past) + (if ok then 1 else 0)
    decreases |past|
  {
    if past != [] {
      GrantsAppend(past[1..], ok);
      assert (past + [ok])[1..] == past[1..] + [ok];
    } else {
      assert (past + [ok])[1..] == [];
    }
  }

  lemma EarnedAdds(rate: real, a: real, b: real)
    ensures Earned(rate, a + b) == Earned(rate, a) + Earned(rate, b)
  {}

  /** Time adds the same to what every window leaves, and an answer takes the same. */
  lemma LeavesLater(c: Config, was: real, now: real, times: seq<real>, past: seq<bool>, ok: bool, j: int)
    requires |times| == |past| && 0 <= j < |times|
    ensures Leaves(c, now, times + [now], past + [ok], j)
         == Leaves(c, was, times, past, j) + Earned(c.rate, now - was) - (if ok then 1.0 else 0.0)
  {
    assert (past + [ok])[j..] == past[j..] + [ok];
    GrantsAppend(past[j..], ok);
    assert (times + [now])[j] == times[j];
    EarnedAdds(c.rate, was - times[j], now - was);
  }

  lemma LeavesNow(c: Config, now: real, times: seq<real>, past: seq<bool>, ok: bool)
    requires |times| == |past|
    ensures Leaves(c, now, times + [now], past + [ok], |times|) == c.burst as real - (if ok then 1.0 else 0.0)
  {
    assert (past + [ok])[|times|..] == [ok];
    GrantsAppend([], ok);
    assert [] + [ok] == [ok];
    EarnedAdds(c.rate, 0.0, 0.0);
  }

  /** One more grant fits the window from call `j` on exactly when a whole token is left of it by then. */
  lemma FitsWindow(c: Config, was: real, now: real, times: seq<real>, past: seq<bool>, j: int, earned: real)
    requires |times| == |past| && 0 <= j < |times| && earned == Earned(c.rate, now - was)
    ensures (Grants(past[j..]) + 1) as real <= Allowance(c, now - times[j]) <==>
            Leaves(c, was, times, past, j) + earned >= 1.0
  {
    EarnedAdds(c.rate, was - times[j], now - was);
  }

  lemma GrantedIffToken(c: Config, b: Bucket, now: real, earned: real)
    requires c.burst >= 1 && earned == Earned(c.rate, now - b.lastCheck)
    ensures Touched(c, b, now).1 <==> b.tokens + earned >= 1.0
  {}

  /** A bucket grants a call exactly when the call fits every window. */
  lemma TouchFits(c: Config, b: Bucket, times: seq<real>, past: seq<bool>, now: real)
    requires c.burst >= 1 && Tight(c, b, times, past)
    ensures Touched(c, b, now).1 == Fits(c, times, past, now)
  {
    var was, earned := b.lastCheck, Earned(c.rate, now - b.lastCheck);
    GrantedIffToken(c, b, now, earned);
    var least :| 0 <= least < |times| && Leaves(c, was, times, past, least) == b.tokens;
    FitsWindow(c, was, now, times, past, least, earned);
    if b.tokens + earned >= 1.0 {
      forall j | 0 <= j < |times| ensures (Grants(past[j..]) + 1) as real <= Allowance(c, now - times[j]) {
        FitsWindow(c, was, now, times, past, j, earned);
        assert Leaves(c, was, times, past, j) >= b.tokens;
      }
    }
  }

  lemma TouchTight(c: Config, b: Bucket, times: seq<real>, past: seq<bool>, now: real)
    requires c.burst >= 1 && Tight(c, b, times, past)
    ensures var (after, ok) := Touched(c, b, now);
            Tight(c, after, times + [now], past + [ok])
  {
    var (after, ok) := Touched(c, b, now);
    var ts, ps := times + [now], past + [ok];
    LeavesNow(c, now, times, past, ok);
    forall j | 0 <= j < |ts| ensures Leaves(c, now, ts, ps, j) >= after.tokens {
      if j < |times| {
        LeavesLater(c, b.lastCheck, now, times, past, ok, j);
      }
    }
    var j :| 0 <= j < |times| && Leaves(c, b.lastCheck, times, past, j) == b.tokens;
    LeavesLater(c, b.lastCheck, now, times, past, ok, j);
    var least := if Refilled(c, b, now) == c.burst as real then |times| else j;
    assert Leaves(c, now, ts, ps, least) == after.tokens;
  }

  /** The first call of a key is granted and leaves its bucket tight. */
  lemma NewTight(c: Config, now: real)
    requires c.burst >= 1
    ensures Fits(c, [], [], now) && Tight(c, NewBucket(c, now), [now], [true])
  {
    LeavesNow(c, now, [], [], true);
    assert [] + [now] == [now] && [] + [true] == [true];
    assert Leaves(c, now, [now], [true], 0) == NewBucket(c, now).tokens;
  }

  // ---------------------------------------------------------------- all buckets, over whole runs

  /** The times at which one key called. */
  function TimesOf(es: seq<Event>, key: string): seq<real> {
    if es == [] then []
    else (if es[0].Call? && es[0].key == key then [es[0].at] else []) + TimesOf(es[1..], key)
  }

  /** The answers one key got. */
  function AnswersTo(rs: seq<Reply>, key: string): seq<bool> {
    if rs == [] then [] else (if rs[0].key == key then [rs[0].ok] else []) + AnswersTo(rs[1..], key)
  }

  predicate Tracks(c: Config, bs: Buckets, key: string, times: seq<real>, past: seq<bool>) {
    && |times| == |past|
    && (key in bs <==> times != [])
    && (key in bs ==> Tight(c, bs[key], times, past))
  }

  lemma PlainTracks(c: Config, bs: Buckets, key: string, times: seq<real>, past: seq<bool>, caller: string, now: real)
    requires c.burst >= 1 && Tracks(c, bs, key, times, past)
    ensures var (after, ok) := PlainRequest(c, bs, caller, now);
            if caller == key then ok == Fits(c, times, past, now) && Tracks(c, after, key, times + [now], past + [ok])
            else Tracks(c, after, key, times, past)
  {
    if caller == key {
      if key in bs {
        TouchFits(c, bs[key], times, past, now);
        TouchTight(c, bs[key], times, past, now);
      } else {
        NewTight(c, now);
        assert times + [now] == [now] && past + [true] == [true];
      }
    }
  }

  lemma AnswersFirst(r: Reply, rs: seq<Reply>, key: string)
    ensures AnswersTo([r] + rs, key) == (if r.key == key then [r.ok] else []) + AnswersTo(rs, key)
  {
    assert ([r] + rs)[1..] == rs;
  }

  /** The limiter that never forgets answers every key as the counting limiter does. */
  lemma {:induction false} PlainIsGreedy(
      c: Config, bs: Buckets, es: seq<Event>, key: string, times: seq<real>, past: seq<bool>)
    requires c.burst >= 1 && Tracks(c, bs, key, times, past)
    ensures AnswersTo(PlainReplies(c, bs, es), key) == Greedy(c, times, past, TimesOf(es, key))
    decreases |es|
  {
    if es != [] {
      var e, rest := es[0], TimesOf(es[1..], key);
      if e.Sweep? {
        PlainIsGreedy(c, bs, es[1..], key, times, past);
        assert TimesOf(es, key) == rest;
      } else {
        var (after, ok) := PlainRequest(c, bs, e.key, e.at);
        PlainTracks(c, bs, key, times, past, e.key, e.at);
        AnswersFirst(Reply(e.key, ok), PlainReplies(c, after, es[1..]), key);
        if e.key == key {
          PlainIsGreedy(c, after, es[1..], key, times + [e.at], past + [ok]);
          assert TimesOf(es, key) == [e.at] + rest;
          assert ([e.at] + rest)[1..] == rest;
        } else {
          PlainIsGreedy(c, after, es[1..], key, times, past);
          assert TimesOf(es, key) == rest;
        }
      }
    }
  }

  ghost predicate Counts(c: Config, es: seq<Event>) {
    forall key :: AnswersTo(Replies(c, map[], es), key) == Greedy(c, [], [], TimesOf(Kept(c, map[], es), key))
  }

  /** The answers are those of the counting limiter, in every run and for every key. */
  ghost predicate AlwaysCounts(c: Config) {
    forall es | Ordered(es, 0.0) :: Counts(c, es)
  }

  /** Replies to the same calls that agree key by key agree altogether. */
  lemma {:induction false} AgreeByKey(rs: seq<Reply>, qs: seq<Reply>)
    requires |rs| == |qs| && forall i | 0 <= i < |rs| :: rs[i].key == qs[i].key
    requires forall key :: AnswersTo(rs, key) == AnswersTo(qs, key)
    ensures rs == qs
    decreases |rs|
  {
    if rs != [] {
      var r, q := rs[0], qs[0];
      assert AnswersTo(rs, r.key)[0] == r.ok && AnswersTo(qs, r.key)[0] == q.ok;
      forall key ensures AnswersTo(rs[1..], key) == AnswersTo(qs[1..], key) {
        var n := if r.key == key then 1 else 0;
        assert AnswersTo(rs, key) == AnswersTo(qs, key);
        assert AnswersTo(rs[1..], key) == AnswersTo(rs, key)[n..];
        assert AnswersTo(qs[1..], key) == AnswersTo(qs, key)[n..];
      }
      AgreeByKey(rs[1..], qs[1..]);
      assert rs == [r] + rs[1..] && qs == [q] + qs[1..];
    }
  }

  lemma {:induction false} RepliesAreToKept(c: Config, bs: Buckets, es: seq<Event>)
    ensures var rs, calls := Replies(c, bs, es), Kept(c, bs, es);
            |rs| == |calls| && forall i | 0 <= i < |rs| :: calls[i].Call? && rs[i].key == calls[i].key
    decreases |es|
  {
    if es != [] {
      RepliesAreToKept(c, After(c, bs, es[0]), es[1..]);
    }
  }

  lemma {:induction false} PlainRepliesAreToCalls(c: Config, bs: Buckets, es: seq<Event>)
    requires forall i | 0 <= i < |es| :: es[i].Call?
    ensures var rs := PlainReplies(c, bs, es); |rs| == |es| && forall i | 0 <= i < |rs| :: rs[i].key == es[i].key
    decreases |es|
  {
    if es != [] {
      PlainRepliesAreToCalls(c, PlainRequest(c, bs, es[0].key, es[0].at).0, es[1..]);
    }
  }

  /** Counting limiters do not let an eviction be seen. */
  lemma CountsHidesEviction(c: Config, es: seq<Event>)
    requires c.burst >= 1 && Counts(c, es)
    ensures SameAnswers(c, es)
  {
    var calls := Kept(c, map[], es);
    var rs, qs := Replies(c, map[], es), PlainReplies(c, map[], calls);
    RepliesAreToKept(c, map[], es);
    PlainRepliesAreToCalls(c, map[], calls);
    forall key ensures AnswersTo(rs, key) == AnswersTo(qs, key) {
      PlainIsGreedy(c, map[], calls, key, [], []);
    }
    AgreeByKey(rs, qs);
  }

  /** Without a burst nothing fits, yet a first call is granted. */
  lemma NoBurstDoesNotCount(c: Config)
    requires c.burst < 1
    ensures !AlwaysCounts(c)
  {
    var e := Call("client", 0.0);
    assert [e][1..] == [];
    assert Kept(c, map[], [e]) == [e] && Replies(c, map[], [e]) == [Reply("client", true)];
    assert TimesOf([e], "client") == [0.0];
    assert AnswersTo([Reply("client", true)], "client") == [true];
    assert Greedy(c, [], [], [0.0])[0] == false;
    assert Ordered([e], 0.0) && !Counts(c, [e]);
  }

  /**
   In every run, each key's calls that find room are granted exactly when they keep every window of that
   key's calls within the burst and what the rate earns over the window.
   */
  lemma GrantsExactlyWhatFits(c: Config, es: seq<Event>, start: real, key: string)
    requires Sane(c) && Refills(c) && Ordered(es, start)
    ensures AnswersTo(Replies(c, map[], es), key) == Greedy(c, [], [], TimesOf(Kept(c, map[], es), key))
  {
    Simulation(c, map[], map[], es, start);
    PlainIsGreedy(c, map[], Kept(c, map[], es), key, [], []);
  }

  /** That is so in all runs exactly when a burst is allowed and idle buckets refill within the TTL. */
  lemma CountsIffRefills(c: Config)
    requires Sane(c)
    ensures AlwaysCounts(c) <==> Refills(c)
  {
    if Refills(c) {
      forall es | Ordered(es, 0.0) ensures Counts(c, es) {
        forall key ensures AnswersTo(Replies(c, map[], es), key) == Greedy(c, [], [], TimesOf(Kept(c, map[], es), key)) {
          GrantsExactlyWhatFits(c, es, 0.0, key);
        }
      }
    } else if c.burst < 1 {
      NoBurstDoesNotCount(c);
    } else {
      UnobservableIffRefills(c);
      var es :| Ordered(es, 0.0) && !SameAnswers(c, es);
      if Counts(c, es) {
        CountsHidesEviction(c, es);
      }
    }
  }
}
