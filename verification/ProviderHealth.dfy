/** Active provider probing with hysteresis (pkg/server/provider_health.go). */
module ProviderHealth {
  import opened Basics

  /** The flag and the lengths of the current runs of successes and failures. */
  datatype Health = Health(healthy: bool, successes: nat, failures: nat)

  datatype Entry = Entry(health: Health, checkedAt: int)

  const HealthyThreshold := 2
  const UnhealthyThreshold := 3

  const Unprobed := Health(false, 0, 0)

  /** One probe's effect. */
  function Probed(h: Health, success: bool): Health {
    if success then Health(h.healthy || h.successes + 1 >= HealthyThreshold, h.successes + 1, 0)
    else Health(h.healthy && h.failures + 1 < UnhealthyThreshold, 0, h.failures + 1)
  }

  /** What a provider's probe results, oldest first, leave behind. */
  function HealthAfter(history: seq<bool>): Health {
    if history == [] then Unprobed
    else Probed(HealthAfter(history[..|history| - 1]), history[|history| - 1])
  }

  // ---------------------------------------------------------------- what the counters remember

  /** The last `n` results all equal `v`. */
  predicate EndsWith(history: seq<bool>, v: bool, n: nat) {
    n <= |history| && forall i | |history| - n <= i < |history| :: history[i] == v
  }

  /** `n` is the length of the final run of results equal to `v`. */
  predicate RunLength(history: seq<bool>, v: bool, n: nat) {
    EndsWith(history, v, n) && (n < |history| ==> history[|history| - 1 - n] != v)
  }

  lemma {:induction false} CountersAreRuns(history: seq<bool>)
    ensures RunLength(history, true, HealthAfter(history).successes)
    ensures RunLength(history, false, HealthAfter(history).failures)
    decreases |history|
  {
    if history != [] {
      CountersAreRuns(history[..|history| - 1]);
    }
  }

  // ---------------------------------------------------------------- what the flag means

  /** Results `i` and `i + 1` both succeeded. */
  predicate TwoUp(history: seq<bool>, i: int) {
    0 <= i && i + 1 < |history| && history[i] && history[i + 1]
  }

  /** Results `j` to `j + 2` all failed. */
  predicate ThreeDown(history: seq<bool>, j: int) {
    0 <= j && j + 2 < |history| && !history[j] && !history[j + 1] && !history[j + 2]
  }

  /** Two successes in a row, and no three failures in a row since. */
  ghost predicate UpAndNotDownSince(history: seq<bool>) {
    exists i :: TwoUp(history, i) && forall j | j > i :: !ThreeDown(history, j)
  }

  lemma PrefixEvents(history: seq<bool>, i: int)
    requires history != []
    ensures TwoUp(history[..|history| - 1], i) ==> TwoUp(history, i)
    ensures ThreeDown(history[..|history| - 1], i) ==> ThreeDown(history, i)
    ensures TwoUp(history, i) && i + 1 < |history| - 1 ==> TwoUp(history[..|history| - 1], i)
    ensures ThreeDown(history, i) && i + 2 < |history| - 1 ==> ThreeDown(history[..|history| - 1], i)
  {}

  /** A result that does not complete three failures keeps an up provider up. */
  lemma UpCarries(history: seq<bool>)
    requires history != [] && !ThreeDown(history, |history| - 3) && UpAndNotDownSince(history[..|history| - 1])
    ensures UpAndNotDownSince(history)
  {
    var front := history[..|history| - 1];
    var i :| TwoUp(front, i) && forall j | j > i :: !ThreeDown(front, j);
    PrefixEvents(history, i);
    forall j | j > i ensures !ThreeDown(history, j) {
      PrefixEvents(history, j);
    }
  }

  /** A result that does not complete two successes leaves nothing up that was not up before. */
  lemma UpCameBefore(history: seq<bool>)
    requires history != [] && !TwoUp(history, |history| - 2) && UpAndNotDownSince(history)
    ensures UpAndNotDownSince(history[..|history| - 1])
  {
    var i :| TwoUp(history, i) && forall j | j > i :: !ThreeDown(history, j);
    var front := history[..|history| - 1];
    PrefixEvents(history, i);
    forall j | j > i ensures !ThreeDown(front, j) {
      PrefixEvents(history, j);
    }
  }

  /** Three failures at the end, or two successes, settle the question. */
  lemma EndSettles(history: seq<bool>)
    ensures ThreeDown(history, |history| - 3) ==> !UpAndNotDownSince(history)
    ensures TwoUp(history, |history| - 2) ==> UpAndNotDownSince(history)
  {
    if ThreeDown(history, |history| - 3) {
      forall i | TwoUp(history, i) ensures i < |history| - 3 {
        assert history[i + 1];
      }
    }
  }

  /** The counters see exactly whether the latest result completes two successes or three failures. */
  lemma CountersSeeTheEnd(history: seq<bool>)
    requires history != []
    ensures var e := HealthAfter(history[..|history| - 1]);
            && (TwoUp(history, |history| - 2) <==> history[|history| - 1] && e.successes >= 1)
            && (ThreeDown(history, |history| - 3) <==> !history[|history| - 1] && e.failures >= 2)
  {
    var n := |history| - 1;
    var front := history[..n];
    CountersAreRuns(front);
    assert n >= 1 ==> front[n - 1] == history[n - 1];
    assert n >= 2 ==> front[n - 2] == history[n - 2];
  }

  /** The stored flag is true exactly when two successes in a row are not yet followed by three failures in a row. */
  lemma {:induction false} FlagMeaning(history: seq<bool>)
    ensures HealthAfter(history).healthy <==> UpAndNotDownSince(history)
    decreases |history|
  {
    if history != [] {
      FlagMeaning(history[..|history| - 1]);
      CountersSeeTheEnd(history);
      EndSettles(history);
      if !ThreeDown(history, |history| - 3) && UpAndNotDownSince(history[..|history| - 1]) {
        UpCarries(history);
      }
      if !TwoUp(history, |history| - 2) && UpAndNotDownSince(history) {
        UpCameBefore(history);
      }
    }
  }

  /** The run of equal results at the end has reached its threshold. */
  predicate Decided(h: Health) {
    h.successes >= HealthyThreshold || h.failures >= UnhealthyThreshold
  }

  /** A provider is decided exactly when its last two results succeeded or its last three failed, and the flag says which. */
  lemma DecidedMeaning(history: seq<bool>)
    ensures Decided(HealthAfter(history)) <==> EndsWith(history, true, 2) || EndsWith(history, false, 3)
    ensures EndsWith(history, true, 2) ==> HealthAfter(history).healthy
    ensures EndsWith(history, false, 3) ==> !HealthAfter(history).healthy
  {
    CountersAreRuns(history);
    FlagMeaning(history);
    var n := |history|;
    var e := HealthAfter(history);
    if EndsWith(history, true, 2) {
      assert history[n - 1] && history[n - 2];
      assert TwoUp(history, n - 2);
      assert e.successes >= 2;
      assert UpAndNotDownSince(history);
    }
    if EndsWith(history, false, 3) {
      assert !history[n - 1] && !history[n - 2] && !history[n - 3];
      assert ThreeDown(history, n - 3);
      assert e.failures >= 3;
      forall i | TwoUp(history, i) ensures i < n - 3 {
        assert history[i + 1];
      }
    }
  }

  // ---------------------------------------------------------------- the cache

  class ProviderHealthCache {
    const urls: map<string, string>
    const ttl: int
    var entries: map<string, Entry>
    /** The results of every probe made so far, per provider. */
    ghost var probes: map<string, seq<bool>>

    /** Every entry holds what its provider's probe history leaves behind. */
    ghost predicate Valid()
      reads this
    {
      && entries.Keys == probes.Keys
      && forall p | p in entries :: probes[p] != [] && entries[p].health == HealthAfter(probes[p])
    }

    ghost function History(p: string): seq<bool>
      reads this
    {
      if p in probes then probes[p] else []
    }

    constructor (urls: map<string, string>, ttl: int)
      ensures Valid() && entries == map[] && this.urls == urls && this.ttl == ttl
    {
      this.urls, this.ttl := urls, ttl;
      entries, probes := map[], map[];
    }

    /** `probe`, given whether the endpoint answered with a 2xx status. */
    method Probe(provider: string, success: bool, now: int) returns (healthy: bool)
      requires Valid()
      modifies this
      ensures Valid()
      ensures probes == old(probes)[provider := old(History(provider)) + [success]]
      ensures healthy <==> UpAndNotDownSince(History(provider))
      ensures provider in entries && entries[provider].checkedAt == now && entries[provider].health.healthy == healthy
      ensures forall p | p in old(entries) && p != provider :: p in entries && entries[p] == old(entries)[p]
    {
      var h := if provider in entries then entries[provider].health else Unprobed;
      if success {
        h := Health(h.healthy, h.successes + 1, 0);
        if h.successes >= HealthyThreshold {
          h := h.(healthy := true);
        }
      } else {
        h := Health(h.healthy, 0, h.failures + 1);
        if h.failures >= UnhealthyThreshold {
          h := h.(healthy := false);
        }
      }
      ghost var history := History(provider) + [success];
      assert history[..|history| - 1] == History(provider);
      entries := entries[provider := Entry(h, now)];
      probes := probes[provider := history];
      healthy := h.healthy;
      FlagMeaning(history);
    }

    /** `Ready`: every configured provider's latest run of equal results has reached its threshold. */
    method Ready() returns (ready: bool)
      requires Valid()
      ensures ready <==> forall p | p in urls :: EndsWith(History(p), true, 2) || EndsWith(History(p), false, 3)
    {
      forall p ensures Decided(HealthAfter(History(p))) <==> EndsWith(History(p), true, 2) || EndsWith(History(p), false, 3) {
        DecidedMeaning(History(p));
      }
      var left := urls.Keys;
      while left != {}
        invariant left <= urls.Keys
        invariant forall p | p in urls && p !in left :: Decided(HealthAfter(History(p)))
        decreases left
      {
        var p :| p in left;
        if p !in entries || (entries[p].health.successes < HealthyThreshold && entries[p].health.failures < UnhealthyThreshold) {
          assert !Decided(HealthAfter(History(p)));
          return false;
        }
        left := left - {p};
      }
      ready := true;
    }

    /** `Healthy`: a fresh enough entry answers; otherwise the endpoint is probed. */
    method Healthy(provider: string, now: int, success: bool) returns (healthy: bool, configured: bool)
      requires Valid()
      modifies this
      ensures Valid()
      ensures configured <==> provider in urls
      ensures !configured ==> !healthy && entries == old(entries) && probes == old(probes)
      ensures configured && provider in old(entries) && now - old(entries)[provider].checkedAt < ttl ==>
        entries == old(entries) && probes == old(probes)
      ensures configured && !(provider in old(entries) && now - old(entries)[provider].checkedAt < ttl) ==>
        probes == old(probes)[provider := old(History(provider)) + [success]]
      ensures configured ==> (healthy <==> UpAndNotDownSince(History(provider)))
    {
      if provider !in urls {
        return false, false;
      }
      if provider in entries && now - entries[provider].checkedAt < ttl {
        FlagMeaning(History(provider));
        return entries[provider].health.healthy, true;
      }
      healthy := Probe(provider, success, now);
      configured := true;
    }

    /** `Snapshot`: the last authoritative state, without probing. */
    method Snapshot(provider: string) returns (healthy: bool, configured: bool, checkedAt: Option<int>)
      requires Valid()
      ensures configured <==> provider in urls
      ensures healthy <==> configured && UpAndNotDownSince(History(provider))
      ensures checkedAt == if configured && provider in entries then Some(entries[provider].checkedAt) else None
    {
      FlagMeaning(History(provider));
      if provider !in urls {
        return false, false, None;
      }
      if provider !in entries {
        return false, true, None;
      }
      return entries[provider].health.healthy, true, Some(entries[provider].checkedAt);
    }
  }
}
