/**
 Round-robin selection of a healthy provider (pkg/server/model_providers.go): which cluster a call
 may pick, and how evenly consecutive calls spread over the candidates when the counter is a
 64-bit word that wraps.
 */
module ProviderSelection {
  import opened Basics
  import opened ByteSort

  const WORD: nat := 0x1_0000_0000_0000_0000

  datatype ClusterHealth = ClusterHealth(clusterId: string, healthy: bool)

  predicate IsCandidate(c: ClusterHealth, allowed: seq<string>, excluded: string) {
    c.clusterId != excluded && c.clusterId in allowed && c.healthy
  }

  function Candidates(report: seq<ClusterHealth>, allowed: seq<string>, excluded: string): seq<string> {
    if report == [] then []
    else
      var last := report[|report| - 1];
      var before := Candidates(report[..|report| - 1], allowed, excluded);
      if IsCandidate(last, allowed, excluded) then before + [last.clusterId] else before
  }

  /** The candidates are exactly the allowed, healthy clusters other than the excluded one. */
  lemma {:induction false} CandidatesMean(
      report: seq<ClusterHealth>, allowed: seq<string>, excluded: string, id: string)
    ensures id in Candidates(report, allowed, excluded)
       <==> (id != excluded && id in allowed && ClusterHealth(id, true) in report)
    decreases |report|
  {
    if report != [] {
      CandidatesMean(report[..|report| - 1], allowed, excluded, id);
      assert report == report[..|report| - 1] + [report[|report| - 1]];
    }
  }

  /** Whose turn it is among `n` candidates. */
  function Turn(counter: nat, n: nat): (index: nat)
    requires n > 0
    ensures index < n
  {
    counter % n
  }

  /** The counter is a 64-bit word. */
  function Next(counter: nat): (c: nat)
    ensures c < WORD
  {
    (counter + 1) % WORD
  }

  /** The candidate whose turn it is, if there is any. */
  function Selection(report: seq<ClusterHealth>, allowed: seq<string>, excluded: string, counter: nat)
    : Option<string>
  {
    var cs := SortStrings(Candidates(report, allowed, excluded));
    if cs == [] then None else Some(cs[Turn(counter, |cs|)])
  }

  /** Whatever is selected is allowed, healthy and not excluded; nothing is selected only for want of a candidate. */
  lemma SelectionSound(report: seq<ClusterHealth>, allowed: seq<string>, excluded: string, counter: nat)
    ensures var p := Selection(report, allowed, excluded, counter);
            p.Some? ==> p.value != excluded && p.value in allowed && ClusterHealth(p.value, true) in report
    ensures Selection(report, allowed, excluded, counter).None? <==>
            forall id | ClusterHealth(id, true) in report :: id == excluded || id !in allowed
  {
    var unsorted := Candidates(report, allowed, excluded);
    var cs := SortStrings(unsorted);
    if cs == [] {
      forall id | ClusterHealth(id, true) in report ensures id == excluded || id !in allowed {
        CandidatesMean(report, allowed, excluded, id);
      }
    } else {
      var id := cs[Turn(counter, |cs|)];
      InMultiset(cs, unsorted, id);
      CandidatesMean(report, allowed, excluded, id);
    }
  }

  class FleetController {
    const modelProviderClusters: map<string, seq<string>>
    var providerRouteCounter: nat

    constructor (providers: map<string, seq<string>>)
      ensures modelProviderClusters == providers && providerRouteCounter == 0
    {
      modelProviderClusters, providerRouteCounter := providers, 0;
    }

    /** A missing model has a nil provider list. */
    function Allowed(model: string): seq<string> {
      if model in modelProviderClusters then modelProviderClusters[model] else []
    }

    /** `providerRouteCounter.Add(1) - 1` on a wrapping 64-bit word: the value before the addition. */
    method Advance() returns (drawn: nat)
      requires providerRouteCounter < WORD
      modifies this
      ensures drawn == old(providerRouteCounter)
      ensures providerRouteCounter == Next(drawn)
    {
      DrawnIsOld(providerRouteCounter);
      providerRouteCounter := Next(providerRouteCounter);
      drawn := (providerRouteCounter + WORD - 1) % WORD;
    }

    method HealthyProviders(report: seq<ClusterHealth>, model: string, excluded: string)
      returns (providers: seq<string>)
      ensures providers == Candidates(report, Allowed(model), excluded)
    {
      var configured := Allowed(model);
      var allowed: set<string> := {};
      for i := 0 to |configured|
        invariant forall id :: id in allowed <==> id in configured[..i]
      {
        assert configured[..i + 1] == configured[..i] + [configured[i]];
        allowed := allowed + {configured[i]};
      }
      assert configured[..|configured|] == configured;
      providers := [];
      for i := 0 to |report|
        invariant providers == Candidates(report[..i], configured, excluded)
      {
        var cluster := report[i];
        assert report[..i + 1][..i] == report[..i];
        if cluster.clusterId != excluded && cluster.clusterId in allowed && cluster.healthy {
          providers := providers + [cluster.clusterId];
        }
      }
      assert report[..|report|] == report;
    }

    /** `nextHealthyProviderExcluding`; `report` is what the health builder returned. */
    method NextHealthyProviderExcluding(report: seq<ClusterHealth>, model: string, excluded: string)
      returns (provider: Option<string>)
      requires providerRouteCounter < WORD
      modifies this
      ensures provider == Selection(report, Allowed(model), excluded, old(providerRouteCounter))
      ensures provider.Some? ==>
        && provider.value != excluded && ClusterHealth(provider.value, true) in report
        && model in modelProviderClusters && provider.value in modelProviderClusters[model]
      ensures provider.None? ==> model in modelProviderClusters ==>
        forall id | id in modelProviderClusters[model] && ClusterHealth(id, true) in report :: id == excluded
      ensures providerRouteCounter ==
              if provider.Some? then Next(old(providerRouteCounter)) else old(providerRouteCounter)
    {
      SelectionSound(report, Allowed(model), excluded, providerRouteCounter);
      var providers := HealthyProviders(report, model, excluded);
      if |providers| == 0 {
        return None;
      }
      var sorted := SortStrings(providers);
      var drawn := Advance();
      provider := Some(sorted[Turn(drawn, |sorted|)]);
    }
  }

  lemma DrawnIsOld(counter: nat)
    requires counter < WORD
    ensures (Next(counter) + WORD - 1) % WORD == counter
  {
    if counter + 1 == WORD {
      assert (counter + 1) % WORD == 0;
    }
  }

  // ---------------------------------------------------------------- fairness

  /** The index drawn by the i-th of consecutive calls that start with the counter at `start`. */
  function Draw(start: nat, i: nat, n: nat): (index: nat)
    requires n > 0
    ensures index < n
  {
    Turn((start + i) % WORD, n)
  }

  /** How many of `calls` consecutive calls draw `index`. */
  function Drawn(start: nat, calls: nat, n: nat, index: nat): nat
    requires n > 0
  {
    if calls == 0 then 0
    else Drawn(start, calls - 1, n, index) + if Draw(start, calls - 1, n) == index then 1 else 0
  }

  /** The floor or the ceiling of calls / n. */
  predicate EvenShare(count: nat, calls: nat, n: nat)
    requires n > 0
  {
    calls / n <= count <= (calls + n - 1) / n
  }

  /** Every candidate is drawn its even share of times. */
  ghost predicate Fair(start: nat, calls: nat, n: nat)
    requires n > 0
  {
    forall index | 0 <= index < n :: EvenShare(Drawn(start, calls, n, index), calls, n)
  }

  lemma Distribute(a: int, b: int, n: int)
    ensures (a + b) * n == a * n + b * n
  {}

  lemma AtLeast(d: nat, n: nat)
    requires d >= 1
    ensures d * n >= n
  {
    Distribute(d - 1, 1, n);
  }

  lemma QuotientNotLess(n: nat, q: nat, r: nat, p: nat, s: nat)
    requires r < n && s < n && q * n + r == p * n + s
    ensures q <= p
  {
    if p < q {
      Distribute(p, q - p, n);
      AtLeast(q - p, n);
    }
  }

  lemma DivMod(x: nat, n: nat, q: nat, r: nat)
    requires n > 0 && r < n && x == q * n + r
    ensures x / n == q && x % n == r
  {
    var p, s := x / n, x % n;
    assert x == p * n + s;
    QuotientNotLess(n, q, r, p, s);
    QuotientNotLess(n, p, s, q, r);
  }

  /** Numbers below `x` that are `index` modulo n, in closed form. */
  function Below(x: nat, n: nat, index: nat): nat
    requires index < n
  {
    (x + n - 1 - index) / n
  }

  lemma BelowValue(x: nat, n: nat, index: nat, q: nat, r: nat)
    requires index < n && r < n && x == q * n + r
    ensures Below(x, n, index) == q + if index < r then 1 else 0
  {
    if index < r {
      Distribute(q, 1, n);
      DivMod(x + n - 1 - index, n, q + 1, r - index - 1);
    } else {
      DivMod(x + n - 1 - index, n, q, r + n - 1 - index);
    }
  }

  lemma BelowNext(x: nat, n: nat, index: nat, q: nat, r: nat)
    requires index < n && r < n && x == q * n + r
    ensures Below(x + 1, n, index) == Below(x, n, index) + if r == index then 1 else 0
  {
    BelowValue(x, n, index, q, r);
    if r + 1 < n {
      BelowValue(x + 1, n, index, q, r + 1);
    } else {
      Distribute(q, 1, n);
      BelowValue(x + 1, n, index, q + 1, 0);
    }
  }

  lemma BelowStep(x: nat, n: nat, index: nat)
    requires index < n
    ensures Below(x + 1, n, index) == Below(x, n, index) + if x % n == index then 1 else 0
  {
    BelowNext(x, n, index, x / n, x % n);
  }

  /** The draws step through the residues one after another. */
  ghost predicate Steady(start: nat, calls: nat, n: nat)
    requires n > 0
  {
    forall i | 0 <= i < calls :: Draw(start, i, n) == (start + i) % n
  }

  lemma {:induction false} DrawnBelow(start: nat, calls: nat, n: nat, index: nat)
    requires index < n && Steady(start, calls, n)
    ensures Drawn(start, calls, n, index) == Below(start + calls, n, index) - Below(start, n, index)
    decreases calls
  {
    if calls > 0 {
      DrawnBelow(start, calls - 1, n, index);
      BelowStep(start + calls - 1, n, index);
      assert Draw(start, calls - 1, n) == (start + (calls - 1)) % n;
    }
  }

  lemma SumQuotient(x: nat, y: nat, n: nat, q: nat, r: nat, p: nat, s: nat)
    requires r < n && s < n && x == q * n + r && y == p * n + s
    ensures (x + y) / n == q + p + if r + s < n then 0 else 1
  {
    Distribute(q, p, n);
    if r + s < n {
      DivMod(x + y, n, q + p, r + s);
    } else {
      Distribute(q + p, 1, n);
      DivMod(x + y, n, q + p + 1, r + s - n);
    }
  }

  lemma Ceiling(y: nat, n: nat, p: nat, s: nat)
    requires s < n && y == p * n + s
    ensures (y + n - 1) / n == p + if s == 0 then 0 else 1
  {
    if s == 0 {
      DivMod(y + n - 1, n, p, n - 1);
    } else {
      Distribute(p, 1, n);
      DivMod(y + n - 1, n, p + 1, s - 1);
    }
  }

  lemma QuotientGap(x: nat, y: nat, n: nat)
    requires n > 0
    ensures y / n <= (x + y) / n - x / n <= (y + n - 1) / n
  {
    SumQuotient(x, y, n, x / n, x % n, y / n, y % n);
    Ceiling(y, n, y / n, y % n);
  }

  lemma SteadyIsFair(start: nat, calls: nat, n: nat)
    requires n > 0 && Steady(start, calls, n)
    ensures Fair(start, calls, n)
  {
    forall index | 0 <= index < n
      ensures EvenShare(Drawn(start, calls, n, index), calls, n)
    {
      DrawnBelow(start, calls, n, index);
      QuotientGap(start + n - 1 - index, calls, n);
    }
  }

  /** While the counter does not wrap, any window of calls is fair. */
  lemma FairWithoutWrap(start: nat, calls: nat, n: nat)
    requires n > 0 && start + calls <= WORD
    ensures Fair(start, calls, n)
  {
    forall i | 0 <= i < calls ensures Draw(start, i, n) == (start + i) % n {
      NoWrap(start + i);
    }
    SteadyIsFair(start, calls, n);
  }

  lemma NoWrap(x: nat)
    requires x < WORD
    ensures x % WORD == x
  {}

  lemma Associate(a: int, b: int, n: int)
    ensures a * (b * n) == (a * b) * n
  {}

  lemma NestedRemainder(x: nat, n: nat, m: nat, q: nat, p: nat, s: nat)
    requires s < n && x == q * (m * n) + (p * n + s)
    ensures x % n == s
  {
    Associate(q, m, n);
    Distribute(q * m, p, n);
    DivMod(x, n, q * m + p, s);
  }

  lemma Euclid(x: nat, n: nat)
    requires n > 0
    ensures x == x / n * n + x % n && x % n < n
  {}

  lemma ModOfMultiple(x: nat, n: nat, word: nat, m: nat)
    requires n > 0 && word == m * n && word > 0
    ensures (x % word) % n == x % n
  {
    var q, r := x / word, x % word;
    Euclid(x, word);
    Euclid(r, n);
    assert q * word == q * (m * n);
    NestedRemainder(x, n, m, q, r / n, r % n);
  }

  lemma DividesIsSteady(start: nat, calls: nat, n: nat)
    requires n > 0 && WORD % n == 0
    ensures Steady(start, calls, n)
  {
    forall i | 0 <= i < calls ensures Draw(start, i, n) == (start + i) % n {
      ModOfMultiple(start + i, n, WORD, WORD / n);
    }
  }

  lemma {:induction false} DrawnGrows(start: nat, calls: nat, more: nat, n: nat, index: nat)
    requires n > 0 && calls <= more
    ensures Drawn(start, calls, n, index) <= Drawn(start, more, n, index)
    decreases more
  {
    if calls < more { DrawnGrows(start, calls, more - 1, n, index); }
  }

  lemma TwiceIsUnfair(start: nat, r: nat, n: nat)
    requires 0 < r < n && Draw(start, 0, n) == 0 && Draw(start, r, n) == 0
    ensures !Fair(start, r + 1, n)
  {
    assert Drawn(start, 1, n, 0) == 1;
    DrawnGrows(start, 1, r, n, 0);
    assert Drawn(start, r + 1, n, 0) >= 2;
    DivMod(r + 1 + n - 1, n, 1, r);
  }

  /** The window across the wrap in which candidate 0 is drawn first and last. */
  lemma WrapIsUnfair(n: nat) returns (start: nat, calls: nat)
    requires n > 0 && WORD % n != 0
    ensures start < WORD && !Fair(start, calls, n)
  {
    var r := WORD % n;
    Euclid(WORD, n);
    start, calls := WORD - r, r + 1;
    DivMod(start, n, WORD / n, 0);
    NoWrap(start);
    assert (start + r) % WORD == 0;
    TwiceIsUnfair(start, r, n);
  }

  /** Every window is fair, whether or not the counter wraps inside it. */
  ghost predicate AlwaysFair(n: nat)
    requires n > 0
  {
    forall start: nat, calls: nat | start < WORD :: Fair(start, calls, n)
  }

  lemma DividesIsFair(n: nat)
    requires n > 0 && WORD % n == 0
    ensures AlwaysFair(n)
  {
    forall start: nat, calls: nat | start < WORD ensures Fair(start, calls, n) {
      DividesIsSteady(start, calls, n);
      SteadyIsFair(start, calls, n);
    }
  }

  /** Selection stays fair for ever exactly when the number of candidates divides the counter's range. */
  lemma AlwaysFairIffDivides(n: nat)
    requires n > 0
    ensures AlwaysFair(n) <==> WORD % n == 0
  {
    if WORD % n == 0 {
      DividesIsFair(n);
    } else {
      var start, calls := WrapIsUnfair(n);
    }
  }

  // ---------------------------------------------------------------- whole runs

  /** The counter after `calls` calls that each found a candidate. */
  function CounterAfter(start: nat, calls: nat): nat {
    if calls == 0 then start else Next(CounterAfter(start, calls - 1))
  }

  /** The providers returned by `calls` consecutive calls that see the same health report. */
  function Picks(start: nat, calls: nat, cs: seq<string>): (ps: seq<string>)
    requires cs != []
    ensures |ps| == calls
  {
    if calls == 0 then []
    else Picks(start, calls - 1, cs) + [cs[Turn(CounterAfter(start, calls - 1), |cs|)]]
  }

  lemma NextAt(x: nat, word: nat, q: nat, r: nat)
    requires r < word && x == q * word + r
    ensures (x + 1) % word == (r + 1) % word
  {
    if r + 1 < word {
      DivMod(x + 1, word, q, r + 1);
      DivMod(r + 1, word, 0, r + 1);
    } else {
      Distribute(q, 1, word);
      DivMod(x + 1, word, q + 1, 0);
      DivMod(r + 1, word, 1, 0);
    }
  }

  lemma NextOfRemainder(x: nat)
    ensures Next(x % WORD) == (x + 1) % WORD
  {
    NextAt(x, WORD, x / WORD, x % WORD);
  }

  lemma {:induction false} CounterIsSum(start: nat, calls: nat)
    requires start < WORD
    ensures CounterAfter(start, calls) == (start + calls) % WORD
    decreases calls
  {
    if calls > 0 {
      CounterIsSum(start, calls - 1);
      NextOfRemainder(start + calls - 1);
    }
  }

  lemma {:induction false} PicksCount(start: nat, calls: nat, cs: seq<string>, index: nat)
    requires start < WORD && Distinct(cs) && index < |cs|
    ensures multiset(Picks(start, calls, cs))[cs[index]] == Drawn(start, calls, |cs|, index)
    decreases calls
  {
    if calls > 0 {
      PicksCount(start, calls - 1, cs, index);
      CounterIsSum(start, calls - 1);
    }
  }

  /** The providers that `calls` consecutive calls return while the health report stays the same. */
  function Selections(report: seq<ClusterHealth>, allowed: seq<string>, excluded: string, start: nat, calls: nat)
    : (ps: seq<Option<string>>)
    ensures |ps| == calls
  {
    if calls == 0 then []
    else
      Selections(report, allowed, excluded, start, calls - 1)
      + [Selection(report, allowed, excluded, CounterAfter(start, calls - 1))]
  }

  /** The i-th of the consecutive calls returns the i-th round-robin pick from the sorted candidates. */
  lemma {:induction false} SelectionsArePicks(
      report: seq<ClusterHealth>, allowed: seq<string>, excluded: string, start: nat, calls: nat, i: nat)
    requires Candidates(report, allowed, excluded) != [] && i < calls
    ensures var cs := SortStrings(Candidates(report, allowed, excluded));
            Selections(report, allowed, excluded, start, calls)[i] == Some(Picks(start, calls, cs)[i])
    decreases calls
  {
    if i < calls - 1 {
      SelectionsArePicks(report, allowed, excluded, start, calls - 1, i);
    }
  }

  lemma {:induction false} SomeCounts(ss: seq<Option<string>>, ps: seq<string>, p: string)
    requires |ss| == |ps| && forall i | 0 <= i < |ps| :: ss[i] == Some(ps[i])
    ensures multiset(ss)[Some(p)] == multiset(ps)[p]
    decreases |ps|
  {
    if ps != [] {
      var n := |ps| - 1;
      SomeCounts(ss[..n], ps[..n], p);
      assert ss == ss[..n] + [ss[n]] && ps == ps[..n] + [ps[n]];
    }
  }

  /** A report names each cluster once. */
  predicate DistinctIds(report: seq<ClusterHealth>) {
    forall i, j | 0 <= i < j < |report| :: report[i].clusterId != report[j].clusterId
  }

  lemma {:induction false} DistinctCandidates(report: seq<ClusterHealth>, allowed: seq<string>, excluded: string)
    requires DistinctIds(report)
    ensures Distinct(Candidates(report, allowed, excluded))
    decreases |report|
  {
    if report != [] {
      var n := |report| - 1;
      DistinctCandidates(report[..n], allowed, excluded);
      CandidatesMean(report[..n], allowed, excluded, report[n].clusterId);
    }
  }

  lemma FairWindow(start: nat, calls: nat, n: nat)
    requires n > 0 && (start + calls <= WORD || WORD % n == 0)
    ensures Fair(start, calls, n)
  {
    if start + calls <= WORD {
      FairWithoutWrap(start, calls, n);
    } else {
      DividesIsSteady(start, calls, n);
      SteadyIsFair(start, calls, n);
    }
  }

  lemma PicksAreEven(start: nat, calls: nat, cs: seq<string>, p: string)
    requires Distinct(cs) && p in cs && start < WORD && (start + calls <= WORD || WORD % |cs| == 0)
    ensures EvenShare(multiset(Picks(start, calls, cs))[p], calls, |cs|)
  {
    var index :| 0 <= index < |cs| && cs[index] == p;
    PicksCount(start, calls, cs, index);
    FairWindow(start, calls, |cs|);
  }

  lemma SelectionCounts(
      report: seq<ClusterHealth>, allowed: seq<string>, excluded: string, start: nat, calls: nat, p: string)
    requires Candidates(report, allowed, excluded) != []
    ensures var cs := SortStrings(Candidates(report, allowed, excluded));
            multiset(Selections(report, allowed, excluded, start, calls))[Some(p)] == multiset(Picks(start, calls, cs))[p]
  {
    var cs := SortStrings(Candidates(report, allowed, excluded));
    forall i | 0 <= i < calls
      ensures Selections(report, allowed, excluded, start, calls)[i] == Some(Picks(start, calls, cs)[i])
    {
      SelectionsArePicks(report, allowed, excluded, start, calls, i);
    }
    SomeCounts(Selections(report, allowed, excluded, start, calls), Picks(start, calls, cs), p);
  }

  /**
   Over consecutive calls that see one report, each candidate is returned its even share of times, as long
   as the counter does not wrap or the number of candidates divides its range.
   */
  lemma SharesAreEven(
      report: seq<ClusterHealth>, allowed: seq<string>, excluded: string, start: nat, calls: nat, p: string)
    requires DistinctIds(report) && p in Candidates(report, allowed, excluded) && start < WORD
    requires start + calls <= WORD || WORD % |Candidates(report, allowed, excluded)| == 0
    ensures EvenShare(multiset(Selections(report, allowed, excluded, start, calls))[Some(p)], calls,
                      |Candidates(report, allowed, excluded)|)
  {
    var unsorted := Candidates(report, allowed, excluded);
    var cs := SortStrings(unsorted);
    DistinctCandidates(report, allowed, excluded);
    DistinctSame(cs, unsorted);
    InMultiset(cs, unsorted, p);
    SelectionCounts(report, allowed, excluded, start, calls, p);
    PicksAreEven(start, calls, cs, p);
  }

  // ---------------------------------------------------------------- one counter for all models

  lemma Multiple(i: nat, m: nat, n: nat, q: nat)
    requires m == q * n
    ensures i * m == (i * q) * n
  {
    Associate(i, q, n);
  }

  lemma SameRemainder(x: nat, m: nat, n: nat, i: nat)
    requires n > 0 && m % n == 0
    ensures (x + i * m) % n == x % n
  {
    var q := m / n;
    Euclid(m, n);
    Euclid(x, n);
    Multiple(i, m, n, q);
    Distribute(i * q, x / n, n);
    DivMod(x + i * m, n, i * q + x / n, x % n);
  }

  lemma StuckDivides(x: nat, m: nat, n: nat)
    requires n > 0 && (x + m) % n == x % n
    ensures m % n == 0
  {
    Euclid(x, n);
    Euclid(x + m, n);
    var p, q := (x + m) / n, x / n;
    assert m == p * n - q * n;
    if p < q {
      Distribute(p, q - p, n);
      AtLeast(q - p, n);
    }
    Distribute(q, p - q, n);
    DivMod(m, n, p - q, 0);
  }

  /** A model that is asked for at every m-th draw of the shared counter gets the same turn each time. */
  ghost predicate Stuck(start: nat, m: nat, n: nat)
    requires n > 0
  {
    forall i: nat | start + i * m < WORD :: Draw(start, i * m, n) == Draw(start, 0, n)
  }

  lemma DrawAhead(start: nat, k: nat, n: nat)
    requires n > 0 && start + k < WORD
    ensures Draw(start, k, n) == (start + k) % n
  {
    NoWrap(start + k);
  }

  /**
   The counter is shared by all models. One whose calls take every m-th draw always gets the same of its n
   candidates, as long as the counter does not wrap, if and only if n divides m: two models with two
   candidates each, asked for in turn, never leave the candidate they began with.
   */
  lemma StuckIffDivides(start: nat, m: nat, n: nat)
    requires n > 0 && start + m < WORD
    ensures Stuck(start, m, n) <==> m % n == 0
  {
    DrawAhead(start, 0, n);
    if m % n == 0 {
      forall i: nat | start + i * m < WORD ensures Draw(start, i * m, n) == Draw(start, 0, n) {
        DrawAhead(start, i * m, n);
        SameRemainder(start, m, n, i);
      }
    }
    if Stuck(start, m, n) {
      assert 1 * m == m;
      assert Draw(start, 1 * m, n) == Draw(start, 0, n);
      DrawAhead(start, m, n);
      StuckDivides(start, m, n);
    }
  }

  /** What the model's callers see: the same provider at each of its calls. */
  lemma SharedCounterSticks(
      report: seq<ClusterHealth>, allowed: seq<string>, excluded: string, start: nat, m: nat, i: nat)
    requires Candidates(report, allowed, excluded) != [] && start + i * m < WORD
    requires m % |Candidates(report, allowed, excluded)| == 0
    ensures Selection(report, allowed, excluded, CounterAfter(start, i * m))
         == Selection(report, allowed, excluded, start)
  {
    var n := |Candidates(report, allowed, excluded)|;
    CounterIsSum(start, i * m);
    NoWrap(start + i * m);
    SameRemainder(start, m, n, i);
  }
}
