/**
 What llm-d Router can rely on over whole runs of the publisher: which model each file serves, which
 files are emptied, and what a reader may see while one publication is being installed.
 */
module RoutingRuns {
  import opened Basics
  import opened ByteSort
  import opened GoText
  import opened RoutingPublication

  // ---------------------------------------------------------------- one publication

  ghost predicate Served(name: Namer, es: seq<Emission>, files: map<string, File>, m: string) {
    name(m) in files && Lists(files[name(m)], EndpointsOf(es, m))
  }

  ghost predicate DistinctNames(name: Namer, models: set<string>) {
    forall m, x | m in models && x in models && m != x :: name(m) != name(x)
  }

  lemma OwnerExists(name: Namer, models: set<string>, m: string)
    requires m in models
    ensures exists w :: Owner(name, models, w) && name(w) == name(m)
  {
    var sharing := set x | x in models && name(x) == name(m);
    assert m in sharing;
    GreatestExists(sharing);
    var w :| IsGreatest(w, sharing);
    forall x | x in models && x != w && name(x) == name(w) ensures Less(x, w) {
      assert x in sharing;
    }
    assert Owner(name, models, w);
  }

  /** No list of endpoints can stand for two models: the model is a label of every endpoint. */
  lemma ListsOneModel(es: seq<Emission>, file: File, m: string, x: string)
    requires Labelled(es) && m in Active(es)
    requires Lists(file, EndpointsOf(es, m)) && Lists(file, EndpointsOf(es, x))
    ensures m == x
  {
    OneEndpointPerOccurrence(es, m);
    OneEndpointPerOccurrence(es, x);
    var e := EndpointsOf(es, m)[0];
    assert e in EndpointsOf(es, m);
    InMultiset(EndpointsOf(es, m), EndpointsOf(es, x), e);
    LabelOf(es, m, e);
    LabelOf(es, x, e);
  }

  lemma LabelOf(es: seq<Emission>, m: string, e: Endpoint)
    requires Labelled(es) && Sends(m, e) in es
    ensures ModelLabel(e) == m
  {
    var i :| 0 <= i < |es| && es[i] == Sends(m, e);
  }

  lemma LabelledServedIffOwner(name: Namer, es: seq<Emission>, seen: set<string>, files: map<string, File>, m: string)
    requires Labelled(es) && Rendering(name, es, seen, files) && m in Active(es)
    ensures Served(name, es, files, m) <==> Owner(name, Active(es), m)
  {
    if Served(name, es, files, m) {
      OwnerExists(name, Active(es), m);
      var w :| Owner(name, Active(es), w) && name(w) == name(m);
      ListsOneModel(es, files[name(m)], m, w);
    }
  }

  /** A model's file holds exactly its endpoints if and only if no later model shares the truncated digest. */
  lemma ServedIffOwner(
      name: Namer, v: View, pools: seq<Pool>, es: seq<Emission>, seen: set<string>, files: map<string, File>, m: string)
    requires es == Emissions(Emitting(v), pools) && Rendering(name, es, seen, files) && m in Active(es)
    ensures Served(name, es, files, m) <==> Owner(name, Active(es), m)
  {
    EmissionsLabelled(v, pools);
    LabelledServedIffOwner(name, es, seen, files, m);
  }

  lemma AllOwnersIffDistinct(name: Namer, models: set<string>)
    ensures (forall m | m in models :: Owner(name, models, m)) <==> DistinctNames(name, models)
  {
    if forall m | m in models :: Owner(name, models, m) {
      forall m, x | m in models && x in models && m != x ensures name(m) != name(x) {
        LessTotal(m, x);
        assert Owner(name, models, m) && Owner(name, models, x);
      }
    }
  }

  ghost predicate AllServed(name: Namer, es: seq<Emission>, files: map<string, File>) {
    forall m | m in Active(es) :: Served(name, es, files, m)
  }

  /** Every model is served from its own file if and only if the active models' file names are distinct. */
  lemma AllServedIffDistinctNames(
      name: Namer, v: View, pools: seq<Pool>, es: seq<Emission>, seen: set<string>, files: map<string, File>)
    requires es == Emissions(Emitting(v), pools) && Rendering(name, es, seen, files)
    ensures AllServed(name, es, files) <==> DistinctNames(name, Active(es))
  {
    forall m | m in Active(es) ensures Served(name, es, files, m) <==> Owner(name, Active(es), m) {
      ServedIffOwner(name, v, pools, es, seen, files, m);
    }
    AllOwnersIffDistinct(name, Active(es));
  }

  // ---------------------------------------------------------------- two models with one file name

  ghost function OwnerOf(name: Namer, models: set<string>, f: string): (w: string)
    requires f in Names(name, models)
    ensures Owner(name, models, w) && name(w) == f
  {
    var m :| m in models && name(m) == f;
    OwnerExists(name, models, m);
    var w :| Owner(name, models, w) && name(w) == f;
    w
  }

  lemma OneOwner(name: Namer, models: set<string>, m: string, x: string)
    requires Owner(name, models, m) && Owner(name, models, x) && name(m) == name(x)
    ensures m == x
  {
    LessTotal(m, x);
  }

  /** Whatever was emitted, there are files for it. */
  lemma RenderingExists(name: Namer, es: seq<Emission>) returns (files: map<string, File>)
    requires NeverIndex(name)
    ensures Rendering(name, es, {}, files)
  {
    var models := Active(es);
    var own := map f | f in Names(name, models) :: FileOf(EndpointsOf(es, OwnerOf(name, models, f)));
    files := own[INDEX := Index(IndexOf(name, models))];
    assert INDEX !in own;
    forall m | Owner(name, models, m)
      ensures name(m) in files && Lists(files[name(m)], EndpointsOf(es, m))
    {
      OneOwner(name, models, m, OwnerOf(name, models, name(m)));
    }
  }

  /** One cluster with nothing but an address, and one pool per model on it. */
  const PlainCluster := Cluster("c", "", map[], "h", "", "", "", "", "", "", "", None, false, true)

  function PlainView(): View {
    View(Options("default", 1, false, (raw: string, ports: seq<int>) => Some(Url("https", raw, ""))),
         map["c" := PlainCluster], 0)
  }

  function PlainPool(model: string): Pool {
    Pool("p", "", model, ["c"], [])
  }

  lemma PlainEligible(model: string)
    ensures Eligible(PlainView().opts, 0, PlainCluster) && SupportsExactModel(PlainCluster, model)
  {
    TrimSpaceIdentity("h");
    assert |Lower("")| == 0 && |Lower("draining")| == 8;
  }

  lemma PlainSends(model: string)
    requires TrimSpace(model) == model && model != ""
    ensures Emit(PlainView(), PlainPool(model), "c").Sends? && Emit(PlainView(), PlainPool(model), "c").model == model
  {
    PlainEligible(model);
  }

  lemma TwoPools(emit: Emitter, p: Pool, q: Pool)
    requires p.clusters == ["c"] && q.clusters == ["c"]
    ensures Emissions(emit, [p, q]) == [emit(p, "c"), emit(q, "c")]
  {
    assert [p, q][..1] == [p] && [p][..0] == [];
    assert Emissions(emit, [p]) == [emit(p, "c")];
  }

  lemma TwoActive(es: seq<Emission>, a: string, b: string)
    requires |es| == 2 && es[0].Sends? && es[1].Sends? && es[0].model == a && es[1].model == b
    ensures !RenderError(es) && Active(es) == {a, b}
  {
    assert es[0] in es && es[1] in es;
  }

  /** Two models whose names collide: a synchronisation without any error serves one with the other's endpoints. */
  lemma SharedNameMisserves(name: Namer, a: string, b: string)
    returns (v: View, pools: seq<Pool>, files: map<string, File>)
    requires NeverIndex(name) && a != b && name(a) == name(b)
    requires TrimSpace(a) == a && a != "" && TrimSpace(b) == b && b != ""
    ensures var es := Emissions(Emitting(v), pools);
            && !RenderError(es) && Active(es) == {a, b}
            && Rendering(name, es, {}, files) && !AllServed(name, es, files)
  {
    v, pools := PlainView(), [PlainPool(a), PlainPool(b)];
    PlainSends(a);
    PlainSends(b);
    TwoPools(Emitting(v), pools[0], pools[1]);
    var es := Emissions(Emitting(v), pools);
    TwoActive(es, a, b);
    files := RenderingExists(name, es);
    AllServedIffDistinctNames(name, v, pools, es, {}, files);
  }

  // ---------------------------------------------------------------- whole runs

  ghost predicate Run(name: Namer, states: seq<State>, calls: seq<Sync>) {
    && |states| == |calls| + 1
    && forall i | 0 <= i < |calls| :: Step(name, states[i], calls[i], states[i + 1])
  }

  /** Some call of the run rendered a file of this name. */
  ghost predicate WrittenBy(name: Namer, calls: seq<Sync>, f: string) {
    exists c | c in calls :: Writes(name, c, f)
  }

  ghost predicate Writes(name: Namer, c: Sync, f: string) {
    !c.outcome.RenderFailed? && f in Names(name, Active(c.emissions))
  }

  lemma RunShorter(name: Namer, states: seq<State>, calls: seq<Sync>)
    requires Run(name, states, calls) && calls != []
    ensures Run(name, states[..|calls|], calls[..|calls| - 1])
    ensures Step(name, states[|calls| - 1], calls[|calls| - 1], states[|calls|])
  {}

  lemma WrittenStep(name: Namer, calls: seq<Sync>, f: string)
    requires calls != []
    ensures WrittenBy(name, calls, f) <==>
            WrittenBy(name, calls[..|calls| - 1], f) || Writes(name, calls[|calls| - 1], f)
  {
    var n := |calls| - 1;
    assert calls == calls[..n] + [calls[n]];
    assert calls[n] in calls;
  }

  /** What the process remembers is exactly what it has rendered. */
  lemma {:induction false} SeenIsWritten(name: Namer, states: seq<State>, calls: seq<Sync>, f: string)
    requires Run(name, states, calls) && states[0].seen == {}
    ensures f in states[|calls|].seen <==> WrittenBy(name, calls, f)
    decreases |calls|
  {
    if calls != [] {
      RunShorter(name, states, calls);
      SeenIsWritten(name, states[..|calls|], calls[..|calls| - 1], f);
      WrittenStep(name, calls, f);
    }
  }

  /** After a successful call every name ever rendered is on disk, empty once no model uses it. */
  lemma Tombstones(name: Namer, states: seq<State>, calls: seq<Sync>, f: string)
    requires Run(name, states, calls) && states[0].seen == {} && NeverIndex(name)
    requires calls != [] && calls[|calls| - 1].outcome.Published?
    requires WrittenBy(name, calls, f)
    ensures f in states[|calls|].directory
    ensures f !in Names(name, Active(calls[|calls| - 1].emissions)) ==>
            states[|calls|].directory[f] == Endpoints([])
  {
    SeenIsWritten(name, states, calls, f);
    RunShorter(name, states, calls);
    SeenNotIndex(name, states, calls);
  }

  lemma {:induction false} SeenNotIndex(name: Namer, states: seq<State>, calls: seq<Sync>)
    requires Run(name, states, calls) && states[0].seen == {} && NeverIndex(name)
    ensures INDEX !in states[|calls|].seen
    decreases |calls|
  {
    if calls != [] {
      RunShorter(name, states, calls);
      SeenNotIndex(name, states[..|calls|], calls[..|calls| - 1]);
    }
  }

  /** The index on disk after a successful call names exactly the models that have endpoints. */
  lemma IndexExact(name: Namer, s: State, c: Sync, t: State)
    requires Step(name, s, c, t) && c.outcome.Published?
    ensures INDEX in t.directory && t.directory[INDEX].Index?
    ensures forall m :: m in t.directory[INDEX].models <==> EndpointsOf(c.emissions, m) != []
    ensures forall m | m in t.directory[INDEX].models :: t.directory[INDEX].models[m] == name(m)
  {
    assert INDEX in c.files;
    forall m ensures m in Active(c.emissions) <==> EndpointsOf(c.emissions, m) != [] {
      OneEndpointPerOccurrence(c.emissions, m);
    }
  }

  lemma StepLeavesUnwritten(name: Namer, s: State, c: Sync, t: State, f: string)
    requires Step(name, s, c, t) && f != INDEX && f !in t.seen
    ensures f in t.directory <==> f in s.directory
    ensures f in s.directory ==> t.directory[f] == s.directory[f]
  {}

  /** A file this process never rendered keeps what an earlier process left in it. */
  lemma {:induction false} UnwrittenFilesStay(name: Namer, states: seq<State>, calls: seq<Sync>, f: string)
    requires Run(name, states, calls) && states[0].seen == {}
    requires f != INDEX && !WrittenBy(name, calls, f)
    ensures f in states[|calls|].directory <==> f in states[0].directory
    ensures f in states[0].directory ==> states[|calls|].directory[f] == states[0].directory[f]
    decreases |calls|
  {
    if calls != [] {
      SeenIsWritten(name, states, calls, f);
      RunShorter(name, states, calls);
      WrittenStep(name, calls, f);
      StepLeavesUnwritten(name, states[|calls| - 1], calls[|calls| - 1], states[|calls|], f);
      UnwrittenFilesStay(name, states[..|calls|], calls[..|calls| - 1], f);
    }
  }

  /** Every file that no active model uses is empty. */
  ghost predicate IdleFilesEmpty(name: Namer, es: seq<Emission>, directory: map<string, File>) {
    forall f | f in directory && f != INDEX && f !in Names(name, Active(es)) :: directory[f] == Endpoints([])
  }

  /** Every file left by earlier processes that this run did not render is empty. */
  ghost predicate LeftoversEmpty(name: Namer, calls: seq<Sync>, directory: map<string, File>) {
    forall f | f in directory && f != INDEX && !WrittenBy(name, calls, f) :: directory[f] == Endpoints([])
  }

  /** No model's endpoints outlive it, if and only if a restart left no other endpoints behind. */
  lemma IdleFilesEmptyIff(name: Namer, states: seq<State>, calls: seq<Sync>)
    requires Run(name, states, calls) && states[0].seen == {} && NeverIndex(name)
    requires calls != [] && calls[|calls| - 1].outcome.Published?
    ensures IdleFilesEmpty(name, calls[|calls| - 1].emissions, states[|calls|].directory)
       <==> LeftoversEmpty(name, calls, states[0].directory)
  {
    var n := |calls|;
    var es := calls[n - 1].emissions;
    if LeftoversEmpty(name, calls, states[0].directory) {
      forall f | f in states[n].directory && f != INDEX && f !in Names(name, Active(es))
        ensures states[n].directory[f] == Endpoints([])
      {
        if WrittenBy(name, calls, f) {
          Tombstones(name, states, calls, f);
        } else {
          UnwrittenFilesStay(name, states, calls, f);
        }
      }
    }
    if IdleFilesEmpty(name, es, states[n].directory) {
      forall f | f in states[0].directory && f != INDEX && !WrittenBy(name, calls, f)
        ensures states[0].directory[f] == Endpoints([])
      {
        UnwrittenFilesStay(name, states, calls, f);
        WrittenStep(name, calls, f);
        RunShorter(name, states, calls);
      }
    }
  }

  /** A restart over a file that is not empty: the next publication succeeds and the file still lists its endpoint. */
  lemma LeftoverSurvives(name: Namer, f: string, e: Endpoint) returns (states: seq<State>, calls: seq<Sync>)
    requires f != INDEX
    ensures Run(name, states, calls) && states[0].seen == {} && |calls| == 1 && calls[0].outcome.Published?
    ensures calls[0].emissions == [] && f in states[1].directory && states[1].directory[f] == Endpoints([e])
    ensures !IdleFilesEmpty(name, calls[0].emissions, states[1].directory)
  {
    var files: map<string, File> := map[INDEX := Index(map[])];
    var before: map<string, File> := map[f := Endpoints([e])];
    calls := [Sync([], files, Published)];
    states := [State({}, before), State({}, before + files)];
    assert Active([]) == {} && Names(name, {}) == {};
    assert IndexOf(name, {}) == map[];
  }

  // ---------------------------------------------------------------- readers during a publication

  /** The directory after the first k writes of a publication that takes the files in this order. */
  function After(directory: map<string, File>, files: map<string, File>, order: seq<string>, k: nat)
    : (d: map<string, File>)
    requires k <= |order| && forall f | f in order :: f in files
    ensures d.Keys == directory.Keys + set f | f in order[..k]
    ensures forall f | f in order[..k] :: d[f] == files[f]
    ensures forall f | f in directory && f !in order[..k] :: d[f] == directory[f]
  {
    if k == 0 then directory
    else
      assert order[..k] == order[..k - 1] + [order[k - 1]];
      After(directory, files, order, k - 1)[order[k - 1] := files[order[k - 1]]]
  }

  function NamedBy(index: File): set<string> {
    if index.Index? then set m | m in index.models :: index.models[m] else {}
  }

  /** Every file that the visible index names exists. */
  ghost predicate NoDangling(d: map<string, File>) {
    INDEX in d ==> NamedBy(d[INDEX]) <= d.Keys
  }

  ghost predicate Enumerates(order: seq<string>, files: map<string, File>) {
    Distinct(order) && forall f :: f in order <==> f in files
  }

  /** The index at position p is written after the files it names, except those already on disk. */
  ghost predicate IndexLast(d: map<string, File>, index: File, order: seq<string>, p: nat)
    requires p < |order|
  {
    forall f | f in NamedBy(index) :: f in d || f in order[..p]
  }

  lemma BeforeTheIndex(d: map<string, File>, files: map<string, File>, order: seq<string>, p: nat, k: nat)
    requires Enumerates(order, files) && k <= p < |order| && order[p] == INDEX && NoDangling(d)
    ensures NoDangling(After(d, files, order, k))
  {
    assert INDEX !in order[..k];
  }

  lemma FromTheIndexOn(d: map<string, File>, files: map<string, File>, order: seq<string>, p: nat, k: nat)
    requires Enumerates(order, files) && p < k <= |order| && order[p] == INDEX
    ensures INDEX in After(d, files, order, k) && After(d, files, order, k)[INDEX] == files[INDEX]
    ensures forall f | f in order[..p] :: f in After(d, files, order, k)
  {
    assert order[..k][p] == INDEX;
    forall f | f in order[..p] ensures f in order[..k] {
      var i :| 0 <= i < p && order[i] == f;
      assert order[..k][i] == f;
    }
  }

  lemma LastIsSafe(d: map<string, File>, files: map<string, File>, order: seq<string>, p: nat, k: nat)
    requires Enumerates(order, files) && p < k <= |order| && order[p] == INDEX
    requires IndexLast(d, files[INDEX], order, p)
    ensures NoDangling(After(d, files, order, k))
  {
    FromTheIndexOn(d, files, order, p, k);
  }

  lemma SafeIsLast(d: map<string, File>, files: map<string, File>, order: seq<string>, p: nat)
    requires Enumerates(order, files) && p < |order| && order[p] == INDEX
    requires INDEX !in NamedBy(files[INDEX]) && NoDangling(After(d, files, order, p + 1))
    ensures IndexLast(d, files[INDEX], order, p)
  {
    FromTheIndexOn(d, files, order, p, p + 1);
    assert order[..p + 1] == order[..p] + [INDEX];
  }

  /** No index that names a missing file is visible after any of the writes. */
  ghost predicate SafeThroughout(d: map<string, File>, files: map<string, File>, order: seq<string>)
    requires Enumerates(order, files)
  {
    forall k | 0 <= k <= |order| :: NoDangling(After(d, files, order, k))
  }

  /** A publication is safe for its readers throughout exactly when it writes the index last. */
  lemma SafeIffIndexLast(d: map<string, File>, files: map<string, File>, order: seq<string>, p: nat)
    requires Enumerates(order, files) && p < |order| && order[p] == INDEX && NoDangling(d)
    requires INDEX !in NamedBy(files[INDEX])
    ensures SafeThroughout(d, files, order) <==> IndexLast(d, files[INDEX], order, p)
  {
    if SafeThroughout(d, files, order) {
      SafeIsLast(d, files, order, p);
    }
    if IndexLast(d, files[INDEX], order, p) {
      forall k | 0 <= k <= |order| ensures NoDangling(After(d, files, order, k)) {
        if k <= p {
          BeforeTheIndex(d, files, order, p, k);
        } else {
          LastIsSafe(d, files, order, p, k);
        }
      }
    }
  }

  /** A first publication that happens to write the index first shows it naming missing files. */
  lemma IndexFirstDangles(name: Namer, es: seq<Emission>, seen: set<string>, files: map<string, File>, order: seq<string>)
    requires Rendering(name, es, seen, files) && NeverIndex(name) && Active(es) != {}
    requires Enumerates(order, files) && order != [] && order[0] == INDEX
    ensures !SafeThroughout(map[], files, order)
  {
    var m :| m in Active(es);
    assert IndexOf(name, Active(es))[m] == name(m);
    assert name(m) in NamedBy(files[INDEX]);
    assert !IndexLast(map[], files[INDEX], order, 0);
    forall f | f in NamedBy(files[INDEX]) ensures f != INDEX {
      var x :| x in files[INDEX].models && files[INDEX].models[x] == f;
    }
    SafeIffIndexLast(map[], files, order, 0);
  }

  lemma {:induction false} Listing(names: set<string>) returns (order: seq<string>)
    ensures Distinct(order) && forall f :: f in order <==> f in names
    decreases names
  {
    if names == {} {
      order := [];
    } else {
      var f :| f in names;
      var rest := Listing(names - {f});
      order := [f] + rest;
    }
  }

  /** Whatever order the map yields, no reader sees an index naming a missing file. */
  ghost predicate SafeInAnyOrder(d: map<string, File>, files: map<string, File>) {
    forall order | Enumerates(order, files) :: SafeThroughout(d, files, order)
  }

  lemma RenderedIndexNames(name: Namer, es: seq<Emission>, seen: set<string>, files: map<string, File>)
    requires Rendering(name, es, seen, files) && NeverIndex(name)
    ensures NamedBy(files[INDEX]) == Names(name, Active(es)) && INDEX !in Names(name, Active(es))
  {
    var index := IndexOf(name, Active(es));
    assert forall m | m in Active(es) :: index[m] == name(m);
  }

  lemma IndexFirstOrder(files: map<string, File>) returns (order: seq<string>)
    requires INDEX in files
    ensures Enumerates(order, files) && order != [] && order[0] == INDEX
  {
    var rest := Listing(files.Keys - {INDEX});
    order := [INDEX] + rest;
  }

  /**
   A publication is safe for its readers, whatever order Go's map iteration takes, if and only if every
   active model's file was on disk before it: a new model can always be named before its file exists.
   */
  lemma SafeInAnyOrderIff(name: Namer, es: seq<Emission>, seen: set<string>, files: map<string, File>, d: map<string, File>)
    requires Rendering(name, es, seen, files) && NeverIndex(name) && NoDangling(d)
    ensures SafeInAnyOrder(d, files) <==> Names(name, Active(es)) <= d.Keys
  {
    RenderedIndexNames(name, es, seen, files);
    if SafeInAnyOrder(d, files) {
      var order := IndexFirstOrder(files);
      assert SafeThroughout(d, files, order);
      SafeIffIndexLast(d, files, order, 0);
    }
    if Names(name, Active(es)) <= d.Keys {
      forall order | Enumerates(order, files) ensures SafeThroughout(d, files, order) {
        var p :| 0 <= p < |order| && order[p] == INDEX;
        SafeIffIndexLast(d, files, order, p);
      }
    }
  }
}
