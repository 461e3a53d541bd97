/**
 The endpoint files the fleet publishes to llm-d Router (pkg/routing/llmd_router_provider.go): one file
 per exact physical model, an index, and an empty file for every model that lost its endpoints.
 */
module RoutingPublication {
  import opened Basics
  import opened ByteSort
  import opened GoText

  /** `updatedAt` is None for Go's zero time. Absent labels read as "". */
  datatype Cluster = Cluster(
    id: string, region: string, labels: map<string, string>, egressAddress: string, metricsEndpoint: string,
    routingUrl: string, metricsUrl: string, tlsServerName: string, trustRef: string, authRef: string,
    status: string, updatedAt: Option<int>, draining: bool, authorized: bool)

  datatype Pool = Pool(
    name: string, modelName: string, physicalModel: string, clusters: seq<string>, targetPorts: seq<int>)

  datatype Url = Url(scheme: string, hostname: string, port: string)

  datatype Endpoint = Endpoint(
    name: string, namespace: string, address: string, port: string, labels: map<string, string>)

  /** `parse` is `parseEndpoint`, which gives up on what the URL parser refuses. */
  datatype Options = Options(
    namespace: string, maxStaleness: int, requireTls: bool, parse: (string, seq<int>) -> Option<Url>)

  datatype File = Endpoints(endpoints: seq<Endpoint>) | Index(models: map<string, string>)

  const INDEX := "index.json"

  // ---------------------------------------------------------------- one cluster, one pool

  function Label(c: Cluster, key: string): string {
    if key in c.labels then c.labels[key] else ""
  }

  function OrElse(first: string, second: string): string {
    if first != "" then first else second
  }

  function RoutingEndpoint(c: Cluster): string {
    OrElse(TrimSpace(c.routingUrl), TrimSpace(c.egressAddress))
  }

  function MetricsSource(c: Cluster): string {
    OrElse(OrElse(OrElse(TrimSpace(c.metricsUrl), TrimSpace(c.metricsEndpoint)),
                  Label(c, "fleet.llm-d.ai/metrics-endpoint")),
           RoutingEndpoint(c))
  }

  function ServerName(c: Cluster): string {
    OrElse(TrimSpace(c.tlsServerName), TrimSpace(Label(c, "fleet.llm-d.ai/tls-server-name")))
  }

  /** `eligible`. */
  predicate Eligible(opts: Options, now: int, c: Cluster) {
    && (c.authorized || Label(c, "fleet.llm-d.ai/authorized") != "false")
    && !c.draining && !EqualFold(c.status, "draining") && Label(c, "fleet.llm-d.ai/draining") != "true"
    && Lower(c.status) !in {"unavailable", "unreachable", "failed", "left", "offline"}
    && (c.updatedAt.None? || now - c.updatedAt.value <= opts.maxStaleness)
    && RoutingEndpoint(c) != ""
  }

  /** `supportsExactModel`. */
  predicate SupportsExactModel(c: Cluster, model: string) {
    var configured := TrimSpace(Label(c, "fleet.llm-d.ai/physical-models"));
    configured == "" || exists part | part in Split(configured, ',') :: TrimSpace(part) == model
  }

  function ModelOf(pool: Pool): string {
    OrElse(TrimSpace(pool.physicalModel), TrimSpace(pool.modelName))
  }

  function Optional(key: string, value: string): map<string, string> {
    if value == "" then map[] else map[key := value]
  }

  function PortOf(u: Url): string {
    if u.port != "" then u.port else if u.scheme == "http" then "80" else "443"
  }

  function Health(c: Cluster): string {
    if Lower(c.status) in {"degraded", "degraded/non-ha"} then "degraded/non-HA" else "healthy"
  }

  /** The labels every endpoint has besides its model. */
  function PlainLabels(c: Cluster, model: string, routing: Url, metrics: Url): map<string, string> {
    map[
      "fleet.llm-d.ai/cluster-id" := c.id,
      "fleet.llm-d.ai/physical-model" := model,
      "fleet.llm-d.ai/health" := Health(c),
      "fleet.llm-d.ai/failure-domain" := OrElse(Label(c, "topology.kubernetes.io/zone"), c.region),
      "fleet.llm-d.ai/tls-verify" := if routing.scheme == "https" then "true" else "false",
      "metricsAddress" := metrics.hostname,
      "metricsPort" := PortOf(metrics)]
  }

  function SecurityLabels(c: Cluster): map<string, string> {
    Optional("fleet.llm-d.ai/tls-server-name", ServerName(c))
    + Optional("fleet.llm-d.ai/trust-ref", c.trustRef)
    + Optional("fleet.llm-d.ai/auth-ref", c.authRef)
  }

  /** `endpoint`. */
  function EndpointFor(opts: Options, c: Cluster, pool: Pool, model: string): (r: Option<Endpoint>)
    ensures r.Some? ==> ModelLabel(r.value) == model
  {
    var routing := opts.parse(RoutingEndpoint(c), pool.targetPorts);
    var metrics := opts.parse(MetricsSource(c), pool.targetPorts);
    if routing.None? || metrics.None? then None
    else if opts.requireTls && (routing.value.scheme != "https" || metrics.value.scheme != "https") then None
    else
      Some(Endpoint(
             c.id + "--" + pool.name, opts.namespace, routing.value.hostname, PortOf(routing.value),
             (SecurityLabels(c) + PlainLabels(c, model, routing.value, metrics.value))["model" := model]))
  }

  function ModelLabel(e: Endpoint): string {
    if "model" in e.labels then e.labels["model"] else ""
  }

  /** The host and the port of a URL, whose scheme gives the port where none is written. */
  predicate Reaches(u: Option<Url>, host: string, port: string) {
    && u.Some? && host == u.value.hostname
    && (u.value.port != "" ==> port == u.value.port)
    && (u.value.port == "" && u.value.scheme == "http" ==> port == "80")
    && (u.value.port == "" && u.value.scheme != "http" ==> port == "443")
  }

  /** An endpoint is reached where the routing URL says, or the egress address without one; over TLS where that is required. */
  lemma EndpointRouted(opts: Options, c: Cluster, pool: Pool, model: string, e: Endpoint)
    requires EndpointFor(opts, c, pool, model) == Some(e)
    ensures var routed := if Blank(c.routingUrl) then TrimSpace(c.egressAddress) else TrimSpace(c.routingUrl);
            && Reaches(opts.parse(routed, pool.targetPorts), e.address, e.port)
            && (opts.requireTls ==> opts.parse(routed, pool.targetPorts).value.scheme == "https")
            && "fleet.llm-d.ai/tls-verify" in e.labels
            && e.labels["fleet.llm-d.ai/tls-verify"] ==
               (if opts.parse(routed, pool.targetPorts).value.scheme == "https" then "true" else "false")
  {}

  /** Rendering fails exactly when a URL does not parse or, where TLS is required, does not use it. */
  lemma NotRenderedIff(opts: Options, c: Cluster, pool: Pool, model: string)
    ensures EndpointFor(opts, c, pool, model).None? <==>
            exists raw | raw in {RoutingEndpoint(c), MetricsSource(c)} ::
              var u := opts.parse(raw, pool.targetPorts); u.None? || (opts.requireTls && u.value.scheme != "https")
  {
    assert RoutingEndpoint(c) in {RoutingEndpoint(c), MetricsSource(c)};
    assert MetricsSource(c) in {RoutingEndpoint(c), MetricsSource(c)};
  }

  /** It is measured where the metrics URL says, or the first other source that is given, and at last where it is reached. */
  lemma EndpointMeasured(opts: Options, c: Cluster, pool: Pool, model: string, e: Endpoint)
    requires EndpointFor(opts, c, pool, model) == Some(e)
    ensures "metricsAddress" in e.labels && "metricsPort" in e.labels
    ensures var host, port := e.labels["metricsAddress"], e.labels["metricsPort"];
            if !Blank(c.metricsUrl) then Reaches(opts.parse(TrimSpace(c.metricsUrl), pool.targetPorts), host, port)
            else if !Blank(c.metricsEndpoint) then Reaches(opts.parse(TrimSpace(c.metricsEndpoint), pool.targetPorts), host, port)
            else if "fleet.llm-d.ai/metrics-endpoint" !in c.labels then host == e.address && port == e.port
            else true
  {}

  /** Its name and labels say which cluster it is, where that is and how it fares. */
  lemma EndpointDescribed(opts: Options, c: Cluster, pool: Pool, model: string, e: Endpoint)
    requires EndpointFor(opts, c, pool, model) == Some(e)
    ensures e.name == c.id + "--" + pool.name && e.namespace == opts.namespace
    ensures "fleet.llm-d.ai/cluster-id" in e.labels && e.labels["fleet.llm-d.ai/cluster-id"] == c.id
    ensures "fleet.llm-d.ai/physical-model" in e.labels && e.labels["fleet.llm-d.ai/physical-model"] == model
    ensures "fleet.llm-d.ai/health" in e.labels &&
            e.labels["fleet.llm-d.ai/health"] ==
              (if Lower(c.status) == "degraded" || Lower(c.status) == "degraded/non-ha" then "degraded/non-HA" else "healthy")
    ensures "fleet.llm-d.ai/failure-domain" in e.labels &&
            ("topology.kubernetes.io/zone" !in c.labels ==> e.labels["fleet.llm-d.ai/failure-domain"] == c.region)
  {}

  /** A server name, a trust reference and a credential reference are passed on if and only if they are given. */
  lemma EndpointSecured(opts: Options, c: Cluster, pool: Pool, model: string, e: Endpoint)
    requires EndpointFor(opts, c, pool, model) == Some(e)
    ensures !Blank(c.tlsServerName) ==> HasEntry(e, "fleet.llm-d.ai/tls-server-name", TrimSpace(c.tlsServerName))
    ensures "fleet.llm-d.ai/tls-server-name" in e.labels ==>
            !Blank(c.tlsServerName) || "fleet.llm-d.ai/tls-server-name" in c.labels
    ensures if c.trustRef == "" then "fleet.llm-d.ai/trust-ref" !in e.labels
            else HasEntry(e, "fleet.llm-d.ai/trust-ref", c.trustRef)
    ensures if c.authRef == "" then "fleet.llm-d.ai/auth-ref" !in e.labels
            else HasEntry(e, "fleet.llm-d.ai/auth-ref", c.authRef)
  {
    var routing := opts.parse(RoutingEndpoint(c), pool.targetPorts);
    var metrics := opts.parse(MetricsSource(c), pool.targetPorts);
    OnlySecurity(c, model, routing.value, metrics.value, "fleet.llm-d.ai/tls-server-name");
    OnlySecurity(c, model, routing.value, metrics.value, "fleet.llm-d.ai/trust-ref");
    OnlySecurity(c, model, routing.value, metrics.value, "fleet.llm-d.ai/auth-ref");
    SecurityGiven(c);
  }

  lemma OnlySecurity(c: Cluster, model: string, routing: Url, metrics: Url, key: string)
    requires key in {"fleet.llm-d.ai/tls-server-name", "fleet.llm-d.ai/trust-ref", "fleet.llm-d.ai/auth-ref"}
    ensures key !in PlainLabels(c, model, routing, metrics)
  {}

  lemma SecurityGiven(c: Cluster)
    ensures var m := SecurityLabels(c);
            && (if ServerName(c) == "" then "fleet.llm-d.ai/tls-server-name" !in m
                else "fleet.llm-d.ai/tls-server-name" in m && m["fleet.llm-d.ai/tls-server-name"] == ServerName(c))
            && (if c.trustRef == "" then "fleet.llm-d.ai/trust-ref" !in m
                else "fleet.llm-d.ai/trust-ref" in m && m["fleet.llm-d.ai/trust-ref"] == c.trustRef)
            && (if c.authRef == "" then "fleet.llm-d.ai/auth-ref" !in m
                else "fleet.llm-d.ai/auth-ref" in m && m["fleet.llm-d.ai/auth-ref"] == c.authRef)
  {}

  predicate HasEntry(e: Endpoint, key: string, value: string) {
    key in e.labels && e.labels[key] == value
  }

  // ---------------------------------------------------------------- the join of pools and clusters

  /** The last entry with an identifier is the one that counts. */
  function Latest(clusters: seq<Cluster>): map<string, Cluster> {
    if clusters == [] then map[]
    else
      var last := clusters[|clusters| - 1];
      Latest(clusters[..|clusters| - 1])[last.id := last]
  }

  lemma {:induction false} LatestWins(clusters: seq<Cluster>, i: nat)
    requires i < |clusters|
    requires forall j | i < j < |clusters| :: clusters[j].id != clusters[i].id
    ensures clusters[i].id in Latest(clusters) && Latest(clusters)[clusters[i].id] == clusters[i]
    decreases |clusters|
  {
    if i + 1 < |clusters| {
      LatestWins(clusters[..|clusters| - 1], i);
    }
  }

  /** What one synchronisation looks at. */
  datatype View = View(opts: Options, byId: map<string, Cluster>, now: int)

  /** What one occurrence of a cluster identifier in a pool contributes. */
  datatype Emission = Silent | Failed | Sends(model: string, endpoint: Endpoint)

  /** The pool's model is served through this cluster now. */
  predicate Serves(v: View, pool: Pool, id: string) {
    && ModelOf(pool) != ""
    && id in v.byId
    && Eligible(v.opts, v.now, v.byId[id])
    && SupportsExactModel(v.byId[id], ModelOf(pool))
  }

  function Emit(v: View, pool: Pool, id: string): (e: Emission)
    ensures e.Silent? <==> !Serves(v, pool, id)
    ensures e.Sends? ==> e.model == ModelOf(pool) == ModelLabel(e.endpoint)
  {
    if !Serves(v, pool, id) then Silent
    else
      match EndpointFor(v.opts, v.byId[id], pool, ModelOf(pool))
      case None => Failed
      case Some(endpoint) => Sends(ModelOf(pool), endpoint)
  }

  predicate HasLabel(c: Cluster, key: string, value: string) {
    key in c.labels && c.labels[key] == value
  }

  /** The cluster is not to be used now: refused, draining, down or not heard from for too long. */
  predicate Unusable(c: Cluster, now: int, maxStaleness: int) {
    || (!c.authorized && HasLabel(c, "fleet.llm-d.ai/authorized", "false"))
    || c.draining || Lower(c.status) == "draining" || HasLabel(c, "fleet.llm-d.ai/draining", "true")
    || Lower(c.status) in {"unavailable", "unreachable", "failed", "left", "offline"}
    || (c.updatedAt.Some? && now - c.updatedAt.value > maxStaleness)
  }

  /** The cluster lists its models and this is none of them. */
  predicate ListsOtherModels(c: Cluster, model: string) {
    && "fleet.llm-d.ai/physical-models" in c.labels && !Blank(c.labels["fleet.llm-d.ai/physical-models"])
    && forall part | part in Split(TrimSpace(c.labels["fleet.llm-d.ai/physical-models"]), ',') :: TrimSpace(part) != model
  }

  /** An occurrence is passed over exactly when its model, cluster or address is missing, or the cluster must not serve it. */
  lemma PassedOverIff(v: View, pool: Pool, id: string)
    ensures Emit(v, pool, id).Silent? <==>
            || (Blank(pool.physicalModel) && Blank(pool.modelName))
            || id !in v.byId
            || Unusable(v.byId[id], v.now, v.opts.maxStaleness)
            || (Blank(v.byId[id].routingUrl) && Blank(v.byId[id].egressAddress))
            || ListsOtherModels(v.byId[id], ModelOf(pool))
  {
    LowerOfLower();
  }

  lemma LowerOfLower()
    ensures Lower("draining") == "draining"
  {}

  type Emitter = (Pool, string) -> Emission

  /** What every occurrence contributes, as one synchronisation sees it. */
  function Emitting(v: View): Emitter {
    (pool: Pool, id: string) => Emit(v, pool, id)
  }

  function PoolEmissions(emit: Emitter, pool: Pool, ids: seq<string>): (es: seq<Emission>)
    ensures |es| == |ids| && forall i | 0 <= i < |ids| :: es[i] == emit(pool, ids[i])
  {
    seq(|ids|, i requires 0 <= i < |ids| => emit(pool, ids[i]))
  }

  /** All occurrences, pool by pool. */
  function Emissions(emit: Emitter, pools: seq<Pool>): (es: seq<Emission>) {
    if pools == [] then []
    else
      var last := pools[|pools| - 1];
      Emissions(emit, pools[..|pools| - 1]) + PoolEmissions(emit, last, last.clusters)
  }

  /** Every endpoint carries its model as a label. */
  predicate Labelled(es: seq<Emission>) {
    forall i | 0 <= i < |es| :: es[i].Sends? ==> ModelLabel(es[i].endpoint) == es[i].model
  }

  lemma {:induction false} EmissionsLabelled(v: View, pools: seq<Pool>)
    ensures Labelled(Emissions(Emitting(v), pools))
  {
    if pools != [] {
      EmissionsLabelled(v, pools[..|pools| - 1]);
      var last := pools[|pools| - 1];
      PoolLabelled(v, last, last.clusters);
    }
  }

  lemma PoolLabelled(v: View, pool: Pool, ids: seq<string>)
    ensures Labelled(PoolEmissions(Emitting(v), pool, ids))
  {
    var es := PoolEmissions(Emitting(v), pool, ids);
    forall i | 0 <= i < |es| ensures es[i].Sends? ==> ModelLabel(es[i].endpoint) == es[i].model {
      assert es[i] == Emit(v, pool, ids[i]);
    }
  }

  predicate RenderError(es: seq<Emission>) {
    Failed in es
  }

  /** The endpoints sent for the model, in order of occurrence. */
  function EndpointsOf(es: seq<Emission>, model: string): seq<Endpoint> {
    if es == [] then []
    else
      var e := es[|es| - 1];
      EndpointsOf(es[..|es| - 1], model) + if e.Sends? && e.model == model then [e.endpoint] else []
  }

  function Active(es: seq<Emission>): set<string> {
    set e | e in es && e.Sends? :: e.model
  }

  /** The occurrences that serve the model. */
  function Serving(es: seq<Emission>, model: string): set<nat> {
    set i: nat | i < |es| && es[i].Sends? && es[i].model == model
  }

  lemma {:induction false} ServingCount(es: seq<Emission>, model: string)
    ensures |EndpointsOf(es, model)| == |Serving(es, model)|
    decreases |es|
  {
    if es == [] {
      assert Serving(es, model) == {};
    } else {
      var n := |es| - 1;
      ServingCount(es[..n], model);
      var last: set<nat> := if es[n].Sends? && es[n].model == model then {n} else {};
      assert Serving(es, model) == Serving(es[..n], model) + last;
    }
  }

  lemma {:induction false} EndpointsMean(es: seq<Emission>, model: string, endpoint: Endpoint)
    ensures endpoint in EndpointsOf(es, model) <==> Sends(model, endpoint) in es
    decreases |es|
  {
    if es != [] {
      var n := |es| - 1;
      EndpointsMean(es[..n], model, endpoint);
      assert es == es[..n] + [es[n]];
    }
  }

  /** A model's list has one endpoint per serving occurrence and nothing else. */
  lemma OneEndpointPerOccurrence(es: seq<Emission>, model: string)
    ensures |EndpointsOf(es, model)| == |Serving(es, model)|
    ensures forall e :: e in EndpointsOf(es, model) <==> Sends(model, e) in es
    ensures EndpointsOf(es, model) != [] <==> model in Active(es)
  {
    ServingCount(es, model);
    forall e ensures e in EndpointsOf(es, model) <==> Sends(model, e) in es {
      EndpointsMean(es, model, e);
    }
    if EndpointsOf(es, model) != [] {
      var e := EndpointsOf(es, model)[0];
      assert Sends(model, e).model in Active(es);
    }
    if model in Active(es) {
      var e :| e in es && e.Sends? && e.model == model;
      EndpointsMean(es, model, e.endpoint);
    }
  }

  // ---------------------------------------------------------------- files

  /** `modelFilename`; `digest` is the hexadecimal text of the first six bytes of SHA-256. */
  function ModelFilename(digest: string -> string, model: string): (name: string)
    ensures name != INDEX
  {
    assert ("endpoints-" + digest(model) + ".json")[0] == 'e';
    "endpoints-" + digest(model) + ".json"
  }

  /** Two models share a file exactly when they share the digest. */
  lemma SameFileIffSameDigest(digest: string -> string, a: string, b: string)
    ensures ModelFilename(digest, a) == ModelFilename(digest, b) <==> digest(a) == digest(b)
    ensures "endpoints-" <= ModelFilename(digest, a)
    ensures ModelFilename(digest, a)[10..] == digest(a) + ".json"
  {
    var x, y := ModelFilename(digest, a), ModelFilename(digest, b);
    assert x[10..] == digest(a) + ".json" && y[10..] == digest(b) + ".json";
    assert |x| == |y| ==> x[10..|x| - 5] == digest(a) && y[10..|y| - 5] == digest(b);
  }

  /** From a model to its file. */
  type Namer = string -> string

  ghost predicate NeverIndex(name: Namer) {
    forall m :: name(m) != INDEX
  }

  ghost predicate Naming(digest: string -> string, name: Namer) {
    forall m :: name(m) == ModelFilename(digest, m)
  }

  lemma NamingNeverIndex(digest: string -> string, name: Namer)
    requires Naming(digest, name)
    ensures NeverIndex(name)
  {
    forall m ensures name(m) != INDEX {
      assert name(m) == ModelFilename(digest, m);
    }
  }

  function Names(name: Namer, models: set<string>): set<string> {
    set m | m in models :: name(m)
  }

  function NameOf(e: Endpoint): string {
    e.name
  }

  /** The file holds exactly these endpoints, sorted by name. */
  ghost predicate Lists(file: File, es: seq<Endpoint>) {
    file.Endpoints? && multiset(file.endpoints) == multiset(es) && SortedBy(file.endpoints, NameOf)
  }

  /** Of the models that share the file name, this one is written last. */
  ghost predicate Owner(name: Namer, models: set<string>, m: string) {
    m in models && forall x | x in models && x != m && name(x) == name(m) :: Less(x, m)
  }

  ghost predicate OwnersWritten(name: Namer, models: set<string>, es: seq<Emission>, files: map<string, File>) {
    forall m | Owner(name, models, m) ::
      name(m) in files && Lists(files[name(m)], EndpointsOf(es, m))
  }

  /** A complete set of files for these emissions, given the names written before. */
  ghost predicate Rendering(name: Namer, es: seq<Emission>, seen: set<string>, files: map<string, File>) {
    && files.Keys == seen + Names(name, Active(es)) + {INDEX}
    && files[INDEX] == Index(IndexOf(name, Active(es)))
    && OwnersWritten(name, Active(es), es, files)
    && forall f | f in files && f != INDEX && f !in Names(name, Active(es)) :: files[f] == Endpoints([])
  }

  // ---------------------------------------------------------------- the state machine

  /** The names written so far by this process, and the files on disk. */
  datatype State = State(seen: set<string>, directory: map<string, File>)

  datatype Outcome = RenderFailed | PublishFailed | Published

  /** One call: the occurrences it looked at, the files it rendered, and how it ended. */
  datatype Sync = Sync(emissions: seq<Emission>, files: map<string, File>, outcome: Outcome)

  /** Some of the files are written over the directory; all of them, if the call succeeded. */
  ghost predicate Installed(before: map<string, File>, after: map<string, File>, files: map<string, File>, all: bool) {
    && before.Keys <= after.Keys
    && (forall f | f in after ::
          || (f in files && after[f] == files[f])
          || (f in before && after[f] == before[f]))
    && (all ==> forall f | f in files :: f in after && after[f] == files[f])
  }

  ghost predicate Step(name: Namer, s: State, c: Sync, t: State) {
    if c.outcome.RenderFailed? then RenderError(c.emissions) && t == s
    else
      && !RenderError(c.emissions)
      && Rendering(name, c.emissions, s.seen, c.files)
      && t.seen == s.seen + Names(name, Active(c.emissions))
      && Installed(s.directory, t.directory, c.files, c.outcome.Published?)
  }

  class LLMDProvider {
    const opts: Options
    const name: Namer
    var seenFiles: set<string>
    var directory: map<string, File>

    /** The process starts with nothing seen, over whatever an earlier one left on disk. */
    constructor (options: Options, digest: string -> string, onDisk: map<string, File>)
      ensures opts.namespace == OrElse(options.namespace, "default")
      ensures opts.maxStaleness == if options.maxStaleness <= 0 then 30_000_000_000 else options.maxStaleness
      ensures opts.requireTls == options.requireTls && opts.parse == options.parse
      ensures Naming(digest, name) && Valid()
      ensures Value() == State({}, onDisk)
    {
      opts := options.(
        namespace := OrElse(options.namespace, "default"),
        maxStaleness := if options.maxStaleness <= 0 then 30_000_000_000 else options.maxStaleness);
      name := (model: string) => ModelFilename(digest, model);
      seenFiles, directory := {}, onDisk;
      new;
      NamingNeverIndex(digest, name);
    }

    ghost predicate Valid() {
      NeverIndex(name)
    }

    ghost function Value(): State
      reads this
    {
      State(seenFiles, directory)
    }

    /** One pool's clusters; false when an endpoint cannot be rendered. */
    method GatherPool(emit: Emitter, pool: Pool, ghost before: seq<Emission>, byModel: map<string, seq<Endpoint>>)
      returns (ok: bool, after: map<string, seq<Endpoint>>)
      requires Collected(before, byModel)
      ensures ok <==> !RenderError(PoolEmissions(emit, pool, pool.clusters))
      ensures ok ==> Collected(before + PoolEmissions(emit, pool, pool.clusters), after)
    {
      after := byModel;
      PoolStart(emit, pool, before, byModel);
      for j := 0 to |pool.clusters|
        invariant PoolGathered(emit, pool, before, j, after)
      {
        var e := emit(pool, pool.clusters[j]);
        PoolStep(emit, pool, before, j, after, e);
        if e.Failed? {
          return false, after;
        }
        if e.Sends? {
          after := Append(after, e.model, e.endpoint);
        }
      }
      PoolEnd(emit, pool, before, after);
      ok := true;
    }

    /** The loop over pools; None when an endpoint cannot be rendered. */
    method Gather(emit: Emitter, pools: seq<Pool>) returns (byModel: Option<map<string, seq<Endpoint>>>)
      ensures byModel.None? <==> RenderError(Emissions(emit, pools))
      ensures byModel.Some? ==> Collected(Emissions(emit, pools), byModel.value)
    {
      var gathered: map<string, seq<Endpoint>> := map[];
      for i := 0 to |pools|
        invariant Gathered(emit, pools, i, gathered)
      {
        var ok, more := GatherPool(emit, pools[i], Emissions(emit, pools[..i]), gathered);
        if !ok {
          FailureStays(emit, pools, i);
          return None;
        }
        GatherStep(emit, pools, i, more);
        gathered := more;
      }
      assert pools[..|pools|] == pools;
      byModel := Some(gathered);
    }

    /** The models in sorted order, each to its own file; a later model overwrites an equal name. */
    method WriteModels(ghost es: seq<Emission>, byModel: map<string, seq<Endpoint>>)
      returns (files: map<string, File>, index: map<string, string>)
      requires Collected(es, byModel)
      modifies this`seenFiles
      ensures Written(name, es, Active(es), files, index)
      ensures seenFiles == old(seenFiles) + Names(name, Active(es))
    {
      files, index := map[], map[];
      var models := SortedModels(byModel.Keys);
      ProgressStart(name, es, models, seenFiles);
      for i := 0 to |models|
        invariant Progress(name, es, models, i, files, index, old(seenFiles), seenFiles)
      {
        var model := models[i];
        assert model in models;
        var filename := name(model);
        var file := FileOf(byModel[model]);
        ProgressStep(name, es, models, i, files, index, old(seenFiles), seenFiles, file);
        files := files[filename := file];
        seenFiles := seenFiles + {filename};
        index := index[model := filename];
      }
      assert Elements(models[..|models|]) == Active(es);
    }

    /** An empty file for every name seen before that no model uses now. */
    method AddTombstones(files: map<string, File>) returns (all: map<string, File>)
      ensures all == (map f | f in seenFiles :: Endpoints([])) + files
    {
      all := files;
      var left := seenFiles;
      while left != {}
        invariant left <= seenFiles
        invariant all == (map f | f in seenFiles - left :: Endpoints([])) + files
        decreases left
      {
        var f :| f in left;
        if f !in files {
          all := all[f := Endpoints([])];
        }
        left := left - {f};
      }
    }

    /** `directoryPublisher.Publish`: the map's order is arbitrary, and the disk may refuse after `writes` files. */
    method Publish(files: map<string, File>, writes: nat) returns (ok: bool)
      modifies this`directory
      ensures ok <==> |files| <= writes
      ensures Installed(old(directory), directory, files, ok)
    {
      var left := files.Keys;
      var n := 0;
      while left != {}
        invariant left <= files.Keys && n + |left| == |files.Keys| == |files| && n <= writes
        invariant Installed(old(directory), directory, map f | f in files && f !in left :: files[f], true)
        decreases left
      {
        if n == writes {
          return false;
        }
        var f :| f in left;
        directory := directory[f := files[f]];
        left := left - {f};
        n := n + 1;
      }
      ok := true;
    }

    /** `sync`. */
    method Synchronise(clusters: seq<Cluster>, pools: seq<Pool>, now: int, writes: nat)
      returns (outcome: Outcome, ghost files: map<string, File>)
      requires Valid()
      modifies this
      ensures Step(name, old(Value()),
                   Sync(Emissions(Emitting(View(opts, Latest(clusters), now)), pools), files, outcome), Value())
      ensures outcome.Published? <==>
              !RenderError(Emissions(Emitting(View(opts, Latest(clusters), now)), pools)) && |files| <= writes
    {
      files := map[];
      var byId := IndexClusters(clusters);
      var emit := Emitting(View(opts, byId, now));
      ghost var es := Emissions(emit, pools);
      var byModel := Gather(emit, pools);
      if byModel.None? {
        return RenderFailed, map[];
      }
      var active, index := WriteModels(es, byModel.value);
      var all := AddTombstones(active);
      all := all[INDEX := Index(index)];
      RenderingComplete(name, es, old(seenFiles), active, all);
      var ok := Publish(all, writes);
      files := all;
      outcome := if ok then Published else PublishFailed;
    }
  }

  method IndexClusters(clusters: seq<Cluster>) returns (byId: map<string, Cluster>)
    ensures byId == Latest(clusters)
  {
    byId := map[];
    for i := 0 to |clusters|
      invariant byId == Latest(clusters[..i])
    {
      assert clusters[..i + 1][..i] == clusters[..i];
      byId := byId[clusters[i].id := clusters[i]];
    }
    assert clusters[..|clusters|] == clusters;
  }

  /** The keys of the map, sorted. */
  method SortedModels(models: set<string>) returns (sorted: seq<string>)
    ensures StrictlySorted(sorted) && forall m :: m in sorted <==> m in models
  {
    var unsorted: seq<string> := [];
    var left := models;
    while left != {}
      invariant left <= models && Distinct(unsorted)
      invariant forall m :: m in unsorted <==> m in models - left
      decreases left
    {
      var m :| m in left;
      assert m !in unsorted;
      unsorted := unsorted + [m];
      left := left - {m};
    }
    sorted := SortStrings(unsorted);
    SortStringsStrict(unsorted);
  }

  predicate Collected(es: seq<Emission>, byModel: map<string, seq<Endpoint>>) {
    byModel.Keys == Active(es) && forall m | m in byModel :: byModel[m] == EndpointsOf(es, m)
  }

  /** `byModel[model] = append(byModel[model], endpoint)`. */
  function Append(byModel: map<string, seq<Endpoint>>, model: string, endpoint: Endpoint): map<string, seq<Endpoint>> {
    byModel[model := (if model in byModel then byModel[model] else []) + [endpoint]]
  }

  lemma ActiveStep(es: seq<Emission>, e: Emission)
    ensures Active(es + [e]) == Active(es) + if e.Sends? then {e.model} else {}
  {
    forall m ensures m in Active(es + [e]) <==> m in Active(es) || (e.Sends? && e.model == m) {
      if e.Sends? { assert e in es + [e]; }
      if x :| x in es && x.Sends? && x.model == m { assert x in es + [e]; }
    }
  }

  lemma CollectStep(es: seq<Emission>, e: Emission, byModel: map<string, seq<Endpoint>>)
    requires Collected(es, byModel)
    ensures !e.Sends? ==> Collected(es + [e], byModel)
    ensures e.Sends? ==> Collected(es + [e], Append(byModel, e.model, e.endpoint))
  {
    ActiveStep(es, e);
    assert (es + [e])[..|es|] == es;
    if e.Sends? && e.model !in byModel {
      OneEndpointPerOccurrence(es, e.model);
    }
  }

  /** The first j clusters of the pool have been looked at, after `before`. */
  ghost predicate PoolGathered(
      emit: Emitter, pool: Pool, before: seq<Emission>, j: nat, byModel: map<string, seq<Endpoint>>)
  {
    && j <= |pool.clusters|
    && !RenderError(PoolEmissions(emit, pool, pool.clusters)[..j])
    && Collected(before + PoolEmissions(emit, pool, pool.clusters)[..j], byModel)
  }

  lemma PoolStart(emit: Emitter, pool: Pool, before: seq<Emission>, byModel: map<string, seq<Endpoint>>)
    requires Collected(before, byModel)
    ensures PoolGathered(emit, pool, before, 0, byModel)
  {
    assert before + PoolEmissions(emit, pool, pool.clusters)[..0] == before;
  }

  lemma PoolStep(emit: Emitter, pool: Pool, before: seq<Emission>, j: nat,
                 byModel: map<string, seq<Endpoint>>, e: Emission)
    requires j < |pool.clusters| && e == emit(pool, pool.clusters[j])
    requires PoolGathered(emit, pool, before, j, byModel)
    ensures e.Failed? ==> RenderError(PoolEmissions(emit, pool, pool.clusters))
    ensures e.Silent? ==> PoolGathered(emit, pool, before, j + 1, byModel)
    ensures e.Sends? ==> PoolGathered(emit, pool, before, j + 1, Append(byModel, e.model, e.endpoint))
  {
    var es := PoolEmissions(emit, pool, pool.clusters);
    assert es[j] == e;
    if !e.Failed? {
      assert es[..j + 1] == es[..j] + [e];
      ErrorConcat(es[..j], [e]);
      assert before + es[..j + 1] == before + es[..j] + [e];
      CollectStep(before + es[..j], e, byModel);
    }
  }

  lemma PoolEnd(emit: Emitter, pool: Pool, before: seq<Emission>, byModel: map<string, seq<Endpoint>>)
    requires PoolGathered(emit, pool, before, |pool.clusters|, byModel)
    ensures !RenderError(PoolEmissions(emit, pool, pool.clusters))
    ensures Collected(before + PoolEmissions(emit, pool, pool.clusters), byModel)
  {
    var es := PoolEmissions(emit, pool, pool.clusters);
    assert es[..|pool.clusters|] == es;
  }

  lemma EmissionsNext(emit: Emitter, pools: seq<Pool>, i: nat)
    requires i < |pools|
    ensures Emissions(emit, pools[..i + 1]) == Emissions(emit, pools[..i]) + PoolEmissions(emit, pools[i], pools[i].clusters)
  {
    assert pools[..i + 1][..i] == pools[..i];
  }

  lemma {:induction false} EmissionsPrefix(emit: Emitter, pools: seq<Pool>, i: nat)
    requires i <= |pools|
    ensures Emissions(emit, pools[..i]) <= Emissions(emit, pools)
    decreases |pools| - i
  {
    if i == |pools| {
      assert pools[..i] == pools;
    } else {
      EmissionsNext(emit, pools, i);
      EmissionsPrefix(emit, pools, i + 1);
    }
  }

  ghost predicate Gathered(emit: Emitter, pools: seq<Pool>, i: nat, byModel: map<string, seq<Endpoint>>) {
    && i <= |pools|
    && !RenderError(Emissions(emit, pools[..i]))
    && Collected(Emissions(emit, pools[..i]), byModel)
  }

  lemma ErrorConcat(a: seq<Emission>, b: seq<Emission>)
    ensures RenderError(a + b) <==> RenderError(a) || RenderError(b)
  {}

  lemma GatherStep(emit: Emitter, pools: seq<Pool>, i: nat, byModel: map<string, seq<Endpoint>>)
    requires i < |pools| && !RenderError(Emissions(emit, pools[..i]))
    requires !RenderError(PoolEmissions(emit, pools[i], pools[i].clusters))
    requires Collected(Emissions(emit, pools[..i]) + PoolEmissions(emit, pools[i], pools[i].clusters), byModel)
    ensures Gathered(emit, pools, i + 1, byModel)
  {
    EmissionsNext(emit, pools, i);
    ErrorConcat(Emissions(emit, pools[..i]), PoolEmissions(emit, pools[i], pools[i].clusters));
  }

  lemma FailureStays(emit: Emitter, pools: seq<Pool>, i: nat)
    requires i < |pools| && RenderError(PoolEmissions(emit, pools[i], pools[i].clusters))
    ensures RenderError(Emissions(emit, pools))
  {
    EmissionsNext(emit, pools, i);
    ErrorConcat(Emissions(emit, pools[..i]), PoolEmissions(emit, pools[i], pools[i].clusters));
    EmissionsPrefix(emit, pools, i + 1);
    var part, whole := Emissions(emit, pools[..i + 1]), Emissions(emit, pools);
    ErrorConcat(part, whole[|part|..]);
    assert whole == part + whole[|part|..];
  }

  function IndexOf(name: Namer, models: set<string>): map<string, string> {
    map m | m in models :: name(m)
  }

  lemma NamesStep(name: Namer, done: set<string>, m: string)
    ensures Names(name, done + {m}) == Names(name, done) + {name(m)}
    ensures IndexOf(name, done + {m}) == IndexOf(name, done)[m := name(m)]
  {}

  lemma SortedAhead(models: seq<string>, i: nat)
    requires i < |models| && StrictlySorted(models)
    ensures forall x | x in models[..i] :: Less(x, models[i])
    ensures models[i] !in models[..i]
    ensures forall x :: x in models[..i + 1] <==> x in models[..i] || x == models[i]
  {
    LessTotal(models[i], models[i]);
    assert models[..i + 1] == models[..i] + [models[i]];
  }

  function FileOf(es: seq<Endpoint>): (file: File)
    ensures Lists(file, es)
  {
    SortBySorts(es, NameOf);
    Endpoints(SortBy(es, NameOf))
  }

  /** The models in `done` have been written. */
  ghost predicate Written(
      name: Namer, es: seq<Emission>, done: set<string>, files: map<string, File>, index: map<string, string>)
  {
    && files.Keys == Names(name, done)
    && index == IndexOf(name, done)
    && OwnersWritten(name, done, es, files)
  }

  lemma WriteStep(name: Namer, es: seq<Emission>, done: set<string>, files: map<string, File>,
                  index: map<string, string>, m: string, file: File)
    requires Written(name, es, done, files, index)
    requires m !in done && forall x | x in done :: Less(x, m)
    requires Lists(file, EndpointsOf(es, m))
    ensures Written(name, es, done + {m}, files[name(m) := file], index[m := name(m)])
  {
    NamesStep(name, done, m);
    forall x | Owner(name, done + {m}, x) && x != m
      ensures name(x) != name(m) && Owner(name, done, x)
    {
      LessTotal(x, m);
    }
  }

  function Elements(models: seq<string>): set<string> {
    set m | m in models
  }

  /** The first i models have been written and their names added to those seen. */
  ghost predicate Progress(
      name: Namer, es: seq<Emission>, models: seq<string>, i: nat, files: map<string, File>,
      index: map<string, string>, before: set<string>, seen: set<string>)
  {
    && i <= |models|
    && Written(name, es, Elements(models[..i]), files, index)
    && seen == before + Names(name, Elements(models[..i]))
  }

  lemma ProgressStart(name: Namer, es: seq<Emission>, models: seq<string>, seen: set<string>)
    ensures Progress(name, es, models, 0, map[], map[], seen, seen)
  {
    assert Elements(models[..0]) == {};
  }

  lemma ProgressStep(name: Namer, es: seq<Emission>, models: seq<string>, i: nat, files: map<string, File>,
                     index: map<string, string>, before: set<string>, seen: set<string>, file: File)
    requires i < |models| && StrictlySorted(models)
    requires Progress(name, es, models, i, files, index, before, seen)
    requires Lists(file, EndpointsOf(es, models[i]))
    ensures var f := name(models[i]);
            Progress(name, es, models, i + 1, files[f := file], index[models[i] := f], before, seen + {f})
  {
    var done := Elements(models[..i]);
    SortedAhead(models, i);
    assert Elements(models[..i + 1]) == done + {models[i]};
    WriteStep(name, es, done, files, index, models[i], file);
    NamesStep(name, done, models[i]);
  }

  lemma RenderingComplete(name: Namer, es: seq<Emission>, seen: set<string>, active: map<string, File>, all: map<string, File>)
    requires NeverIndex(name)
    requires active.Keys == Names(name, Active(es)) && OwnersWritten(name, Active(es), es, active)
    requires var after := seen + Names(name, Active(es));
             all == ((map f | f in after :: Endpoints([])) + active)[INDEX := Index(IndexOf(name, Active(es)))]
    ensures Rendering(name, es, seen, all)
  {
    forall m | Owner(name, Active(es), m)
      ensures name(m) in all && all[name(m)] == active[name(m)]
    {
    }
  }
}
