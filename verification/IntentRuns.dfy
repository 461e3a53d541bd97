/**
 The intent service under concurrency. Every call reads the repository in one step and writes it in a
 later one, so other calls, the outside controller, deletions and ledger writes may come in between.
 */
module IntentRuns {
  import opened Basics
  import opened GoText
  import opened Lifecycle
  import opened Operations
  import opened IntentRepository
  import opened IntentService
  import Ledger

  /**
   `keys` are the idempotency keys that callers ever submit. `compensates` says that a recorder and a ledger
   gateway are configured, so that a submitter whose ledger write fails takes its submission back.
   */
  datatype Env = Env(digest: Digest, policy: Policy, verifier: bool, keys: iset<string>, compensates: bool)

  predicate IsIdText(s: string) {
    s != "" && forall i | 0 <= i < |s| :: IsHex(s[i])
  }

  /** The truncated digest of a key is hexadecimal. */
  ghost predicate HexDigests(env: Env) {
    forall k :: IsIdText(env.digest(k))
  }

  /** No two submitted keys have the same truncated digest, unless they are blank and get random IDs. */
  ghost predicate NoCollision(env: Env) {
    forall j, k | j in env.keys && k in env.keys && !Blank(j) && !Blank(k) && env.digest(j) == env.digest(k) :: j == k
  }

  ghost predicate Lawful(env: Env) {
    HexDigests(env) && NoCollision(env)
  }

  /** What held when one history entry was appended: the operation as read, the clock, the proof used. */
  datatype Guard = Guard(snapshot: Operation, now: int, proofKey: string)

  datatype Call =
    | Creating(intent: Intent, op: Operation, reason: string, guards: seq<Guard>)
    | Replaying(key: string)
    | Updating(read: Operation, op: Operation, guards: seq<Guard>)

  datatype Response = Response(key: string, operationId: string)

  /** `guards` runs beside the stored histories; `issued` remembers every operation ID and its key. */
  datatype World = World(
    repo: Repo, ledger: Ledger.State, calls: map<nat, Call>,
    guards: map<string, seq<Guard>>, issued: map<string, string>, responses: seq<Response>)

  const Initial := World(EmptyRepo, Ledger.Empty, map[], map[], map[], [])

  datatype Step =
    | Replay(key: string)
    | BeginSubmit(call: nat, intent: Intent, draw: Draw, now: int, at: int)
    | CommitCreate(call: nat)
    | RetryLookup(call: nat)
    | BeginTransition(call: nat, id: string, next: State, reason: string, actor: string, now: int, at: int)
    | BeginAttach(call: nat, id: string, receipt: Receipt, now: int)
    | AttachAgain(id: string, receipt: Receipt, now: int)
    | BeginControl(call: nat, id: string, plan: string, provider: Option<Provider>,
                   authorization: Option<Authorization>, observed: string)
    | CommitUpdate(call: nat)
    | DeleteSubmission(intentId: string, operationId: string)
    | WriteLedger(kind: Ledger.Kind, decision: Ledger.Decision, at: int)

  function Verifier(env: Env, w: World): Option<Ledger.State> {
    if env.verifier then Some(w.ledger) else None
  }

  /** A random operation ID was never issued and is no keyed operation's ID. */
  ghost predicate FreshId(env: Env, w: World, id: string) {
    id !in w.issued && forall k | k in env.keys && !Blank(k) :: OperationId(k, env.digest) != id
  }

  ghost predicate Enabled(env: Env, w: World, s: Step) {
    match s
    case Replay(key) => key != "" && Found(w.repo, key).Ok?
    case BeginSubmit(call, intent, draw, now, at) =>
      && call !in w.calls
      && intent.key in env.keys
      && (intent.key == "" || Found(w.repo, intent.key).Err?)
      && (Blank(intent.key) ==> IsIdText(draw.operation) && FreshId(env, w, "operation-" + draw.operation))
    case CommitCreate(call) => call in w.calls && w.calls[call].Creating?
    case RetryLookup(call) => call in w.calls && w.calls[call].Replaying?
    case BeginTransition(call, id, next, reason, actor, now, at) =>
      call !in w.calls && TransitionOutcome(w.repo, Verifier(env, w), id, next, reason, actor, now, at).Ok?
    case BeginAttach(call, id, receipt, now) =>
      && call !in w.calls && AttachOutcome(w.repo, Verifier(env, w), id, receipt, now).Ok?
      && FirstClash(w.repo.operations[id].receipts, receipt).None?
    case AttachAgain(id, receipt, now) =>
      && AttachOutcome(w.repo, Verifier(env, w), id, receipt, now).Ok?
      && FirstClash(w.repo.operations[id].receipts, receipt).Some?
    case BeginControl(call, id, _, _, _, _) => call !in w.calls && id in w.repo.operations
    case CommitUpdate(call) => call in w.calls && w.calls[call].Updating?
    case DeleteSubmission(i, o) => env.compensates && Deleted(w.repo, i, o).Ok?
    case WriteLedger(_, _, _) => true
  }

  /** The guard recorded for a transition out of `op`. */
  ghost function GuardOf(w: World, env: Env, op: Operation, next: State, now: int): Guard {
    Guard(op, now,
          if next == Succeeded && env.verifier && OutcomeProven(op, Some(w.ledger)) then OutcomeKey(op, w.ledger) else "")
  }

  ghost function After(env: Env, w: World, s: Step): World
    requires Enabled(env, w, s)
  {
    match s
    case Replay(key) => Answered(w, key)
    case BeginSubmit(call, intent, draw, now, at) => AfterSubmit(env, w, call, intent, draw, now, at)
    case CommitCreate(call) => AfterCreate(w, call)
    case RetryLookup(call) => Answered(WithoutCall(w, call), w.calls[call].key)
    case BeginTransition(call, id, next, reason, actor, now, at) =>
      var op := w.repo.operations[id];
      WithCall(w, call, Updating(op, Advanced(op, next, at, reason, actor), GuardsOf(w, id) + [GuardOf(w, env, op, next, now)]))
    case BeginAttach(call, id, receipt, now) =>
      var written := AttachOutcome(w.repo, Verifier(env, w), id, receipt, now).value;
      WithCall(w, call, Updating(w.repo.operations[id], written, GuardsOf(w, id)))
    case AttachAgain(_, _, _) => w
    case BeginControl(call, id, plan, provider, authorization, observed) =>
      var op := w.repo.operations[id];
      WithCall(w, call, Updating(op, Controlled(op, plan, provider, authorization, observed), GuardsOf(w, id)))
    case CommitUpdate(call) => AfterUpdate(w, call)
    case DeleteSubmission(i, o) => w.(repo := Deleted(w.repo, i, o).value, guards := w.guards - {o})
    case WriteLedger(kind, decision, at) => w.(ledger := Ledger.Appended(w.ledger, kind, decision, at))
  }

  /** The fields the outside controller owns; it leaves the state and the history alone. */
  function Controlled(op: Operation, plan: string, provider: Option<Provider>,
                      authorization: Option<Authorization>, observed: string): Operation {
    op.(planDigest := plan, provider := provider, authorization := authorization, observedDigest := observed)
  }

  function WithCall(w: World, call: nat, c: Call): World {
    w.(calls := w.calls[call := c])
  }

  function WithoutCall(w: World, call: nat): World {
    w.(calls := w.calls - {call})
  }

  /** A lookup by key answers with the indexed operation, if there is one. */
  function Answered(w: World, key: string): World {
    var found := Found(w.repo, key);
    if found.Ok? then w.(responses := w.responses + [Response(key, found.value.id)]) else w
  }

  function AfterSubmit(env: Env, w: World, call: nat, intent: Intent, draw: Draw, now: int, at: int): World {
    var stored := AdmittedIntent(intent, draw, env.digest, now);
    var id := ResourceId("operation", intent.key, draw.operation, env.digest);
    var received := ReceivedOperation(stored, id, now);
    var op := AdmittedOperation(stored, id, env.policy, now, at);
    var guards := [Guard(received, now, ""), Guard(received, now, "")];
    WithCall(w.(issued := w.issued[id := intent.key]), call,
             Creating(stored, op, Admit(stored, env.policy, now).reason, guards))
  }

  function GuardsOf(w: World, id: string): seq<Guard> {
    if id in w.guards then w.guards[id] else []
  }

  function AfterCreate(w: World, call: nat): World
    requires call in w.calls && w.calls[call].Creating?
  {
    var c := w.calls[call];
    match Created(w.repo, c.intent, c.op)
    case Ok(repo) =>
      WithoutCall(w, call).(repo := repo, guards := w.guards[c.op.id := c.guards],
                            responses := w.responses + [Response(c.intent.key, c.op.id)])
    case Err(_) =>
      if c.intent.key == "" then WithoutCall(w, call) else WithCall(w, call, Replaying(c.intent.key))
  }

  function AfterUpdate(w: World, call: nat): World
    requires call in w.calls && w.calls[call].Updating?
  {
    var c := w.calls[call];
    match Updated(w.repo, c.op)
    case Ok(repo) => WithoutCall(w, call).(repo := repo, guards := w.guards[c.op.id := c.guards])
    case Err(_) => WithoutCall(w, call)
  }

  ghost predicate IsRun(env: Env, worlds: seq<World>, steps: seq<Step>) {
    && |worlds| == |steps| + 1
    && worlds[0] == Initial
    && (forall i | 0 <= i < |steps| :: Enabled(env, worlds[i], steps[i]) && worlds[i + 1] == After(env, worlds[i], steps[i]))
  }

  // ---------------------------------------------------------------- the invariant of evidence

  /** Entry `i` of the history was appended to the operation as read, while its evidence was present. */
  ghost predicate GuardHolds(ledger: Ledger.State, op: Operation, i: int, g: Guard)
    requires 0 <= i < |op.transitions|
  {
    var next := op.transitions[i].state;
    && g.snapshot.id == op.id && g.snapshot.key == op.key
    && |g.snapshot.transitions| == i
    && (next == Authorized || next == Actuating ==> AuthorizationValid(g.snapshot, g.now))
    && (next == Succeeded ==>
          g.proofKey in ledger.proofs && OutcomeEvidence(g.snapshot) == Some(ledger.proofs[g.proofKey].content))
  }

  ghost predicate IdIsTrimmed(id: string) {
    TrimSpace(id) == id && !Blank(id)
  }

  /** A stored or pending operation whose history is valid and whose every entry had its evidence. */
  ghost predicate Good(ledger: Ledger.State, op: Operation, guards: seq<Guard>) {
    && ValidHistory(op.transitions, op.state)
    && |guards| == |op.transitions|
    && (forall i | 1 <= i < |guards| :: GuardHolds(ledger, op, i, guards[i]))
    && IdIsTrimmed(op.id)
  }

  ghost predicate GoodCall(ledger: Ledger.State, c: Call) {
    c.Replaying? || Good(ledger, c.op, c.guards)
  }

  ghost predicate GoodCalls(ledger: Ledger.State, calls: map<nat, Call>) {
    forall c | c in calls :: GoodCall(ledger, calls[c])
  }

  ghost predicate GoodStore(ledger: Ledger.State, operations: map<string, Operation>, guards: map<string, seq<Guard>>) {
    && guards.Keys == operations.Keys
    && (forall o | o in operations :: operations[o].id == o && Good(ledger, operations[o], guards[o]))
  }

  /** What every step keeps, whether or not keys collide. */
  ghost predicate Evident(w: World) {
    && Ledger.Valid(w.ledger)
    && GoodStore(w.ledger, w.repo.operations, w.guards)
    && GoodCalls(w.ledger, w.calls)
  }

  /** Evidence once given stays given as the ledger grows. */
  lemma GoodStays(l1: Ledger.State, l2: Ledger.State, op: Operation, guards: seq<Guard>)
    requires Good(l1, op, guards) && Ledger.Extends(l1, l2)
    ensures Good(l2, op, guards)
  {
    forall i | 1 <= i < |guards| ensures GuardHolds(l2, op, i, guards[i]) {
      assert GuardHolds(l1, op, i, guards[i]);
    }
  }

  lemma WriteLedgerKeeps(w: World, kind: Ledger.Kind, decision: Ledger.Decision, at: int)
    requires Evident(w)
    ensures Evident(w.(ledger := Ledger.Appended(w.ledger, kind, decision, at)))
  {
    var ledger := Ledger.Appended(w.ledger, kind, decision, at);
    Ledger.AppendExtends(w.ledger, kind, decision, at);
    forall o | o in w.repo.operations ensures Good(ledger, w.repo.operations[o], w.guards[o]) {
      GoodStays(w.ledger, ledger, w.repo.operations[o], w.guards[o]);
    }
    forall c | c in w.calls ensures GoodCall(ledger, w.calls[c]) {
      assert GoodCall(w.ledger, w.calls[c]);
      if !w.calls[c].Replaying? {
        GoodStays(w.ledger, ledger, w.calls[c].op, w.calls[c].guards);
      }
    }
  }

  lemma OperationIdIsTrimmed(suffix: string)
    requires IsIdText(suffix)
    ensures IdIsTrimmed("operation-" + suffix)
  {
    var id := "operation-" + suffix;
    assert id[|id| - 1] == suffix[|suffix| - 1];
    TrimSpaceIdentity(id);
  }

  /** The ID a submission uses is trimmed. */
  lemma SubmitIdIsTrimmed(env: Env, key: string, draw: Draw)
    requires HexDigests(env) && (Blank(key) ==> IsIdText(draw.operation))
    ensures IdIsTrimmed(ResourceId("operation", key, draw.operation, env.digest))
  {
    var suffix := if Blank(key) then draw.operation else env.digest(key);
    OperationIdIsTrimmed(suffix);
    assert ResourceId("operation", key, draw.operation, env.digest) == "operation-" + suffix;
  }

  /** The operation a submission is about to create is good: neither of its entries needs evidence. */
  lemma AdmittedIsGood(ledger: Ledger.State, stored: Intent, id: string, policy: Policy, now: int, at: int)
    requires IdIsTrimmed(id)
    ensures var g := Guard(ReceivedOperation(stored, id, now), now, "");
            Good(ledger, AdmittedOperation(stored, id, policy, now, at), [g, g])
  {}

  lemma CallKeeps(w: World, call: nat, c: Call)
    requires Evident(w) && GoodCall(w.ledger, c)
    ensures Evident(WithCall(w, call, c))
  {}

  lemma SubmitKeeps(env: Env, w: World, call: nat, intent: Intent, draw: Draw, now: int, at: int)
    requires HexDigests(env) && Evident(w) && (Blank(intent.key) ==> IsIdText(draw.operation))
    ensures Evident(AfterSubmit(env, w, call, intent, draw, now, at))
  {
    var stored := AdmittedIntent(intent, draw, env.digest, now);
    SubmitIdIsTrimmed(env, intent.key, draw);
    AdmittedIsGood(w.ledger, stored, ResourceId("operation", intent.key, draw.operation, env.digest), env.policy, now, at);
  }

  lemma StoreKeeps(ledger: Ledger.State, operations: map<string, Operation>, guards: map<string, seq<Guard>>,
                   op: Operation, gs: seq<Guard>)
    requires GoodStore(ledger, operations, guards) && Good(ledger, op, gs)
    ensures GoodStore(ledger, operations[op.id := op], guards[op.id := gs])
  {}

  lemma StoredKeeps(w: World, call: nat, v: World, op: Operation, guards: seq<Guard>)
    requires Evident(w) && Good(w.ledger, op, guards)
    requires v.ledger == w.ledger && v.calls == w.calls - {call} && v.guards == w.guards[op.id := guards]
    requires v.repo.operations == w.repo.operations[op.id := op]
    ensures Evident(v)
  {
    StoreKeeps(w.ledger, w.repo.operations, w.guards, op, guards);
  }

  /** Whoever wrote the operation before, a commit stores one that is good. */
  lemma CommitKeeps(w: World, call: nat)
    requires Evident(w) && call in w.calls
    ensures w.calls[call].Creating? ==> Evident(AfterCreate(w, call))
    ensures w.calls[call].Updating? ==> Evident(AfterUpdate(w, call))
  {
    var c := w.calls[call];
    assert GoodCall(w.ledger, c);
    if c.Creating? && Created(w.repo, c.intent, c.op).Ok? {
      StoredKeeps(w, call, AfterCreate(w, call), c.op, c.guards);
    } else if c.Updating? && Updated(w.repo, c.op).Ok? {
      StoredKeeps(w, call, AfterUpdate(w, call), c.op, c.guards);
    }
  }

  lemma DeleteKeeps(w: World, intentId: string, operationId: string)
    requires Evident(w) && Deleted(w.repo, intentId, operationId).Ok?
    ensures Evident(w.(repo := Deleted(w.repo, intentId, operationId).value, guards := w.guards - {operationId}))
  {}

  /** The evidence present for a transition is what its guard must record. */
  lemma EvidenceGuards(env: Env, w: World, op: Operation, next: State, at: int, reason: string, actor: string, now: int)
    requires EvidencePresent(op, next, Verifier(env, w), now)
    ensures GuardHolds(w.ledger, Advanced(op, next, at, reason, actor), |op.transitions|, GuardOf(w, env, op, next, now))
  {}

  /** Advancing a good operation under its guard gives a good operation, with that guard recorded. */
  lemma AdvanceIsGood(ledger: Ledger.State, op: Operation, guards: seq<Guard>, g: Guard,
                      next: State, at: int, reason: string, actor: string)
    requires Good(ledger, op, guards) && AllowedTransition(op.state, next)
    requires GuardHolds(ledger, Advanced(op, next, at, reason, actor), |op.transitions|, g)
    ensures Good(ledger, Advanced(op, next, at, reason, actor), guards + [g])
  {
    var moved := Advanced(op, next, at, reason, actor);
    AppendKeepsHistory(op.transitions, op.state, next, at, reason, actor);
    var all := guards + [g];
    forall i | 1 <= i < |all| ensures GuardHolds(ledger, moved, i, all[i]) {
      if i < |guards| {
        assert GuardHolds(ledger, op, i, guards[i]);
        assert moved.transitions[i] == op.transitions[i];
      }
    }
  }

  ghost predicate SameHistory(op: Operation, written: Operation) {
    && written.id == op.id && written.key == op.key && written.state == op.state
    && |written.transitions| == |op.transitions|
    && forall i | 0 <= i < |op.transitions| ::
         written.transitions[i].state == op.transitions[i].state &&
         written.transitions[i].sequence == op.transitions[i].sequence
  }

  /** Rewriting anything but identity and the states of the history leaves an operation good. */
  lemma RewriteIsGood(ledger: Ledger.State, op: Operation, written: Operation, guards: seq<Guard>)
    requires Good(ledger, op, guards) && SameHistory(op, written)
    ensures Good(ledger, written, guards)
  {
    forall i | 1 <= i < |written.transitions|
      ensures AllowedTransition(written.transitions[i - 1].state, written.transitions[i].state)
    {
      assert AllowedTransition(op.transitions[i - 1].state, op.transitions[i].state);
    }
    forall i | 1 <= i < |guards| ensures GuardHolds(ledger, written, i, guards[i]) {
      assert GuardHolds(ledger, op, i, guards[i]);
    }
  }

  lemma BeginTransitionKeeps(env: Env, w: World, s: Step)
    requires Evident(w) && Enabled(env, w, s) && s.BeginTransition?
    ensures Evident(After(env, w, s))
  {
    var op := w.repo.operations[s.id];
    var g := GuardOf(w, env, op, s.next, s.now);
    assert Good(w.ledger, op, w.guards[s.id]);
    EvidenceGuards(env, w, op, s.next, s.at, s.reason, s.actor, s.now);
    AdvanceIsGood(w.ledger, op, w.guards[s.id], g, s.next, s.at, s.reason, s.actor);
    CallKeeps(w, s.call, Updating(op, Advanced(op, s.next, s.at, s.reason, s.actor), w.guards[s.id] + [g]));
  }

  lemma MergedKeepsHistory(op: Operation, receipt: Receipt, now: int)
    ensures Merged(op, receipt, now).Ok? ==> SameHistory(op, Merged(op, receipt, now).value)
  {}

  lemma AttachKeepsHistory(r: Repo, ledger: Option<Ledger.State>, id: string, receipt: Receipt, now: int)
    requires AttachOutcome(r, ledger, id, receipt, now).Ok?
    ensures SameHistory(r.operations[id], AttachOutcome(r, ledger, id, receipt, now).value)
  {
    MergedKeepsHistory(r.operations[id], receipt, now);
  }

  lemma RewriteKeeps(w: World, call: nat, id: string, written: Operation)
    requires Evident(w) && id in w.repo.operations && SameHistory(w.repo.operations[id], written)
    ensures Evident(WithCall(w, call, Updating(w.repo.operations[id], written, GuardsOf(w, id))))
  {
    assert Good(w.ledger, w.repo.operations[id], w.guards[id]);
    RewriteIsGood(w.ledger, w.repo.operations[id], written, w.guards[id]);
    CallKeeps(w, call, Updating(w.repo.operations[id], written, w.guards[id]));
  }

  /** Answers and dropped calls touch nothing that evidence is about. */
  lemma AnswerKeeps(w: World, key: string, call: nat)
    requires Evident(w)
    ensures Evident(Answered(w, key)) && Evident(Answered(WithoutCall(w, call), key))
  {}

  lemma EvidentStep(env: Env, w: World, s: Step)
    requires HexDigests(env) && Evident(w) && Enabled(env, w, s)
    ensures Evident(After(env, w, s))
  {
    match s {
      case Replay(key) => AnswerKeeps(w, key, 0);
      case RetryLookup(call) => AnswerKeeps(w, w.calls[call].key, call);
      case BeginSubmit(call, intent, draw, now, at) => SubmitKeeps(env, w, call, intent, draw, now, at);
      case CommitCreate(call) => CommitKeeps(w, call);
      case CommitUpdate(call) => CommitKeeps(w, call);
      case DeleteSubmission(i, o) => DeleteKeeps(w, i, o);
      case WriteLedger(kind, decision, at) => WriteLedgerKeeps(w, kind, decision, at);
      case BeginTransition(_, _, _, _, _, _, _) => BeginTransitionKeeps(env, w, s);
      case BeginAttach(call, id, receipt, now) =>
        AttachKeepsHistory(w.repo, Verifier(env, w), id, receipt, now);
        RewriteKeeps(w, call, id, AttachOutcome(w.repo, Verifier(env, w), id, receipt, now).value);
      case AttachAgain(_, _, _) =>
      case BeginControl(call, id, plan, provider, authorization, observed) =>
        var op := w.repo.operations[id];
        RewriteKeeps(w, call, id, Controlled(op, plan, provider, authorization, observed));
    }
  }

  lemma {:induction false} RunEvident(env: Env, worlds: seq<World>, steps: seq<Step>, i: nat)
    requires HexDigests(env) && IsRun(env, worlds, steps) && i < |worlds|
    ensures Evident(worlds[i])
    decreases i
  {
    if i > 0 {
      RunEvident(env, worlds, steps, i - 1);
      EvidentStep(env, worlds[i - 1], steps[i - 1]);
    }
  }

  // ---------------------------------------------------------------- the invariant of keys that do not collide

  type Issued = map<string, string>

  predicate IssuedKey(issued: Issued, op: Operation) {
    op.id in issued && issued[op.id] == op.key
  }

  ghost predicate IssuedTo(env: Env, id: string, key: string) {
    if Blank(key) then forall k | k in env.keys && !Blank(k) :: OperationId(k, env.digest) != id
    else key in env.keys && id == OperationId(key, env.digest)
  }

  ghost predicate IssuedLawfully(env: Env, issued: Issued) {
    forall id | id in issued :: IssuedTo(env, id, issued[id])
  }

  predicate KeyedCall(issued: Issued, c: Call) {
    match c
    case Creating(intent, op, _, _) => op.key == intent.key && IssuedKey(issued, op)
    case Replaying(key) => key != ""
    case Updating(_, op, _) => IssuedKey(issued, op)
  }

  ghost predicate KeyedOps(issued: Issued, operations: map<string, Operation>) {
    forall o | o in operations :: IssuedKey(issued, operations[o])
  }

  ghost predicate KeyedCalls(issued: Issued, calls: map<nat, Call>) {
    forall c | c in calls :: KeyedCall(issued, calls[c])
  }

  ghost predicate GoodResponse(env: Env, r: Response) {
    !Blank(r.key) ==> r.operationId == OperationId(r.key, env.digest)
  }

  ghost predicate GoodResponses(env: Env, responses: seq<Response>) {
    forall i | 0 <= i < |responses| :: GoodResponse(env, responses[i])
  }

  /** The index mirrors the operations, every ID belongs to one key, and answers name the key's ID. */
  ghost predicate Keyed(env: Env, w: World) {
    && IndexMirrors(w.repo)
    && IssuedLawfully(env, w.issued)
    && KeyedOps(w.issued, w.repo.operations)
    && KeyedCalls(w.issued, w.calls)
    && GoodResponses(env, w.responses)
  }

  /** The operation found for a key is the one issued to it. */
  lemma FoundIsIssued(env: Env, w: World, key: string)
    requires IndexMirrors(w.repo) && IssuedLawfully(env, w.issued) && KeyedOps(w.issued, w.repo.operations)
    requires Found(w.repo, key).Ok?
    ensures GoodResponse(env, Response(key, Found(w.repo, key).value.id))
  {
    var op := Found(w.repo, key).value;
    assert IssuedKey(w.issued, op);
    assert IssuedTo(env, op.id, w.issued[op.id]);
  }

  lemma AnsweredKeyed(env: Env, w: World, key: string)
    requires Keyed(env, w)
    ensures Keyed(env, Answered(w, key))
  {
    if Found(w.repo, key).Ok? {
      FoundIsIssued(env, w, key);
    }
  }

  lemma OperationIdInjective(env: Env, j: string, k: string)
    requires Lawful(env) && j in env.keys && k in env.keys && !Blank(j) && !Blank(k)
    requires OperationId(j, env.digest) == OperationId(k, env.digest)
    ensures j == k
  {
    assert OperationId(j, env.digest)[10..] == env.digest(j);
    assert OperationId(k, env.digest)[10..] == env.digest(k);
  }

  /** The ID a submission uses is lawfully issued and never another key's. */
  lemma SubmitId(env: Env, w: World, key: string, draw: Draw) returns (id: string)
    requires Lawful(env) && IssuedLawfully(env, w.issued) && key in env.keys
    requires Blank(key) ==> FreshId(env, w, "operation-" + draw.operation)
    ensures id == ResourceId("operation", key, draw.operation, env.digest)
    ensures IssuedTo(env, id, key) && (id in w.issued ==> w.issued[id] == key)
  {
    id := ResourceId("operation", key, draw.operation, env.digest);
    if Blank(key) {
      assert id == "operation-" + draw.operation;
    } else {
      assert id == OperationId(key, env.digest);
      if id in w.issued {
        assert IssuedTo(env, id, w.issued[id]);
        OperationIdInjective(env, w.issued[id], key);
      }
    }
  }

  lemma SubmitKeyed(env: Env, w: World, call: nat, intent: Intent, draw: Draw, now: int, at: int)
    requires Lawful(env) && Keyed(env, w) && intent.key in env.keys
    requires Blank(intent.key) ==> FreshId(env, w, "operation-" + draw.operation)
    ensures Keyed(env, AfterSubmit(env, w, call, intent, draw, now, at))
  {
    var id := SubmitId(env, w, intent.key, draw);
    var v := AfterSubmit(env, w, call, intent, draw, now, at);
    forall c | c in v.calls ensures KeyedCall(v.issued, v.calls[c]) {
      if c != call { assert KeyedCall(w.issued, w.calls[c]); }
    }
  }

  lemma CreateKeyed(env: Env, w: World, intent: Intent, op: Operation, guards: seq<Guard>)
    requires Keyed(env, w) && IssuedKey(w.issued, op) && op.key == intent.key && Created(w.repo, intent, op).Ok?
    ensures Keyed(env, w.(repo := Created(w.repo, intent, op).value, guards := w.guards[op.id := guards],
                          responses := w.responses + [Response(intent.key, op.id)]))
  {
    assert op.id in w.repo.operations ==> IssuedKey(w.issued, w.repo.operations[op.id]);
    CreateMirrors(w.repo, intent, op);
    assert IssuedTo(env, op.id, w.issued[op.id]);
    assert GoodResponse(env, Response(intent.key, op.id));
  }

  lemma CallKeyed(env: Env, w: World, call: nat, c: Call)
    requires Keyed(env, w) && KeyedCall(w.issued, c)
    ensures Keyed(env, WithCall(w, call, c))
  {}

  lemma WithoutCallKeyed(env: Env, w: World, call: nat)
    requires Keyed(env, w)
    ensures Keyed(env, WithoutCall(w, call))
  {}

  lemma CommitCreateKeyed(env: Env, w: World, call: nat)
    requires Keyed(env, w) && call in w.calls && w.calls[call].Creating?
    ensures Keyed(env, AfterCreate(w, call))
  {
    var c := w.calls[call];
    assert KeyedCall(w.issued, c);
    WithoutCallKeyed(env, w, call);
    if Created(w.repo, c.intent, c.op).Ok? {
      CreateKeyed(env, WithoutCall(w, call), c.intent, c.op, c.guards);
    } else if c.intent.key != "" {
      CallKeyed(env, w, call, Replaying(c.intent.key));
    }
  }

  lemma CommitUpdateKeyed(env: Env, w: World, call: nat)
    requires Keyed(env, w) && call in w.calls && w.calls[call].Updating?
    ensures Keyed(env, AfterUpdate(w, call))
  {
    var c := w.calls[call];
    assert KeyedCall(w.issued, c);
    if c.op.id in w.repo.operations {
      assert IssuedKey(w.issued, w.repo.operations[c.op.id]);
      UpdateMirrors(w.repo, c.op);
    }
  }

  lemma DeleteKeyed(env: Env, w: World, intentId: string, operationId: string)
    requires Keyed(env, w) && Deleted(w.repo, intentId, operationId).Ok?
    ensures Keyed(env, w.(repo := Deleted(w.repo, intentId, operationId).value, guards := w.guards - {operationId}))
  {
    DeleteMirrors(w.repo, intentId, operationId);
  }

  /** A call that rewrites a stored operation under its own ID and key. */
  lemma RewriteKeyed(env: Env, w: World, call: nat, id: string, written: Operation, guards: seq<Guard>)
    requires Keyed(env, w) && id in w.repo.operations
    requires written.id == w.repo.operations[id].id && written.key == w.repo.operations[id].key
    ensures Keyed(env, WithCall(w, call, Updating(w.repo.operations[id], written, guards)))
  {
    assert IssuedKey(w.issued, w.repo.operations[id]);
    CallKeyed(env, w, call, Updating(w.repo.operations[id], written, guards));
  }

  lemma KeyedStep(env: Env, w: World, s: Step)
    requires Lawful(env) && Keyed(env, w) && Enabled(env, w, s)
    ensures Keyed(env, After(env, w, s))
  {
    match s {
      case Replay(key) => AnsweredKeyed(env, w, key);
      case RetryLookup(call) =>
        WithoutCallKeyed(env, w, call);
        AnsweredKeyed(env, WithoutCall(w, call), w.calls[call].key);
      case BeginSubmit(call, intent, draw, now, at) => SubmitKeyed(env, w, call, intent, draw, now, at);
      case CommitCreate(call) => CommitCreateKeyed(env, w, call);
      case CommitUpdate(call) => CommitUpdateKeyed(env, w, call);
      case DeleteSubmission(i, o) => DeleteKeyed(env, w, i, o);
      case WriteLedger(_, _, _) =>
      case BeginTransition(call, id, _, _, _, _, _) =>
        var c := After(env, w, s).calls[call];
        RewriteKeyed(env, w, call, id, c.op, c.guards);
      case BeginAttach(call, id, receipt, now) =>
        AttachKeepsHistory(w.repo, Verifier(env, w), id, receipt, now);
        RewriteKeyed(env, w, call, id, AttachOutcome(w.repo, Verifier(env, w), id, receipt, now).value, GuardsOf(w, id));
      case AttachAgain(_, _, _) =>
      case BeginControl(call, id, _, _, _, _) =>
        var c := After(env, w, s).calls[call];
        RewriteKeyed(env, w, call, id, c.op, c.guards);
    }
  }

  /** Every step keeps the evidence, and without collisions the keys as well. */
  lemma StepKeeps(env: Env, w: World, s: Step)
    requires Enabled(env, w, s)
    ensures HexDigests(env) && Evident(w) ==> Evident(After(env, w, s))
    ensures Lawful(env) && Keyed(env, w) ==> Keyed(env, After(env, w, s))
  {
    if HexDigests(env) && Evident(w) { EvidentStep(env, w, s); }
    if Lawful(env) && Keyed(env, w) { KeyedStep(env, w, s); }
  }

  lemma {:induction false} RunKeyed(env: Env, worlds: seq<World>, steps: seq<Step>, i: nat)
    requires Lawful(env) && IsRun(env, worlds, steps) && i < |worlds|
    ensures Keyed(env, worlds[i])
    decreases i
  {
    if i > 0 {
      RunKeyed(env, worlds, steps, i - 1);
      KeyedStep(env, worlds[i - 1], steps[i - 1]);
    }
  }

  // ---------------------------------------------------------------- what every run guarantees

  /** A decision to append an entry: which operation, which state, and what was read and when. */
  datatype Decided = Decided(o: string, next: State, guard: Guard)

  ghost predicate Decides(w: World, s: Step, d: Decided) {
    s.BeginTransition? && s.id == d.o && s.next == d.next && s.now == d.guard.now &&
    d.o in w.repo.operations && w.repo.operations[d.o] == d.guard.snapshot
  }

  /** The decisions of the first `n` steps. */
  ghost function DecidedBy(worlds: seq<World>, steps: seq<Step>, n: nat): iset<Decided>
    requires n <= |steps| < |worlds|
  {
    iset d | DecidedWithin(worlds, steps, n, d)
  }

  ghost predicate DecidedWithin(worlds: seq<World>, steps: seq<Step>, n: nat, d: Decided)
    requires n <= |steps| < |worlds|
  {
    exists t | 0 <= t < n :: Decides(worlds[t], steps[t], d)
  }

  lemma DecidedGrows(worlds: seq<World>, steps: seq<Step>, n: nat)
    requires n < |steps| < |worlds|
    ensures DecidedBy(worlds, steps, n) <= DecidedBy(worlds, steps, n + 1)
    ensures forall d | Decides(worlds[n], steps[n], d) :: d in DecidedBy(worlds, steps, n + 1)
  {
    forall d | d in DecidedBy(worlds, steps, n) ensures d in DecidedBy(worlds, steps, n + 1) {
      assert DecidedWithin(worlds, steps, n, d);
      assert DecidedWithin(worlds, steps, n + 1, d);
    }
    forall d | Decides(worlds[n], steps[n], d) ensures d in DecidedBy(worlds, steps, n + 1) {
      assert DecidedWithin(worlds, steps, n + 1, d);
    }
  }

  /** Every entry after the admission goes back to a decision. */
  ghost predicate Traced(decided: iset<Decided>, op: Operation, guards: seq<Guard>) {
    |guards| == |op.transitions| &&
    forall j | 2 <= j < |guards| :: Decided(op.id, op.transitions[j].state, guards[j]) in decided
  }

  ghost predicate TracedCall(decided: iset<Decided>, c: Call) {
    c.Replaying? || Traced(decided, c.op, c.guards)
  }

  ghost predicate TracedWorld(decided: iset<Decided>, w: World) {
    && (forall o | o in w.repo.operations && o in w.guards :: Traced(decided, w.repo.operations[o], w.guards[o]))
    && (forall c | c in w.calls :: TracedCall(decided, w.calls[c]))
  }

  lemma TracedMore(small: iset<Decided>, large: iset<Decided>, w: World)
    requires TracedWorld(small, w) && small <= large
    ensures TracedWorld(large, w)
  {
    forall c | c in w.calls ensures TracedCall(large, w.calls[c]) {
      assert TracedCall(small, w.calls[c]);
    }
  }

  lemma TracedWithCall(decided: iset<Decided>, w: World, call: nat, c: Call)
    requires TracedWorld(decided, w) && TracedCall(decided, c)
    ensures TracedWorld(decided, WithCall(w, call, c))
  {}

  lemma TracedAdvance(decided: iset<Decided>, op: Operation, guards: seq<Guard>, g: Guard,
                      next: State, at: int, reason: string, actor: string)
    requires Traced(decided, op, guards) && Decided(op.id, next, g) in decided
    ensures Traced(decided, Advanced(op, next, at, reason, actor), guards + [g])
  {}

  lemma TracedRewrite(decided: iset<Decided>, op: Operation, written: Operation, guards: seq<Guard>)
    requires Traced(decided, op, guards) && SameHistory(op, written)
    ensures Traced(decided, written, guards)
  {}

  lemma TracedCommit(decided: iset<Decided>, w: World, call: nat)
    requires TracedWorld(decided, w) && call in w.calls && !w.calls[call].Replaying?
    ensures w.calls[call].Creating? ==> TracedWorld(decided, AfterCreate(w, call))
    ensures w.calls[call].Updating? ==> TracedWorld(decided, AfterUpdate(w, call))
  {
    assert TracedCall(decided, w.calls[call]);
  }

  lemma TracedBegin(env: Env, decided: iset<Decided>, w: World, s: Step)
    requires Evident(w) && Enabled(env, w, s) && TracedWorld(decided, w)
    requires s.BeginTransition? ==>
      Decided(s.id, s.next, GuardOf(w, env, w.repo.operations[s.id], s.next, s.now)) in decided
    requires s.BeginTransition? || s.BeginAttach? || s.BeginControl?
    ensures TracedWorld(decided, After(env, w, s))
  {
    var op, guards := w.repo.operations[s.id], w.guards[s.id];
    assert Traced(decided, op, guards);
    match s {
      case BeginTransition(call, id, next, reason, actor, now, at) =>
        var g := GuardOf(w, env, op, next, now);
        TracedAdvance(decided, op, guards, g, next, at, reason, actor);
        TracedWithCall(decided, w, call, Updating(op, Advanced(op, next, at, reason, actor), guards + [g]));
      case BeginAttach(call, id, receipt, now) =>
        var written := AttachOutcome(w.repo, Verifier(env, w), id, receipt, now).value;
        AttachKeepsHistory(w.repo, Verifier(env, w), id, receipt, now);
        TracedRewrite(decided, op, written, guards);
        TracedWithCall(decided, w, call, Updating(op, written, guards));
      case BeginControl(call, id, plan, provider, authorization, observed) =>
        var written := Controlled(op, plan, provider, authorization, observed);
        TracedRewrite(decided, op, written, guards);
        TracedWithCall(decided, w, call, Updating(op, written, guards));
    }
  }

  /** The steps that advance no call's operation. */
  lemma TracedOther(env: Env, decided: iset<Decided>, w: World, s: Step)
    requires Enabled(env, w, s) && TracedWorld(decided, w)
    requires s.Replay? || s.RetryLookup? || s.AttachAgain? || s.DeleteSubmission? || s.WriteLedger?
    ensures TracedWorld(decided, After(env, w, s))
  {}

  lemma TracedSubmit(env: Env, decided: iset<Decided>, w: World, s: Step)
    requires Enabled(env, w, s) && TracedWorld(decided, w) && s.BeginSubmit?
    ensures TracedWorld(decided, After(env, w, s))
  {}

  lemma TracedAfter(env: Env, decided: iset<Decided>, w: World, s: Step)
    requires Evident(w) && Enabled(env, w, s) && TracedWorld(decided, w)
    requires s.BeginTransition? ==>
      Decided(s.id, s.next, GuardOf(w, env, w.repo.operations[s.id], s.next, s.now)) in decided
    ensures TracedWorld(decided, After(env, w, s))
  {
    if s.BeginTransition? || s.BeginAttach? || s.BeginControl? {
      TracedBegin(env, decided, w, s);
    } else if s.CommitCreate? || s.CommitUpdate? {
      TracedCommit(decided, w, s.call);
    } else if s.BeginSubmit? {
      TracedSubmit(env, decided, w, s);
    } else {
      TracedOther(env, decided, w, s);
    }
  }

  lemma {:induction false} RunTraced(env: Env, worlds: seq<World>, steps: seq<Step>, i: nat)
    requires HexDigests(env) && IsRun(env, worlds, steps) && i < |worlds|
    ensures TracedWorld(DecidedBy(worlds, steps, i), worlds[i])
    decreases i
  {
    if i > 0 {
      var w, s := worlds[i - 1], steps[i - 1];
      RunTraced(env, worlds, steps, i - 1);
      RunEvident(env, worlds, steps, i - 1);
      var decided := DecidedBy(worlds, steps, i);
      DecidedGrows(worlds, steps, i - 1);
      TracedMore(DecidedBy(worlds, steps, i - 1), decided, w);
      if s.BeginTransition? {
        assert Decides(w, s, Decided(s.id, s.next, GuardOf(w, env, w.repo.operations[s.id], s.next, s.now)));
      }
      TracedAfter(env, decided, w, s);
    }
  }

  /**
   A step that read this operation at this length and decided on this state with an authorization that has
   not run out and names the operation's own class, object, plan and key, this controller, a grant and a subject.
   */
  ghost predicate DecidesAuthorized(w: World, s: Step, o: string, next: State, length: nat) {
    && s.BeginTransition? && s.id == o && s.next == next
    && o in w.repo.operations
    && |w.repo.operations[o].transitions| == length
    && w.repo.operations[o].authorization.Some?
    && var op, a := w.repo.operations[o], w.repo.operations[o].authorization.value;
       && a.expiresAt.Some? && s.now < a.expiresAt.value
       && a.actionClass == op.actionClass && a.key == op.key && !Blank(op.key)
       && a.objectUid == (if Blank(op.objectUid) then op.id else op.objectUid)
       && IsSha256(op.planDigest) && Lower(a.specDigest) == Lower(op.planDigest)
       && a.audience == "fleet-llm-d" && !Blank(a.grantId) && !Blank(a.subject)
       && !Blank(a.actionClass) && !Blank(a.objectUid)
       && (a.breakGlass ==> !Blank(a.incidentRef))
  }

  /** A step that read this operation at this length and decided on SUCCEEDED with its outcome proven by the ledger of that moment. */
  ghost predicate DecidesProven(env: Env, w: World, s: Step, o: string, length: nat) {
    && s.BeginTransition? && s.id == o && s.next == Succeeded
    && o in w.repo.operations
    && |w.repo.operations[o].transitions| == length
    && OutcomeProven(w.repo.operations[o], Verifier(env, w))
  }

  /** A step that read this operation at this length and decided on PLANNED with a plan digest and a named provider. */
  ghost predicate DecidesPlanned(w: World, s: Step, o: string, length: nat) {
    && s.BeginTransition? && s.id == o && s.next == Planned
    && o in w.repo.operations
    && |w.repo.operations[o].transitions| == length
    && IsSha256(w.repo.operations[o].planDigest)
    && w.repo.operations[o].provider.Some?
    && !Blank(w.repo.operations[o].provider.value.kind) && !Blank(w.repo.operations[o].provider.value.name)
  }

  lemma EnabledIsEvident(env: Env, w: World, s: Step)
    requires Enabled(env, w, s) && s.BeginTransition?
    ensures s.id in w.repo.operations && EvidencePresent(w.repo.operations[s.id], s.next, Verifier(env, w), s.now)
  {}

  /** What a step that is enabled has found, spelled out for each of the guarded states. */
  lemma EnabledDecides(env: Env, w: World, s: Step)
    requires Enabled(env, w, s) && s.BeginTransition?
    ensures s.id in w.repo.operations
    ensures var length := |w.repo.operations[s.id].transitions|;
            && (s.next == Planned ==> DecidesPlanned(w, s, s.id, length))
            && (s.next == Authorized || s.next == Actuating ==> DecidesAuthorized(w, s, s.id, s.next, length))
            && (s.next == Succeeded ==> DecidesProven(env, w, s, s.id, length))
  {
    EnabledIsEvident(env, w, s);
  }

  /** The step that decided on entry `j`, and the evidence recorded for it. */
  lemma EntryDecided(env: Env, worlds: seq<World>, steps: seq<Step>, i: nat, o: string, j: nat) returns (t: nat, g: Guard)
    requires HexDigests(env) && IsRun(env, worlds, steps) && i < |worlds| && o in worlds[i].repo.operations
    requires 2 <= j < |worlds[i].repo.operations[o].transitions|
    ensures t < i && Decides(worlds[t], steps[t], Decided(o, worlds[i].repo.operations[o].transitions[j].state, g))
    ensures GuardHolds(worlds[i].ledger, worlds[i].repo.operations[o], j, g)
  {
    RunEvident(env, worlds, steps, i);
    RunTraced(env, worlds, steps, i);
    var w := worlds[i];
    var op, guards := w.repo.operations[o], w.guards[o];
    g := guards[j];
    assert Good(w.ledger, op, guards);
    assert Traced(DecidedBy(worlds, steps, i), op, guards);
    assert GuardHolds(w.ledger, op, j, g);
    var d := Decided(o, op.transitions[j].state, g);
    assert d in DecidedBy(worlds, steps, i);
    assert DecidedWithin(worlds, steps, i, d);
    t :| 0 <= t < i && Decides(worlds[t], steps[t], d);
  }

  lemma StoredIsValid(w: World, o: string)
    requires Evident(w) && o in w.repo.operations
    ensures ValidHistory(w.repo.operations[o].transitions, w.repo.operations[o].state) && IdIsTrimmed(o)
    ensures w.repo.operations[o].id == o
  {
    assert Good(w.ledger, w.repo.operations[o], w.guards[o]);
  }

  /** An entry of one of the guarded states was decided with the evidence that state demands. */
  lemma GuardedEntry(env: Env, worlds: seq<World>, steps: seq<Step>, i: nat, o: string, j: nat) returns (t: nat, g: Guard)
    requires HexDigests(env) && IsRun(env, worlds, steps) && i < |worlds| && o in worlds[i].repo.operations
    requires j < |worlds[i].repo.operations[o].transitions|
    requires worlds[i].repo.operations[o].transitions[j].state in {Planned, Authorized, Actuating, Succeeded}
    ensures t < i && o in worlds[t].repo.operations && g.snapshot == worlds[t].repo.operations[o]
    ensures GuardHolds(worlds[i].ledger, worlds[i].repo.operations[o], j, g)
    ensures var next := worlds[i].repo.operations[o].transitions[j].state;
            if next == Planned then DecidesPlanned(worlds[t], steps[t], o, j)
            else if next == Succeeded then DecidesProven(env, worlds[t], steps[t], o, j)
            else DecidesAuthorized(worlds[t], steps[t], o, next, j)
  {
    var op := worlds[i].repo.operations[o];
    RunEvident(env, worlds, steps, i);
    StoredIsValid(worlds[i], o);
    GuardedIsLate(op.transitions, op.state, j);
    t, g := EntryDecided(env, worlds, steps, i, o, j);
    EnabledDecides(env, worlds[t], steps[t]);
  }

  /**
   In every reachable state every stored history is valid. Each AUTHORIZED or ACTUATING entry in it was
   decided by an earlier step that read the operation, one entry shorter, from the repository and found
   an unexpired authorization bound to its plan, action class, object and key; a PLANNED entry by one that
   found a plan and a provider; a SUCCEEDED entry by one that found its outcome proven by the ledger.
   */
  lemma StoredHistories(env: Env, worlds: seq<World>, steps: seq<Step>, i: nat, o: string, j: nat)
    requires HexDigests(env) && IsRun(env, worlds, steps) && i < |worlds|
    requires o in worlds[i].repo.operations
    ensures var op := worlds[i].repo.operations[o]; ValidHistory(op.transitions, op.state)
    ensures var op := worlds[i].repo.operations[o];
            j < |op.transitions| && op.transitions[j].state in {Authorized, Actuating} ==>
              exists t | 0 <= t < i :: DecidesAuthorized(worlds[t], steps[t], o, op.transitions[j].state, j)
    ensures var op := worlds[i].repo.operations[o];
            j < |op.transitions| && op.transitions[j].state == Succeeded ==>
              exists t | 0 <= t < i :: DecidesProven(env, worlds[t], steps[t], o, j)
    ensures var op := worlds[i].repo.operations[o];
            j < |op.transitions| && op.transitions[j].state == Planned ==>
              exists t | 0 <= t < i :: DecidesPlanned(worlds[t], steps[t], o, j)
  {
    RunEvident(env, worlds, steps, i);
    StoredIsValid(worlds[i], o);
    var op := worlds[i].repo.operations[o];
    if j < |op.transitions| && op.transitions[j].state in {Planned, Authorized, Actuating, Succeeded} {
      var t, g := GuardedEntry(env, worlds, steps, i, o, j);
    }
  }

  lemma GuardedIsLate(history: seq<Transition>, current: State, j: nat)
    requires ValidHistory(history, current) && j < |history|
    requires history[j].state in {Planned, Authorized, Actuating, Succeeded}
    ensures j >= 2
  {
    assert j == 1 ==> AllowedTransition(history[0].state, history[1].state);
  }

  /** The index and the keyed operations are exact inverses in every reachable state. */
  lemma IndexMirrorsAlways(env: Env, worlds: seq<World>, steps: seq<Step>, i: nat, k: string, o: string)
    requires Lawful(env) && IsRun(env, worlds, steps) && i < |worlds| && k != ""
    ensures var r := worlds[i].repo;
            (k in r.index && r.index[k] == o) <==> (o in r.operations && r.operations[o].key == k)
  {
    RunKeyed(env, worlds, steps, i);
  }

  ghost predicate AllMirror(worlds: seq<World>) {
    forall i | 0 <= i < |worlds| :: IndexMirrors(worlds[i].repo)
  }

  ghost predicate AlwaysMirrors(env: Env) {
    forall worlds: seq<World>, steps: seq<Step> | IsRun(env, worlds, steps) :: AllMirror(worlds)
  }

  lemma LawfulMirrors(env: Env)
    requires Lawful(env)
    ensures AlwaysMirrors(env)
  {
    forall worlds: seq<World>, steps: seq<Step> | IsRun(env, worlds, steps) ensures AllMirror(worlds) {
      forall i | 0 <= i < |worlds| ensures IndexMirrors(worlds[i].repo) {
        RunKeyed(env, worlds, steps, i);
      }
    }
  }

  /** An intent that any policy accepts. */
  function IntentFor(env: Env, id: string, key: string): Intent {
    Intent(id, id, key, "", env.policy.minConfidence, env.policy.maxReplicas, env.policy.maxReplicas, "", None, None, "")
  }

  lemma ExtendRun(env: Env, worlds: seq<World>, steps: seq<Step>, s: Step)
    requires IsRun(env, worlds, steps) && Enabled(env, worlds[|steps|], s)
    ensures IsRun(env, worlds + [After(env, worlds[|steps|], s)], steps + [s])
  {
    LongerRun(env, worlds, steps, s, After(env, worlds[|steps|], s));
  }

  lemma LongerRun(env: Env, worlds: seq<World>, steps: seq<Step>, s: Step, next: World)
    requires IsRun(env, worlds, steps) && Enabled(env, worlds[|steps|], s) && next == After(env, worlds[|steps|], s)
    ensures IsRun(env, worlds + [next], steps + [s])
  {
    var ws, ss := worlds + [next], steps + [s];
    forall i | 0 <= i < |ss| ensures Enabled(env, ws[i], ss[i]) && ws[i + 1] == After(env, ws[i], ss[i]) {
      if i < |steps| {
        assert ws[i] == worlds[i] && ss[i] == steps[i] && ws[i + 1] == worlds[i + 1];
      } else {
        assert ws[i] == worlds[|steps|] && ss[i] == s && ws[i + 1] == next;
      }
    }
  }

  lemma Extended(env: Env, worlds: seq<World>, steps: seq<Step>, s: Step) returns (ws: seq<World>, ss: seq<Step>)
    requires IsRun(env, worlds, steps) && Enabled(env, worlds[|steps|], s)
    ensures IsRun(env, ws, ss) && ss == steps + [s] && ws == worlds + [After(env, worlds[|steps|], s)]
  {
    ExtendRun(env, worlds, steps, s);
    ws, ss := worlds + [After(env, worlds[|steps|], s)], steps + [s];
  }

  /** No call is under way, and a submission of this intent and key would be new. */
  predicate Open(w: World, id: string, key: string) {
    w.calls == map[] && key !in w.repo.index && id !in w.repo.intents
  }

  /** The newly accepted operation under a key's ID belongs to `owner`, and the index sends the key there. */
  predicate Holds(env: Env, w: World, key: string, owner: string) {
    var id := OperationId(key, env.digest);
    && key in w.repo.index && w.repo.index[key] == id
    && id in w.repo.operations && w.repo.operations[id].key == owner
    && w.repo.operations[id].state == Accepted && |w.repo.operations[id].transitions| == 2
  }

  /** The pending creation of an accepted operation under the key's ID. */
  predicate Creates(env: Env, c: Call, id: string, key: string) {
    && c.Creating? && c.intent.id == id && c.intent.key == key && c.op.key == key
    && c.op.id == OperationId(key, env.digest) && c.op.state == Accepted && |c.op.transitions| == 2
  }

  lemma AlwaysAccepted(env: Env, id: string, key: string)
    requires id != ""
    ensures var stored := AdmittedIntent(IntentFor(env, id, key), Draw("", ""), env.digest, 0);
            stored == IntentFor(env, id, key).(createdAt := Some(0)) && Admit(stored, env.policy, 0).next == Accepted
  {}

  lemma SubmitEnabled(env: Env, w: World, id: string, key: string, s: Step)
    requires Open(w, id, key) && key in env.keys && !Blank(key)
    requires s == BeginSubmit(0, IntentFor(env, id, key), Draw("", ""), 0, 0)
    ensures Enabled(env, w, s) && After(env, w, s) == AfterSubmit(env, w, 0, IntentFor(env, id, key), Draw("", ""), 0, 0)
  {}

  lemma SubmitCreates(env: Env, w: World, id: string, key: string, v: World)
    requires w.calls == map[] && !Blank(key) && id != ""
    requires v == AfterSubmit(env, w, 0, IntentFor(env, id, key), Draw("", ""), 0, 0)
    ensures v.repo == w.repo && v.responses == w.responses
    ensures v.calls.Keys == {0} && Creates(env, v.calls[0], id, key)
  {
    AlwaysAccepted(env, id, key);
  }

  lemma SubmitBegins(env: Env, w: World, id: string, key: string, s: Step)
    requires Open(w, id, key) && key in env.keys && !Blank(key) && id != ""
    requires s == BeginSubmit(0, IntentFor(env, id, key), Draw("", ""), 0, 0)
    ensures Enabled(env, w, s) && After(env, w, s).repo == w.repo && After(env, w, s).responses == w.responses
    ensures After(env, w, s).calls.Keys == {0} && Creates(env, After(env, w, s).calls[0], id, key)
  {
    SubmitEnabled(env, w, id, key, s);
    SubmitCreates(env, w, id, key, After(env, w, s));
  }

  lemma SubmitCommits(env: Env, w: World, id: string, key: string)
    requires w.calls.Keys == {0} && Creates(env, w.calls[0], id, key)
    requires key !in w.repo.index && id !in w.repo.intents && !Blank(key)
    ensures Enabled(env, w, CommitCreate(0))
    ensures Submitted(env, w, After(env, w, CommitCreate(0)), id, key)
  {
    NotEmpty(key);
  }

  /** One submission later: no call is under way, the key's operation is accepted, and the caller has its ID. */
  predicate Submitted(env: Env, w: World, end: World, id: string, key: string) {
    && end.calls == map[]
    && end.responses == w.responses + [Response(key, OperationId(key, env.digest))]
    && end.repo.intents.Keys == w.repo.intents.Keys + {id}
    && end.repo.index == w.repo.index[key := OperationId(key, env.digest)]
    && Holds(env, end, key, key)
  }

  /** The two steps of a submission with nothing in between. */
  lemma SubmitExtends(env: Env, worlds: seq<World>, steps: seq<Step>, id: string, key: string)
    returns (ws: seq<World>, ss: seq<Step>)
    requires IsRun(env, worlds, steps)
    requires Open(worlds[|steps|], id, key) && key in env.keys && !Blank(key) && id != ""
    ensures IsRun(env, ws, ss) && Submitted(env, worlds[|steps|], ws[|ss|], id, key)
  {
    var s := BeginSubmit(0, IntentFor(env, id, key), Draw("", ""), 0, 0);
    var w := worlds[|steps|];
    SubmitBegins(env, w, id, key, s);
    var mid := After(env, w, s);
    ExtendRun(env, worlds, steps, s);
    ws, ss := worlds + [mid], steps + [s];
    SubmitCommits(env, mid, id, key);
    ExtendRun(env, ws, ss, CommitCreate(0));
    ws, ss := ws + [After(env, mid, CommitCreate(0))], ss + [CommitCreate(0)];
  }

  lemma NotEmpty(key: string)
    requires !Blank(key)
    ensures key != ""
  {}

  lemma TakenOver(env: Env, w: World, j: string, k: string)
    requires Holds(env, w, j, k) && j != k
    ensures !IndexMirrors(w.repo)
  {}

  /** Two keys with one digest: the second submission takes over the operation that the index gives the first. */
  lemma CollisionBreaks(env: Env, j: string, k: string) returns (worlds: seq<World>, steps: seq<Step>)
    requires j in env.keys && k in env.keys && !Blank(j) && !Blank(k) && j != k && env.digest(j) == env.digest(k)
    ensures IsRun(env, worlds, steps) && !IndexMirrors(worlds[|steps|].repo)
  {
    worlds, steps := [Initial], [];
    worlds, steps := SubmitExtends(env, worlds, steps, "a", j);
    worlds, steps := SubmitExtends(env, worlds, steps, "b", k);
    assert OperationId(j, env.digest) == OperationId(k, env.digest);
    TakenOver(env, worlds[|steps|], j, k);
  }

  /** The index mirrors the keyed operations in every run exactly when no two submitted keys collide. */
  lemma MirrorsIffNoCollision(env: Env)
    requires HexDigests(env)
    ensures AlwaysMirrors(env) <==> NoCollision(env)
  {
    if NoCollision(env) {
      LawfulMirrors(env);
    } else {
      var j, k :| j in env.keys && k in env.keys && !Blank(j) && !Blank(k) && env.digest(j) == env.digest(k) && j != k;
      var worlds, steps := CollisionBreaks(env, j, k);
      assert !AllMirror(worlds);
    }
  }

  // ---------------------------------------------------------------- what holds whatever collides

  ghost predicate SoundWorld(w: World) {
    && Sound(w.repo)
    && (forall c | c in w.calls && w.calls[c].Creating? :: w.calls[c].intent.id != "" && w.calls[c].op.id != "")
  }

  lemma SubmitSound(env: Env, w: World, call: nat, intent: Intent, draw: Draw, now: int, at: int)
    requires SoundWorld(w)
    ensures SoundWorld(AfterSubmit(env, w, call, intent, draw, now, at))
  {
    var stored := AdmittedIntent(intent, draw, env.digest, now);
    assert ResourceId("intent", intent.key, draw.intent, env.digest)[0] == 'i';
    assert ResourceId("operation", intent.key, draw.operation, env.digest)[0] == 'o';
  }

  lemma SoundStep(env: Env, w: World, s: Step)
    requires Enabled(env, w, s) && SoundWorld(w)
    ensures SoundWorld(After(env, w, s))
  {
    if s.BeginSubmit? {
      SubmitSound(env, w, s.call, s.intent, s.draw, s.now, s.at);
    } else if s.CommitCreate? || s.CommitUpdate? {
      CommitSound(w, s.call);
    }
  }

  lemma CommitSound(w: World, call: nat)
    requires SoundWorld(w) && call in w.calls
    ensures w.calls[call].Creating? ==> SoundWorld(AfterCreate(w, call))
    ensures w.calls[call].Updating? ==> SoundWorld(AfterUpdate(w, call))
  {}

  lemma {:induction false} RunSound(env: Env, worlds: seq<World>, steps: seq<Step>, i: nat)
    requires IsRun(env, worlds, steps) && i < |worlds|
    ensures SoundWorld(worlds[i])
    decreases i
  {
    if i > 0 {
      RunSound(env, worlds, steps, i - 1);
      SoundStep(env, worlds[i - 1], steps[i - 1]);
    }
  }

  // ---------------------------------------------------------------- one proof per operation

  /** The ledger entry under this key holds the outcome evidence of the operation with this ID. */
  ghost predicate Proves(ledger: Ledger.State, key: string, snapshot: Operation, o: string) {
    && snapshot.id == o
    && key in ledger.proofs
    && OutcomeEvidence(snapshot) == Some(ledger.proofs[key].content)
  }

  lemma EntryProvesOneOperation(ledger: Ledger.State, k1: string, k2: string, a: Operation, b: Operation)
    requires Ledger.Valid(ledger) && IdIsTrimmed(a.id) && IdIsTrimmed(b.id) && a.id != b.id
    requires Proves(ledger, k1, a, a.id) && Proves(ledger, k2, b, b.id)
    ensures ledger.proofs[k1].chainPosition != ledger.proofs[k2].chainPosition
  {
    SamePositionSameContent(ledger, k1, k2);
    if ledger.proofs[k1].chainPosition == ledger.proofs[k2].chainPosition {
      EvidenceBindsOperation(a, b);
    }
  }

  lemma SamePositionSameContent(ledger: Ledger.State, k1: string, k2: string)
    requires Ledger.Valid(ledger) && k1 in ledger.proofs && k2 in ledger.proofs
    ensures ledger.proofs[k1].chainPosition == ledger.proofs[k2].chainPosition ==>
              ledger.proofs[k1].content == ledger.proofs[k2].content
  {
    assert Ledger.Committed(ledger, k1) && Ledger.Committed(ledger, k2);
  }

  /**
   The SUCCEEDED operation was read by step `t`, which found its outcome proven, and the ledger entry under
   `key` holds the outcome evidence of the operation exactly as that step read it.
   */
  ghost predicate RestsOn(env: Env, worlds: seq<World>, steps: seq<Step>, i: nat, o: string, t: nat, key: string)
    requires t < i < |worlds| == |steps| + 1 && o in worlds[i].repo.operations
    requires |worlds[i].repo.operations[o].transitions| > 0
  {
    && DecidesProven(env, worlds[t], steps[t], o, |worlds[i].repo.operations[o].transitions| - 1)
    && Proves(worlds[i].ledger, key, worlds[t].repo.operations[o], o)
  }

  lemma SucceededRestsOn(env: Env, worlds: seq<World>, steps: seq<Step>, i: nat, o: string) returns (t: nat, key: string)
    requires HexDigests(env) && IsRun(env, worlds, steps) && i < |worlds|
    requires o in worlds[i].repo.operations && worlds[i].repo.operations[o].state == Succeeded
    ensures |worlds[i].repo.operations[o].transitions| > 0 && t < i
    ensures RestsOn(env, worlds, steps, i, o, t, key) && IdIsTrimmed(o)
  {
    RunEvident(env, worlds, steps, i);
    StoredIsValid(worlds[i], o);
    var last := |worlds[i].repo.operations[o].transitions| - 1;
    var g;
    t, g := GuardedEntry(env, worlds, steps, i, o, last);
    key := g.proofKey;
  }

  /** Every SUCCEEDED operation rests on a ledger entry, and two of them on two different entries. */
  lemma OneProofPerOperation(env: Env, worlds: seq<World>, steps: seq<Step>, i: nat, o1: string, o2: string)
    returns (t1: nat, k1: string, t2: nat, k2: string)
    requires HexDigests(env) && IsRun(env, worlds, steps) && i < |worlds|
    requires o1 in worlds[i].repo.operations && worlds[i].repo.operations[o1].state == Succeeded
    requires o2 in worlds[i].repo.operations && worlds[i].repo.operations[o2].state == Succeeded
    ensures |worlds[i].repo.operations[o1].transitions| > 0 && |worlds[i].repo.operations[o2].transitions| > 0
    ensures t1 < i && RestsOn(env, worlds, steps, i, o1, t1, k1)
    ensures t2 < i && RestsOn(env, worlds, steps, i, o2, t2, k2)
    ensures o1 != o2 ==> worlds[i].ledger.proofs[k1].chainPosition != worlds[i].ledger.proofs[k2].chainPosition
  {
    t1, k1 := SucceededRestsOn(env, worlds, steps, i, o1);
    t2, k2 := SucceededRestsOn(env, worlds, steps, i, o2);
    if o1 != o2 {
      RunEvident(env, worlds, steps, i);
      EntryProvesOneOperation(worlds[i].ledger, k1, k2, worlds[t1].repo.operations[o1], worlds[t2].repo.operations[o2]);
    }
  }
}
