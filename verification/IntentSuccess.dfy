/** Which operations can succeed at all: the governed path, walked from submission to a proven outcome. */
module IntentSuccess {
  import opened Basics
  import opened GoText
  import opened Lifecycle
  import opened Operations
  import opened IntentRepository
  import opened IntentService
  import opened IntentRuns
  import Ledger
  import Decimal

  /** Nothing is under way, and the operation is stored as given. */
  predicate At(w: World, o: string, op: Operation) {
    w.calls == map[] && o in w.repo.operations && w.repo.operations[o] == op && op.id == o
  }

  /** A read step and its commit, with nothing in between, store what the read step prepared. */
  lemma UpdateExtends(env: Env, worlds: seq<World>, steps: seq<Step>, s: Step, o: string, written: Operation)
    returns (ws: seq<World>, ss: seq<Step>)
    requires IsRun(env, worlds, steps) && o in worlds[|steps|].repo.operations && written.id == o
    requires Enabled(env, worlds[|steps|], s)
    requires var w, v := worlds[|steps|], After(env, worlds[|steps|], s);
             && v.repo == w.repo && v.ledger == w.ledger
             && v.calls.Keys == {0} && v.calls[0].Updating? && v.calls[0].op == written
    ensures IsRun(env, ws, ss) && At(ws[|ss|], o, written) && ws[|ss|].ledger == worlds[|steps|].ledger
  {
    var v := After(env, worlds[|steps|], s);
    ws, ss := Extended(env, worlds, steps, s);
    ws, ss := Extended(env, ws, ss, CommitUpdate(0));
    assert ws[|ss|] == AfterUpdate(v, 0);
  }

  lemma TransitionExtends(env: Env, worlds: seq<World>, steps: seq<Step>, o: string, op: Operation, next: State, now: int)
    returns (ws: seq<World>, ss: seq<Step>)
    requires IsRun(env, worlds, steps) && At(worlds[|steps|], o, op)
    requires AllowedTransition(op.state, next) && EvidencePresent(op, next, Verifier(env, worlds[|steps|]), now)
    ensures IsRun(env, ws, ss) && At(ws[|ss|], o, Advanced(op, next, now, "", ""))
    ensures ws[|ss|].ledger == worlds[|steps|].ledger
  {
    var s := BeginTransition(0, o, next, "", "", now, now);
    ws, ss := UpdateExtends(env, worlds, steps, s, o, Advanced(op, next, now, "", ""));
  }

  // ---------------------------------------------------------------- what the controller provides

  function Repeated(c: char, n: nat): (s: string)
    ensures |s| == n && forall i | 0 <= i < n :: s[i] == c
  {
    if n == 0 then "" else Repeated(c, n - 1) + [c]
  }

  const Zeros := Repeated('0', 64)

  lemma ZerosAreADigest()
    ensures IsSha256(Zeros)
  {}

  /** The operation with a plan, a provider, an authorization until the deadline and an observed digest. */
  function Prepared(op: Operation, deadline: int): Operation {
    var planned := op.(planDigest := Zeros);
    Controlled(op, Zeros, Some(Provider("kind", "name")), Some(AuthorizationFor(planned, "grant", "subject", deadline)), Zeros)
  }

  /** What the walk needs of an operation, whatever its state. */
  predicate Equipped(op: Operation, now: int) {
    && AuthorizationValid(op, now)
    && op.provider == Some(Provider("kind", "name"))
    && op.planDigest == Zeros && op.observedDigest == Zeros && op.receipts == [] && !Blank(op.id)
  }

  lemma Words()
    ensures !Blank("kind") && !Blank("name") && !Blank("grant") && !Blank("subject")
    ensures !Blank("fleet.operation.verified")
  {
    StartsNotBlank("kind");
    StartsNotBlank("name");
    StartsNotBlank("grant");
    StartsNotBlank("subject");
    StartsNotBlank("fleet.operation.verified");
  }

  lemma PreparedIsEquipped(op: Operation, deadline: int, now: int)
    requires !Blank(op.actionClass) && !Blank(op.id) && !Blank(op.key) && op.receipts == [] && now < deadline
    ensures Equipped(Prepared(op, deadline), now)
  {
    Words();
    ZerosAreADigest();
    AuthorizationForIsValid(Prepared(op, deadline), "grant", "subject", deadline, now);
  }

  lemma MoveEquipped(env: Env, worlds: seq<World>, steps: seq<Step>, o: string, op: Operation, next: State, now: int)
    returns (ws: seq<World>, ss: seq<Step>, moved: Operation)
    requires IsRun(env, worlds, steps) && At(worlds[|steps|], o, op) && Equipped(op, now)
    requires AllowedTransition(op.state, next) && next != Succeeded
    ensures IsRun(env, ws, ss) && At(ws[|ss|], o, moved) && Equipped(moved, now) && moved.state == next && moved.key == op.key
    ensures ws[|ss|].ledger == worlds[|steps|].ledger
  {
    Words();
    ZerosAreADigest();
    moved := Advanced(op, next, now, "", "");
    ws, ss := TransitionExtends(env, worlds, steps, o, op, next, now);
  }

  lemma PathIsAllowed(k: nat)
    requires k < |SuccessPath| - 1
    ensures AllowedTransition(SuccessPath[k], SuccessPath[k + 1])
    ensures k < |SuccessPath| - 2 ==> SuccessPath[k + 1] != Succeeded
    ensures k == |SuccessPath| - 2 ==> SuccessPath[k] == EvidencePending
  {}

  lemma {:induction false} Walk(env: Env, worlds: seq<World>, steps: seq<Step>, o: string, op: Operation, k: nat, now: int)
    returns (ws: seq<World>, ss: seq<Step>, moved: Operation)
    requires IsRun(env, worlds, steps) && At(worlds[|steps|], o, op) && Equipped(op, now)
    requires k < |SuccessPath| - 1 && op.state == SuccessPath[k]
    ensures IsRun(env, ws, ss) && At(ws[|ss|], o, moved) && Equipped(moved, now)
    ensures moved.state == EvidencePending && moved.key == op.key
    decreases |SuccessPath| - k
  {
    PathIsAllowed(k);
    if k == |SuccessPath| - 2 {
      ws, ss, moved := worlds, steps, op;
    } else {
      ws, ss, moved := MoveEquipped(env, worlds, steps, o, op, SuccessPath[k + 1], now);
      ws, ss, moved := Walk(env, ws, ss, o, moved, k + 1, now);
    }
  }

  // ---------------------------------------------------------------- the outcome

  /** The ledger entry that proves the operation's outcome, and the receipt for it. */
  function OutcomeDecision(op: Operation): Ledger.Decision
    requires OutcomeEvidence(op).Some?
  {
    Ledger.Decision("fleet.operation.verified", "", "", op.correlationId, OutcomeEvidence(op).value, op.observedDigest)
  }

  function OutcomeReceipt(op: Operation, n: nat, at: int): Receipt {
    Receipt("entry-" + Decimal.Digits(n), Ledger.EntryHash(Ledger.Issued, n), "fleet.operation.verified", n, at,
            op.observedDigest, Outcome)
  }

  lemma OutcomeReceiptVerifies(op: Operation, ledger: Ledger.State, at: int)
    requires !Blank(op.id) && op.planDigest == Zeros && op.observedDigest == Zeros && at >= 1
    ensures OutcomeEvidence(op).Some?
    ensures ReceiptVerified(op, OutcomeReceipt(op, ledger.counter + 1, at),
                            Some(Ledger.Appended(ledger, Ledger.Issued, OutcomeDecision(op), at)))
  {
    Words();
    ZerosAreADigest();
    var n := ledger.counter + 1;
    StartsNotBlank("entry-" + Decimal.Digits(n));
    StartsNotBlank(Ledger.EntryHash(Ledger.Issued, n));
  }

  lemma AttachExtends(env: Env, worlds: seq<World>, steps: seq<Step>, o: string, op: Operation, receipt: Receipt)
    returns (ws: seq<World>, ss: seq<Step>)
    requires IsRun(env, worlds, steps) && At(worlds[|steps|], o, op) && op.receipts == []
    requires ReceiptVerified(op, receipt, Verifier(env, worlds[|steps|]))
    ensures IsRun(env, ws, ss) && At(ws[|ss|], o, Attached(op, receipt, 0)) && ws[|ss|].ledger == worlds[|steps|].ledger
  {
    assert FirstClash(op.receipts, receipt).None?;
    ws, ss := UpdateExtends(env, worlds, steps, BeginAttach(0, o, receipt, 0), o, Attached(op, receipt, 0));
  }

  /** The attached receipt proves the outcome: nothing it is compared with has changed. */
  lemma AttachedProves(op: Operation, receipt: Receipt, ledger: Option<Ledger.State>)
    requires ReceiptVerified(op, receipt, ledger) && receipt.purpose.Outcome?
    ensures OutcomeProven(Attached(op, receipt, 0), ledger)
  {
    var attached := Attached(op, receipt, 0);
    assert EvidenceDoc(attached) == EvidenceDoc(op);
    assert ReceiptVerified(attached, receipt, ledger);
    assert attached.receipts[|op.receipts|] == receipt;
  }

  lemma Finish(env: Env, worlds: seq<World>, steps: seq<Step>, o: string, op: Operation, now: int)
    returns (ws: seq<World>, ss: seq<Step>)
    requires env.verifier && IsRun(env, worlds, steps) && At(worlds[|steps|], o, op)
    requires Equipped(op, now) && op.state == EvidencePending
    ensures IsRun(env, ws, ss) && Succeeds(ws[|ss|], op.key)
  {
    var ledger := worlds[|steps|].ledger;
    OutcomeReceiptVerifies(op, ledger, 1);
    var receipt := OutcomeReceipt(op, ledger.counter + 1, 1);
    ws, ss := Extended(env, worlds, steps, WriteLedger(Ledger.Issued, OutcomeDecision(op), 1));
    assert At(ws[|ss|], o, op);
    ws, ss := AttachExtends(env, ws, ss, o, op, receipt);
    AttachedProves(op, receipt, Verifier(env, ws[|ss|]));
    ws, ss := TransitionExtends(env, ws, ss, o, Attached(op, receipt, 0), Succeeded, now);
    assert ws[|ss|].repo.operations[o].key == op.key;
  }

  // ---------------------------------------------------------------- the theorem

  /** An operation of this key has succeeded. */
  ghost predicate Succeeds(w: World, key: string) {
    exists o | o in w.repo.operations :: w.repo.operations[o].key == key && w.repo.operations[o].state == Succeeded
  }

  ghost predicate CanSucceed(env: Env, key: string) {
    exists worlds: seq<World>, steps: seq<Step> :: IsRun(env, worlds, steps) && Succeeds(worlds[|steps|], key)
  }

  /** A first submission, accepted. */
  lemma FirstSubmission(env: Env, key: string) returns (worlds: seq<World>, steps: seq<Step>, o: string, op: Operation)
    requires HexDigests(env) && key in env.keys && !Blank(key)
    ensures IsRun(env, worlds, steps) && At(worlds[|steps|], o, op)
    ensures op.key == key && op.state == Accepted && op.receipts == [] && !Blank(op.actionClass) && !Blank(op.id)
  {
    var s := BeginSubmit(0, IntentFor(env, "a", key), Draw("", ""), 0, 0);
    var stored := IntentFor(env, "a", key).(createdAt := Some(0));
    o := OperationId(key, env.digest);
    op := AdmittedOperation(stored, o, env.policy, 0, 0);
    FirstOperation(env, key, stored, o, op);
    SubmitEnabled(env, Initial, "a", key, s);
    worlds, steps := Extended(env, [Initial], [], s);
    FirstBegins(env, key, stored, op, worlds[1]);
    worlds, steps := Extended(env, worlds, steps, CommitCreate(0));
    FirstCommits(key, stored, op, worlds[1]);
  }

  lemma FirstOperation(env: Env, key: string, stored: Intent, o: string, op: Operation)
    requires stored == IntentFor(env, "a", key).(createdAt := Some(0)) && op == AdmittedOperation(stored, o, env.policy, 0, 0)
    requires o == OperationId(key, env.digest)
    ensures op.id == o && op.key == key && op.state == Accepted && op.receipts == []
    ensures !Blank(op.actionClass) && !Blank(op.id)
  {
    AlwaysAccepted(env, "a", key);
    StartsNotBlank("fleet." + "");
    StartsNotBlank(o);
  }

  lemma FirstBegins(env: Env, key: string, stored: Intent, op: Operation, v: World)
    requires !Blank(key) && v == AfterSubmit(env, Initial, 0, IntentFor(env, "a", key), Draw("", ""), 0, 0)
    requires stored == IntentFor(env, "a", key).(createdAt := Some(0))
    requires op == AdmittedOperation(stored, OperationId(key, env.digest), env.policy, 0, 0)
    ensures v.repo == EmptyRepo && v.calls.Keys == {0}
    ensures v.calls[0].Creating? && v.calls[0].intent == stored && v.calls[0].op == op
  {
    AlwaysAccepted(env, "a", key);
  }

  lemma FirstCommits(key: string, stored: Intent, op: Operation, v: World)
    requires v.repo == EmptyRepo && v.calls.Keys == {0}
    requires v.calls[0].Creating? && v.calls[0].intent == stored && v.calls[0].op == op
    ensures At(AfterCreate(v, 0), op.id, op)
  {}

  /** With a verifier every key that is not blank has a run in which its operation succeeds. */
  lemma SomeRunSucceeds(env: Env, key: string) returns (worlds: seq<World>, steps: seq<Step>)
    requires HexDigests(env) && key in env.keys && !Blank(key) && env.verifier
    ensures IsRun(env, worlds, steps) && Succeeds(worlds[|steps|], key)
  {
    var o, op;
    worlds, steps, o, op := FirstSubmission(env, key);
    var ready := Prepared(op, 1);
    PreparedIsEquipped(op, 1, 0);
    var s := BeginControl(0, o, ready.planDigest, ready.provider, ready.authorization, ready.observedDigest);
    worlds, steps := UpdateExtends(env, worlds, steps, s, o, ready);
    worlds, steps, op := Walk(env, worlds, steps, o, ready, 0, 0);
    worlds, steps := Finish(env, worlds, steps, o, op, 0);
  }

  /** Where a succeeded history was authorized and where it ended. */
  lemma Stages(history: seq<Transition>) returns (authorized: nat, end: nat)
    requires ValidHistory(history, Succeeded)
    ensures authorized < |history| && history[authorized].state == Authorized
    ensures end < |history| && history[end].state == Succeeded
  {
    SucceededHistory(history);
    authorized, end := |history| - |SuccessPath| + 3, |history| - 1;
    assert history[authorized].state == SuccessPath[3];
  }

  lemma ProofNeedsVerifier(env: Env, w: World, s: Step, o: string, length: nat)
    requires DecidesProven(env, w, s, o, length)
    ensures env.verifier
  {}

  /** A succeeded operation was authorized for its own key and proven by a verifier. */
  lemma SuccessNeeds(env: Env, worlds: seq<World>, steps: seq<Step>, o: string)
    requires HexDigests(env) && IsRun(env, worlds, steps) && o in worlds[|steps|].repo.operations
    requires worlds[|steps|].repo.operations[o].state == Succeeded
    ensures env.verifier && !Blank(worlds[|steps|].repo.operations[o].key)
  {
    RunEvident(env, worlds, steps, |steps|);
    StoredIsValid(worlds[|steps|], o);
    var authorized, end := Stages(worlds[|steps|].repo.operations[o].transitions);
    var t, g := GuardedEntry(env, worlds, steps, |steps|, o, end);
    ProofNeedsVerifier(env, worlds[t], steps[t], o, end);
    AuthorizedNeedsKey(env, worlds, steps, o, authorized);
  }

  lemma AuthorizedNeedsKey(env: Env, worlds: seq<World>, steps: seq<Step>, o: string, j: nat)
    requires HexDigests(env) && IsRun(env, worlds, steps) && o in worlds[|steps|].repo.operations
    requires j < |worlds[|steps|].repo.operations[o].transitions|
    requires worlds[|steps|].repo.operations[o].transitions[j].state == Authorized
    ensures !Blank(worlds[|steps|].repo.operations[o].key)
  {
    var t, g := GuardedEntry(env, worlds, steps, |steps|, o, j);
    assert g.snapshot.key == worlds[|steps|].repo.operations[o].key;
  }

  /** A submitted key's operation can succeed if and only if the key is not blank and receipts can be verified. */
  lemma SucceedsIff(env: Env, key: string)
    requires HexDigests(env) && key in env.keys
    ensures CanSucceed(env, key) <==> !Blank(key) && env.verifier
  {
    if CanSucceed(env, key) {
      var worlds: seq<World>, steps: seq<Step> :| IsRun(env, worlds, steps) && Succeeds(worlds[|steps|], key);
      var o :| o in worlds[|steps|].repo.operations && worlds[|steps|].repo.operations[o].key == key &&
               worlds[|steps|].repo.operations[o].state == Succeeded;
      SuccessNeeds(env, worlds, steps, o);
    } else if !Blank(key) && env.verifier {
      var worlds, steps := SomeRunSucceeds(env, key);
      assert false;
    }
  }
}
