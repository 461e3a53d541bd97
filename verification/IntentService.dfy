/** Intent admission and the guarded operation lifecycle (pkg/intents/service.go, pkg/intents/evaluator.go). */
module IntentService {
  import opened Basics
  import opened GoText
  import opened Lifecycle
  import opened Operations
  import opened IntentRepository
  import Ledger

  datatype Policy = Policy(minConfidence: real, maxReplicas: int, requireHumanGate: bool)

  /** What the service draws from outside: the truncated SHA-256 of a key, in hexadecimal. */
  type Digest = string -> string

  /** The two random identifiers a submission draws, of which it uses those it needs. */
  datatype Draw = Draw(intent: string, operation: string)

  datatype Decision = Decision(next: State, reason: string)

  /** `Evaluate`; the figures quoted in its reasons are left out. */
  function Evaluate(intent: Intent, policy: Policy): Decision {
    if intent.confidence < policy.minConfidence then Decision(Deferred, "confidence below threshold")
    else if intent.targetReplicas > policy.maxReplicas || intent.desiredReplicas > policy.maxReplicas
    then Decision(Rejected, "requested replicas exceed max")
    else if intent.kind == "alert" && intent.severity == "critical" && policy.requireHumanGate
    then Decision(Deferred, "critical alert requires human approval")
    else Decision(Accepted, "policy checks passed; awaiting governance and observed actuation")
  }

  function Admit(intent: Intent, policy: Policy, now: int): Decision {
    if intent.expiresAt.Some? && intent.expiresAt.value <= now
    then Decision(Expired, "intent expired before admission")
    else Evaluate(intent, policy)
  }

  predicate HasExpired(intent: Intent, now: int) {
    intent.expiresAt.Some? && intent.expiresAt.value <= now
  }

  predicate WithinReplicas(intent: Intent, policy: Policy) {
    intent.targetReplicas <= policy.maxReplicas && intent.desiredReplicas <= policy.maxReplicas
  }

  /** What an admission can come to, and exactly when it comes to it. */
  predicate Verdict(intent: Intent, policy: Policy, now: int, state: State) {
    && (state == Expired <==> HasExpired(intent, now))
    && (state == Accepted <==>
          && !HasExpired(intent, now) && intent.confidence >= policy.minConfidence && WithinReplicas(intent, policy)
          && !(policy.requireHumanGate && intent.kind == "alert" && intent.severity == "critical"))
    && (state == Rejected <==>
          !HasExpired(intent, now) && intent.confidence >= policy.minConfidence && !WithinReplicas(intent, policy))
    && (state == Expired || state == Accepted || state == Rejected || state == Deferred)
  }

  lemma AdmissionVerdict(intent: Intent, policy: Policy, now: int)
    ensures Verdict(intent, policy, now, Admit(intent, policy, now).next)
  {}

  /** The defaults that are filled in have no say in the verdict. */
  lemma StoredVerdict(intent: Intent, draw: Draw, digest: Digest, policy: Policy, now: int)
    ensures Verdict(intent, policy, now, Admit(AdmittedIntent(intent, draw, digest, now), policy, now).next)
  {
    AdmissionVerdict(AdmittedIntent(intent, draw, digest, now), policy, now);
  }

  /** `operationResourceID`: derived from a key that is not blank, otherwise random. */
  function ResourceId(prefix: string, key: string, random: string, digest: Digest): string {
    prefix + "-" + (if Blank(key) then random else digest(key))
  }

  function OperationId(key: string, digest: Digest): string {
    "operation-" + digest(key)
  }

  /** `actionClass`. */
  function ActionClass(kind: string): string {
    if kind == "pre_warm" then "fleet.prewarm" else "fleet." + kind
  }

  /** The intent as it is stored, with its defaults filled in. */
  function AdmittedIntent(intent: Intent, draw: Draw, digest: Digest, now: int): Intent {
    var id := if intent.id == "" then ResourceId("intent", intent.key, draw.intent, digest) else intent.id;
    intent.(id := id,
            correlationId := if intent.correlationId == "" then id else intent.correlationId,
            createdAt := if intent.createdAt.None? then Some(now) else intent.createdAt)
  }

  function ReceivedOperation(intent: Intent, id: string, now: int): Operation {
    Operation(id, id, intent.id, intent.correlationId, intent.key, ActionClass(intent.kind), Received,
              "", None, "", None, "", [], now, now,
              [Transition(1, Received, now, "intent received", "fleet-api", "")])
  }

  /** The operation `Submit` creates for an admitted intent. */
  function AdmittedOperation(intent: Intent, id: string, policy: Policy, now: int, at: int): (op: Operation)
    ensures op.id == id && op.key == intent.key
    ensures ValidHistory(op.transitions, op.state)
  {
    var d := Admit(intent, policy, now);
    Advanced(ReceivedOperation(intent, id, now), d.next, at, d.reason, "fleet-policy")
  }

  /** What a submission leaves open is filled in, and what it says is kept. */
  lemma DefaultsFilled(intent: Intent, draw: Draw, digest: Digest, now: int)
    ensures var stored := AdmittedIntent(intent, draw, digest, now);
            && stored.(id := intent.id, correlationId := intent.correlationId, createdAt := intent.createdAt) == intent
            && (if intent.id != "" then stored.id == intent.id
                else stored.id == "intent-" + (if Blank(intent.key) then draw.intent else digest(intent.key)))
            && (if intent.correlationId != "" then stored.correlationId == intent.correlationId
                else stored.correlationId == stored.id)
            && (if intent.createdAt.Some? then stored.createdAt == intent.createdAt else stored.createdAt == Some(now))
  {}

  /** A new operation belongs to its intent, is its own object, and has been received and then decided upon. */
  lemma NewOperation(intent: Intent, id: string, policy: Policy, now: int, at: int)
    ensures var op := AdmittedOperation(intent, id, policy, now, at);
            && op.objectUid == id && op.intentId == intent.id && op.correlationId == intent.correlationId
            && op.createdAt == now && op.updatedAt == at && op.receipts == [] && op.authorization == None && op.planDigest == ""
            && |op.transitions| == 2 && op.transitions[0].state == Received && op.transitions[0].at == now
            && op.transitions[1] == Transition(2, op.state, at, Admit(intent, policy, now).reason, "fleet-policy", "")
    ensures intent.kind == "pre_warm" ==> AdmittedOperation(intent, id, policy, now, at).actionClass == "fleet.prewarm"
    ensures intent.kind != "pre_warm" ==> AdmittedOperation(intent, id, policy, now, at).actionClass == "fleet." + intent.kind
  {}

  datatype Submission = Submission(
    intentId: string, operationId: string, correlationId: string, state: State, reason: string)

  function SubmissionOf(op: Operation, reason: string): Submission {
    Submission(op.intentId, op.id, op.correlationId, op.state, reason)
  }

  /** `Transition`: the operation it would store, or the reason it refuses. */
  function TransitionOutcome(r: Repo, ledger: Option<Ledger.State>, id: string, next: State,
                             reason: string, actor: string, now: int, at: int): Result<Operation> {
    if id !in r.operations then Err(NotFound)
    else
      var op := r.operations[id];
      if AllowedTransition(op.state, next) && EvidencePresent(op, next, ledger, now)
      then Ok(Advanced(op, next, at, reason, actor))
      else Err(InvalidTransition)
  }

  /** A transition changes the state, the time of the last update and the end of the history, and nothing else. */
  lemma TransitionChanges(r: Repo, ledger: Option<Ledger.State>, id: string, next: State, reason: string, actor: string,
                          now: int, at: int)
    requires TransitionOutcome(r, ledger, id, next, reason, actor, now, at).Ok?
    ensures id in r.operations
    ensures var op, moved := r.operations[id], TransitionOutcome(r, ledger, id, next, reason, actor, now, at).value;
            && AllowedTransition(op.state, next) && moved.state == next && moved.updatedAt == at
            && moved.transitions[..|moved.transitions| - 1] == op.transitions
            && moved.transitions[|op.transitions|] == Transition(|op.transitions| + 1, next, at, reason, actor, "")
            && moved.(state := op.state, updatedAt := op.updatedAt, transitions := op.transitions) == op
  {}

  /** With an authorization for its own plan, a governed operation goes on if and only if the deadline has not passed. */
  lemma GovernedUntilDeadline(r: Repo, ledger: Option<Ledger.State>, id: string, next: State, reason: string, actor: string,
                              now: int, at: int, grantId: string, subject: string, deadline: int)
    requires id in r.operations && !Blank(grantId) && !Blank(subject)
    requires var op := r.operations[id];
             && op.authorization == Some(AuthorizationFor(op, grantId, subject, deadline)) && IsSha256(op.planDigest)
             && !Blank(op.actionClass) && !Blank(op.id) && !Blank(op.key)
             && ((op.state == GovernancePending && next == Authorized) || (op.state == Authorized && next == Actuating))
    ensures TransitionOutcome(r, ledger, id, next, reason, actor, now, at).Ok? <==> now < deadline
  {
    AuthorizationForIsValid(r.operations[id], grantId, subject, deadline, now);
  }

  predicate Clashes(a: Receipt, b: Receipt) {
    a.entryId == b.entryId || a.entryHash == b.entryHash
  }

  /** The first attached receipt for the same entry, if any. */
  function FirstClash(receipts: seq<Receipt>, r: Receipt): (i: Option<nat>)
    ensures i.Some? ==> i.value < |receipts| && Clashes(receipts[i.value], r)
    ensures i.None? ==> forall j | 0 <= j < |receipts| :: !Clashes(receipts[j], r)
    ensures i.Some? ==> forall j | 0 <= j < i.value :: !Clashes(receipts[j], r)
  {
    if receipts == [] then None
    else
      var n := |receipts| - 1;
      var front := FirstClash(receipts[..n], r);
      if front.Some? then front else if Clashes(receipts[n], r) then Some(n) else None
  }

  method FindClash(receipts: seq<Receipt>, r: Receipt) returns (i: Option<nat>)
    ensures i == FirstClash(receipts, r)
  {
    for k := 0 to |receipts|
      invariant forall j | 0 <= j < k :: !Clashes(receipts[j], r)
    {
      if Clashes(receipts[k], r) {
        return Some(k);
      }
    }
    i := None;
  }

  function Attached(op: Operation, r: Receipt, now: int): Operation {
    var n := |op.transitions|;
    op.(ledgerEntryId := r.entryId,
        receipts := op.receipts + [r],
        updatedAt := now,
        transitions := if n == 0 then []
                       else op.transitions[n - 1 := op.transitions[n - 1].(ledgerEntryId := r.entryId)])
  }

  /** A verified receipt is attached once; another receipt for the same entry conflicts. */
  function Merged(op: Operation, receipt: Receipt, now: int): Result<Operation> {
    match FirstClash(op.receipts, receipt)
    case None => Ok(Attached(op, receipt, now))
    case Some(i) => if op.receipts[i] == receipt then Ok(op) else Err(ReceiptConflict)
  }

  /** `AttachLedgerReceipt`: a replayed receipt changes nothing; a conflicting one is refused. */
  function AttachOutcome(r: Repo, ledger: Option<Ledger.State>, id: string, receipt: Receipt, now: int): Result<Operation> {
    if id !in r.operations then Err(NotFound)
    else
      var op := r.operations[id];
      if !ReceiptVerified(op, receipt, ledger) then Err(ReceiptRejected) else Merged(op, receipt, now)
  }

  /** Attaching adds the receipt and stamps its entry on the operation and on the end of its history. */
  lemma AttachChanges(op: Operation, receipt: Receipt, now: int)
    ensures var written := Attached(op, receipt, now);
            && written.receipts == op.receipts + [receipt] && written.ledgerEntryId == receipt.entryId && written.updatedAt == now
            && |written.transitions| == |op.transitions|
            && (forall i | 0 <= i < |op.transitions| - 1 :: written.transitions[i] == op.transitions[i])
            && (op.transitions != [] ==>
                  written.transitions[|op.transitions| - 1] ==
                  op.transitions[|op.transitions| - 1].(ledgerEntryId := receipt.entryId))
            && written.(receipts := op.receipts, ledgerEntryId := op.ledgerEntryId, updatedAt := op.updatedAt,
                        transitions := op.transitions) == op
  {}

  lemma VerifiedAfterAttach(op: Operation, receipt: Receipt, other: Receipt, ledger: Option<Ledger.State>, now: int)
    ensures ReceiptVerified(Attached(op, receipt, now), other, ledger) <==> ReceiptVerified(op, other, ledger)
  {
    assert EvidenceDoc(Attached(op, receipt, now)) == EvidenceDoc(op);
  }

  lemma {:induction false} ClashAtEnd(receipts: seq<Receipt>, r: Receipt, other: Receipt)
    requires FirstClash(receipts, other).None? && Clashes(r, other)
    ensures FirstClash(receipts + [r], other) == Some(|receipts|)
  {
    assert (receipts + [r])[..|receipts|] == receipts;
  }

  /** Once attached, a receipt is accepted again without a change, and another one for its entry is refused. */
  lemma AttachedOnce(r: Repo, ledger: Option<Ledger.State>, id: string, receipt: Receipt, now: int,
                     other: Receipt, later: int)
    requires id in r.operations && r.operations[id].id == id && FirstClash(r.operations[id].receipts, receipt).None?
    requires AttachOutcome(r, ledger, id, receipt, now).Ok?
    requires ReceiptVerified(r.operations[id], other, ledger) && FirstClash(r.operations[id].receipts, other).None?
    requires other.entryId == receipt.entryId || other.entryHash == receipt.entryHash
    ensures var written := AttachOutcome(r, ledger, id, receipt, now).value;
            Updated(r, written).Ok? &&
            AttachOutcome(Updated(r, written).value, ledger, id, other, later) ==
              if other == receipt then Ok(written) else Err(ReceiptConflict)
  {
    var op := r.operations[id];
    VerifiedAfterAttach(op, receipt, other, ledger, now);
    ClashAtEnd(op.receipts, receipt, other);
  }

  class Service {
    const repository: MemoryRepository
    const proofs: Ledger.InMemoryLedgerClient?
    const policy: Policy
    const digest: Digest

    constructor (repository: MemoryRepository, proofs: Ledger.InMemoryLedgerClient?, policy: Policy, digest: Digest)
      ensures this.repository == repository && this.proofs == proofs
      ensures this.policy == policy && this.digest == digest
    {
      this.repository, this.proofs, this.policy, this.digest := repository, proofs, policy, digest;
    }

    ghost function LedgerState(): Option<Ledger.State>
      reads proofs
    {
      if proofs == null then None else Some(proofs.Contents())
    }

    /** The second half of `Submit`: create, or answer with the operation another call created first. */
    method CreateOrReplay(intent: Intent, operation: Operation, reason: string) returns (r: Result<Submission>)
      modifies repository
      ensures var made := Created(old(repository.Contents()), intent, operation);
              if made.Ok? then repository.Contents() == made.value && r == Ok(SubmissionOf(operation, reason))
              else
                && repository.Contents() == old(repository.Contents())
                && var found := Found(repository.Contents(), intent.key);
                   r == if intent.key != "" && found.Ok?
                        then Ok(SubmissionOf(found.value, "idempotent concurrent replay")) else Err(made.error)
    {
      var created := repository.Create(intent, operation);
      if created.Err? {
        if intent.key != "" {
          var existing := repository.FindByIdempotencyKey(intent.key);
          if existing.Ok? {
            return Ok(SubmissionOf(existing.value, "idempotent concurrent replay"));
          }
        }
        return Err(created.error);
      }
      r := Ok(SubmissionOf(operation, reason));
    }

    /** `Submit`, with no other call in between its two steps. */
    method Submit(intent: Intent, draw: Draw, now: int, at: int) returns (r: Result<Submission>)
      requires Sound(repository.Contents())
      modifies repository
      ensures old(Found(repository.Contents(), intent.key)).Ok? ==>
        && repository.Contents() == old(repository.Contents())
        && r == Ok(SubmissionOf(old(Found(repository.Contents(), intent.key)).value, "idempotent replay"))
      ensures old(Found(repository.Contents(), intent.key)).Err? ==>
        var stored := AdmittedIntent(intent, draw, digest, now);
        var op := AdmittedOperation(stored, ResourceId("operation", intent.key, draw.operation, digest), policy, now, at);
        if stored.id in old(repository.intents)
        then r == Err(IntentExists) && repository.Contents() == old(repository.Contents())
        else
          && r == Ok(SubmissionOf(op, Admit(stored, policy, now).reason))
          && Created(old(repository.Contents()), stored, op) == Ok(repository.Contents())
      ensures old(Found(repository.Contents(), intent.key)).Err? && r.Ok? ==>
        Verdict(intent, policy, now, r.value.state)
    {
      if intent.key != "" {
        var existing := repository.FindByIdempotencyKey(intent.key);
        if existing.Ok? {
          return Ok(SubmissionOf(existing.value, "idempotent replay"));
        }
      }
      var stored := AdmittedIntent(intent, draw, digest, now);
      var op := AdmittedOperation(stored, ResourceId("operation", intent.key, draw.operation, digest), policy, now, at);
      StoredVerdict(intent, draw, digest, policy, now);
      r := CreateOrReplay(stored, op, Admit(stored, policy, now).reason);
    }

    method VerifyLedgerReceipt(operation: Operation, receipt: Receipt) returns (ok: bool)
      ensures ok == ReceiptVerified(operation, receipt, LedgerState())
    {
      if !ReceiptComplete(receipt) || receipt.entryType != ExpectedEntryType(operation.actionClass, receipt.purpose) {
        return false;
      }
      if proofs == null {
        return false;
      }
      var verification := proofs.VerifyProof(receipt.entryHash, receipt.entryType);
      if verification.None? {
        return false;
      }
      var p := verification.value;
      if p.entryType != receipt.entryType || (p.entryId != "" && p.entryId != receipt.entryId) {
        return false;
      }
      if p.correlationId != operation.correlationId || p.inputHash != receipt.inputHash {
        return false;
      }
      if receipt.purpose.Outcome? && !OutcomeBound(operation, receipt, p.content) {
        return false;
      }
      ok := p.chainPosition == receipt.chainPosition && p.writtenAt == receipt.writtenTs;
    }

    /** `verifyReceiptPurpose` for outcome receipts: one verified receipt is enough. */
    method VerifyOutcome(operation: Operation) returns (ok: bool)
      ensures ok == OutcomeProven(operation, LedgerState())
    {
      for i := 0 to |operation.receipts|
        invariant forall j | 0 <= j < i ::
          !(operation.receipts[j].purpose.Outcome? && ReceiptVerified(operation, operation.receipts[j], LedgerState()))
      {
        var receipt := operation.receipts[i];
        if receipt.purpose.Outcome? {
          var verified := VerifyLedgerReceipt(operation, receipt);
          if verified {
            return true;
          }
        }
      }
      ok := false;
    }

    method ValidateTransitionEvidence(operation: Operation, next: State, now: int) returns (ok: bool)
      ensures ok == EvidencePresent(operation, next, LedgerState(), now)
    {
      match next {
        case Planned =>
          ok := IsSha256(operation.planDigest) && operation.provider.Some?
                && !Blank(operation.provider.value.kind) && !Blank(operation.provider.value.name);
        case Authorized => ok := AuthorizationValid(operation, now);
        case Actuating => ok := AuthorizationValid(operation, now);
        case Succeeded => ok := VerifyOutcome(operation);
        case _ => ok := true;
      }
    }

    method Transition(id: string, next: State, reason: string, actor: string, now: int, at: int) returns (r: Result<Operation>)
      requires Sound(repository.Contents())
      modifies repository`operations
      ensures r == TransitionOutcome(old(repository.Contents()), LedgerState(), id, next, reason, actor, now, at)
      ensures repository.Contents() ==
              if r.Ok? then Updated(old(repository.Contents()), r.value).value else old(repository.Contents())
    {
      var read := repository.GetOperation(id);
      if read.Err? {
        return read;
      }
      var operation := read.value;
      if !AllowedTransition(operation.state, next) {
        return Err(InvalidTransition);
      }
      var valid := ValidateTransitionEvidence(operation, next, now);
      if !valid {
        return Err(InvalidTransition);
      }
      operation := Advanced(operation, next, at, reason, actor);
      var written := repository.UpdateOperation(operation);
      r := Ok(operation);
    }

    method Approve(id: string, actor: string, now: int, at: int) returns (r: Result<Operation>)
      requires Sound(repository.Contents())
      modifies repository`operations
      ensures r == TransitionOutcome(old(repository.Contents()), LedgerState(), id, Accepted,
                                     "human approval recorded", actor, now, at)
      ensures r.Ok? ==> old(repository.operations)[id].state in {Received, Deferred}
      ensures repository.Contents() ==
              if r.Ok? then Updated(old(repository.Contents()), r.value).value else old(repository.Contents())
    {
      r := Transition(id, Accepted, "human approval recorded", actor, now, at);
    }

    /** Cancelling fails the operation before actuation and rolls it back from then on. */
    method Cancel(id: string, actor: string, now: int, at: int) returns (r: Result<Operation>)
      requires Sound(repository.Contents())
      modifies repository`operations
      ensures r == Err(NotFound) <==> id !in old(repository.operations)
      ensures id in old(repository.operations) ==>
        var was := old(repository.operations)[id].state;
        && (r.Ok? && r.value.state == RollingBack <==> was in {Actuating, Observing, Verified, EvidencePending})
        && (r.Ok? && r.value.state == Failed <==> was in {Deferred, Accepted, Planned, GovernancePending, Authorized})
        && (r.Ok? ==> r.value.state == RollingBack || r.value.state == Failed)
      ensures r.Err? ==> repository.Contents() == old(repository.Contents())
      ensures r.Ok? ==> Updated(old(repository.Contents()), r.value) == Ok(repository.Contents())
    {
      var read := repository.GetOperation(id);
      if read.Err? {
        return read;
      }
      var state := read.value.state;
      var next := Failed;
      if state == Actuating || state == Observing || state == Verified || state == EvidencePending {
        next := RollingBack;
      }
      r := Transition(id, next, "operation cancelled", actor, now, at);
    }

    method AttachLedgerReceipt(id: string, receipt: Receipt, now: int) returns (r: Result<Operation>)
      requires Sound(repository.Contents())
      modifies repository`operations
      ensures r == AttachOutcome(old(repository.Contents()), LedgerState(), id, receipt, now)
      ensures repository.Contents() ==
              if r.Ok? then Updated(old(repository.Contents()), r.value).value else old(repository.Contents())
    {
      var read := repository.GetOperation(id);
      if read.Err? {
        return read;
      }
      var operation := read.value;
      var verified := VerifyLedgerReceipt(operation, receipt);
      if !verified {
        return Err(ReceiptRejected);
      }
      var clash := FindClash(operation.receipts, receipt);
      if clash.Some? {
        if operation.receipts[clash.value] == receipt {
          assert repository.operations == repository.operations[id := operation];
          return Ok(operation);
        }
        return Err(ReceiptConflict);
      }
      operation := Attached(operation, receipt, now);
      var written := repository.UpdateOperation(operation);
      r := Ok(operation);
    }
  }
}
