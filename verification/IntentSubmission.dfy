/** Submitting an intent with admission evidence, and undoing it when the ledger fails (pkg/server/handlers_intents.go). */
module IntentSubmission {
  import opened Basics
  import opened GoText
  import Decimal
  import opened Operations
  import opened IntentRepository
  import opened IntentService
  import IntentRuns
  import Ledger

  /** A step of `submitIntent` that the environment makes fail. */
  datatype Fault = NoFault | IntentReload | OperationReload | IntentMarshal | EvidenceMarshal | LedgerError | NoReceipt

  /** The ID this submission would use is taken by no operation, or by the one this key already has. */
  ghost predicate NoClash(r: Repo, key: string, draw: Draw, digest: Digest) {
    var id := ResourceId("operation", key, draw.operation, digest);
    id in r.operations ==> !Blank(key) && r.operations[id].key == key
  }

  /** So it is in every reachable state of the service where submitted keys do not collide, whatever other calls are doing. */
  lemma ReachableNoClash(env: IntentRuns.Env, worlds: seq<IntentRuns.World>, steps: seq<IntentRuns.Step>, i: nat,
                         key: string, draw: Draw)
    requires IntentRuns.Lawful(env) && IntentRuns.IsRun(env, worlds, steps) && i < |worlds| && key in env.keys
    requires Blank(key) ==> IntentRuns.FreshId(env, worlds[i], "operation-" + draw.operation)
    ensures NoClash(worlds[i].repo, key, draw, env.digest)
  {
    var w := worlds[i];
    IntentRuns.RunKeyed(env, worlds, steps, i);
    var id := IntentRuns.SubmitId(env, w, key, draw);
    assert Blank(key) ==> id == "operation-" + draw.operation;
    if id in w.repo.operations {
      assert IntentRuns.IssuedKey(w.issued, w.repo.operations[id]);
    }
  }

  /** A key seen for the first time has no operation yet, whatever other keys have. */
  lemma FirstTimeIdIsFree(r: Repo, key: string, draw: Draw, digest: Digest)
    requires IndexMirrors(r) && NoClash(r, key, draw, digest) && Found(r, key).Err?
    ensures ResourceId("operation", key, draw.operation, digest) !in r.operations
  {
    if !Blank(key) {
      IntentRuns.NotEmpty(key);
    }
  }

  /** The ID of the operation that a submission of this key is, or would be, about. */
  function AnsweredId(r: Repo, key: string, draw: Draw, digest: Digest): string {
    if key in r.index then r.index[key] else ResourceId("operation", key, draw.operation, digest)
  }

  /** What compensation leaves of a repository. */
  function TakenBack(r: Repo, intentId: string, operationId: string): Repo {
    var undone := Deleted(r, intentId, operationId);
    if undone.Ok? then undone.value else r
  }

  /** What `Submit` alone does to the repository when it succeeds. */
  function SubmittedRepo(r: Repo, intent: Intent, draw: Draw, digest: Digest, policy: Policy, now: int, at: int): Result<Repo> {
    if Found(r, intent.key).Ok? then Ok(r)
    else
      var stored := AdmittedIntent(intent, draw, digest, now);
      Created(r, stored, AdmittedOperation(stored, ResourceId("operation", intent.key, draw.operation, digest), policy, now, at))
  }

  /** The two identifiers a successful `Submit` answers with. */
  predicate AnsweredWith(r: Repo, intent: Intent, draw: Draw, digest: Digest, now: int, submission: Submission) {
    var found := Found(r, intent.key);
    if found.Ok? then submission.intentId == found.value.intentId && submission.operationId == found.value.id
    else
      && submission.intentId == AdmittedIntent(intent, draw, digest, now).id
      && submission.operationId == ResourceId("operation", intent.key, draw.operation, digest)
  }

  lemma SubmittedSound(r: Repo, intent: Intent, draw: Draw, digest: Digest, policy: Policy, now: int, at: int)
    requires Sound(r) && SubmittedRepo(r, intent, draw, digest, policy, now, at).Ok?
    ensures Sound(SubmittedRepo(r, intent, draw, digest, policy, now, at).value)
  {
    assert ResourceId("intent", intent.key, draw.intent, digest)[0] == 'i';
    assert ResourceId("operation", intent.key, draw.operation, digest)[0] == 'o';
  }

  /**
   Taking a submission back restores the repository if and only if the operation it was answered with was
   not stored before: neither an earlier operation of the same key nor, after a collision, another key's.
   */
  lemma TakingBackRestoresIff(r: Repo, intent: Intent, draw: Draw, digest: Digest, policy: Policy, now: int, at: int,
                              submission: Submission)
    requires Sound(r) && SubmittedRepo(r, intent, draw, digest, policy, now, at).Ok?
    requires AnsweredWith(r, intent, draw, digest, now, submission)
    ensures TakenBack(SubmittedRepo(r, intent, draw, digest, policy, now, at).value,
                      submission.intentId, submission.operationId) == r <==>
            AnsweredId(r, intent.key, draw, digest) !in r.operations
  {
    if Found(r, intent.key).Err? {
      var stored := AdmittedIntent(intent, draw, digest, now);
      DeleteUndoesCreate(r, stored, AdmittedOperation(stored, submission.operationId, policy, now, at));
    } else if AnsweredId(r, intent.key, draw, digest) in r.operations {
      assert submission.operationId !in TakenBack(r, submission.intentId, submission.operationId).operations;
    }
  }

  /** With a mirrored index and no clash the submission is about this key's own operation. */
  lemma SubmittedMirrors(r: Repo, intent: Intent, draw: Draw, digest: Digest, policy: Policy, now: int, at: int,
                         submission: Submission)
    requires IndexMirrors(r) && NoClash(r, intent.key, draw, digest)
    requires SubmittedRepo(r, intent, draw, digest, policy, now, at).Ok?
    requires AnsweredWith(r, intent, draw, digest, now, submission)
    ensures var after := SubmittedRepo(r, intent, draw, digest, policy, now, at).value;
            && IndexMirrors(after) && submission.operationId in after.operations
            && after.operations[submission.operationId].key == intent.key
            && IndexMirrors(TakenBack(after, submission.intentId, submission.operationId))
    ensures AnsweredId(r, intent.key, draw, digest) in r.operations <==> Found(r, intent.key).Ok?
  {
    var after := SubmittedRepo(r, intent, draw, digest, policy, now, at).value;
    if Found(r, intent.key).Err? {
      FirstTimeIdIsFree(r, intent.key, draw, digest);
      var stored := AdmittedIntent(intent, draw, digest, now);
      CreateMirrors(r, stored, AdmittedOperation(stored, submission.operationId, policy, now, at));
    }
    if Deleted(after, submission.intentId, submission.operationId).Ok? {
      DeleteMirrors(after, submission.intentId, submission.operationId);
    }
  }

  /** At most the admission receipt of one operation was added; its state and history stayed. */
  ghost predicate OnlyEvidenceAdded(a: Repo, b: Repo, o: string) {
    a == b || (o in a.operations && exists op :: IntentRuns.SameHistory(a.operations[o], op) && Updated(a, op) == Ok(b))
  }

  lemma EvidenceMirrors(a: Repo, b: Repo, o: string)
    requires IndexMirrors(a) && o in a.operations && OnlyEvidenceAdded(a, b, o)
    ensures IndexMirrors(b) && o in b.operations && b.operations[o].key == a.operations[o].key
  {
    if a != b {
      var op :| IntentRuns.SameHistory(a.operations[o], op) && Updated(a, op) == Ok(b);
      UpdateMirrors(a, op);
    }
  }

  lemma EvidenceSound(a: Repo, b: Repo, o: string)
    requires Sound(a) && OnlyEvidenceAdded(a, b, o)
    ensures Sound(b)
  {}

  /** The operation carries an admission receipt that the ledger proves. */
  ghost predicate AdmissionAttached(op: Operation, ledger: Option<Ledger.State>) {
    exists i | 0 <= i < |op.receipts| :: op.receipts[i].purpose.Admission? && ReceiptVerified(op, op.receipts[i], ledger)
  }

  lemma AttachedIsProven(op: Operation, ledger: Option<Ledger.State>, receipt: Receipt, now: int)
    requires receipt.purpose.Admission? && ReceiptVerified(op, receipt, ledger) && Merged(op, receipt, now).Ok?
    ensures AdmissionAttached(Merged(op, receipt, now).value, ledger)
  {
    var merged := Merged(op, receipt, now).value;
    var clash := FirstClash(op.receipts, receipt);
    var i := if clash.Some? then clash.value else |op.receipts|;
    assert merged.receipts[i] == receipt && ReceiptVerified(merged, receipt, ledger);
  }

  /** The entry type the handler records is the one the service expects, unless the kind is spelled as the action class is. */
  lemma EntryTypeExpected(kind: string)
    ensures "fleet.intent." + kind == ExpectedEntryType(ActionClass(kind), Admission) <==> kind != "prewarm"
  {
    assert ("fleet." + kind)[6..] == kind;
    assert ("fleet.intent." + kind)[13..] == kind;
    assert ("fleet.intent." + "pre_warm")[13..] == "pre_warm";
  }

  /** What the ledger has just issued verifies exactly for the operation it was issued for. */
  lemma IssuedVerifies(op: Operation, d: Ledger.Decision, n: nat, at: int, ledger: Ledger.State, r: Receipt)
    requires n >= 1 && at >= 1 && IsSha256(d.inputHash) && !Blank(d.entryType)
    requires r == Receipt("entry-" + Decimal.Digits(n), Ledger.EntryHash(Ledger.Issued, n), d.entryType, n, at,
                          d.inputHash, Admission)
    requires Ledger.Verified(ledger, r.entryHash, d.entryType) == Some(Ledger.ProofOf(d, n, at))
    ensures ReceiptVerified(op, r, Some(ledger)) <==>
            d.entryType == ExpectedEntryType(op.actionClass, Admission) && d.correlationId == op.correlationId
  {
    StartsNotBlank(r.entryId);
    StartsNotBlank(r.entryHash);
  }

  class FleetController {
    const service: Service
    const recorder: Ledger.InMemoryLedgerClient?
    const gatewayConfigured: bool
    const agentId: string
    const sourceId: string
    const admissionEvidence: (Intent, Operation) -> seq<Byte>
    const sha256: seq<Byte> -> string

    constructor (service: Service, recorder: Ledger.InMemoryLedgerClient?, gatewayConfigured: bool,
                 agentId: string, sourceId: string,
                 admissionEvidence: (Intent, Operation) -> seq<Byte>, sha256: seq<Byte> -> string)
      ensures this.service == service && this.recorder == recorder && this.gatewayConfigured == gatewayConfigured
    {
      this.service, this.recorder, this.gatewayConfigured := service, recorder, gatewayConfigured;
      this.agentId, this.sourceId := agentId, sourceId;
      this.admissionEvidence, this.sha256 := admissionEvidence, sha256;
    }

    /** What every run of the service and the ledger keeps, collisions or not. */
    ghost predicate Ready()
      reads service.repository, recorder
    {
      Sound(service.repository.Contents()) && (recorder != null ==> Ledger.Valid(recorder.Contents()))
    }

    /** The compensation closure: fail-closed with a gateway, fail-open without one. */
    method Compensate(submission: Submission) returns (r: Result<Submission>)
      modifies service.repository
      ensures !gatewayConfigured ==> r == Ok(submission) && service.repository.Contents() == old(service.repository.Contents())
      ensures gatewayConfigured ==> r.Err?
      ensures gatewayConfigured ==>
        service.repository.Contents() ==
          TakenBack(old(service.repository.Contents()), submission.intentId, submission.operationId)
    {
      if !gatewayConfigured {
        return Ok(submission);
      }
      var cleanup := service.repository.Delete(submission.intentId, submission.operationId);
      r := Err(LedgerWriteFailed);
    }

    /** The service verifies against the ledger the handler records in, with real digests and a clock past the epoch. */
    ghost predicate CanProve(now: int) {
      recorder != null && service.proofs == recorder && now >= 1 && forall content :: IsSha256(sha256(content))
    }

    /** An operation just admitted from an intent of this kind, without a receipt. */
    ghost predicate Provable(op: Operation, kind: string, submission: Submission, now: int) {
      && CanProve(now)
      && op.correlationId == submission.correlationId && op.actionClass == ActionClass(kind) && op.receipts == []
    }

    /**
     Records the admission and attaches the receipt. It fails at a faulty step or when the receipt is
     refused, and when it succeeds the operation carries an admission receipt that the ledger proves.
     */
    method RecordAdmission(submission: Submission, now: int, fault: Fault) returns (ok: bool)
      requires recorder != null && Ledger.Valid(recorder.Contents())
      requires Sound(service.repository.Contents())
      modifies service.repository`operations, recorder
      ensures !ok ==> service.repository.Contents() == old(service.repository.Contents())
      ensures OnlyEvidenceAdded(old(service.repository.Contents()), service.repository.Contents(), submission.operationId)
      ensures !fault.NoFault? ==> !ok
      ensures ok ==>
        && submission.operationId in service.repository.operations
        && AdmissionAttached(service.repository.operations[submission.operationId], service.LedgerState())
      ensures fault.NoFault? && submission.intentId in service.repository.intents &&
              submission.operationId in old(service.repository.operations) &&
              Provable(old(service.repository.operations)[submission.operationId],
                       service.repository.intents[submission.intentId].kind, submission, now) ==>
              (ok <==> service.repository.intents[submission.intentId].kind != "prewarm")
    {
      var intent := service.repository.GetIntent(submission.intentId);
      if intent.Err? || fault.IntentReload? {
        return false;
      }
      var operation := service.repository.GetOperation(submission.operationId);
      if operation.Err? || fault.OperationReload? || fault.IntentMarshal? || fault.EvidenceMarshal? || fault.LedgerError? {
        return false;
      }
      var entryType := "fleet.intent." + intent.value.kind;
      var content := admissionEvidence(intent.value, operation.value);
      var decision := Ledger.Decision(entryType, agentId, sourceId, submission.correlationId, content, sha256(content));
      var proof := recorder.IssueProofReceipt(decision, now);
      if fault.NoReceipt? {
        return false;
      }
      var receipt := Receipt(proof.entryId, proof.entryHash, entryType, proof.chainPosition, proof.timestamp,
                             sha256(content), Admission);
      ghost var ledger := service.LedgerState();
      if Provable(operation.value, intent.value.kind, submission, now) {
        StartsNotBlank(entryType);
        EntryTypeExpected(intent.value.kind);
        IssuedVerifies(operation.value, decision, recorder.counter, now, recorder.Contents(), receipt);
      }
      var attached := service.AttachLedgerReceipt(submission.operationId, receipt, now);
      ok := attached.Ok?;
      if ok {
        IntentRuns.AttachKeepsHistory(old(service.repository.Contents()), ledger, submission.operationId, receipt, now);
        AttachedIsProven(operation.value, ledger, receipt, now);
        assert IntentRuns.SameHistory(old(service.repository.operations)[submission.operationId], attached.value);
      }
    }

    /** What `Submit` alone would do. */
    function Submitted(r: Repo, intent: Intent, draw: Draw, now: int, at: int): Result<Repo> {
      SubmittedRepo(r, intent, draw, service.digest, service.policy, now, at)
    }

    /**
     `submitIntent`. A failed submission leaves intents, operations and index exactly as they were if and
     only if the operation it was answered with was not stored before, in whatever state it is called: a
     failed replay deletes the operation admitted earlier, and after a collision another key's.
     */
    method SubmitIntent(intent: Intent, draw: Draw, now: int, at: int, fault: Fault) returns (r: Result<Submission>)
      requires Ready()
      modifies service.repository, recorder
      ensures Sound(service.repository.Contents())
      ensures Submitted(old(service.repository.Contents()), intent, draw, now, at).Err? ==>
        r.Err? && service.repository.Contents() == old(service.repository.Contents())
      ensures r.Err? && Submitted(old(service.repository.Contents()), intent, draw, now, at).Ok? ==>
        && gatewayConfigured && recorder != null
        && (service.repository.Contents() == old(service.repository.Contents()) <==>
            AnsweredId(old(service.repository.Contents()), intent.key, draw, service.digest) !in old(service.repository.operations))
        && AnsweredId(old(service.repository.Contents()), intent.key, draw, service.digest) !in service.repository.operations
      ensures r.Ok? ==>
        && AnsweredWith(old(service.repository.Contents()), intent, draw, service.digest, now, r.value)
        && OnlyEvidenceAdded(Submitted(old(service.repository.Contents()), intent, draw, now, at).value,
                             service.repository.Contents(), r.value.operationId)
      ensures recorder == null || !gatewayConfigured ==>
        (r.Ok? <==> Submitted(old(service.repository.Contents()), intent, draw, now, at).Ok?)
      ensures recorder != null && gatewayConfigured && !fault.NoFault? ==> r.Err?
      ensures recorder != null && gatewayConfigured && r.Ok? ==>
        && r.value.operationId in service.repository.operations
        && AdmissionAttached(service.repository.operations[r.value.operationId], service.LedgerState())
      ensures gatewayConfigured && fault.NoFault? && CanProve(now) &&
              old(Found(service.repository.Contents(), intent.key)).Err? &&
              Submitted(old(service.repository.Contents()), intent, draw, now, at).Ok? ==>
              (r.Ok? <==> intent.kind != "prewarm")
      ensures old(IndexMirrors(service.repository.Contents())) &&
              NoClash(old(service.repository.Contents()), intent.key, draw, service.digest) ==>
        && IndexMirrors(service.repository.Contents())
        && (r.Ok? ==> r.value.operationId in service.repository.operations &&
                      service.repository.operations[r.value.operationId].key == intent.key)
        && (r.Err? && Submitted(old(service.repository.Contents()), intent, draw, now, at).Ok? ==>
              (service.repository.Contents() == old(service.repository.Contents()) <==>
               old(Found(service.repository.Contents(), intent.key)).Err?))
    {
      ghost var before := service.repository.Contents();
      var submitted := Admit(intent, draw, now, at);
      if submitted.Err? {
        return submitted;
      }
      var submission := submitted.value;
      ghost var stored := service.repository.Contents();
      TakingBackRestoresIff(before, intent, draw, service.digest, service.policy, now, at, submission);
      ghost var mirrored := IndexMirrors(before) && NoClash(before, intent.key, draw, service.digest);
      if mirrored {
        SubmittedMirrors(before, intent, draw, service.digest, service.policy, now, at, submission);
      }
      TakenBackIsGone(before, intent, draw, service.digest, service.policy, now, at, submission);
      if recorder == null {
        return submitted;
      }
      r := Settle(submission, now, fault);
      if r.Ok? {
        EvidenceSound(stored, service.repository.Contents(), submission.operationId);
        if mirrored {
          EvidenceMirrors(stored, service.repository.Contents(), submission.operationId);
        }
      }
    }

    /** Record the admission, or take the submission back where the gateway demands evidence. */
    method Settle(submission: Submission, now: int, fault: Fault) returns (r: Result<Submission>)
      requires recorder != null && Ledger.Valid(recorder.Contents()) && Sound(service.repository.Contents())
      modifies service.repository, recorder
      ensures r.Ok? ==>
        && r.value == submission
        && OnlyEvidenceAdded(old(service.repository.Contents()), service.repository.Contents(), submission.operationId)
      ensures r.Err? ==>
        && gatewayConfigured
        && service.repository.Contents() ==
             TakenBack(old(service.repository.Contents()), submission.intentId, submission.operationId)
      ensures gatewayConfigured && !fault.NoFault? ==> r.Err?
      ensures gatewayConfigured && r.Ok? ==>
        && submission.operationId in service.repository.operations
        && AdmissionAttached(service.repository.operations[submission.operationId], service.LedgerState())
      ensures gatewayConfigured && fault.NoFault? && submission.intentId in old(service.repository.intents) &&
              submission.operationId in old(service.repository.operations) &&
              Provable(old(service.repository.operations)[submission.operationId],
                       old(service.repository.intents)[submission.intentId].kind, submission, now) ==>
              (r.Ok? <==> old(service.repository.intents)[submission.intentId].kind != "prewarm")
    {
      var ok := RecordAdmission(submission, now, fault);
      if ok {
        return Ok(submission);
      }
      r := Compensate(submission);
    }

    /** The call to `Submit`: what it leaves behind, and that a new operation is provable. */
    method Admit(intent: Intent, draw: Draw, now: int, at: int) returns (r: Result<Submission>)
      requires Ready()
      modifies service.repository
      ensures Sound(service.repository.Contents())
      ensures r.Ok? <==> Submitted(old(service.repository.Contents()), intent, draw, now, at).Ok?
      ensures r.Err? ==> service.repository.Contents() == old(service.repository.Contents())
      ensures r.Ok? ==>
        && Submitted(old(service.repository.Contents()), intent, draw, now, at) == Ok(service.repository.Contents())
        && AnsweredWith(old(service.repository.Contents()), intent, draw, service.digest, now, r.value)
      ensures r.Ok? && CanProve(now) && old(Found(service.repository.Contents(), intent.key)).Err? ==>
        && r.value.intentId in service.repository.intents && r.value.operationId in service.repository.operations
        && service.repository.intents[r.value.intentId].kind == intent.kind
        && Provable(service.repository.operations[r.value.operationId], intent.kind, r.value, now)
    {
      ghost var before := service.repository.Contents();
      r := service.Submit(intent, draw, now, at);
      if r.Ok? {
        SubmittedSound(before, intent, draw, service.digest, service.policy, now, at);
      }
    }
  }

  /** Whatever it was answered with is gone after the submission is taken back, and the repository stays sound. */
  lemma TakenBackIsGone(r: Repo, intent: Intent, draw: Draw, digest: Digest, policy: Policy, now: int, at: int,
                        submission: Submission)
    requires Sound(r) && SubmittedRepo(r, intent, draw, digest, policy, now, at).Ok?
    requires AnsweredWith(r, intent, draw, digest, now, submission)
    ensures var after := TakenBack(SubmittedRepo(r, intent, draw, digest, policy, now, at).value,
                                   submission.intentId, submission.operationId);
            Sound(after) && AnsweredId(r, intent.key, draw, digest) !in after.operations
  {
    SubmittedSound(r, intent, draw, digest, policy, now, at);
  }
}
