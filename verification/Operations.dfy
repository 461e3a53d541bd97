/** Fleet operations and the evidence each guarded transition demands (pkg/intents/service.go). */
module Operations {
  import opened Basics
  import opened GoText
  import opened Lifecycle
  import opened Utf8
  import Decimal
  import Text = JsonText
  import Ledger

  datatype Provider = Provider(kind: string, name: string)

  datatype Authorization = Authorization(
    grantId: string, subject: string, actionClass: string, objectUid: string, specDigest: string,
    audience: string, expiresAt: Option<int>, key: string, breakGlass: bool, incidentRef: string)

  datatype Purpose = Admission | AuthorizationDecision | Outcome | OtherPurpose(name: string)

  datatype Receipt = Receipt(
    entryId: string, entryHash: string, entryType: string, chainPosition: int, writtenTs: int,
    inputHash: string, purpose: Purpose)

  datatype Operation = Operation(
    id: string, objectUid: string, intentId: string, correlationId: string, key: string, actionClass: string,
    state: State, planDigest: string, provider: Option<Provider>, observedDigest: string,
    authorization: Option<Authorization>, ledgerEntryId: string, receipts: seq<Receipt>,
    createdAt: int, updatedAt: int, transitions: seq<Transition>)

  /** `appendTransition`. */
  function Advanced(op: Operation, next: State, at: int, reason: string, actor: string): Operation {
    op.(state := next, updatedAt := at, transitions := Append(op.transitions, next, at, reason, actor))
  }

  // ---------------------------------------------------------------- authorization

  const FleetController := "fleet-llm-d"

  /** The object an authorization must name. */
  function AuthorizedObject(op: Operation): string {
    if Blank(op.objectUid) then op.id else op.objectUid
  }

  /** `validateAuthorizationReference`. */
  predicate AuthorizationValid(op: Operation, now: int) {
    op.authorization.Some? &&
    var a := op.authorization.value;
    && !Blank(a.grantId) && !Blank(a.subject) && !Blank(a.actionClass) && !Blank(a.objectUid)
    && !Blank(a.specDigest) && !Blank(a.audience) && !Blank(a.key)
    && a.actionClass == op.actionClass
    && a.objectUid == AuthorizedObject(op)
    && IsSha256(op.planDigest) && EqualFold(a.specDigest, op.planDigest)
    && a.audience == FleetController
    && a.key == op.key
    && a.expiresAt.Some? && now < a.expiresAt.value
    && (a.breakGlass ==> !Blank(a.incidentRef))
  }

  /** An authorization that was good once is good exactly until it expires. */
  lemma AuthorizationLapses(op: Operation, once: int, now: int)
    requires AuthorizationValid(op, once)
    ensures AuthorizationValid(op, now) <==> now < op.authorization.value.expiresAt.value
  {}

  /** One authorization serves operations of one key, class, object and plan only. */
  lemma AuthorizationBindsOperation(a: Operation, b: Operation, now: int, later: int)
    requires AuthorizationValid(a, now) && AuthorizationValid(b, later) && a.authorization == b.authorization
    ensures a.key == b.key && a.actionClass == b.actionClass && EqualFold(a.planDigest, b.planDigest)
    ensures a.id == b.id || !Blank(a.objectUid) || !Blank(b.objectUid)
    ensures !Blank(a.objectUid) && !Blank(b.objectUid) ==> a.objectUid == b.objectUid
  {}

  /** The authorization with which an operation whose plan is fixed may go on until the deadline. */
  function AuthorizationFor(op: Operation, grantId: string, subject: string, deadline: int): Authorization {
    Authorization(grantId, subject, op.actionClass, if Blank(op.objectUid) then op.id else op.objectUid,
                  op.planDigest, "fleet-llm-d", Some(deadline), op.key, false, "")
  }

  /** It is accepted before its deadline and not from then on. */
  lemma AuthorizationForIsValid(op: Operation, grantId: string, subject: string, deadline: int, now: int)
    requires op.authorization == Some(AuthorizationFor(op, grantId, subject, deadline))
    requires !Blank(grantId) && !Blank(subject) && IsSha256(op.planDigest)
    requires !Blank(op.actionClass) && !Blank(op.id) && !Blank(op.key)
    ensures AuthorizationValid(op, now) <==> now < deadline
  {
    StartsNotBlankDigest(op.planDigest);
  }

  lemma StartsNotBlankDigest(digest: string)
    requires IsSha256(digest)
    ensures !Blank(digest)
  {
    assert IsHex(digest[0]);
    StartsNotBlank(digest);
  }

  // ---------------------------------------------------------------- ledger receipts

  const OutcomeEntry := "fleet.operation.verified"
  const AuthorizationEntry := "fleet.operation.authorization_decision"

  /** `expectedLedgerEntryType`. */
  function ExpectedEntryType(actionClass: string, purpose: Purpose): string {
    match purpose
    case Admission =>
      var action := TrimPrefix(actionClass, "fleet.");
      "fleet.intent." + (if action == "prewarm" then "pre_warm" else action)
    case AuthorizationDecision => AuthorizationEntry
    case Outcome => OutcomeEntry
    case OtherPurpose(_) => ""
  }

  const OutcomeSchema := "fleet.llm-d.ai/operation-outcome/v1"

  function EvidenceUid(op: Operation): string {
    if Blank(op.objectUid) then TrimSpace(op.id) else TrimSpace(op.objectUid)
  }

  function EvidenceDoc(op: Operation): Text.Doc {
    Text.Obj([
      Text.Member("schema_version", Text.Str(OutcomeSchema)),
      Text.Member("operation_id", Text.Str(TrimSpace(op.id))),
      Text.Member("operation_uid", Text.Str(EvidenceUid(op))),
      Text.Member("plan_digest", Text.Str(Lower(op.planDigest))),
      Text.Member("idempotency_key", Text.Str(op.key)),
      Text.Member("observed_digest", Text.Str(Lower(op.observedDigest)))])
  }

  /** `NewOutcomeEvidence`: the bytes `json.Marshal` gives for the evidence record. */
  function OutcomeEvidence(op: Operation): Option<seq<Byte>> {
    if Blank(op.id) || !IsSha256(op.planDigest) || !IsSha256(op.observedDigest) then None
    else Some(Encode(Text.Render(EvidenceDoc(op), true)))
  }

  /** Equal evidence bytes name the same operation, object, plan, key and observed digest. */
  lemma EvidenceBindsOperation(a: Operation, b: Operation)
    requires OutcomeEvidence(a).Some? && OutcomeEvidence(a) == OutcomeEvidence(b)
    ensures TrimSpace(a.id) == TrimSpace(b.id) && EvidenceUid(a) == EvidenceUid(b) && a.key == b.key
    ensures EqualFold(a.planDigest, b.planDigest) && EqualFold(a.observedDigest, b.observedDigest)
  {
    EncodeInjective(Text.Render(EvidenceDoc(a), true), Text.Render(EvidenceDoc(b), true));
    Text.ParseRender(EvidenceDoc(a), true);
    Text.ParseRender(EvidenceDoc(b), true);
    var x, y := EvidenceDoc(a).members, EvidenceDoc(b).members;
    assert x[1] == y[1] && x[2] == y[2] && x[3] == y[3] && x[4] == y[4] && x[5] == y[5];
  }

  /** A reader of UTF-8 and JSON finds the operation's identity and digests in the evidence, each under its name. */
  lemma EvidenceReads(op: Operation) returns (text: string, members: seq<Text.Member>)
    requires OutcomeEvidence(op).Some?
    ensures Decode(OutcomeEvidence(op).value) == Some(text) && Text.Parse(text) == Some(Text.Obj(members))
    ensures |members| == 6 && !Blank(op.id) && IsSha256(op.planDigest) && IsSha256(op.observedDigest)
    ensures Text.Member("schema_version", Text.Str("fleet.llm-d.ai/operation-outcome/v1")) in members
    ensures Text.Member("operation_id", Text.Str(TrimSpace(op.id))) in members
    ensures Text.Member("operation_uid", Text.Str(TrimSpace(if Blank(op.objectUid) then op.id else op.objectUid))) in members
    ensures Text.Member("plan_digest", Text.Str(Lower(op.planDigest))) in members
    ensures Text.Member("idempotency_key", Text.Str(op.key)) in members
    ensures Text.Member("observed_digest", Text.Str(Lower(op.observedDigest))) in members
  {
    text, members := Text.Render(EvidenceDoc(op), true), EvidenceDoc(op).members;
    DecodeEncode(text);
    Text.ParseRender(EvidenceDoc(op), true);
  }

  predicate ReceiptComplete(r: Receipt) {
    && !Blank(r.entryId) && !Blank(r.entryHash) && !Blank(r.entryType)
    && r.chainPosition >= 1 && r.writtenTs >= 1 && IsSha256(r.inputHash) && !r.purpose.OtherPurpose?
  }

  /** `verifyOutcomeEvidence`: the content must be, byte for byte, this operation's evidence. */
  predicate OutcomeBound(op: Operation, r: Receipt, content: seq<Byte>) {
    && IsSha256(op.observedDigest) && EqualFold(r.inputHash, op.observedDigest)
    && OutcomeEvidence(op) == Some(content)
  }

  /** `verifyLedgerReceipt`; without a verifier nothing verifies. */
  predicate ReceiptVerified(op: Operation, r: Receipt, ledger: Option<Ledger.State>) {
    && ReceiptComplete(r)
    && r.entryType == ExpectedEntryType(op.actionClass, r.purpose)
    && ledger.Some?
    && var proof := Ledger.Verified(ledger.value, r.entryHash, r.entryType);
       && proof.Some?
       && var p := proof.value;
          && p.entryType == r.entryType
          && (p.entryId != "" ==> p.entryId == r.entryId)
          && p.correlationId == op.correlationId
          && p.inputHash == r.inputHash
          && (r.purpose.Outcome? ==> OutcomeBound(op, r, p.content))
          && p.chainPosition == r.chainPosition
          && p.writtenAt == r.writtenTs
  }

  /**
   A receipt that verifies is complete and names an entry of the ledger that was written for this very
   operation: with the type its purpose demands, its correlation, its input hash and, for an outcome, its evidence.
   */
  lemma VerifiedReceiptMeans(op: Operation, r: Receipt, ledger: Ledger.State)
    requires Ledger.Valid(ledger) && ReceiptVerified(op, r, Some(ledger)) && Ledger.Nul !in r.entryHash
    ensures !Blank(r.entryId) && !Blank(r.entryHash) && !Blank(r.entryType) && IsSha256(r.inputHash)
    ensures r.writtenTs >= 1 && 1 <= r.chainPosition <= |ledger.entries|
    ensures r.entryId == "entry-" + Decimal.Digits(r.chainPosition)
    ensures Ledger.Verified(ledger, r.entryHash, r.entryType).Some? &&
            Ledger.Verified(ledger, r.entryHash, r.entryType).value.writtenAt == r.writtenTs
    ensures var entry := ledger.entries[r.chainPosition - 1];
            && entry.entryType == r.entryType && entry.correlationId == op.correlationId && entry.inputHash == r.inputHash
            && Ledger.WrittenAs(ledger, r.chainPosition, r.entryHash, r.entryType)
            && (r.purpose == Outcome ==>
                  && r.entryType == "fleet.operation.verified"
                  && OutcomeEvidence(op) == Some(entry.content) && EqualFold(entry.inputHash, op.observedDigest))
            && (r.purpose == AuthorizationDecision ==> r.entryType == "fleet.operation.authorization_decision")
            && (r.purpose == Admission ==> "fleet.intent." <= r.entryType)
  {
    Ledger.ProofIsOfItsEntry(ledger, r.entryHash, r.entryType);
  }

  /** `verifyReceiptPurpose` for the outcome. */
  predicate OutcomeProven(op: Operation, ledger: Option<Ledger.State>) {
    exists i | 0 <= i < |op.receipts| :: op.receipts[i].purpose.Outcome? && ReceiptVerified(op, op.receipts[i], ledger)
  }

  /** `validateTransitionEvidence`. */
  predicate EvidencePresent(op: Operation, next: State, ledger: Option<Ledger.State>, now: int) {
    match next
    case Planned =>
      && IsSha256(op.planDigest)
      && op.provider.Some? && !Blank(op.provider.value.kind) && !Blank(op.provider.value.name)
    case Authorized => AuthorizationValid(op, now)
    case Actuating => AuthorizationValid(op, now)
    case Succeeded => OutcomeProven(op, ledger)
    case _ => true
  }

  /** The ledger key a proven outcome rests on, with the content the ledger holds there. */
  ghost function OutcomeKey(op: Operation, ledger: Ledger.State): (key: string)
    requires OutcomeProven(op, Some(ledger))
    ensures key in ledger.proofs && OutcomeEvidence(op) == Some(ledger.proofs[key].content)
  {
    var i :| 0 <= i < |op.receipts| && op.receipts[i].purpose.Outcome? && ReceiptVerified(op, op.receipts[i], Some(ledger));
    Ledger.ProofKey(op.receipts[i].entryHash, op.receipts[i].entryType)
  }
}
