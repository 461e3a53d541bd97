/** The development repository: intents, operations and the idempotency index (pkg/intents/service.go). */
module IntentRepository {
  import opened Basics
  import opened Lifecycle
  import opened Operations

  datatype Intent = Intent(
    id: string, correlationId: string, key: string, kind: string, confidence: real,
    targetReplicas: int, desiredReplicas: int, severity: string,
    createdAt: Option<int>, expiresAt: Option<int>, body: string)

  datatype Error =
    | NotFound
    | IntentExists
    | KeyTaken(operationId: string)
    | InvalidTransition
    | ReceiptRejected
    | ReceiptConflict
    | LedgerWriteFailed

  datatype Result<+T> = Ok(value: T) | Err(error: Error)

  datatype Repo = Repo(intents: map<string, Intent>, operations: map<string, Operation>, index: map<string, string>)

  const EmptyRepo := Repo(map[], map[], map[])

  /** `Create`, under the repository lock. */
  function Created(r: Repo, intent: Intent, op: Operation): Result<Repo> {
    if intent.id in r.intents then Err(IntentExists)
    else if intent.key != "" && intent.key in r.index then Err(KeyTaken(r.index[intent.key]))
    else Ok(Repo(r.intents[intent.id := intent], r.operations[op.id := op],
                 if intent.key != "" then r.index[intent.key := op.id] else r.index))
  }

  /** `Delete`, under the repository lock. */
  function Deleted(r: Repo, intentId: string, operationId: string): Result<Repo> {
    if operationId !in r.operations && intentId !in r.intents then Err(NotFound)
    else
      var index :=
        if operationId in r.operations && r.operations[operationId].key != ""
        then r.index - {r.operations[operationId].key} else r.index;
      Ok(Repo(r.intents - {intentId}, r.operations - {operationId}, index))
  }

  /** `UpdateOperation`, under the repository lock. */
  function Updated(r: Repo, op: Operation): Result<Repo> {
    if op.id !in r.operations then Err(NotFound) else Ok(r.(operations := r.operations[op.id := op]))
  }

  /** Go's zero operation, which a map yields for a missing key. */
  const EmptyOperation :=
    Operation("", "", "", "", "", "", Unset, "", None, "", None, "", [], 0, 0, [])

  /** `FindByIdempotencyKey`; an indexed operation that is gone reads as the empty one. */
  function Found(r: Repo, key: string): Result<Operation> {
    if key !in r.index then Err(NotFound)
    else Ok(if r.index[key] in r.operations then r.operations[r.index[key]] else EmptyOperation)
  }

  /** Operations sit under their own ID, and nothing is stored or indexed under the empty string. */
  ghost predicate Sound(r: Repo) {
    && (forall o | o in r.operations :: r.operations[o].id == o)
    && "" !in r.operations && "" !in r.intents && "" !in r.index
  }

  /** Operations sit under their own ID, and the index is the exact inverse of the keyed operations. */
  ghost predicate IndexMirrors(r: Repo) {
    && (forall o | o in r.operations :: r.operations[o].id == o)
    && (forall k | k in r.index :: k != "" && r.index[k] in r.operations && r.operations[r.index[k]].key == k)
    && (forall o | o in r.operations && r.operations[o].key != "" ::
          r.operations[o].key in r.index && r.index[r.operations[o].key] == o)
  }

  lemma CreateMirrors(r: Repo, intent: Intent, op: Operation)
    requires IndexMirrors(r) && op.key == intent.key && Created(r, intent, op).Ok?
    requires op.id in r.operations ==> r.operations[op.id].key == op.key
    ensures IndexMirrors(Created(r, intent, op).value)
  {}

  lemma DeleteMirrors(r: Repo, intentId: string, operationId: string)
    requires IndexMirrors(r) && Deleted(r, intentId, operationId).Ok?
    ensures IndexMirrors(Deleted(r, intentId, operationId).value)
  {}

  lemma UpdateMirrors(r: Repo, op: Operation)
    requires IndexMirrors(r) && Updated(r, op).Ok? && r.operations[op.id].key == op.key
    ensures IndexMirrors(Updated(r, op).value)
  {}

  /** Deleting a submission undoes its creation exactly when it displaced no operation. */
  lemma DeleteUndoesCreate(r: Repo, intent: Intent, op: Operation)
    requires op.key == intent.key && Created(r, intent, op).Ok?
    ensures Deleted(Created(r, intent, op).value, intent.id, op.id).Ok?
    ensures Deleted(Created(r, intent, op).value, intent.id, op.id).value == r <==> op.id !in r.operations
  {
    var c := Created(r, intent, op).value;
    var d := Deleted(c, intent.id, op.id).value;
    assert d.intents == r.intents;
    if op.id !in r.operations {
      assert d.operations == r.operations;
      assert d.index == r.index;
    }
  }

  class MemoryRepository {
    var intents: map<string, Intent>
    var operations: map<string, Operation>
    var idempotency: map<string, string>

    function Contents(): Repo
      reads this
    {
      Repo(intents, operations, idempotency)
    }

    constructor ()
      ensures Contents() == EmptyRepo && IndexMirrors(Contents())
    {
      intents, operations, idempotency := map[], map[], map[];
    }

    method Create(intent: Intent, operation: Operation) returns (r: Result<()>)
      modifies this
      ensures r.Ok? == Created(old(Contents()), intent, operation).Ok?
      ensures r.Ok? ==> Contents() == Created(old(Contents()), intent, operation).value
      ensures r.Err? ==> Contents() == old(Contents()) && r.error == Created(old(Contents()), intent, operation).error
    {
      if intent.id in intents {
        return Err(IntentExists);
      }
      if intent.key != "" {
        if intent.key in idempotency {
          return Err(KeyTaken(idempotency[intent.key]));
        }
        idempotency := idempotency[intent.key := operation.id];
      }
      intents := intents[intent.id := intent];
      operations := operations[operation.id := operation];
      r := Ok(());
    }

    method Delete(intentId: string, operationId: string) returns (r: Result<()>)
      modifies this
      ensures r.Ok? == Deleted(old(Contents()), intentId, operationId).Ok?
      ensures r.Ok? <==> operationId in old(operations) || intentId in old(intents)
      ensures r.Ok? ==> Contents() == Deleted(old(Contents()), intentId, operationId).value
      ensures r.Err? ==> Contents() == old(Contents()) && r.error == NotFound
    {
      if operationId !in operations && intentId !in intents {
        return Err(NotFound);
      }
      if operationId in operations && operations[operationId].key != "" {
        idempotency := idempotency - {operations[operationId].key};
      }
      operations := operations - {operationId};
      intents := intents - {intentId};
      r := Ok(());
    }

    method GetIntent(id: string) returns (r: Result<Intent>)
      ensures r == if id in intents then Ok(intents[id]) else Err(NotFound)
    {
      r := if id in intents then Ok(intents[id]) else Err(NotFound);
    }

    method GetOperation(id: string) returns (r: Result<Operation>)
      ensures r == if id in operations then Ok(operations[id]) else Err(NotFound)
    {
      r := if id in operations then Ok(operations[id]) else Err(NotFound);
    }

    method FindByIdempotencyKey(key: string) returns (r: Result<Operation>)
      ensures r == Found(Contents(), key)
      ensures r.Ok? <==> key in idempotency
      ensures r.Ok? ==> r.value == EmptyOperation || r.value in operations.Values
      ensures IndexMirrors(Contents()) && r.Ok? ==> r.value.key == key && r.value.id == idempotency[key]
    {
      if key !in idempotency {
        return Err(NotFound);
      }
      var id := idempotency[key];
      if id in operations {
        r := Ok(operations[id]);
      } else {
        r := Ok(EmptyOperation);
      }
    }

    method UpdateOperation(operation: Operation) returns (r: Result<()>)
      modifies this`operations
      ensures r.Ok? == (operation.id in old(operations))
      ensures r.Ok? ==> Contents() == Updated(old(Contents()), operation).value
      ensures r.Err? ==> Contents() == old(Contents()) && r.error == NotFound
    {
      if operation.id !in operations {
        return Err(NotFound);
      }
      operations := operations[operation.id := operation];
      r := Ok(());
    }
  }
}
