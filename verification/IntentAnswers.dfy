/** What the callers of `Submit` can rely on: which operation an answer names, and how long it stays. */
module IntentAnswers {
  import opened GoText
  import opened IntentRepository
  import opened IntentService
  import opened IntentRuns

  // ---------------------------------------------------------------- one operation per key

  /** All answers to one key that is not blank name one operation. */
  predicate Agree(responses: seq<Response>) {
    forall a, b | 0 <= a < |responses| && 0 <= b < |responses| && responses[a].key == responses[b].key ::
      !Blank(responses[a].key) ==> responses[a].operationId == responses[b].operationId
  }

  ghost predicate AlwaysAgree(env: Env) {
    forall worlds: seq<World>, steps: seq<Step> | IsRun(env, worlds, steps) :: Agree(worlds[|steps|].responses)
  }

  /** The first key's index entry outlives the operation that the second key took over. */
  lemma WithdrawDangles(env: Env, w: World, intentId: string, j: string, k: string, o: string)
    requires env.compensates && Holds(env, w, k, k) && o == OperationId(k, env.digest) && !Blank(k)
    requires j != k && j in w.repo.index && w.repo.index[j] == o
    ensures var s := DeleteSubmission(intentId, o);
            && Enabled(env, w, s) && After(env, w, s).responses == w.responses
            && Found(After(env, w, s).repo, j) == Ok(EmptyOperation)
  {}

  lemma EmptyAnswer(env: Env, w: World, j: string)
    requires j != "" && Found(w.repo, j) == Ok(EmptyOperation)
    ensures Enabled(env, w, Replay(j)) && After(env, w, Replay(j)).responses == w.responses + [Response(j, "")]
  {}

  /** Both submissions have been answered, and the second key holds the operation. */
  predicate TakenOver(env: Env, w: World, j: string, k: string, o: string) {
    && Holds(env, w, k, k) && j in w.repo.index && w.repo.index[j] == o
    && w.responses == [Response(j, o), Response(k, o)]
  }

  lemma TakeOver(env: Env, j: string, k: string, o: string) returns (worlds: seq<World>, steps: seq<Step>)
    requires j in env.keys && k in env.keys && !Blank(j) && !Blank(k) && j != k
    requires OperationId(j, env.digest) == OperationId(k, env.digest) == o
    ensures IsRun(env, worlds, steps) && TakenOver(env, worlds[|steps|], j, k, o)
  {
    worlds, steps := [Initial], [];
    worlds, steps := SubmitExtends(env, worlds, steps, "a", j);
    worlds, steps := SubmitExtends(env, worlds, steps, "b", k);
  }

  lemma AnswersDiffer(responses: seq<Response>, j: string, k: string, o: string)
    requires responses == [Response(j, o), Response(k, o), Response(j, "")] && o != "" && !Blank(j)
    ensures !Agree(responses)
  {
    assert responses[0].key == responses[2].key;
  }

  /**
   Two keys with one digest. The second submission takes over the first one's operation and is then
   withdrawn; the first key is still indexed, and its next caller is answered with no operation at all.
   */
  lemma CollisionForgets(env: Env, j: string, k: string) returns (worlds: seq<World>, steps: seq<Step>)
    requires env.compensates && j in env.keys && k in env.keys && !Blank(j) && !Blank(k) && j != k && env.digest(j) == env.digest(k)
    ensures IsRun(env, worlds, steps) && !Agree(worlds[|steps|].responses)
    ensures var o := OperationId(j, env.digest);
            worlds[|steps|].responses == [Response(j, o), Response(k, o), Response(j, "")]
  {
    var o := OperationId(j, env.digest);
    worlds, steps := TakeOver(env, j, k, o);
    WithdrawDangles(env, worlds[|steps|], "b", j, k, o);
    worlds, steps := Extended(env, worlds, steps, DeleteSubmission("b", o));
    NotEmpty(j);
    EmptyAnswer(env, worlds[|steps|], j);
    worlds, steps := Extended(env, worlds, steps, Replay(j));
    AnswersDiffer(worlds[|steps|].responses, j, k, o);
  }

  // ---------------------------------------------------------------- answers, whatever collides

  /** The ID derived from the key, or none. */
  predicate DerivedOrEmpty(digest: Digest, r: Response) {
    !Blank(r.key) ==> r.operationId == OperationId(r.key, digest) || r.operationId == ""
  }

  predicate TiedCall(digest: Digest, c: Call) {
    c.Creating? && !Blank(c.intent.key) ==> c.op.id == OperationId(c.intent.key, digest)
  }

  predicate TiedIndex(digest: Digest, index: map<string, string>) {
    forall k | k in index && !Blank(k) :: index[k] == OperationId(k, digest)
  }

  ghost predicate TiedWorld(env: Env, w: World) {
    && SoundWorld(w)
    && TiedIndex(env.digest, w.repo.index)
    && (forall c | c in w.calls :: TiedCall(env.digest, w.calls[c]))
    && (forall i | 0 <= i < |w.responses| :: DerivedOrEmpty(env.digest, w.responses[i]))
  }

  lemma TiedAnswer(env: Env, w: World, key: string)
    requires TiedWorld(env, w)
    ensures TiedWorld(env, Answered(w, key))
  {
    if Found(w.repo, key).Ok? {
      assert DerivedOrEmpty(env.digest, Response(key, Found(w.repo, key).value.id));
    }
  }

  lemma TiedCommit(env: Env, w: World, call: nat)
    requires TiedWorld(env, w) && call in w.calls
    ensures w.calls[call].Creating? ==> TiedWorld(env, AfterCreate(w, call))
    ensures w.calls[call].Updating? ==> TiedWorld(env, AfterUpdate(w, call))
  {
    assert TiedCall(env.digest, w.calls[call]);
  }

  lemma TiedSubmit(env: Env, w: World, call: nat, intent: Intent, draw: Draw, now: int, at: int)
    requires TiedWorld(env, w)
    ensures TiedWorld(env, AfterSubmit(env, w, call, intent, draw, now, at))
  {
    SubmitSound(env, w, call, intent, draw, now, at);
  }

  lemma TiedUpdating(env: Env, w: World, call: nat, c: Call)
    requires TiedWorld(env, w) && c.Updating?
    ensures TiedWorld(env, WithCall(w, call, c))
  {}

  lemma TiedStep(env: Env, w: World, s: Step)
    requires Enabled(env, w, s) && TiedWorld(env, w)
    ensures TiedWorld(env, After(env, w, s))
  {
    match s {
      case Replay(key) => TiedAnswer(env, w, key);
      case BeginSubmit(call, intent, draw, now, at) => TiedSubmit(env, w, call, intent, draw, now, at);
      case CommitCreate(call) => TiedCommit(env, w, call);
      case RetryLookup(call) => TiedAnswer(env, WithoutCall(w, call), w.calls[call].key);
      case BeginTransition(call, _, _, _, _, _, _) => TiedUpdating(env, w, call, After(env, w, s).calls[call]);
      case BeginAttach(call, _, _, _) => TiedUpdating(env, w, call, After(env, w, s).calls[call]);
      case BeginControl(call, _, _, _, _, _) => TiedUpdating(env, w, call, After(env, w, s).calls[call]);
      case CommitUpdate(call) => TiedCommit(env, w, call);
      case _ =>
    }
  }

  lemma {:induction false} RunTied(env: Env, worlds: seq<World>, steps: seq<Step>, i: nat)
    requires IsRun(env, worlds, steps) && i < |worlds|
    ensures TiedWorld(env, worlds[i])
    decreases i
  {
    if i > 0 {
      RunTied(env, worlds, steps, i - 1);
      TiedStep(env, worlds[i - 1], steps[i - 1]);
    }
  }

  /** Collisions or not, an answer to a key that is not blank names the operation derived from it, or none. */
  lemma NoForeignAnswer(env: Env, worlds: seq<World>, steps: seq<Step>, i: nat, a: nat)
    requires IsRun(env, worlds, steps) && i < |worlds| && a < |worlds[i].responses| && !Blank(worlds[i].responses[a].key)
    ensures worlds[i].responses[a].operationId in {OperationId(worlds[i].responses[a].key, env.digest), ""}
  {
    RunTied(env, worlds, steps, i);
  }

  // ---------------------------------------------------------------- when all answers agree

  /** Without withdrawals an indexed operation is never gone, so an answer is never empty. */
  ghost predicate Complete(env: Env, w: World) {
    && TiedWorld(env, w)
    && (forall k | k in w.repo.index :: w.repo.index[k] in w.repo.operations)
    && GoodResponses(env, w.responses)
  }

  lemma CompleteAnswer(env: Env, w: World, key: string)
    requires Complete(env, w)
    ensures GoodResponses(env, Answered(w, key).responses)
  {
    if Found(w.repo, key).Ok? {
      assert GoodResponse(env, Response(key, Found(w.repo, key).value.id));
    }
  }

  lemma CompleteCreate(env: Env, w: World, call: nat)
    requires Complete(env, w) && call in w.calls && w.calls[call].Creating?
    ensures GoodResponses(env, AfterCreate(w, call).responses)
    ensures var r := AfterCreate(w, call).repo; forall k | k in r.index :: r.index[k] in r.operations
  {
    assert TiedCall(env.digest, w.calls[call]);
  }

  lemma CompleteStep(env: Env, w: World, s: Step)
    requires !env.compensates && Enabled(env, w, s) && Complete(env, w)
    ensures Complete(env, After(env, w, s))
  {
    TiedStep(env, w, s);
    match s {
      case Replay(key) => CompleteAnswer(env, w, key);
      case RetryLookup(call) =>
        assert TiedWorld(env, WithoutCall(w, call));
        CompleteAnswer(env, WithoutCall(w, call), w.calls[call].key);
      case CommitCreate(call) => CompleteCreate(env, w, call);
      case _ =>
    }
  }

  lemma {:induction false} RunComplete(env: Env, worlds: seq<World>, steps: seq<Step>, i: nat)
    requires !env.compensates && IsRun(env, worlds, steps) && i < |worlds|
    ensures Complete(env, worlds[i])
    decreases i
  {
    if i > 0 {
      RunComplete(env, worlds, steps, i - 1);
      CompleteStep(env, worlds[i - 1], steps[i - 1]);
    }
  }

  lemma GoodResponsesAgree(env: Env, responses: seq<Response>)
    requires GoodResponses(env, responses)
    ensures Agree(responses)
  {
    forall a, b | 0 <= a < |responses| && 0 <= b < |responses| && responses[a].key == responses[b].key &&
                  !Blank(responses[a].key)
      ensures responses[a].operationId == responses[b].operationId
    {
      assert GoodResponse(env, responses[a]) && GoodResponse(env, responses[b]);
    }
  }

  /** Under any interleaving, if no two submitted keys collide, all answers to one key name one operation. */
  lemma OneOperationPerKey(env: Env, worlds: seq<World>, steps: seq<Step>, i: nat)
    requires Lawful(env) && IsRun(env, worlds, steps) && i < |worlds|
    ensures Agree(worlds[i].responses)
  {
    RunKeyed(env, worlds, steps, i);
    GoodResponsesAgree(env, worlds[i].responses);
  }

  /** All answers to each key that is not blank agree in every run, exactly without collisions or without compensation. */
  lemma AgreeIffNoCollision(env: Env)
    requires HexDigests(env)
    ensures AlwaysAgree(env) <==> NoCollision(env) || !env.compensates
  {
    if NoCollision(env) || !env.compensates {
      forall worlds: seq<World>, steps: seq<Step> | IsRun(env, worlds, steps)
        ensures Agree(worlds[|steps|].responses)
      {
        if NoCollision(env) {
          OneOperationPerKey(env, worlds, steps, |steps|);
        } else {
          RunComplete(env, worlds, steps, |steps|);
          GoodResponsesAgree(env, worlds[|steps|].responses);
        }
      }
    } else {
      var j, k :| j in env.keys && k in env.keys && !Blank(j) && !Blank(k) && env.digest(j) == env.digest(k) && j != k;
      var worlds, steps := CollisionForgets(env, j, k);
    }
  }

  // ---------------------------------------------------------------- how long an answered operation stays

  /** Step `i` answers a submission of this key with this operation. */
  ghost predicate Answers(worlds: seq<World>, i: nat, key: string, o: string)
    requires i + 1 < |worlds|
  {
    worlds[i + 1].responses == worlds[i].responses + [Response(key, o)]
  }

  /** A submitter whose ledger write failed takes the operation back. */
  predicate Withdraws(s: Step, o: string) {
    s.DeleteSubmission? && s.operationId == o
  }

  /** The step creates the operation. */
  ghost predicate Makes(w: World, s: Step, o: string) {
    && s.CommitCreate? && s.call in w.calls && w.calls[s.call].Creating? && w.calls[s.call].op.id == o
    && Created(w.repo, w.calls[s.call].intent, w.calls[s.call].op).Ok?
  }

  lemma StoredStep(env: Env, w: World, s: Step, o: string)
    requires Enabled(env, w, s)
    ensures o in After(env, w, s).repo.operations <==> Makes(w, s, o) || (o in w.repo.operations && !Withdraws(s, o))
  {}

  lemma FoundIsStored(w: World, key: string)
    requires IndexMirrors(w.repo) && Found(w.repo, key).Ok?
    ensures Found(w.repo, key).value.id in w.repo.operations
  {}

  /** Whatever is answered is stored when the answer is given. */
  lemma AnswerStep(env: Env, w: World, s: Step, key: string, o: string)
    requires Enabled(env, w, s) && IndexMirrors(w.repo) && After(env, w, s).responses == w.responses + [Response(key, o)]
    ensures o in After(env, w, s).repo.operations
  {
    var rs := After(env, w, s).responses;
    assert rs[|w.responses|] == Response(key, o);
    if s.Replay? {
      FoundIsStored(w, s.key);
    } else if s.RetryLookup? {
      FoundIsStored(w, w.calls[s.call].key);
    }
  }

  ghost predicate StoredThroughout(worlds: seq<World>, i: nat, j: nat, o: string)
    requires j < |worlds|
  {
    forall k | i <= k <= j :: o in worlds[k].repo.operations
  }

  ghost predicate Withdrawn(steps: seq<Step>, i: nat, j: nat, o: string)
    requires j <= |steps|
  {
    exists d | i <= d < j :: Withdraws(steps[d], o)
  }

  /** What one step does to the presence of an operation. */
  ghost predicate StoredLaw(w: World, s: Step, v: World, o: string) {
    o in v.repo.operations <==> Makes(w, s, o) || (o in w.repo.operations && !Withdraws(s, o))
  }

  lemma RunStoredLaw(env: Env, worlds: seq<World>, steps: seq<Step>, k: nat, o: string)
    requires IsRun(env, worlds, steps) && k < |steps|
    ensures StoredLaw(worlds[k], steps[k], worlds[k + 1], o)
  {
    StoredStep(env, worlds[k], steps[k], o);
  }

  lemma {:induction false} StoredInChain(worlds: seq<World>, steps: seq<Step>, i: nat, j: nat, o: string)
    requires |worlds| == |steps| + 1 && i <= j < |worlds| && o in worlds[i].repo.operations
    requires forall k | 0 <= k < |steps| :: StoredLaw(worlds[k], steps[k], worlds[k + 1], o)
    ensures StoredThroughout(worlds, i, j, o) <==> !Withdrawn(steps, i, j, o)
    decreases j - i
  {
    if i < j {
      StoredInChain(worlds, steps, i, j - 1, o);
      assert StoredLaw(worlds[j - 1], steps[j - 1], worlds[j], o);
      if Withdraws(steps[j - 1], o) {
        assert o !in worlds[j].repo.operations;
      }
    }
  }

  lemma StoredIffNotWithdrawn(env: Env, worlds: seq<World>, steps: seq<Step>, i: nat, j: nat, o: string)
    requires IsRun(env, worlds, steps) && i <= j < |worlds| && o in worlds[i].repo.operations
    ensures StoredThroughout(worlds, i, j, o) <==> !Withdrawn(steps, i, j, o)
  {
    forall k | 0 <= k < |steps| ensures StoredLaw(worlds[k], steps[k], worlds[k + 1], o) {
      RunStoredLaw(env, worlds, steps, k, o);
    }
    StoredInChain(worlds, steps, i, j, o);
  }

  /**
   An operation that a caller was answered with, first submitter or concurrent replay alike, stays stored
   if and only if no submitter of the same operation takes it back after the answer.
   */
  lemma AnsweredStaysIff(
      env: Env, worlds: seq<World>, steps: seq<Step>, i: nat, j: nat, key: string, o: string)
    requires Lawful(env) && IsRun(env, worlds, steps) && i < j < |worlds| && Answers(worlds, i, key, o)
    ensures StoredThroughout(worlds, i + 1, j, o) <==> !Withdrawn(steps, i + 1, j, o)
  {
    RunKeyed(env, worlds, steps, i);
    AnswerStep(env, worlds[i], steps[i], key, o);
    StoredIffNotWithdrawn(env, worlds, steps, i + 1, j, o);
  }

  /** A first submitter takes back an operation that a replay has already been answered with. */
  lemma ReplayLosesOperation(env: Env, key: string) returns (worlds: seq<World>, steps: seq<Step>)
    requires env.compensates && key in env.keys && !Blank(key)
    ensures var o := OperationId(key, env.digest);
            && IsRun(env, worlds, steps) && |steps| >= 2
            && Answers(worlds, |steps| - 2, key, o) && steps[|steps| - 2] == Replay(key)
            && Withdraws(steps[|steps| - 1], o) && o !in worlds[|steps|].repo.operations
            && Found(worlds[|steps|].repo, key).Err?
  {
    var o := OperationId(key, env.digest);
    worlds, steps := SubmitExtends(env, [Initial], [], "a", key);
    NotEmpty(key);
    RunSound(env, worlds, steps, |steps|);
    ReplayAnswers(env, worlds[|steps|], key);
    worlds, steps := Extended(env, worlds, steps, Replay(key));
    WithdrawForgets(env, worlds[|steps|], "a", key, o);
    worlds, steps := Extended(env, worlds, steps, DeleteSubmission("a", o));
  }

  lemma ReplayAnswers(env: Env, w: World, key: string)
    requires Holds(env, w, key, key) && Sound(w.repo) && key != ""
    ensures Enabled(env, w, Replay(key)) && Holds(env, After(env, w, Replay(key)), key, key)
    ensures After(env, w, Replay(key)).responses == w.responses + [Response(key, OperationId(key, env.digest))]
  {}

  lemma WithdrawForgets(env: Env, w: World, intentId: string, key: string, o: string)
    requires env.compensates && Holds(env, w, key, key) && key != "" && o == OperationId(key, env.digest)
    ensures var s := DeleteSubmission(intentId, o);
            && Enabled(env, w, s) && o !in After(env, w, s).repo.operations
            && Found(After(env, w, s).repo, key).Err?
  {}

  /** Every answered operation is stored from the answer on, however the run goes on. */
  ghost predicate AnswersLast(env: Env) {
    forall worlds: seq<World>, steps: seq<Step>, i: nat, key: string, o: string |
      IsRun(env, worlds, steps) && i < |steps| && Answers(worlds, i, key, o) ::
      StoredThroughout(worlds, i + 1, |steps|, o)
  }

  lemma CompleteAnswerIsStored(env: Env, w: World, s: Step, key: string, o: string)
    requires !env.compensates && Enabled(env, w, s) && Complete(env, w)
    requires After(env, w, s).responses == w.responses + [Response(key, o)]
    ensures o in After(env, w, s).repo.operations
  {
    var rs := After(env, w, s).responses;
    assert rs[|w.responses|] == Response(key, o);
  }

  lemma NobodyWithdraws(env: Env, worlds: seq<World>, steps: seq<Step>, i: nat, j: nat, o: string)
    requires !env.compensates && IsRun(env, worlds, steps) && j <= |steps|
    ensures !Withdrawn(steps, i, j, o)
  {
    forall d | i <= d < j ensures !Withdraws(steps[d], o) {
      assert Enabled(env, worlds[d], steps[d]);
    }
  }

  /**
   A caller can rely on every answered operation, collisions or not, if and only if the service is configured
   without a ledger gateway that failed submissions are compensated for.
   */
  lemma AnswersLastIff(env: Env, key: string)
    requires key in env.keys && !Blank(key)
    ensures AnswersLast(env) <==> !env.compensates
  {
    if env.compensates {
      var worlds, steps := ReplayLosesOperation(env, key);
      var o := OperationId(key, env.digest);
      assert !StoredThroughout(worlds, |steps| - 1, |steps|, o);
      assert Answers(worlds, |steps| - 2, key, o);
    } else {
      forall worlds: seq<World>, steps: seq<Step>, i: nat, k: string, o: string |
        IsRun(env, worlds, steps) && i < |steps| && Answers(worlds, i, k, o)
        ensures StoredThroughout(worlds, i + 1, |steps|, o)
      {
        RunComplete(env, worlds, steps, i);
        CompleteAnswerIsStored(env, worlds[i], steps[i], k, o);
        NobodyWithdraws(env, worlds, steps, i + 1, |steps|, o);
        StoredIffNotWithdrawn(env, worlds, steps, i + 1, |steps|, o);
      }
    }
  }
}
