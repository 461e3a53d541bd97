/**
 Operation histories are documented as append-only (pkg/intents/types.go). A call reads an operation under
 one lock and writes it back under another, so a stale write can drop entries. This module says exactly
 when a write keeps the history it finds.
 */
module IntentRaces {
  import opened Basics
  import opened GoText
  import opened Lifecycle
  import opened Operations
  import opened IntentRepository
  import opened IntentService
  import opened IntentRuns
  import Ledger

  /** An entry without its reference to the ledger, which a receipt may set later. */
  function Core(t: Transition): Transition {
    t.(ledgerEntryId := "")
  }

  /** Every entry of `h` is in the same place in `g`, ledger references aside. */
  predicate KeptIn(h: seq<Transition>, g: seq<Transition>) {
    |h| <= |g| && forall i | 0 <= i < |h| :: Core(h[i]) == Core(g[i])
  }

  lemma KeptTransitive(a: seq<Transition>, b: seq<Transition>, c: seq<Transition>)
    requires KeptIn(a, b) && KeptIn(b, c)
    ensures KeptIn(a, c)
  {
    forall i | 0 <= i < |a| ensures Core(a[i]) == Core(c[i]) {
      assert Core(a[i]) == Core(b[i]);
    }
  }

  function HistoryOf(w: World, id: string): seq<Transition>
    requires id in w.repo.operations
  {
    w.repo.operations[id].transitions
  }

  // ---------------------------------------------------------------- where a write comes from

  /** The step in which the call reads the operation that it will write back. */
  predicate Reads(s: Step, call: nat) {
    (s.BeginTransition? || s.BeginAttach? || s.BeginControl?) && s.call == call
  }

  /** Step `b` is the read of the call whose write is pending before step `i`. */
  predicate ReadFor(steps: seq<Step>, b: nat, i: nat, call: nat) {
    b < i <= |steps| && Reads(steps[b], call) && forall k | b < k < i :: !Reads(steps[k], call)
  }

  /** The history the call will write: the one it read, or that with its own entry. */
  function Intended(s: Step, read: seq<Transition>): seq<Transition> {
    if s.BeginTransition? then Append(read, s.next, s.at, s.reason, s.actor) else read
  }

  ghost predicate SameEntries(h: seq<Transition>, g: seq<Transition>) {
    KeptIn(h, g) && KeptIn(g, h)
  }

  lemma MergedEntries(op: Operation, receipt: Receipt, now: int)
    requires Merged(op, receipt, now).Ok?
    ensures Merged(op, receipt, now).value.id == op.id
    ensures SameEntries(Merged(op, receipt, now).value.transitions, op.transitions)
  {}

  lemma AttachEntries(r: Repo, ledger: Option<Ledger.State>, id: string, receipt: Receipt, now: int)
    requires AttachOutcome(r, ledger, id, receipt, now).Ok?
    ensures AttachOutcome(r, ledger, id, receipt, now).value.id == r.operations[id].id
    ensures SameEntries(AttachOutcome(r, ledger, id, receipt, now).value.transitions, r.operations[id].transitions)
  {
    MergedEntries(r.operations[id], receipt, now);
  }

  /** The call under `call` will write to `id` what step `s` intended when it read the operation in `w`. */
  ghost predicate WritesWhatItRead(w: World, s: Step, c: Call) {
    && c.Updating? && (s.BeginTransition? || s.BeginAttach? || s.BeginControl?)
    && s.id in w.repo.operations && c.op.id == s.id
    && SameEntries(c.op.transitions, Intended(s, HistoryOf(w, s.id)))
  }

  lemma ReadStep(env: Env, w: World, s: Step, call: nat)
    requires Enabled(env, w, s) && Reads(s, call) && Sound(w.repo)
    ensures After(env, w, s).repo == w.repo && call in After(env, w, s).calls
    ensures WritesWhatItRead(w, s, After(env, w, s).calls[call])
  {
    if s.BeginAttach? {
      AttachEntries(w.repo, Verifier(env, w), s.id, s.receipt, s.now);
    }
  }

  lemma OtherStep(env: Env, w: World, s: Step, call: nat)
    requires Enabled(env, w, s) && !Reads(s, call)
    requires call in After(env, w, s).calls && After(env, w, s).calls[call].Updating?
    ensures call in w.calls && w.calls[call] == After(env, w, s).calls[call]
  {}

  ghost predicate Follows(env: Env, w: World, s: Step, v: World) {
    Enabled(env, w, s) && v == After(env, w, s)
  }

  lemma RunFollows(env: Env, worlds: seq<World>, steps: seq<Step>, k: nat)
    requires IsRun(env, worlds, steps) && k < |steps|
    ensures Follows(env, worlds[k], steps[k], worlds[k + 1])
  {}

  lemma RunStarts(env: Env, worlds: seq<World>, steps: seq<Step>)
    requires IsRun(env, worlds, steps)
    ensures |worlds| == |steps| + 1 && worlds[0].calls == map[]
  {}

  /** A pending write was there before the step, or the step is the one that reads for it. */
  ghost predicate Provenance(w: World, s: Step, v: World, call: nat) {
    call in v.calls && v.calls[call].Updating? ==>
      if Reads(s, call) then v.repo == w.repo && WritesWhatItRead(w, s, v.calls[call])
      else call in w.calls && w.calls[call] == v.calls[call]
  }

  lemma StepProvenance(env: Env, w: World, s: Step, v: World, call: nat)
    requires Follows(env, w, s, v) && Sound(w.repo)
    ensures Provenance(w, s, v, call)
  {
    if call in v.calls && v.calls[call].Updating? {
      if Reads(s, call) {
        ReadStep(env, w, s, call);
      } else {
        OtherStep(env, w, s, call);
      }
    }
  }

  lemma {:induction false} ReadInChain(worlds: seq<World>, steps: seq<Step>, i: nat, call: nat) returns (b: nat)
    requires |worlds| == |steps| + 1 && worlds[0].calls == map[] && i < |worlds|
    requires forall k | 0 <= k < |steps| :: Provenance(worlds[k], steps[k], worlds[k + 1], call)
    requires call in worlds[i].calls && worlds[i].calls[call].Updating?
    ensures ReadFor(steps, b, i, call) && worlds[b + 1].repo == worlds[b].repo
    ensures WritesWhatItRead(worlds[b], steps[b], worlds[i].calls[call])
    decreases i
  {
    b := i - 1;
    assert Provenance(worlds[b], steps[b], worlds[b + 1], call);
    if !Reads(steps[b], call) {
      b := ReadInChain(worlds, steps, b, call);
    }
  }

  /** A pending write goes back to the step in which its call read the operation. */
  lemma ReadBefore(env: Env, worlds: seq<World>, steps: seq<Step>, i: nat, call: nat) returns (b: nat)
    requires IsRun(env, worlds, steps) && i < |worlds|
    requires call in worlds[i].calls && worlds[i].calls[call].Updating?
    ensures ReadFor(steps, b, i, call) && worlds[b + 1].repo == worlds[b].repo
    ensures WritesWhatItRead(worlds[b], steps[b], worlds[i].calls[call])
  {
    RunStarts(env, worlds, steps);
    forall k | 0 <= k < |steps| ensures Provenance(worlds[k], steps[k], worlds[k + 1], call) {
      RunSound(env, worlds, steps, k);
      RunFollows(env, worlds, steps, k);
      StepProvenance(env, worlds[k], steps[k], worlds[k + 1], call);
    }
    b := ReadInChain(worlds, steps, i, call);
  }

  // ---------------------------------------------------------------- when a write keeps the history

  /** Step `i` writes the operation `id` back, and it is still there. */
  ghost predicate Lands(env: Env, worlds: seq<World>, steps: seq<Step>, i: nat, id: string) {
    && IsRun(env, worlds, steps) && i < |steps| && steps[i].CommitUpdate?
    && worlds[i].calls[steps[i].call].Updating? && worlds[i].calls[steps[i].call].op.id == id
    && id in worlds[i].repo.operations
  }

  /** The stored history is the one the call read and, where it makes a transition, the very entry it would write. */
  predicate SameEntryAlready(s: Step, read: seq<Transition>, stored: seq<Transition>) {
    s.BeginTransition? && |stored| == |read| + 1 && KeptIn(stored, Intended(s, read))
  }

  lemma KeptWhenIntended(s: Step, read: seq<Transition>, stored: seq<Transition>, written: seq<Transition>)
    requires SameEntries(written, Intended(s, read))
    ensures KeptIn(stored, written) <==> KeptIn(stored, read) || SameEntryAlready(s, read, stored)
  {
    var intended := Intended(s, read);
    if KeptIn(stored, written) {
      KeptTransitive(stored, written, intended);
    }
    if KeptIn(stored, intended) {
      KeptTransitive(stored, intended, written);
    }
    if KeptIn(stored, read) {
      assert KeptIn(read, intended);
      KeptTransitive(stored, read, intended);
    }
  }

  lemma LandedWrite(env: Env, worlds: seq<World>, steps: seq<Step>, i: nat, id: string)
    requires Lands(env, worlds, steps, i, id)
    ensures id in worlds[i + 1].repo.operations
    ensures worlds[i + 1].repo.operations[id] == worlds[i].calls[steps[i].call].op
  {}

  /**
   Of every write that lands in any run: it keeps the stored history if and only if that history holds
   nothing beyond what was stored when its call read the operation, or only the very entry that the call
   itself writes.
   */
  lemma WriteKeepsHistoryIff(env: Env, worlds: seq<World>, steps: seq<Step>, i: nat, id: string) returns (b: nat)
    requires Lands(env, worlds, steps, i, id)
    ensures ReadFor(steps, b, i, steps[i].call) && steps[b].id == id && id in worlds[b].repo.operations
    ensures worlds[b + 1].repo == worlds[b].repo
    ensures id in worlds[i + 1].repo.operations
    ensures KeptIn(HistoryOf(worlds[i], id), HistoryOf(worlds[i + 1], id)) <==>
            || KeptIn(HistoryOf(worlds[i], id), HistoryOf(worlds[b], id))
            || SameEntryAlready(steps[b], HistoryOf(worlds[b], id), HistoryOf(worlds[i], id))
  {
    b := ReadBefore(env, worlds, steps, i, steps[i].call);
    LandedWrite(env, worlds, steps, i, id);
    KeptWhenIntended(steps[b], HistoryOf(worlds[b], id), HistoryOf(worlds[i], id), HistoryOf(worlds[i + 1], id));
  }

  // ---------------------------------------------------------------- the same, step by step

  /** Step `k` put an entry into the operation's history that was not in it, or created the operation. */
  ghost predicate AddsEntry(worlds: seq<World>, k: nat, id: string)
    requires k + 1 < |worlds|
  {
    id in worlds[k + 1].repo.operations &&
    !(id in worlds[k].repo.operations && KeptIn(HistoryOf(worlds[k + 1], id), HistoryOf(worlds[k], id)))
  }

  /** Step `k` left every entry of the operation's history in place. */
  ghost predicate KeepsEntries(worlds: seq<World>, k: nat, id: string)
    requires k + 1 < |worlds|
  {
    && id in worlds[k].repo.operations && id in worlds[k + 1].repo.operations
    && KeptIn(HistoryOf(worlds[k], id), HistoryOf(worlds[k + 1], id))
  }

  /** Without additions the history stored later is part of the one stored earlier. */
  lemma {:induction false} NothingAdded(worlds: seq<World>, b: nat, i: nat, id: string)
    requires b <= i < |worlds| && id in worlds[i].repo.operations
    requires forall k | b <= k < i :: !AddsEntry(worlds, k, id)
    ensures id in worlds[b].repo.operations && KeptIn(HistoryOf(worlds[i], id), HistoryOf(worlds[b], id))
    decreases i - b
  {
    if b < i {
      assert !AddsEntry(worlds, i - 1, id);
      NothingAdded(worlds, b, i - 1, id);
      KeptTransitive(HistoryOf(worlds[i], id), HistoryOf(worlds[i - 1], id), HistoryOf(worlds[b], id));
    }
  }

  /** Without losses the history stored earlier is part of the one stored later, and longer by what was added. */
  lemma {:induction false} NothingLost(worlds: seq<World>, b: nat, i: nat, id: string)
    requires b <= i < |worlds| && id in worlds[b].repo.operations
    requires forall k | b <= k < i :: KeepsEntries(worlds, k, id)
    ensures id in worlds[i].repo.operations && KeptIn(HistoryOf(worlds[b], id), HistoryOf(worlds[i], id))
    ensures |HistoryOf(worlds[b], id)| == |HistoryOf(worlds[i], id)| ==> forall k | b <= k < i :: !AddsEntry(worlds, k, id)
    decreases i - b
  {
    if b < i {
      assert KeepsEntries(worlds, i - 1, id);
      NothingLost(worlds, b, i - 1, id);
      KeptTransitive(HistoryOf(worlds[b], id), HistoryOf(worlds[i - 1], id), HistoryOf(worlds[i], id));
    }
  }

  /** A write keeps the history if nobody added to the operation, or deleted and recreated it, since its call read it. */
  lemma UndisturbedWriteKeeps(env: Env, worlds: seq<World>, steps: seq<Step>, i: nat, id: string) returns (b: nat)
    requires Lands(env, worlds, steps, i, id)
    ensures ReadFor(steps, b, i, steps[i].call) && steps[b].id == id
    ensures (forall k | b < k < i :: !AddsEntry(worlds, k, id)) ==> KeepsEntries(worlds, i, id)
  {
    b := WriteKeepsHistoryIff(env, worlds, steps, i, id);
    if forall k | b < k < i :: !AddsEntry(worlds, k, id) {
      NothingAdded(worlds, b + 1, i, id);
    }
  }

  /**
   The first loss. Where no step since the read has dropped an entry of the operation, the write drops one
   if and only if some step since the read added one, other than the very entry the call writes.
   */
  lemma FirstLossIff(env: Env, worlds: seq<World>, steps: seq<Step>, i: nat, id: string) returns (b: nat)
    requires Lands(env, worlds, steps, i, id)
    ensures ReadFor(steps, b, i, steps[i].call) && steps[b].id == id && id in worlds[b].repo.operations
    ensures (forall k | b < k < i :: KeepsEntries(worlds, k, id)) ==>
      (!KeepsEntries(worlds, i, id) <==>
       && (exists k | b < k < i :: AddsEntry(worlds, k, id))
       && !SameEntryAlready(steps[b], HistoryOf(worlds[b], id), HistoryOf(worlds[i], id)))
  {
    b := WriteKeepsHistoryIff(env, worlds, steps, i, id);
    if forall k | b < k < i :: KeepsEntries(worlds, k, id) {
      NothingLost(worlds, b + 1, i, id);
      if forall k | b < k < i :: !AddsEntry(worlds, k, id) {
        NothingAdded(worlds, b + 1, i, id);
      }
    }
  }

  // ---------------------------------------------------------------- it does happen

  predicate JustAccepted(w: World, id: string) {
    && w.calls == map[] && id in w.repo.operations && w.repo.operations[id].id == id
    && w.repo.operations[id].state == Accepted && |w.repo.operations[id].transitions| == 2
  }

  /** Two calls read the same operation: the outside controller, and a transition to FAILED. */
  lemma TwoReads(env: Env, w: World, id: string, control: Step, fail: Step)
    requires JustAccepted(w, id)
    requires control == BeginControl(1, id, "", None, None, "") && fail == BeginTransition(2, id, Failed, "", "", 0, 0)
    ensures Enabled(env, w, control) && Enabled(env, After(env, w, control), fail)
    ensures BothPending(After(env, After(env, w, control), fail), id)
  {}

  /** The transition is written first, then what the controller read. */
  lemma TwoWrites(env: Env, v: World, id: string)
    requires BothPending(v, id)
    ensures Enabled(env, v, CommitUpdate(2)) && Enabled(env, After(env, v, CommitUpdate(2)), CommitUpdate(1))
    ensures var x := After(env, v, CommitUpdate(2));
            && x.calls == v.calls - {2} && id in x.repo.operations && x.repo.operations[id] == v.calls[2].op
            && var y := After(env, x, CommitUpdate(1));
               id in y.repo.operations && y.repo.operations[id] == v.calls[1].op
  {}

  /** Both calls have read, and neither has written. */
  predicate BothPending(v: World, id: string) {
    && id in v.repo.operations && 1 in v.calls && 2 in v.calls && v.calls[1].Updating? && v.calls[2].Updating?
    && v.calls[1].op.id == id && v.calls[1].op.state == Accepted && |v.calls[1].op.transitions| == 2
    && v.calls[2].op.id == id && v.calls[2].op.state == Failed && |v.calls[2].op.transitions| == 3
  }

  lemma AcceptedRun(env: Env, key: string, id: string) returns (worlds: seq<World>, steps: seq<Step>)
    requires key in env.keys && !Blank(key) && id == OperationId(key, env.digest)
    ensures IsRun(env, worlds, steps) && JustAccepted(worlds[|steps|], id)
  {
    worlds, steps := SubmitExtends(env, [Initial], [], "a", key);
    RunSound(env, worlds, steps, |steps|);
  }

  lemma StaleReads(env: Env, key: string) returns (worlds: seq<World>, steps: seq<Step>, id: string)
    requires key in env.keys && !Blank(key)
    ensures IsRun(env, worlds, steps) && BothPending(worlds[|steps|], id)
  {
    id := OperationId(key, env.digest);
    worlds, steps := AcceptedRun(env, key, id);
    var control, fail := BeginControl(1, id, "", None, None, ""), BeginTransition(2, id, Failed, "", "", 0, 0);
    TwoReads(env, worlds[|steps|], id, control, fail);
    worlds, steps := Extended(env, worlds, steps, control);
    worlds, steps := Extended(env, worlds, steps, fail);
  }

  /** A run that ends by writing back a stale operation over one that has failed since. */
  lemma StaleWriteRevives(env: Env, key: string) returns (worlds: seq<World>, steps: seq<Step>, id: string)
    requires key in env.keys && !Blank(key)
    ensures |steps| > 0 && Lands(env, worlds, steps, |steps| - 1, id) && !KeepsEntries(worlds, |steps| - 1, id)
    ensures worlds[|steps| - 1].repo.operations[id].state == Failed
    ensures id in worlds[|steps|].repo.operations && worlds[|steps|].repo.operations[id].state == Accepted
  {
    worlds, steps, id := StaleReads(env, key);
    TwoWrites(env, worlds[|steps|], id);
    worlds, steps := Extended(env, worlds, steps, CommitUpdate(2));
    worlds, steps := Extended(env, worlds, steps, CommitUpdate(1));
  }
}
