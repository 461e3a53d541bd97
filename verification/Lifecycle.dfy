/** The governed operation's states, its transition table and its append-only history (pkg/intents/service.go). */
module Lifecycle {

  /** `Unset` is the empty string, the state of Go's zero operation. */
  datatype State =
    | Unset
    | Received | Accepted | Planned | GovernancePending | Authorized | Actuating | Observing | Verified
    | EvidencePending | Succeeded | Rejected | Deferred | Expired | Failed | RollingBack | RolledBack | Quarantined

  /** `allowedTransition`. */
  predicate AllowedTransition(from: State, to: State) {
    match from
    case Received => to == Accepted || to == Deferred || to == Rejected || to == Expired
    case Deferred => to == Accepted || to == Rejected || to == Expired || to == Failed
    case Accepted => to == Planned || to == Failed || to == Expired
    case Planned => to == GovernancePending || to == Failed
    case GovernancePending =>
      to == Authorized || to == Rejected || to == Deferred || to == Failed || to == Quarantined
    case Authorized => to == Actuating || to == Failed || to == Expired || to == Quarantined
    case Actuating => to == Observing || to == Failed || to == RollingBack || to == Quarantined
    case Observing => to == Verified || to == Failed || to == RollingBack || to == Quarantined
    case Verified => to == EvidencePending || to == RollingBack || to == Quarantined
    case EvidencePending => to == Succeeded || to == RollingBack || to == Quarantined
    case RollingBack => to == RolledBack || to == Quarantined
    case _ => false
  }

  datatype Transition = Transition(
    sequence: int, state: State, at: int, reason: string, actor: string, ledgerEntryId: string)

  /** `appendTransition`, on the history alone. */
  function Append(history: seq<Transition>, state: State, at: int, reason: string, actor: string): seq<Transition> {
    history + [Transition(|history| + 1, state, at, reason, actor, "")]
  }

  /** A history starts at RECEIVED, is numbered from one without gaps, and takes only allowed steps to `current`. */
  predicate ValidHistory(history: seq<Transition>, current: State) {
    && |history| > 0
    && history[0].state == Received
    && history[|history| - 1].state == current
    && (forall i | 0 <= i < |history| :: history[i].sequence == i + 1)
    && (forall i | 1 <= i < |history| :: AllowedTransition(history[i - 1].state, history[i].state))
  }

  /** The table read by its targets: where an operation can end without success. */
  lemma EndsFrom(from: State)
    ensures AllowedTransition(from, Failed) <==>
            from.Deferred? || from.Accepted? || from.Planned? || from.GovernancePending? || from.Authorized? ||
            from.Actuating? || from.Observing?
    ensures AllowedTransition(from, Quarantined) <==>
            from.GovernancePending? || from.Authorized? || from.Actuating? || from.Observing? || from.Verified? ||
            from.EvidencePending? || from.RollingBack?
    ensures AllowedTransition(from, Expired) <==> from.Received? || from.Deferred? || from.Accepted? || from.Authorized?
    ensures AllowedTransition(from, Rejected) <==> from.Received? || from.Deferred? || from.GovernancePending?
    ensures AllowedTransition(from, RolledBack) <==> from.RollingBack?
  {}

  /** Where it can be rolled back, put off and taken up again; nothing is received twice. */
  lemma TurnsFrom(from: State)
    ensures AllowedTransition(from, RollingBack) <==>
            from.Actuating? || from.Observing? || from.Verified? || from.EvidencePending?
    ensures AllowedTransition(from, Deferred) <==> from.Received? || from.GovernancePending?
    ensures AllowedTransition(from, Accepted) <==> from.Received? || from.Deferred?
    ensures !AllowedTransition(from, Received) && !AllowedTransition(from, Unset)
  {}

  lemma AppendKeepsHistory(history: seq<Transition>, current: State, next: State, at: int, reason: string, actor: string)
    requires ValidHistory(history, current) && AllowedTransition(current, next)
    ensures ValidHistory(Append(history, next, at, reason, actor), next)
  {}

  // ---------------------------------------------------------------- what a successful history looks like

  const SuccessPath: seq<State> :=
    [Accepted, Planned, GovernancePending, Authorized, Actuating, Observing, Verified, EvidencePending, Succeeded]

  /** Each state of the success path after the first can only be entered from the one before it. */
  lemma OnlyPredecessor(k: nat, from: State)
    requires 1 <= k < |SuccessPath| && AllowedTransition(from, SuccessPath[k])
    ensures from == SuccessPath[k - 1]
  {}

  lemma {:induction false} PathBackwards(history: seq<Transition>, current: State, end: nat, k: nat)
    requires ValidHistory(history, current)
    requires end < |history| && k < |SuccessPath| && history[end].state == SuccessPath[k]
    ensures k < end
    ensures forall i | 0 <= i <= k :: history[end - k + i].state == SuccessPath[i]
    decreases k
  {
    assert end != 0;
    assert AllowedTransition(history[end - 1].state, history[end].state);
    if k > 0 {
      OnlyPredecessor(k, history[end - 1].state);
      PathBackwards(history, current, end - 1, k - 1);
      forall i | 0 <= i <= k ensures history[end - k + i].state == SuccessPath[i] {
        assert i < k ==> history[(end - 1) - (k - 1) + i].state == SuccessPath[i];
      }
    }
  }

  /** An operation that SUCCEEDED went, last and without a detour, through every governed stage in order. */
  lemma SucceededHistory(history: seq<Transition>)
    requires ValidHistory(history, Succeeded)
    ensures |history| > |SuccessPath|
    ensures forall i | 0 <= i < |SuccessPath| :: history[|history| - |SuccessPath| + i].state == SuccessPath[i]
  {
    PathBackwards(history, Succeeded, |history| - 1, |SuccessPath| - 1);
  }

  // ---------------------------------------------------------------- how long a history can be

  /** The longest run still ahead of a state that is never deferred again. */
  function Rank(s: State): nat {
    match s
    case Received => 11
    case Deferred => 10
    case Accepted => 9
    case Planned => 8
    case GovernancePending => 7
    case Authorized => 6
    case Actuating => 5
    case Observing => 4
    case Verified => 3
    case EvidencePending => 2
    case RollingBack => 1
    case _ => 0
  }

  predicate Redeferral(from: State, to: State) {
    from == GovernancePending && to == Deferred
  }

  /** Every step but a re-deferral lowers the rank; a re-deferral raises it by three. */
  lemma RankDrops(from: State, to: State)
    requires AllowedTransition(from, to)
    ensures if Redeferral(from, to) then Rank(to) == Rank(from) + 3 else Rank(to) < Rank(from)
  {}

  /** The rank is no larger than it need be: from every state that can be left some step lowers it by one. */
  lemma RankIsTight(from: State) returns (to: State)
    requires Rank(from) > 0
    ensures AllowedTransition(from, to) && !Redeferral(from, to) && Rank(to) == Rank(from) - 1
  {
    to := match from
      case Received => Deferred
      case Deferred => Accepted
      case Accepted => Planned
      case Planned => GovernancePending
      case GovernancePending => Authorized
      case Authorized => Actuating
      case Actuating => Observing
      case Observing => Verified
      case Verified => EvidencePending
      case EvidencePending => RollingBack
      case _ => RolledBack;
  }

  /** A state is final exactly when its rank is zero. */
  lemma FinalIffRankZero(from: State)
    ensures (forall to :: !AllowedTransition(from, to)) <==> Rank(from) == 0
    ensures Rank(from) == 0 <==>
            from.Succeeded? || from.Rejected? || from.Expired? || from.Failed? || from.RolledBack? || from.Quarantined? || from.Unset?
  {
    if Rank(from) > 0 {
      var to := RankIsTight(from);
    }
  }

  function Redeferrals(history: seq<Transition>): nat {
    if |history| < 2 then 0
    else
      Redeferrals(history[..|history| - 1]) +
      (if Redeferral(history[|history| - 2].state, history[|history| - 1].state) then 1 else 0)
  }

  lemma ValidPrefix(history: seq<Transition>, current: State, n: nat)
    requires ValidHistory(history, current) && 0 < n <= |history|
    ensures ValidHistory(history[..n], history[n - 1].state)
  {
    var h := history[..n];
    forall i | 1 <= i < |h| ensures AllowedTransition(h[i - 1].state, h[i].state) {
      assert AllowedTransition(history[i - 1].state, history[i].state);
    }
  }

  /** Histories grow without bound only through governance sending an operation back to DEFERRED. */
  lemma {:induction false} HistoryLength(history: seq<Transition>, current: State)
    requires ValidHistory(history, current)
    ensures |history| <= 12 - Rank(current) + 4 * Redeferrals(history)
    decreases |history|
  {
    if |history| > 1 {
      var n := |history| - 1;
      assert AllowedTransition(history[n - 1].state, history[n].state);
      RankDrops(history[n - 1].state, history[n].state);
      ValidPrefix(history, current, n);
      HistoryLength(history[..n], history[n - 1].state);
    }
  }

  /** From ACTUATING on the rank bounds every later entry: nothing leads back to governance. */
  lemma {:induction false} RankAfterActuating(history: seq<Transition>, current: State, i: nat, j: nat)
    requires ValidHistory(history, current)
    requires i <= j < |history| && history[i].state == Actuating
    ensures Rank(history[j].state) <= 5 - (j - i)
    decreases j - i
  {
    if i < j {
      RankAfterActuating(history, current, i, j - 1);
      assert AllowedTransition(history[j - 1].state, history[j].state);
      RankDrops(history[j - 1].state, history[j].state);
    }
  }

  /** Once actuation has begun at most five transitions follow. */
  lemma BoundedAfterActuating(history: seq<Transition>, current: State, i: nat)
    requires ValidHistory(history, current) && i < |history| && history[i].state == Actuating
    ensures |history| - 1 - i <= 5
  {
    RankAfterActuating(history, current, i, |history| - 1);
  }
}
