/** The supervisor that runs the control-plane watchers only while this process leads (pkg/server/run.go). */
module LeaderWorkers {
  import opened Basics

  /** A started watcher group: whether its context was cancelled, and whether all its workers have returned. */
  datatype Group = Group(cancelled: bool, finished: bool)

  datatype Event =
    | Sampled(leader: bool)
    | Started(group: nat)
    | CancelCalled(group: nat)
    | DoneConsumed(group: nat)
    | DeadlinePassed

  /** The loop samples leadership, then waits in its select; `Exited` is after the context ended. */
  datatype Place = Top | Select | Exited

  /** The loop's variables, the groups it has started, and what it has done so far. */
  datatype Loop = Loop(
    place: Place, cancel: Option<nat>, done: Option<nat>, stopDeadline: bool, groups: seq<Group>, log: seq<Event>)

  const Initial := Loop(Top, None, None, false, [], [])

  /** A ready select case, a leadership sample, or a group whose workers return on their own. */
  datatype Input =
    | Sample(leader: bool)
    | Finish(group: nat)
    | ContextDone
    | GroupDone
    | Deadline
    | Ticked

  function Cancelled(s: Loop, g: nat): Loop
    requires g < |s.groups|
  {
    s.(groups := s.groups[g := s.groups[g].(cancelled := true)], log := s.log + [CancelCalled(g)])
  }

  /** The top of the loop: start when leading with no group outstanding, stop when no longer leading. */
  function AfterSample(s: Loop, leader: bool): Loop {
    var t := s.(place := Select, log := s.log + [Sampled(leader)]);
    if leader && s.done.None? then
      t.(cancel := Some(|s.groups|), done := Some(|s.groups|),
         groups := s.groups + [Group(false, false)], log := t.log + [Started(|s.groups|)])
    else if !leader && s.cancel.Some? && s.cancel.value < |s.groups| then
      Cancelled(t, s.cancel.value).(cancel := None, stopDeadline := true)
    else t
  }

  /** One step; an input that is not ready where the loop stands changes nothing. */
  function After(s: Loop, input: Input): Loop {
    match input
    case Sample(leader) => if s.place == Top then AfterSample(s, leader) else s
    case Finish(g) => if g < |s.groups| then s.(groups := s.groups[g := s.groups[g].(finished := true)]) else s
    case ContextDone =>
      if s.place != Select then s
      else
        var t := if s.cancel.Some? && s.cancel.value < |s.groups| then Cancelled(s, s.cancel.value) else s;
        t.(place := Exited, stopDeadline := false)
    case GroupDone =>
      if s.place == Select && s.done.Some? && s.done.value < |s.groups| && s.groups[s.done.value].finished
      then s.(place := Top, cancel := None, done := None, stopDeadline := false, log := s.log + [DoneConsumed(s.done.value)])
      else s
    case Deadline =>
      if s.place == Select && s.stopDeadline then s.(place := Top, stopDeadline := false, log := s.log + [DeadlinePassed]) else s
    case Ticked => if s.place == Select then s.(place := Top) else s
  }

  function Run(s: Loop, inputs: seq<Input>): Loop {
    if inputs == [] then s else After(Run(s, inputs[..|inputs| - 1]), inputs[|inputs| - 1])
  }

  // ---------------------------------------------------------------- the invariant

  /** Only the outstanding group can have workers left; it is cancelled once `cancel` has been called. */
  predicate GoodGroups(s: Loop) {
    && (forall g | 0 <= g < |s.groups| && s.done != Some(g) :: s.groups[g].finished)
    && (s.done.Some? ==> s.done.value < |s.groups|)
    && (s.cancel.Some? ==> s.cancel == s.done)
    && (s.done.Some? && s.cancel.None? ==> s.groups[s.done.value].cancelled)
    && (s.stopDeadline ==> s.done.Some? && s.cancel.None?)
  }

  /** Event `e` occurs strictly between two positions. */
  predicate Between(log: seq<Event>, e: Event, from: int, to: int) {
    exists k | 0 <= k < |log| :: from < k < to && log[k] == e
  }

  /** A group was cancelled or found finished strictly between two positions. */
  predicate Ended(log: seq<Event>, g: nat, from: int, to: int) {
    Between(log, CancelCalled(g), from, to) || Between(log, DoneConsumed(g), from, to)
  }

  /** A start follows a sample of leadership directly. */
  predicate StartsOnLeadership(log: seq<Event>) {
    forall i | 0 <= i < |log| && log[i].Started? :: i > 0 && log[i - 1] == Sampled(true)
  }

  /** A start comes only after the done signal of every earlier group was consumed. */
  predicate StartsAfterDone(log: seq<Event>) {
    forall j, i | 0 <= j < i < |log| && log[j].Started? && log[i].Started? ::
      Between(log, DoneConsumed(log[j].group), j, i)
  }

  /** A sample of lost leadership ends every group started before it, at the latest by the next event. */
  predicate LossEnds(log: seq<Event>) {
    forall j, i | 0 <= j < i < |log| && log[j].Started? && log[i] == Sampled(false) ::
      Ended(log, log[j].group, j, i + 2)
  }

  /** How the log accounts for the loop's variables. */
  predicate Accounted(s: Loop) {
    forall j | 0 <= j < |s.log| && s.log[j].Started? ::
      && (s.done == Some(s.log[j].group) || Between(s.log, DoneConsumed(s.log[j].group), j, |s.log|))
      && (s.cancel == Some(s.log[j].group) || Ended(s.log, s.log[j].group, j, |s.log|))
  }

  predicate Inv(s: Loop) {
    GoodGroups(s) && StartsOnLeadership(s.log) && StartsAfterDone(s.log) && LossEnds(s.log) && Accounted(s)
  }

  lemma BetweenStays(log: seq<Event>, more: seq<Event>, e: Event, from: int, to: int)
    requires Between(log, e, from, to)
    ensures Between(log + more, e, from, to)
  {
    var k :| 0 <= k < |log| && from < k < to && log[k] == e;
    assert (log + more)[k] == e;
  }

  lemma EndedStays(log: seq<Event>, more: seq<Event>, g: nat, from: int, to: int, later: int)
    requires Ended(log, g, from, to) && to <= later
    ensures Ended(log + more, g, from, later)
  {
    var e := if Between(log, CancelCalled(g), from, to) then CancelCalled(g) else DoneConsumed(g);
    BetweenStays(log, more, e, from, to);
    assert Between(log + more, e, from, later);
  }

  /** Appending events that start nothing and lose nothing keeps the three laws of the log. */
  lemma QuietAppend(log: seq<Event>, e: Event)
    requires StartsOnLeadership(log) && StartsAfterDone(log) && LossEnds(log)
    requires !e.Started? && e != Sampled(false)
    ensures StartsOnLeadership(log + [e]) && StartsAfterDone(log + [e]) && LossEnds(log + [e])
  {
    var l := log + [e];
    forall j, i | 0 <= j < i < |l| && l[j].Started? && l[i].Started?
      ensures Between(l, DoneConsumed(l[j].group), j, i)
    {
      BetweenStays(log, [e], DoneConsumed(log[j].group), j, i);
    }
    forall j, i | 0 <= j < i < |l| && l[j].Started? && l[i] == Sampled(false)
      ensures Ended(l, l[j].group, j, i + 2)
    {
      EndedStays(log, [e], log[j].group, j, i + 2, i + 2);
    }
  }

  /** The accounting carries over when the variables do. */
  lemma AccountedAppend(s: Loop, t: Loop, e: Event)
    requires Accounted(s) && t.log == s.log + [e] && !e.Started?
    requires s.done == t.done || (s.done.Some? && e == DoneConsumed(s.done.value))
    requires s.cancel == t.cancel ||
      (s.cancel.Some? && (e == CancelCalled(s.cancel.value) || e == DoneConsumed(s.cancel.value)))
    ensures Accounted(t)
  {
    forall j | 0 <= j < |t.log| && t.log[j].Started?
      ensures t.done == Some(t.log[j].group) || Between(t.log, DoneConsumed(t.log[j].group), j, |t.log|)
      ensures t.cancel == Some(t.log[j].group) || Ended(t.log, t.log[j].group, j, |t.log|)
    {
      var g := s.log[j].group;
      assert t.log[|s.log|] == e;
      if s.done != Some(g) {
        BetweenStays(s.log, [e], DoneConsumed(g), j, |s.log|);
        assert Between(t.log, DoneConsumed(g), j, |t.log|);
      }
      if s.cancel != Some(g) {
        EndedStays(s.log, [e], g, j, |s.log|, |t.log|);
      }
    }
  }

  lemma StartKeeps(s: Loop)
    requires Inv(s) && s.place == Top && s.done.None?
    ensures Inv(AfterSample(s, true))
  {
    var t := AfterSample(s, true);
    var sampled := s.log + [Sampled(true)];
    QuietAppend(s.log, Sampled(true));
    AccountedAppend(s, s.(log := sampled), Sampled(true));
    var g := Started(|s.groups|);
    assert t.log == sampled + [g];
    forall j, i | 0 <= j < i < |t.log| && t.log[j].Started? && t.log[i].Started?
      ensures Between(t.log, DoneConsumed(t.log[j].group), j, i)
    {
      assert t.log[j] == sampled[j];
      BetweenStays(sampled, [g], DoneConsumed(sampled[j].group), j, if i < |sampled| then i else |sampled|);
    }
    forall j, i | 0 <= j < i < |t.log| && t.log[j].Started? && t.log[i] == Sampled(false)
      ensures Ended(t.log, t.log[j].group, j, i + 2)
    {
      EndedStays(sampled, [g], sampled[j].group, j, i + 2, i + 2);
    }
    forall j | 0 <= j < |t.log| && t.log[j].Started?
      ensures t.done == Some(t.log[j].group) || Between(t.log, DoneConsumed(t.log[j].group), j, |t.log|)
      ensures t.cancel == Some(t.log[j].group) || Ended(t.log, t.log[j].group, j, |t.log|)
    {
      if j < |sampled| {
        BetweenStays(sampled, [g], DoneConsumed(sampled[j].group), j, |sampled|);
        EndedStays(sampled, [g], sampled[j].group, j, |sampled|, |t.log|);
        assert Between(t.log, DoneConsumed(t.log[j].group), j, |t.log|);
      }
    }
  }

  lemma LossKeeps(s: Loop)
    requires Inv(s) && s.place == Top
    ensures Inv(AfterSample(s, false))
  {
    var t := AfterSample(s, false);
    var lost := Sampled(false);
    var sampled := s.log + [lost];
    var more := if s.cancel.Some? then [lost, CancelCalled(s.cancel.value)] else [lost];
    assert t.log == s.log + more;
    forall j, i | 0 <= j < i < |t.log| && t.log[j].Started? && t.log[i].Started?
      ensures Between(t.log, DoneConsumed(t.log[j].group), j, i)
    {
      BetweenStays(s.log, more, DoneConsumed(s.log[j].group), j, i);
    }
    forall j | 0 <= j < |t.log| && t.log[j].Started?
      ensures t.done == Some(t.log[j].group) || Between(t.log, DoneConsumed(t.log[j].group), j, |t.log|)
      ensures Ended(t.log, t.log[j].group, j, |s.log| + 2) && |t.log| <= |s.log| + 2
      ensures t.cancel == Some(t.log[j].group) || Ended(t.log, t.log[j].group, j, |t.log|)
    {
      var g := s.log[j].group;
      if s.done != Some(g) {
        BetweenStays(s.log, more, DoneConsumed(g), j, |s.log|);
        assert Between(t.log, DoneConsumed(g), j, |t.log|);
      }
      if s.cancel == Some(g) {
        assert t.log[|s.log| + 1] == CancelCalled(g);
        assert Between(t.log, CancelCalled(g), j, |t.log|);
      } else {
        EndedStays(s.log, more, g, j, |s.log|, |t.log|);
        EndedStays(s.log, more, g, j, |s.log|, |s.log| + 2);
      }
    }
    forall j, i | 0 <= j < i < |t.log| && t.log[j].Started? && t.log[i] == lost
      ensures Ended(t.log, t.log[j].group, j, i + 2)
    {
      if i < |s.log| {
        EndedStays(s.log, more, s.log[j].group, j, i + 2, i + 2);
      } else {
        assert i == |s.log|;
      }
    }
  }

  lemma StepKeeps(s: Loop, input: Input)
    requires Inv(s)
    ensures Inv(After(s, input))
  {
    var t := After(s, input);
    match input {
      case Sample(leader) =>
        if s.place == Top {
          if leader && s.done.None? {
            StartKeeps(s);
          } else if leader {
            QuietAppend(s.log, Sampled(true));
            AccountedAppend(s, t, Sampled(true));
          } else {
            LossKeeps(s);
          }
        }
      case ContextDone =>
        if s.place == Select && s.cancel.Some? {
          QuietAppend(s.log, CancelCalled(s.cancel.value));
          AccountedAppend(s, t, CancelCalled(s.cancel.value));
        }
      case GroupDone =>
        if t != s {
          QuietAppend(s.log, DoneConsumed(s.done.value));
          AccountedAppend(s, t, DoneConsumed(s.done.value));
        }
      case Deadline =>
        if t != s {
          QuietAppend(s.log, DeadlinePassed);
          AccountedAppend(s, t, DeadlinePassed);
        }
      case _ =>
    }
  }

  lemma {:induction false} RunKeeps(inputs: seq<Input>)
    ensures Inv(Run(Initial, inputs))
    decreases |inputs|
  {
    if inputs != [] {
      RunKeeps(inputs[..|inputs| - 1]);
      StepKeeps(Run(Initial, inputs[..|inputs| - 1]), inputs[|inputs| - 1]);
    }
  }

  // ---------------------------------------------------------------- what every run guarantees

  /** At most one watcher group has workers left, whatever the order of events. */
  lemma AtMostOneGroup(inputs: seq<Input>, g: nat, h: nat)
    requires var s := Run(Initial, inputs);
             g < |s.groups| && h < |s.groups| && !s.groups[g].finished && !s.groups[h].finished
    ensures g == h
  {
    RunKeeps(inputs);
  }

  /**
   A group starts only directly after leadership was sampled, and only once the done signal of every
   earlier group has been consumed, whether or not its stop deadline has passed.
   */
  lemma RestartDiscipline(inputs: seq<Input>, j: nat, i: nat)
    requires var log := Run(Initial, inputs).log; i < |log| && log[i].Started?
    ensures var log := Run(Initial, inputs).log;
            i > 0 && log[i - 1] == Sampled(true) &&
            (j < i && log[j].Started? ==> Between(log, DoneConsumed(log[j].group), j, i))
  {
    RunKeeps(inputs);
  }

  /** Losing leadership ends the running group before any group is started later. */
  lemma LossBeforeRestart(inputs: seq<Input>, j: nat, i: nat, k: nat)
    requires var log := Run(Initial, inputs).log;
             j < i < k < |log| && log[j].Started? && log[i] == Sampled(false) && log[k].Started?
    ensures Ended(Run(Initial, inputs).log, Run(Initial, inputs).log[j].group, j, k)
  {
    RunKeeps(inputs);
    var log := Run(Initial, inputs).log;
    assert log[k - 1] == Sampled(true);
    assert i + 2 <= k;
    EndedStays(log, [], log[j].group, j, i + 2, k);
    assert log + [] == log;
  }

  // ---------------------------------------------------------------- what every run must do

  /** The done signal of every group started before position `i` was consumed before it. */
  predicate AllDone(log: seq<Event>, i: int)
    requires i <= |log|
  {
    forall j | 0 <= j < i && log[j].Started? :: Between(log, DoneConsumed(log[j].group), j, i)
  }

  predicate StartedAt(log: seq<Event>, i: int) {
    0 <= i < |log| && log[i].Started?
  }

  /** A sample of leadership with no group outstanding starts one at once. */
  predicate LeadershipStarts(log: seq<Event>) {
    forall i | 0 <= i < |log| && log[i] == Sampled(true) && AllDone(log, i) :: StartedAt(log, i + 1)
  }

  /** The group waited for was started and its done signal is still to come. */
  predicate Awaited(log: seq<Event>, g: nat) {
    exists j | 0 <= j < |log| :: log[j] == Started(g) && !Between(log, DoneConsumed(g), j, |log|)
  }

  /** Workers are told to stop only when leadership is lost, or as the last act. */
  predicate CancelsOnLoss(s: Loop) {
    forall i | 0 <= i < |s.log| && s.log[i].CancelCalled? :: StopJustified(s.log, i, s.place == Exited)
  }

  predicate StopJustified(log: seq<Event>, i: int, exited: bool)
    requires 0 <= i < |log|
  {
    (i > 0 && log[i - 1] == Sampled(false)) || (i == |log| - 1 && exited)
  }

  predicate Prompt(s: Loop) {
    && LeadershipStarts(s.log)
    && (s.done.Some? ==> Awaited(s.log, s.done.value))
    && CancelsOnLoss(s)
    && (s.place == Exited ==> forall g | 0 <= g < |s.groups| :: s.groups[g].finished || s.groups[g].cancelled)
  }

  lemma BetweenWas(log: seq<Event>, more: seq<Event>, e: Event, from: int, to: int)
    requires Between(log + more, e, from, to) && to <= |log|
    ensures Between(log, e, from, to)
  {
    var k :| 0 <= k < |log + more| && from < k < to && (log + more)[k] == e;
    assert log[k] == e;
  }

  lemma AllDoneWas(log: seq<Event>, more: seq<Event>, i: int)
    requires i <= |log| && AllDone(log + more, i)
    ensures AllDone(log, i)
  {
    forall j | 0 <= j < i && log[j].Started? ensures Between(log, DoneConsumed(log[j].group), j, i) {
      assert (log + more)[j] == log[j];
      BetweenWas(log, more, DoneConsumed(log[j].group), j, i);
    }
  }

  /** Earlier samples keep their answer; only new ones have to be looked at. */
  lemma LeadershipAppend(log: seq<Event>, more: seq<Event>)
    requires LeadershipStarts(log)
    requires forall i | 0 <= i < |more| && more[i] == Sampled(true) && AllDone(log + more, |log| + i) ::
               StartedAt(log + more, |log| + i + 1)
    ensures LeadershipStarts(log + more)
  {
    var l := log + more;
    forall i | 0 <= i < |l| && l[i] == Sampled(true) && AllDone(l, i) ensures StartedAt(l, i + 1) {
      if i < |log| {
        AllDoneWas(log, more, i);
        assert StartedAt(log, i + 1);
      } else {
        assert more[i - |log|] == Sampled(true);
        assert StartedAt(l, |log| + (i - |log|) + 1);
      }
    }
  }

  lemma AwaitedStays(log: seq<Event>, e: Event, g: nat)
    requires Awaited(log, g) && e != DoneConsumed(g)
    ensures Awaited(log + [e], g)
  {
    var j :| 0 <= j < |log| && log[j] == Started(g) && !Between(log, DoneConsumed(g), j, |log|);
    var l := log + [e];
    assert l[j] == Started(g);
    forall k | j < k < |l| ensures l[k] != DoneConsumed(g) {
      assert k < |log| ==> l[k] == log[k];
    }
  }

  /** While a group is awaited, not every group is done. */
  lemma AwaitedIsNotDone(log: seq<Event>, more: seq<Event>, g: nat)
    requires Awaited(log, g)
    ensures !AllDone(log + more, |log|)
  {
    var j :| 0 <= j < |log| && log[j] == Started(g) && !Between(log, DoneConsumed(g), j, |log|);
    if AllDone(log + more, |log|) {
      AllDoneWas(log, more, |log|);
      assert false;
    }
  }

  /** Before the loop has ended, earlier stops stay justified; only new ones have to be looked at. */
  lemma CancelsAppend(s: Loop, t: Loop, more: seq<Event>)
    requires CancelsOnLoss(s) && s.place != Exited && t.log == s.log + more
    requires forall i | 0 <= i < |more| && more[i].CancelCalled? :: StopJustified(t.log, |s.log| + i, t.place == Exited)
    ensures CancelsOnLoss(t)
  {
    forall i | 0 <= i < |t.log| && t.log[i].CancelCalled? ensures StopJustified(t.log, i, t.place == Exited) {
      if i < |s.log| {
        assert t.log[i] == s.log[i] && StopJustified(s.log, i, false);
        assert t.log[i - 1] == s.log[i - 1];
      } else {
        assert more[i - |s.log|].CancelCalled?;
        assert StopJustified(t.log, |s.log| + (i - |s.log|), t.place == Exited);
      }
    }
  }

  lemma StartIsPrompt(s: Loop)
    requires Prompt(s) && s.place == Top && s.done.None?
    ensures Prompt(AfterSample(s, true))
  {
    var t, g := AfterSample(s, true), |s.groups|;
    var more := [Sampled(true), Started(g)];
    assert t.log == s.log + more;
    LeadershipAppend(s.log, more);
    CancelsAppend(s, t, more);
    assert t.log[|s.log| + 1] == Started(g);
    assert Awaited(t.log, g);
  }

  lemma OtherSampleIsPrompt(s: Loop, leader: bool)
    requires GoodGroups(s) && Prompt(s) && s.place == Top && (leader ==> s.done.Some?)
    ensures Prompt(AfterSample(s, leader))
  {
    var t := AfterSample(s, leader);
    var more := if !leader && s.cancel.Some? then [Sampled(leader), CancelCalled(s.cancel.value)] else [Sampled(leader)];
    assert t.log == s.log + more;
    if leader {
      AwaitedIsNotDone(s.log, more, s.done.value);
    }
    LeadershipAppend(s.log, more);
    CancelsAppend(s, t, more);
    if s.done.Some? {
      AwaitedStays(s.log, Sampled(leader), s.done.value);
      if |more| == 2 {
        AwaitedStays(s.log + [Sampled(leader)], more[1], s.done.value);
        assert t.log == s.log + [Sampled(leader)] + [more[1]];
      }
    }
  }

  /** One event that is no sample and no start. */
  lemma EventIsPrompt(s: Loop, t: Loop, e: Event)
    requires Prompt(s) && t.log == s.log + [e] && !e.Sampled? && s.place == Select
    requires t.done.None? || (t.done == s.done && e != DoneConsumed(s.done.value))
    requires e.CancelCalled? ==> t.place == Exited
    requires t.place == Exited ==> forall g | 0 <= g < |t.groups| :: t.groups[g].finished || t.groups[g].cancelled
    ensures Prompt(t)
  {
    LeadershipAppend(s.log, [e]);
    CancelsAppend(s, t, [e]);
    if t.done.Some? {
      AwaitedStays(s.log, e, s.done.value);
    }
  }

  lemma SilentCancels(s: Loop, t: Loop)
    requires CancelsOnLoss(s) && t.log == s.log && (s.place == Exited ==> t.place == Exited)
    ensures CancelsOnLoss(t)
  {}

  lemma PromptStep(s: Loop, input: Input)
    requires Inv(s) && Prompt(s)
    ensures Prompt(After(s, input))
  {
    var t := After(s, input);
    if input.Sample? && s.place == Top {
      if input.leader && s.done.None? {
        StartIsPrompt(s);
      } else {
        OtherSampleIsPrompt(s, input.leader);
      }
    } else if input.ContextDone? && s.place == Select && s.cancel.Some? {
      EventIsPrompt(s, t, CancelCalled(s.cancel.value));
    } else if input.GroupDone? && t != s {
      EventIsPrompt(s, t, DoneConsumed(s.done.value));
    } else if input.Deadline? && t != s {
      EventIsPrompt(s, t, DeadlinePassed);
    } else {
      assert t.log == s.log && t.done == s.done;
      SilentCancels(s, t);
    }
  }

  lemma {:induction false} RunPrompt(inputs: seq<Input>)
    ensures Prompt(Run(Initial, inputs))
    decreases |inputs|
  {
    if inputs != [] {
      RunKeeps(inputs[..|inputs| - 1]);
      RunPrompt(inputs[..|inputs| - 1]);
      PromptStep(Run(Initial, inputs[..|inputs| - 1]), inputs[|inputs| - 1]);
    }
  }

  /** A sample of leadership is followed by a start if and only if every group started before it is done. */
  lemma StartsIffDone(inputs: seq<Input>, i: nat)
    requires i < |Run(Initial, inputs).log| && Run(Initial, inputs).log[i] == Sampled(true)
    ensures var log := Run(Initial, inputs).log;
            (i + 1 < |log| && log[i + 1].Started?) <==>
            (forall j | 0 <= j < i && log[j].Started? :: Between(log, DoneConsumed(log[j].group), j, i))
  {
    RunKeeps(inputs);
    RunPrompt(inputs);
    var log := Run(Initial, inputs).log;
    if i + 1 < |log| && log[i + 1].Started? {
      forall j | 0 <= j < i && log[j].Started? ensures Between(log, DoneConsumed(log[j].group), j, i) {
        var k :| 0 <= k < |log| && j < k < i + 1 && log[k] == DoneConsumed(log[j].group);
        assert k != i;
      }
    } else {
      assert !StartedAt(log, i + 1);
      assert !AllDone(log, i);
    }
  }

  /** Workers are told to stop only after a sample of lost leadership, or when the loop ends. */
  lemma StoppedOnlyOnLoss(inputs: seq<Input>, i: nat)
    requires i < |Run(Initial, inputs).log| && Run(Initial, inputs).log[i].CancelCalled?
    ensures var s := Run(Initial, inputs);
            (i > 0 && s.log[i - 1] == Sampled(false)) || (i == |s.log| - 1 && s.place == Exited)
  {
    RunPrompt(inputs);
  }

  /** A group whose workers have returned is replaced as soon as its done signal and leadership are seen. */
  lemma FinishedGroupIsReplaced(inputs: seq<Input>)
    requires var s := Run(Initial, inputs); s.place == Select && s.done.Some? && s.done.value < |s.groups| && s.groups[s.done.value].finished
    ensures var s, t := Run(Initial, inputs), Run(Initial, inputs + [GroupDone] + [Sample(true)]);
            && t.log == s.log + [DoneConsumed(s.done.value), Sampled(true), Started(|s.groups|)]
            && t.groups == s.groups + [Group(false, false)]
  {
    RunNext(inputs, GroupDone);
    RunNext(inputs + [GroupDone], Sample(true));
  }

  /**
   A group that outlives its stop deadline is reported once, and goes on blocking the next start however
   often leadership is seen.
   */
  lemma LateStopBlocks(inputs: seq<Input>)
    requires var s := Run(Initial, inputs); s.place == Top && s.cancel.Some? && s.cancel.value < |s.groups|
    ensures var s := Run(Initial, inputs);
            var t := Run(Initial, inputs + [Sample(false)] + [Deadline] + [Sample(true)] + [Deadline]);
            && t.log == s.log + [Sampled(false), CancelCalled(s.cancel.value), DeadlinePassed, Sampled(true)]
            && |t.groups| == |s.groups|
  {
    RunKeeps(inputs);
    var a := inputs + [Sample(false)];
    var b := a + [Deadline];
    var c := b + [Sample(true)];
    RunNext(inputs, Sample(false));
    RunNext(a, Deadline);
    RunNext(b, Sample(true));
    RunNext(c, Deadline);
    LateStop(Run(Initial, inputs));
  }

  lemma RunNext(inputs: seq<Input>, input: Input)
    ensures Run(Initial, inputs + [input]) == After(Run(Initial, inputs), input)
  {
    assert (inputs + [input])[..|inputs|] == inputs;
  }

  lemma LateStop(s: Loop)
    requires GoodGroups(s) && s.place == Top && s.cancel.Some?
    ensures var t := After(After(After(After(s, Sample(false)), Deadline), Sample(true)), Deadline);
            && t.log == s.log + [Sampled(false), CancelCalled(s.cancel.value), DeadlinePassed, Sampled(true)]
            && |t.groups| == |s.groups|
  {
    var a := After(s, Sample(false));
    assert a.place == Select && a.stopDeadline && a.done.Some?;
    var b := After(a, Deadline);
    assert b.place == Top && !b.stopDeadline && b.done == a.done;
    var c := After(b, Sample(true));
    assert c.place == Select && !c.stopDeadline && c.log == b.log + [Sampled(true)];
  }

  /** Once the context has ended every group is finished or cancelled, and nothing is logged or started any more. */
  lemma {:induction false} ExitIsFinal(inputs: seq<Input>, more: seq<Input>)
    requires Run(Initial, inputs).place == Exited
    ensures var s, t := Run(Initial, inputs), Run(Initial, inputs + more);
            && t.place == Exited && t.log == s.log && |t.groups| == |s.groups|
            && forall g | 0 <= g < |t.groups| :: t.groups[g].finished || t.groups[g].cancelled
    decreases |more|
  {
    RunPrompt(inputs + more);
    if more == [] {
      assert inputs + more == inputs;
    } else {
      var n := |more| - 1;
      ExitIsFinal(inputs, more[..n]);
      assert (inputs + more)[..|inputs + more| - 1] == inputs + more[..n];
    }
  }

  // ---------------------------------------------------------------- the loop itself

  /** `runLeaderScopedWorkers`, driven by whatever its channels and the leadership flag deliver. */
  method RunLeaderScopedWorkers(hasWorkers: bool, inputs: seq<Input>) returns (s: Loop)
    ensures s == if hasWorkers then Run(Initial, inputs) else Initial
  {
    if !hasWorkers {
      return Initial;
    }
    var place, stopDeadline := Top, false;
    var cancel: Option<nat>, done: Option<nat> := None, None;
    var groups: seq<Group>, log: seq<Event> := [], [];
    for i := 0 to |inputs|
      invariant Loop(place, cancel, done, stopDeadline, groups, log) == Run(Initial, inputs[..i])
    {
      RunKeeps(inputs[..i]);
      assert inputs[..i + 1][..i] == inputs[..i];
      match inputs[i] {
        case Sample(leader) =>
          if place == Top {
            place, log := Select, log + [Sampled(leader)];
            if leader && done == None {
              cancel, done := Some(|groups|), Some(|groups|);
              log := log + [Started(|groups|)];
              groups := groups + [Group(false, false)];
            } else if !leader && cancel != None {
              groups := groups[cancel.value := groups[cancel.value].(cancelled := true)];
              log := log + [CancelCalled(cancel.value)];
              cancel, stopDeadline := None, true;
            }
          }
        case Finish(g) =>
          if g < |groups| {
            groups := groups[g := groups[g].(finished := true)];
          }
        case ContextDone =>
          if place == Select {
            if cancel != None {
              groups := groups[cancel.value := groups[cancel.value].(cancelled := true)];
              log := log + [CancelCalled(cancel.value)];
            }
            place, stopDeadline := Exited, false;
          }
        case GroupDone =>
          if place == Select && done != None && groups[done.value].finished {
            log := log + [DoneConsumed(done.value)];
            place, cancel, done, stopDeadline := Top, None, None, false;
          }
        case Deadline =>
          if place == Select && stopDeadline {
            place, stopDeadline, log := Top, false, log + [DeadlinePassed];
          }
        case Ticked =>
          if place == Select {
            place := Top;
          }
      }
    }
    assert inputs[..|inputs|] == inputs;
    s := Loop(place, cancel, done, stopDeadline, groups, log);
  }
}
