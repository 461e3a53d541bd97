/**
 Leader election over a Kubernetes Lease (pkg/controller/leader.go), as a protocol between any number of
 electors, an API server that serves the lease as a compare-and-swap register, and one shared clock that
 counts microseconds and never runs backwards.
 */
module LeaseElection {
  import opened Basics

  /** A renew time that does not parse is `None`. Versions are the server's resource versions. */
  datatype Lease = Lease(version: nat, holder: string, durationSeconds: int, renewTime: Option<int>)

  const LeaseDurationSeconds := 15
  const Second := 1_000_000

  /** `isExpired`. */
  predicate Expired(l: Lease, now: int) {
    l.renewTime.None? || now - l.renewTime.value > l.durationSeconds * Second
  }

  /** A request an elector has sent: the lease it read (if any), the lease it writes, and when it saw it expired. */
  datatype Write = Post(body: Lease) | Put(seen: Lease, body: Lease, checkedAt: Option<int>)

  /** Where an elector is in `Run` and `renewLoop`. */
  datatype Phase =
    | Looping
    | Decided(seen: Option<Lease>)
    | Stamping(basis: Lease, checkedAt: Option<int>)
    | Writing(write: Write)
    | Publishing
    | Leading
    | Withdrawing
    | Stopped

  datatype Elector = Elector(phase: Phase, isLeader: bool)

  /** A write the server accepted. */
  datatype Accepted = Accepted(lease: Lease, write: Option<Write>, at: int)

  /** `stray` holds requests whose sender has given up on the answer; the server may still get them. */
  datatype World = World(clock: int, log: seq<Accepted>, electors: map<string, Elector>, stray: set<Write>)

  function Current(w: World): Option<Lease> {
    if w.log == [] then None else Some(w.log[|w.log| - 1].lease)
  }

  /** No lease yet, or one left by somebody else; every elector starts its loop as a follower. */
  predicate Initial(w: World) {
    && |w.log| <= 1
    && (forall i | 0 <= i < |w.log| :: w.log[i].lease.version == i && w.log[i].write == None && w.log[i].at <= w.clock)
    && (forall n | n in w.electors :: w.electors[n] == Elector(Looping, false))
    && w.stray == {}
  }

  datatype Step =
    | Tick(microseconds: nat)
    | Get(n: string)                       // Run reads the lease
    | Create(n: string)                    // Run saw no lease and posts one
    | Hold(n: string)                      // Run saw its own lease
    | Take(n: string)                      // Run saw an expired lease of another holder
    | Wait(n: string, withdrawn: bool)     // Run saw a live lease of another holder
    | Stamp(n: string)                     // the request is given its renew time and sent
    | Land(n: string)                      // the server decides and answers
    | GiveUp(n: string)                    // the request fails or times out, whatever becomes of it
    | LandStray(write: Write)              // the server decides on a request nobody waits for
    | Publish(n: string, ok: bool)         // the pod label is patched to true
    | Renew(n: string)                     // renewLoop reads the lease again
    | RenewFails(n: string)                // renewLoop cannot read it
    | Withdraw(n: string, ok: bool)        // the pod label is patched to false
    | Stop(n: string, lowered: bool)       // the context is cancelled; the deferred withdrawal may fail

  function PhaseOf(w: World, n: string): Phase {
    if n in w.electors then w.electors[n].phase else Stopped
  }

  predicate Enabled(w: World, s: Step) {
    match s
    case Tick(_) => true
    case Get(n) => PhaseOf(w, n).Looping?
    case Create(n) => PhaseOf(w, n) == Decided(None)
    case Hold(n) => PhaseOf(w, n).Decided? && PhaseOf(w, n).seen.Some? && PhaseOf(w, n).seen.value.holder == n
    case Take(n) =>
      && PhaseOf(w, n).Decided? && PhaseOf(w, n).seen.Some?
      && PhaseOf(w, n).seen.value.holder != n && Expired(PhaseOf(w, n).seen.value, w.clock)
    case Wait(n, _) =>
      && PhaseOf(w, n).Decided? && PhaseOf(w, n).seen.Some?
      && PhaseOf(w, n).seen.value.holder != n && !Expired(PhaseOf(w, n).seen.value, w.clock)
    case Stamp(n) => PhaseOf(w, n).Stamping?
    case Land(n) => PhaseOf(w, n).Writing?
    case GiveUp(n) => PhaseOf(w, n).Writing?
    case LandStray(write) => write in w.stray
    case Publish(n, _) => PhaseOf(w, n).Publishing?
    case Renew(n) => PhaseOf(w, n).Leading?
    case RenewFails(n) => PhaseOf(w, n).Leading?
    case Withdraw(n, _) => PhaseOf(w, n).Withdrawing?
    case Stop(n, lowered) => PhaseOf(w, n).Looping? || (PhaseOf(w, n).Leading? && lowered)
  }

  function Moved(w: World, n: string, phase: Phase): World
    requires n in w.electors
  {
    w.(electors := w.electors[n := w.electors[n].(phase := phase)])
  }

  function Flagged(w: World, n: string, phase: Phase, leader: bool): World
    requires n in w.electors
  {
    w.(electors := w.electors[n := Elector(phase, leader)])
  }

  /** Optimistic concurrency: POST needs the lease absent, PUT the version it read. */
  predicate Accepts(w: World, write: Write) {
    match write
    case Post(_) => w.log == []
    case Put(seen, _, _) => w.log != [] && Current(w).value.version == seen.version
  }

  function Stored(w: World, write: Write): World {
    w.(log := w.log + [Accepted(write.body.(version := |w.log|), Some(write), w.clock)])
  }

  function After(w: World, s: Step): World
    requires Enabled(w, s)
  {
    match s
    case Tick(d) => w.(clock := w.clock + d)
    case Get(n) => Moved(w, n, Decided(Current(w)))
    case Create(n) => Moved(w, n, Writing(Post(Lease(0, n, LeaseDurationSeconds, Some(w.clock)))))
    case Hold(n) => Moved(w, n, Publishing)
    case Take(n) => Moved(w, n, Stamping(w.electors[n].phase.seen.value, Some(w.clock)))
    case Wait(n, withdrawn) => Flagged(w, n, Looping, if withdrawn then false else w.electors[n].isLeader)
    case Stamp(n) =>
      var p := w.electors[n].phase;
      Moved(w, n, Writing(Put(p.basis, p.basis.(holder := n, renewTime := Some(w.clock)), p.checkedAt)))
    case Land(n) => AfterLand(w, n)
    case GiveUp(n) =>
      var write := w.electors[n].phase.write;
      Moved(w.(stray := w.stray + {write}), n, Failed(write))
    case LandStray(write) => Decide(w.(stray := w.stray - {write}), write)
    case Publish(n, ok) => if ok then Flagged(w, n, Leading, true) else Flagged(w, n, Stopped, false)
    case Renew(n) =>
      (match Current(w)
       case None => Moved(w, n, Withdrawing)
       case Some(l) => Moved(w, n, if l.holder == n then Stamping(l, None) else Withdrawing))
    case RenewFails(n) => Moved(w, n, Withdrawing)
    case Withdraw(n, ok) => Flagged(w, n, Looping, if ok then false else w.electors[n].isLeader)
    case Stop(n, lowered) => Flagged(w, n, Stopped, if lowered then false else w.electors[n].isLeader)
  }

  /** A renewal carries no expiry check. */
  predicate Renewing(write: Write) {
    write.Put? && write.checkedAt.None?
  }

  /** After a failed write a candidate loops and a renewing leader withdraws. */
  function Failed(write: Write): Phase {
    if Renewing(write) then Withdrawing else Looping
  }

  function Decide(w: World, write: Write): World {
    if Accepts(w, write) then Stored(w, write) else w
  }

  function AfterLand(w: World, n: string): World
    requires n in w.electors && w.electors[n].phase.Writing?
  {
    var write := w.electors[n].phase.write;
    if Accepts(w, write) then Moved(Stored(w, write), n, if Renewing(write) then Leading else Publishing)
    else Moved(w, n, Failed(write))
  }

  ghost predicate IsRun(worlds: seq<World>, steps: seq<Step>) {
    && |worlds| == |steps| + 1
    && Initial(worlds[0])
    && (forall i | 0 <= i < |steps| :: Enabled(worlds[i], steps[i]) && worlds[i + 1] == After(worlds[i], steps[i]))
  }

  // ---------------------------------------------------------------- the invariant

  /** A lease an elector has read is a version the server served. */
  predicate Served(log: seq<Accepted>, l: Lease) {
    l.version < |log| && log[l.version].lease == l
  }

  predicate HasHeld(log: seq<Accepted>, n: string) {
    exists i | 0 <= i < |log| :: log[i].lease.holder == n
  }

  /** An expiry check lies in the past and held of the lease that was read; without one the reader was the holder. */
  predicate Justified(n: string, clock: int, seen: Lease, checkedAt: Option<int>) {
    match checkedAt
    case None => seen.holder == n
    case Some(t) => t <= clock && Expired(seen, t)
  }

  /** A write over a version that was read is stamped after that version was stored and after any expiry check. */
  predicate StampedAfter(seen: Accepted, body: Lease, checkedAt: Option<int>) {
    && body.durationSeconds == seen.lease.durationSeconds
    && body.renewTime.Some? && seen.at <= body.renewTime.value
    && (checkedAt.Some? ==> checkedAt.value <= body.renewTime.value)
  }

  predicate GoodWrite(w: World, n: string, write: Write) {
    && write.body.holder == n
    && write.body.renewTime.Some? && write.body.renewTime.value <= w.clock
    && match write
       case Post(body) => body.durationSeconds == LeaseDurationSeconds
       case Put(seen, body, checkedAt) =>
         && Served(w.log, seen) && Justified(n, w.clock, seen, checkedAt)
         && StampedAfter(w.log[seen.version], body, checkedAt)
  }

  predicate GoodElector(w: World, n: string, e: Elector) {
    && (e.isLeader ==> HasHeld(w.log, n))
    && match e.phase
       case Decided(seen) => seen.Some? ==> Served(w.log, seen.value)
       case Stamping(seen, checkedAt) => Served(w.log, seen) && Justified(n, w.clock, seen, checkedAt)
       case Writing(write) => GoodWrite(w, n, write)
       case Publishing => HasHeld(w.log, n)
       case _ => true
  }

  /** An accepted write was based on the version just before it, and changed the holder only if that one had expired. */
  predicate GoodEntry(log: seq<Accepted>, i: int)
    requires 0 < i < |log|
  {
    && log[i].write.Some? && log[i].write.value.Put?
    && log[i].write.value.seen == log[i - 1].lease
    && StampedAfter(log[i - 1], log[i].lease, log[i].write.value.checkedAt)
    && (log[i].lease.holder != log[i - 1].lease.holder ==>
          log[i].write.value.checkedAt.Some? && log[i].write.value.checkedAt.value <= log[i].at &&
          Expired(log[i - 1].lease, log[i].write.value.checkedAt.value))
  }

  /** An accepted request was stamped before it landed; the first one creates a lease of the usual duration. */
  predicate GoodStamp(a: Accepted) {
    a.write.Some? ==>
      && a.lease.renewTime.Some? && a.lease.renewTime.value <= a.at
      && (a.write.value.Post? ==> a.lease.durationSeconds == LeaseDurationSeconds)
  }

  predicate GoodLog(w: World) {
    && (forall i | 0 <= i < |w.log| :: w.log[i].lease.version == i && w.log[i].at <= w.clock && GoodStamp(w.log[i]))
    && (forall i | 0 < i < |w.log| :: GoodEntry(w.log, i))
    && (|w.log| > 0 && w.log[0].write.Some? ==> w.log[0].write.value.Post?)
  }

  predicate Inv(w: World) {
    && GoodLog(w)
    && (forall n | n in w.electors :: GoodElector(w, n, w.electors[n]))
    && (forall write | write in w.stray :: GoodWrite(w, write.body.holder, write))
  }

  /** What was true of an elector stays true as the log and the clock grow. */
  lemma LaterGood(w: World, v: World, n: string, e: Elector)
    requires GoodElector(w, n, e) && w.log <= v.log && w.clock <= v.clock
    ensures GoodElector(v, n, e)
  {
    if HasHeld(w.log, n) {
      var i :| 0 <= i < |w.log| && w.log[i].lease.holder == n;
      assert v.log[i].lease.holder == n;
    }
  }

  /** Whoever still waits for it, an accepted write fits the log. */
  lemma DecideKeeps(w: World, n: string, write: Write)
    requires Inv(w) && GoodWrite(w, n, write)
    ensures Inv(Decide(w, write)) && w.log <= Decide(w, write).log
    ensures Accepts(w, write) ==> HasHeld(Decide(w, write).log, n)
  {
    var v := Decide(w, write);
    if Accepts(w, write) {
      assert v.log[|w.log|].lease.holder == n;
      forall i | 0 < i < |v.log| ensures GoodEntry(v.log, i) {
        if i < |w.log| {
          assert GoodEntry(w.log, i);
        }
      }
    }
    forall m | m in v.electors ensures GoodElector(v, m, v.electors[m]) {
      LaterGood(w, v, m, w.electors[m]);
    }
  }

  lemma LandKeeps(w: World, n: string)
    requires Inv(w) && n in w.electors && w.electors[n].phase.Writing?
    ensures Inv(AfterLand(w, n))
  {
    var write := w.electors[n].phase.write;
    assert GoodElector(w, n, w.electors[n]);
    DecideKeeps(w, n, write);
    assert AfterLand(w, n).log == Decide(w, write).log;
    assert GoodElector(Decide(w, write), n, w.electors[n]);
  }

  /** A step that writes nothing leaves every elector good: its new phase follows from its old one. */
  lemma QuietElector(w: World, s: Step, m: string)
    requires GoodLog(w) && Enabled(w, s) && !s.Land? && !s.LandStray?
    requires m in w.electors && GoodElector(w, m, w.electors[m])
    ensures m in After(w, s).electors && GoodElector(After(w, s), m, After(w, s).electors[m])
  {
    LaterGood(w, After(w, s), m, w.electors[m]);
    if s.Hold? && s.n == m {
      var l := w.electors[m].phase.seen.value;
      assert w.log[l.version].lease.holder == m;
    }
  }

  lemma QuietFrame(w: World, s: Step)
    requires Enabled(w, s) && !s.Land? && !s.LandStray?
    ensures After(w, s).log == w.log && w.clock <= After(w, s).clock
    ensures After(w, s).electors.Keys == w.electors.Keys
    ensures After(w, s).stray == if s.GiveUp? then w.stray + {w.electors[s.n].phase.write} else w.stray
  {}

  lemma QuietKeeps(w: World, s: Step)
    requires Inv(w) && Enabled(w, s) && !s.Land? && !s.LandStray?
    ensures Inv(After(w, s))
  {
    var v := After(w, s);
    QuietFrame(w, s);
    forall m | m in v.electors ensures GoodElector(v, m, v.electors[m]) {
      QuietElector(w, s, m);
    }
    forall write | write in v.stray ensures GoodWrite(v, write.body.holder, write) {
      if write !in w.stray {
        assert GoodElector(w, s.n, w.electors[s.n]);
      }
    }
  }

  lemma StepKeeps(w: World, s: Step)
    requires Inv(w) && Enabled(w, s)
    ensures Inv(After(w, s))
  {
    match s {
      case Land(n) => LandKeeps(w, n);
      case LandStray(write) => DecideKeeps(w.(stray := w.stray - {write}), write.body.holder, write);
      case _ => QuietKeeps(w, s);
    }
  }

  lemma {:induction false} RunKeeps(worlds: seq<World>, steps: seq<Step>, i: nat)
    requires IsRun(worlds, steps) && i < |worlds|
    ensures Inv(worlds[i])
    decreases i
  {
    if i > 0 {
      RunKeeps(worlds, steps, i - 1);
      StepKeeps(worlds[i - 1], steps[i - 1]);
    }
  }

  // ---------------------------------------------------------------- what every interleaving guarantees

  /** Every accepted write after the first is based on the immediately preceding version of the lease. */
  lemma WritesFormAChain(worlds: seq<World>, steps: seq<Step>, i: nat, k: nat)
    requires IsRun(worlds, steps) && i < |worlds| && 0 < k < |worlds[i].log|
    ensures worlds[i].log[k].write.Some? && worlds[i].log[k].write.value.Put?
    ensures worlds[i].log[k].write.value.seen == worlds[i].log[k - 1].lease
  {
    RunKeeps(worlds, steps, i);
    assert GoodEntry(worlds[i].log, k);
  }

  /** Of all electors that read one version of the lease, at most one write over it is ever accepted. */
  lemma OneSuccessor(worlds: seq<World>, steps: seq<Step>, i: nat, j: nat, k: nat)
    requires IsRun(worlds, steps) && i < |worlds| && 0 < j < |worlds[i].log| && 0 < k < |worlds[i].log|
    requires worlds[i].log[j].write.Some? && worlds[i].log[j].write.value.Put?
    requires worlds[i].log[k].write.Some? && worlds[i].log[k].write.value.Put?
    requires worlds[i].log[j].write.value.seen.version == worlds[i].log[k].write.value.seen.version
    ensures j == k
  {
    RunKeeps(worlds, steps, i);
    assert GoodEntry(worlds[i].log, j) && GoodEntry(worlds[i].log, k);
  }

  /**
   The holder changes only by a write over a version that was older than its duration, or had no readable
   renew time, when the new holder looked, and so all the more when its write landed.
   */
  lemma TakenOnlyWhenExpired(worlds: seq<World>, steps: seq<Step>, i: nat, k: nat)
    requires IsRun(worlds, steps) && i < |worlds| && 0 < k < |worlds[i].log|
    requires worlds[i].log[k].lease.holder != worlds[i].log[k - 1].lease.holder
    ensures worlds[i].log[k].write.Some? && worlds[i].log[k].write.value.Put?
    ensures var checkedAt, was := worlds[i].log[k].write.value.checkedAt, worlds[i].log[k - 1].lease;
            && checkedAt.Some? && checkedAt.value <= worlds[i].log[k].at
            && (was.renewTime.None? || checkedAt.value - was.renewTime.value > was.durationSeconds * 1_000_000)
            && (was.renewTime.None? || worlds[i].log[k].at - was.renewTime.value > was.durationSeconds * 1_000_000)
  {
    RunKeeps(worlds, steps, i);
    assert GoodEntry(worlds[i].log, k);
  }

  /**
   Every version an elector wrote was stamped after the version it read was stored and before it landed
   itself. The duration is the first version's for ever, and fifteen seconds where an elector created it.
   */
  lemma {:induction false} StampsFollowTheChain(worlds: seq<World>, steps: seq<Step>, i: nat, k: nat)
    requires IsRun(worlds, steps) && i < |worlds| && k < |worlds[i].log|
    ensures var log := worlds[i].log;
            log[k].write.Some? ==>
              && log[k].lease.renewTime.Some? && log[k].lease.renewTime.value <= log[k].at
              && (k > 0 ==> log[k - 1].at <= log[k].lease.renewTime.value)
    ensures worlds[i].log[k].lease.durationSeconds == worlds[i].log[0].lease.durationSeconds
    ensures worlds[i].log[0].write.Some? ==> worlds[i].log[k].lease.durationSeconds == 15
  {
    RunKeeps(worlds, steps, i);
    var log := worlds[i].log;
    assert GoodStamp(log[k]) && GoodStamp(log[0]);
    if k > 0 {
      assert GoodEntry(log, k);
      StampsFollowTheChain(worlds, steps, i, k - 1);
    }
  }

  /** From the moment an elector's basis was stored, nobody else's write over its own lands before the duration is over. */
  lemma HolderHasItsTime(worlds: seq<World>, steps: seq<Step>, i: nat, k: nat)
    requires IsRun(worlds, steps) && i < |worlds| && 0 < k && k + 1 < |worlds[i].log|
    requires worlds[i].log[k + 1].lease.holder != worlds[i].log[k].lease.holder
    ensures worlds[i].log[k + 1].at - worlds[i].log[k - 1].at > worlds[i].log[0].lease.durationSeconds * 1_000_000
  {
    WritesFormAChain(worlds, steps, i, k);
    StampsFollowTheChain(worlds, steps, i, k);
    TakenOnlyWhenExpired(worlds, steps, i, k + 1);
  }

  /**
   What an elector does with what it has read is forced: it creates a missing lease, keeps its own, takes
   another's exactly when that is past its duration, and waits for it otherwise.
   */
  lemma ReadingDecides(w: World, n: string, seen: Option<Lease>, withdrawn: bool)
    requires PhaseOf(w, n) == Decided(seen)
    ensures Enabled(w, Create(n)) <==> seen.None?
    ensures Enabled(w, Hold(n)) <==> seen.Some? && seen.value.holder == n
    ensures Enabled(w, Take(n)) <==>
            && seen.Some? && seen.value.holder != n
            && (seen.value.renewTime.None? ||
                w.clock - seen.value.renewTime.value > seen.value.durationSeconds * 1_000_000)
    ensures Enabled(w, Wait(n, withdrawn)) <==>
            && seen.Some? && seen.value.holder != n && seen.value.renewTime.Some?
            && w.clock - seen.value.renewTime.value <= seen.value.durationSeconds * 1_000_000
  {}

  predicate Live(w: World) {
    Current(w).Some? && !Expired(Current(w).value, w.clock)
  }

  lemma LiveStep(w: World, s: Step)
    requires Inv(w) && Enabled(w, s) && Live(w)
    ensures Current(After(w, s)).Some?
    ensures Current(After(w, s)).value.holder == Current(w).value.holder
  {
    if s.Land? {
      var write := w.electors[s.n].phase.write;
      assert GoodElector(w, s.n, w.electors[s.n]);
      assert GoodWrite(w, s.n, write);
    } else if s.LandStray? {
      assert GoodWrite(w, s.write.body.holder, s.write);
    }
  }

  /** A holder whose renewals land in time, so that the lease is live throughout, is never displaced. */
  lemma {:induction false} LiveHolderStays(worlds: seq<World>, steps: seq<Step>, i: nat, j: nat)
    requires IsRun(worlds, steps) && i <= j < |worlds|
    requires forall t | i <= t < j :: Current(worlds[t]).Some? && Current(worlds[t]).value.renewTime.Some? &&
               worlds[t].clock - Current(worlds[t]).value.renewTime.value <= Current(worlds[t]).value.durationSeconds * 1_000_000
    requires Current(worlds[i]).Some?
    ensures Current(worlds[j]).Some? && Current(worlds[j]).value.holder == Current(worlds[i]).value.holder
    decreases j - i
  {
    if i < j {
      LiveHolderStays(worlds, steps, i, j - 1);
      RunKeeps(worlds, steps, j - 1);
      LiveStep(worlds[j - 1], steps[j - 1]);
    }
  }

  /** The last version of the lease that the elector held. */
  predicate LastHeld(log: seq<Accepted>, n: string, k: nat) {
    && k < |log| && log[k].lease.holder == n
    && forall j | k < j < |log| :: log[j].lease.holder != n
  }

  lemma {:induction false} LastHeldExists(log: seq<Accepted>, n: string, a: nat) returns (k: nat)
    requires a < |log| && log[a].lease.holder == n
    ensures LastHeld(log, n, k)
    decreases |log| - a
  {
    if j :| a < j < |log| && log[j].lease.holder == n {
      k := LastHeldExists(log, n, j);
    } else {
      k := a;
    }
  }

  /** An elector that lost the lease let its own last version expire first. */
  lemma LostByExpiry(w: World, n: string, k: nat)
    requires Inv(w) && LastHeld(w.log, n, k) && k + 1 < |w.log|
    ensures Expired(w.log[k].lease, w.log[k + 1].at) && Expired(w.log[k].lease, w.clock)
  {
    assert GoodEntry(w.log, k + 1);
    assert w.log[k + 1].lease.holder != n;
  }

  /**
   A raised flag can be trusted exactly while the elector's own last version of the lease is unexpired:
   that holds if and only if the elector is the holder of a live lease.
   */
  lemma FlagTrustedIffUnexpired(worlds: seq<World>, steps: seq<Step>, i: nat, n: string) returns (k: nat)
    requires IsRun(worlds, steps) && i < |worlds|
    requires n in worlds[i].electors && worlds[i].electors[n].isLeader
    ensures LastHeld(worlds[i].log, n, k)
    ensures !Expired(worlds[i].log[k].lease, worlds[i].clock) <==>
            Live(worlds[i]) && Current(worlds[i]).value.holder == n
  {
    var w := worlds[i];
    RunKeeps(worlds, steps, i);
    assert GoodElector(w, n, w.electors[n]);
    var a :| 0 <= a < |w.log| && w.log[a].lease.holder == n;
    k := LastHeldExists(w.log, n, a);
    if k + 1 < |w.log| {
      LostByExpiry(w, n, k);
    }
  }

  /**
   Of two electors with raised flags one let the last version it held expire, before somebody else wrote
   the next one, and has not held the lease since.
   */
  lemma TwoFlagsNeedAnExpiry(worlds: seq<World>, steps: seq<Step>, i: nat, m: string, n: string)
    returns (loser: string, k: nat)
    requires IsRun(worlds, steps) && i < |worlds| && m != n
    requires m in worlds[i].electors && worlds[i].electors[m].isLeader
    requires n in worlds[i].electors && worlds[i].electors[n].isLeader
    ensures loser in {m, n} && LastHeld(worlds[i].log, loser, k) && k + 1 < |worlds[i].log|
    ensures Expired(worlds[i].log[k].lease, worlds[i].log[k + 1].at)
    ensures Expired(worlds[i].log[k].lease, worlds[i].clock)
  {
    var a := FlagTrustedIffUnexpired(worlds, steps, i, m);
    var b := FlagTrustedIffUnexpired(worlds, steps, i, n);
    loser, k := if a < b then m else n, if a < b then a else b;
    RunKeeps(worlds, steps, i);
    LostByExpiry(worlds[i], loser, k);
  }

  /** Two electors that both check their own last version against the clock never both lead. */
  lemma UnexpiredFlagIsAlone(worlds: seq<World>, steps: seq<Step>, i: nat, m: string, n: string, a: nat, b: nat)
    requires IsRun(worlds, steps) && i < |worlds|
    requires m in worlds[i].electors && worlds[i].electors[m].isLeader && LastHeld(worlds[i].log, m, a)
    requires n in worlds[i].electors && worlds[i].electors[n].isLeader && LastHeld(worlds[i].log, n, b)
    requires !Expired(worlds[i].log[a].lease, worlds[i].clock) && !Expired(worlds[i].log[b].lease, worlds[i].clock)
    ensures m == n
  {
    var j := FlagTrustedIffUnexpired(worlds, steps, i, m);
    var k := FlagTrustedIffUnexpired(worlds, steps, i, n);
    assert j == a && k == b;
  }

  /** An elector that finds no lease creates it and leads. */
  lemma FirstLeads(m: string, n: string) returns (worlds: seq<World>, steps: seq<Step>)
    requires m != n
    ensures IsRun(worlds, steps)
    ensures worlds[|worlds| - 1] ==
            World(0, [Accepted(Lease(0, m, LeaseDurationSeconds, Some(0)), Some(Post(Lease(0, m, LeaseDurationSeconds, Some(0)))), 0)],
                  map[m := Elector(Leading, true), n := Elector(Looping, false)], {})
  {
    var w0 := World(0, [], map[m := Elector(Looping, false), n := Elector(Looping, false)], {});
    var w1 := After(w0, Get(m));
    var w2 := After(w1, Create(m));
    var w3 := After(w2, Land(m));
    var w4 := After(w3, Publish(m, true));
    worlds, steps := [w0, w1, w2, w3, w4], [Get(m), Create(m), Land(m), Publish(m, true)];
  }

  ghost predicate Continues(w: World, worlds: seq<World>, steps: seq<Step>) {
    && |worlds| == |steps| + 1 && worlds[0] == w
    && forall i | 0 <= i < |steps| :: Enabled(worlds[i], steps[i]) && worlds[i + 1] == After(worlds[i], steps[i])
  }

  /** The lease after `n` wrote it now. */
  function RenewedBy(l: Lease, n: string, version: nat, now: int): Lease {
    Lease(version, n, l.durationSeconds, Some(now))
  }

  /** An elector that finds another's lease past its duration takes it and leads, whatever the old holder still believes. */
  lemma SecondLeads(w: World, n: string) returns (worlds: seq<World>, steps: seq<Step>)
    requires n in w.electors && w.electors[n].phase.Looping?
    requires Current(w).Some? && Current(w).value.holder != n
    requires Current(w).value.renewTime.Some? ==>
               w.clock - Current(w).value.renewTime.value > Current(w).value.durationSeconds * 1_000_000
    ensures Continues(w, worlds, steps)
    ensures worlds[|steps|].electors == w.electors[n := Elector(Leading, true)] && worlds[|steps|].clock == w.clock
    ensures Current(worlds[|steps|]) == Some(RenewedBy(Current(w).value, n, |w.log|, w.clock))
  {
    var w1 := After(w, Get(n));
    var w2 := After(w1, Take(n));
    var w3 := After(w2, Stamp(n));
    var w4 := After(w3, Land(n));
    var w5 := After(w4, Publish(n, true));
    worlds, steps := [w, w1, w2, w3, w4, w5], [Get(n), Take(n), Stamp(n), Land(n), Publish(n, true)];
  }

  /** A leader that still holds the lease renews it, however old it has become, and goes on leading. */
  lemma HolderRenews(w: World, n: string) returns (worlds: seq<World>, steps: seq<Step>)
    requires n in w.electors && w.electors[n].phase.Leading?
    requires Current(w).Some? && Current(w).value.holder == n
    ensures Continues(w, worlds, steps)
    ensures worlds[|steps|].electors == w.electors && worlds[|steps|].clock == w.clock
    ensures Current(worlds[|steps|]) == Some(RenewedBy(Current(w).value, n, |w.log|, w.clock))
  {
    var w1 := After(w, Renew(n));
    var w2 := After(w1, Stamp(n));
    var w3 := After(w2, Land(n));
    worlds, steps := [w, w1, w2, w3], [Renew(n), Stamp(n), Land(n)];
    assert w3.electors == w.electors;
  }

  /** A leader that finds the lease gone or another's can only withdraw, and looks for the lease again. */
  lemma DisplacedWithdraws(w: World, n: string, ok: bool)
    requires n in w.electors && w.electors[n].phase.Leading?
    requires Current(w).Some? ==> Current(w).value.holder != n
    ensures var v := After(w, Renew(n));
            && PhaseOf(v, n).Withdrawing? && Enabled(v, Withdraw(n, ok))
            && After(v, Withdraw(n, ok)) ==
               w.(electors := w.electors[n := Elector(Looping, w.electors[n].isLeader && !ok)])
  {}

  /** A write the server refuses ends a renewing leader's term, and sends a candidate back to look again. */
  lemma RefusedWrite(w: World, n: string)
    requires n in w.electors && w.electors[n].phase.Writing? && !Accepts(w, w.electors[n].phase.write)
    ensures var write, v := w.electors[n].phase.write, After(w, Land(n));
            && v.log == w.log && v.electors[n].isLeader == w.electors[n].isLeader
            && (write.Put? && write.checkedAt.None? ==> v.electors[n].phase == Withdrawing)
            && (write.Post? || write.checkedAt.Some? ==> v.electors[n].phase == Looping)
    ensures After(w, GiveUp(n)).electors == After(w, Land(n)).electors
  {}

  // ---------------------------------------------------------------- what the flag records

  predicate Lowers(s: Step, n: string) {
    s == Wait(n, true) || s == Withdraw(n, true) || s == Stop(n, true) || s == Publish(n, false)
  }

  /** The elector's label was patched to true by step `t`, and nothing has lowered its flag since. */
  ghost predicate RaisedBy(steps: seq<Step>, i: nat, n: string, t: nat) {
    && t < i <= |steps| && steps[t] == Publish(n, true)
    && forall u | t < u < i :: !Lowers(steps[u], n)
  }

  lemma FlagStep(w: World, s: Step, n: string)
    requires Enabled(w, s) && n in w.electors
    ensures n in After(w, s).electors
    ensures After(w, s).electors[n].isLeader <==> s == Publish(n, true) || (w.electors[n].isLeader && !Lowers(s, n))
  {}

  /** In every run the flag is up exactly when a publication has succeeded and has not been withdrawn since. */
  lemma {:induction false} FlagIffPublished(worlds: seq<World>, steps: seq<Step>, i: nat, n: string)
    requires IsRun(worlds, steps) && i < |worlds| && n in worlds[0].electors
    ensures n in worlds[i].electors
    ensures worlds[i].electors[n].isLeader <==> exists t: nat :: RaisedBy(steps, i, n, t)
    decreases i
  {
    if i > 0 {
      FlagIffPublished(worlds, steps, i - 1, n);
      FlagStep(worlds[i - 1], steps[i - 1], n);
      if worlds[i].electors[n].isLeader {
        if steps[i - 1] == Publish(n, true) {
          assert RaisedBy(steps, i, n, i - 1);
        } else {
          var t: nat :| RaisedBy(steps, i - 1, n, t);
          assert RaisedBy(steps, i, n, t);
        }
      } else if t: nat :| RaisedBy(steps, i, n, t) {
        assert RaisedBy(steps, i - 1, n, t);
      }
    }
  }

  /** The leader flag alone does not exclude a second leader: any two electors can both have it raised. */
  lemma FlagsCanOverlap(m: string, n: string) returns (worlds: seq<World>, steps: seq<Step>)
    requires m != n
    ensures IsRun(worlds, steps)
    ensures var last := worlds[|worlds| - 1].electors;
            m in last && n in last && last[m].isLeader && last[n].isLeader
  {
    var before, first := FirstLeads(m, n);
    var w := After(before[|before| - 1], Tick(16 * Second));
    var after, second := SecondLeads(w, n);
    worlds, steps := before + after, first + [Tick(16 * Second)] + second;
    forall i | 0 <= i < |steps| ensures Enabled(worlds[i], steps[i]) && worlds[i + 1] == After(worlds[i], steps[i]) {
      if i < |first| {
        assert worlds[i] == before[i] && worlds[i + 1] == before[i + 1] && steps[i] == first[i];
      } else if i > |first| {
        var j := i - |before|;
        assert worlds[i] == after[j] && worlds[i + 1] == after[j + 1] && steps[i] == second[j];
      }
    }
  }
}
