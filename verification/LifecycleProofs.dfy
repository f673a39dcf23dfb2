/** What every disciplined run of the lifecycle protocol keeps, and why the discipline is exact. */
module LifecycleProofs {
  import opened Wrappers
  import opened LifecycleProtocol

  // ---------- each stretch of code keeps the invariant ----------

  lemma DrainKeepsInv(m: Manager, b: nat)
    requires b == |m.batches| - 1 && m.batches[b].Drained? && m.batches[b].ok
    requires Inv(m) && !m.disposed
    ensures Inv(Drain(m, b))
  {
    var i := m.startedIndex;
    if i < |m.lifecycles| {
      ObserveAppend(m.log, StartCalled(i));
      var m' := Drain(m, b);
      assert m'.batches[b].AwaitStart?;
      assert UpTo(i + 1) == UpTo(i) + [i];
    } else {
      assert m.batches[b := Drained(true)] == m.batches;
    }
  }

  lemma RollbackKeepsInv(m: Manager, b: nat)
    requires b == |m.batches| - 1 && !m.batches[b].Closed?
    requires Inv(m) && m.disposed
    ensures Inv(Rollback(m, b))
  {
    var m' := Rollback(m, b);
    assert !HookInFlight(m');
    if m.startedIndex > 0 {
    }
  }

  lemma StopNextKeepsInv(m: Manager, failed: bool)
    requires Inv(m) && m.disposed
    ensures Inv(StopNext(m, failed))
  {
    var m' := StopNext(m, failed);
    assert !HookInFlight(m') by { assert m'.batches == m.batches; }
    if m.startedIndex > 0 {
    }
  }

  /** Registering, replacing a published value or moving a caller disturbs nothing the protocol counts. */
  lemma BystandersKeepInv(m: Manager, cells: seq<ReadyCell>, callers: seq<Caller>)
    requires Inv(m) && |m.lifecycles| <= |cells|
    requires forall c :: 0 <= c < |callers| && callers[c].Waiting? ==> callers[c].batch < |m.batches|
    ensures Inv(m.(lifecycles := cells, callers := callers))
  {
    assert HookInFlight(m.(lifecycles := cells, callers := callers)) == HookInFlight(m);
  }

  lemma LoopCheckKeepsInv(m: Manager, c: nat)
    requires Inv(m) && c < |m.callers|
    ensures Inv(LoopCheck(m, c))
  {
    var m' := LoopCheck(m, c);
    if m.startupPromise.None? && m.startedIndex < |m.lifecycles| && !m.disposed {
      var b := |m.batches|;
      var begun := m.(activeStartup := Some(b), startupPromise := Some(b), batches := m.batches + [Drained(true)],
                      callers := m.callers[c := Waiting(b)]);
      assert !HookInFlight(m);
      assert !HookInFlight(begun);
      assert Inv(begun);
      DrainKeepsInv(begun, b);
    } else {
      BystandersKeepInv(m, m.lifecycles, m'.callers);
    }
  }

  /** The loop heads overwrite the frame of their own batch, whatever it held. */
  lemma LoopHeadsOverwrite(m: Manager, b: nat, p: Phase)
    requires b < |m.batches|
    ensures Drain(m.(batches := m.batches[b := p]), b) == Drain(m, b)
    ensures Rollback(m.(batches := m.batches[b := p]), b) == Rollback(m, b)
  {
    assert m.batches[b := p][b := Drained(true)] == m.batches[b := Drained(true)];
    assert m.batches[b := p][b := Drained(false)] == m.batches[b := Drained(false)];
    assert m.batches[b := p][b := AwaitStart(m.startedIndex)] == m.batches[b := AwaitStart(m.startedIndex)];
    if m.startedIndex > 0 {
      assert m.batches[b := p][b := AwaitRollback(m.startedIndex - 1)] ==
             m.batches[b := AwaitRollback(m.startedIndex - 1)];
    }
  }

  lemma HookInFlightIsNewest(m: Manager, b: nat)
    requires Inv(m) && b < |m.batches| && m.batches[b].AwaitStart?
    ensures b == |m.batches| - 1 && !m.disposed && m.batches[b].index == m.startedIndex < |m.lifecycles|
    ensures |Starts(m.log)| == m.startedIndex && |StartCalls(m.log)| == m.startedIndex + 1 && Stops(m.log) == []
    ensures !HookInFlight(m.(batches := m.batches[b := Drained(true)]))
  {
    assert HookInFlight(m);
    assert PhaseOk(m, m.batches[b]);
  }

  /** The manager once the hook in flight has returned, before the loop looks at the next one. */
  lemma StartedHookKeepsInv(m: Manager, b: nat, i: nat)
    requires Inv(m) && b < |m.batches| && m.batches[b] == AwaitStart(i)
    ensures var started := m.(startedIndex := i + 1, log := m.log + [StartReturned(i)],
                              batches := m.batches[b := Drained(true)]);
            Inv(started) && Inv(started.(disposed := true))
  {
    HookInFlightIsNewest(m, b);
    ObserveAppend(m.log, StartReturned(i));
    assert UpTo(i + 1) == UpTo(i) + [i];
    var started := m.(startedIndex := i + 1, log := m.log + [StartReturned(i)],
                      batches := m.batches[b := Drained(true)]);
    assert HookInFlight(started) == HookInFlight(m.(batches := m.batches[b := Drained(true)]));
    assert DownFrom(i + 1, i + 1) == [];
    assert Accounting(started);
  }

  /** The batch goes on once its hook has settled, whatever its frame still says. */
  lemma SettledDrainKeepsInv(m: Manager, b: nat)
    requires b == |m.batches| - 1 && !m.disposed && Inv(m.(batches := m.batches[b := Drained(true)]))
    ensures Inv(Drain(m, b))
  {
    DrainKeepsInv(m.(batches := m.batches[b := Drained(true)]), b);
    LoopHeadsOverwrite(m, b, Drained(true));
  }

  lemma SettledFailureKeepsInv(m: Manager, b: nat)
    requires b == |m.batches| - 1 && Inv(m.(disposed := true, batches := m.batches[b := Drained(true)]))
    ensures Inv(FailStartup(m, b))
  {
    RollbackKeepsInv(m.(disposed := true, batches := m.batches[b := Drained(true)]), b);
    LoopHeadsOverwrite(m.(disposed := true), b, Drained(true));
  }

  lemma ThrownStartKeepsInv(m: Manager, b: nat)
    requires Inv(m) && b < |m.batches| && m.batches[b].AwaitStart?
    ensures Inv(FailStartup(m, b))
  {
    HookInFlightIsNewest(m, b);
    var settled := m.(batches := m.batches[b := Drained(true)]);
    assert !HookInFlight(settled.(disposed := true)) by { assert !HookInFlight(settled); }
    SettledFailureKeepsInv(m, b);
  }

  /** The manager once the hook in flight has returned. */
  function AfterReturn(m: Manager, b: nat): Manager
    requires b < |m.batches| && m.batches[b].AwaitStart?
  {
    m.(startedIndex := m.startedIndex + 1, log := m.log + [StartReturned(m.batches[b].index)])
  }

  lemma ReturnedKeepsInv(m: Manager, b: nat)
    requires Inv(m) && b < |m.batches| && m.batches[b].AwaitStart?
    ensures Inv(Drain(AfterReturn(m, b), b)) && Inv(FailStartup(AfterReturn(m, b), b))
  {
    HookInFlightIsNewest(m, b);
    StartedHookKeepsInv(m, b, m.batches[b].index);
    SettledDrainKeepsInv(AfterReturn(m, b), b);
    SettledFailureKeepsInv(AfterReturn(m, b), b);
  }

  lemma SealedKeepsInv(m: Manager, b: nat, cells: seq<ReadyCell>)
    requires Inv(m) && b < |m.batches| && m.batches[b].AwaitStart? && |cells| == |m.lifecycles|
    ensures Inv(Drain(AfterReturn(m, b).(lifecycles := cells), b))
  {
    HookInFlightIsNewest(m, b);
    StartedHookKeepsInv(m, b, m.batches[b].index);
    var returned := AfterReturn(m, b);
    BystandersKeepInv(returned.(batches := m.batches[b := Drained(true)]), cells, m.callers);
    SettledDrainKeepsInv(returned.(lifecycles := cells), b);
  }

  lemma StartSettlesKeepsInv(m: Manager, b: nat, outcome: StartOutcome)
    requires Inv(m) && Enabled(m, StartSettles(b, outcome))
    ensures Inv(Apply(m, StartSettles(b, outcome)))
  {
    var i := m.batches[b].index;
    if outcome.Throws? {
      ThrownStartKeepsInv(m, b);
    } else {
      ReturnedKeepsInv(m, b);
      SealedKeepsInv(m, b, m.lifecycles[i := Sealed]);
    }
  }

  lemma ShutdownKeepsInv(m: Manager, guardRefuses: bool)
    requires Inv(m) && Disciplined(m, Shutdown(guardRefuses))
    ensures Inv(Apply(m, Shutdown(guardRefuses)))
  {
    if ShutdownBegins(m, guardRefuses) {
      var disposing := m.(disposed := true);
      assert HookInFlight(disposing) == HookInFlight(m);
      assert Inv(disposing);
      StopNextKeepsInv(disposing, false);
    }
  }

  lemma StopSettlesKeepsInv(m: Manager, throws: bool)
    requires Inv(m) && Enabled(m, StopSettles(throws))
    ensures Inv(Apply(m, StopSettles(throws)))
  {
    var cells := m.lifecycles[m.stopper.index := Released];
    BystandersKeepInv(m, cells, m.callers);
    StopNextKeepsInv(m.(lifecycles := cells), m.stopper.failed || throws);
  }

  lemma FinallyKeepsInv(m: Manager, b: nat)
    requires Inv(m) && Enabled(m, FinallyRuns(b))
    ensures Inv(Apply(m, FinallyRuns(b)))
  {
    assert HookInFlight(Apply(m, FinallyRuns(b))) == HookInFlight(m);
  }

  lemma RollbackSettlesKeepsInv(m: Manager, b: nat)
    requires Inv(m) && Enabled(m, RollbackSettles(b))
    ensures Inv(Apply(m, RollbackSettles(b)))
  {
    var cells := m.lifecycles[m.batches[b].index := Released];
    BystandersKeepInv(m, cells, m.callers);
    RollbackKeepsInv(m.(lifecycles := cells), b);
  }

  lemma CallKeepsInv(m: Manager, context: Option<nat>)
    requires Inv(m)
    ensures Inv(StartupPending(m, context))
  {
    BystandersKeepInv(m, m.lifecycles, m.callers + [Rejected]);
    BystandersKeepInv(m, m.lifecycles, m.callers + [ReturnedToHook]);
    LoopCheckKeepsInv(m.(callers := m.callers + [Rejected]), |m.callers|);
  }

  lemma StepKeepsInv(m: Manager, s: Step)
    requires Inv(m) && Enabled(m, s) && Disciplined(m, s)
    ensures Inv(Apply(m, s))
  {
    match s
    case Register => BystandersKeepInv(m, m.lifecycles + [Pending], m.callers);
    case Call(context) => CallKeepsInv(m, context);
    case StartSettles(b, outcome) => StartSettlesKeepsInv(m, b, outcome);
    case RollbackSettles(b) => RollbackSettlesKeepsInv(m, b);
    case FinallyRuns(b) => FinallyKeepsInv(m, b);
    case Resume(c) =>
      LoopCheckKeepsInv(m, c);
      BystandersKeepInv(m, m.lifecycles, m.callers[c := Rejected]);
    case Shutdown(guardRefuses) => ShutdownKeepsInv(m, guardRefuses);
    case StopSettles(throws) => StopSettlesKeepsInv(m, throws);
  }

  // ---------- what disposed the manager, and what it waits for after that ----------

  /** Only a failed batch or a shutdown disposes the manager. */
  ghost predicate DisposedBy(m: Manager) {
    m.disposed ==> !m.stopper.Absent? || BatchFailed(m)
  }

  lemma RollbackFails(m: Manager, b: nat)
    requires b < |m.batches|
    ensures BatchFailed(Rollback(m, b))
  {
    assert FailedPhase(Rollback(m, b).batches[b]);
  }

  /** A failed batch stays failed. */
  lemma FailureStays(m: Manager, s: Step)
    requires Enabled(m, s) && BatchFailed(m)
    ensures BatchFailed(Apply(m, s))
  {
    var b :| 0 <= b < |m.batches| && FailedPhase(m.batches[b]);
    assert FailedPhase(Apply(m, s).batches[b]);
  }

  lemma StartSettlesKeepsDisposedBy(m: Manager, b: nat, outcome: StartOutcome)
    requires Enabled(m, StartSettles(b, outcome)) && DisposedBy(m) && !BatchFailed(m)
    ensures DisposedBy(Apply(m, StartSettles(b, outcome)))
  {
    var started := m.(startedIndex := m.startedIndex + 1, log := m.log + [StartReturned(m.batches[b].index)]);
    RollbackFails(m.(disposed := true), b);
    RollbackFails(started.(disposed := true), b);
  }

  lemma StepKeepsDisposedBy(m: Manager, s: Step)
    requires Enabled(m, s) && DisposedBy(m)
    ensures DisposedBy(Apply(m, s))
  {
    if BatchFailed(m) {
      FailureStays(m, s);
    } else if s.StartSettles? {
      StartSettlesKeepsDisposedBy(m, s.batch, s.outcome);
    } else if s.RollbackSettles? {
      assert FailedPhase(m.batches[s.batch]);
    }
  }

  /** Once a shutdown has disposed a manager that waits for no hook, no batch ever waits for one again. */
  lemma QuietStays(m: Manager, s: Step)
    requires Enabled(m, s) && m.disposed && !m.stopper.Absent? && !BatchBusy(m)
    ensures !BatchBusy(Apply(m, s))
  {
    var m' := Apply(m, s);
    forall b | 0 <= b < |m'.batches|
      ensures !Busy(m'.batches[b])
    {
      assert !Busy(m.batches[b]);
    }
  }

  // ---------- every disciplined run ----------

  lemma {:induction false} RunKeepsInv(m: Manager, steps: seq<Step>)
    requires Inv(m) && IsRun(m, steps)
    ensures Inv(After(m, steps))
    decreases |steps|
  {
    if steps == [] {
    } else {
      StepKeepsInv(m, steps[0]);
      RunKeepsInv(Apply(m, steps[0]), steps[1..]);
    }
  }

  lemma ReachableInv(steps: seq<Step>)
    requires IsRun(INITIAL, steps)
    ensures Inv(After(INITIAL, steps))
  {
    RunKeepsInv(INITIAL, steps);
  }

  predicate StartupFailed(m: Manager) {
    exists b :: 0 <= b < |m.batches| && m.batches[b] == Closed(false)
  }

  /**
   Hooks start in registration order and none starts twice; stops come in the reverse order of every
   start that returned, are complete once shutdown or a failed startup has settled, and leave running
   exactly the hooks below startedIndex.
   */
  lemma HookOrder(steps: seq<Step>)
    requires IsRun(INITIAL, steps)
    ensures var m := After(INITIAL, steps);
            var starts, stops := Starts(m.log), Stops(m.log);
            && StartCalls(m.log) == UpTo(|StartCalls(m.log)|)
            && starts == UpTo(|starts|)
            && |stops| <= |starts| && stops == Reverse(starts)[..|stops|]
            && (!m.disposed ==> stops == [])
            && (m.stopper.Stopped? || StartupFailed(m) ==> stops == Reverse(starts))
            && forall i: nat :: i < m.startedIndex <==> i in starts && i !in stops
  {
    ReachableInv(steps);
    var m := After(INITIAL, steps);
    var starts, stops := Starts(m.log), Stops(m.log);
    assert Reverse(starts) == DownFrom(|starts|, 0);
    assert DownFrom(|starts|, 0)[..|starts| - m.startedIndex] == DownFrom(|starts|, m.startedIndex);
    forall i: nat
      ensures i < m.startedIndex <==> i in starts && i !in stops
    {
      if i < |starts| {
        assert starts[i] == i;
        if i >= m.startedIndex { assert stops[|starts| - 1 - i] == i; }
      }
    }
  }

  /** At most one startup batch is ever unsettled, and it is the one the manager's fields name. */
  lemma OneActiveBatch(steps: seq<Step>, b: nat)
    requires IsRun(INITIAL, steps)
    requires var m := After(INITIAL, steps); b < |m.batches| && !m.batches[b].Closed?
    ensures var m := After(INITIAL, steps);
            && m.startupPromise == Some(b) && m.activeStartup == Some(b)
            && forall other :: 0 <= other < |m.batches| && other != b ==> m.batches[other].Closed?
  {
    ReachableInv(steps);
  }

  predicate NewlyReturned(m: Manager, m': Manager, c: nat) {
    c < |m'.callers| && m'.callers[c].Returned? && (c < |m.callers| ==> !m.callers[c].Returned?)
  }

  lemma ReturnLeavesNothingPending(m: Manager, s: Step, c: nat)
    requires Enabled(m, s) && NewlyReturned(m, Apply(m, s), c)
    ensures var m' := Apply(m, s); !m'.disposed && m'.startupPromise.None? && m'.startedIndex >= |m'.lifecycles|
  {
  }

  /** A caller outside the batch returns normally only when every registered hook has started and none has stopped. */
  lemma ReturnMeansStarted(steps: seq<Step>, s: Step, c: nat)
    requires IsRun(INITIAL, steps) && Enabled(After(INITIAL, steps), s) && Disciplined(After(INITIAL, steps), s)
    requires NewlyReturned(After(INITIAL, steps), Apply(After(INITIAL, steps), s), c)
    ensures var m' := Apply(After(INITIAL, steps), s);
            && !m'.disposed && !HookInFlight(m')
            && Starts(m'.log) == UpTo(|m'.lifecycles|) && Stops(m'.log) == []
  {
    var m := After(INITIAL, steps);
    ReachableInv(steps);
    StepKeepsInv(m, s);
    ReturnLeavesNothingPending(m, s, c);
  }

  /** Once disposed, no later step of a disciplined run starts a hook. */
  lemma {:induction false} DisposedStartsNothing(m: Manager, steps: seq<Step>)
    requires Inv(m) && m.disposed && IsRun(m, steps)
    ensures After(m, steps).disposed && StartCalls(After(m, steps).log) == StartCalls(m.log)
    decreases |steps|
  {
    if steps == [] {
    } else {
      StepKeepsInv(m, steps[0]);
      DisposedStartsNothing(Apply(m, steps[0]), steps[1..]);
    }
  }

  // ---------- every caller finishes ----------

  /** A step the manager owes once nobody registers, calls or shuts down any more. */
  predicate Owed(s: Step) {
    s.StartSettles? || s.RollbackSettles? || s.FinallyRuns? || s.Resume? || s.StopSettles?
  }

  predicate Quiescent(m: Manager) {
    && (forall b :: 0 <= b < |m.batches| ==> m.batches[b].Closed?)
    && !m.stopper.AwaitStop?
    && (forall c :: 0 <= c < |m.callers| ==> !m.callers[c].Waiting?)
  }

  /** While anything is unfinished some owed step can be taken: nobody waits for ever. */
  lemma NoDeadlock(m: Manager) returns (s: Step)
    requires Inv(m) && !Quiescent(m)
    ensures Owed(s) && Enabled(m, s)
  {
    if m.stopper.AwaitStop? {
      s := StopSettles(false);
    } else if b: nat :| b < |m.batches| && !m.batches[b].Closed? {
      assert PhaseOk(m, m.batches[b]);
      s := if m.batches[b].AwaitStart? then StartSettles(b, Throws)
           else if m.batches[b].AwaitRollback? then RollbackSettles(b)
           else FinallyRuns(b);
    } else {
      var c: nat :| c < |m.callers| && m.callers[c].Waiting?;
      s := Resume(c);
    }
  }

  // The measure: hooks still to call, hooks still to stop, frames still to settle, callers still to look again.

  function HooksToCall(m: Manager): nat {
    if m.disposed then 0
    else if |m.lifecycles| <= m.startedIndex then 1
    else 2 + 2 * (|m.lifecycles| - m.startedIndex) - if HookInFlight(m) then 1 else 0
  }

  function HooksToStop(m: Manager): nat {
    if m.disposed then m.startedIndex else 0
  }

  function Rank(p: Phase): nat {
    match p
    case AwaitStart(_) => 3
    case AwaitRollback(_) => 2
    case Drained(_) => 1
    case Closed(_) => 0
  }

  function FramesToSettle(m: Manager): nat {
    (if m.batches == [] then 0 else Rank(m.batches[|m.batches| - 1])) + if m.stopper.AwaitStop? then 1 else 0
  }

  function Looks(caller: Caller, batches: nat): nat {
    if caller.Waiting? && caller.batch < batches then batches - caller.batch else 0
  }

  function LooksToTake(callers: seq<Caller>, batches: nat): nat {
    if callers == [] then 0 else Looks(callers[0], batches) + LooksToTake(callers[1..], batches)
  }

  lemma {:induction false} LooksUpdate(callers: seq<Caller>, batches: nat, c: nat, caller: Caller)
    requires c < |callers|
    ensures LooksToTake(callers[c := caller], batches) + Looks(callers[c], batches) ==
            LooksToTake(callers, batches) + Looks(caller, batches)
  {
    if c == 0 {
      assert callers[0 := caller][1..] == callers[1..];
    } else {
      assert callers[c := caller][1..] == callers[1..][c - 1 := caller];
      LooksUpdate(callers[1..], batches, c - 1, caller);
    }
  }

  ghost predicate Closer(m': Manager, m: Manager) {
    || HooksToCall(m') < HooksToCall(m)
    || (HooksToCall(m') == HooksToCall(m) &&
        (|| HooksToStop(m') < HooksToStop(m)
         || (HooksToStop(m') == HooksToStop(m) &&
             (|| FramesToSettle(m') < FramesToSettle(m)
              || (FramesToSettle(m') == FramesToSettle(m) &&
                  LooksToTake(m'.callers, |m'.batches|) < LooksToTake(m.callers, |m.batches|))))))
  }

  lemma ResumeIsCloser(m: Manager, c: nat)
    requires Inv(m) && Enabled(m, Resume(c))
    ensures Closer(Apply(m, Resume(c)), m)
  {
    var m' := Apply(m, Resume(c));
    var b := m.callers[c].batch;
    if m.batches[b].ok && m.startupPromise.None? && m.startedIndex < |m.lifecycles| && !m.disposed {
      assert m'.batches[|m.batches|].AwaitStart?;
      assert HookInFlight(m') && !HookInFlight(m);
    } else {
      assert HookInFlight(m') == HookInFlight(m);
      LooksUpdate(m.callers, |m.batches|, c, m'.callers[c]);
    }
  }

  lemma StartSettlesIsCloser(m: Manager, b: nat, outcome: StartOutcome)
    requires Inv(m) && Enabled(m, StartSettles(b, outcome))
    ensures Closer(Apply(m, StartSettles(b, outcome)), m)
  {
    assert HookInFlight(m) && !m.disposed;
    var m' := Apply(m, StartSettles(b, outcome));
    if !m'.disposed && m'.startedIndex < |m'.lifecycles| { assert m'.batches[b].AwaitStart?; }
  }

  lemma OwedStepIsCloser(m: Manager, s: Step)
    requires Inv(m) && Owed(s) && Enabled(m, s)
    ensures Closer(Apply(m, s), m)
  {
    match s
    case StartSettles(b, outcome) => StartSettlesIsCloser(m, b, outcome);
    case RollbackSettles(b) => assert PhaseOk(m, m.batches[b]);
    case FinallyRuns(b) => assert HookInFlight(Apply(m, s)) == HookInFlight(m);
    case Resume(c) => ResumeIsCloser(m, c);
    case StopSettles(throws) =>
  }

  /** Any way of choosing the next owed step. */
  ghost predicate Scheduler(pick: Manager -> Step) {
    forall m: Manager {:trigger pick(m)} :: Inv(m) && !Quiescent(m) ==> Owed(pick(m)) && Enabled(m, pick(m))
  }

  ghost function Scheduled(m: Manager, pick: Manager -> Step): (end: Manager)
    requires Inv(m) && Scheduler(pick)
    ensures Inv(end) && Quiescent(end)
    decreases HooksToCall(m), HooksToStop(m), FramesToSettle(m), LooksToTake(m.callers, |m.batches|)
  {
    if Quiescent(m) then m
    else
      StepKeepsInv(m, pick(m));
      OwedStepIsCloser(m, pick(m));
      Scheduled(Apply(m, pick(m)), pick)
  }

  /** Whatever order the owed steps are taken in, every call of startupPending finishes. */
  lemma EveryCallerFinishes(steps: seq<Step>, pick: Manager -> Step, c: nat)
    requires IsRun(INITIAL, steps) && Scheduler(pick)
    requires c < |After(INITIAL, steps).callers|
    ensures Inv(After(INITIAL, steps))
    ensures var end := Scheduled(After(INITIAL, steps), pick);
            c < |end.callers| && !end.callers[c].Waiting?
  {
    ReachableInv(steps);
    CallersStay(After(INITIAL, steps), pick);
  }

  lemma StepKeepsCallers(m: Manager, s: Step)
    requires Enabled(m, s)
    ensures |Apply(m, s).callers| >= |m.callers|
  {
  }

  lemma {:induction false} CallersStay(m: Manager, pick: Manager -> Step)
    requires Inv(m) && Scheduler(pick)
    ensures |Scheduled(m, pick).callers| >= |m.callers|
    decreases HooksToCall(m), HooksToStop(m), FramesToSettle(m), LooksToTake(m.callers, |m.batches|)
  {
    if !Quiescent(m) {
      StepKeepsInv(m, pick(m));
      OwedStepIsCloser(m, pick(m));
      StepKeepsCallers(m, pick(m));
      CallersStay(Apply(m, pick(m)), pick);
    }
  }

  // ---------- the discipline is exact ----------

  /** No hook is started twice, and a shutdown that has settled leaves none running. */
  predicate Sound(m: Manager) {
    && StartCalls(m.log) == UpTo(|StartCalls(m.log)|)
    && (m.stopper.Stopped? ==> m.startedIndex == 0)
  }

  /** Every disciplined continuation is sound. */
  ghost predicate SoundFrom(m: Manager) {
    forall steps: seq<Step> :: IsRun(m, steps) ==> Sound(After(m, steps))
  }

  lemma OneStepRun(m: Manager, s: Step)
    requires Enabled(m, s) && Disciplined(m, s)
    ensures IsRun(m, [s]) && After(m, [s]) == Apply(m, s)
  {
    assert [s][1..] == [];
  }

  /** With no other hook running: the hook in flight is left running after shutdown has settled. */
  lemma RaceLeaksFirstHook(m: Manager, b: nat)
    requires b < |m.batches| && m.batches[b] == AwaitStart(0) && m.startedIndex == 0 && |m.lifecycles| > 0
    requires m.stopper.Absent?
    ensures var racing := Apply(m, Shutdown(false));
            && Enabled(racing, StartSettles(b, ReturnsNothing))
            && !Sound(Apply(racing, StartSettles(b, ReturnsNothing)))
  {
  }

  /** With another hook running: stopping it makes the batch start the hook in flight a second time. */
  lemma RaceStartsTwice(m: Manager, b: nat)
    requires b < |m.batches| && m.batches[b] == AwaitStart(m.startedIndex) && 0 < m.startedIndex < |m.lifecycles|
    requires m.stopper.Absent? && StartCalls(m.log) == UpTo(m.startedIndex + 1)
    ensures var racing := Apply(m, Shutdown(false));
            && Enabled(racing, StartSettles(b, ReturnsNothing))
            && !Sound(Apply(racing, StartSettles(b, ReturnsNothing)))
  {
    RestartedLog(m.log, m.startedIndex);
  }

  /** Hook i is in flight, the one before it is stopped, i returns, and i is called again. */
  lemma RestartedLog(log: seq<Event>, i: nat)
    requires 0 < i && StartCalls(log) == UpTo(i + 1)
    ensures var l := log + [StopCalled(i - 1)] + [StartReturned(i)] + [StartCalled(i)];
            StartCalls(l) != UpTo(|StartCalls(l)|)
  {
    ObserveAppend(log, StopCalled(i - 1));
    ObserveAppend(log + [StopCalled(i - 1)], StartReturned(i));
    ObserveAppend(log + [StopCalled(i - 1)] + [StartReturned(i)], StartCalled(i));
    assert (UpTo(i + 1) + [i])[i + 1] == i != UpTo(i + 2)[i + 1];
  }

  lemma RaceBreaks(m: Manager, b: nat)
    requires Inv(m) && m.stopper.Absent? && b < |m.batches| && m.batches[b].AwaitStart?
    ensures !SoundFrom(Apply(m, Shutdown(false)))
  {
    assert PhaseOk(m, m.batches[b]);
    if m.startedIndex == 0 { RaceLeaksFirstHook(m, b); } else { RaceStartsTwice(m, b); }
    OneStepRun(Apply(m, Shutdown(false)), StartSettles(b, ReturnsNothing));
  }

  /** In a reachable state, beginning shutdown is sound for every continuation exactly when no hook is in flight. */
  lemma ShutdownSoundIff(steps: seq<Step>)
    requires IsRun(INITIAL, steps) && After(INITIAL, steps).stopper.Absent?
    ensures var m := After(INITIAL, steps); SoundFrom(Apply(m, Shutdown(false))) <==> !HookInFlight(m)
  {
    var m := After(INITIAL, steps);
    ReachableInv(steps);
    if b: nat :| b < |m.batches| && m.batches[b].AwaitStart? {
      RaceBreaks(m, b);
    } else {
      ShutdownKeepsInv(m, false);
      forall more: seq<Step> | IsRun(Apply(m, Shutdown(false)), more)
        ensures Sound(After(Apply(m, Shutdown(false)), more))
      {
        RunKeepsInv(Apply(m, Shutdown(false)), more);
      }
    }
  }
}
