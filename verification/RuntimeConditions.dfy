/**
 When a step that takes shutdown to the lifecycle manager is safe: the exact conditions, and the runs
 that break the promise without them.
 */
module RuntimeConditions {
  import opened Wrappers
  import opened RuntimeProtocol
  import opened RuntimeProofs
  import L = LifecycleProtocol
  import LP = LifecycleProofs

  // ---------- building runs ----------

  lemma OneStep(r: Runtime, s: Step)
    requires Enabled(r, s) && Disciplined(r, s)
    ensures IsRun(r, [s]) && After(r, [s]) == Apply(r, s)
  {
    assert [s][1..] == [];
  }

  lemma Prepend(r: Runtime, s: Step, steps: seq<Step>)
    requires Enabled(r, s) && Disciplined(r, s) && IsRun(Apply(r, s), steps)
    ensures IsRun(r, [s] + steps) && After(r, [s] + steps) == After(Apply(r, s), steps)
  {
    assert ([s] + steps)[1..] == steps;
  }

  lemma {:induction false} Append(r: Runtime, steps: seq<Step>, s: Step)
    requires IsRun(r, steps) && Enabled(After(r, steps), s) && Disciplined(After(r, steps), s)
    ensures IsRun(r, steps + [s]) && After(r, steps + [s]) == Apply(After(r, steps), s)
    decreases |steps|
  {
    if steps == [] {
      OneStep(r, s);
      assert steps + [s] == [s];
    } else {
      Append(Apply(r, steps[0]), steps[1..], s);
      Prepend(r, steps[0], steps[1..] + [s]);
      assert steps + [s] == [steps[0]] + (steps[1..] + [s]);
    }
  }

  // ---------- a shutdown past the manager can always be completed ----------

  /** The after phase, with every callback it has run so far settled. */
  ghost predicate InAfterPhase(r: Runtime) {
    && r.boot.Disposed? && r.frame.Invoking? && r.frame.when.AfterStop?
    && AllOf(r.callbacks, r.frame.rest, AfterStop)
    && AllFinished(r, r.frame.awaited)
  }

  lemma AfterPhaseAdvances(r: Runtime)
    requires InAfterPhase(r) && r.frame.rest != []
    ensures Enabled(r, InvokeNext)
    ensures var k, next := r.frame.rest[0], Apply(r, InvokeNext);
            && next.lm == r.lm && next.frame.Invoking? && |next.frame.rest| < |r.frame.rest|
            && (k !in r.after ==> InAfterPhase(next))
            && (k in r.after ==> Enabled(next, BodySettles(k, false)) && InAfterPhase(Apply(next, BodySettles(k, false))))
  {
    assert r.frame.rest[0] in r.frame.rest;
    var next := Apply(r, InvokeNext);
    assert forall x :: x in next.frame.rest ==> x in r.frame.rest;
  }

  /** Each callback is called, and the body it runs settles, until the promise is kept. */
  lemma {:induction false} FinishAfterPhase(r: Runtime) returns (steps: seq<Step>)
    requires InAfterPhase(r)
    ensures IsRun(r, steps) && After(r, steps).frame.Kept? && After(r, steps).lm == r.lm
    decreases |r.frame.rest|
  {
    if r.frame.rest == [] {
      OneStep(Apply(r, CallbacksSettled(false, false)), FinallyRuns);
      Prepend(r, CallbacksSettled(false, false), [FinallyRuns]);
      steps := [CallbacksSettled(false, false)] + [FinallyRuns];
    } else {
      AfterPhaseAdvances(r);
      var k, next := r.frame.rest[0], Apply(r, InvokeNext);
      if k in r.after {
        steps := FinishAfterPhase(Apply(next, BodySettles(k, false)));
        Prepend(next, BodySettles(k, false), steps);
        steps := [BodySettles(k, false)] + steps;
      } else {
        steps := FinishAfterPhase(next);
      }
      Prepend(r, InvokeNext, steps);
      steps := [InvokeNext] + steps;
    }
  }

  /** The manager is stopping its hooks from the top and has called the stop of the next one, if any. */
  ghost predicate Stopping(m: L.Manager) {
    m.stopper.Stopped? || (m.stopper.AwaitStop? && m.stopper.index == m.startedIndex < |m.lifecycles|)
  }

  /** Whatever the batches are doing, the shutdown can go on to its end without waiting for them. */
  lemma {:induction false} FinishShutdown(r: Runtime) returns (steps: seq<Step>)
    requires r.boot.Disposed? && r.frame.AwaitLifecycle? && Stopping(r.lm) && AllOf(r.callbacks, r.after, AfterStop)
    ensures IsRun(r, steps)
    ensures var end := After(r, steps);
            end.frame.Kept? && end.lm.batches == r.lm.batches && |end.lm.lifecycles| == |r.lm.lifecycles|
    decreases r.lm.stopper.AwaitStop?, r.lm.startedIndex
  {
    var s := if r.lm.stopper.Stopped? then LifecycleStopped else Lifecycle(L.StopSettles(false));
    if r.lm.stopper.Stopped? {
      steps := FinishAfterPhase(Apply(r, s));
    } else {
      steps := FinishShutdown(Apply(r, s));
    }
    Prepend(r, s, steps);
    steps := [s] + steps;
  }

  /** The step calls the manager's shutdown and neither question was refused. */
  predicate ReachesManager(r: Runtime, s: Step) {
    Enabled(r, s) && PassesGuards(r, s) && !GuardsRefuse(r.lm, s.refusesAgain)
  }

  lemma ReachingManagerStops(r: Runtime, s: Step)
    requires Inv(r) && ReachesManager(r, s)
    ensures var next := Apply(r, s);
            && next.boot.Disposed? && next.frame.AwaitLifecycle? && Stopping(next.lm)
            && next.lm.batches == r.lm.batches && |next.lm.lifecycles| == |r.lm.lifecycles|
            && AllOf(next.callbacks, next.after, AfterStop)
  {
  }

  // ---------- when nothing is left in progress ----------

  /** Once an after callback has begun or shutdown is complete, no batch waits for a hook to start or stop. */
  predicate Settled(r: Runtime) {
    AfterBegun(r) || r.frame.Kept? ==> !L.BatchBusy(r.lm)
  }

  ghost predicate SettledFrom(r: Runtime) {
    forall steps: seq<Step> :: IsRun(r, steps) ==> Settled(After(r, steps))
  }

  lemma QuietIsSettled(r: Runtime)
    requires Inv(r) && Quiet(r)
    ensures Settled(r)
  {
  }

  lemma HookInFlightIsBusy(m: L.Manager)
    ensures L.HookInFlight(m) ==> L.BatchBusy(m)
  {
    if b: nat :| b < |m.batches| && m.batches[b].AwaitStart? { assert L.Busy(m.batches[b]); }
  }

  /** Once disposed, no shutdown turns to the manager again. */
  lemma {:induction false} DisposedIsUnhurried(r: Runtime, steps: seq<Step>)
    requires Inv(r) && r.boot.Disposed? && IsRun(r, steps)
    ensures Unhurried(r, steps)
    decreases |steps|
  {
    if steps == [] {
    } else {
      StepKeepsInv(r, steps[0]);
      DisposedStays(r, steps[0]);
      DisposedIsUnhurried(Apply(r, steps[0]), steps[1..]);
    }
  }

  lemma DisposedStays(r: Runtime, s: Step)
    requires Inv(r) && r.boot.Disposed? && Enabled(r, s)
    ensures Apply(r, s).boot.Disposed? && !PassesGuards(r, s)
  {
  }

  /**
   In a reachable state, a step that reaches the manager leaves nothing in progress, whatever comes
   after it, exactly when no startup batch is waiting for a hook to start or to stop at that moment.
   */
  lemma SettledIff(steps: seq<Step>, s: Step)
    requires IsRun(FRESH, steps) && ReachesManager(After(FRESH, steps), s)
    ensures var r := After(FRESH, steps); SettledFrom(Apply(r, s)) <==> !L.BatchBusy(r.lm)
  {
    var r := After(FRESH, steps);
    ReachableInv(steps);
    if L.BatchBusy(r.lm) {
      ReachingManagerStops(r, s);
      var finish := FinishShutdown(Apply(r, s));
      assert !Settled(After(Apply(r, s), finish));
    } else {
      HookInFlightIsBusy(r.lm);
      StepKeepsInv(r, s);
      ReachingManagerStops(r, s);
      forall more: seq<Step> | IsRun(Apply(r, s), more)
        ensures Settled(After(Apply(r, s), more))
      {
        RunKeepsInv(Apply(r, s), more);
        DisposedIsUnhurried(Apply(r, s), more);
        RunKeepsQuiet(Apply(r, s), more);
        QuietIsSettled(After(Apply(r, s), more));
      }
    }
  }

  // ---------- when every hook is stopped ----------

  /** Once shutdown is complete the manager has stopped its hooks and none is left started. */
  predicate KeptStopped(r: Runtime) {
    r.frame.Kept? ==> r.lm.stopper.Stopped? && r.lm.startedIndex == 0
  }

  ghost predicate KeptStoppedFrom(r: Runtime) {
    forall steps: seq<Step> :: IsRun(r, steps) ==> KeptStopped(After(r, steps))
  }

  /** The guards let the first question pass and refuse the second. */
  predicate GuardGap(r: Runtime, s: Step) {
    PassesGuards(r, s) && GuardsRefuse(r.lm, s.refusesAgain)
  }

  /** Disposed without the manager having been asked to stop: the shutdown is past that point for good. */
  ghost predicate Stranded(r: Runtime) {
    && r.boot.Disposed? && r.lm.stopper.Absent? && L.Inv(r.lm) && LP.DisposedBy(r.lm)
    && (r.frame.Finishing? || r.frame.Kept? || (r.frame.Invoking? && r.frame.when.AfterStop?))
  }

  lemma GapStrands(r: Runtime, s: Step)
    requires Inv(r) && Enabled(r, s) && GuardGap(r, s)
    ensures Stranded(Apply(r, s)) && InAfterPhase(Apply(r, s)) && Apply(r, s).lm == r.lm
  {
  }

  /** A hook in flight comes back once the shutdown is complete, and stays started. */
  lemma HookReturnsLate(r: Runtime, b: nat)
    requires r.boot.Disposed? && r.frame.AwaitLifecycle? && Stopping(r.lm) && AllOf(r.callbacks, r.after, AfterStop)
    requires b < |r.lm.batches| && r.lm.batches[b].AwaitStart? && r.lm.batches[b].index < |r.lm.lifecycles|
    ensures !KeptStoppedFrom(r)
  {
    var finish := FinishShutdown(r);
    var end, late := After(r, finish), Lifecycle(L.StartSettles(b, L.ReturnsNothing));
    Append(r, finish, late);
    assert Apply(end, late).lm.startedIndex == end.lm.startedIndex + 1;
    assert !KeptStopped(After(r, finish + [late]));
  }

  lemma UnstoppedIsKept(r: Runtime)
    requires InAfterPhase(r) && r.lm.stopper.Absent?
    ensures !KeptStoppedFrom(r)
  {
    var finish := FinishAfterPhase(r);
    assert !KeptStopped(After(r, finish));
  }

  lemma InvIsKeptStopped(r: Runtime)
    requires Inv(r)
    ensures KeptStopped(r)
  {
  }

  /**
   In a reachable state, the step that turns to the manager has every started hook stopped by the time
   shutdown is complete, whatever comes after it, exactly when the guards do not let the first question
   pass and refuse the second, and no hook is starting as they let it through.
   */
  lemma KeptStoppedIff(steps: seq<Step>, s: Step)
    requires IsRun(FRESH, steps)
    requires Enabled(After(FRESH, steps), s) && StopsLifecycles(After(FRESH, steps), s)
    ensures var r := After(FRESH, steps);
            KeptStoppedFrom(Apply(r, s)) <==>
              (s.refuses || !s.refusesAgain || r.lm.disposed || r.lm.startedIndex == 0) &&
              (GuardsRefuse(r.lm, s.refuses) || !L.HookInFlight(r.lm))
  {
    var r := After(FRESH, steps);
    ReachableInv(steps);
    if GuardGap(r, s) {
      GapStrands(r, s);
      UnstoppedIsKept(Apply(r, s));
    } else if Disciplined(r, s) {
      StepKeepsInv(r, s);
      forall more: seq<Step> | IsRun(Apply(r, s), more)
        ensures KeptStopped(After(Apply(r, s), more))
      {
        RunKeepsInv(Apply(r, s), more);
        InvIsKeptStopped(After(Apply(r, s), more));
      }
    } else {
      var b: nat :| b < |r.lm.batches| && r.lm.batches[b].AwaitStart?;
      LP.HookInFlightIsNewest(r.lm, b);
      ReachingManagerStops(r, s);
      HookReturnsLate(Apply(r, s), b);
    }
  }

  // ---------- what a gap between the guards' answers leaves behind ----------

  lemma ManagerKeepsUnstopped(m: L.Manager, s: L.Step)
    requires L.Inv(m) && LP.DisposedBy(m) && m.stopper.Absent? && L.Enabled(m, s) && !s.Shutdown?
    ensures L.Inv(L.Apply(m, s)) && LP.DisposedBy(L.Apply(m, s)) && L.Apply(m, s).stopper.Absent?
  {
    LP.StepKeepsInv(m, s);
    LP.StepKeepsDisposedBy(m, s);
    LifecycleKeepsStopper(m, s);
  }

  lemma StepKeepsStranded(r: Runtime, s: Step)
    requires Stranded(r) && Enabled(r, s)
    ensures Stranded(Apply(r, s)) && (r.frame.Kept? ==> Apply(r, s).frame == r.frame)
  {
    if s.Lifecycle? {
      ManagerKeepsUnstopped(r.lm, s.step);
    }
  }

  lemma {:induction false} RunKeepsStranded(r: Runtime, steps: seq<Step>)
    requires Stranded(r) && IsRun(r, steps)
    ensures Stranded(After(r, steps)) && (r.frame.Kept? ==> After(r, steps).frame == r.frame)
    decreases |steps|
  {
    if steps == [] {
    } else {
      StepKeepsStranded(r, steps[0]);
      RunKeepsStranded(Apply(r, steps[0]), steps[1..]);
    }
  }

  lemma StrandedStopsNothing(r: Runtime)
    requires Stranded(r)
    ensures Apply(r, CallShutdown) == r
    ensures !L.BatchFailed(r.lm) ==> L.Stops(r.lm.log) == [] && r.lm.startedIndex == |L.Starts(r.lm.log)|
  {
  }

  /**
   After such a gap no continuation ever stops the lifecycles: the manager's shutdown is never called, a
   further call of shutdown gets the promise already there and changes nothing, and unless a startup
   batch fails and rolls back every hook that has started is still running.
   */
  lemma GapNeverStops(steps: seq<Step>, s: Step, more: seq<Step>)
    requires IsRun(FRESH, steps) && Enabled(After(FRESH, steps), s) && GuardGap(After(FRESH, steps), s)
    requires IsRun(Apply(After(FRESH, steps), s), more)
    ensures var end := After(Apply(After(FRESH, steps), s), more);
            && end.boot.Disposed? && end.lm.stopper.Absent?
            && !end.frame.NoPromise? && Apply(end, CallShutdown) == end
            && (!L.BatchFailed(end.lm) ==>
                  L.Stops(end.lm.log) == [] && end.lm.startedIndex == |L.Starts(end.lm.log)|)
  {
    var r := After(FRESH, steps);
    ReachableInv(steps);
    GapStrands(r, s);
    RunKeepsStranded(Apply(r, s), more);
    StrandedStopsNothing(After(Apply(r, s), more));
  }

  // ---------- runs in which the promises fail ----------

  ghost predicate Reached(steps: seq<Step>, r: Runtime) {
    IsRun(FRESH, steps) && After(FRESH, steps) == r
  }

  lemma Advance(steps: seq<Step>, r: Runtime, s: Step) returns (more: seq<Step>)
    requires Reached(steps, r) && Enabled(r, s) && Disciplined(r, s)
    ensures more == steps + [s] && Reached(more, Apply(r, s))
  {
    Append(FRESH, steps, s);
    more := steps + [s];
  }

  const STARTED: seq<L.Event> := [L.StartCalled(0), L.StartReturned(0)]

  const STARTING := FRESH.(
    lm := L.Manager([L.Pending], 0, false, Some(0), Some(0), [L.AwaitStart(0)], L.Absent, [L.Waiting(0)], [L.StartCalled(0)]),
    boot := Starting, ready := AwaitStartup(0))

  const READY := FRESH.(
    lm := L.Manager([L.Pending], 1, false, None, None, [L.Closed(true)], L.Absent, [L.Returned], STARTED),
    boot := Ready, ready := Succeeded)

  /** A late hook has failed to start, and its batch waits for the first hook to stop again. */
  function RollingBack(when: When): Runtime {
    READY.(
      lm := L.Manager([L.Pending, L.Pending], 0, true, Some(1), Some(1), [L.Closed(true), L.AwaitRollback(0)],
                      L.Absent, [L.Returned, L.Waiting(1)], STARTED + [L.StartCalled(1), L.StopCalled(0)]),
      callbacks := [Callback(when, NotRun, 0)],
      before := if when.Before? then [0] else [],
      after := if when.AfterStop? then [0] else [])
  }

  lemma ReachesStarting() returns (steps: seq<Step>)
    ensures Reached(steps, STARTING)
  {
    var register := Lifecycle(L.Register);
    steps := Advance([], FRESH, register);
    steps := Advance(steps, Apply(FRESH, register), CallReady(None));
  }

  lemma ReachesReady() returns (steps: seq<Step>)
    ensures Reached(steps, READY)
  {
    var settle, close, resume :=
      Lifecycle(L.StartSettles(0, L.ReturnsNothing)), Lifecycle(L.FinallyRuns(0)), Lifecycle(L.Resume(0));
    steps := ReachesStarting();
    var settled := Apply(STARTING, settle);
    assert settled.lm == L.Manager([L.Pending], 1, false, Some(0), Some(0), [L.Drained(true)], L.Absent,
                                   [L.Waiting(0)], STARTED);
    steps := Advance(steps, STARTING, settle);
    steps := Advance(steps, settled, close);
    var resumed := Apply(Apply(settled, close), resume);
    assert resumed.lm == READY.lm;
    steps := Advance(steps, Apply(settled, close), resume);
    steps := Advance(steps, resumed, StartupReturns);
  }

  /** Such a gap is met in a run: the app is ready with a hook started, and a shutdown is let through once. */
  lemma ReachesGap() returns (steps: seq<Step>)
    ensures IsRun(FRESH, steps)
    ensures Enabled(After(FRESH, steps), ReadySettled(false, true)) && GuardGap(After(FRESH, steps), ReadySettled(false, true))
  {
    steps := ReachesReady();
    steps := Advance(steps, READY, CallShutdown);
    steps := Advance(steps, Apply(READY, CallShutdown), ShutdownRuns(false));
    steps := Advance(steps, READY.(frame := Invoking(Before, [], [], false)), CallbacksSettled(false, false));
  }

  /** A callback is registered, and a hook added while the app is ready is starting. */
  function LateHook(when: When): Runtime {
    RollingBack(when).(
      lm := L.Manager([L.Pending, L.Pending], 1, false, Some(1), Some(1), [L.Closed(true), L.AwaitStart(1)],
                      L.Absent, [L.Returned, L.Waiting(1)], STARTED + [L.StartCalled(1)]))
  }

  lemma ReachesLateHook(when: When) returns (steps: seq<Step>)
    ensures Reached(steps, LateHook(when))
  {
    var register := Lifecycle(L.Register);
    steps := ReachesReady();
    var withCallback := Apply(READY, RegisterShutdown(when));
    steps := Advance(steps, READY, RegisterShutdown(when));
    steps := Advance(steps, withCallback, register);
    steps := Advance(steps, Apply(withCallback, register), LazyGet);
  }

  lemma ReachesRollback(when: When) returns (steps: seq<Step>)
    ensures Reached(steps, RollingBack(when))
  {
    var fail := Lifecycle(L.StartSettles(1, L.Throws));
    steps := ReachesLateHook(when);
    assert Apply(LateHook(when), fail).lm == RollingBack(when).lm;
    steps := Advance(steps, LateHook(when), fail);
  }

  /**
   A hook stopped by a rollback is called while a before callback of a shutdown is still running: in
   `ShutdownOrder` the failed batch cannot be left out.
   */
  lemma RollbackStopsBeforeCallbacks() returns (steps: seq<Step>)
    ensures IsRun(FRESH, steps)
    ensures var r := After(FRESH, steps);
            && L.Stops(r.lm.log) == [0] && 0 in r.invoked && |r.callbacks| == 1
            && r.callbacks[0].when.Before? && r.callbacks[0].body.Running?
  {
    var r := RollingBack(Before);
    steps := ReachesRollback(Before);
    steps := Advance(steps, r, CallShutdown);
    steps := Advance(steps, Apply(r, CallShutdown), ShutdownRuns(false));
    var running := r.(frame := Invoking(Before, [0], [], false));
    steps := Advance(steps, running, InvokeNext);
    StopsOfRollback();
  }

  lemma StopsOfRollback()
    ensures L.Stops(RollingBack(Before).lm.log) == [0]
  {
    L.ObserveAppend(STARTED + [L.StartCalled(1)], L.StopCalled(0));
    L.ObserveAppend(STARTED, L.StartCalled(1));
    L.ObserveAppend([L.StartCalled(0)], L.StartReturned(0));
    L.ObserveAppend([], L.StartCalled(0));
    assert STARTED == [] + [L.StartCalled(0)] + [L.StartReturned(0)];
    assert RollingBack(Before).lm.log == STARTED + [L.StartCalled(1)] + [L.StopCalled(0)];
  }

  /** The shutdown has waited for the app's startup, and the rollback is still going on. */
  const ABOUT_TO_STOP := RollingBack(AfterStop).(frame := AwaitReady(false))

  lemma ReachesAboutToStop() returns (steps: seq<Step>)
    ensures Reached(steps, ABOUT_TO_STOP)
  {
    var r := RollingBack(AfterStop);
    steps := ReachesRollback(AfterStop);
    steps := Advance(steps, r, CallShutdown);
    steps := Advance(steps, Apply(r, CallShutdown), ShutdownRuns(false));
    steps := Advance(steps, r.(frame := Invoking(Before, [], [], false)), CallbacksSettled(false, false));
  }

  /** The manager, with its hooks stopped or stopping already, settles at once. */
  const OVERTAKEN := ABOUT_TO_STOP.(
    lm := RollingBack(AfterStop).lm.(lifecycles := [L.Released, L.Released], stopper := L.Stopped(false)),
    boot := Disposed, frame := AwaitLifecycle(false))

  /** The after callback runs. */
  const OVERLAPPING := OVERTAKEN.(
    callbacks := [Callback(AfterStop, Running, 1)], after := [], invoked := [0],
    frame := Invoking(AfterStop, [], [0], false))

  lemma Overtakes()
    ensures Apply(ABOUT_TO_STOP, ReadySettled(false, false)) == OVERTAKEN
  {
    assert Apply(ABOUT_TO_STOP, ReadySettled(false, false)).lm.lifecycles == [L.Released, L.Released];
  }

  lemma AfterCallbackBegins()
    ensures var stopped := Apply(OVERTAKEN, LifecycleStopped);
            Enabled(stopped, InvokeNext) && Apply(stopped, InvokeNext) == OVERLAPPING
  {
    var begun := Apply(Apply(OVERTAKEN, LifecycleStopped), InvokeNext);
    assert begun.callbacks == OVERLAPPING.callbacks && begun.after == [];
    assert begun.frame.rest == [] && begun.frame.awaited == [0] && begun.invoked == [0];
  }

  lemma ReachesOverlap() returns (steps: seq<Step>)
    ensures Reached(steps, OVERLAPPING)
  {
    steps := ReachesAboutToStop();
    steps := Advance(steps, ABOUT_TO_STOP, ReadySettled(false, false));
    Overtakes();
    steps := Advance(steps, OVERTAKEN, LifecycleStopped);
    AfterCallbackBegins();
    steps := Advance(steps, Apply(OVERTAKEN, LifecycleStopped), InvokeNext);
  }

  lemma CompletesOverlap(begun: seq<Step>) returns (steps: seq<Step>)
    requires Reached(begun, OVERLAPPING)
    ensures IsRun(FRESH, steps) && begun <= steps
    ensures After(FRESH, steps).frame.Kept? && After(FRESH, steps).lm == OVERLAPPING.lm
  {
    steps := Advance(begun, OVERLAPPING, BodySettles(0, false));
    var settled := Apply(OVERLAPPING, BodySettles(0, false));
    steps := Advance(steps, settled, CallbacksSettled(false, false));
    steps := Advance(steps, Apply(settled, CallbacksSettled(false, false)), FinallyRuns);
  }

  lemma UnquietIsHurried(steps: seq<Step>)
    requires IsRun(FRESH, steps) && !Quiet(After(FRESH, steps))
    ensures !Unhurried(FRESH, steps)
  {
    if Unhurried(FRESH, steps) { RunKeepsQuiet(FRESH, steps); }
  }

  /** A run to an after callback that is running, and a run that goes on to the end of shutdown, with a stop hook still executing. */
  ghost predicate OutlivedBy(begun: seq<Step>, complete: seq<Step>) {
    && IsRun(FRESH, begun) && IsRun(FRESH, complete) && begun <= complete && !Unhurried(FRESH, begun)
    && var r, end := After(FRESH, begun), After(FRESH, complete);
    && |r.callbacks| == 1 && r.callbacks[0].when.AfterStop? && r.callbacks[0].body.Running? && AfterBegun(r)
    && end.frame.Kept? && r.lm.batches == end.lm.batches && 1 < |r.lm.batches| && r.lm.batches[1] == L.AwaitRollback(0)
  }

  /**
   A shutdown that reaches the manager during a rollback does not wait for it: an after callback runs,
   and the shutdown completes, while the stop hook the rollback called is still executing.
   */
  lemma RollbackOutlivesShutdown()
    ensures exists begun: seq<Step>, complete: seq<Step> :: OutlivedBy(begun, complete)
  {
    var begun := ReachesOverlap();
    var complete := CompletesOverlap(begun);
    assert L.Busy(OVERLAPPING.lm.batches[1]);
    UnquietIsHurried(begun);
    assert OutlivedBy(begun, complete);
  }
}
