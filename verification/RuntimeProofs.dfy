/** What every disciplined run of the runtime's shutdown keeps. */
module RuntimeProofs {
  import opened Wrappers
  import Sequences
  import opened RuntimeProtocol
  import L = LifecycleProtocol
  import LP = LifecycleProofs

  lemma {:induction false} WithoutMembers(s: seq<nat>, k: nat)
    ensures forall x :: x in Without(s, k) <==> x in s && x != k
  {
    if s == [] {
    } else {
      WithoutMembers(s[1..], k);
      assert s == [s[0]] + s[1..];
    }
  }

  /** A callback is in its set exactly until its body has run, and no body runs twice. */
  ghost predicate CallbackOk(cb: Callback, k: nat, before: seq<nat>, after: seq<nat>) {
    && cb.runs <= 1
    && (cb.runs == 0 <==> cb.body.NotRun?)
    && (cb.runs == 0 <==> if cb.when.Before? then k in before else k in after)
  }

  ghost predicate AllOf(callbacks: seq<Callback>, ks: seq<nat>, when: When) {
    forall k :: k in ks ==> k < |callbacks| && callbacks[k].when == when
  }

  ghost predicate CallbacksOk(callbacks: seq<Callback>, before: seq<nat>, after: seq<nat>) {
    && (forall k: nat :: k < |callbacks| ==> CallbackOk(callbacks[k], k, before, after))
    && AllOf(callbacks, before, Before) && AllOf(callbacks, after, AfterStop)
  }

  /** Callbacks a shutdown ran are settled, except those the current phase still waits for. */
  ghost predicate InvokedOk(callbacks: seq<Callback>, invoked: seq<nat>, awaited: seq<nat>) {
    forall k :: k in invoked ==> k < |callbacks| && callbacks[k].runs == 1 && (callbacks[k].body.Finished? || k in awaited)
  }

  function Awaited(f: Frame): seq<nat> {
    if f.Invoking? then f.awaited else []
  }

  /** No callback of the after phase has been run by a shutdown. */
  ghost predicate OnlyBefore(callbacks: seq<Callback>, invoked: seq<nat>) {
    forall k :: k in invoked ==> k < |callbacks| && callbacks[k].when.Before?
  }

  /** The callbacks a phase waits for were run in that phase. */
  ghost predicate AwaitedOk(callbacks: seq<Callback>, f: Frame, invoked: seq<nat>) {
    f.Invoking? ==> AllOf(callbacks, f.awaited, f.when) && forall k :: k in f.awaited ==> k in invoked
  }

  ghost predicate FrameOk(r: Runtime) {
    match r.frame
    case NoPromise => !r.boot.Disposed?
    case Queued => !r.boot.Disposed?
    case Invoking(when, rest, _, _) =>
      && (forall k :: k in Registered(r, when) ==> k in rest)
      && AllOf(r.callbacks, rest, when)
      && (when.Before? ==> !r.boot.Disposed?)
      && (when.AfterStop? ==> r.boot.Disposed? && r.lm.stopper.Stopped? && r.before == [])
    case AwaitReady(_) => !r.boot.Disposed? && r.before == [] && !r.ready.NotAsked?
    case AwaitLifecycle(_) => r.boot.Disposed? && r.before == []
    case Finishing(_) => r.boot.Disposed? ==> r.lm.stopper.Stopped? && r.before == [] && r.after == []
    case Kept(_) =>
      r.boot.Disposed? && r.lm.stopper.Stopped? && r.before == [] && r.after == [] && r.registry.Closed?
  }

  ghost predicate Inv(r: Runtime) {
    && L.Inv(r.lm) && LP.DisposedBy(r.lm)
    && (r.boot.Disposed? <==> !r.lm.stopper.Absent?)
    && CallbacksOk(r.callbacks, r.before, r.after)
    && InvokedOk(r.callbacks, r.invoked, Awaited(r.frame))
    && AwaitedOk(r.callbacks, r.frame, r.invoked)
    && FrameOk(r)
    && (OnlyBefore(r.callbacks, r.invoked) || (r.boot.Disposed? && r.lm.stopper.Stopped?))
    && (r.ready.AwaitStartup? ==> r.ready.caller < |r.lm.callers|)
  }

  // ---------- each step keeps the invariant ----------

  lemma LifecycleKeepsStopper(m: L.Manager, s: L.Step)
    requires L.Enabled(m, s) && !s.Shutdown?
    ensures L.Apply(m, s).stopper.Absent? <==> m.stopper.Absent?
    ensures m.stopper.Stopped? ==> L.Apply(m, s).stopper.Stopped?
    ensures |L.Apply(m, s).callers| >= |m.callers|
  {
  }

  lemma LifecycleKeepsInv(r: Runtime, s: L.Step)
    requires Inv(r) && Enabled(r, Lifecycle(s))
    ensures Inv(Apply(r, Lifecycle(s)))
  {
    LP.StepKeepsInv(r.lm, s);
    LP.StepKeepsDisposedBy(r.lm, s);
    LifecycleKeepsStopper(r.lm, s);
  }

  lemma StartupCallKeepsInv(r: Runtime, context: Option<nat>)
    requires Inv(r)
    ensures Inv(r.(lm := L.StartupPending(r.lm, context)))
    ensures L.StartupPending(r.lm, context).stopper == r.lm.stopper
    ensures |L.StartupPending(r.lm, context).callers| == |r.lm.callers| + 1
  {
    LP.CallKeepsInv(r.lm, context);
    LP.StepKeepsDisposedBy(r.lm, L.Call(context));
  }

  lemma InvokeKeepsCallbacks(r: Runtime, k: nat)
    requires CallbacksOk(r.callbacks, r.before, r.after) && k < |r.callbacks|
    ensures var r' := Invoke(r, k);
            && CallbacksOk(r'.callbacks, r'.before, r'.after)
            && |r'.callbacks| == |r.callbacks|
            && (forall x: nat :: x < |r.callbacks| && x != k ==> r'.callbacks[x] == r.callbacks[x])
            && r'.callbacks[k].when == r.callbacks[k].when && r'.callbacks[k].runs == 1
            && (r.callbacks[k].runs == 1 ==> r'.callbacks[k] == r.callbacks[k])
            && (forall x :: x in r'.before <==> x in r.before && x != k)
            && (forall x :: x in r'.after <==> x in r.after && x != k)
    ensures r == Invoke(r, k).(callbacks := r.callbacks, before := r.before, after := r.after)
  {
    WithoutMembers(r.before, k);
    WithoutMembers(r.after, k);
    assert CallbackOk(r.callbacks[k], k, r.before, r.after);
    var r' := Invoke(r, k);
    forall x: nat | x < |r'.callbacks|
      ensures CallbackOk(r'.callbacks[x], x, r'.before, r'.after)
    {
      assert CallbackOk(r.callbacks[x], x, r.before, r.after);
    }
  }

  lemma InvokeKeepsRecords(r: Runtime, k: nat)
    requires Inv(r) && k < |r.callbacks|
    ensures var r' := Invoke(r, k);
            && InvokedOk(r'.callbacks, r'.invoked, Awaited(r'.frame)) && AwaitedOk(r'.callbacks, r'.frame, r'.invoked)
            && (OnlyBefore(r.callbacks, r.invoked) ==> OnlyBefore(r'.callbacks, r'.invoked))
  {
    InvokeKeepsCallbacks(r, k);
  }

  lemma InvokeKeepsPhase(r: Runtime, k: nat)
    requires Inv(r) && k < |r.callbacks|
    ensures FrameOk(Invoke(r, k))
  {
    InvokeKeepsCallbacks(r, k);
    Sequences.EmptyOrMember(Invoke(r, k).before);
    Sequences.EmptyOrMember(Invoke(r, k).after);
  }

  lemma InvokeKeepsFrame(r: Runtime, k: nat)
    requires Inv(r) && k < |r.callbacks|
    ensures Inv(Invoke(r, k))
  {
    InvokeKeepsCallbacks(r, k);
    InvokeKeepsRecords(r, k);
    InvokeKeepsPhase(r, k);
  }

  /** Moves the phase past a callback that is no longer in its set. */
  lemma RecordKeepsInv(r: Runtime, runs: seq<nat>)
    requires Inv(r) && r.frame.Invoking? && r.frame.rest != []
    requires var k := r.frame.rest[0];
             && (runs == [] || runs == [k])
             && k < |r.callbacks| && r.callbacks[k].runs == 1 && k !in r.before && k !in r.after
    ensures Inv(r.(frame := r.frame.(rest := r.frame.rest[1..], awaited := r.frame.awaited + runs),
                   invoked := r.invoked + runs))
  {
    var f := r.frame;
    PhaseAdvances(r, f.when, f.rest);
    forall k | k in f.awaited + runs
      ensures k < |r.callbacks| && r.callbacks[k].when == f.when && k in r.invoked + runs
    {
      assert k in f.awaited || k == f.rest[0];
    }
  }

  lemma PhaseAdvances(r: Runtime, when: When, rest: seq<nat>)
    requires rest != [] && AllOf(r.callbacks, rest, when) && forall k :: k in Registered(r, when) ==> k in rest
    requires rest[0] !in r.before && rest[0] !in r.after
    ensures AllOf(r.callbacks, rest[1..], when) && forall k :: k in Registered(r, when) ==> k in rest[1..]
    ensures rest[0] < |r.callbacks| && r.callbacks[rest[0]].when == when
  {
    assert rest == [rest[0]] + rest[1..];
    assert rest[0] in rest;
    forall k | k in rest[1..] ensures k < |r.callbacks| && r.callbacks[k].when == when { assert k in rest; }
  }

  lemma InvokeNextKeepsInv(r: Runtime)
    requires Inv(r) && Enabled(r, InvokeNext)
    ensures Inv(Apply(r, InvokeNext))
  {
    var k := r.frame.rest[0];
    var runs := if k in Registered(r, r.callbacks[k].when) then [k] else [];
    InvokeKeepsFrame(r, k);
    InvokeKeepsCallbacks(r, k);
    RecordKeepsInv(Invoke(r, k), runs);
  }

  lemma RegisterKeepsInv(r: Runtime, when: When)
    requires Inv(r)
    ensures Inv(Apply(r, RegisterShutdown(when)))
  {
    var r' := Apply(r, RegisterShutdown(when));
    if r' != r {
      forall k: nat | k < |r'.callbacks|
        ensures CallbackOk(r'.callbacks[k], k, r'.before, r'.after)
      {
        if k < |r.callbacks| { assert CallbackOk(r.callbacks[k], k, r.before, r.after); }
      }
    }
  }

  lemma BodySettlesKeepsInv(r: Runtime, k: nat, throws: bool)
    requires Inv(r) && Enabled(r, BodySettles(k, throws))
    ensures Inv(Apply(r, BodySettles(k, throws)))
  {
    var r' := Apply(r, BodySettles(k, throws));
    forall x: nat | x < |r'.callbacks|
      ensures CallbackOk(r'.callbacks[x], x, r'.before, r'.after)
    {
      assert CallbackOk(r.callbacks[x], x, r.before, r.after);
    }
  }

  lemma StopBootKeepsInv(r: Runtime, refuses: bool, refusesAgain: bool, failed: bool)
    requires L.Inv(r.lm) && LP.DisposedBy(r.lm) && CallbacksOk(r.callbacks, r.before, r.after)
    requires !r.boot.Disposed? && r.lm.stopper.Absent? && r.before == []
    requires InvokedOk(r.callbacks, r.invoked, []) && OnlyBefore(r.callbacks, r.invoked)
    requires r.ready.AwaitStartup? ==> r.ready.caller < |r.lm.callers|
    requires GuardsRefuse(r.lm, refuses) || (!GuardsRefuse(r.lm, refusesAgain) && !L.HookInFlight(r.lm))
    ensures Inv(StopBoot(r, refuses, refusesAgain, failed))
  {
    if !GuardsRefuse(r.lm, refuses) {
      LP.ShutdownKeepsInv(r.lm, refusesAgain);
      LP.StepKeepsDisposedBy(r.lm, L.Shutdown(refusesAgain));
    }
  }

  lemma AfterBootKeepsInv(r: Runtime, failed: bool)
    requires Inv(r) && r.frame.AwaitLifecycle? && r.lm.stopper.Stopped?
    ensures Inv(AfterBoot(r, failed))
  {
  }

  lemma CallbacksSettledKeepsInv(r: Runtime, refuses: bool, refusesAgain: bool)
    requires Inv(r) && Enabled(r, CallbacksSettled(refuses, refusesAgain))
    requires Disciplined(r, CallbacksSettled(refuses, refusesAgain))
    ensures Inv(Apply(r, CallbacksSettled(refuses, refusesAgain)))
  {
    Sequences.EmptyOrMember(Registered(r, r.frame.when));
    var failed := r.frame.failed || AnyThrew(r, r.frame.awaited);
    if r.frame.when.Before? && r.ready.NotAsked? {
      StopBootKeepsInv(r, refuses, refusesAgain, failed);
    }
  }

  lemma QuietStepKeepsInv(r: Runtime, s: Step)
    requires Inv(r) && Enabled(r, s)
    requires s.StartupReturns? || s.CallShutdown? || s.ShutdownRuns? || s.FinallyRuns?
    ensures Inv(Apply(r, s))
  {
  }

  lemma StepKeepsInv(r: Runtime, s: Step)
    requires Inv(r) && Enabled(r, s) && Disciplined(r, s)
    ensures Inv(Apply(r, s))
  {
    match s
    case Lifecycle(l) => LifecycleKeepsInv(r, l);
    case LazyGet => StartupCallKeepsInv(r, None);
    case CallReady(context) => StartupCallKeepsInv(r, context);
    case StartupReturns => QuietStepKeepsInv(r, s);
    case RegisterShutdown(when) => RegisterKeepsInv(r, when);
    case CallHandle(k) => InvokeKeepsFrame(r, k);
    case BodySettles(k, throws) => BodySettlesKeepsInv(r, k, throws);
    case CallShutdown => QuietStepKeepsInv(r, s);
    case ShutdownRuns(_) => QuietStepKeepsInv(r, s);
    case InvokeNext => InvokeNextKeepsInv(r);
    case CallbacksSettled(refuses, again) => CallbacksSettledKeepsInv(r, refuses, again);
    case ReadySettled(refuses, again) => StopBootKeepsInv(r, refuses, again, r.frame.failed);
    case LifecycleStopped => AfterBootKeepsInv(r, r.frame.failed || r.lm.stopper.failed);
    case FinallyRuns => QuietStepKeepsInv(r, s);
  }

  lemma {:induction false} RunKeepsInv(r: Runtime, steps: seq<Step>)
    requires Inv(r) && IsRun(r, steps)
    ensures Inv(After(r, steps))
    decreases |steps|
  {
    if steps == [] {
    } else {
      StepKeepsInv(r, steps[0]);
      RunKeepsInv(Apply(r, steps[0]), steps[1..]);
    }
  }

  lemma ReachableInv(steps: seq<Step>)
    requires IsRun(FRESH, steps)
    ensures Inv(After(FRESH, steps))
  {
    RunKeepsInv(FRESH, steps);
  }

  // ---------- runs in which no shutdown overtakes a rollback ----------

  /** Once shutdown has reached the manager, no startup batch waits for a hook. */
  ghost predicate Quiet(r: Runtime) {
    r.lm.stopper.Absent? || !L.BatchBusy(r.lm)
  }

  lemma ManagerStepKeepsQuiet(m: L.Manager, s: L.Step)
    requires L.Enabled(m, s) && (m.stopper.Absent? || (m.disposed && !L.BatchBusy(m)))
    requires s.Shutdown? ==> !L.BatchBusy(m)
    ensures L.Apply(m, s).stopper.Absent? || !L.BatchBusy(L.Apply(m, s))
  {
    if s.Shutdown? {
      assert L.Apply(m, s).batches == m.batches;
    } else if !m.stopper.Absent? {
      LP.QuietStays(m, s);
    }
  }

  lemma StepKeepsQuiet(r: Runtime, s: Step)
    requires Inv(r) && Quiet(r) && Enabled(r, s) && (PassesGuards(r, s) ==> !L.BatchBusy(r.lm))
    ensures Quiet(Apply(r, s))
  {
    match s
    case Lifecycle(l) => ManagerStepKeepsQuiet(r.lm, l);
    case LazyGet => ManagerStepKeepsQuiet(r.lm, L.Call(None));
    case CallReady(context) => ManagerStepKeepsQuiet(r.lm, L.Call(context));
    case CallbacksSettled(refuses, again) =>
      if PassesGuards(r, s) { ManagerStepKeepsQuiet(r.lm, L.Shutdown(again)); }
    case ReadySettled(refuses, again) =>
      if PassesGuards(r, s) { ManagerStepKeepsQuiet(r.lm, L.Shutdown(again)); }
    case _ =>
  }

  lemma {:induction false} RunKeepsQuiet(r: Runtime, steps: seq<Step>)
    requires Inv(r) && Quiet(r) && IsRun(r, steps) && Unhurried(r, steps)
    ensures Quiet(After(r, steps))
    decreases |steps|
  {
    if steps == [] {
    } else {
      StepKeepsInv(r, steps[0]);
      StepKeepsQuiet(r, steps[0]);
      RunKeepsQuiet(Apply(r, steps[0]), steps[1..]);
    }
  }

  // ---------- every disciplined run ----------

  /** A shutdown has run the body of an after callback. */
  predicate AfterBegun(r: Runtime) {
    exists k :: k in r.invoked && k < |r.callbacks| && r.callbacks[k].when.AfterStop?
  }

  /**
   No body runs twice.  Once shutdown has called the manager, every before callback it ran has settled;
   so it has before any hook is stopped at all, unless a startup batch failed and rolled back.  An
   after callback runs only once the runtime is disposed and the stopping has settled; when shutdown is
   complete every registered callback has run exactly once and no hook is left started.  If no shutdown
   overtakes a rollback, by then none is starting or stopping either.
   */
  lemma ShutdownOrder(steps: seq<Step>)
    requires IsRun(FRESH, steps)
    ensures var r := After(FRESH, steps);
            && (forall k: nat :: k < |r.callbacks| ==> r.callbacks[k].runs <= 1)
            && (forall k :: k in r.invoked ==> k < |r.callbacks| && r.callbacks[k].runs == 1)
            && (!r.lm.stopper.Absent? || (L.Stops(r.lm.log) != [] && !L.BatchFailed(r.lm)) ==>
                  forall k :: k in r.invoked && r.callbacks[k].when.Before? ==> r.callbacks[k].body.Finished?)
            && (AfterBegun(r) ==> r.boot.Disposed? && r.lm.stopper.Stopped?)
            && (r.frame.Kept? ==>
                  && r.boot.Disposed? && r.registry.Closed? && r.lm.disposed
                  && r.lm.stopper.Stopped? && r.lm.startedIndex == 0
                  && (forall k: nat :: k < |r.callbacks| ==> r.callbacks[k].runs == 1)
                  && (forall k :: k in r.invoked ==> r.callbacks[k].body.Finished?))
            && (Unhurried(FRESH, steps) && (AfterBegun(r) || r.frame.Kept?) ==> !L.BatchBusy(r.lm))
  {
    ReachableInv(steps);
    var r := After(FRESH, steps);
    CallbacksRunOnce(r);
    if !r.lm.stopper.Absent? || (L.Stops(r.lm.log) != [] && !L.BatchFailed(r.lm)) { BeforeCallbacksSettle(r); }
    if Unhurried(FRESH, steps) { RunKeepsQuiet(FRESH, steps); }
  }

  lemma CallbacksRunOnce(r: Runtime)
    requires Inv(r)
    ensures forall k: nat :: k < |r.callbacks| ==> r.callbacks[k].runs <= 1 && (r.frame.Kept? ==> r.callbacks[k].runs == 1)
  {
    forall k: nat | k < |r.callbacks|
      ensures r.callbacks[k].runs <= 1 && (r.frame.Kept? ==> r.callbacks[k].runs == 1)
    {
      assert CallbackOk(r.callbacks[k], k, r.before, r.after);
    }
  }

  /** Once a hook has been stopped, other than by a failed batch, or the manager asked to, no before callback is running. */
  lemma BeforeCallbacksSettle(r: Runtime)
    requires Inv(r) && (!r.lm.stopper.Absent? || (L.Stops(r.lm.log) != [] && !L.BatchFailed(r.lm)))
    ensures forall k :: k in r.invoked && r.callbacks[k].when.Before? ==> r.callbacks[k].body.Finished?
  {
    assert !r.lm.disposed ==> L.Stops(r.lm.log) == [];
  }

  predicate Refuses(s: Step) {
    (s.ShutdownRuns? || s.CallbacksSettled? || s.ReadySettled?) && s.refuses
  }

  /** Throwing bodies and hooks never cut a shutdown short: unless a guard refuses, it ends disposed. */
  lemma {:induction false} FailuresSkipNothing(r: Runtime, steps: seq<Step>)
    requires Inv(r) && (r.frame.Finishing? ==> r.boot.Disposed?)
    requires IsRun(r, steps) && forall s :: s in steps ==> !Refuses(s)
    ensures After(r, steps).frame.Finishing? ==> After(r, steps).boot.Disposed?
    decreases |steps|
  {
    if steps == [] {
    } else {
      assert steps[0] in steps;
      StepKeepsInv(r, steps[0]);
      FailuresSkipNothing(Apply(r, steps[0]), steps[1..]);
    }
  }

  // ---------- every shutdown settles ----------

  predicate Owed(s: Step) {
    || (s.Lifecycle? && LP.Owed(s.step))
    || s.StartupReturns? || s.BodySettles? || s.ShutdownRuns? || s.InvokeNext?
    || s.CallbacksSettled? || s.ReadySettled? || s.LifecycleStopped? || s.FinallyRuns?
  }

  predicate Quiescent(r: Runtime) {
    && LP.Quiescent(r.lm)
    && !r.ready.AwaitStartup?
    && (forall k: nat :: k < |r.callbacks| ==> !r.callbacks[k].body.Running?)
    && (r.frame.NoPromise? || r.frame.Kept?)
  }

  lemma NoDeadlock(r: Runtime) returns (s: Step)
    requires Inv(r) && !Quiescent(r)
    ensures Owed(s) && Enabled(r, s) && Disciplined(r, s)
    ensures !Refuses(s) && (s.CallbacksSettled? || s.ReadySettled? ==> !s.refusesAgain)
  {
    if !LP.Quiescent(r.lm) {
      var l := LP.NoDeadlock(r.lm);
      return Lifecycle(l);
    }
    if r.ready.AwaitStartup? { return StartupReturns; }
    if k: nat :| k < |r.callbacks| && r.callbacks[k].body.Running? { return BodySettles(k, false); }
    match r.frame {
      case Queued => s := ShutdownRuns(false);
      case Invoking(_, rest, awaited, _) =>
        forall k | k in awaited
          ensures k < |r.callbacks| && r.callbacks[k].body.Finished?
        {
          assert CallbackOk(r.callbacks[k], k, r.before, r.after);
        }
        if rest != [] { assert rest[0] in rest; }
        s := if rest != [] then InvokeNext else CallbacksSettled(false, false);
      case AwaitReady(_) => s := ReadySettled(false, false);
      case AwaitLifecycle(_) => s := LifecycleStopped;
      case Finishing(_) => s := FinallyRuns;
    }
  }

  // The measure: the shutdown phase, callbacks still to invoke, bodies and startup still to settle, the manager's own.

  function PhaseRank(f: Frame): nat {
    match f
    case NoPromise => 0
    case Queued => 7
    case Invoking(when, _, _, _) => if when.Before? then 6 else 3
    case AwaitReady(_) => 5
    case AwaitLifecycle(_) => 4
    case Finishing(_) => 2
    case Kept(_) => 0
  }

  function ToInvoke(f: Frame): nat {
    if f.Invoking? then |f.rest| else 0
  }

  function RunningBodies(callbacks: seq<Callback>): nat {
    if callbacks == [] then 0
    else RunningBodies(callbacks[1..]) + if callbacks[0].body.Running? then 1 else 0
  }

  function ToSettle(r: Runtime): nat {
    RunningBodies(r.callbacks) + if r.ready.AwaitStartup? then 1 else 0
  }

  lemma {:induction false} SettlingABody(callbacks: seq<Callback>, k: nat, cb: Callback)
    requires k < |callbacks| && callbacks[k].body.Running? && !cb.body.Running?
    ensures RunningBodies(callbacks[k := cb]) + 1 == RunningBodies(callbacks)
  {
    if k == 0 {
      assert callbacks[0 := cb][1..] == callbacks[1..];
    } else {
      assert callbacks[k := cb][1..] == callbacks[1..][k - 1 := cb];
      SettlingABody(callbacks[1..], k - 1, cb);
    }
  }

  ghost predicate Closer(r': Runtime, r: Runtime) {
    || PhaseRank(r'.frame) < PhaseRank(r.frame)
    || (PhaseRank(r'.frame) == PhaseRank(r.frame) &&
        (|| ToInvoke(r'.frame) < ToInvoke(r.frame)
         || (ToInvoke(r'.frame) == ToInvoke(r.frame) &&
             (ToSettle(r') < ToSettle(r) || (ToSettle(r') == ToSettle(r) && LP.Closer(r'.lm, r.lm))))))
  }

  lemma StopBootMovesOn(r: Runtime, refuses: bool, refusesAgain: bool, failed: bool)
    ensures PhaseRank(StopBoot(r, refuses, refusesAgain, failed).frame) <= 4
  {
  }

  lemma NextPhaseIsCloser(r: Runtime, s: Step)
    requires Enabled(r, s)
    requires s.ShutdownRuns? || s.CallbacksSettled? || s.ReadySettled? || s.LifecycleStopped? || s.FinallyRuns?
    ensures PhaseRank(Apply(r, s).frame) < PhaseRank(r.frame)
  {
    match s
    case CallbacksSettled(refuses, again) =>
      StopBootMovesOn(r, refuses, again, r.frame.failed || AnyThrew(r, r.frame.awaited));
    case ReadySettled(refuses, again) => StopBootMovesOn(r, refuses, again, r.frame.failed);
    case _ =>
  }

  lemma OwedStepIsCloser(r: Runtime, s: Step)
    requires Inv(r) && Owed(s) && Enabled(r, s)
    ensures Closer(Apply(r, s), r)
  {
    if s.Lifecycle? {
      LP.OwedStepIsCloser(r.lm, s.step);
    } else if s.BodySettles? {
      SettlingABody(r.callbacks, s.callback, Apply(r, s).callbacks[s.callback]);
    } else if !s.StartupReturns? && !s.InvokeNext? {
      NextPhaseIsCloser(r, s);
    }
  }

  /** Any way of choosing the next owed step, guards' answers included. */
  ghost predicate Scheduler(pick: Runtime -> Step) {
    forall r: Runtime {:trigger pick(r)} ::
      Inv(r) && !Quiescent(r) ==> Owed(pick(r)) && Enabled(r, pick(r)) && Disciplined(r, pick(r))
  }

  /** Whatever order the owed steps are taken in, every shutdown settles: refused, or complete. */
  ghost function Scheduled(r: Runtime, pick: Runtime -> Step): (end: Runtime)
    requires Inv(r) && Scheduler(pick)
    ensures Inv(end) && (end.frame.NoPromise? || end.frame.Kept?)
    decreases PhaseRank(r.frame), ToInvoke(r.frame), ToSettle(r), LP.HooksToCall(r.lm), LP.HooksToStop(r.lm),
              LP.FramesToSettle(r.lm), LP.LooksToTake(r.lm.callers, |r.lm.batches|)
  {
    if Quiescent(r) then r
    else
      StepKeepsInv(r, pick(r));
      OwedStepIsCloser(r, pick(r));
      Scheduled(Apply(r, pick(r)), pick)
  }
}
