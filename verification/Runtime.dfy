/**
 Shutdown of a running app: RuntimeShutdownService over AppBootstrap over the lifecycle manager
 (packages/core/src/app/runtime-shutdown.service.ts, runtime-shutdown.lib.ts, app-bootstrap.lib.ts).

 As in the lifecycle protocol a step is the code between two awaits.  Callback bodies, hooks and
 shutdown guards settle or answer as they please; a guard is asked twice in one stretch of code, so
 each such step carries both answers.
 */
module RuntimeProtocol {
  import opened Wrappers
  import L = LifecycleProtocol

  datatype BootState = Idle | Starting | Ready | Disposed

  /** The one run of doReady. */
  datatype ReadyFrame = NotAsked | AwaitStartup(caller: nat) | Succeeded | Failed

  datatype When = Before | AfterStop

  datatype Body = NotRun | Running | Finished(threw: bool)

  datatype Callback = Callback(when: When, body: Body, runs: nat)

  /** Where runShutdown is suspended; `Kept` is the promise that stays once the runtime is disposed. */
  datatype Frame =
    | NoPromise
    | Queued
    | Invoking(when: When, rest: seq<nat>, awaited: seq<nat>, failed: bool)
    | AwaitReady(failed: bool)
    | AwaitLifecycle(failed: bool)
    | Finishing(failed: bool)
    | Kept(failed: bool)

  datatype RegistryState = Unready | Active | Closed

  /** `invoked` lists, for an observer, the callbacks whose bodies a shutdown has run. */
  datatype Runtime = Runtime(
    lm: L.Manager,
    boot: BootState,
    ready: ReadyFrame,
    registry: RegistryState,
    callbacks: seq<Callback>,
    before: seq<nat>,
    after: seq<nat>,
    frame: Frame,
    invoked: seq<nat>)

  const FRESH := Runtime(L.INITIAL, Idle, NotAsked, Unready, [], [], [], NoPromise, [])

  datatype Step =
    | Lifecycle(step: L.Step)
    | LazyGet
    | CallReady(context: Option<nat>)
    | StartupReturns
    | RegisterShutdown(when: When)
    | CallHandle(callback: nat)
    | BodySettles(callback: nat, throws: bool)
    | CallShutdown
    | ShutdownRuns(refuses: bool)
    | InvokeNext
    | CallbacksSettled(refuses: bool, refusesAgain: bool)
    | ReadySettled(refuses: bool, refusesAgain: bool)
    | LifecycleStopped
    | FinallyRuns

  function Without(s: seq<nat>, k: nat): seq<nat> {
    if s == [] then [] else (if s[0] == k then [] else [s[0]]) + Without(s[1..], k)
  }

  function Registered(r: Runtime, when: When): seq<nat> {
    if when.Before? then r.before else r.after
  }

  /** A registered handle: the first call takes it out of its set and runs the body, later calls do nothing. */
  function Invoke(r: Runtime, k: nat): Runtime
    requires k < |r.callbacks|
  {
    var cb := r.callbacks[k];
    if k !in Registered(r, cb.when) then r
    else
      var ran := r.(callbacks := r.callbacks[k := cb.(body := Running, runs := cb.runs + 1)]);
      if cb.when.Before? then ran.(before := Without(r.before, k)) else ran.(after := Without(r.after, k))
  }

  predicate AllFinished(r: Runtime, ks: seq<nat>) {
    forall k :: k in ks ==> k < |r.callbacks| && r.callbacks[k].body.Finished?
  }

  predicate AnyThrew(r: Runtime, ks: seq<nat>) {
    exists k :: k in ks && k < |r.callbacks| && r.callbacks[k].body == Finished(true)
  }

  predicate GuardsRefuse(lm: L.Manager, refuses: bool) {
    !lm.disposed && lm.startedIndex > 0 && refuses
  }

  /** The tail of runShutdown, after the call of AppBootstrap.shutdown settled. */
  function AfterBoot(r: Runtime, failed: bool): Runtime {
    if r.boot.Disposed? then r.(frame := Invoking(AfterStop, r.after, [], failed)) else r.(frame := Finishing(failed))
  }

  /** AppBootstrap.shutdown from its guard check to its await. */
  function StopBoot(r: Runtime, refuses: bool, refusesAgain: bool, failed: bool): Runtime {
    if GuardsRefuse(r.lm, refuses) then AfterBoot(r, true)
    else
      var disposed := r.(boot := Disposed);
      if r.lm.stopper.Absent? && GuardsRefuse(r.lm, refusesAgain) then AfterBoot(disposed, true)
      else disposed.(lm := L.Apply(r.lm, L.Shutdown(refusesAgain)), frame := AwaitLifecycle(failed))
  }

  function ShutdownBoot(r: Runtime, refuses: bool, refusesAgain: bool, failed: bool): Runtime {
    if r.boot.Disposed? then AfterBoot(r, failed)
    else if !r.ready.NotAsked? then r.(frame := AwaitReady(failed))
    else StopBoot(r, refuses, refusesAgain, failed)
  }

  function Startup(r: Runtime, context: Option<nat>): Runtime {
    r.(boot := Starting, lm := L.StartupPending(r.lm, context), ready := AwaitStartup(|r.lm.callers|))
  }

  predicate HookCall(lm: L.Manager, s: L.Step) {
    s.Call? && lm.activeStartup.Some? && s.context == lm.activeStartup
  }

  predicate Enabled(r: Runtime, s: Step) {
    match s
    case Lifecycle(l) =>
      !l.Shutdown? && (l.Call? ==> HookCall(r.lm, l)) && L.Enabled(r.lm, l)
    case LazyGet => r.boot.Ready?
    case StartupReturns =>
      r.ready.AwaitStartup? && r.ready.caller < |r.lm.callers| && !r.lm.callers[r.ready.caller].Waiting?
    case CallHandle(k) => k < |r.callbacks|
    case BodySettles(k, _) => k < |r.callbacks| && r.callbacks[k].body.Running?
    case ShutdownRuns(_) => r.frame.Queued?
    case InvokeNext => r.frame.Invoking? && r.frame.rest != [] && r.frame.rest[0] < |r.callbacks|
    case CallbacksSettled(_, _) => r.frame.Invoking? && r.frame.rest == [] && AllFinished(r, r.frame.awaited)
    case ReadySettled(_, _) => r.frame.AwaitReady? && (r.ready.Succeeded? || r.ready.Failed?)
    case LifecycleStopped => r.frame.AwaitLifecycle? && r.lm.stopper.Stopped?
    case FinallyRuns => r.frame.Finishing?
    case _ => true
  }

  function Apply(r: Runtime, s: Step): Runtime
    requires Enabled(r, s)
  {
    match s
    case Lifecycle(l) => r.(lm := L.Apply(r.lm, l))
    case LazyGet => r.(lm := L.StartupPending(r.lm, None))
    case CallReady(context) =>
      if r.boot.Disposed? || !r.ready.NotAsked? then r else Startup(r, context)
    case StartupReturns =>
      if r.lm.callers[r.ready.caller].Rejected? || r.boot.Disposed? then r.(ready := Failed)
      else r.(ready := Succeeded, boot := Ready)
    case RegisterShutdown(when) =>
      if r.boot.Disposed? || !r.frame.NoPromise? then r
      else
        var k := |r.callbacks|;
        var added := r.(callbacks := r.callbacks + [Callback(when, NotRun, 0)]);
        if when.Before? then added.(before := r.before + [k]) else added.(after := r.after + [k])
    case CallHandle(k) => Invoke(r, k)
    case BodySettles(k, throws) =>
      r.(callbacks := r.callbacks[k := r.callbacks[k].(body := Finished(throws))])
    case CallShutdown => if r.frame.NoPromise? then r.(frame := Queued) else r
    case ShutdownRuns(refuses) =>
      if GuardsRefuse(r.lm, refuses) then r.(frame := Finishing(true))
      else r.(frame := Invoking(Before, r.before, [], false))
    case InvokeNext =>
      var k := r.frame.rest[0];
      var runs := if k in Registered(r, r.callbacks[k].when) then [k] else [];
      Invoke(r, k).(frame := r.frame.(rest := r.frame.rest[1..], awaited := r.frame.awaited + runs),
                    invoked := r.invoked + runs)
    case CallbacksSettled(refuses, refusesAgain) =>
      var failed := r.frame.failed || AnyThrew(r, r.frame.awaited);
      if r.frame.when.Before? then ShutdownBoot(r, refuses, refusesAgain, failed) else r.(frame := Finishing(failed))
    case ReadySettled(refuses, refusesAgain) => StopBoot(r, refuses, refusesAgain, r.frame.failed)
    case LifecycleStopped => AfterBoot(r, r.frame.failed || r.lm.stopper.failed)
    case FinallyRuns =>
      if r.boot.Disposed? then r.(registry := Closed, frame := Kept(r.frame.failed)) else r.(frame := NoPromise)
  }

  /** Shutdown reaches the lifecycle manager with this step. */
  predicate StopsLifecycles(r: Runtime, s: Step) {
    || (s.CallbacksSettled? && r.frame.Invoking? && r.frame.when.Before? && !r.boot.Disposed? && r.ready.NotAsked?)
    || s.ReadySettled?
  }

  /** The guards let this step past their first question, towards the lifecycle manager. */
  predicate PassesGuards(r: Runtime, s: Step) {
    StopsLifecycles(r, s) && !GuardsRefuse(r.lm, s.refuses)
  }

  /** Past the guards' first question, they do not refuse the second and no hook is starting. */
  predicate Disciplined(r: Runtime, s: Step) {
    PassesGuards(r, s) ==> !GuardsRefuse(r.lm, s.refusesAgain) && !L.HookInFlight(r.lm)
  }

  predicate IsRun(r: Runtime, steps: seq<Step>)
    decreases |steps|
  {
    steps == [] || (Enabled(r, steps[0]) && Disciplined(r, steps[0]) && IsRun(Apply(r, steps[0]), steps[1..]))
  }

  function After(r: Runtime, steps: seq<Step>): Runtime
    requires IsRun(r, steps)
    decreases |steps|
  {
    if steps == [] then r else After(Apply(r, steps[0]), steps[1..])
  }

  /** No rollback is going on either whenever the guards let a shutdown through. */
  predicate Unhurried(r: Runtime, steps: seq<Step>)
    requires IsRun(r, steps)
    decreases |steps|
  {
    steps == [] || ((PassesGuards(r, steps[0]) ==> !L.BatchBusy(r.lm)) && Unhurried(Apply(r, steps[0]), steps[1..]))
  }
}
