/**
 Creating a runtime (packages/core/src/app/create-app.lib.ts): configs, realization, publishing,
 warmup and startup in turn, with a shutdown of everything if any of them fails.
 */
module CreationProtocol {
  import opened Wrappers
  import L = LifecycleProtocol
  import LP = LifecycleProofs
  import R = RuntimeProtocol
  import RP = RuntimeProofs

  /** Where initializeRuntimeFeatures is suspended. */
  datatype Stage =
    | NotCreating
    | AwaitConfigs(caller: nat)
    | Realizing(done: nat)
    | Warming
    | AwaitRuntime
    | CleaningUp
    | Created
    | Rejected

  /** `published` counts the features, in order, whose capabilities the registry holds. */
  datatype World = World(rt: R.Runtime, stage: Stage, features: nat, published: nat, warmup: bool)

  function Start(features: nat, warmup: bool): World {
    World(R.FRESH, NotCreating, features, 0, warmup)
  }

  datatype Step =
    | Inner(step: R.Step)
    | CreateBegins(configsValid: bool)
    | ConfigsReturn
    | RealizeSettles(ok: bool, firstInvalid: nat)
    | WarmupSettles(ok: bool)
    | RuntimeReturns
    | CleanupReturns

  datatype Capabilities = Available | NotReady | ClosedForGood

  /** FeatureRegistryService.getCapabilities, reached through a feature's handle. */
  function GetCapabilities(w: World, feature: nat): Capabilities
    requires feature < w.features
  {
    if w.rt.registry.Closed? then ClosedForGood
    else if !w.rt.registry.Active? || feature >= w.published then NotReady
    else Available
  }

  /** The catch block of the initializer, up to its await of shutdown. */
  function Fail(w: World): World {
    w.(rt := R.Apply(w.rt, R.CallShutdown), stage := CleaningUp)
  }

  function Activate(w: World): World {
    var active := w.rt.(registry := R.Active);
    w.(rt := R.Apply(active, R.CallReady(None)), stage := AwaitRuntime)
  }

  function Publish(w: World, firstInvalid: nat): World {
    if firstInvalid < w.features then Fail(w.(published := firstInvalid))
    else
      var all := w.(published := w.features);
      if w.warmup then all.(stage := Warming) else Activate(all)
  }

  /** Outside a created runtime only the initializer starts and stops it, and no guard refuses. */
  predicate Undisturbed(s: R.Step) {
    !s.CallShutdown? && !s.CallReady? && !RP.Refuses(s) &&
    (s.CallbacksSettled? || s.ReadySettled? ==> !s.refusesAgain)
  }

  predicate Enabled(w: World, s: Step) {
    match s
    case Inner(r) =>
      R.Enabled(w.rt, r) && if w.stage.Created? then R.Disciplined(w.rt, r) else Undisturbed(r)
    case CreateBegins(_) => w.stage.NotCreating?
    case ConfigsReturn =>
      w.stage.AwaitConfigs? && w.stage.caller < |w.rt.lm.callers| && !w.rt.lm.callers[w.stage.caller].Waiting?
    case RealizeSettles(_, _) => w.stage.Realizing?
    case WarmupSettles(_) => w.stage.Warming?
    case RuntimeReturns => w.stage.AwaitRuntime? && (w.rt.ready.Succeeded? || w.rt.ready.Failed?)
    case CleanupReturns => w.stage.CleaningUp? && (w.rt.frame.Kept? || w.rt.frame.NoPromise?)
  }

  function Apply(w: World, s: Step): World
    requires Enabled(w, s)
  {
    match s
    case Inner(r) => w.(rt := R.Apply(w.rt, r))
    case CreateBegins(configsValid) =>
      if !configsValid || !w.rt.boot.Idle? then Fail(w)
      else w.(rt := w.rt.(lm := L.StartupPending(w.rt.lm, None)), stage := AwaitConfigs(|w.rt.lm.callers|))
    case ConfigsReturn => if w.rt.lm.callers[w.stage.caller].Rejected? then Fail(w) else w.(stage := Realizing(0))
    case RealizeSettles(ok, firstInvalid) =>
      if w.stage.done >= w.features then Publish(w, firstInvalid)
      else if !ok then Fail(w)
      else w.(stage := Realizing(w.stage.done + 1))
    case WarmupSettles(ok) => if ok then Activate(w) else Fail(w)
    case RuntimeReturns => if w.rt.ready.Succeeded? then w.(stage := Created) else Fail(w)
    case CleanupReturns => w.(stage := Rejected)
  }

  predicate IsRun(w: World, steps: seq<Step>)
    decreases |steps|
  {
    steps == [] || (Enabled(w, steps[0]) && IsRun(Apply(w, steps[0]), steps[1..]))
  }

  function After(w: World, steps: seq<Step>): World
    requires IsRun(w, steps)
    decreases |steps|
  {
    if steps == [] then w else After(Apply(w, steps[0]), steps[1..])
  }

  // ---------- who may be waiting for a startup batch ----------

  ghost predicate OnlyWaiter(m: L.Manager, c: nat) {
    forall x :: 0 <= x < |m.callers| && m.callers[x].Waiting? ==> x == c
  }

  ghost predicate NobodyWaits(m: L.Manager) {
    forall x :: 0 <= x < |m.callers| ==> !m.callers[x].Waiting?
  }

  /** The caller that opened the batch in progress is still waiting for it. */
  ghost predicate OpenBatchAwaited(m: L.Manager) {
    m.startupPromise.Some? ==> exists x :: 0 <= x < |m.callers| && m.callers[x] == L.Waiting(m.startupPromise.value)
  }

  /** If nobody waits, no batch is open. */
  lemma NobodyWaitsMeansClosed(m: L.Manager)
    requires L.Inv(m) && OpenBatchAwaited(m) && NobodyWaits(m)
    ensures forall b :: 0 <= b < |m.batches| ==> m.batches[b].Closed?
    ensures !L.BatchBusy(m)
  {
    assert m.startupPromise.None?;
  }

  lemma LookKeepsAwaited(m: L.Manager, c: nat)
    requires L.Inv(m) && c < |m.callers|
    requires m.startupPromise.Some? ==>
               exists x :: 0 <= x < |m.callers| && x != c && m.callers[x] == L.Waiting(m.startupPromise.value)
    ensures OpenBatchAwaited(L.LoopCheck(m, c))
  {
    var m' := L.LoopCheck(m, c);
    if m.startupPromise.Some? {
      var x :| 0 <= x < |m.callers| && x != c && m.callers[x] == L.Waiting(m.startupPromise.value);
      assert m'.callers[x] == m.callers[x];
    } else if m'.startupPromise.Some? {
      assert m'.callers[c] == L.Waiting(m'.startupPromise.value);
    }
  }

  lemma CallKeepsAwaited(m: L.Manager, context: Option<nat>)
    requires L.Inv(m) && OpenBatchAwaited(m)
    ensures OpenBatchAwaited(L.StartupPending(m, context))
  {
    var joined := m.(callers := m.callers + [L.Rejected]);
    LP.BystandersKeepInv(m, m.lifecycles, joined.callers);
    if m.startupPromise.Some? {
      var x :| 0 <= x < |m.callers| && m.callers[x] == L.Waiting(m.startupPromise.value);
      assert joined.callers[x] == L.StartupPending(m, context).callers[x] == m.callers[x];
    }
    LookKeepsAwaited(joined, |m.callers|);
  }

  lemma ResumeKeepsAwaited(m: L.Manager, c: nat)
    requires L.Inv(m) && OpenBatchAwaited(m) && L.Enabled(m, L.Resume(c))
    ensures OpenBatchAwaited(L.Apply(m, L.Resume(c)))
  {
    var m' := L.Apply(m, L.Resume(c));
    if m.startupPromise.Some? {
      var x :| 0 <= x < |m.callers| && m.callers[x] == L.Waiting(m.startupPromise.value);
      assert x != c;
      assert m'.callers[x] == m.callers[x];
    }
    LookKeepsAwaited(m, c);
  }

  lemma LifecycleKeepsAwaited(m: L.Manager, s: L.Step)
    requires L.Inv(m) && OpenBatchAwaited(m) && L.Enabled(m, s)
    ensures OpenBatchAwaited(L.Apply(m, s))
  {
    if s.Call? { CallKeepsAwaited(m, s.context); }
    else if s.Resume? { ResumeKeepsAwaited(m, s.caller); }
    else { assert L.Apply(m, s).callers == m.callers; }
  }

  /** A step of the hooks or of code they call makes nobody else wait. */
  lemma LifecycleKeepsOnlyWaiter(m: L.Manager, s: L.Step, c: nat)
    requires OnlyWaiter(m, c) && L.Enabled(m, s) && (s.Call? ==> R.HookCall(m, s))
    ensures OnlyWaiter(L.Apply(m, s), c)
    ensures c < |m.callers| && !m.callers[c].Waiting? ==> NobodyWaits(L.Apply(m, s)) && L.Apply(m, s).callers[c] == m.callers[c]
  {
    var m' := L.Apply(m, s);
    if s.Resume? { assert s.caller == c; }
    else { assert m.callers <= m'.callers && |m'.callers| <= |m.callers| + 1; }
  }
}
