/** A runtime whose creation fails leaves nothing behind. */
module CreationProofs {
  import opened Wrappers
  import opened CreationProtocol
  import L = LifecycleProtocol
  import LP = LifecycleProofs
  import R = RuntimeProtocol
  import RP = RuntimeProofs

  /** Nothing has been asked of the bootstrap or of shutdown yet. */
  ghost predicate Untouched(rt: R.Runtime) {
    rt.boot.Idle? && rt.ready.NotAsked? && rt.frame.NoPromise? && rt.registry.Unready?
  }

  ghost predicate StageOk(w: World) {
    match w.stage
    case AwaitConfigs(c) => Untouched(w.rt) && c < |w.rt.lm.callers| && OnlyWaiter(w.rt.lm, c)
    case AwaitRuntime =>
      && w.rt.frame.NoPromise? && w.published == w.features && !w.rt.ready.NotAsked?
      && (w.rt.ready.AwaitStartup? ==> w.rt.boot.Starting? && OnlyWaiter(w.rt.lm, w.rt.ready.caller))
      && (w.rt.ready.Failed? ==> w.rt.boot.Starting? && NobodyWaits(w.rt.lm))
    case CleaningUp =>
      && NobodyWaits(w.rt.lm) && !w.rt.ready.AwaitStartup? && !w.rt.boot.Ready? && !w.rt.frame.NoPromise?
      && (w.rt.frame.Finishing? ==> w.rt.boot.Disposed?)
    case Created => true
    case Rejected => w.rt.frame.Kept? && NobodyWaits(w.rt.lm)
    case Warming => Untouched(w.rt) && NobodyWaits(w.rt.lm) && w.published == w.features
    case _ => Untouched(w.rt) && NobodyWaits(w.rt.lm)
  }

  ghost predicate Inv(w: World) {
    && RP.Inv(w.rt) && OpenBatchAwaited(w.rt.lm) && StageOk(w)
    && w.published <= w.features
    && (w.rt.registry.Active? ==> w.published == w.features)
  }

  // ---------- steps of the runtime underneath ----------

  lemma LifecycleKeepsNobodyWaiting(m: L.Manager, s: L.Step)
    requires NobodyWaits(m) && L.Enabled(m, s) && (s.Call? ==> R.HookCall(m, s))
    ensures NobodyWaits(L.Apply(m, s))
  {
    assert OnlyWaiter(m, |m.callers|);
    LifecycleKeepsOnlyWaiter(m, s, |m.callers|);
    assert L.Apply(m, s).callers == m.callers || L.Apply(m, s).callers[..|m.callers|] == m.callers;
  }

  /** While nobody waits and the app is not ready, no batch is open and none can be opened. */
  lemma CleaningUpIsDisciplined(w: World, r: R.Step)
    requires Inv(w) && w.stage.CleaningUp? && R.Enabled(w.rt, r) && Undisturbed(r)
    ensures R.Disciplined(w.rt, r)
  {
    NobodyWaitsMeansClosed(w.rt.lm);
  }

  lemma StepIsDisciplined(w: World, r: R.Step)
    requires Inv(w) && Enabled(w, Inner(r))
    ensures R.Disciplined(w.rt, r)
  {
    if w.stage.CleaningUp? { CleaningUpIsDisciplined(w, r); }
  }

  lemma OthersKeepCallers(rt: R.Runtime, r: R.Step)
    requires R.Enabled(rt, r) && !r.Lifecycle? && !r.LazyGet? && !r.CallReady?
    ensures R.Apply(rt, r).lm.callers == rt.lm.callers && R.Apply(rt, r).lm.startupPromise == rt.lm.startupPromise
  {
  }

  lemma RuntimeKeepsAwaited(rt: R.Runtime, r: R.Step)
    requires RP.Inv(rt) && OpenBatchAwaited(rt.lm) && R.Enabled(rt, r)
    ensures OpenBatchAwaited(R.Apply(rt, r).lm)
  {
    if r.Lifecycle? { LifecycleKeepsAwaited(rt.lm, r.step); }
    else if r.LazyGet? { CallKeepsAwaited(rt.lm, None); }
    else if r.CallReady? { CallKeepsAwaited(rt.lm, r.context); }
    else { OthersKeepCallers(rt, r); }
  }

  lemma UntouchedStays(rt: R.Runtime, r: R.Step)
    requires Untouched(rt) && R.Enabled(rt, r) && Undisturbed(r)
    ensures Untouched(R.Apply(rt, r))
    ensures R.Apply(rt, r).registry == rt.registry
    ensures R.Apply(rt, r).lm == if r.Lifecycle? then L.Apply(rt.lm, r.step) else rt.lm
  {
  }

  lemma EarlyStageKeepsOk(w: World, r: R.Step)
    requires Inv(w) && Enabled(w, Inner(r)) && Untouched(w.rt) && !w.stage.AwaitRuntime? && !w.stage.CleaningUp?
    requires !w.stage.Created? && !w.stage.Rejected?
    ensures StageOk(Apply(w, Inner(r)))
  {
    UntouchedStays(w.rt, r);
    if r.Lifecycle? {
      if w.stage.AwaitConfigs? { LifecycleKeepsOnlyWaiter(w.rt.lm, r.step, w.stage.caller); }
      else { LifecycleKeepsNobodyWaiting(w.rt.lm, r.step); }
    }
  }

  lemma AwaitRuntimeKeepsOk(w: World, r: R.Step)
    requires Inv(w) && Enabled(w, Inner(r)) && w.stage.AwaitRuntime?
    ensures StageOk(Apply(w, Inner(r)))
  {
    var rt' := R.Apply(w.rt, r);
    if r.Lifecycle? {
      if w.rt.ready.AwaitStartup? { LifecycleKeepsOnlyWaiter(w.rt.lm, r.step, w.rt.ready.caller); }
      if w.rt.ready.Failed? { LifecycleKeepsNobodyWaiting(w.rt.lm, r.step); }
    }
  }

  lemma CleaningUpStays(rt: R.Runtime, r: R.Step)
    requires RP.Inv(rt) && R.Enabled(rt, r) && Undisturbed(r)
    requires !rt.ready.AwaitStartup? && !rt.boot.Ready? && !rt.frame.NoPromise? && (rt.frame.Finishing? ==> rt.boot.Disposed?)
    ensures var rt' := R.Apply(rt, r);
            !rt'.ready.AwaitStartup? && !rt'.boot.Ready? && !rt'.frame.NoPromise? &&
            (rt'.frame.Finishing? ==> rt'.boot.Disposed?)
  {
  }

  lemma CleaningUpKeepsOk(w: World, r: R.Step)
    requires Inv(w) && Enabled(w, Inner(r)) && w.stage.CleaningUp?
    ensures StageOk(Apply(w, Inner(r)))
  {
    if r.Lifecycle? { LifecycleKeepsNobodyWaiting(w.rt.lm, r.step); }
    else { OthersKeepCallers(w.rt, r); CleaningUpStays(w.rt, r); }
  }

  lemma RejectedKeepsOk(w: World, r: R.Step)
    requires Inv(w) && Enabled(w, Inner(r)) && w.stage.Rejected?
    ensures StageOk(Apply(w, Inner(r)))
  {
    if r.Lifecycle? { LifecycleKeepsNobodyWaiting(w.rt.lm, r.step); }
    else { OthersKeepCallers(w.rt, r); }
  }

  lemma RegistryOpensOnlyByActivation(rt: R.Runtime, r: R.Step)
    requires R.Enabled(rt, r)
    ensures R.Apply(rt, r).registry.Active? ==> rt.registry.Active?
    ensures rt.frame.Kept? ==> R.Apply(rt, r).frame.Kept?
  {
  }

  lemma InnerKeepsInv(w: World, r: R.Step)
    requires Inv(w) && Enabled(w, Inner(r))
    ensures Inv(Apply(w, Inner(r)))
  {
    StepIsDisciplined(w, r);
    RP.StepKeepsInv(w.rt, r);
    RuntimeKeepsAwaited(w.rt, r);
    RegistryOpensOnlyByActivation(w.rt, r);
    if w.stage.AwaitRuntime? { AwaitRuntimeKeepsOk(w, r); }
    else if w.stage.CleaningUp? { CleaningUpKeepsOk(w, r); }
    else if w.stage.Rejected? { RejectedKeepsOk(w, r); }
    else if !w.stage.Created? { EarlyStageKeepsOk(w, r); }
  }

  // ---------- the initializer's own steps ----------

  lemma FailKeepsInv(w: World, w': World)
    requires RP.Inv(w.rt) && OpenBatchAwaited(w.rt.lm) && w.published <= w.features
    requires w.rt.registry.Active? ==> w.published == w.features
    requires NobodyWaits(w.rt.lm) && !w.rt.ready.AwaitStartup? && !w.rt.boot.Ready? && w.rt.frame.NoPromise?
    requires w' == Fail(w)
    ensures Inv(w')
  {
    RP.StepKeepsInv(w.rt, R.CallShutdown);
  }

  lemma ActivateKeepsInv(w: World)
    requires RP.Inv(w.rt) && OpenBatchAwaited(w.rt.lm) && w.published == w.features
    requires Untouched(w.rt) && NobodyWaits(w.rt.lm)
    ensures Inv(Activate(w))
  {
    var active := w.rt.(registry := R.Active);
    RP.StepKeepsInv(active, R.CallReady(None));
    CallKeepsAwaited(w.rt.lm, None);
  }

  lemma BeginKeepsInv(w: World)
    requires Inv(w) && w.stage.NotCreating?
    ensures Inv(w.(rt := w.rt.(lm := L.StartupPending(w.rt.lm, None)), stage := AwaitConfigs(|w.rt.lm.callers|)))
  {
    RP.StartupCallKeepsInv(w.rt, None);
    CallKeepsAwaited(w.rt.lm, None);
  }

  lemma ConfigsKeepInv(w: World, s: Step)
    requires Inv(w) && Enabled(w, s) && (s.CreateBegins? || s.ConfigsReturn?)
    ensures Inv(Apply(w, s))
  {
    if Apply(w, s).stage.CleaningUp? { FailKeepsInv(w, Apply(w, s)); }
    else if s.CreateBegins? { BeginKeepsInv(w); }
  }

  lemma RealizeKeepsInv(w: World, ok: bool, firstInvalid: nat)
    requires Inv(w) && Enabled(w, RealizeSettles(ok, firstInvalid))
    ensures Inv(Apply(w, RealizeSettles(ok, firstInvalid)))
  {
    if w.stage.done >= w.features {
      if firstInvalid < w.features { FailKeepsInv(w.(published := firstInvalid), Publish(w, firstInvalid)); }
      else if !w.warmup { ActivateKeepsInv(w.(published := w.features)); }
    } else if !ok { FailKeepsInv(w, Fail(w)); }
  }

  lemma StartupStagesKeepInv(w: World, s: Step)
    requires Inv(w) && Enabled(w, s) && (s.WarmupSettles? || s.RuntimeReturns? || s.CleanupReturns?)
    ensures Inv(Apply(w, s))
  {
    if Apply(w, s).stage.CleaningUp? { FailKeepsInv(w, Apply(w, s)); }
    else if s.WarmupSettles? { ActivateKeepsInv(w); }
  }

  lemma StepKeepsInv(w: World, s: Step)
    requires Inv(w) && Enabled(w, s)
    ensures Inv(Apply(w, s))
  {
    match s
    case Inner(r) => InnerKeepsInv(w, r);
    case CreateBegins(_) => ConfigsKeepInv(w, s);
    case ConfigsReturn => ConfigsKeepInv(w, s);
    case RealizeSettles(ok, firstInvalid) => RealizeKeepsInv(w, ok, firstInvalid);
    case WarmupSettles(_) => StartupStagesKeepInv(w, s);
    case RuntimeReturns => StartupStagesKeepInv(w, s);
    case CleanupReturns => StartupStagesKeepInv(w, s);
  }

  lemma {:induction false} RunKeepsInv(w: World, steps: seq<Step>)
    requires Inv(w) && IsRun(w, steps)
    ensures Inv(After(w, steps))
    decreases |steps|
  {
    if steps == [] {
    } else {
      StepKeepsInv(w, steps[0]);
      RunKeepsInv(Apply(w, steps[0]), steps[1..]);
    }
  }

  lemma ReachableInv(features: nat, warmup: bool, steps: seq<Step>)
    requires IsRun(Start(features, warmup), steps)
    ensures Inv(After(Start(features, warmup), steps))
  {
    RunKeepsInv(Start(features, warmup), steps);
  }

  // ---------- what creation promises ----------

  /** Nothing is running, starting or stopping, nothing can be used, and every callback has had its turn. */
  ghost predicate NothingLeft(w: World) {
    && w.rt.lm.disposed && w.rt.lm.startedIndex == 0 && w.rt.lm.stopper.Stopped?
    && (forall b :: 0 <= b < |w.rt.lm.batches| ==> w.rt.lm.batches[b].Closed?)
    && L.Stops(w.rt.lm.log) == L.Reverse(L.Starts(w.rt.lm.log))
    && w.rt.boot.Disposed? && w.rt.registry.Closed?
    && (forall k: nat :: k < |w.rt.callbacks| ==> w.rt.callbacks[k].runs == 1)
    && (forall f: nat :: f < w.features ==> GetCapabilities(w, f).ClosedForGood?)
  }

  lemma RejectedLeavesNothing(w: World)
    requires Inv(w) && w.stage.Rejected?
    ensures NothingLeft(w)
  {
    NobodyWaitsMeansClosed(w.rt.lm);
    var starts := L.Starts(w.rt.lm.log);
    assert L.DownFrom(|starts|, 0) == L.Reverse(starts);
    forall k: nat | k < |w.rt.callbacks|
      ensures w.rt.callbacks[k].runs == 1
    {
      assert RP.CallbackOk(w.rt.callbacks[k], k, w.rt.before, w.rt.after);
    }
  }

  /**
   Wherever creation fails, by the time it rejects every hook that started has been stopped in reverse
   order, the stopping has settled and no startup batch is open, so that no hook is starting or stopping;
   the manager, the bootstrap and the registry are disposed, and every registered callback has run once.
   */
  lemma FailedCreationLeavesNothing(features: nat, warmup: bool, steps: seq<Step>)
    requires IsRun(Start(features, warmup), steps)
    requires After(Start(features, warmup), steps).stage.Rejected?
    ensures NothingLeft(After(Start(features, warmup), steps))
  {
    ReachableInv(features, warmup, steps);
    RejectedLeavesNothing(After(Start(features, warmup), steps));
  }

  /** A handle works for every feature or for none: never before all are published, never after disposal. */
  lemma CapabilitiesAllOrNothing(features: nat, warmup: bool, steps: seq<Step>, f: nat, g: nat)
    requires IsRun(Start(features, warmup), steps) && f < features && g < features
    ensures var w := After(Start(features, warmup), steps);
            && w.features == features
            && GetCapabilities(w, f) == GetCapabilities(w, g)
            && (GetCapabilities(w, f).Available? ==> w.published == features && !w.rt.frame.Kept?)
  {
    ReachableInv(features, warmup, steps);
    RunKeepsFeatures(Start(features, warmup), steps);
  }

  lemma {:induction false} RunKeepsFeatures(w: World, steps: seq<Step>)
    requires IsRun(w, steps)
    ensures After(w, steps).features == w.features
    decreases |steps|
  {
    if steps == [] {
    } else {
      RunKeepsFeatures(Apply(w, steps[0]), steps[1..]);
    }
  }

  // ---------- every creation ends ----------

  predicate Ended(w: World) {
    w.stage.Created? || w.stage.Rejected?
  }

  /** A step somebody owes once creation has begun: a hook, a callback, a feature, the event loop. */
  predicate Owed(s: Step) {
    if s.Inner? then RP.Owed(s.step) else !s.CreateBegins?
  }

  /** While the caller of a startup still waits, the manager owes a step. */
  lemma WaitingCallerIsOwed(w: World, c: nat) returns (s: Step)
    requires Inv(w) && !w.stage.Created? && c < |w.rt.lm.callers| && w.rt.lm.callers[c].Waiting?
    ensures Owed(s) && Enabled(w, s)
  {
    var l := LP.NoDeadlock(w.rt.lm);
    s := Inner(R.Lifecycle(l));
  }

  lemma NoDeadlock(w: World) returns (s: Step)
    requires Inv(w) && !w.stage.NotCreating? && !Ended(w)
    ensures Owed(s) && Enabled(w, s)
  {
    match w.stage
    case AwaitConfigs(c) =>
      if w.rt.lm.callers[c].Waiting? { s := WaitingCallerIsOwed(w, c); } else { s := ConfigsReturn; }
    case Realizing(_) => s := RealizeSettles(true, w.features);
    case Warming => s := WarmupSettles(true);
    case AwaitRuntime =>
      if !w.rt.ready.AwaitStartup? { s := RuntimeReturns; }
      else if w.rt.lm.callers[w.rt.ready.caller].Waiting? { s := WaitingCallerIsOwed(w, w.rt.ready.caller); }
      else { s := Inner(R.StartupReturns); }
    case CleaningUp =>
      if w.rt.frame.Kept? { s := CleanupReturns; }
      else {
        var r := RP.NoDeadlock(w.rt);
        s := Inner(r);
      }
  }

  // The measure: the stage, the features still to realize, and the runtime's own.

  function StageRank(stage: Stage): nat {
    match stage
    case NotCreating => 6
    case AwaitConfigs(_) => 5
    case Realizing(_) => 4
    case Warming => 3
    case AwaitRuntime => 2
    case CleaningUp => 1
    case Created => 0
    case Rejected => 0
  }

  function ToRealize(w: World): nat {
    if w.stage.Realizing? && w.stage.done < w.features then w.features - w.stage.done else 0
  }

  ghost predicate Closer(w': World, w: World) {
    || StageRank(w'.stage) < StageRank(w.stage)
    || (StageRank(w'.stage) == StageRank(w.stage) &&
        (ToRealize(w') < ToRealize(w) || (ToRealize(w') == ToRealize(w) && RP.Closer(w'.rt, w.rt))))
  }

  lemma OwedStepIsCloser(w: World, s: Step)
    requires Inv(w) && !Ended(w) && Owed(s) && Enabled(w, s)
    ensures Closer(Apply(w, s), w)
  {
    if s.Inner? {
      RP.OwedStepIsCloser(w.rt, s.step);
      assert Apply(w, s) == w.(rt := R.Apply(w.rt, s.step));
    }
  }

  /** Any way of choosing the next owed step. */
  ghost predicate Scheduler(pick: World -> Step) {
    forall w: World {:trigger pick(w)} ::
      Inv(w) && !w.stage.NotCreating? && !Ended(w) ==> Owed(pick(w)) && Enabled(w, pick(w))
  }

  /** Whatever order the owed steps are taken in, a creation that has begun ends. */
  ghost function Scheduled(w: World, pick: World -> Step): (end: World)
    requires Inv(w) && !w.stage.NotCreating? && Scheduler(pick)
    ensures Inv(end) && Ended(end)
    decreases StageRank(w.stage), ToRealize(w), RP.PhaseRank(w.rt.frame), RP.ToInvoke(w.rt.frame), RP.ToSettle(w.rt),
              LP.HooksToCall(w.rt.lm), LP.HooksToStop(w.rt.lm), LP.FramesToSettle(w.rt.lm),
              LP.LooksToTake(w.rt.lm.callers, |w.rt.lm.batches|)
  {
    if Ended(w) then w
    else
      StepKeepsInv(w, pick(w));
      OwedStepIsCloser(w, pick(w));
      Scheduled(Apply(w, pick(w)), pick)
  }

  /** Under every scheduler a creation that has begun ends: with a runtime, or rejected with nothing left behind. */
  lemma EveryCreationEnds(features: nat, warmup: bool, steps: seq<Step>, pick: World -> Step)
    requires IsRun(Start(features, warmup), steps) && Scheduler(pick)
    requires !After(Start(features, warmup), steps).stage.NotCreating?
    ensures Inv(After(Start(features, warmup), steps))
    ensures var end := Scheduled(After(Start(features, warmup), steps), pick);
            end.stage.Created? || (end.stage.Rejected? && NothingLeft(end))
  {
    ReachableInv(features, warmup, steps);
    var end := Scheduled(After(Start(features, warmup), steps), pick);
    if end.stage.Rejected? { RejectedLeavesNothing(end); }
  }
}
