/**
 The objects behind the runtime protocol.  Each method is the code between two awaits and is proved
 to take exactly the matching step; the objects update their fields in place as the source does.
 */
module RuntimeServices {
  import opened Wrappers
  import R = RuntimeProtocol
  import L = LifecycleProtocol
  import opened LifecycleManagers
  import opened FeatureRegistry

  class AppBootstrap {
    const lifecycleManager: LifecycleManager
    var state: R.BootState
    var ready: R.ReadyFrame

    constructor (lifecycleManager: LifecycleManager)
      ensures this.lifecycleManager == lifecycleManager && state == R.Idle && ready == R.NotAsked
    {
      this.lifecycleManager := lifecycleManager;
      state, ready := R.Idle, R.NotAsked;
    }

    /** ready() up to its await: a second caller shares the first caller's promise. */
    method Ready(context: Option<nat>) returns (ok: bool)
      modifies this, lifecycleManager
      ensures ok <==> !old(state).Disposed?
      ensures old(state).Disposed? || !old(ready).NotAsked? ==>
                state == old(state) && ready == old(ready) && lifecycleManager.State() == old(lifecycleManager.State())
      ensures !old(state).Disposed? && old(ready).NotAsked? ==>
                && state == R.Starting && ready == R.AwaitStartup(|old(lifecycleManager.callers)|)
                && lifecycleManager.State() == L.StartupPending(old(lifecycleManager.State()), context)
    {
      if state.Disposed? { return false; }
      if !ready.NotAsked? { return true; }
      state := R.Starting;
      var caller := lifecycleManager.StartupPending(context);
      ready := R.AwaitStartup(caller);
      return true;
    }

    /** doReady after its await. */
    method StartupReturns()
      requires ready.AwaitStartup? && ready.caller < |lifecycleManager.callers|
      modifies this
      ensures if lifecycleManager.callers[old(ready).caller].Rejected? || old(state).Disposed?
              then ready == R.Failed && state == old(state)
              else ready == R.Succeeded && state == R.Ready
    {
      if lifecycleManager.callers[ready.caller].Rejected? || state.Disposed? {
        ready := R.Failed;
        return;
      }
      state := R.Ready;
      ready := R.Succeeded;
    }

    /** get(): only a ready app starts hooks that the resolution registered. */
    method Get(context: Option<nat>) returns (ok: bool)
      modifies lifecycleManager
      ensures ok <==> !state.Disposed?
      ensures lifecycleManager.State() ==
              if state.Ready? then L.StartupPending(old(lifecycleManager.State()), context) else old(lifecycleManager.State())
    {
      if state.Disposed? { return false; }
      if state.Ready? {
        var caller := lifecycleManager.StartupPending(context);
      }
      return true;
    }

    /** shutdown() from its guard check; false when a guard threw. */
    method Stop(refuses: nat -> bool, refusesAgain: nat -> bool) returns (ok: bool)
      requires !state.Disposed?
      modifies this`state, lifecycleManager
      ensures ok <==> old(lifecycleManager.disposed || forall i: nat :: i < lifecycleManager.startedIndex ==> !refuses(i)) &&
                      old(!lifecycleManager.shutdownPromise.Absent? || lifecycleManager.disposed ||
                          forall i: nat :: i < lifecycleManager.startedIndex ==> !refusesAgain(i))
      ensures state == if old(lifecycleManager.disposed || forall i: nat :: i < lifecycleManager.startedIndex ==> !refuses(i))
                       then R.Disposed else old(state)
      ensures lifecycleManager.State() == if ok then L.Apply(old(lifecycleManager.State()), L.Shutdown(false))
                                          else old(lifecycleManager.State())
    {
      ok := lifecycleManager.AssertCanShutdown(refuses);
      if !ok { return; }
      state := R.Disposed;
      if !lifecycleManager.shutdownPromise.Absent? { return true; }
      ok := lifecycleManager.Shutdown(refusesAgain);
    }
  }

  class RuntimeShutdownService {
    const runtime: AppBootstrap
    const featureRegistry: FeatureRegistryService
    var frame: R.Frame
    var before: seq<nat>
    var after: seq<nat>
    var callbacks: seq<R.Callback>
    ghost var invoked: seq<nat>

    ghost function State(): R.Runtime
      reads this, runtime, runtime.lifecycleManager, featureRegistry
    {
      R.Runtime(runtime.lifecycleManager.State(), runtime.state, runtime.ready, featureRegistry.state,
                callbacks, before, after, frame, invoked)
    }

    constructor (runtime: AppBootstrap, featureRegistry: FeatureRegistryService)
      ensures this.runtime == runtime && this.featureRegistry == featureRegistry
      ensures State() == R.FRESH.(lm := runtime.lifecycleManager.State(), boot := runtime.state,
                                  ready := runtime.ready, registry := featureRegistry.state)
    {
      this.runtime, this.featureRegistry := runtime, featureRegistry;
      frame, before, after, callbacks, invoked := R.NoPromise, [], [], [], [];
    }

    method RegisterShutdown(when: R.When) returns (ok: bool)
      modifies this
      ensures ok <==> !runtime.state.Disposed? && old(frame).NoPromise?
      ensures State() == R.Apply(old(State()), R.RegisterShutdown(when))
    {
      if runtime.state.Disposed? || !frame.NoPromise? { return false; }
      var id := |callbacks|;
      callbacks := callbacks + [R.Callback(when, R.NotRun, 0)];
      if when.Before? { before := before + [id]; } else { after := after + [id]; }
      return true;
    }

    /** A registered handle up to the await of its body; true when this call runs the body. */
    method CallHandle(k: nat) returns (runs: bool)
      requires k < |callbacks|
      modifies this`callbacks, this`before, this`after
      ensures runs <==> k in R.Registered(old(State()), old(callbacks[k]).when)
      ensures State() == R.Invoke(old(State()), k)
    {
      var cb := callbacks[k];
      runs := if cb.when.Before? then k in before else k in after;
      if !runs { return; }
      if cb.when.Before? { before := R.Without(before, k); } else { after := R.Without(after, k); }
      callbacks := callbacks[k := cb.(body := R.Running, runs := cb.runs + 1)];
    }

    method Shutdown()
      modifies this
      ensures State() == R.Apply(old(State()), R.CallShutdown)
    {
      if frame.NoPromise? { frame := R.Queued; }
    }

    method RunShutdown(refuses: nat -> bool)
      requires frame.Queued?
      modifies this
      ensures State() ==
              R.Apply(old(State()), R.ShutdownRuns(exists i: nat :: i < runtime.lifecycleManager.startedIndex && refuses(i)))
    {
      var ok := runtime.lifecycleManager.AssertCanShutdown(refuses);
      frame := if ok then R.Invoking(R.Before, before, [], false) else R.Finishing(true);
    }

    method InvokeNext()
      requires R.Enabled(State(), R.InvokeNext)
      modifies this
      ensures State() == R.Apply(old(State()), R.InvokeNext)
    {
      var k := frame.rest[0];
      var runs := CallHandle(k);
      var ran := if runs then [k] else [];
      frame := frame.(rest := frame.rest[1..], awaited := frame.awaited + ran);
      invoked := invoked + ran;
    }

    /** The loop of runShutdownCallbacks over the settled results. */
    method AnyRejected(ks: seq<nat>) returns (threw: bool)
      requires R.AllFinished(State(), ks)
      ensures threw <==> R.AnyThrew(State(), ks)
    {
      threw := false;
      var i := 0;
      while i < |ks|
        invariant i <= |ks|
        invariant threw <==> exists k :: k in ks[..i] && k < |callbacks| && callbacks[k].body == R.Finished(true)
      {
        assert ks[i] in ks;
        assert ks[..i + 1] == ks[..i] + [ks[i]];
        if callbacks[ks[i]].body.threw { threw := true; }
        i := i + 1;
      }
      assert ks[..i] == ks;
    }

    method LifecycleStopped()
      requires R.Enabled(State(), R.LifecycleStopped)
      modifies this
      ensures State() == R.Apply(old(State()), R.LifecycleStopped)
    {
      AfterBoot(frame.failed || runtime.lifecycleManager.shutdownPromise.failed);
    }

    method AfterBoot(failed: bool)
      modifies this`frame
      ensures State() == R.AfterBoot(old(State()), failed)
    {
      frame := if runtime.state.Disposed? then R.Invoking(R.AfterStop, after, [], failed) else R.Finishing(failed);
    }

    method FinallyRuns()
      requires frame.Finishing?
      modifies this, featureRegistry
      ensures State() == R.Apply(old(State()), R.FinallyRuns)
    {
      if runtime.state.Disposed? {
        featureRegistry.Dispose();
        frame := R.Kept(frame.failed);
      } else {
        frame := R.NoPromise;
      }
    }

    /** The callbacks of a phase have settled: shut the bootstrap down, or finish. */
    method CallbacksSettled(refuses: nat -> bool, refusesAgain: nat -> bool)
      requires R.Enabled(State(), R.CallbacksSettled(false, false))
      requires !frame.when.AfterStop? ==> !runtime.state.Disposed?
      modifies this, runtime, runtime.lifecycleManager
      ensures State() == R.Apply(old(State()), R.CallbacksSettled(
        old(exists i: nat :: i < runtime.lifecycleManager.startedIndex && refuses(i)),
        old(exists i: nat :: i < runtime.lifecycleManager.startedIndex && refusesAgain(i))))
    {
      var threw := AnyRejected(frame.awaited);
      var failed := frame.failed || threw;
      if frame.when.AfterStop? {
        frame := R.Finishing(failed);
      } else if !runtime.ready.NotAsked? {
        frame := R.AwaitReady(failed);
      } else {
        StopBoot(refuses, refusesAgain, failed);
      }
    }

    method ReadySettled(refuses: nat -> bool, refusesAgain: nat -> bool)
      requires R.Enabled(State(), R.ReadySettled(false, false)) && !runtime.state.Disposed?
      modifies this, runtime, runtime.lifecycleManager
      ensures State() == R.Apply(old(State()), R.ReadySettled(
        old(exists i: nat :: i < runtime.lifecycleManager.startedIndex && refuses(i)),
        old(exists i: nat :: i < runtime.lifecycleManager.startedIndex && refusesAgain(i))))
    {
      StopBoot(refuses, refusesAgain, frame.failed);
    }

    method StopBoot(refuses: nat -> bool, refusesAgain: nat -> bool, failed: bool)
      requires !runtime.state.Disposed?
      modifies this`frame, runtime`state, runtime.lifecycleManager
      ensures State() == R.StopBoot(old(State()),
                                    old(exists i: nat :: i < runtime.lifecycleManager.startedIndex && refuses(i)),
                                    old(exists i: nat :: i < runtime.lifecycleManager.startedIndex && refusesAgain(i)), failed)
    {
      var ok := runtime.Stop(refuses, refusesAgain);
      if ok { frame := R.AwaitLifecycle(failed); } else { AfterBoot(true); }
    }
  }
}
