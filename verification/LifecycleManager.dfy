/**
 The manager as the source keeps it: one object whose fields every stretch of code updates in place.
 Each method is the code between two awaits and is proved to take exactly the matching protocol step.
 */
module LifecycleManagers {
  import opened Wrappers
  import P = LifecycleProtocol

  class LifecycleManager {
    var lifecycles: seq<P.ReadyCell>
    var startedIndex: nat
    var disposed: bool
    var activeStartup: Option<nat>
    var startupPromise: Option<nat>
    // Frames of the suspended async functions.
    var batches: seq<P.Phase>
    var shutdownPromise: P.Stopper
    var callers: seq<P.Caller>
    ghost var log: seq<P.Event>

    ghost function State(): P.Manager
      reads this
    {
      P.Manager(lifecycles, startedIndex, disposed, activeStartup, startupPromise, batches, shutdownPromise, callers, log)
    }

    constructor ()
      ensures State() == P.INITIAL
    {
      lifecycles, startedIndex, disposed := [], 0, false;
      activeStartup, startupPromise := None, None;
      batches, shutdownPromise, callers, log := [], P.Absent, [], [];
    }

    method Register()
      modifies this
      ensures State() == P.Apply(old(State()), P.Register)
    {
      lifecycles := lifecycles + [P.Pending];
    }

    method StartupPending(context: Option<nat>) returns (c: nat)
      modifies this
      ensures State() == P.Apply(old(State()), P.Call(context)) && c == |old(callers)|
    {
      c := |callers|;
      callers := callers + [P.Rejected];
      if disposed { return; }
      if activeStartup.Some? && context == activeStartup {
        callers := callers[c := P.ReturnedToHook];
        assert callers == old(callers) + [P.ReturnedToHook];
        return;
      }
      Look(c);
    }

    /** The loop of startupPending from its condition to its next await. */
    method Look(c: nat)
      requires c < |callers|
      modifies this
      ensures State() == P.LoopCheck(old(State()), c)
    {
      if startupPromise.None? && startedIndex >= |lifecycles| {
        callers := callers[c := if disposed then P.Rejected else P.Returned];
        return;
      }
      if startupPromise.None? {
        if disposed {
          callers := callers[c := P.Rejected];
          return;
        }
        var token := |batches|;
        activeStartup := Some(token);
        startupPromise := Some(token);
        batches := batches + [P.Drained(true)];
        callers := callers[c := P.Waiting(token)];
        StartPendingLifecycles(token);
        return;
      }
      callers := callers[c := P.Waiting(startupPromise.value)];
    }

    method Resume(c: nat)
      requires P.Enabled(State(), P.Resume(c))
      modifies this
      ensures State() == P.Apply(old(State()), P.Resume(c))
    {
      if batches[callers[c].batch].ok {
        Look(c);
      } else {
        callers := callers[c := P.Rejected];
      }
    }

    /** The head of the batch's loop: call the next hook, or finish. */
    method StartPendingLifecycles(b: nat)
      requires b < |batches|
      modifies this
      ensures State() == P.Drain(old(State()), b)
    {
      if startedIndex < |lifecycles| {
        log := log + [P.StartCalled(startedIndex)];
        batches := batches[b := P.AwaitStart(startedIndex)];
      } else {
        batches := batches[b := P.Drained(true)];
      }
    }

    method StartSettles(b: nat, outcome: P.StartOutcome)
      requires P.Enabled(State(), P.StartSettles(b, outcome))
      modifies this
      ensures State() == P.Apply(old(State()), P.StartSettles(b, outcome))
    {
      var entry := batches[b].index;
      if outcome.Throws? {
        FailStartup(b);
        return;
      }
      startedIndex := startedIndex + 1;
      log := log + [P.StartReturned(entry)];
      if outcome.ReturnsValue? {
        if !outcome.sealable || lifecycles[entry] != P.Pending {
          FailStartup(b);
          return;
        }
        lifecycles := lifecycles[entry := P.Sealed];
      }
      StartPendingLifecycles(b);
    }

    method FailStartup(b: nat)
      requires b < |batches|
      modifies this
      ensures State() == P.FailStartup(old(State()), b)
    {
      disposed := true;
      RollBack(b);
    }

    method RollBack(b: nat)
      requires b < |batches|
      modifies this
      ensures State() == P.Rollback(old(State()), b)
    {
      if startedIndex > 0 {
        startedIndex := startedIndex - 1;
        log := log + [P.StopCalled(startedIndex)];
        batches := batches[b := P.AwaitRollback(startedIndex)];
      } else {
        DisposeReadyValues();
        batches := batches[b := P.Drained(false)];
      }
    }

    method RollbackSettles(b: nat)
      requires P.Enabled(State(), P.RollbackSettles(b))
      modifies this
      ensures State() == P.Apply(old(State()), P.RollbackSettles(b))
    {
      lifecycles := lifecycles[batches[b].index := P.Released];
      RollBack(b);
    }

    method FinallyRuns(b: nat)
      requires P.Enabled(State(), P.FinallyRuns(b))
      modifies this
      ensures State() == P.Apply(old(State()), P.FinallyRuns(b))
    {
      activeStartup := None;
      startupPromise := None;
      batches := batches[b := P.Closed(batches[b].ok)];
    }

    method DisposeReadyValues()
      modifies this`lifecycles
      ensures lifecycles == P.ReleaseAll(old(lifecycles))
    {
      var i := 0;
      while i < |lifecycles|
        invariant i <= |lifecycles| == |old(lifecycles)|
        invariant forall k :: 0 <= k < i ==> lifecycles[k] == P.Released
      {
        lifecycles := lifecycles[i := P.Released];
        i := i + 1;
      }
    }

    /** Asks the guard of every started hook; one refusal refuses the shutdown. */
    method AssertCanShutdown(refuses: nat -> bool) returns (ok: bool)
      ensures ok <==> disposed || forall i: nat :: i < startedIndex ==> !refuses(i)
    {
      if disposed { return true; }
      var index := 0;
      while index < startedIndex
        invariant index <= startedIndex
        invariant forall i: nat :: i < index ==> !refuses(i)
      {
        if refuses(index) { return false; }
        index := index + 1;
      }
      return true;
    }

    method Shutdown(refuses: nat -> bool) returns (begins: bool)
      modifies this
      ensures begins <==> old(shutdownPromise.Absent? && (disposed || forall i: nat :: i < startedIndex ==> !refuses(i)))
      ensures begins ==> State() == P.StopNext(old(State()).(disposed := true), false)
      ensures !begins ==> State() == old(State())
      ensures State() == P.Apply(old(State()), P.Shutdown(!begins))
    {
      if !shutdownPromise.Absent? { return false; }
      begins := AssertCanShutdown(refuses);
      if !begins { return; }
      disposed := true;
      StopNext(false);
    }

    method StopNext(failed: bool)
      modifies this
      ensures State() == P.StopNext(old(State()), failed)
    {
      if startedIndex > 0 {
        startedIndex := startedIndex - 1;
        log := log + [P.StopCalled(startedIndex)];
        shutdownPromise := P.AwaitStop(startedIndex, failed);
      } else {
        DisposeReadyValues();
        shutdownPromise := P.Stopped(failed);
      }
    }

    method StopSettles(throws: bool)
      requires P.Enabled(State(), P.StopSettles(throws))
      modifies this
      ensures State() == P.Apply(old(State()), P.StopSettles(throws))
    {
      lifecycles := lifecycles[shutdownPromise.index := P.Released];
      StopNext(shutdownPromise.failed || throws);
    }
  }
}
