/**
 Startup and shutdown of registered lifecycle hooks (packages/core/src/kernel/lifecycle.lib.ts).

 The source is one object whose async methods interleave at every `await`.  The protocol is
 therefore a machine whose steps are the stretches of code between two awaits.  An async function
 that is suspended keeps a frame: `Phase` for one run of the startup batch, `Stopper` for the run
 of shutdown, `Caller` for one call of `startupPending`.  What a hook does when it settles, which
 async context a call comes from, and the order of the steps are all free.
 */
module LifecycleProtocol {
  import opened Wrappers

  /** The state of the value a hook publishes once it is ready. */
  datatype ReadyCell = Pending | Sealed | Released

  /** How the promise returned by a hook's startup settles. */
  datatype StartOutcome = ReturnsNothing | ReturnsValue(sealable: bool) | Throws

  /** Where one startup batch is suspended; `Drained` means settled with its `finally` still to run. */
  datatype Phase = AwaitStart(index: nat) | AwaitRollback(index: nat) | Drained(ok: bool) | Closed(ok: bool)

  /** Where the one run of shutdown is suspended; `failed` records whether a stop hook threw. */
  datatype Stopper = Absent | AwaitStop(index: nat, failed: bool) | Stopped(failed: bool)

  /** One call of startupPending; a call from inside the active batch returns at once as `ReturnedToHook`. */
  datatype Caller = Waiting(batch: nat) | Returned | ReturnedToHook | Rejected

  datatype Event = StartCalled(index: nat) | StartReturned(index: nat) | StopCalled(index: nat)

  datatype Manager = Manager(
    lifecycles: seq<ReadyCell>,
    startedIndex: nat,
    disposed: bool,
    activeStartup: Option<nat>,
    startupPromise: Option<nat>,
    batches: seq<Phase>,
    stopper: Stopper,
    callers: seq<Caller>,
    log: seq<Event>)

  const INITIAL := Manager([], 0, false, None, None, [], Absent, [], [])

  datatype Step =
    | Register
    | Call(context: Option<nat>)
    | StartSettles(batch: nat, outcome: StartOutcome)
    | RollbackSettles(batch: nat)
    | FinallyRuns(batch: nat)
    | Resume(caller: nat)
    | Shutdown(guardRefuses: bool)
    | StopSettles(throws: bool)

  // ---------- the code between two awaits ----------

  /** The head of the loop in startPendingLifecycles. */
  function Drain(m: Manager, b: nat): Manager
    requires b < |m.batches|
  {
    if m.startedIndex < |m.lifecycles| then
      m.(batches := m.batches[b := AwaitStart(m.startedIndex)], log := m.log + [StartCalled(m.startedIndex)])
    else
      m.(batches := m.batches[b := Drained(true)])
  }

  function ReleaseAll(cells: seq<ReadyCell>): seq<ReadyCell> {
    seq(|cells|, i => Released)
  }

  /** The head of the loop in stopStartedLifecycles, reached from a failed startup. */
  function Rollback(m: Manager, b: nat): Manager
    requires b < |m.batches|
  {
    if m.startedIndex > 0 then
      m.(startedIndex := m.startedIndex - 1, batches := m.batches[b := AwaitRollback(m.startedIndex - 1)],
         log := m.log + [StopCalled(m.startedIndex - 1)])
    else
      m.(batches := m.batches[b := Drained(false)], lifecycles := ReleaseAll(m.lifecycles))
  }

  /** The same loop head, reached from shutdown. */
  function StopNext(m: Manager, failed: bool): Manager {
    if m.startedIndex > 0 then
      m.(startedIndex := m.startedIndex - 1, stopper := AwaitStop(m.startedIndex - 1, failed),
         log := m.log + [StopCalled(m.startedIndex - 1)])
    else
      m.(stopper := Stopped(failed), lifecycles := ReleaseAll(m.lifecycles))
  }

  function FailStartup(m: Manager, b: nat): Manager
    requires b < |m.batches|
  {
    Rollback(m.(disposed := true), b)
  }

  /** The condition and body of the loop in startupPending, up to its await or its return. */
  function LoopCheck(m: Manager, c: nat): Manager
    requires c < |m.callers|
  {
    match m.startupPromise
    case Some(b) => m.(callers := m.callers[c := Waiting(b)])
    case None =>
      if m.startedIndex < |m.lifecycles| then
        if m.disposed then m.(callers := m.callers[c := Rejected])
        else
          var b := |m.batches|;
          Drain(m.(activeStartup := Some(b), startupPromise := Some(b), batches := m.batches + [Drained(true)],
                   callers := m.callers[c := Waiting(b)]), b)
      else m.(callers := m.callers[c := if m.disposed then Rejected else Returned])
  }

  function StartupPending(m: Manager, context: Option<nat>): Manager {
    if m.disposed then m.(callers := m.callers + [Rejected])
    else if m.activeStartup.Some? && context == m.activeStartup then m.(callers := m.callers + [ReturnedToHook])
    else LoopCheck(m.(callers := m.callers + [Rejected]), |m.callers|)
  }

  /** A hook's startup settles; it counts as started before its value is sealed. */
  function AfterStart(m: Manager, b: nat, i: nat, outcome: StartOutcome): Manager
    requires b < |m.batches| && i < |m.lifecycles|
  {
    if outcome.Throws? then FailStartup(m, b)
    else
      var started := m.(startedIndex := m.startedIndex + 1, log := m.log + [StartReturned(i)]);
      if outcome.ReturnsNothing? then Drain(started, b)
      else if outcome.sealable && m.lifecycles[i] == Pending then
        Drain(started.(lifecycles := m.lifecycles[i := Sealed]), b)
      else FailStartup(started, b)
  }

  predicate ShutdownBegins(m: Manager, guardRefuses: bool) {
    m.stopper.Absent? && (m.disposed || m.startedIndex == 0 || !guardRefuses)
  }

  // ---------- steps and runs ----------

  predicate Enabled(m: Manager, s: Step) {
    match s
    case StartSettles(b, _) =>
      b < |m.batches| && m.batches[b].AwaitStart? && m.batches[b].index < |m.lifecycles|
    case RollbackSettles(b) =>
      b < |m.batches| && m.batches[b].AwaitRollback? && m.batches[b].index < |m.lifecycles|
    case FinallyRuns(b) => b < |m.batches| && m.batches[b].Drained?
    case Resume(c) =>
      c < |m.callers| && m.callers[c].Waiting? && m.callers[c].batch < |m.batches| &&
      m.batches[m.callers[c].batch].Closed?
    case StopSettles(_) => m.stopper.AwaitStop? && m.stopper.index < |m.lifecycles|
    case _ => true
  }

  function Apply(m: Manager, s: Step): Manager
    requires Enabled(m, s)
  {
    match s
    case Register => m.(lifecycles := m.lifecycles + [Pending])
    case Call(context) => StartupPending(m, context)
    case StartSettles(b, outcome) => AfterStart(m, b, m.batches[b].index, outcome)
    case RollbackSettles(b) => Rollback(m.(lifecycles := m.lifecycles[m.batches[b].index := Released]), b)
    case FinallyRuns(b) =>
      m.(batches := m.batches[b := Closed(m.batches[b].ok)], activeStartup := None, startupPromise := None)
    case Resume(c) =>
      if m.batches[m.callers[c].batch].ok then LoopCheck(m, c) else m.(callers := m.callers[c := Rejected])
    case Shutdown(guardRefuses) =>
      if ShutdownBegins(m, guardRefuses) then StopNext(m.(disposed := true), false) else m
    case StopSettles(throws) =>
      StopNext(m.(lifecycles := m.lifecycles[m.stopper.index := Released]), m.stopper.failed || throws)
  }

  predicate HookInFlight(m: Manager) {
    exists b :: 0 <= b < |m.batches| && m.batches[b].AwaitStart?
  }

  /** A batch waits for a hook to start, or for one to stop again. */
  predicate Busy(p: Phase) {
    p.AwaitStart? || p.AwaitRollback?
  }

  predicate BatchBusy(m: Manager) {
    exists b :: 0 <= b < |m.batches| && Busy(m.batches[b])
  }

  predicate FailedPhase(p: Phase) {
    p.AwaitRollback? || p == Drained(false) || p == Closed(false)
  }

  /** Some startup batch has failed. */
  predicate BatchFailed(m: Manager) {
    exists b :: 0 <= b < |m.batches| && FailedPhase(m.batches[b])
  }

  /** A step that does not begin shutdown while a hook is starting. */
  predicate Disciplined(m: Manager, s: Step) {
    s.Shutdown? && ShutdownBegins(m, s.guardRefuses) ==> !HookInFlight(m)
  }

  predicate IsRun(m: Manager, steps: seq<Step>)
    decreases |steps|
  {
    steps == [] || (Enabled(m, steps[0]) && Disciplined(m, steps[0]) && IsRun(Apply(m, steps[0]), steps[1..]))
  }

  function After(m: Manager, steps: seq<Step>): Manager
    requires IsRun(m, steps)
    decreases |steps|
  {
    if steps == [] then m else After(Apply(m, steps[0]), steps[1..])
  }

  // ---------- what an observer sees ----------

  /** Hooks whose startup was called, in order. */
  function StartCalls(log: seq<Event>): seq<nat> {
    if log == [] then []
    else var e := log[|log| - 1];
      StartCalls(log[..|log| - 1]) + if e.StartCalled? then [e.index] else []
  }

  /** Hooks whose startup returned, in order. */
  function Starts(log: seq<Event>): seq<nat> {
    if log == [] then []
    else var e := log[|log| - 1];
      Starts(log[..|log| - 1]) + if e.StartReturned? then [e.index] else []
  }

  /** Hooks whose shutdown was called, in order. */
  function Stops(log: seq<Event>): seq<nat> {
    if log == [] then []
    else var e := log[|log| - 1];
      Stops(log[..|log| - 1]) + if e.StopCalled? then [e.index] else []
  }

  function UpTo(n: nat): seq<nat> {
    seq(n, i => i)
  }

  /** high-1, high-2, ..., low */
  function DownFrom(high: nat, low: nat): seq<nat>
    requires low <= high
  {
    seq(high - low, i requires 0 <= i < high - low => high - 1 - i)
  }

  function Reverse<T>(s: seq<T>): seq<T> {
    seq(|s|, i requires 0 <= i < |s| => s[|s| - 1 - i])
  }

  lemma ObserveAppend(log: seq<Event>, e: Event)
    ensures StartCalls(log + [e]) == StartCalls(log) + if e.StartCalled? then [e.index] else []
    ensures Starts(log + [e]) == Starts(log) + if e.StartReturned? then [e.index] else []
    ensures Stops(log + [e]) == Stops(log) + if e.StopCalled? then [e.index] else []
  {
    assert (log + [e])[..|log|] == log;
  }

  // ---------- the invariant of every disciplined run ----------

  /** Batches never overlap: all but the newest are closed, and the fields name the newest until it closes. */
  ghost predicate OneBatch(m: Manager) {
    && (forall b :: 0 <= b < |m.batches| - 1 ==> m.batches[b].Closed?)
    && m.activeStartup == m.startupPromise
    && m.startupPromise == if m.batches == [] || m.batches[|m.batches| - 1].Closed? then None else Some(|m.batches| - 1)
  }

  ghost predicate Accounting(m: Manager) {
    && var high := |Starts(m.log)|;
    && var calls := |StartCalls(m.log)|;
    && m.startedIndex <= high <= |m.lifecycles|
    && high <= calls <= high + 1 && calls <= |m.lifecycles|
    && Starts(m.log) == UpTo(high)
    && StartCalls(m.log) == UpTo(calls)
    && Stops(m.log) == DownFrom(high, m.startedIndex)
    && (!m.disposed ==> m.startedIndex == high && (calls == high + 1 <==> HookInFlight(m)))
    && (m.disposed ==> !HookInFlight(m))
  }

  ghost predicate PhaseOk(m: Manager, p: Phase) {
    match p
    case AwaitStart(i) => i == m.startedIndex < |m.lifecycles| && |StartCalls(m.log)| == i + 1
    case AwaitRollback(i) => m.disposed && m.startedIndex <= i < |m.lifecycles|
    case Drained(ok) => !ok ==> m.disposed && m.startedIndex == 0
    case Closed(ok) => !ok ==> m.disposed && m.startedIndex == 0
  }

  ghost predicate FramesOk(m: Manager) {
    && (forall b :: 0 <= b < |m.batches| ==> PhaseOk(m, m.batches[b]))
    && (m.stopper.AwaitStop? ==> m.startedIndex <= m.stopper.index < |m.lifecycles|)
    && (!m.stopper.Absent? ==> m.disposed)
    && (m.stopper.Stopped? ==> m.startedIndex == 0)
    && (forall c :: 0 <= c < |m.callers| && m.callers[c].Waiting? ==> m.callers[c].batch < |m.batches|)
  }

  ghost predicate Inv(m: Manager) {
    OneBatch(m) && Accounting(m) && FramesOk(m)
  }
}
