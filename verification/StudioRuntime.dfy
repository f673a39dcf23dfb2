/**
 The mounted studio (packages/studio-ui/src/runtime.lib.ts): the state machine between the views and the
 browser's address bar.  Writing an address may fail, and the bar may be given an address nobody can read.
 */
module StudioRuntime {
  import opened Wrappers
  import opened Sequences
  import opened StudioGraph
  import opened StudioMediator
  import opened StudioMediatorProofs
  import opened StudioJourneys

  /** A shown graph and what the bar says; None is an address that cannot be decoded. */
  datatype Mounted = Mounted(ready: Ready, bar: Option<Url>)

  /** An event of the views, with what becomes of a write if one is due, or another address given to the bar. */
  datatype Step =
    | Send(event: Event, writes: bool, error: Message)
    | Visit(address: Option<Url>, error: Message)

  predicate Enabled(t: Step) {
    t.Send? ==> IsIntent(t.event) && !t.event.UrlRestore? && !t.event.UrlFailed?
  }

  /** The notice of a failed write or restore, which the runtime sends to its own state machine. */
  function Fail(s: Ready, error: Message): (t: Ready)
    ensures t == s.(notice := Some(error))
  {
    After(s, UrlFailed(error))
  }

  function Take(m: Mounted, t: Step): Mounted
    requires Enabled(t)
  {
    match t
    case Send(e, writes, error) =>
      var next := After(m.ready, e);
      (match Written(m.ready, e)
       case None => m.(ready := next)
       case Some(url) => if writes then Mounted(next, Some(url)) else m.(ready := Fail(next, error)))
    case Visit(Some(url), _) => Mounted(After(m.ready, UrlRestore(url)), Some(url))
    case Visit(None, error) => Mounted(Fail(m.ready, error), None)
  }

  predicate AllEnabled(steps: seq<Step>) {
    forall t :: t in steps ==> Enabled(t)
  }

  function TakeAll(m: Mounted, steps: seq<Step>): Mounted
    requires AllEnabled(steps)
  {
    if steps == [] then m else Take(TakeAll(m, steps[..|steps| - 1]), steps[|steps| - 1])
  }

  predicate InStep(m: Mounted) {
    m.bar == Some(UrlState(m.ready.view))
  }

  // ---------- the source's object ----------

  /** What mountStudio closes over once a graph is shown, and the bar its ports read and write. */
  class Runtime {
    var state: Ready
    var bar: Option<Url>

    constructor (ready: Ready, address: Option<Url>)
      ensures Model() == Mounted(ready, address)
    {
      state, bar := ready, address;
    }

    function Model(): Mounted
      reads this
    {
      Mounted(state, bar)
    }

    /** Runs the transition and writes what it asks for; a failed write comes back as one more event. */
    method Dispatch(e: Event, writes: bool, error: Message)
      requires IsIntent(e)
      modifies this
      ensures e.UrlRestore? || e.UrlFailed? ==> state == After(old(state), e) && bar == old(bar)
      ensures !e.UrlRestore? && !e.UrlFailed? ==> Model() == Take(old(Model()), Send(e, writes, error))
      decreases !e.UrlFailed?
    {
      AfterIsTransition(state, e);
      var (next, effect) := Transition(Showing(state), e).value;
      state := next.ready;
      if effect.Some? { Write(effect.value, writes, error); }
    }

    method Write(url: Url, writes: bool, error: Message)
      modifies this
      ensures bar == if writes then Some(url) else old(bar)
      ensures state == if writes then old(state) else Fail(old(state), error)
      decreases true, 0
    {
      if writes { bar := Some(url); } else { Dispatch(UrlFailed(error), true, error); }
    }

    /** The browser has gone to another address and says so. */
    method Restore(address: Option<Url>, error: Message)
      modifies this
      ensures Model() == Take(old(Model()), Visit(address, error))
    {
      bar := address;
      match bar
      case Some(url) => Dispatch(UrlRestore(url), true, error);
      case None => Dispatch(UrlFailed(error), true, error);
    }
  }

  // ---------- the bar says what is shown ----------

  /** Why the bar may not say what is shown. */
  datatype Fault = Refused(url: Url) | Unreadable | Unwritten(old_: Option<Url>, url: Url)

  /** The step gives the bar an address or is due to write one. */
  predicate Touches(s: Ready, t: Step)
    requires Enabled(t)
  {
    t.Visit? || Written(s, t.event).Some?
  }

  /** What is wrong with the bar after a step that touches it; a failed write of what the bar says already is no fault. */
  function FaultAt(m: Mounted, t: Step): Option<Fault>
    requires Enabled(t) && Touches(m.ready, t)
  {
    match t
    case Send(e, writes, _) =>
      var url := Written(m.ready, e).value;
      if writes || m.bar == Some(url) then None else Some(Unwritten(m.bar, url))
    case Visit(Some(url), _) => if RestoreUrl(m.ready, url).Ok? then None else Some(Refused(url))
    case Visit(None, _) => Some(Unreadable)
  }

  /** The fault left by the last step that touched the bar. */
  function FaultLeft(m: Mounted, steps: seq<Step>): Option<Fault>
    requires AllEnabled(steps)
  {
    if steps == [] then None
    else
      var here, t := TakeAll(m, steps[..|steps| - 1]), steps[|steps| - 1];
      if Touches(here.ready, t) then FaultAt(here, t) else FaultLeft(m, steps[..|steps| - 1])
  }

  /** What the bar says, and what is shown, by the fault left in it. */
  ghost predicate BarSays(m: Mounted, fault: Option<Fault>) {
    match fault
    case None => InStep(m)
    case Some(Refused(url)) => m.bar == Some(url) && !Accepted(m.ready, UrlRestore(url))
    case Some(Unreadable) => m.bar == None
    case Some(Unwritten(old_, url)) => m.bar == old_ && UrlState(m.ready.view) == url && old_ != Some(url)
  }

  lemma AfterKeepsKnown(s: Ready, e: Event)
    requires Known(s) && IsIntent(e)
    ensures Known(After(s, e)) && After(s, e).graph == s.graph
  {
    ReadyKnown(s, e);
  }

  lemma TakeKeepsKnown(m: Mounted, t: Step)
    requires Known(m.ready) && Enabled(t)
    ensures Known(Take(m, t).ready) && Take(m, t).ready.graph == m.ready.graph
  {
    match t
    case Send(e, _, error) => AfterKeepsKnown(m.ready, e);
    case Visit(Some(url), _) => AfterKeepsKnown(m.ready, UrlRestore(url));
    case Visit(None, _) =>
  }

  lemma {:induction false} TakeAllKeepsKnown(m: Mounted, steps: seq<Step>)
    requires Known(m.ready) && AllEnabled(steps)
    ensures Known(TakeAll(m, steps).ready)
  {
    if steps != [] {
      TakeAllKeepsKnown(m, steps[..|steps| - 1]);
      TakeKeepsKnown(TakeAll(m, steps[..|steps| - 1]), steps[|steps| - 1]);
    }
  }

  lemma WriteSays(m: Mounted, t: Step)
    requires t.Send? && Enabled(t) && Touches(m.ready, t)
    ensures BarSays(Take(m, t), FaultAt(m, t))
  {
    WrittenUrlIsShown(m.ready, t.event);
  }

  lemma RefusedIsUnknown(s: Ready, url: Url)
    requires Known(s)
    ensures RestoreUrl(s, url).Ok? <==> Accepted(s, UrlRestore(url))
  {
    ReadyKnown(s, UrlRestore(url));
  }

  lemma RefusedVisitSays(m: Mounted, url: Url, error: Message)
    requires RestoreUrl(m.ready, url).Err? && !Accepted(m.ready, UrlRestore(url))
    ensures BarSays(Take(m, Visit(Some(url), error)), Some(Refused(url)))
  {
  }

  lemma VisitSays(m: Mounted, url: Url, error: Message)
    requires Known(m.ready)
    ensures BarSays(Take(m, Visit(Some(url), error)), FaultAt(m, Visit(Some(url), error)))
  {
    RefusedIsUnknown(m.ready, url);
    if RestoreUrl(m.ready, url).Ok? { AcceptedAddressIsShown(m.ready, url); } else { RefusedVisitSays(m, url, error); }
  }

  lemma TouchSays(m: Mounted, t: Step)
    requires Known(m.ready) && Enabled(t) && Touches(m.ready, t)
    ensures BarSays(Take(m, t), FaultAt(m, t))
  {
    match t
    case Send(_, _, _) => WriteSays(m, t);
    case Visit(Some(url), error) => VisitSays(m, url, error);
    case Visit(None, _) =>
  }

  /** What the bar says and what is shown, as far as the bar is concerned, are the same. */
  predicate SameAddresses(m: Mounted, m': Mounted) {
    m'.bar == m.bar && UrlState(m'.ready.view) == UrlState(m.ready.view) && m'.ready.graph == m.ready.graph
  }

  lemma UntouchedStays(m: Mounted, t: Step)
    requires Known(m.ready) && Enabled(t) && !Touches(m.ready, t)
    ensures SameAddresses(m, Take(m, t))
  {
    WrittenUrlIsShown(m.ready, t.event);
    AfterKeepsKnown(m.ready, t.event);
  }

  lemma SameAddressesSay(m: Mounted, m': Mounted, fault: Option<Fault>)
    requires SameAddresses(m, m') && BarSays(m, fault)
    ensures BarSays(m', fault)
  {
  }

  lemma {:induction false} BarSaysAll(m: Mounted, steps: seq<Step>)
    requires Known(m.ready) && AllEnabled(steps)
    requires InStep(m) || (steps != [] && steps[0].Visit?)
    ensures BarSays(TakeAll(m, steps), FaultLeft(m, steps))
  {
    if steps != [] {
      var init, t := steps[..|steps| - 1], steps[|steps| - 1];
      TakeAllKeepsKnown(m, init);
      if Touches(TakeAll(m, init).ready, t) {
        TouchSays(TakeAll(m, init), t);
      } else {
        BarSaysAll(m, init);
        UntouchedStays(TakeAll(m, init), t);
        SameAddressesSay(TakeAll(m, init), TakeAll(m, steps), FaultLeft(m, init));
      }
    }
  }

  lemma ShownIsAccepted(s: Ready)
    requires Known(s)
    ensures Accepted(s, UrlRestore(UrlState(s.view)))
  {
    OwnUrlAccepted(s, s);
    RefusedIsUnknown(s, UrlState(s.view));
  }

  /** A refused address is never the URL of what is shown. */
  lemma FaultIsOutOfStep(m: Mounted, fault: Option<Fault>)
    requires Accepted(m.ready, UrlRestore(UrlState(m.ready.view))) && BarSays(m, fault)
    ensures InStep(m) <==> fault.None?
  {
  }

  /**
   From the first address on, whatever the views send, whatever addresses the bar is given and whichever
   writes fail, the bar says what is shown exactly when the last step that touched it left no refused
   address, no unreadable one and no failed write of another address.  Otherwise it says the refused
   address, nothing that can be read, or what it said before the write.
   */
  lemma UrlTracksIff(m: Mounted, steps: seq<Step>)
    requires Known(m.ready) && AllEnabled(steps)
    requires InStep(m) || (steps != [] && steps[0].Visit?)
    ensures InStep(TakeAll(m, steps)) <==> FaultLeft(m, steps).None?
    ensures BarSays(TakeAll(m, steps), FaultLeft(m, steps))
  {
    BarSaysAll(m, steps);
    TakeAllKeepsKnown(m, steps);
    ShownIsAccepted(TakeAll(m, steps).ready);
    FaultIsOutOfStep(TakeAll(m, steps), FaultLeft(m, steps));
  }

  lemma SelectIsDueToWrite(s: Ready, id: string)
    requires Known(s) && id in s.graph.owners && s.view.node != Some(id)
    ensures After(s, SubjectSelect(id)).view.node == Some(id)
    ensures Written(s, SubjectSelect(id)).Some? && Written(s, SubjectSelect(id)).value != UrlState(s.view)
  {
    ReachedIsDrawn(s, SubjectSelect(id), id);
    WrittenUrlIsShown(s, SubjectSelect(id));
  }

  /** Selecting another subject while writing fails: the subject is shown, and the bar still says the old address. */
  lemma FailedWriteLeavesBar(m: Mounted, id: string, error: Message)
    requires Known(m.ready) && InStep(m) && id in m.ready.graph.owners && m.ready.view.node != Some(id)
    ensures var end := Take(m, Send(SubjectSelect(id), false, error));
            && end.bar == m.bar && end.ready.view.node == Some(id) && end.ready.notice == Some(error)
            && !InStep(end)
  {
    SelectIsDueToWrite(m.ready, id);
  }

  /** Going to an address that cannot be decoded: what was shown stays, and the bar cannot be read. */
  lemma UnreadableAddressStays(m: Mounted, error: Message)
    ensures var end := Take(m, Visit(None, error));
            && end.bar == None && end.ready.view == m.ready.view && end.ready.notice == Some(error)
            && !InStep(end)
  {
  }
}
