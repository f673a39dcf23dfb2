/** What a user relies on across several events: reached things are visible, going back undoes a jump, the URL says what is shown. */
module StudioJourneys {
  import opened Wrappers
  import opened Sequences
  import opened StudioGraph
  import opened StudioView
  import opened StudioScope
  import opened StudioRelations
  import opened StudioMediator
  import opened StudioMediatorProofs

  /** The state after an intent, accepted or refused. */
  function After(s: Ready, e: Event): Ready {
    match ReadyTransition(s, e)
    case Ok(t) => t
    case Err(m) => s.(notice := Some(m))
  }

  lemma AfterIsTransition(s: Ready, e: Event)
    requires IsIntent(e)
    ensures Transition(Showing(s), e).Some? && Transition(Showing(s), e).value.0 == Showing(After(s, e))
  {
  }

  function AfterAll(s: Ready, events: seq<Event>): Ready {
    if events == [] then s else After(AfterAll(s, events[..|events| - 1]), events[|events| - 1])
  }

  lemma {:induction false} AfterAllConcat(s: Ready, a: seq<Event>, b: seq<Event>)
    ensures AfterAll(s, a + b) == AfterAll(AfterAll(s, a), b)
  {
    if b == [] {
      assert a + b == a;
    } else {
      assert (a + b)[..|a + b| - 1] == a + b[..|b| - 1];
      AfterAllConcat(s, a, b[..|b| - 1]);
    }
  }

  // ---------- reaching a subject ----------

  /** The map draws the subject: its column is shown, and its group is open when it is a member. */
  ghost predicate Drawn(g: Graph, v: View, id: string) {
    && id in g.owners && g.owners[id].columnId !in v.options.hiddenColumns
    && (id in g.declarations ==> g.owners[id].id in v.expanded)
  }

  lemma RevealDraws(s: Ready, id: string)
    requires Reveal(s, id).Ok?
    ensures Drawn(s.graph, Reveal(s, id).value, id)
  {
    var owner := s.graph.owners[id];
    FilterMember(s.view.options.hiddenColumns, OtherThan(owner.columnId), owner.columnId);
    DedupAre(s.view.expanded + [owner.id]);
  }

  /**
   Whichever way a subject is reached, the map draws it afterwards.  Selecting also shows its contract and ends
   a search; locating only looks; only starting a scope changes the scope; none of them touches the history.
   */
  lemma ReachedIsDrawn(s: Ready, e: Event, id: string)
    requires e in {SubjectSelect(id), SubjectFind(id), SubjectLocate(id), ScopeStart(id)} && id in s.graph.owners
    ensures Drawn(s.graph, After(s, e).view, id) && After(s, e).history == s.history
    ensures var v, w := s.view, After(s, e).view;
            && (if e.SubjectLocate? then w.node == v.node && w.tab == v.tab && w.query == v.query
                else w.node == Some(id) && w.tab == ContractTab && w.query == "")
            && w.scope == if e.ScopeStart? then Locked(Flow, id) else v.scope
    ensures After(s, e).command == if e.SubjectFind? || e.SubjectLocate? then Some(Locate(NextSequence(s), id)) else s.command
  {
    var clean := s.(notice := None);
    RevealDraws(clean, id);
    if e.SubjectFind? { RevealDraws(Select(clean, id).value, id); }
  }

  /** The command stays, or is replaced by one with the next number. */
  predicate CommandAdvances(s: Ready, t: Ready) {
    t.command == s.command || (t.command.Some? && t.command.value.sequence == NextSequence(s))
  }

  lemma VisitAdvances(s: Ready, id: string)
    requires Visit(s, id).Ok?
    ensures CommandAdvances(s, Visit(s, id).value)
  {
  }

  lemma NavigateAdvances(s: Ready, e: Event)
    requires Navigate(s, e).Some? && Navigate(s, e).value.Ok?
    ensures CommandAdvances(s, Navigate(s, e).value.value)
  {
    if e.SubjectFind? { VisitAdvances(s, e.id); }
  }

  lemma ReferenceAdvances(s: Ready, e: Event)
    requires Reference(s, e).Some? && Reference(s, e).value.Ok?
    ensures CommandAdvances(s, Reference(s, e).value.value)
  {
    if e.TagActivate? { TagVisits(s, e.key); }
  }

  lemma TagVisits(s: Ready, key: Key)
    requires ActivateTag(s, key).Ok?
    ensures CommandAdvances(s, ActivateTag(s, key).value)
  {
    var target := Find(VisibleTags(s).value, key).value.key.target;
    VisitAdvances(s, target);
  }

  lemma OptionsAdvance(s: Ready, e: Event)
    ensures Preferences(s, e).Some? && Preferences(s, e).value.Ok? ==> CommandAdvances(s, Preferences(s, e).value.value)
    ensures Presentation(s, e).Some? && Presentation(s, e).value.Ok? ==> CommandAdvances(s, Presentation(s, e).value.value)
  {
  }

  lemma IntentAdvances(s: Ready, e: Event)
    requires ApplyIntent(s, e).Ok?
    ensures CommandAdvances(s, ApplyIntent(s, e).value)
  {
    var clean := s.(notice := None);
    assert NextSequence(clean) == NextSequence(s);
    if Navigate(clean, e).Some? { NavigateAdvances(clean, e); }
    else if Reference(clean, e).Some? { ReferenceAdvances(clean, e); }
    else { OptionsAdvance(clean, e); }
  }

  lemma CommandsAdvance(s: Ready, e: Event)
    requires IsIntent(e)
    ensures CommandAdvances(s, After(s, e))
  {
    if e.UrlRestore? {
      if e.url.node.Some? && Visit(s, e.url.node.value).Ok? { VisitAdvances(s, e.url.node.value); }
    } else if !e.UrlFailed? && !e.ViewportObserved? && ApplyIntent(s, e).Ok? {
      IntentAdvances(s, e);
    }
  }

  /** So at any two moments of a run a command number means one and the same command, and numbers never fall. */
  lemma {:induction false} CommandsOnce(s: Ready, events: seq<Event>)
    requires forall e :: e in events ==> IsIntent(e)
    ensures var t := AfterAll(s, events);
            NextSequence(t) >= NextSequence(s) && (t.command != s.command ==> NextSequence(t) > NextSequence(s))
  {
    if events != [] {
      var init, e := events[..|events| - 1], events[|events| - 1];
      CommandsOnce(s, init);
      CommandsAdvance(AfterAll(s, init), e);
    }
  }

  // ---------- what is shown and folded ----------

  /** Toggling a column sets that column and no other. */
  lemma ToggleSets(s: Ready, id: string, visible: bool, c: string)
    requires IsColumn(s.graph, id)
    ensures c in After(s, ColumnToggle(id, visible)).view.options.hiddenColumns <==>
            if c == id then !visible else c in s.view.options.hiddenColumns
  {
    FilterMember(s.view.options.hiddenColumns, OtherThan(id), c);
  }

  /** Folding a group flips that group and no other. */
  lemma FoldFlips(s: Ready, id: string, c: string)
    requires id in s.graph.groups
    ensures c in After(s, GroupToggle(id)).view.expanded <==> if c == id then id !in s.view.expanded else c in s.view.expanded
  {
    FilterMember(s.view.expanded, OtherThan(id), c);
  }

  predicate IsToggle(g: Graph, e: Event) {
    (e.ColumnToggle? && IsColumn(g, e.id)) || (e.GroupToggle? && e.id in g.groups)
  }

  /** Hidden at first, unless the last toggle of the column says otherwise. */
  function HiddenAfter(hidden: bool, column: string, events: seq<Event>): bool {
    if events == [] then hidden
    else
      var e := events[|events| - 1];
      if e.ColumnToggle? && e.id == column then !e.visible else HiddenAfter(hidden, column, events[..|events| - 1])
  }

  /** Open at first, and flipped by each fold of the group. */
  function OpenAfter(open: bool, group: string, events: seq<Event>): bool {
    if events == [] then open
    else OpenAfter(open, group, events[..|events| - 1]) != (events[|events| - 1] == GroupToggle(group))
  }

  function Folds(group: string, events: seq<Event>): nat {
    if events == [] then 0
    else Folds(group, events[..|events| - 1]) + if events[|events| - 1] == GroupToggle(group) then 1 else 0
  }

  lemma ToggleStep(s: Ready, e: Event, column: string, group: string)
    requires IsToggle(s.graph, e)
    ensures After(s, e).graph == s.graph
    ensures column in After(s, e).view.options.hiddenColumns <==>
            if e.ColumnToggle? && e.id == column then !e.visible else column in s.view.options.hiddenColumns
    ensures group in After(s, e).view.expanded <==>
            if e == GroupToggle(group) then group !in s.view.expanded else group in s.view.expanded
  {
    if e.ColumnToggle? { ToggleSets(s, e.id, e.visible, column); } else { FoldFlips(s, e.id, group); }
  }

  lemma {:induction false} ColumnsAddUp(s: Ready, events: seq<Event>, column: string)
    requires forall e :: e in events ==> IsToggle(s.graph, e)
    ensures AfterAll(s, events).graph == s.graph
    ensures column in AfterAll(s, events).view.options.hiddenColumns <==>
            HiddenAfter(column in s.view.options.hiddenColumns, column, events)
  {
    if events != [] {
      var init, e := events[..|events| - 1], events[|events| - 1];
      ColumnsAddUp(s, init, column);
      ToggleStep(AfterAll(s, init), e, column, "");
    }
  }

  lemma {:induction false} FoldsAddUp(s: Ready, events: seq<Event>, group: string)
    requires forall e :: e in events ==> IsToggle(s.graph, e)
    ensures AfterAll(s, events).graph == s.graph
    ensures group in AfterAll(s, events).view.expanded <==> OpenAfter(group in s.view.expanded, group, events)
  {
    if events != [] {
      var init, e := events[..|events| - 1], events[|events| - 1];
      FoldsAddUp(s, init, group);
      assert e in events;
      ToggleStep(AfterAll(s, init), e, "", group);
    }
  }

  lemma {:induction false} OpenByParity(open: bool, group: string, events: seq<Event>)
    ensures OpenAfter(open, group, events) <==> open == (Folds(group, events) % 2 == 0)
  {
    if events != [] { OpenByParity(open, group, events[..|events| - 1]); }
  }

  /** Over any toggles, a column is as its last toggle left it and a group is open by the parity of its folds. */
  lemma TogglesAddUp(s: Ready, events: seq<Event>, column: string, group: string)
    requires forall e :: e in events ==> IsToggle(s.graph, e)
    ensures var t := AfterAll(s, events);
            && (column in t.view.options.hiddenColumns <==> HiddenAfter(column in s.view.options.hiddenColumns, column, events))
            && (group in t.view.expanded <==> (group in s.view.expanded) == (Folds(group, events) % 2 == 0))
  {
    ColumnsAddUp(s, events, column);
    FoldsAddUp(s, events, group);
    OpenByParity(group in s.view.expanded, group, events);
  }

  // ---------- the URL ----------

  /** A restored URL is the URL of what is then shown. */
  lemma RestoredUrlIsShown(s: Ready, url: Url)
    requires RestoreUrl(s, url).Ok?
    ensures UrlState(RestoreUrl(s, url).value.view) == url
    ensures url.node.Some? ==> Drawn(s.graph, RestoreUrl(s, url).value.view, url.node.value)
  {
    if url.node.Some? {
      RevealDraws(s, url.node.value);
      RevealDraws(Select(s, url.node.value).value, url.node.value);
    }
  }

  /** The URL of any state a run reaches is accepted by, and restores the same URL in, any state another run reaches on the same graph. */
  lemma UrlRoundTrip(firstRequest: int, first: seq<Event>, secondRequest: int, second: seq<Event>)
    requires EventsOk(first) && EventsOk(second)
    requires var s, t := Run(Loading(firstRequest), first), Run(Loading(secondRequest), second);
             s.Some? && t.Some? && s.value.Showing? && t.value.Showing? && s.value.ready.graph == t.value.ready.graph
    ensures var url, t := UrlState(Run(Loading(firstRequest), first).value.ready.view), Run(Loading(secondRequest), second).value.ready;
            RestoreUrl(t, url).Ok? && UrlState(RestoreUrl(t, url).value.view) == url
  {
    ReachableKnown(Loading(firstRequest), first);
    ReachableKnown(Loading(secondRequest), second);
    var s, t := Run(Loading(firstRequest), first).value.ready, Run(Loading(secondRequest), second).value.ready;
    OwnUrlAccepted(s, t);
    RestoredUrlIsShown(t, UrlState(s.view));
  }

  lemma OwnUrlAccepted(s: Ready, t: Ready)
    requires Names(s) && Known(t) && s.graph == t.graph
    ensures RestoreUrl(t, UrlState(s.view)).Ok?
  {
    RestoreUrlKnown(t, UrlState(s.view));
  }

  /** The URL an event writes, if any. */
  function Written(s: Ready, e: Event): Option<Url>
    requires IsIntent(e)
  {
    AfterIsTransition(s, e);
    Transition(Showing(s), e).value.1
  }

  lemma AcceptedAddressIsShown(s: Ready, url: Url)
    requires RestoreUrl(s, url).Ok?
    ensures UrlState(After(s, UrlRestore(url)).view) == url
  {
    RestoredUrlIsShown(s, url);
  }

  lemma WrittenUrlIsShown(s: Ready, e: Event)
    requires IsIntent(e) && !e.UrlRestore?
    ensures UrlState(After(s, e).view) == if Written(s, e).Some? then Written(s, e).value else UrlState(s.view)
  {
  }

  // ---------- going back ----------

  /** Neither jumps, goes back nor resets. */
  predicate IsQuiet(e: Event) {
    IsIntent(e) && !e.TagActivate? && !e.ReferenceBack? && !e.ViewReset?
  }

  lemma QuietKeepsHistory(s: Ready, e: Event)
    requires IsQuiet(e)
    ensures After(s, e).history == s.history
  {
  }

  /** Events in which every jump is undone by its own return. */
  datatype Trip = Stay | Then(trip: Trip, event: Event) | Detour(trip: Trip, key: Key, away: Trip)

  function Events(t: Trip): seq<Event> {
    match t
    case Stay => []
    case Then(trip, e) => Events(trip) + [e]
    case Detour(trip, key, away) => Events(trip) + [TagActivate(key)] + Events(away) + [ReferenceBack]
  }

  /** Every jump of the trip follows a tag that is shown when it is made. */
  ghost predicate Possible(s: Ready, t: Trip)
    decreases t
  {
    match t
    case Stay => true
    case Then(trip, e) => Possible(s, trip) && IsQuiet(e)
    case Detour(trip, key, away) =>
      var here := AfterAll(s, Events(trip));
      Possible(s, trip) && ActivateTag(here.(notice := None), key).Ok? && Possible(After(here, TagActivate(key)), away)
  }

  lemma AfterDetour(s: Ready, t: Trip)
    requires t.Detour?
    ensures var jumped := After(AfterAll(s, Events(t.trip)), TagActivate(t.key));
            AfterAll(s, Events(t)) == After(AfterAll(jumped, Events(t.away)), ReferenceBack)
  {
    var here := AfterAll(s, Events(t.trip));
    AfterAllConcat(s, Events(t.trip), [TagActivate(t.key)]);
    AfterAllConcat(s, Events(t.trip) + [TagActivate(t.key)], Events(t.away));
    AfterAllConcat(s, Events(t.trip) + [TagActivate(t.key)] + Events(t.away), [ReferenceBack]);
  }

  /** A trip leaves the history as it was, and a detour leaves the view as it was, however many jumps were made inside. */
  lemma {:induction false} TripReturns(s: Ready, t: Trip)
    requires Possible(s, t)
    ensures AfterAll(s, Events(t)).history == s.history
    ensures t.Detour? ==>
              var here := AfterAll(s, Events(t.trip));
              AfterAll(s, Events(t)).view == here.view && AfterAll(s, Events(t)).command.Some? &&
              AfterAll(s, Events(t)).command.value.Restore? && AfterAll(s, Events(t)).command.value.viewport == here.viewport
    decreases t
  {
    match t
    case Stay =>
    case Then(trip, e) =>
      TripReturns(s, trip);
      AfterAllConcat(s, Events(trip), [e]);
      QuietKeepsHistory(AfterAll(s, Events(trip)), e);
    case Detour(trip, key, away) =>
      TripReturns(s, trip);
      var here := AfterAll(s, Events(trip));
      var jumped := After(here, TagActivate(key));
      TripReturns(jumped, away);
      AfterDetour(s, t);
      JumpAndBack(here, key, AfterAll(jumped, Events(away)));
  }

  lemma JumpAndBack(s: Ready, key: Key, t: Ready)
    requires ActivateTag(s.(notice := None), key).Ok? && t.history == After(s, TagActivate(key)).history
    ensures After(t, ReferenceBack).view == s.view && After(t, ReferenceBack).history == s.history
    ensures var c := After(t, ReferenceBack).command; c.Some? && c.value.Restore? && c.value.viewport == s.viewport
  {
  }

  // ---------- a locked scope ----------

  /** The events that leave the scope alone. */
  predicate KeepsScope(e: Event) {
    && IsIntent(e) && !e.ScopeMode? && !e.ScopeLock? && !e.ScopeStart?
    && !e.ReferenceBack? && !e.ViewReset? && !e.UrlRestore?
  }

  lemma ScopeKept(s: Ready, e: Event)
    requires KeepsScope(e)
    ensures After(s, e).view.scope == s.view.scope && After(s, e).graph == s.graph
  {
  }

  /** While the scope is locked, browsing details, tags and options never changes which relations are in scope. */
  lemma {:induction false} LockedScopeStays(s: Ready, events: seq<Event>)
    requires s.view.scope.Locked? && forall e :: e in events ==> KeepsScope(e)
    ensures var t := AfterAll(s, events);
            t.graph == s.graph && t.view.scope == s.view.scope && ScopeRelations(t.graph, t.view) == ScopeRelations(s.graph, s.view)
  {
    if events != [] {
      var init, last := events[..|events| - 1], events[|events| - 1];
      SplitLast(events);
      LockedScopeStays(s, init);
      ScopeKept(AfterAll(s, init), last);
    }
  }
}
