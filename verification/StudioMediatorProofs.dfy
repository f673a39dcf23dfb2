/**
 What every run of the studio keeps: whatever the state names exists, a refused event changes only the notice,
 going back undoes a jump, a locked scope stays, and the URL says what is shown.
 */
module StudioMediatorProofs {
  import opened Wrappers
  import opened Sequences
  import opened StudioGraph
  import opened StudioView
  import opened StudioScope
  import opened StudioRelations
  import opened StudioMediator

  // ---------- the identity invariant ----------

  ghost predicate KnownView(g: Graph, v: View) {
    && (v.node.Some? ==> v.node.value in g.owners)
    && (v.scope.Locked? ==> v.scope.anchor in g.owners)
    && (forall id :: id in v.expanded ==> id in g.groups)
    && (forall id :: id in v.options.hiddenColumns ==> IsColumn(g, id))
  }

  ghost predicate KnownHistory(g: Graph, history: seq<HistoryItem>) {
    forall item :: item in history ==> KnownView(g, item.view)
  }

  ghost predicate KnownCommand(g: Graph, command: Option<Command>) {
    command.Some? && command.value.Locate? ==> command.value.id in g.owners
  }

  /** Whatever the state names exists. */
  ghost predicate Names(s: Ready) {
    KnownView(s.graph, s.view) && KnownHistory(s.graph, s.history) && KnownCommand(s.graph, s.command)
  }

  ghost predicate Known(s: Ready) {
    Linked(s.graph) && Names(s)
  }

  ghost predicate Inv(s: State) {
    s.Showing? ==> Known(s.ready)
  }

  /** A snapshot is only announced once its graph has been read. */
  ghost predicate EventOk(e: Event) {
    e.SnapshotLoaded? ==> Valid(e.graph)
  }

  lemma ColumnIdsAre(columns: seq<Column>, id: string)
    ensures id in ColumnIds(columns) <==> exists c :: c in columns && c.id == id
  {
    if c :| c in columns && c.id == id {
      var i :| 0 <= i < |columns| && columns[i] == c;
      assert ColumnIds(columns)[i] == id;
    }
    if id in ColumnIds(columns) {
      var i :| 0 <= i < |columns| && ColumnIds(columns)[i] == id;
      assert columns[i] in columns;
    }
  }

  lemma InitialKnown(g: Graph, requestId: int)
    ensures Names(InitialReady(g, requestId)) && InitialReady(g, requestId).graph == g
  {
    var hidden := Filter(g.source.columns, IsHidden());
    forall id | id in ColumnIds(hidden) ensures IsColumn(g, id) {
      ColumnIdsAre(hidden, id);
      var c :| c in hidden && c.id == id;
      FilterMember(g.source.columns, IsHidden(), c);
      var i :| 0 <= i < |g.source.columns| && g.source.columns[i] == c;
    }
  }

  /** What an intent may change of a state that stays known. */
  ghost predicate StaysKnown(s: Ready, t: Ready) {
    t.graph == s.graph && Names(t)
  }

  ghost predicate OwnersAreGroups(g: Graph) {
    forall id :: id in g.owners ==> g.owners[id].id in g.groups
  }

  lemma FilterKnown(xs: seq<string>, keep: string -> bool)
    ensures forall x :: x in Filter(xs, keep) ==> x in xs
  {
    forall x | x in Filter(xs, keep) ensures x in xs { FilterMember(xs, keep, x); }
  }

  lemma RevealKnown(s: Ready, id: string)
    requires Names(s) && OwnersAreGroups(s.graph)
    ensures Reveal(s, id).Ok? <==> id in s.graph.owners
    ensures Reveal(s, id).Ok? ==> KnownView(s.graph, Reveal(s, id).value)
  {
    if id in s.graph.owners {
      var owner := s.graph.owners[id];
      FilterKnown(s.view.options.hiddenColumns, OtherThan(owner.columnId));
      DedupAre(s.view.expanded + [owner.id]);
    }
  }

  lemma SelectKnown(s: Ready, id: string)
    requires Names(s) && OwnersAreGroups(s.graph)
    ensures Select(s, id).Ok? <==> id in s.graph.owners
    ensures Select(s, id).Ok? ==> StaysKnown(s, Select(s, id).value)
  {
    RevealKnown(s, id);
  }

  lemma LocateKnown(s: Ready, id: string)
    requires Names(s) && OwnersAreGroups(s.graph)
    ensures LocateSubject(s, id).Ok? <==> id in s.graph.owners
    ensures LocateSubject(s, id).Ok? ==> StaysKnown(s, LocateSubject(s, id).value)
  {
    RevealKnown(s, id);
  }

  lemma VisitKnown(s: Ready, id: string)
    requires Names(s) && OwnersAreGroups(s.graph)
    ensures Visit(s, id).Ok? <==> id in s.graph.owners
    ensures Visit(s, id).Ok? ==> StaysKnown(s, Visit(s, id).value)
  {
    SelectKnown(s, id);
    if Select(s, id).Ok? { LocateKnown(Select(s, id).value, id); }
  }

  lemma StartScopeKnown(s: Ready, id: string)
    requires Names(s) && OwnersAreGroups(s.graph)
    ensures StartScope(s, id).Ok? <==> id in s.graph.owners
    ensures StartScope(s, id).Ok? ==> StaysKnown(s, StartScope(s, id).value)
  {
    SelectKnown(s, id);
  }

  lemma LockKnown(s: Ready, locked: bool)
    requires Names(s)
    ensures Lock(s, locked).Ok? <==> (locked ==> Focus(s.view).Some?)
    ensures Lock(s, locked).Ok? ==> StaysKnown(s, Lock(s, locked).value)
  {
  }

  lemma JumpKnown(s: Ready, id: string)
    requires Names(s) && OwnersAreGroups(s.graph) && id in s.graph.owners
    ensures Jump(s, id).Ok? && StaysKnown(s, Jump(s, id).value)
  {
    VisitKnown(s, id);
  }

  lemma BackKnown(s: Ready)
    requires Names(s)
    ensures Back(s).Ok? <==> s.history != []
    ensures Back(s).Ok? ==> StaysKnown(s, Back(s).value)
  {
    if s.history != [] { assert s.history[|s.history| - 1] in s.history; }
  }

  /** The tag is one the map shows. */
  ghost predicate HasTag(s: Ready, key: Key) {
    exists e :: e in s.graph.relations && BelongsTo(s.graph, s.view.options.hiddenColumns, s.view.options.showTypes, key)(e)
  }

  /** A key is a visible tag's exactly when some relation belongs to it. */
  lemma TagShownIff(s: Ready, key: Key)
    requires Linked(s.graph)
    ensures VisibleTags(s).Some?
    ensures Find(VisibleTags(s).value, key).Some? <==> HasTag(s, key)
    ensures Find(VisibleTags(s).value, key).Some? ==> Find(VisibleTags(s).value, key).value.key == key && key.target in s.graph.owners
  {
    var g, hidden, types := s.graph, s.view.options.hiddenColumns, s.view.options.showTypes;
    TagsKnown(g, g.relations, hidden, types);
    TagsGather(g, g.relations, hidden, types, key);
    FindMember(VisibleTags(s).value, key);
    var those := Filter(g.relations, BelongsTo(g, hidden, types, key));
    EmptyOrMember(those);
    forall e
      ensures e in those <==> e in g.relations && BelongsTo(g, hidden, types, key)(e)
    {
      FilterMember(g.relations, BelongsTo(g, hidden, types, key), e);
    }
  }

  lemma TagKnownLeads(s: Ready, key: Key)
    requires Names(s) && Linked(s.graph)
    ensures ActivateTag(s, key).Ok? <==> HasTag(s, key)
    ensures ActivateTag(s, key).Ok? ==> key.target in s.graph.owners && ActivateTag(s, key) == Jump(s, key.target)
    ensures ActivateTag(s, key).Ok? ==> StaysKnown(s, ActivateTag(s, key).value)
  {
    TagShownIff(s, key);
    if HasTag(s, key) { JumpKnown(s, key.target); }
  }

  lemma ToggleKnown(s: Ready, id: string, visible: bool)
    requires Names(s)
    ensures ToggleColumn(s, id, visible).Ok? <==> IsColumn(s.graph, id)
    ensures ToggleColumn(s, id, visible).Ok? ==> StaysKnown(s, ToggleColumn(s, id, visible).value)
  {
    FilterKnown(s.view.options.hiddenColumns, OtherThan(id));
  }

  lemma GroupToggleKnown(s: Ready, id: string)
    requires Names(s) && id in s.graph.groups
    ensures StaysKnown(s, Presentation(s, GroupToggle(id)).value.value)
  {
    FilterKnown(s.view.expanded, OtherThan(id));
  }

  lemma GroupsExpandKnown(s: Ready, expand: bool)
    requires Names(s) && GroupsFound(s.graph)
    ensures StaysKnown(s, Presentation(s, GroupsExpand(expand)).value.value)
  {
    var groups := s.graph.source.groups;
    forall id | id in GroupIds(groups) ensures id in s.graph.groups {
      var i :| 0 <= i < |groups| && GroupIds(groups)[i] == id;
      assert groups[i] in groups;
    }
  }

  lemma RestoreUrlKnown(s: Ready, url: Url)
    requires Names(s) && OwnersAreGroups(s.graph)
    ensures RestoreUrl(s, url).Ok? <==>
            (url.node.Some? ==> url.node.value in s.graph.owners) && (url.root.Some? ==> url.root.value in s.graph.owners)
    ensures RestoreUrl(s, url).Ok? ==> StaysKnown(s, RestoreUrl(s, url).value)
  {
    if url.node.Some? { VisitKnown(s, url.node.value); }
  }

  // ---------- which events are refused ----------

  /** The events a shown graph accepts, told from the state before them. */
  ghost predicate Accepted(s: Ready, e: Event) {
    match e
    case SubjectSelect(id) => id in s.graph.owners
    case SubjectFind(id) => id in s.graph.owners
    case SubjectLocate(id) => id in s.graph.owners
    case ScopeStart(id) => id in s.graph.owners
    case ScopeLock(locked) => locked ==> Focus(s.view).Some?
    case GroupToggle(id) => id in s.graph.groups
    case ColumnToggle(id, _) => IsColumn(s.graph, id)
    case TagActivate(key) => HasTag(s, key)
    case ReferenceBack => s.history != []
    case UrlRestore(url) =>
      (url.node.Some? ==> url.node.value in s.graph.owners) && (url.root.Some? ==> url.root.value in s.graph.owners)
    case _ => true
  }

  predicate IsIntent(e: Event) {
    !IsDrawing(e) && !e.SnapshotLoaded? && !e.SnapshotFailed?
  }

  lemma NavigateKnown(s: Ready, e: Event)
    requires Names(s) && OwnersAreGroups(s.graph) && Navigate(s, e).Some?
    ensures Navigate(s, e).value.Ok? <==> Accepted(s, e)
    ensures Navigate(s, e).value.Ok? ==> StaysKnown(s, Navigate(s, e).value.value)
  {
    match e
    case SubjectSelect(id) => SelectKnown(s, id);
    case SubjectFind(id) => VisitKnown(s, id);
    case SubjectLocate(id) => LocateKnown(s, id);
    case ScopeStart(id) => StartScopeKnown(s, id);
    case ScopeLock(locked) => LockKnown(s, locked);
  }

  lemma ReferenceKnown(s: Ready, e: Event)
    requires Names(s) && Linked(s.graph) && Reference(s, e).Some?
    ensures Reference(s, e).value.Ok? <==> Accepted(s, e)
    ensures Reference(s, e).value.Ok? ==> StaysKnown(s, Reference(s, e).value.value)
  {
    match e
    case ReferenceBack => BackKnown(s);
    case TagActivate(key) => TagKnownLeads(s, key);
  }

  lemma PreferencesKnown(s: Ready, e: Event)
    requires Names(s) && Preferences(s, e).Some?
    ensures Preferences(s, e).value.Ok? <==> Accepted(s, e)
    ensures Preferences(s, e).value.Ok? ==> StaysKnown(s, Preferences(s, e).value.value)
  {
    if e.ColumnToggle? { ToggleKnown(s, e.id, e.visible); }
  }

  lemma PresentationKnown(s: Ready, e: Event)
    requires Names(s) && GroupsFound(s.graph) && Presentation(s, e).Some?
    ensures Presentation(s, e).value.Ok? <==> Accepted(s, e)
    ensures Presentation(s, e).value.Ok? ==> StaysKnown(s, Presentation(s, e).value.value)
  {
    match e
    case GroupToggle(id) => if id in s.graph.groups { GroupToggleKnown(s, id); }
    case GroupsExpand(expand) => GroupsExpandKnown(s, expand);
    case ViewReset => InitialKnown(s.graph, s.requestId);
  }

  lemma IntentKnown(s: Ready, e: Event)
    requires Names(s) && Linked(s.graph) && IsIntent(e) && !e.UrlRestore? && !e.UrlFailed? && !e.ViewportObserved?
    ensures ApplyIntent(s, e).Ok? <==> Accepted(s, e)
    ensures ApplyIntent(s, e).Ok? ==> StaysKnown(s, ApplyIntent(s, e).value)
  {
    var clean := s.(notice := None);
    assert Names(clean);
    if Navigate(clean, e).Some? { NavigateKnown(clean, e); }
    else if Reference(clean, e).Some? { ReferenceKnown(clean, e); }
    else if Preferences(clean, e).Some? { PreferencesKnown(clean, e); }
    else { PresentationKnown(clean, e); }
  }

  lemma UrlEventKnown(s: Ready, e: Event)
    requires Names(s) && OwnersAreGroups(s.graph) && (e.UrlRestore? || e.UrlFailed? || e.ViewportObserved?)
    ensures ReadyTransition(s, e).Ok? <==> Accepted(s, e)
    ensures ReadyTransition(s, e).Ok? ==> StaysKnown(s, ReadyTransition(s, e).value)
  {
    if e.UrlRestore? { RestoreUrlKnown(s, e.url); }
  }

  lemma ReadyKnown(s: Ready, e: Event)
    requires Names(s) && Linked(s.graph) && IsIntent(e)
    ensures ReadyTransition(s, e).Ok? <==> Accepted(s, e)
    ensures ReadyTransition(s, e).Ok? ==> StaysKnown(s, ReadyTransition(s, e).value)
  {
    if e.UrlRestore? || e.UrlFailed? || e.ViewportObserved? {
      UrlEventKnown(s, e);
    } else {
      IntentKnown(s, e);
    }
  }

  lemma ReadyStays(s: Ready, e: Event)
    requires Names(s) && Linked(s.graph) && IsIntent(e)
    ensures ReadyTransition(s, e).Ok? ==> StaysKnown(s, ReadyTransition(s, e).value)
  {
    ReadyKnown(s, e);
  }

  lemma IntentKeepsInv(s: State, e: Event)
    requires Inv(s) && IsIntent(e)
    ensures Transition(s, e).Some? && Inv(Transition(s, e).value.0)
  {
    if s.Showing? { ReadyStays(s.ready, e); }
  }

  /** A snapshot is ignored, or replaces a loading state. */
  lemma SnapshotReplaces(s: State, e: Event)
    requires e.SnapshotLoaded? || e.SnapshotFailed?
    ensures Transition(s, e).Some?
    ensures var t := Transition(s, e).value.0;
            t == s || (e.SnapshotLoaded? && t == Showing(InitialReady(e.graph, e.requestId))) || t.Failed?
  {
  }

  lemma SnapshotKeepsInv(s: State, e: Event)
    requires Inv(s) && EventOk(e) && (e.SnapshotLoaded? || e.SnapshotFailed?)
    ensures Transition(s, e).Some? && Inv(Transition(s, e).value.0)
  {
    SnapshotReplaces(s, e);
    if e.SnapshotLoaded? {
      ValidIsLinked(e.graph);
      InitialKnown(e.graph, e.requestId);
    }
  }

  /** Every transition but a raw drawing event keeps the invariant. */
  lemma TransitionKeepsInv(s: State, e: Event)
    requires Inv(s) && EventOk(e)
    ensures Transition(s, e).Some? <==> !IsDrawing(e)
    ensures Transition(s, e).Some? ==> Inv(Transition(s, e).value.0)
  {
    if IsIntent(e) { IntentKeepsInv(s, e); }
    else if !IsDrawing(e) { SnapshotKeepsInv(s, e); }
  }

  /** A refused event changes the notice and nothing else, writes no URL, and is refused exactly when it asks for what is not there. */
  lemma RefusedIff(s: Ready, e: Event)
    requires Names(s) && Linked(s.graph) && IsIntent(e)
    ensures Transition(Showing(s), e).Some?
    ensures Accepted(s, e) <==> ReadyTransition(s, e).Ok?
    ensures Accepted(s, e) ==> Transition(Showing(s), e).value.0 == Showing(ReadyTransition(s, e).value)
    ensures !Accepted(s, e) ==> exists m :: Transition(Showing(s), e) == Some((Showing(s.(notice := Some(m))), None))
  {
    ReadyKnown(s, e);
    if !Accepted(s, e) {
      var m := ReadyTransition(s, e).error;
      assert Transition(Showing(s), e) == Some((Showing(s.(notice := Some(m))), None));
    }
  }

  // ---------- runs ----------

  function Run(s: State, events: seq<Event>): Option<State> {
    if events == [] then Some(s)
    else
      match Run(s, events[..|events| - 1])
      case None => None
      case Some(t) => match Transition(t, events[|events| - 1]) case None => None case Some((next, _)) => Some(next)
  }

  ghost predicate EventsOk(events: seq<Event>) {
    forall e :: e in events ==> EventOk(e) && !IsDrawing(e)
  }

  /** In every state a run from loading reaches, everything the state names exists. */
  lemma {:induction false} ReachableKnown(s: State, events: seq<Event>)
    requires Inv(s) && EventsOk(events)
    ensures Run(s, events).Some? && Inv(Run(s, events).value)
  {
    if events != [] {
      var init, last := events[..|events| - 1], events[|events| - 1];
      SplitLast(events);
      ReachableKnown(s, init);
      TransitionKeepsInv(Run(s, init).value, last);
    }
  }

  /** Once a graph is shown it stays shown, whatever snapshots arrive late. */
  lemma {:induction false} GraphStays(s: Ready, events: seq<Event>)
    requires Known(s) && EventsOk(events)
    ensures Run(Showing(s), events).Some? && Run(Showing(s), events).value.Showing?
    ensures Run(Showing(s), events).value.ready.graph == s.graph
  {
    ReachableKnown(Showing(s), events);
    if events != [] {
      var init, last := events[..|events| - 1], events[|events| - 1];
      SplitLast(events);
      GraphStays(s, init);
      ReachableKnown(Showing(s), init);
      StaysShown(Run(Showing(s), init).value.ready, last);
    }
  }

  lemma IntentIsReady(s: Ready, e: Event)
    requires IsIntent(e)
    ensures var r := ReadyTransition(s, e);
            Transition(Showing(s), e).Some? &&
            Transition(Showing(s), e).value.0 == Showing(if r.Ok? then r.value else s.(notice := Some(r.error)))
  {
  }

  lemma LateSnapshotIgnored(s: Ready, e: Event)
    requires e.SnapshotLoaded? || e.SnapshotFailed?
    ensures Transition(Showing(s), e) == Some((Showing(s), None))
  {
  }

  lemma StaysShown(s: Ready, e: Event)
    requires Linked(s.graph) && Names(s) && !IsDrawing(e)
    ensures Transition(Showing(s), e).Some? && Transition(Showing(s), e).value.0.Showing?
    ensures Transition(Showing(s), e).value.0.ready.graph == s.graph
  {
    if IsIntent(e) {
      ReadyStays(s, e);
      IntentIsReady(s, e);
    } else {
      LateSnapshotIgnored(s, e);
    }
  }
}
