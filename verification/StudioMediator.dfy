/**
 The studio's state machine (packages/studio-ui/src/state.lib.ts, navigation.lib.ts, preferences.lib.ts and
 mediator.lib.ts): every event either gives a new state or is refused with a notice.
 */
module StudioMediator {
  import opened Wrappers
  import opened Sequences
  import opened StudioGraph
  import opened StudioView
  import opened StudioScope
  import opened StudioRelations

  datatype Message =
    | UnknownIdentity(id: string)
    | UnknownColumn(id: string)
    | NothingToLock
    | NoHistory
    | NoSuchTag
    | NotReady
    | Text(text: string)

  datatype HistoryItem = HistoryItem(view: View, viewport: Viewport)

  datatype Command =
    | Locate(sequence: nat, id: string)
    | Restore(sequence: nat, viewport: Viewport)
    | Reset(sequence: nat)

  datatype Ready = Ready(
    requestId: int, graph: Graph, view: View, help: bool, history: seq<HistoryItem>,
    viewport: Viewport, command: Option<Command>, notice: Option<Message>)

  datatype State = Loading(requestId: int) | Failed(requestId: int, message: Message) | Showing(ready: Ready)

  datatype Url = Url(node: Option<string>, root: Option<string>, mode: Mode, tab: Tab)

  datatype Event =
    | SubjectSelect(id: string)
    | SubjectFind(id: string)
    | SubjectLocate(id: string)
    | ScopeMode(mode: Mode)
    | ScopeLock(locked: bool)
    | ScopeStart(id: string)
    | GroupToggle(id: string)
    | GroupsExpand(expanded: bool)
    | OptionsChange(showTypes: bool, showCounts: bool)
    | ColumnToggle(id: string, visible: bool)
    | SearchChange(query: string)
    | InspectorTab(tab: Tab)
    | TagActivate(key: Key)
    | ReferenceBack
    | HelpSet(isOpen: bool)
    | ViewReset
    | ViewportPan
    | ViewportZoom
    | ViewportObserved(viewport: Viewport)
    | SnapshotLoaded(requestId: int, graph: Graph)
    | SnapshotFailed(requestId: int, message: Message)
    | UrlRestore(url: Url)
    | UrlFailed(message: Message)

  // ---------- views ----------

  function IsHidden(): Column -> bool {
    (c: Column) => c.initiallyHidden
  }

  function ColumnIds(columns: seq<Column>): seq<string> {
    seq(|columns|, i requires 0 <= i < |columns| => columns[i].id)
  }

  function InitialView(g: Graph): View {
    View(None, Following(Near), ContractTab, [],
         Options(true, true, ColumnIds(Filter(g.source.columns, IsHidden()))), "")
  }

  function InitialReady(g: Graph, requestId: int): Ready {
    Ready(requestId, g, InitialView(g), false, [], Viewport(1.0, Rect(0.0, 0.0, 0.0, 0.0)), None, None)
  }

  function OtherThan(id: string): string -> bool {
    (x: string) => x != id
  }

  /** Reaching a subject opens its group when it is a member, and shows its column. */
  function Reveal(s: Ready, id: string): Result<View, Message> {
    if id !in s.graph.owners then Err(UnknownIdentity(id))
    else
      var owner, v := s.graph.owners[id], s.view;
      Ok(v.(
        expanded := if id in s.graph.declarations then Dedup(v.expanded + [owner.id]) else v.expanded,
        options := v.options.(hiddenColumns := Filter(v.options.hiddenColumns, OtherThan(owner.columnId)))))
  }

  function Select(s: Ready, id: string): Result<Ready, Message> {
    match Reveal(s, id)
    case Err(e) => Err(e)
    case Ok(v) => Ok(s.(view := v.(node := Some(id), tab := ContractTab, query := "")))
  }

  function NextSequence(s: Ready): nat {
    (if s.command.Some? then s.command.value.sequence else 0) + 1
  }

  function LocateSubject(s: Ready, id: string): Result<Ready, Message> {
    match Reveal(s, id)
    case Err(e) => Err(e)
    case Ok(v) => Ok(s.(view := v, command := Some(Locate(NextSequence(s), id))))
  }

  /** Selecting and then locating. */
  function Visit(s: Ready, id: string): Result<Ready, Message> {
    match Select(s, id)
    case Err(e) => Err(e)
    case Ok(selected) => LocateSubject(selected, id)
  }

  function StartScope(s: Ready, id: string): Result<Ready, Message> {
    match Select(s, id)
    case Err(e) => Err(e)
    case Ok(selected) => Ok(selected.(view := selected.view.(scope := Locked(Flow, id))))
  }

  predicate IsColumn(g: Graph, id: string) {
    exists i :: 0 <= i < |g.source.columns| && g.source.columns[i].id == id
  }

  function ToggleColumn(s: Ready, id: string, visible: bool): Result<Ready, Message> {
    if !IsColumn(s.graph, id) then Err(UnknownColumn(id))
    else
      var rest := Filter(s.view.options.hiddenColumns, OtherThan(id));
      Ok(s.(view := s.view.(options := s.view.options.(hiddenColumns := if visible then rest else rest + [id]))))
  }

  function UrlState(v: View): Url {
    Url(v.node, if v.scope.Locked? then Some(v.scope.anchor) else None, v.scope.mode, v.tab)
  }

  function RestoreUrl(s: Ready, url: Url): Result<Ready, Message> {
    if url.root.Some? && url.root.value !in s.graph.owners then Err(UnknownIdentity(url.root.value))
    else
      match if url.node.None? then Ok(s) else Visit(s, url.node.value)
      case Err(e) => Err(e)
      case Ok(selected) =>
        var scope := if url.root.None? then Following(url.mode) else Locked(url.mode, url.root.value);
        Ok(selected.(notice := None, view := selected.view.(node := url.node, tab := url.tab, scope := scope)))
  }

  // ---------- navigation ----------

  function Lock(s: Ready, locked: bool): Result<Ready, Message> {
    if !locked then Ok(s.(view := s.view.(scope := Following(s.view.scope.mode))))
    else
      match Focus(s.view)
      case None => Err(NothingToLock)
      case Some(id) =>
        if id !in s.graph.owners then Err(UnknownIdentity(id))
        else Ok(s.(view := s.view.(scope := Locked(s.view.scope.mode, id))))
  }

  function Jump(s: Ready, id: string): Result<Ready, Message> {
    match Visit(s, id)
    case Err(e) => Err(e)
    case Ok(next) => Ok(next.(history := s.history + [HistoryItem(s.view, s.viewport)]))
  }

  function Back(s: Ready): Result<Ready, Message> {
    if s.history == [] then Err(NoHistory)
    else
      var previous := s.history[|s.history| - 1];
      Ok(s.(view := previous.view, history := s.history[..|s.history| - 1],
            command := Some(Restore(NextSequence(s), previous.viewport))))
  }

  function VisibleTags(s: Ready): Option<seq<Attachment>> {
    Attachments(s.graph, s.view.options.hiddenColumns, s.view.options.showTypes)
  }

  function ActivateTag(s: Ready, key: Key): Result<Ready, Message> {
    match VisibleTags(s)
    case None => Err(Text("unknown identity"))
    case Some(notes) =>
      match Find(notes, key)
      case None => Err(NoSuchTag)
      case Some(note) => Jump(s, note.key.target)
  }

  /** None when the event is not about navigation. */
  function Navigate(s: Ready, e: Event): Option<Result<Ready, Message>> {
    match e
    case SubjectSelect(id) => Some(Select(s, id))
    case SubjectFind(id) => Some(Visit(s, id))
    case SubjectLocate(id) => Some(LocateSubject(s, id))
    case ScopeStart(id) => Some(StartScope(s, id))
    case ScopeLock(locked) => Some(Lock(s, locked))
    case _ => None
  }

  function Reference(s: Ready, e: Event): Option<Result<Ready, Message>> {
    match e
    case ReferenceBack => Some(Back(s))
    case TagActivate(key) => Some(ActivateTag(s, key))
    case _ => None
  }

  // ---------- preferences ----------

  function Preferences(s: Ready, e: Event): Option<Result<Ready, Message>> {
    match e
    case ScopeMode(mode) => Some(Ok(s.(view := s.view.(scope := s.view.scope.(mode := mode)))))
    case OptionsChange(showTypes, showCounts) =>
      Some(Ok(s.(view := s.view.(options := s.view.options.(showTypes := showTypes, showCounts := showCounts)))))
    case ColumnToggle(id, visible) => Some(ToggleColumn(s, id, visible))
    case SearchChange(query) => Some(Ok(s.(view := s.view.(query := query))))
    case InspectorTab(tab) => Some(Ok(s.(view := s.view.(tab := tab))))
    case HelpSet(isOpen) => Some(Ok(s.(help := isOpen)))
    case _ => None
  }

  function GroupIds(groups: seq<Group>): seq<string> {
    seq(|groups|, i requires 0 <= i < |groups| => groups[i].id)
  }

  function Presentation(s: Ready, e: Event): Option<Result<Ready, Message>> {
    match e
    case GroupToggle(id) =>
      if id !in s.graph.groups then Some(Err(UnknownIdentity(id)))
      else
        var expanded := s.view.expanded;
        Some(Ok(s.(view := s.view.(expanded := if id in expanded then Filter(expanded, OtherThan(id)) else expanded + [id]))))
    case GroupsExpand(expand) =>
      Some(Ok(s.(view := s.view.(expanded := if expand then GroupIds(s.graph.source.groups) else []),
                 command := Some(Restore(NextSequence(s), s.viewport.(rect := s.viewport.rect.(x := 0.0, y := 0.0)))))))
    case ViewReset => Some(Ok(InitialReady(s.graph, s.requestId).(command := Some(Reset(NextSequence(s))))))
    case _ => None
  }

  // ---------- the mediator ----------

  function ApplyIntent(s: Ready, e: Event): Result<Ready, Message> {
    var clean := s.(notice := None);
    match Navigate(clean, e)
    case Some(r) => r
    case None =>
      match Reference(clean, e)
      case Some(r) => r
      case None =>
        match Preferences(clean, e)
        case Some(r) => r
        case None => match Presentation(clean, e) case Some(r) => r case None => Err(Text("unhandled intent"))
  }

  function ReadyTransition(s: Ready, e: Event): Result<Ready, Message> {
    match e
    case UrlRestore(url) => RestoreUrl(s, url)
    case UrlFailed(message) => Ok(s.(notice := Some(message)))
    case ViewportObserved(viewport) => Ok(s.(viewport := viewport))
    case _ => ApplyIntent(s, e)
  }

  function Apply(s: State, e: Event): Result<State, Message> {
    match e
    case SnapshotLoaded(requestId, graph) => Ok(Showing(InitialReady(graph, requestId)))
    case SnapshotFailed(_, message) => Ok(Failed(RequestId(s), message))
    case _ =>
      if !s.Showing? then Err(NotReady)
      else match ReadyTransition(s.ready, e) case Ok(next) => Ok(Showing(next)) case Err(m) => Err(m)
  }

  function RequestId(s: State): int {
    if s.Showing? then s.ready.requestId else s.requestId
  }

  predicate Obsolete(s: State, e: Event) {
    match e
    case SnapshotLoaded(requestId, _) => requestId != RequestId(s) || !s.Loading?
    case SnapshotFailed(requestId, _) => requestId != RequestId(s) || !s.Loading?
    case _ => false
  }

  /** The URL to write, if any. */
  function UrlEffect(before: State, after: State, e: Event): Option<Url> {
    if !after.Showing? || !before.Showing? || e.UrlRestore? then None
    else
      var url := UrlState(after.ready.view);
      if e.ViewReset? || url != UrlState(before.ready.view) then Some(url) else None
  }

  predicate IsDrawing(e: Event) {
    e.ViewportPan? || e.ViewportZoom?
  }

  function Refuse(s: State, m: Message): State {
    if s.Showing? then Showing(s.ready.(notice := Some(m))) else Failed(RequestId(s), m)
  }

  /** None is an error thrown to the caller, which only raw drawing events provoke. */
  function Transition(s: State, e: Event): Option<(State, Option<Url>)> {
    if IsDrawing(e) then None
    else if Obsolete(s, e) then Some((s, None))
    else
      match Apply(s, e)
      case Ok(next) => Some((next, UrlEffect(s, next, e)))
      case Err(m) => Some((Refuse(s, m), None))
  }
}
