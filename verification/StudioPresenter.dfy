/**
 What the studio shows of a state (packages/studio-ui/src/presenter.lib.ts, map-presenter.lib.ts and
 inspector-presenter.lib.ts).  Every lookup that fails makes the whole presentation fail: None is the thrown
 unknown identity error.
 */
module StudioPresenter {
  import opened Wrappers
  import opened Sequences
  import Ordering
  import opened StudioGraph
  import opened StudioView
  import opened StudioScope
  import opened StudioRelations
  import opened StudioLayout
  import opened StudioMediator
  import E = StudioEdges

  // ---------- the map ----------

  datatype Context = Context(
    graph: Graph, view: View, geometry: Layout, active: set<string>, relations: seq<Relation>, notes: seq<Attachment>)

  ghost function ContextOf(g: Graph, v: View): Option<Context> {
    var relations := ScopeRelations(g, v);
    var origin := match Focus(v) case None => [] case Some(id) => Seeds(g, id);
    match LayoutOf(g, v)
    case None => None
    case Some(geometry) =>
      match Attachments(g, v.options.hiddenColumns, v.options.showTypes)
      case None => None
      case Some(notes) => Some(Context(g, v, geometry, Ends(relations) + (set id | id in origin), relations, notes))
  }

  datatype TagLabel = AppliedLabel(owner: string) | IncomingLabel(owner: string) | OutgoingLabel(expression: string)

  datatype TagModel = TagModel(key: Key, caption: TagLabel, title: seq<E.Title>, dimmed: bool)

  function EventExpression(note: Attachment): string {
    if note.relations != [] && note.relations[0].evidence != [] then note.relations[0].evidence[0] else note.key.target
  }

  function TagLabelOf(g: Graph, note: Attachment): Option<TagLabel> {
    if note.key.target !in g.owners then None
    else
      var owner := g.owners[note.key.target].name;
      Some(if note.key.kind == MiddlewareNote then AppliedLabel(owner)
           else if note.key.incoming then IncomingLabel(owner)
           else OutgoingLabel(EventExpression(note)))
  }

  predicate IsActiveTag(ctx: Context, note: Attachment) {
    exists e :: e in note.relations && if note.key.kind == MiddlewareNote then e.from in ctx.active else e in ctx.relations
  }

  function TagModelOf(ctx: Context, groupDimmed: bool): Attachment -> Option<TagModel> {
    (note: Attachment) =>
      var dimmed := groupDimmed || (note.key.groupId in ctx.view.expanded && ctx.active != {} && !IsActiveTag(ctx, note));
      var caption, title := TagLabelOf(ctx.graph, note), E.RelationTitle(ctx.graph, note.relations);
      if caption.None? || title.None? then None else Some(TagModel(note.key, caption.value, title.value, dimmed))
  }

  const MAX_SAFE_INTEGER := 9007199254740991.0

  function Rank(note: Attachment): real {
    if note.order.Some? then note.order.value else MAX_SAFE_INTEGER
  }

  predicate ByRank(a: Attachment, b: Attachment) {
    Rank(a) <= Rank(b)
  }

  /** In the order a request passes through; tags without an order keep their place after them. */
  function AppliedOrder(notes: seq<Attachment>): seq<Attachment> {
    Ordering.Sort(notes, ByRank)
  }

  datatype DeclarationModel = DeclarationModel(id: string, name: string, top: real, height: real, dimmed: bool, selected: bool)

  function DeclarationModels(ctx: Context, group: Group): seq<DeclarationModel> {
    if group.id !in ctx.view.expanded then []
    else
      var boxes := MemberBoxes(group);
      seq(|boxes|, i requires 0 <= i < |boxes| =>
        DeclarationModel(boxes[i].member.id, boxes[i].member.name, boxes[i].top, boxes[i].height,
                         ctx.active != {} && boxes[i].member.id !in ctx.active, ctx.view.node == Some(boxes[i].member.id)))
  }

  datatype GroupModel = GroupModel(
    id: string, name: string, rect: Rect, expanded: bool, dimmed: bool, selected: bool,
    members: seq<DeclarationModel>, tags: seq<TagModel>)

  predicate IsDimmed(ctx: Context, group: Group) {
    var represented := Seeds(ctx.graph, group.id);
    ctx.active != {} && forall id :: id in represented ==> id !in ctx.active
  }

  function TagModels(ctx: Context, group: Group): Option<seq<TagModel>> {
    Collect(AppliedOrder(Filter(ctx.notes, OnGroup(group.id))), TagModelOf(ctx, IsDimmed(ctx, group)))
  }

  function SelectedUnit(ctx: Context): Option<Option<string>> {
    if ctx.view.node.None? then Some(None) else Wrap(DisplayUnit(ctx.graph, ctx.view, ctx.view.node.value))
  }

  function GroupModelFor(ctx: Context, group: Group): Option<GroupModel> {
    var selected, tags := SelectedUnit(ctx), TagModels(ctx, group);
    if group.id !in ctx.geometry.boxes || selected.None? || tags.None? then None
    else
      Some(GroupModel(group.id, group.name, ctx.geometry.boxes[group.id], group.id in ctx.view.expanded, IsDimmed(ctx, group),
                      selected.value == Some(group.id), DeclarationModels(ctx, group), tags.value))
  }

  function GroupModelOf(ctx: Context): Group -> Option<GroupModel> {
    (group: Group) => GroupModelFor(ctx, group)
  }

  function Wrap(unit: Option<string>): Option<Option<string>> {
    if unit.None? then None else Some(unit)
  }

  datatype Heading = Heading(caption: string, x: real, width: real)

  function TotalWidth(columns: seq<Column>): real {
    if columns == [] then 0.0 else TotalWidth(columns[..|columns| - 1]) + columns[|columns| - 1].width
  }

  function HeadingsOf(columns: seq<Column>): seq<Heading> {
    if columns == [] then []
    else
      var init, last := columns[..|columns| - 1], columns[|columns| - 1];
      HeadingsOf(init) + [Heading(last.caption, TotalWidth(init), last.width)]
  }

  /** The loop over the shown columns, accumulating x a second time. */
  method ComputeHeadings(columns: seq<Column>) returns (headings: seq<Heading>)
    ensures headings == HeadingsOf(columns)
  {
    var x := 0.0;
    headings := [];
    for i := 0 to |columns|
      invariant headings == HeadingsOf(columns[..i]) && x == TotalWidth(columns[..i])
    {
      assert columns[..i + 1][..i] == columns[..i];
      headings := headings + [Heading(columns[i].caption, x, columns[i].width)];
      x := x + columns[i].width;
    }
    assert columns[..|columns|] == columns;
  }

  function ShownIn(v: View): Column -> bool {
    (c: Column) => Shown(c, v)
  }

  function OnMapIn(options: Options): Group -> bool {
    (group: Group) => IsOnMap(group, options)
  }

  function TypesAllowed(v: View): Relation -> bool {
    (e: Relation) => v.options.showTypes || RelationKind(e) != "type"
  }

  function PartOf(g: Graph, hidden: seq<string>): Relation -> Option<Part> {
    (e: Relation) => RelationPart(g, e, hidden)
  }

  function IsWire(g: Graph, hidden: seq<string>): Relation -> bool {
    (e: Relation) => RelationPart(g, e, hidden) == Some(Wires)
  }

  datatype MapModel = MapModel(
    width: real, height: real, columns: seq<Heading>, groups: seq<GroupModel>, edges: seq<E.EdgeModel>,
    summary: Option<string>, inScope: nat)

  ghost function PresentMap(g: Graph, v: View): Option<MapModel> {
    match ContextOf(g, v)
    case None => None
    case Some(ctx) =>
      var hidden := v.options.hiddenColumns;
      var allowed := Filter(ctx.relations, TypesAllowed(v));
      if Collect(allowed, PartOf(g, hidden)).None? then None
      else
        var edges := E.ProjectEdges(g, v, ctx.geometry, Filter(allowed, IsWire(g, hidden)));
        var groups := Collect(Filter(g.source.groups, OnMapIn(v.options)), GroupModelOf(ctx));
        var summary := if v.node.Some? && v.node.value != "" then E.SubjectOf(g, v.node.value) else None;
        if edges.None? || groups.None? || (v.node.Some? && v.node.value != "" && summary.None?) then None
        else
          Some(MapModel(ctx.geometry.width, ctx.geometry.height, HeadingsOf(Filter(g.source.columns, ShownIn(v))),
                        groups.value, edges.value, if summary.Some? then Some(E.NameOf(summary.value)) else None, |allowed|))
  }

  // ---------- the inspector ----------

  datatype Target = Target(id: string, name: string)

  datatype SetupRow = SetupRow(owner: Option<string>, provider: string, kind: string, caption: string, target: Option<Target>)

  function SetupRowOf(g: Graph, owner: Option<string>): SetupItem -> Option<SetupRow> {
    (item: SetupItem) =>
      if item.target.None? then Some(SetupRow(owner, item.provider, item.kind, item.caption, None))
      else
        match E.SubjectOf(g, item.target.value)
        case None => None
        case Some(target) =>
          Some(SetupRow(owner, item.provider, item.kind, item.caption, Some(Target(item.target.value, E.NameOf(target)))))
  }

  function SetupRows(g: Graph, owner: Option<string>, items: seq<SetupItem>): Option<seq<SetupRow>> {
    Collect(items, SetupRowOf(g, owner))
  }

  function MemberSetupRows(g: Graph): Declaration -> Option<seq<SetupRow>> {
    (d: Declaration) => SetupRows(g, Some(d.name), d.setup)
  }

  function Concat<T>(parts: seq<seq<T>>): seq<T> {
    if parts == [] then [] else Concat(parts[..|parts| - 1]) + parts[|parts| - 1]
  }

  datatype Inspector = Inspector(id: string, name: string, members: seq<string>, setup: seq<SetupRow>)

  function DeclarationIds(ds: seq<Declaration>): seq<string> {
    seq(|ds|, i requires 0 <= i < |ds| => ds[i].id)
  }

  function InspectGroup(g: Graph, group: Group): Option<Inspector> {
    var declarations := SourceOrderedMembers(group);
    var own, theirs := SetupRows(g, None, group.setup), Collect(declarations, MemberSetupRows(g));
    if own.None? || theirs.None? then None
    else Some(Inspector(group.id, group.name, DeclarationIds(declarations), own.value + Concat(theirs.value)))
  }

  function InspectDeclaration(g: Graph, d: Declaration): Option<Inspector> {
    match SetupRows(g, None, d.setup)
    case None => None
    case Some(rows) => Some(Inspector(d.id, d.name, [], rows))
  }

  /** What is shown of the selected subject; nothing when none is selected. */
  function PresentInspector(g: Graph, node: Option<string>): Option<Option<Inspector>> {
    match node
    case None => Some(None)
    case Some(id) =>
      if E.SubjectOf(g, id).None? || id !in g.owners then None
      else
        match if id in g.groups then InspectGroup(g, g.groups[id])
              else if id in g.declarations then InspectDeclaration(g, g.declarations[id])
              else None
        case None => None
        case Some(inspector) => Some(Some(inspector))
  }

  // ---------- toolbar, controls and command ----------

  datatype SearchText = SearchText(caption: string, hints: seq<string>, filePath: string)

  /** How a query matches; any way will do. */
  type Search = (string, SearchText) -> bool

  datatype SearchResult = SearchResult(id: string, text: SearchText)

  function GroupResult(g: Graph): Group -> Option<SearchResult> {
    (group: Group) => Some(SearchResult(group.id, SearchText(group.name, group.hints, group.filePath)))
  }

  function DeclarationResult(g: Graph): Declaration -> Option<SearchResult> {
    (d: Declaration) =>
      if d.id in g.groups then Some(SearchResult(d.id, SearchText(d.name, d.hints, d.filePath)))
      else if d.id !in g.owners then None
      else Some(SearchResult(d.id, SearchText(g.owners[d.id].name + "#" + d.name, d.hints, d.filePath)))
  }

  function Matching(search: Search, query: string): SearchResult -> bool {
    (r: SearchResult) => search(query, r.text)
  }

  datatype Toolbar = Toolbar(query: string, searchCount: nat, results: seq<SearchResult>)

  const RESULT_LIMIT: nat := 40

  function ToolbarOf(s: Ready, search: Search): Option<Toolbar> {
    var g := s.graph;
    match Collect(g.source.groups, GroupResult(g))
    case None => None
    case Some(groups) =>
      match Collect(Members(g.source), DeclarationResult(g))
      case None => None
      case Some(declarations) =>
        var found := Filter(groups + declarations, Matching(search, s.view.query));
        Some(Toolbar(s.view.query, |found|, if |found| <= RESULT_LIMIT then found else found[..RESULT_LIMIT]))
  }

  datatype ColumnControl = ColumnControl(id: string, caption: string, visible: bool)

  datatype Controls = Controls(mode: Mode, locked: bool, canLock: bool, origin: Option<string>, columns: seq<ColumnControl>, canBack: bool)

  function ControlsOf(s: Ready): Option<Controls> {
    var v, g := s.view, s.graph;
    var name := match Focus(v) case None => Some(None) case Some(id) => NameOrFail(E.SubjectOf(g, id));
    if name.None? then None
    else
      Some(Controls(v.scope.mode, v.scope.Locked?, v.scope.Locked? || v.node.Some?, name.value,
                    seq(|g.source.columns|, i requires 0 <= i < |g.source.columns| =>
                      ColumnControl(g.source.columns[i].id, g.source.columns[i].caption, Shown(g.source.columns[i], v))),
                    s.history != []))
  }

  function NameOrFail(subject: Option<E.Subject>): Option<Option<string>> {
    match subject
    case None => None
    case Some(found) => Some(Some(E.NameOf(found)))
  }

  datatype ViewportCommand =
    | ShowRect(sequence: nat, rect: Rect)
    | RestoreViewport(sequence: nat, viewport: Viewport)
    | ResetViewport(sequence: nat)

  function CommandOf(s: Ready): Option<Option<ViewportCommand>> {
    match s.command
    case None => Some(None)
    case Some(Restore(n, viewport)) => Some(Some(RestoreViewport(n, viewport)))
    case Some(Reset(n)) => Some(Some(ResetViewport(n)))
    case Some(Locate(n, id)) =>
      match LayoutOf(s.graph, s.view)
      case None => None
      case Some(geometry) => match Position(s.graph, s.view, geometry, id) case None => None case Some(r) => Some(Some(ShowRect(n, r)))
  }

  // ---------- the whole ----------

  datatype Root =
    | LoadingModel
    | ErrorModel(message: Message)
    | ReadyModel(
        toolbar: Toolbar, controls: Controls, graph: MapModel, command: Option<ViewportCommand>,
        inspector: Option<Inspector>, tab: Tab, help: bool, notice: Option<Message>, declarationCount: nat, groupCount: nat)

  ghost function Present(s: State, search: Search): Option<Root> {
    match s
    case Loading(_) => Some(LoadingModel)
    case Failed(_, message) => Some(ErrorModel(message))
    case Showing(r) =>
      var toolbar, controls, graph := ToolbarOf(r, search), ControlsOf(r), PresentMap(r.graph, r.view);
      var command, inspector := CommandOf(r), PresentInspector(r.graph, r.view.node);
      if toolbar.None? || controls.None? || graph.None? || command.None? || inspector.None? then None
      else
        Some(ReadyModel(toolbar.value, controls.value, graph.value, command.value, inspector.value,
                        r.view.tab, r.help, r.notice, |r.graph.declarations|, |r.graph.groups|))
  }
}
