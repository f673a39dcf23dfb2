/** What is shown agrees with the layout and with itself, and every control it offers is accepted. */
module StudioDisplayProofs {
  import opened Wrappers
  import opened Sequences
  import Ordering
  import opened StudioGraph
  import opened StudioView
  import opened StudioScope
  import opened StudioRelations
  import opened StudioLayout
  import opened StudioLayoutProofs
  import opened StudioMediator
  import opened StudioMediatorProofs
  import opened StudioPresenter
  import opened StudioPresenterProofs
  import E = StudioEdges

  // ---------- the groups shown ----------

  function VisibleGroups(g: Graph, v: View): seq<Group> {
    Filter(g.source.groups, OnMapIn(v.options))
  }

  /** The parts of a presented map. */
  lemma MapParts(g: Graph, v: View)
    requires PresentMap(g, v).Some?
    ensures ContextOf(g, v).Some? && Collect(VisibleGroups(g, v), GroupModelOf(ContextOf(g, v).value)) == Some(PresentMap(g, v).value.groups)
    ensures var ctx := ContextOf(g, v).value;
            E.ProjectEdges(g, v, ctx.geometry, Filter(Filter(ctx.relations, TypesAllowed(v)), IsWire(g, v.options.hiddenColumns)))
            == Some(PresentMap(g, v).value.edges)
  {
  }

  /** Where a shown group comes from. */
  lemma ShownGroup(ctx: Context, v: View, groups: seq<GroupModel>, shown: GroupModel) returns (group: Group)
    requires Collect(VisibleGroups(ctx.graph, v), GroupModelOf(ctx)) == Some(groups) && shown in groups
    ensures group in ctx.graph.source.groups && IsOnMap(group, v.options) && GroupModelFor(ctx, group) == Some(shown)
  {
    var visible := VisibleGroups(ctx.graph, v);
    Collected(visible, GroupModelOf(ctx));
    var i :| 0 <= i < |groups| && groups[i] == shown;
    group := visible[i];
    assert group in visible;
    FilterMember(ctx.graph.source.groups, OnMapIn(v.options), group);
  }

  /** The map shows the groups of the visible columns, in graph order, each in the box the layout gave it. */
  lemma MapShowsVisible(g: Graph, v: View, i: nat)
    requires Linked(g) && KnownView(g, v) && PresentMap(g, v).Some? && i < |VisibleGroups(g, v)|
    ensures LayoutOf(g, v).Some? && |PresentMap(g, v).value.groups| == |VisibleGroups(g, v)|
    ensures var shown, group, boxes := PresentMap(g, v).value.groups[i], VisibleGroups(g, v)[i], LayoutOf(g, v).value.boxes;
            shown.id == group.id && group.id in boxes && shown.rect == boxes[group.id]
  {
    ContextIsKnown(g, v);
    MapParts(g, v);
    var ctx := ContextOf(g, v).value;
    Collected(VisibleGroups(g, v), GroupModelOf(ctx));
  }

  lemma RowIsMember(group: Group, i: nat)
    requires i < |MemberBoxes(group)|
    ensures MemberBoxes(group)[i].member in group.members
  {
    var members := SourceOrderedMembers(group);
    if members != [] { BoxAt(members, HEADER_HEIGHT, 0); }
    BoxAt(members, HEADER_HEIGHT, i);
    Ordering.SortCounts(group.members, MemberOrder);
    assert members[i] in multiset(members);
  }

  // ---------- what is shown names what the graph has ----------

  /** A shown group, its rows and its tags. */
  ghost predicate GroupModelNames(s: Ready, shown: GroupModel) {
    && shown.id in s.graph.groups && shown.id in s.graph.owners
    && (forall row :: row in shown.members ==> row.id in s.graph.owners)
    && (forall tag :: tag in shown.tags ==> HasTag(s, tag.key))
  }

  ghost predicate InspectorNames(s: Ready, inspector: Option<Inspector>) {
    inspector.Some? ==>
      && inspector.value.id in s.graph.owners
      && (forall id :: id in inspector.value.members ==> id in s.graph.owners)
      && (forall row :: row in inspector.value.setup && row.target.Some? ==> row.target.value.id in s.graph.owners)
  }

  ghost predicate ControlsNames(s: Ready, controls: Controls) {
    && (controls.canLock ==> controls.locked || Focus(s.view).Some?) && (controls.canBack ==> s.history != [])
    && (forall c :: c in controls.columns ==> IsColumn(s.graph, c.id))
  }

  ghost predicate RootNames(s: Ready, root: Root) {
    && root.ReadyModel?
    && (forall shown :: shown in root.graph.groups ==> GroupModelNames(s, shown))
    && InspectorNames(s, root.inspector) && ControlsNames(s, root.controls)
    && (forall r :: r in root.toolbar.results ==> r.id in s.graph.owners)
  }

  lemma ShownRow(ctx: Context, group: Group, row: DeclarationModel)
    requires row in DeclarationModels(ctx, group)
    ensures exists d :: d in group.members && d.id == row.id
  {
    var i :| 0 <= i < |MemberBoxes(group)| && DeclarationModels(ctx, group)[i] == row;
    RowIsMember(group, i);
  }

  lemma ShownTag(ctx: Context, group: Group, tag: TagModel)
    requires TagModels(ctx, group).Some? && tag in TagModels(ctx, group).value
    ensures exists note :: note in ctx.notes && note.key == tag.key && note.key.groupId == group.id
  {
    var notes := AppliedOrder(Filter(ctx.notes, OnGroup(group.id)));
    Collected(notes, TagModelOf(ctx, IsDimmed(ctx, group)));
    var i :| 0 <= i < |notes| && TagModels(ctx, group).value[i] == tag;
    TagsOfGroup(ctx, group, notes[i]);
  }

  /** A tag that is shown leads on: activating it is accepted. */
  lemma NotedTagLeads(s: Ready, note: Attachment)
    requires Linked(s.graph) && VisibleTags(s).Some? && note in VisibleTags(s).value
    ensures HasTag(s, note.key)
  {
    TagShownIff(s, note.key);
    FindMember(VisibleTags(s).value, note.key);
  }

  lemma GroupModelIsKnown(s: Ready, ctx: Context, group: Group)
    requires Linked(s.graph) && ctx.graph == s.graph && VisibleTags(s) == Some(ctx.notes)
    requires group in s.graph.source.groups && GroupModelFor(ctx, group).Some?
    ensures GroupModelNames(s, GroupModelFor(ctx, group).value)
  {
    var shown := GroupModelFor(ctx, group).value;
    forall row | row in shown.members ensures row.id in s.graph.owners {
      ShownRow(ctx, group, row);
      var d :| d in group.members && d.id == row.id;
    }
    forall tag | tag in shown.tags ensures HasTag(s, tag.key) {
      ShownTag(ctx, group, tag);
      var note :| note in ctx.notes && note.key == tag.key;
      NotedTagLeads(s, note);
    }
  }

  lemma MapNames(s: Ready, shown: GroupModel)
    requires Linked(s.graph) && KnownView(s.graph, s.view)
    requires PresentMap(s.graph, s.view).Some? && shown in PresentMap(s.graph, s.view).value.groups
    ensures GroupModelNames(s, shown)
  {
    MapParts(s.graph, s.view);
    var ctx := ContextOf(s.graph, s.view).value;
    var group := ShownGroup(ctx, s.view, PresentMap(s.graph, s.view).value.groups, shown);
    GroupModelIsKnown(s, ctx, group);
  }

  lemma ResultOwned(s: Ready, search: Search, r: SearchResult)
    requires Linked(s.graph) && ToolbarOf(s, search).Some? && r in ToolbarOf(s, search).value.results
    ensures r.id in s.graph.owners
  {
    var g := s.graph;
    var groups, declarations := Collect(g.source.groups, GroupResult(g)).value, Collect(Members(g.source), DeclarationResult(g)).value;
    assert r in Filter(groups + declarations, Matching(search, s.view.query));
    FilterMember(groups + declarations, Matching(search, s.view.query), r);
    if r in groups { GroupResultOwned(g, r); } else { DeclarationResultOwned(g, r); }
  }

  lemma GroupResultOwned(g: Graph, r: SearchResult)
    requires Linked(g) && Collect(g.source.groups, GroupResult(g)).Some? && r in Collect(g.source.groups, GroupResult(g)).value
    ensures r.id in g.owners
  {
    Collected(g.source.groups, GroupResult(g));
    var i :| 0 <= i < |g.source.groups| && Collect(g.source.groups, GroupResult(g)).value[i] == r;
  }

  lemma DeclarationResultOwned(g: Graph, r: SearchResult)
    requires Linked(g) && Collect(Members(g.source), DeclarationResult(g)).Some?
    requires r in Collect(Members(g.source), DeclarationResult(g)).value
    ensures r.id in g.owners
  {
    Collected(Members(g.source), DeclarationResult(g));
    var i :| 0 <= i < |Members(g.source)| && Collect(Members(g.source), DeclarationResult(g)).value[i] == r;
    ListedMemberOwned(g, Members(g.source)[i]);
  }

  lemma ListedMemberOwned(g: Graph, d: Declaration)
    requires Linked(g) && d in Members(g.source)
    ensures d.id in g.owners
  {
    FlatMapMember(g.source.groups, MembersOf, d);
    var group :| group in g.source.groups && d in MembersOf(group);
  }

  lemma RowTargetOwned(g: Graph, owner: Option<string>, items: seq<SetupItem>, row: SetupRow)
    requires ReferencesFound(g) && SetupRows(g, owner, items).Some? && row in SetupRows(g, owner, items).value && row.target.Some?
    requires forall item :: item in items ==> item in Setup(g.source)
    ensures row.target.value.id in g.owners
  {
    Collected(items, SetupRowOf(g, owner));
    var i :| 0 <= i < |items| && SetupRows(g, owner, items).value[i] == row;
    assert items[i] in items;
  }

  lemma {:induction false} ConcatMember<T>(parts: seq<seq<T>>, x: T)
    requires x in Concat(parts)
    ensures exists i :: 0 <= i < |parts| && x in parts[i]
  {
    if x in parts[|parts| - 1] {
    } else {
      ConcatMember(parts[..|parts| - 1], x);
    }
  }

  lemma GroupRowOwned(g: Graph, group: Group, row: SetupRow)
    requires Linked(g) && group in g.source.groups && InspectGroup(g, group).Some?
    requires row in InspectGroup(g, group).value.setup && row.target.Some?
    ensures row.target.value.id in g.owners
  {
    var members := SourceOrderedMembers(group);
    var own, theirs := SetupRows(g, None, group.setup).value, Collect(members, MemberSetupRows(g)).value;
    if row in own {
      GroupSetupKnown(g, group);
      RowTargetOwned(g, None, group.setup, row);
    } else {
      ConcatMember(theirs, row);
      var i :| 0 <= i < |theirs| && row in theirs[i];
      Collected(members, MemberSetupRows(g));
      Ordering.SortCounts(group.members, MemberOrder);
      assert members[i] in multiset(members);
      MemberSetupKnown(g, group, members[i]);
      RowTargetOwned(g, Some(members[i].name), members[i].setup, row);
    }
  }

  lemma InspectorIsKnown(s: Ready)
    requires Linked(s.graph) && (s.view.node.Some? ==> s.view.node.value in s.graph.owners)
    requires PresentInspector(s.graph, s.view.node).Some?
    ensures InspectorNames(s, PresentInspector(s.graph, s.view.node).value)
  {
    if s.view.node.Some? {
      var id := s.view.node.value;
      OwnerIsGroup(s.graph, id);
      if id in s.graph.groups {
        InspectedGroupNames(s, s.graph.groups[id]);
      } else {
        InspectedDeclarationNames(s, s.graph.owners[id], s.graph.declarations[id]);
      }
    }
  }

  lemma InspectedDeclarationNames(s: Ready, group: Group, d: Declaration)
    requires Linked(s.graph) && group in s.graph.source.groups && d in group.members && InspectDeclaration(s.graph, d).Some?
    ensures InspectorNames(s, InspectDeclaration(s.graph, d))
  {
    MemberSetupKnown(s.graph, group, d);
    forall row | row in InspectDeclaration(s.graph, d).value.setup && row.target.Some?
      ensures row.target.value.id in s.graph.owners
    {
      RowTargetOwned(s.graph, None, d.setup, row);
    }
  }

  lemma InspectedGroupNames(s: Ready, group: Group)
    requires Linked(s.graph) && group in s.graph.source.groups && InspectGroup(s.graph, group).Some?
    ensures InspectorNames(s, InspectGroup(s.graph, group))
  {
    var inspector, members := InspectGroup(s.graph, group).value, SourceOrderedMembers(group);
    Ordering.SortCounts(group.members, MemberOrder);
    forall id | id in inspector.members ensures id in s.graph.owners {
      var i :| 0 <= i < |members| && DeclarationIds(members)[i] == id;
      assert members[i] in multiset(members);
    }
    forall row | row in inspector.setup && row.target.Some? ensures row.target.value.id in s.graph.owners {
      GroupRowOwned(s.graph, group, row);
    }
  }

  ghost predicate Shows(s: Ready, search: Search, root: Root) {
    root.ReadyModel? && Present(Showing(s), search) == Some(root)
  }

  lemma ShowsParts(s: Ready, search: Search, root: Root)
    requires Shows(s, search, root)
    ensures ToolbarOf(s, search) == Some(root.toolbar) && ControlsOf(s) == Some(root.controls)
    ensures PresentMap(s.graph, s.view) == Some(root.graph) && PresentInspector(s.graph, s.view.node) == Some(root.inspector)
  {
  }

  /** Everything a presentation names is something the graph has. */
  lemma ShownIsKnown(s: Ready, search: Search, root: Root)
    requires Linked(s.graph) && KnownView(s.graph, s.view) && Shows(s, search, root)
    ensures RootNames(s, root)
  {
    ShowsParts(s, search, root);
    forall shown | shown in root.graph.groups ensures GroupModelNames(s, shown) { MapNames(s, shown); }
    forall r | r in root.toolbar.results ensures r.id in s.graph.owners { ResultOwned(s, search, r); }
    InspectorIsKnown(s);
  }

  // ---------- what is offered ----------

  /** A group's box or one of its rows. */
  ghost predicate ShowsSubject(m: MapModel, id: string) {
    exists shown :: shown in m.groups && (shown.id == id || exists row :: row in shown.members && row.id == id)
  }

  ghost predicate Inspects(inspector: Option<Inspector>, id: string) {
    inspector.Some? &&
    (id in inspector.value.members || exists row :: row in inspector.value.setup && row.target.Some? && row.target.value.id == id)
  }

  /** The events the views can send from what they are given. */
  ghost predicate Offered(root: Root, e: Event)
    requires root.ReadyModel?
  {
    match e
    case SubjectSelect(id) => ShowsSubject(root.graph, id) || Inspects(root.inspector, id)
    case SubjectFind(id) => (exists r :: r in root.toolbar.results && r.id == id) || ShowsSubject(root.graph, id)
    case SubjectLocate(id) => root.inspector.Some? && root.inspector.value.id == id
    case ScopeStart(id) => root.inspector.Some? && root.inspector.value.id == id
    case ScopeLock(locked) => root.controls.canLock && locked == !root.controls.locked
    case GroupToggle(id) => exists shown :: shown in root.graph.groups && shown.id == id
    case ColumnToggle(id, _) => exists c :: c in root.controls.columns && c.id == id
    case TagActivate(key) => exists shown, tag :: shown in root.graph.groups && tag in shown.tags && tag.key == key
    case ReferenceBack => root.controls.canBack
    case UrlRestore(_) => false
    case _ => IsIntent(e)
  }

  /** Nothing that is shown leads to a refusal: every control the views offer is accepted by the state they show. */
  lemma OfferedIsAccepted(s: Ready, root: Root, e: Event)
    requires RootNames(s, root) && Offered(root, e)
    ensures Accepted(s, e) && IsIntent(e)
  {
    match e
    case SubjectSelect(id) => if ShowsSubject(root.graph, id) { ShownSubjectOwned(s, root, id); }
    case SubjectFind(id) => if ShowsSubject(root.graph, id) { ShownSubjectOwned(s, root, id); }
    case _ =>
  }

  lemma ShownSubjectOwned(s: Ready, root: Root, id: string)
    requires RootNames(s, root) && ShowsSubject(root.graph, id)
    ensures id in s.graph.owners
  {
    var shown :| shown in root.graph.groups && (shown.id == id || exists row :: row in shown.members && row.id == id);
    assert GroupModelNames(s, shown);
  }

  /** So in every state a run reaches, an offered event is never refused. */
  lemma OfferedNeverRefused(requestId: int, events: seq<Event>, search: Search, root: Root, e: Event)
    requires EventsOk(events) && Run(Loading(requestId), events).Some? && Run(Loading(requestId), events).value.Showing?
    requires Shows(Run(Loading(requestId), events).value.ready, search, root) && Offered(root, e)
    ensures ReadyTransition(Run(Loading(requestId), events).value.ready, e).Ok?
  {
    ReachableKnown(Loading(requestId), events);
    var s := Run(Loading(requestId), events).value.ready;
    ShownIsKnown(s, search, root);
    OfferedIsAccepted(s, root, e);
    ReadyKnown(s, e);
  }

  function Ranked(rank: real): Attachment -> bool {
    (note: Attachment) => Rank(note) == rank
  }

  /**
   Tags stand in the order a request passes through them, none is dropped, and tags of one rank keep the
   order they came in.  A tag without a position counts as MAX_SAFE_INTEGER, so it stands after every
   tag whose position is lower, and only after those.
   */
  lemma TagsInOrder(notes: seq<Attachment>)
    ensures multiset(AppliedOrder(notes)) == multiset(notes)
    ensures forall i, j :: 0 <= i < j < |AppliedOrder(notes)| ==> Rank(AppliedOrder(notes)[i]) <= Rank(AppliedOrder(notes)[j])
    ensures forall rank: real :: Filter(AppliedOrder(notes), Ranked(rank)) == Filter(notes, Ranked(rank))
    ensures forall i, j :: 0 <= i < j < |AppliedOrder(notes)| && AppliedOrder(notes)[i].order.None? ==>
              AppliedOrder(notes)[j].order.None? || AppliedOrder(notes)[j].order.value >= MAX_SAFE_INTEGER
  {
    forall rank: real
      ensures Filter(AppliedOrder(notes), Ranked(rank)) == Filter(notes, Ranked(rank))
    {
      Ordering.SortKeepsOrder(notes, ByRank, Ranked(rank));
    }
    Ordering.SortCounts(notes, ByRank);
    Ordering.SortSorts(notes, ByRank);
  }

  // ---------- the selection ----------

  /** A box or a row that is shown as selected. */
  ghost predicate ShowsSelected(shown: GroupModel, x: string) {
    (shown.id == x && shown.selected) || exists row :: row in shown.members && row.id == x && row.selected
  }

  /** A row is selected exactly when it is the selected member of an open group. */
  lemma SelectedRow(ctx: Context, group: Group, x: string)
    requires ctx.view.node.Some?
    ensures (exists row :: row in DeclarationModels(ctx, group) && row.id == x && row.selected) <==>
            (group.id in ctx.view.expanded && ctx.view.node.value == x && exists d :: d in group.members && d.id == x)
  {
    var rows, boxes := DeclarationModels(ctx, group), MemberBoxes(group);
    if row :| row in rows && row.id == x && row.selected { ShownRow(ctx, group, row); }
    if group.id in ctx.view.expanded && ctx.view.node.value == x && exists d :: d in group.members && d.id == x {
      var d :| d in group.members && d.id == x;
      MemberHasRow(group, d);
      FoundBox(boxes, x);
      var i :| 0 <= i < |boxes| && boxes[i] == FindBox(boxes, x).value && boxes[i].member.id == x;
      assert rows[i].id == x && rows[i].selected;
    }
  }

  /** Of what is shown, exactly the selected subject's display unit is marked: its row when open, its box otherwise. */
  lemma SelectionShown(ctx: Context, group: Group, id: string, x: string)
    requires Linked(ctx.graph) && group in ctx.graph.source.groups && GroupModelFor(ctx, group).Some?
    requires ctx.view.node == Some(id) && id in ctx.graph.owners
    ensures ShowsSelected(GroupModelFor(ctx, group).value, x) <==>
            ctx.graph.owners[id] == group && DisplayUnit(ctx.graph, ctx.view, id) == Some(x)
  {
    SelectedRow(ctx, group, x);
    OwnerIsGroup(ctx.graph, id);
    if id in ctx.graph.groups { GroupOwnsItself(ctx.graph, group, id); } else { MemberOwned(ctx.graph, group, id); }
  }

  lemma GroupOwnsItself(g: Graph, group: Group, id: string)
    requires Linked(g) && group in g.source.groups && id in g.groups
    ensures g.owners[id].id == id && (g.owners[id] == group <==> group.id == id)
    ensures !exists d :: d in group.members && d.id == id
  {
  }

  lemma MemberOwned(g: Graph, group: Group, id: string)
    requires Linked(g) && group in g.source.groups && id in g.owners && id !in g.groups
    ensures id != group.id && (g.owners[id] == group <==> g.owners[id].id == group.id)
    ensures g.owners[id] == group <==> exists d :: d in group.members && d.id == id
  {
    OwnerIsGroup(g, id);
    if g.owners[id] == group { assert g.declarations[id] in group.members && g.declarations[id].id == id; }
  }

  // ---------- headings and lines agree with the layout ----------

  lemma {:induction false} HeadingAt(columns: seq<Column>, i: nat)
    requires i < |columns|
    ensures |HeadingsOf(columns)| == |columns|
    ensures HeadingsOf(columns)[i] == Heading(columns[i].caption, TotalWidth(columns[..i]), columns[i].width)
  {
    var init := columns[..|columns| - 1];
    if init != [] { HeadingAt(init, 0); }
    if i < |init| {
      HeadingAt(init, i);
      assert init[..i] == columns[..i];
    }
  }

  lemma {:induction false} ShownWidth(columns: seq<Column>, k: nat, v: View)
    requires k <= |columns|
    ensures ColumnX(columns, k, v) == TotalWidth(Filter(columns[..k], ShownIn(v)))
  {
    if k > 0 {
      ShownWidth(columns, k - 1, v);
      assert columns[..k][..k - 1] == columns[..k - 1];
      var before := Filter(columns[..k - 1], ShownIn(v));
      if Shown(columns[k - 1], v) {
        assert Filter(columns[..k], ShownIn(v)) == before + [columns[k - 1]];
      } else {
        assert Filter(columns[..k], ShownIn(v)) == before;
      }
    }
  }

  lemma {:induction false} FilterPlace(columns: seq<Column>, k: nat, v: View)
    requires k < |columns| && Shown(columns[k], v)
    ensures var shown, i := Filter(columns, ShownIn(v)), |Filter(columns[..k], ShownIn(v))|;
            i < |shown| && shown[i] == columns[k] && shown[..i] == Filter(columns[..k], ShownIn(v))
  {
    var m := |columns| - 1;
    if k < m {
      FilterPlace(columns[..m], k, v);
      assert columns[..m][..k] == columns[..k];
    }
  }

  /** Each shown column's heading stands where the layout starts that column, so its boxes hang below it. */
  lemma HeadingsAlign(g: Graph, v: View, k: nat)
    requires k < |g.source.columns| && Shown(g.source.columns[k], v)
    ensures var columns := g.source.columns;
            var i, headings := |Filter(columns[..k], ShownIn(v))|, HeadingsOf(Filter(columns, ShownIn(v)));
            i < |headings| && headings[i] == Heading(columns[k].caption, ColumnX(columns, k, v), columns[k].width)
  {
    var columns := g.source.columns;
    FilterPlace(columns, k, v);
    HeadingAt(Filter(columns, ShownIn(v)), |Filter(columns[..k], ShownIn(v))|);
    ShownWidth(columns, k, v);
  }

  /** The map draws this end of a line: its column is shown, and a member only when its group is open. */
  ghost predicate EndDrawn(g: Graph, v: View, id: string) {
    && id in g.owners && IsOnMap(g.owners[id], v.options)
    && (id in g.groups || g.owners[id].id in v.expanded)
  }

  /** Where a line comes from. */
  lemma LineIsBundle(g: Graph, v: View, geometry: Layout, edges: seq<Relation>, edge: E.EdgeModel) returns (b: E.Bundle)
    requires Linked(g) && (forall e :: e in edges ==> e in g.relations)
    requires E.ProjectEdges(g, v, geometry, edges).Some? && edge in E.ProjectEdges(g, v, geometry, edges).value
    ensures E.BundleKnown(g, v, edges, b) && b.line == edge.line
    ensures Position(g, v, geometry, edge.line.from) == Some(edge.start) && Position(g, v, geometry, edge.line.to) == Some(edge.end)
  {
    E.BundlesKnown(g, v, edges, |edges|);
    assert edges[..|edges|] == edges;
    var projected := E.Bundles(g, v, edges).value;
    Collected(projected, E.ProjectOne(g, v, geometry, projected));
    var i :| 0 <= i < |projected| && E.ProjectEdges(g, v, geometry, edges).value[i] == edge;
    b := projected[i];
    assert b in projected;
  }

  /** Every line joins two things the map draws, from anchor to anchor. */
  lemma LinesJoinDrawn(g: Graph, v: View, edge: E.EdgeModel)
    requires Linked(g) && KnownView(g, v) && PresentMap(g, v).Some? && edge in PresentMap(g, v).value.edges
    ensures EndDrawn(g, v, edge.line.from) && EndDrawn(g, v, edge.line.to) && LayoutOf(g, v).Some?
    ensures Position(g, v, LayoutOf(g, v).value, edge.line.from) == Some(edge.start)
    ensures Position(g, v, LayoutOf(g, v).value, edge.line.to) == Some(edge.end)
  {
    ContextIsKnown(g, v);
    MapParts(g, v);
    var ctx := ContextOf(g, v).value;
    WiresKnown(ctx);
    var b := LineIsBundle(g, v, ctx.geometry, WiresIn(ctx), edge);
    var e := b.originals[0];
    assert e in b.originals;
    WireKnown(ctx, e);
    WireEndsDrawn(g, v, e, edge.line);
  }

  lemma WireEndsDrawn(g: Graph, v: View, e: Relation, line: E.Line)
    requires Linked(g) && e in g.relations && E.LineOf(g, v, e) == Some(Some(line))
    requires RelationPart(g, e, v.options.hiddenColumns) == Some(Wires)
    ensures EndDrawn(g, v, line.from) && EndDrawn(g, v, line.to)
  {
    OwnerIsGroup(g, e.from);
    OwnerIsGroup(g, e.to);
  }
}
