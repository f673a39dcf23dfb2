/**
 Presentation never fails in a state a run reaches, what it shows is consistent with itself, and whatever it
 offers to do is accepted.
 */
module StudioPresenterProofs {
  import opened Wrappers
  import opened Sequences
  import Ordering
  import opened StudioGraph
  import opened StudioView
  import opened StudioScope
  import opened StudioRelations
  import opened StudioLayout
  import opened StudioLayoutProofs
  import opened StudioMediator
  import opened StudioMediatorProofs
  import opened StudioPresenter
  import E = StudioEdges

  // ---------- every lookup succeeds ----------

  ghost predicate ContextKnown(ctx: Context) {
    && Linked(ctx.graph) && LayoutOf(ctx.graph, ctx.view) == Some(ctx.geometry)
    && (forall e :: e in ctx.relations ==> e in ctx.graph.relations)
    && (forall n :: n in ctx.notes ==> TagKnown(ctx.graph, n))
    && (ctx.view.node.Some? ==> ctx.view.node.value in ctx.graph.owners)
  }

  lemma ScopeWithinGraph(g: Graph, v: View)
    ensures forall e :: e in ScopeRelations(g, v) ==> e in g.relations
  {
    forall e | e in ScopeRelations(g, v) ensures e in g.relations {
      FilterMember(g.relations, NotMiddleware, e);
      if v.scope.mode != All && Focus(v).Some? {
        var edges, start := Filter(g.relations, NotMiddleware), Seeds(g, Focus(v).value);
        FilterMember(edges, IsNear(start), e);
        FilterMember(edges, IsInFlow(start, edges), e);
      }
    }
  }

  lemma ContextIsKnown(g: Graph, v: View)
    requires Linked(g) && KnownView(g, v)
    ensures ContextOf(g, v).Some? && ContextKnown(ContextOf(g, v).value)
    ensures ContextOf(g, v).value.graph == g && ContextOf(g, v).value.view == v
  {
    TagsKnown(g, g.relations, v.options.hiddenColumns, v.options.showTypes);
    ScopeWithinGraph(g, v);
  }

  lemma TagModelKnown(ctx: Context, dimmed: bool, note: Attachment)
    requires ContextKnown(ctx) && note in ctx.notes
    ensures TagModelOf(ctx, dimmed)(note).Some?
  {
    E.TitleKnown(ctx.graph, note.relations);
  }

  lemma TagsOfGroup(ctx: Context, group: Group, note: Attachment)
    ensures note in AppliedOrder(Filter(ctx.notes, OnGroup(group.id))) <==> note in ctx.notes && note.key.groupId == group.id
  {
    var tags := Filter(ctx.notes, OnGroup(group.id));
    FilterMember(ctx.notes, OnGroup(group.id), note);
    Ordering.SortCounts(tags, ByRank);
    assert note in AppliedOrder(tags) <==> note in multiset(AppliedOrder(tags));
  }

  lemma GroupTagsKnown(ctx: Context, group: Group)
    requires ContextKnown(ctx)
    ensures TagModels(ctx, group).Some?
  {
    var tags := AppliedOrder(Filter(ctx.notes, OnGroup(group.id)));
    forall note | note in tags ensures TagModelOf(ctx, IsDimmed(ctx, group))(note).Some? {
      TagsOfGroup(ctx, group, note);
      TagModelKnown(ctx, IsDimmed(ctx, group), note);
    }
    CollectTotal(tags, TagModelOf(ctx, IsDimmed(ctx, group)));
  }

  lemma GroupBoxKnown(ctx: Context, group: Group)
    requires ContextKnown(ctx) && group in ctx.graph.source.groups
    ensures group.id in ctx.geometry.boxes && SelectedUnit(ctx).Some?
  {
    var k, n := WhereIs(ctx.graph, group);
    BoxIs(ctx.graph, ctx.view, group, k, n);
  }

  lemma GroupModelKnown(ctx: Context, group: Group)
    requires ContextKnown(ctx) && group in ctx.graph.source.groups
    ensures GroupModelFor(ctx, group).Some?
  {
    GroupBoxKnown(ctx, group);
    GroupTagsKnown(ctx, group);
  }

  lemma GroupsKnown(ctx: Context)
    requires ContextKnown(ctx)
    ensures Collect(Filter(ctx.graph.source.groups, OnMapIn(ctx.view.options)), GroupModelOf(ctx)).Some?
  {
    var visible := Filter(ctx.graph.source.groups, OnMapIn(ctx.view.options));
    forall group | group in visible ensures GroupModelOf(ctx)(group).Some? {
      FilterMember(ctx.graph.source.groups, OnMapIn(ctx.view.options), group);
      GroupModelKnown(ctx, group);
    }
    CollectTotal(visible, GroupModelOf(ctx));
  }

  lemma ProjectKnown(g: Graph, v: View, edges: seq<Relation>)
    requires Linked(g) && LayoutOf(g, v).Some? && forall e :: e in edges ==> e in g.relations
    ensures E.ProjectEdges(g, v, LayoutOf(g, v).value, edges).Some?
  {
    var geometry := LayoutOf(g, v).value;
    E.BundlesKnown(g, v, edges, |edges|);
    assert edges[..|edges|] == edges;
    var projected := E.Bundles(g, v, edges).value;
    forall b | b in projected ensures E.ProjectOne(g, v, geometry, projected)(b).Some? {
      ProjectOneKnown(g, v, edges, projected, b);
    }
    CollectTotal(projected, E.ProjectOne(g, v, geometry, projected));
  }

  lemma ProjectOneKnown(g: Graph, v: View, edges: seq<Relation>, projected: seq<E.Bundle>, b: E.Bundle)
    requires Linked(g) && LayoutOf(g, v).Some? && (forall e :: e in edges ==> e in g.relations) && E.BundleKnown(g, v, edges, b)
    ensures E.ProjectOne(g, v, LayoutOf(g, v).value, projected)(b).Some?
  {
    AnchorInside(g, v, b.line.from);
    AnchorInside(g, v, b.line.to);
    E.TitleKnown(g, b.originals);
  }

  function AllowedIn(ctx: Context): seq<Relation> {
    Filter(ctx.relations, TypesAllowed(ctx.view))
  }

  function WiresIn(ctx: Context): seq<Relation> {
    Filter(AllowedIn(ctx), IsWire(ctx.graph, ctx.view.options.hiddenColumns))
  }

  lemma OwnedHasPart(g: Graph, e: Relation, hidden: seq<string>)
    requires e.from in g.owners && e.to in g.owners
    ensures RelationPart(g, e, hidden).Some?
  {
  }

  lemma PartKnown(g: Graph, e: Relation, hidden: seq<string>)
    requires Linked(g) && e in g.relations
    ensures RelationPart(g, e, hidden).Some?
  {
    EndsAreOwned(g, e);
    OwnedHasPart(g, e, hidden);
  }

  lemma AllowedKnown(ctx: Context, e: Relation)
    requires ContextKnown(ctx) && e in AllowedIn(ctx)
    ensures e in ctx.graph.relations && RelationPart(ctx.graph, e, ctx.view.options.hiddenColumns).Some?
  {
    FilterMember(ctx.relations, TypesAllowed(ctx.view), e);
    PartKnown(ctx.graph, e, ctx.view.options.hiddenColumns);
  }

  lemma PartsKnown(ctx: Context)
    requires ContextKnown(ctx)
    ensures Collect(AllowedIn(ctx), PartOf(ctx.graph, ctx.view.options.hiddenColumns)).Some?
  {
    var part := PartOf(ctx.graph, ctx.view.options.hiddenColumns);
    forall e | e in AllowedIn(ctx) ensures part(e).Some? { AllowedKnown(ctx, e); }
    CollectTotal(AllowedIn(ctx), part);
  }

  lemma WireKnown(ctx: Context, e: Relation)
    requires ContextKnown(ctx) && e in WiresIn(ctx)
    ensures e in ctx.graph.relations && RelationPart(ctx.graph, e, ctx.view.options.hiddenColumns) == Some(Wires)
  {
    FilterMember(AllowedIn(ctx), IsWire(ctx.graph, ctx.view.options.hiddenColumns), e);
    AllowedKnown(ctx, e);
  }

  lemma WiresKnown(ctx: Context)
    requires ContextKnown(ctx)
    ensures forall e :: e in WiresIn(ctx) ==> e in ctx.graph.relations
  {
    forall e | e in WiresIn(ctx) ensures e in ctx.graph.relations { WireKnown(ctx, e); }
  }

  lemma MapKnown(g: Graph, v: View)
    requires Linked(g) && KnownView(g, v)
    ensures PresentMap(g, v).Some?
  {
    ContextIsKnown(g, v);
    var ctx := ContextOf(g, v).value;
    PartsKnown(ctx);
    WiresKnown(ctx);
    ProjectKnown(g, v, WiresIn(ctx));
    GroupsKnown(ctx);
    if v.node.Some? { E.SubjectKnown(g, v.node.value); }
  }

  lemma SetupRowsKnown(g: Graph, owner: Option<string>, items: seq<SetupItem>)
    requires Linked(g) && forall item :: item in items ==> item in Setup(g.source)
    ensures SetupRows(g, owner, items).Some?
  {
    forall item | item in items ensures SetupRowOf(g, owner)(item).Some? {
      if item.target.Some? { E.SubjectKnown(g, item.target.value); }
    }
    CollectTotal(items, SetupRowOf(g, owner));
  }

  lemma GroupSetupKnown(g: Graph, group: Group)
    requires group in g.source.groups
    ensures forall item :: item in group.setup ==> item in Setup(g.source)
  {
    forall item | item in group.setup ensures item in Setup(g.source) {
      FlatMapMember(g.source.groups, GroupSetup, item);
      assert item in GroupSetup(group);
    }
  }

  lemma MemberSetupKnown(g: Graph, group: Group, d: Declaration)
    requires group in g.source.groups && d in group.members
    ensures forall item :: item in d.setup ==> item in Setup(g.source)
  {
    forall item | item in d.setup ensures item in Setup(g.source) {
      FlatMapMember(g.source.groups, MembersOf, d);
      assert d in MembersOf(group);
      FlatMapMember(Members(g.source), DeclarationSetup, item);
      assert item in DeclarationSetup(d);
    }
  }

  lemma GroupInspects(g: Graph, group: Group)
    requires Linked(g) && group in g.source.groups
    ensures InspectGroup(g, group).Some?
  {
    GroupSetupKnown(g, group);
    SetupRowsKnown(g, None, group.setup);
    MembersSetupKnown(g, group);
  }

  lemma DeclarationInspects(g: Graph, id: string)
    requires Linked(g) && id in g.owners && id in g.declarations
    ensures InspectDeclaration(g, g.declarations[id]).Some?
  {
    MemberSetupKnown(g, g.owners[id], g.declarations[id]);
    SetupRowsKnown(g, None, g.declarations[id].setup);
  }

  lemma InspectorKnown(g: Graph, node: Option<string>)
    requires Linked(g) && (node.Some? ==> node.value in g.owners)
    ensures PresentInspector(g, node).Some?
  {
    if node.Some? {
      E.SubjectKnown(g, node.value);
      OwnerIsGroup(g, node.value);
      if node.value in g.groups { GroupInspects(g, g.groups[node.value]); }
      else { DeclarationInspects(g, node.value); }
    }
  }

  lemma MembersSetupKnown(g: Graph, group: Group)
    requires Linked(g) && group in g.source.groups
    ensures Collect(SourceOrderedMembers(group), MemberSetupRows(g)).Some?
  {
    var members := SourceOrderedMembers(group);
    Ordering.SortCounts(group.members, MemberOrder);
    forall d | d in members ensures MemberSetupRows(g)(d).Some? {
      assert d in multiset(members);
      MemberSetupKnown(g, group, d);
      SetupRowsKnown(g, Some(d.name), d.setup);
    }
    CollectTotal(members, MemberSetupRows(g));
  }

  lemma ToolbarKnown(s: Ready, search: Search)
    requires Linked(s.graph)
    ensures ToolbarOf(s, search).Some?
  {
    var g := s.graph;
    CollectTotal(g.source.groups, GroupResult(g));
    forall d | d in Members(g.source) ensures DeclarationResult(g)(d).Some? {
      FlatMapMember(g.source.groups, MembersOf, d);
    }
    CollectTotal(Members(g.source), DeclarationResult(g));
  }

  lemma CommandIsKnown(s: Ready)
    requires Linked(s.graph) && KnownCommand(s.graph, s.command)
    ensures CommandOf(s).Some?
  {
    if s.command.Some? && s.command.value.Locate? { AnchorInside(s.graph, s.view, s.command.value.id); }
  }

  lemma PresentOfParts(s: Ready, search: Search)
    requires ToolbarOf(s, search).Some? && ControlsOf(s).Some? && PresentMap(s.graph, s.view).Some?
    requires CommandOf(s).Some? && PresentInspector(s.graph, s.view.node).Some?
    ensures Present(Showing(s), search).Some?
  {
  }

  lemma ReadyPresents(s: Ready, search: Search)
    requires Linked(s.graph) && KnownView(s.graph, s.view) && KnownCommand(s.graph, s.command)
    ensures Present(Showing(s), search).Some?
  {
    ToolbarKnown(s, search);
    MapKnown(s.graph, s.view);
    CommandIsKnown(s);
    InspectorKnown(s.graph, s.view.node);
    PresentOfParts(s, search);
  }

  /** In every state a run reaches from loading, presentation succeeds. */
  lemma PresentNeverThrows(requestId: int, events: seq<Event>, search: Search)
    requires EventsOk(events)
    ensures Run(Loading(requestId), events).Some? && Present(Run(Loading(requestId), events).value, search).Some?
  {
    ReachableKnown(Loading(requestId), events);
    var s := Run(Loading(requestId), events).value;
    if s.Showing? { ReadyPresents(s.ready, search); }
  }
}
