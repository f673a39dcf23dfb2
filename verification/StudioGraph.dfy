/** The validated source graph the studio shows (packages/studio-ui/src/graph.lib.ts). */
module StudioGraph {
  import opened Wrappers
  import opened Sequences

  /** Where a relation comes from, with the kind that source gives it. */
  datatype Origin = FromTypeScript(kind: string, meanings: seq<string>) | FromPlugin(kind: string, order: Option<real>)

  datatype SourceRelation = SourceRelation(id: string, to: string, origin: Origin, evidence: seq<string>)

  datatype Relation = Relation(id: string, from: string, to: string, origin: Origin, evidence: seq<string>)

  datatype SetupItem = SetupItem(provider: string, kind: string, caption: string, target: Option<string>)

  datatype Declaration = Declaration(
    id: string, name: string, kind: string, enclosing: Option<string>,
    relations: seq<SourceRelation>, setup: seq<SetupItem>, filePath: string, startLine: int, hints: seq<string>)

  datatype Group = Group(
    id: string, name: string, kind: string, filePath: string, members: seq<Declaration>,
    relations: seq<SourceRelation>, setup: seq<SetupItem>, startLine: int, hints: seq<string>, columnId: string)

  datatype Column = Column(id: string, caption: string, width: real, initiallyHidden: bool)

  datatype Source = Source(columns: seq<Column>, groups: seq<Group>)

  /** The lookups; iterating over them follows the order of the source. */
  datatype Graph = Graph(
    source: Source,
    groups: map<string, Group>,
    declarations: map<string, Declaration>,
    owners: map<string, Group>,
    relations: seq<Relation>)

  // ---------- identities ----------

  /** None is the duplicate identity error. */
  function Unique<T>(items: seq<T>, identify: T -> string): Option<map<string, T>> {
    if items == [] then Some(map[])
    else
      match Unique(items[..|items| - 1], identify)
      case None => None
      case Some(seen) =>
        var last := items[|items| - 1];
        if identify(last) in seen then None else Some(seen[identify(last) := last])
  }

  method FillUnique<T>(items: seq<T>, identify: T -> string) returns (r: Option<map<string, T>>)
    ensures r == Unique(items, identify)
  {
    var result: map<string, T> := map[];
    for i := 0 to |items|
      invariant Unique(items[..i], identify) == Some(result)
    {
      assert items[..i + 1][..i] == items[..i];
      var id := identify(items[i]);
      if id in result {
        DuplicateStays(items, i + 1, identify);
        return None;
      }
      result := result[id := items[i]];
    }
    assert items[..|items|] == items;
    return Some(result);
  }

  lemma {:induction false} DuplicateStays<T>(items: seq<T>, k: nat, identify: T -> string)
    requires k <= |items| && Unique(items[..k], identify).None?
    ensures Unique(items, identify).None?
  {
    if k == |items| {
      assert items[..k] == items;
    } else {
      assert items[..|items| - 1][..k] == items[..k];
      DuplicateStays(items[..|items| - 1], k, identify);
    }
  }

  ghost predicate DistinctBy<T>(items: seq<T>, identify: T -> string) {
    forall i, j :: 0 <= i < j < |items| ==> identify(items[i]) != identify(items[j])
  }

  /** Each item is found by its own identity, and nothing else is found. */
  ghost predicate Finds<T>(m: map<string, T>, items: seq<T>, identify: T -> string) {
    && (forall x :: x in items ==> identify(x) in m && m[identify(x)] == x)
    && (forall id :: id in m ==> m[id] in items && identify(m[id]) == id)
  }

  lemma {:induction false} UniqueFinds<T>(items: seq<T>, identify: T -> string)
    requires Unique(items, identify).Some?
    ensures Finds(Unique(items, identify).value, items, identify)
  {
    if items != [] {
      SplitLast(items);
      UniqueFinds(items[..|items| - 1], identify);
    }
  }

  lemma DistinctStep<T>(init: seq<T>, last: T, identify: T -> string)
    ensures DistinctBy(init + [last], identify) <==>
            (DistinctBy(init, identify) && forall x :: x in init ==> identify(x) != identify(last))
  {
    var items := init + [last];
    if DistinctBy(items, identify) {
      forall i, j | 0 <= i < j < |init| ensures identify(init[i]) != identify(init[j]) {
        assert identify(items[i]) != identify(items[j]);
      }
      forall x | x in init ensures identify(x) != identify(last) {
        var i :| 0 <= i < |init| && init[i] == x;
        assert identify(items[i]) != identify(items[|init|]);
      }
    }
  }

  /** The lookup exists exactly when no identity repeats. */
  lemma {:induction false} UniqueIff<T>(items: seq<T>, identify: T -> string)
    ensures Unique(items, identify).Some? <==> DistinctBy(items, identify)
    ensures Unique(items, identify).Some? ==> Finds(Unique(items, identify).value, items, identify)
  {
    if items != [] {
      var init, last := items[..|items| - 1], items[|items| - 1];
      SplitLast(items);
      UniqueIff(init, identify);
      DistinctStep(init, last, identify);
      if Unique(items, identify).Some? { UniqueFinds(items, identify); }
      if Unique(init, identify).Some? {
        var seen := Unique(init, identify).value;
        if identify(last) in seen { assert seen[identify(last)] in init; }
      }
    }
  }

  // ---------- reading ----------

  datatype Owned = Owned(id: string, group: Group)

  function GroupId(g: Group): string { g.id }

  function DeclarationId(d: Declaration): string { d.id }

  function OwnedId(o: Owned): string { o.id }

  function RelationId(r: Relation): string { r.id }

  function ColumnId(c: Column): string { c.id }

  function MembersOf(g: Group): seq<Declaration> { g.members }

  function OwnedBy(g: Group): seq<Owned> {
    [Owned(g.id, g)] + seq(|g.members|, i requires 0 <= i < |g.members| => Owned(g.members[i].id, g))
  }

  function Leaving(id: string, relations: seq<SourceRelation>): seq<Relation> {
    seq(|relations|, i requires 0 <= i < |relations| =>
      Relation(relations[i].id, id, relations[i].to, relations[i].origin, relations[i].evidence))
  }

  function GroupRelations(g: Group): seq<Relation> { Leaving(g.id, g.relations) }

  function DeclarationRelations(d: Declaration): seq<Relation> { Leaving(d.id, d.relations) }

  function Members(s: Source): seq<Declaration> { FlatMap(s.groups, MembersOf) }

  function Owners(s: Source): seq<Owned> { FlatMap(s.groups, OwnedBy) }

  function Relations(s: Source): seq<Relation> {
    FlatMap(s.groups, GroupRelations) + FlatMap(Members(s), DeclarationRelations)
  }

  function GroupSetup(g: Group): seq<SetupItem> { g.setup }

  function DeclarationSetup(d: Declaration): seq<SetupItem> { d.setup }

  function Setup(s: Source): seq<SetupItem> {
    FlatMap(s.groups, GroupSetup) + FlatMap(Members(s), DeclarationSetup)
  }

  function GroupsOf(owned: map<string, Owned>): map<string, Group> {
    map id | id in owned :: owned[id].group
  }

  /** Every reference a graph makes to something is to something it has. */
  predicate ReferencesHold(g: Graph) {
    match Unique(g.source.columns, ColumnId)
    case None => false
    case Some(columns) =>
      && (forall group :: group in g.source.groups ==> group.columnId in columns)
      && (forall r :: r in g.relations ==> r.to in g.owners)
      && (forall item :: item in Setup(g.source) && item.target.Some? ==> item.target.value in g.owners)
      && (forall d :: d in Members(g.source) && d.enclosing.Some? ==> d.enclosing.value in g.declarations)
  }

  /** readGraph after the schema check; None is an error. */
  function Read(s: Source): Option<Graph> {
    var groups, declarations, owners := Unique(s.groups, GroupId), Unique(Members(s), DeclarationId), Unique(Owners(s), OwnedId);
    if groups.None? || declarations.None? || owners.None? || Unique(Relations(s), RelationId).None? then None
    else
      var g := Graph(s, groups.value, declarations.value, GroupsOf(owners.value), Relations(s));
      if ReferencesHold(g) then Some(g) else None
  }

  predicate Valid(g: Graph) {
    Read(g.source) == Some(g)
  }

  // ---------- what reading accepts ----------

  ghost predicate IsOwner(s: Source, id: string) {
    exists g :: g in s.groups && (g.id == id || exists d :: d in g.members && d.id == id)
  }

  ghost predicate WellFormed(s: Source) {
    && DistinctBy(Owners(s), OwnedId)
    && DistinctBy(Relations(s), RelationId)
    && DistinctBy(s.columns, ColumnId)
    && (forall g :: g in s.groups ==> exists c :: c in s.columns && c.id == g.columnId)
    && (forall r :: r in Relations(s) ==> IsOwner(s, r.to))
    && (forall item :: item in Setup(s) && item.target.Some? ==> IsOwner(s, item.target.value))
    && (forall d :: d in Members(s) && d.enclosing.Some? ==> exists e :: e in Members(s) && e.id == d.enclosing.value)
  }

  lemma OwnedByMember(g: Group, o: Owned)
    ensures o in OwnedBy(g) <==> o.group == g && (o.id == g.id || exists d :: d in g.members && d.id == o.id)
  {
    if o.group == g && o.id == g.id { assert OwnedBy(g)[0] == o; }
    if d :| d in g.members && d.id == o.id && o.group == g {
      var i :| 0 <= i < |g.members| && g.members[i] == d;
      assert OwnedBy(g)[i + 1] == o;
    }
    if o in OwnedBy(g) {
      var i :| 0 <= i < |OwnedBy(g)| && OwnedBy(g)[i] == o;
      if i > 0 { assert g.members[i - 1] in g.members; }
    }
  }

  lemma OwnersMember(s: Source, o: Owned)
    ensures o in Owners(s) <==> o in OwnedBy(o.group) && o.group in s.groups
  {
    FlatMapMember(s.groups, OwnedBy, o);
    if g :| g in s.groups && o in OwnedBy(g) { OwnedByMember(g, o); }
  }

  lemma IsOwnerIff(s: Source, id: string)
    ensures IsOwner(s, id) <==> exists o :: o in Owners(s) && o.id == id
  {
    if IsOwner(s, id) {
      var g :| g in s.groups && (g.id == id || exists d :: d in g.members && d.id == id);
      OwnedByMember(g, Owned(id, g));
      OwnersMember(s, Owned(id, g));
    }
    if o :| o in Owners(s) && o.id == id {
      OwnersMember(s, o);
      OwnedByMember(o.group, o);
    }
  }

  /** Distinct owners make the groups distinct and the declarations distinct, so those two checks refuse nothing more. */
  lemma {:induction false} DistinctOwnersSuffice(groups: seq<Group>)
    requires DistinctBy(FlatMap(groups, OwnedBy), OwnedId)
    ensures DistinctBy(groups, GroupId) && DistinctBy(FlatMap(groups, MembersOf), DeclarationId)
  {
    if groups != [] {
      var init, last := groups[..|groups| - 1], groups[|groups| - 1];
      var before, own := FlatMap(init, OwnedBy), OwnedBy(last);
      assert before + own == FlatMap(groups, OwnedBy);
      DistinctParts(before, own);
      DistinctOwnersSuffice(init);
      GroupsStayDistinct(init, last);
      DeclarationsStayDistinct(init, last);
      assert groups == init + [last];
    }
  }

  lemma DistinctParts(a: seq<Owned>, b: seq<Owned>)
    requires DistinctBy(a + b, OwnedId)
    ensures DistinctBy(a, OwnedId) && DistinctBy(b, OwnedId)
    ensures forall x, y :: x in a && y in b ==> x.id != y.id
  {
    var ab := a + b;
    forall i, j | 0 <= i < j < |a| ensures a[i].id != a[j].id {
      assert OwnedId(ab[i]) != OwnedId(ab[j]);
    }
    forall i, j | 0 <= i < j < |b| ensures b[i].id != b[j].id {
      assert OwnedId(ab[|a| + i]) != OwnedId(ab[|a| + j]);
    }
    forall x, y | x in a && y in b ensures x.id != y.id {
      var i :| 0 <= i < |a| && a[i] == x;
      var j :| 0 <= j < |b| && b[j] == y;
      assert OwnedId(ab[i]) != OwnedId(ab[|a| + j]);
    }
  }

  lemma GroupsStayDistinct(init: seq<Group>, last: Group)
    requires DistinctBy(init, GroupId)
    requires forall x, y :: x in FlatMap(init, OwnedBy) && y in OwnedBy(last) ==> x.id != y.id
    ensures DistinctBy(init + [last], GroupId)
  {
    forall i | 0 <= i < |init| ensures init[i].id != last.id {
      var x, y := Owned(init[i].id, init[i]), Owned(last.id, last);
      OwnedByMember(init[i], x);
      FlatMapMember(init, OwnedBy, x);
      OwnedByMember(last, y);
    }
  }

  lemma DeclarationsStayDistinct(init: seq<Group>, last: Group)
    requires DistinctBy(FlatMap(init, MembersOf), DeclarationId) && DistinctBy(OwnedBy(last), OwnedId)
    requires forall x, y :: x in FlatMap(init, OwnedBy) && y in OwnedBy(last) ==> x.id != y.id
    ensures DistinctBy(FlatMap(init, MembersOf) + last.members, DeclarationId)
  {
    var before, own := FlatMap(init, MembersOf), last.members;
    forall i, j | 0 <= i < j < |own| ensures own[i].id != own[j].id {
      assert OwnedId(OwnedBy(last)[i + 1]) != OwnedId(OwnedBy(last)[j + 1]);
    }
    forall i, j | 0 <= i < |before| && 0 <= j < |own| ensures before[i].id != own[j].id {
      FlatMapMember(init, MembersOf, before[i]);
      var g :| g in init && before[i] in MembersOf(g);
      OwnedByMember(g, Owned(before[i].id, g));
      FlatMapMember(init, OwnedBy, Owned(before[i].id, g));
      OwnedByMember(last, Owned(own[j].id, last));
    }
  }

  /** A source is read exactly when its identities are distinct and every reference it makes has a target. */
  lemma ReadIff(s: Source)
    ensures Read(s).Some? <==> WellFormed(s)
  {
    UniqueIff(s.groups, GroupId);
    UniqueIff(Members(s), DeclarationId);
    UniqueIff(Owners(s), OwnedId);
    UniqueIff(Relations(s), RelationId);
    if DistinctBy(Owners(s), OwnedId) {
      DistinctOwnersSuffice(s.groups);
      if DistinctBy(Relations(s), RelationId) { ReferencesIff(s); }
    }
  }

  lemma ReferencesIff(s: Source)
    requires DistinctBy(Owners(s), OwnedId) && DistinctBy(Relations(s), RelationId)
    requires Unique(s.groups, GroupId).Some? && Unique(Members(s), DeclarationId).Some? && Unique(Owners(s), OwnedId).Some?
    ensures var owners := GroupsOf(Unique(Owners(s), OwnedId).value);
            var g := Graph(s, Unique(s.groups, GroupId).value, Unique(Members(s), DeclarationId).value, owners, Relations(s));
            ReferencesHold(g) <==> WellFormed(s)
  {
    UniqueIff(Members(s), DeclarationId);
    UniqueIff(Owners(s), OwnedId);
    UniqueIff(s.columns, ColumnId);
    var owners := Unique(Owners(s), OwnedId).value;
    var declarations := Unique(Members(s), DeclarationId).value;
    forall id
      ensures id in owners <==> IsOwner(s, id)
    {
      IsOwnerIff(s, id);
    }
    forall id
      ensures id in declarations <==> exists e :: e in Members(s) && e.id == id
    {
      if id in declarations { assert declarations[id] in Members(s); }
    }
    if DistinctBy(s.columns, ColumnId) {
      var columns := Unique(s.columns, ColumnId).value;
      forall id
        ensures id in columns <==> exists c :: c in s.columns && c.id == id
      {
        if id in columns { assert columns[id] in s.columns; }
      }
    }
  }

  // ---------- what a graph that was read guarantees ----------

  ghost predicate GroupsFound(g: Graph) {
    && (forall group :: group in g.source.groups ==> group.id in g.groups && g.groups[group.id] == group)
    && (forall id :: id in g.groups ==> g.groups[id] in g.source.groups && g.groups[id].id == id)
  }

  ghost predicate OwnersFound(g: Graph) {
    && (forall id :: id in g.groups ==> id in g.owners && g.owners[id] == g.groups[id])
    && (forall group, d :: group in g.source.groups && d in group.members ==>
          && d.id in g.owners && g.owners[d.id] == group
          && d.id in g.declarations && g.declarations[d.id] == d && d.id !in g.groups)
    && (forall id :: id in g.owners ==> g.owners[id] in g.source.groups)
    && (forall id :: id in g.owners ==> id in g.groups || id in g.declarations)
    && (forall id :: id in g.declarations ==> id in g.owners && g.declarations[id] in g.owners[id].members && g.declarations[id].id == id)
  }

  ghost predicate ReferencesFound(g: Graph) {
    && (forall r :: r in g.relations ==> r.from in g.owners && r.to in g.owners)
    && (forall item :: item in Setup(g.source) && item.target.Some? ==> item.target.value in g.owners)
    && (forall group :: group in g.source.groups ==> HasColumn(g, group.columnId))
    && DistinctBy(g.source.columns, ColumnId)
    && DistinctBy(g.source.groups, GroupId)
    && DistinctBy(g.relations, RelationId)
  }

  ghost predicate HasColumn(g: Graph, id: string) {
    exists c :: c in g.source.columns && c.id == id
  }

  ghost predicate Linked(g: Graph) {
    GroupsFound(g) && OwnersFound(g) && ReferencesFound(g)
  }

  /** Every lookup a reader of the graph makes finds what it should. */
  lemma ValidIsLinked(g: Graph)
    requires Valid(g)
    ensures Linked(g)
  {
    ReadIff(g.source);
    UniqueIff(g.source.groups, GroupId);
    UniqueIff(Members(g.source), DeclarationId);
    UniqueIff(Owners(g.source), OwnedId);
    UniqueIff(Relations(g.source), RelationId);
    DistinctOwnersSuffice(g.source.groups);
    assert GroupsFound(g);
    OwnersAreFound(g);
    ReferencesAreFound(g);
  }

  lemma OwnerIsGroup(g: Graph, id: string)
    requires Linked(g) && id in g.owners
    ensures g.owners[id] in g.source.groups && g.owners[id].id in g.groups && g.groups[g.owners[id].id] == g.owners[id]
    ensures id in g.groups || id in g.declarations
  {
  }

  lemma EndsAreOwned(g: Graph, r: Relation)
    requires Linked(g) && r in g.relations
    ensures r.from in g.owners && r.to in g.owners
  {
  }

  ghost predicate Looked(g: Graph, owners: map<string, Owned>) {
    && Finds(owners, Owners(g.source), OwnedId) && g.owners == GroupsOf(owners)
    && Finds(g.declarations, Members(g.source), DeclarationId)
    && GroupsFound(g)
  }

  lemma OwnersAreFound(g: Graph)
    requires Valid(g) && GroupsFound(g)
    ensures OwnersFound(g)
  {
    UniqueFinds(Members(g.source), DeclarationId);
    UniqueFinds(Owners(g.source), OwnedId);
    var owners := Unique(Owners(g.source), OwnedId).value;
    forall id | id in g.groups ensures id in g.owners && g.owners[id] == g.groups[id] {
      OwnerOf(g, owners, g.groups[id], id);
    }
    forall group, d | group in g.source.groups && d in group.members
      ensures d.id in g.owners && g.owners[d.id] == group && d.id in g.declarations && g.declarations[d.id] == d && d.id !in g.groups
    {
      OwnerOf(g, owners, group, d.id);
      FlatMapMember(g.source.groups, MembersOf, d);
      MemberIsNoGroup(g, group, d);
    }
    forall id | id in g.owners
      ensures g.owners[id] in g.source.groups && (id in g.groups || id in g.declarations)
    {
      OwnedIsKnown(g, owners, id);
    }
    forall id | id in g.declarations
      ensures id in g.owners && g.declarations[id] in g.owners[id].members && g.declarations[id].id == id
    {
      FlatMapMember(g.source.groups, MembersOf, g.declarations[id]);
      var group :| group in g.source.groups && g.declarations[id] in MembersOf(group);
      OwnerOf(g, owners, group, id);
    }
  }

  lemma OwnerOf(g: Graph, owners: map<string, Owned>, group: Group, id: string)
    requires Looked(g, owners) && group in g.source.groups && (group.id == id || exists d :: d in group.members && d.id == id)
    ensures id in g.owners && g.owners[id] == group
  {
    OwnedByMember(group, Owned(id, group));
    OwnersMember(g.source, Owned(id, group));
  }

  lemma OwnedIsKnown(g: Graph, owners: map<string, Owned>, id: string)
    requires Looked(g, owners) && id in g.owners
    ensures g.owners[id] in g.source.groups && (id in g.groups || id in g.declarations)
  {
    OwnersMember(g.source, owners[id]);
    OwnedByMember(owners[id].group, owners[id]);
    if id != owners[id].group.id {
      var d :| d in owners[id].group.members && d.id == id;
      FlatMapMember(g.source.groups, MembersOf, d);
    }
  }

  /** A member's identity is never a group's: its group and that group would both own it. */
  lemma MemberIsNoGroup(g: Graph, group: Group, d: Declaration)
    requires Valid(g) && GroupsFound(g) && group in g.source.groups && d in group.members
    ensures d.id !in g.groups
  {
    if d.id in g.groups {
      UniqueIff(Owners(g.source), OwnedId);
      OwnTwice(g.source.groups, group, d, g.groups[d.id]);
    }
  }

  lemma {:induction false} OwnTwice(groups: seq<Group>, group: Group, d: Declaration, other: Group)
    requires DistinctBy(FlatMap(groups, OwnedBy), OwnedId)
    requires group in groups && other in groups && d in group.members && other.id == d.id
    ensures false
  {
    var init, last := groups[..|groups| - 1], groups[|groups| - 1];
    SplitLast(groups);
    DistinctParts(FlatMap(init, OwnedBy), OwnedBy(last));
    var x, y := Owned(d.id, group), Owned(other.id, other);
    OwnedByMember(group, x);
    OwnedByMember(other, y);
    FlatMapMember(init, OwnedBy, x);
    FlatMapMember(init, OwnedBy, y);
    if group in init && other in init {
      OwnTwice(init, group, d, other);
    } else if group == last && other == last {
      OwnIdsDiffer(last, d);
    }
  }

  lemma OwnIdsDiffer(group: Group, d: Declaration)
    requires DistinctBy(OwnedBy(group), OwnedId) && d in group.members
    ensures d.id != group.id
  {
    var i :| 0 <= i < |group.members| && group.members[i] == d;
    assert OwnedId(OwnedBy(group)[0]) != OwnedId(OwnedBy(group)[i + 1]);
  }

  lemma LeavingFrom(id: string, relations: seq<SourceRelation>, r: Relation)
    requires r in Leaving(id, relations)
    ensures r.from == id
  {
  }

  lemma ReferencesAreFound(g: Graph)
    requires Valid(g) && GroupsFound(g) && OwnersFound(g)
    requires DistinctBy(g.source.groups, GroupId) && DistinctBy(g.relations, RelationId)
    ensures ReferencesFound(g)
  {
    UniqueIff(g.source.columns, ColumnId);
    var columns := Unique(g.source.columns, ColumnId).value;
    forall group | group in g.source.groups ensures HasColumn(g, group.columnId) {
      assert columns[group.columnId] in g.source.columns;
    }
    forall r | r in g.relations ensures r.from in g.owners {
      SourceIsOwner(g, r);
    }
  }

  lemma SourceIsOwner(g: Graph, r: Relation)
    requires Valid(g) && GroupsFound(g) && OwnersFound(g) && r in g.relations
    ensures r.from in g.owners
  {
    FlatMapMember(g.source.groups, GroupRelations, r);
    FlatMapMember(Members(g.source), DeclarationRelations, r);
    if group :| group in g.source.groups && r in GroupRelations(group) {
      LeavingFrom(group.id, group.relations, r);
    } else {
      var d :| d in Members(g.source) && r in DeclarationRelations(d);
      LeavingFrom(d.id, d.relations, r);
      FlatMapMember(g.source.groups, MembersOf, d);
    }
  }
}
