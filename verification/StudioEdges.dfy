/** Relations bundled into the lines the map draws (packages/studio-ui/src/edges.lib.ts). */
module StudioEdges {
  import opened Wrappers
  import opened Sequences
  import opened StudioGraph
  import opened StudioView
  import opened StudioScope
  import opened StudioLayout

  /** What a line joins; serialised, its key. */
  datatype Line = Line(from: string, to: string, kind: string)

  datatype Bundle = Bundle(line: Line, originals: seq<Relation>)

  /** The line that draws a relation: its ends as displayed, or no line when both are inside one closed group. */
  function LineOf(g: Graph, v: View, e: Relation): Option<Option<Line>> {
    var from, to := DisplayUnit(g, v, e.from), DisplayUnit(g, v, e.to);
    if from.None? || to.None? then None
    else if from == to && from.value !in v.expanded then Some(None)
    else Some(Some(Line(from.value, to.value, RelationKind(e))))
  }

  function Put(bundles: seq<Bundle>, line: Line, e: Relation): seq<Bundle> {
    if bundles == [] then [Bundle(line, [e])]
    else if bundles[0].line == line then [Bundle(line, bundles[0].originals + [e])] + bundles[1..]
    else [bundles[0]] + Put(bundles[1..], line, e)
  }

  function Bundles(g: Graph, v: View, edges: seq<Relation>): Option<seq<Bundle>> {
    if edges == [] then Some([])
    else
      match Bundles(g, v, edges[..|edges| - 1])
      case None => None
      case Some(bundles) =>
        match LineOf(g, v, edges[|edges| - 1])
        case None => None
        case Some(None) => Some(bundles)
        case Some(Some(line)) => Some(Put(bundles, line, edges[|edges| - 1]))
  }

  /** The loop that fills the lines. */
  method CollectBundles(g: Graph, v: View, edges: seq<Relation>) returns (r: Option<seq<Bundle>>)
    ensures r == Bundles(g, v, edges)
  {
    var result: seq<Bundle> := [];
    for i := 0 to |edges|
      invariant Bundles(g, v, edges[..i]) == Some(result)
    {
      assert edges[..i + 1][..i] == edges[..i];
      var line := LineOf(g, v, edges[i]);
      if line.None? {
        BundlesFail(g, v, edges, i + 1);
        return None;
      }
      if line.value.Some? { result := Put(result, line.value.value, edges[i]); }
    }
    assert edges[..|edges|] == edges;
    return Some(result);
  }

  lemma {:induction false} BundlesFail(g: Graph, v: View, edges: seq<Relation>, k: nat)
    requires k <= |edges| && Bundles(g, v, edges[..k]).None?
    ensures Bundles(g, v, edges).None?
  {
    if k == |edges| {
      assert edges[..k] == edges;
    } else {
      assert edges[..|edges| - 1][..k] == edges[..k];
      BundlesFail(g, v, edges[..|edges| - 1], k);
    }
  }

  // ---------- what the lines hold ----------

  function DrawnBy(g: Graph, v: View, line: Line): Relation -> bool {
    (e: Relation) => LineOf(g, v, e) == Some(Some(line))
  }

  function Find(bundles: seq<Bundle>, line: Line): Option<Bundle> {
    if bundles == [] then None else if bundles[0].line == line then Some(bundles[0]) else Find(bundles[1..], line)
  }

  lemma {:induction false} FindPut(bundles: seq<Bundle>, line: Line, e: Relation, k: Line)
    ensures var before := Find(bundles, k);
            Find(Put(bundles, line, e), k) ==
            if k == line then Some(Bundle(k, (if before.Some? then before.value.originals else []) + [e])) else before
  {
    if bundles == [] {
      assert [] + [e] == [e];
    } else if bundles[0].line != line {
      FindPut(bundles[1..], line, e, k);
    }
  }

  /** Each line stands for exactly the relations drawn by it, in order; a line that draws none is not there. */
  lemma {:induction false} LinesHold(g: Graph, v: View, edges: seq<Relation>, line: Line)
    requires Bundles(g, v, edges).Some?
    ensures var drawn := Filter(edges, DrawnBy(g, v, line));
            Find(Bundles(g, v, edges).value, line) == if drawn == [] then None else Some(Bundle(line, drawn))
  {
    if edges != [] {
      var init, e := edges[..|edges| - 1], edges[|edges| - 1];
      LinesHold(g, v, init, line);
      var before, own := Filter(init, DrawnBy(g, v, line)), if DrawnBy(g, v, line)(e) then [e] else [];
      assert Filter(edges, DrawnBy(g, v, line)) == before + own;
      assert own == [] ==> before + own == before;
      assert before == [] ==> before + own == own;
      if LineOf(g, v, e).value.Some? { FindPut(Bundles(g, v, init).value, LineOf(g, v, e).value.value, e, line); }
    }
  }

  predicate DistinctLines(bundles: seq<Bundle>) {
    bundles == [] || (DistinctLines(bundles[1..]) && forall b :: b in bundles[1..] ==> b.line != bundles[0].line)
  }

  lemma {:induction false} PutDistinct(bundles: seq<Bundle>, line: Line, e: Relation)
    requires DistinctLines(bundles)
    ensures DistinctLines(Put(bundles, line, e))
    ensures forall b :: b in Put(bundles, line, e) ==> b.line == line || exists c :: c in bundles && c.line == b.line
  {
    if bundles != [] {
      assert bundles[0] in bundles && forall c :: c in bundles[1..] ==> c in bundles;
      if bundles[0].line != line {
        PutDistinct(bundles[1..], line, e);
        assert Put(bundles, line, e)[1..] == Put(bundles[1..], line, e);
      }
    }
  }

  /** No relation is drawn twice: no two lines have the same ends and kind. */
  lemma {:induction false} LinesDistinct(g: Graph, v: View, edges: seq<Relation>)
    requires Bundles(g, v, edges).Some?
    ensures DistinctLines(Bundles(g, v, edges).value)
  {
    if edges != [] {
      var init, e := edges[..|edges| - 1], edges[|edges| - 1];
      LinesDistinct(g, v, init);
      if LineOf(g, v, e).value.Some? { PutDistinct(Bundles(g, v, init).value, LineOf(g, v, e).value.value, e); }
    }
  }

  // ---------- drawing ----------

  datatype Subject = OfDeclaration(declaration: Declaration) | OfGroup(group: Group)

  function NameOf(s: Subject): string {
    match s
    case OfDeclaration(d) => d.name
    case OfGroup(group) => group.name
  }

  /** None is the unknown identity error. */
  function SubjectOf(g: Graph, id: string): Option<Subject> {
    if id in g.declarations then Some(OfDeclaration(g.declarations[id]))
    else if id in g.groups then Some(OfGroup(g.groups[id]))
    else None
  }

  /** One line of a title: who relates how to whom. */
  datatype Title = Title(from: string, kind: string, to: string)

  function TitleOf(g: Graph): Relation -> Option<Title> {
    (e: Relation) =>
      var from, to := SubjectOf(g, e.from), SubjectOf(g, e.to);
      if from.None? || to.None? then None else Some(Title(NameOf(from.value), RelationKind(e), NameOf(to.value)))
  }

  function RelationTitle(g: Graph, edges: seq<Relation>): Option<seq<Title>> {
    Collect(edges, TitleOf(g))
  }

  function SamePair(line: Line): Bundle -> bool {
    (b: Bundle) => (b.line.from == line.from && b.line.to == line.to) || (b.line.from == line.to && b.line.to == line.from)
  }

  function IndexOf<T(==)>(xs: seq<T>, x: T): nat
    requires x in xs
  {
    if xs[0] == x then 0 else 1 + IndexOf(xs[1..], x)
  }

  /** How far a line is moved aside from the others between the same two ends. */
  function Offset(index: nat, count: nat): real
    requires count > 0
  {
    var step := 28.0 / count as real;
    (index as real - (count as real - 1.0) / 2.0) * (if step < 10.0 then step else 10.0)
  }

  datatype EdgeModel = EdgeModel(line: Line, ids: seq<string>, title: seq<Title>, start: Rect, end: Rect, offset: real, count: Option<nat>)

  function Ids(relations: seq<Relation>): seq<string> {
    seq(|relations|, i requires 0 <= i < |relations| => relations[i].id)
  }

  function ProjectOne(g: Graph, v: View, geometry: Layout, projected: seq<Bundle>): Bundle -> Option<EdgeModel> {
    (b: Bundle) =>
      var parallels := Filter(projected, SamePair(b.line));
      var start, end := Position(g, v, geometry, b.line.from), Position(g, v, geometry, b.line.to);
      var title := RelationTitle(g, b.originals);
      if start.None? || end.None? || title.None? then None
      else
        Some(EdgeModel(b.line, Ids(b.originals), title.value, start.value, end.value,
                       if b in parallels then Offset(IndexOf(parallels, b), |parallels|) else 0.0,
                       if v.options.showCounts && |b.originals| > 1 then Some(|b.originals|) else None))
  }

  function ProjectEdges(g: Graph, v: View, geometry: Layout, edges: seq<Relation>): Option<seq<EdgeModel>> {
    match Bundles(g, v, edges)
    case None => None
    case Some(projected) => Collect(projected, ProjectOne(g, v, geometry, projected))
  }

  // ---------- parallel lines ----------

  lemma {:induction false} IndexOfIs<T>(xs: seq<T>, x: T)
    requires x in xs
    ensures IndexOf(xs, x) < |xs| && xs[IndexOf(xs, x)] == x
  {
    if xs[0] != x { IndexOfIs(xs[1..], x); }
  }

  /** Offsets grow with the index, by the same step, and stay within fourteen of the middle. */
  lemma OffsetsFan(i: nat, j: nat, count: nat)
    requires i < count && j < count
    ensures i < j ==> Offset(i, count) < Offset(j, count)
    ensures -14.0 < Offset(i, count) < 14.0
  {
    var n := count as real;
    var full := 28.0 / n;
    assert full * n == 28.0;
    var step := if full < 10.0 then full else 10.0;
    assert 0.0 < step <= full;
    var place := i as real - (n - 1.0) / 2.0;
    assert -(n - 1.0) / 2.0 <= place <= (n - 1.0) / 2.0;
    assert full * ((n - 1.0) / 2.0) == 14.0 - full / 2.0;
    if i < j {
      var other := j as real - (n - 1.0) / 2.0;
    }
  }

  lemma PlacesDiffer(parallels: seq<Bundle>, a: Bundle, b: Bundle)
    requires a in parallels && b in parallels && a != b
    ensures Offset(IndexOf(parallels, a), |parallels|) != Offset(IndexOf(parallels, b), |parallels|)
    ensures -14.0 < Offset(IndexOf(parallels, a), |parallels|) < 14.0
  {
    IndexOfIs(parallels, a);
    IndexOfIs(parallels, b);
    OffsetsDiffer(IndexOf(parallels, a), IndexOf(parallels, b), |parallels|);
  }

  lemma OffsetsDiffer(i: nat, j: nat, count: nat)
    requires i < count && j < count && i != j
    ensures Offset(i, count) != Offset(j, count) && -14.0 < Offset(i, count) < 14.0
  {
    OffsetsFan(i, j, count);
    OffsetsFan(j, i, count);
  }

  /** Different lines between the same two ends are drawn apart, and each close enough to meet its ends' anchors. */
  lemma ParallelLinesApart(projected: seq<Bundle>, a: Bundle, b: Bundle)
    requires a in projected && b in projected && a != b && SamePair(a.line)(b)
    ensures var parallels := Filter(projected, SamePair(a.line));
            && Filter(projected, SamePair(b.line)) == parallels && a in parallels && b in parallels
            && Offset(IndexOf(parallels, a), |parallels|) != Offset(IndexOf(parallels, b), |parallels|)
            && -14.0 < Offset(IndexOf(parallels, a), |parallels|) < 14.0
  {
    FilterSame(projected, SamePair(a.line), SamePair(b.line));
    FilterMember(projected, SamePair(a.line), a);
    FilterMember(projected, SamePair(a.line), b);
    PlacesDiffer(Filter(projected, SamePair(a.line)), a, b);
  }

  // ---------- every lookup succeeds ----------

  lemma SubjectKnown(g: Graph, id: string)
    requires Linked(g) && id in g.owners
    ensures SubjectOf(g, id).Some?
  {
    OwnerIsGroup(g, id);
  }

  lemma TitleKnown(g: Graph, relations: seq<Relation>)
    requires Linked(g) && forall r :: r in relations ==> r in g.relations
    ensures RelationTitle(g, relations).Some?
  {
    forall r | r in relations ensures TitleOf(g)(r).Some? {
      EndsAreOwned(g, r);
      SubjectKnown(g, r.from);
      SubjectKnown(g, r.to);
    }
    CollectTotal(relations, TitleOf(g));
  }

  /** A bundle's ends are things the graph has and its relations are among those given. */
  ghost predicate BundleKnown(g: Graph, v: View, edges: seq<Relation>, b: Bundle) {
    && b.originals != [] && (forall r :: r in b.originals ==> r in edges && LineOf(g, v, r) == Some(Some(b.line)))
    && b.line.from in g.owners && b.line.to in g.owners
  }

  lemma {:induction false} PutKnown(g: Graph, v: View, edges: seq<Relation>, bundles: seq<Bundle>, line: Line, e: Relation)
    requires forall b :: b in bundles ==> BundleKnown(g, v, edges, b)
    requires e in edges && LineOf(g, v, e) == Some(Some(line)) && line.from in g.owners && line.to in g.owners
    ensures forall b :: b in Put(bundles, line, e) ==> BundleKnown(g, v, edges, b)
  {
    if bundles != [] {
      assert forall b :: b in bundles[1..] ==> b in bundles;
      assert bundles[0] in bundles;
      if bundles[0].line != line {
        PutKnown(g, v, edges, bundles[1..], line, e);
      }
    }
  }

  lemma {:induction false} BundlesKnown(g: Graph, v: View, edges: seq<Relation>, k: nat)
    requires Linked(g) && k <= |edges| && forall r :: r in edges ==> r in g.relations
    ensures Bundles(g, v, edges[..k]).Some?
    ensures forall b :: b in Bundles(g, v, edges[..k]).value ==> BundleKnown(g, v, edges, b)
  {
    if k > 0 {
      BundlesKnown(g, v, edges, k - 1);
      LineKnown(g, v, edges[k - 1]);
      BundleAdded(g, v, edges, k);
      var line := LineOf(g, v, edges[k - 1]).value;
      if line.Some? { PutKnown(g, v, edges, Bundles(g, v, edges[..k - 1]).value, line.value, edges[k - 1]); }
    }
  }

  lemma LineKnown(g: Graph, v: View, e: Relation)
    requires Linked(g) && e in g.relations
    ensures LineOf(g, v, e).Some?
    ensures LineOf(g, v, e).value.Some? ==>
              LineOf(g, v, e).value.value.from in g.owners && LineOf(g, v, e).value.value.to in g.owners
  {
    EndsAreOwned(g, e);
    OwnerIsGroup(g, e.from);
    OwnerIsGroup(g, e.to);
  }

  lemma BundleAdded(g: Graph, v: View, edges: seq<Relation>, k: nat)
    requires 0 < k <= |edges| && Bundles(g, v, edges[..k - 1]).Some? && LineOf(g, v, edges[k - 1]).Some?
    ensures var before, line := Bundles(g, v, edges[..k - 1]).value, LineOf(g, v, edges[k - 1]).value;
            Bundles(g, v, edges[..k]) == Some(if line.Some? then Put(before, line.value, edges[k - 1]) else before)
  {
    assert edges[..k][..k - 1] == edges[..k - 1];
  }
}
