/**
 The map's geometry: boxes never overlap and stay inside their column and the map, and members stay inside
 their group, although a group's height is summed in one order and its members are placed in another.
 */
module StudioLayoutProofs {
  import opened Wrappers
  import opened Sequences
  import Ordering
  import opened StudioGraph
  import opened StudioView
  import opened StudioRelations
  import opened StudioLayout

  // ---------- members inside their group ----------

  lemma {:induction false} RowsPositive(members: seq<Declaration>)
    ensures RowsHeight(members) >= 0.0
  {
    if members != [] { RowsPositive(members[..|members| - 1]); }
  }

  lemma {:induction false} RowsAppend(a: seq<Declaration>, b: seq<Declaration>)
    ensures RowsHeight(a + b) == RowsHeight(a) + RowsHeight(b)
  {
    if b == [] {
      assert a + b == a;
    } else {
      assert (a + b)[..|a + b| - 1] == a + b[..|b| - 1];
      RowsAppend(a, b[..|b| - 1]);
    }
  }

  lemma {:induction false} RowsInsert(d: Declaration, sorted: seq<Declaration>)
    ensures RowsHeight(Ordering.Insert(d, sorted, MemberOrder)) == RowsHeight(sorted) + RowHeight(d)
  {
    var placed := Ordering.Insert(d, sorted, MemberOrder);
    assert placed[..|placed| - 1] + [placed[|placed| - 1]] == placed;
    if sorted != [] && !MemberOrder(sorted[|sorted| - 1], d) {
      RowsInsert(d, sorted[..|sorted| - 1]);
      assert placed[..|placed| - 1] == Ordering.Insert(d, sorted[..|sorted| - 1], MemberOrder);
    } else {
      assert placed[..|placed| - 1] == sorted;
    }
  }

  /** The total height of the rows is the same in source order as in the order the members are listed. */
  lemma {:induction false} RowsSorted(members: seq<Declaration>)
    ensures RowsHeight(Ordering.Sort(members, MemberOrder)) == RowsHeight(members)
  {
    if members != [] {
      var init, last := members[..|members| - 1], members[|members| - 1];
      RowsSorted(init);
      RowsInsert(last, Ordering.Sort(init, MemberOrder));
    }
  }

  /** Box i sits under the rows of the members before it. */
  lemma {:induction false} BoxAt(members: seq<Declaration>, top: real, i: nat)
    requires i < |members|
    ensures |BoxesFrom(members, top)| == |members|
    ensures BoxesFrom(members, top)[i] == MemberBox(members[i], top + RowsHeight(members[..i]), RowHeight(members[i]) - ROW_MARGIN)
  {
    var init := members[..|members| - 1];
    if |init| > 0 { BoxAt(init, top, 0); }
    if i < |init| {
      BoxAt(init, top, i);
      assert init[..i] == members[..i];
    }
  }

  lemma RowsUpTo(members: seq<Declaration>, i: nat, j: nat)
    requires i < j <= |members|
    ensures RowsHeight(members[..i]) + RowHeight(members[i]) <= RowsHeight(members[..j])
  {
    RowsPositive(members[i + 1..j]);
    RowsAppend(members[..i], [members[i]]);
    RowsAppend(members[..i] + [members[i]], members[i + 1..j]);
    assert members[..j] == members[..i] + [members[i]] + members[i + 1..j];
  }

  /**
   Members' boxes start below the header, follow each other a margin apart, and end within the height the
   group was given for them.
   */
  lemma MembersFit(group: Group, i: nat, j: nat)
    requires i <= j < |MemberBoxes(group)|
    ensures var boxes := MemberBoxes(group);
            && HEADER_HEIGHT <= boxes[i].top && ROW_HEIGHT - ROW_MARGIN <= boxes[i].height
            && (i < j ==> boxes[i].top + boxes[i].height + ROW_MARGIN <= boxes[j].top)
            && boxes[j].top + boxes[j].height + ROW_MARGIN <= HEADER_HEIGHT + RowsHeight(group.members)
  {
    var members := SourceOrderedMembers(group);
    if members != [] { BoxAt(members, HEADER_HEIGHT, 0); }
    BoxAt(members, HEADER_HEIGHT, i);
    BoxAt(members, HEADER_HEIGHT, j);
    RowsPositive(members[..i]);
    if i < j { RowsUpTo(members, i, j); }
    RowsUpTo(members, j, |members|);
    assert members[..|members|] == members;
    RowsSorted(group.members);
  }

  // ---------- a column ----------

  /** How far down the n-th group of a column starts. */
  function Top(groups: seq<Group>, n: nat, v: View, notes: seq<Attachment>): real
    requires n <= |groups|
  {
    if n == 0 then COLUMN_TOP else Top(groups, n - 1, v, notes) + GroupHeight(v, notes, groups[n - 1]) + GROUP_GAP
  }

  function BoxOf(groups: seq<Group>, n: nat, x: real, width: real, v: View, notes: seq<Attachment>): Rect
    requires n < |groups|
  {
    Rect(x + 14.0, Top(groups, n, v, notes), width - 28.0, GroupHeight(v, notes, groups[n]))
  }

  ghost predicate DistinctIds(groups: seq<Group>) {
    DistinctBy(groups, GroupId)
  }

  lemma {:induction false} TopOfPrefix(groups: seq<Group>, k: nat, n: nat, v: View, notes: seq<Attachment>)
    requires n <= k <= |groups|
    ensures Top(groups[..k], n, v, notes) == Top(groups, n, v, notes)
  {
    if n > 0 { TopOfPrefix(groups, k, n - 1, v, notes); }
  }

  predicate PlacedAt(boxes: map<string, Rect>, groups: seq<Group>, n: nat, x: real, width: real, v: View, notes: seq<Attachment>)
    requires n < |groups|
  {
    groups[n].id in boxes && boxes[groups[n].id] == BoxOf(groups, n, x, width, v, notes)
  }

  ghost predicate Placed(boxes: map<string, Rect>, groups: seq<Group>, x: real, width: real, v: View, notes: seq<Attachment>) {
    forall n :: 0 <= n < |groups| ==> PlacedAt(boxes, groups, n, x, width, v, notes)
  }

  ghost predicate HasId(groups: seq<Group>, id: string) {
    exists n :: 0 <= n < |groups| && groups[n].id == id
  }

  /** Boxes of other groups are neither added nor changed. */
  ghost predicate OnlyPlaces(before: map<string, Rect>, after: map<string, Rect>, groups: seq<Group>) {
    forall id :: !HasId(groups, id) ==> (id in after <==> id in before) && (id in before ==> after[id] == before[id])
  }

  lemma {:induction false} PlacedY(p: Pen, groups: seq<Group>, x: real, width: real, shown: bool, v: View, notes: seq<Attachment>)
    requires p.y == COLUMN_TOP
    ensures PlaceGroups(p, groups, x, width, shown, v, notes).y == Top(groups, |groups|, v, notes)
  {
    if groups != [] {
      var k := |groups| - 1;
      PlacedY(p, groups[..k], x, width, shown, v, notes);
      TopOfPrefix(groups, k, k, v, notes);
    }
  }

  /** Placing a column gives each of its groups its box. */
  lemma {:induction false} PlacedGroups(p: Pen, groups: seq<Group>, x: real, width: real, shown: bool, v: View, notes: seq<Attachment>)
    requires DistinctIds(groups) && p.y == COLUMN_TOP
    ensures Placed(PlaceGroups(p, groups, x, width, shown, v, notes).boxes, groups, x, width, v, notes)
  {
    if groups != [] {
      var k := |groups| - 1;
      var init := groups[..k];
      DistinctPrefix(groups, k);
      PlacedGroups(p, init, x, width, shown, v, notes);
      PlacedY(p, init, x, width, shown, v, notes);
      TopOfPrefix(groups, k, k, v, notes);
      PlacedOneMore(PlaceGroups(p, init, x, width, shown, v, notes), groups, x, width, shown, v, notes);
    }
  }

  lemma PlacedOneMore(p: Pen, groups: seq<Group>, x: real, width: real, shown: bool, v: View, notes: seq<Attachment>)
    requires groups != [] && DistinctIds(groups)
    requires Placed(p.boxes, groups[..|groups| - 1], x, width, v, notes) && p.y == Top(groups, |groups| - 1, v, notes)
    ensures Placed(PlaceGroup(p, groups[|groups| - 1], x, width, shown, v, notes).boxes, groups, x, width, v, notes)
  {
    var k := |groups| - 1;
    var last := BoxOf(groups, k, x, width, v, notes);
    var after := p.boxes[groups[k].id := last];
    assert PlaceGroup(p, groups[k], x, width, shown, v, notes).boxes == after;
    forall n | 0 <= n < k
      ensures PlacedAt(after, groups, n, x, width, v, notes)
    {
      assert PlacedAt(p.boxes, groups[..k], n, x, width, v, notes);
      EarlierStaysPlaced(p.boxes, groups, n, x, width, v, notes, last);
    }
  }

  /** Placing the last group leaves the box of an earlier one where it was. */
  lemma EarlierStaysPlaced(boxes: map<string, Rect>, groups: seq<Group>, n: nat, x: real, width: real, v: View,
                           notes: seq<Attachment>, last: Rect)
    requires n < |groups| - 1 && DistinctIds(groups) && PlacedAt(boxes, groups[..|groups| - 1], n, x, width, v, notes)
    ensures PlacedAt(boxes[groups[|groups| - 1].id := last], groups, n, x, width, v, notes)
  {
    var k := |groups| - 1;
    TopOfPrefix(groups, k, n, v, notes);
    assert groups[..k][n] == groups[n] && GroupId(groups[n]) != GroupId(groups[k]);
  }

  lemma {:induction false} OnlyPlaced(p: Pen, groups: seq<Group>, x: real, width: real, shown: bool, v: View, notes: seq<Attachment>)
    ensures OnlyPlaces(p.boxes, PlaceGroups(p, groups, x, width, shown, v, notes).boxes, groups)
  {
    if groups != [] {
      var k := |groups| - 1;
      OnlyPlaced(p, groups[..k], x, width, shown, v, notes);
      forall id | !HasId(groups, id)
        ensures !HasId(groups[..k], id) && id != groups[k].id
      {
      }
    }
  }

  lemma DistinctPrefix(groups: seq<Group>, k: nat)
    requires DistinctIds(groups) && k <= |groups|
    ensures DistinctIds(groups[..k])
  {
    forall i, j | 0 <= i < j < k ensures GroupId(groups[..k][i]) != GroupId(groups[..k][j]) {
      assert GroupId(groups[i]) != GroupId(groups[j]);
    }
  }

  lemma HeightPositive(v: View, notes: seq<Attachment>, group: Group)
    ensures GroupHeight(v, notes, group) >= HEADER_HEIGHT
  {
    RowsPositive(group.members);
  }

  /** Groups further down start at least the gap below the end of those above. */
  lemma {:induction false} TopsDescend(groups: seq<Group>, m: nat, n: nat, v: View, notes: seq<Attachment>)
    requires m < n <= |groups|
    ensures Top(groups, m, v, notes) + GroupHeight(v, notes, groups[m]) + GROUP_GAP <= Top(groups, n, v, notes)
  {
    if m < n - 1 {
      TopsDescend(groups, m, n - 1, v, notes);
      HeightPositive(v, notes, groups[n - 1]);
    }
  }

  lemma {:induction false} TopsBelow(groups: seq<Group>, n: nat, v: View, notes: seq<Attachment>)
    requires n <= |groups|
    ensures Top(groups, n, v, notes) >= COLUMN_TOP
  {
    if n > 0 {
      TopsBelow(groups, n - 1, v, notes);
      HeightPositive(v, notes, groups[n - 1]);
    }
  }

  /** Where the box of the n-th group of a column ends. */
  function End(groups: seq<Group>, n: nat, v: View, notes: seq<Attachment>): real
    requires n < |groups|
  {
    Top(groups, n, v, notes) + GroupHeight(v, notes, groups[n])
  }

  ghost predicate EndBy(groups: seq<Group>, bottom: real, v: View, notes: seq<Attachment>) {
    forall n :: 0 <= n < |groups| ==> End(groups, n, v, notes) <= bottom
  }

  lemma EndOfPrefix(groups: seq<Group>, k: nat, n: nat, v: View, notes: seq<Attachment>)
    requires n < k <= |groups|
    ensures End(groups[..k], n, v, notes) == End(groups, n, v, notes)
  {
    TopOfPrefix(groups, k, n, v, notes);
    assert groups[..k][n] == groups[n];
  }

  lemma OneMoreEnds(groups: seq<Group>, before: real, bottom: real, v: View, notes: seq<Attachment>)
    requires groups != [] && EndBy(groups[..|groups| - 1], before, v, notes)
    requires before <= bottom && End(groups, |groups| - 1, v, notes) <= bottom
    ensures EndBy(groups, bottom, v, notes)
  {
    forall n | 0 <= n < |groups| - 1
      ensures End(groups, n, v, notes) <= bottom
    {
      EndOfPrefix(groups, |groups| - 1, n, v, notes);
    }
  }

  /** The bottom only moves down, and below every box of a shown column. */
  lemma {:induction false} BottomBelow(p: Pen, groups: seq<Group>, x: real, width: real, shown: bool, v: View, notes: seq<Attachment>)
    requires p.y == COLUMN_TOP
    ensures p.bottom <= PlaceGroups(p, groups, x, width, shown, v, notes).bottom
    ensures shown ==> EndBy(groups, PlaceGroups(p, groups, x, width, shown, v, notes).bottom, v, notes)
  {
    if groups != [] {
      var k := |groups| - 1;
      var before := PlaceGroups(p, groups[..k], x, width, shown, v, notes);
      BottomBelow(p, groups[..k], x, width, shown, v, notes);
      PlacedY(p, groups[..k], x, width, shown, v, notes);
      TopOfPrefix(groups, k, k, v, notes);
      if shown { OneMoreEnds(groups, before.bottom, PlaceGroup(before, groups[k], x, width, shown, v, notes).bottom, v, notes); }
    }
  }

  // ---------- all columns ----------

  /** Where a column starts: after the shown columns before it. */
  function ColumnX(columns: seq<Column>, k: nat, v: View): real
    requires k <= |columns|
  {
    if k == 0 then 0.0 else ColumnX(columns, k - 1, v) + (if Shown(columns[k - 1], v) then columns[k - 1].width else 0.0)
  }

  lemma {:induction false} ColumnXOfPrefix(columns: seq<Column>, k: nat, n: nat, v: View)
    requires n <= k <= |columns|
    ensures ColumnX(columns[..k], n, v) == ColumnX(columns, n, v)
  {
    if n > 0 { ColumnXOfPrefix(columns, k, n - 1, v); }
  }

  /** A column's groups are the graph's groups in that column, each once, in source order. */
  lemma ColumnGroupsAre(g: Graph, c: Column)
    requires Linked(g)
    ensures DistinctIds(ColumnGroups(g, c))
    ensures forall group :: group in ColumnGroups(g, c) <==> group in g.source.groups && group.columnId == c.id
  {
    var found := Filter(g.source.groups, InColumn(c.id));
    FilterDistinct(g.source.groups, InColumn(c.id));
    Ordering.SortDistinct(found, GroupOrder);
    forall group
      ensures group in ColumnGroups(g, c) <==> group in g.source.groups && group.columnId == c.id
    {
      FilterMember(g.source.groups, InColumn(c.id), group);
    }
  }

  ghost predicate AllPlaced(boxes: map<string, Rect>, g: Graph, columns: seq<Column>, v: View, notes: seq<Attachment>) {
    forall k :: 0 <= k < |columns| ==>
      Placed(boxes, ColumnGroups(g, columns[k]), ColumnX(columns, k, v), columns[k].width, v, notes)
  }

  lemma {:induction false} PlacedX(g: Graph, columns: seq<Column>, v: View, notes: seq<Attachment>)
    ensures PlaceColumns(g, columns, v, notes).x == ColumnX(columns, |columns|, v)
  {
    if columns != [] {
      var k := |columns| - 1;
      PlacedX(g, columns[..k], v, notes);
      ColumnXOfPrefix(columns, k, k, v);
    }
  }

  lemma {:induction false} PlacedColumns(g: Graph, columns: seq<Column>, v: View, notes: seq<Attachment>)
    requires Linked(g) && DistinctBy(columns, ColumnId)
    ensures AllPlaced(PlaceColumns(g, columns, v, notes).boxes, g, columns, v, notes)
  {
    if columns != [] {
      var k := |columns| - 1;
      PlacedColumns(g, columns[..k], v, notes);
      PlacedX(g, columns[..k], v, notes);
      ColumnXOfPrefix(columns, k, k, v);
      LastPlaced(PlaceColumns(g, columns[..k], v, notes), g, columns[k], v, notes);
      EarlierStay(PlaceColumns(g, columns[..k], v, notes).boxes, PlaceColumns(g, columns, v, notes).boxes, g, columns, v, notes);
    }
  }

  lemma LastPlaced(s: Sheet, g: Graph, c: Column, v: View, notes: seq<Attachment>)
    requires Linked(g)
    ensures var after := PlaceColumn(s, g, c, v, notes).boxes;
            Placed(after, ColumnGroups(g, c), s.x, c.width, v, notes) && OnlyPlaces(s.boxes, after, ColumnGroups(g, c))
  {
    ColumnGroupsAre(g, c);
    var pen := Pen(s.boxes, COLUMN_TOP, s.bottom);
    PlacedGroups(pen, ColumnGroups(g, c), s.x, c.width, Shown(c, v), v, notes);
    OnlyPlaced(pen, ColumnGroups(g, c), s.x, c.width, Shown(c, v), v, notes);
  }

  lemma EarlierStay(before: map<string, Rect>, after: map<string, Rect>, g: Graph, columns: seq<Column>, v: View, notes: seq<Attachment>)
    requires Linked(g) && columns != [] && DistinctBy(columns, ColumnId)
    requires AllPlaced(before, g, columns[..|columns| - 1], v, notes)
    requires OnlyPlaces(before, after, ColumnGroups(g, columns[|columns| - 1]))
    ensures forall n :: 0 <= n < |columns| - 1 ==>
              Placed(after, ColumnGroups(g, columns[n]), ColumnX(columns, n, v), columns[n].width, v, notes)
  {
    var k := |columns| - 1;
    forall n | 0 <= n < k
      ensures Placed(after, ColumnGroups(g, columns[n]), ColumnX(columns, n, v), columns[n].width, v, notes)
    {
      ColumnXOfPrefix(columns, k, n, v);
      assert columns[..k][n] == columns[n];
      ColumnsApart(g, columns[n], columns[k]);
      StaysPlaced(before, after, ColumnGroups(g, columns[n]), ColumnGroups(g, columns[k]),
                  ColumnX(columns, n, v), columns[n].width, v, notes);
    }
  }

  lemma ColumnsApart(g: Graph, c: Column, d: Column)
    requires Linked(g) && c.id != d.id
    ensures forall group :: group in ColumnGroups(g, c) ==> !HasId(ColumnGroups(g, d), group.id)
  {
    ColumnGroupsAre(g, c);
    ColumnGroupsAre(g, d);
    forall group | group in ColumnGroups(g, c) ensures !HasId(ColumnGroups(g, d), group.id) {
      forall n | 0 <= n < |ColumnGroups(g, d)| ensures ColumnGroups(g, d)[n].id != group.id {
        var other := ColumnGroups(g, d)[n];
        assert other in ColumnGroups(g, d);
        assert g.groups[other.id] == other && g.groups[group.id] == group;
      }
    }
  }

  lemma StaysPlaced(before: map<string, Rect>, after: map<string, Rect>, groups: seq<Group>, added: seq<Group>,
                    x: real, width: real, v: View, notes: seq<Attachment>)
    requires Placed(before, groups, x, width, v, notes) && OnlyPlaces(before, after, added)
    requires forall group :: group in groups ==> !HasId(added, group.id)
    ensures Placed(after, groups, x, width, v, notes)
  {
    forall n | 0 <= n < |groups|
      ensures PlacedAt(after, groups, n, x, width, v, notes)
    {
      assert groups[n] in groups && PlacedAt(before, groups, n, x, width, v, notes);
    }
  }

  /** Where the n-th box of a column ends. */
  function BoxEnd(g: Graph, c: Column, n: nat, v: View, notes: seq<Attachment>): real
    requires n < |ColumnGroups(g, c)|
  {
    End(ColumnGroups(g, c), n, v, notes)
  }

  lemma BottomOfColumn(s: Sheet, g: Graph, c: Column, n: nat, v: View, notes: seq<Attachment>)
    requires n < |ColumnGroups(g, c)|
    ensures Shown(c, v) ==> BoxEnd(g, c, n, v, notes) <= PlaceColumn(s, g, c, v, notes).bottom
  {
    BottomBelow(Pen(s.boxes, COLUMN_TOP, s.bottom), ColumnGroups(g, c), s.x, c.width, Shown(c, v), v, notes);
  }

  lemma BottomKept(s: Sheet, g: Graph, c: Column, v: View, notes: seq<Attachment>)
    ensures s.bottom <= PlaceColumn(s, g, c, v, notes).bottom
  {
    BottomBelow(Pen(s.boxes, COLUMN_TOP, s.bottom), ColumnGroups(g, c), s.x, c.width, Shown(c, v), v, notes);
  }

  lemma {:induction false} BottomOfColumns(g: Graph, columns: seq<Column>, c: Column, n: nat, v: View, notes: seq<Attachment>)
    requires c in columns && Shown(c, v) && n < |ColumnGroups(g, c)|
    ensures BoxEnd(g, c, n, v, notes) <= PlaceColumns(g, columns, v, notes).bottom
  {
    var init, last := columns[..|columns| - 1], columns[|columns| - 1];
    var before := PlaceColumns(g, init, v, notes);
    if c == last {
      BottomOfColumn(before, g, c, n, v, notes);
    } else {
      SplitLast(columns);
      BottomOfColumns(g, init, c, n, v, notes);
      BottomKept(before, g, last, v, notes);
    }
  }

  // ---------- source order ----------

  lemma GroupOrderTotal()
    ensures Ordering.TotalPreorder(GroupOrder)
  {
    forall a: Group, b: Group
      ensures GroupOrder(a, b) || GroupOrder(b, a)
    {
      Ordering.StringOrder(a.filePath, b.filePath);
      Ordering.StringOrder(a.id, b.id);
    }
    forall a: Group, b: Group, c: Group | GroupOrder(a, b) && GroupOrder(b, c)
      ensures GroupOrder(a, c)
    {
      GroupOrderTransitive(a, b, c);
    }
  }

  lemma GroupOrderTransitive(a: Group, b: Group, c: Group)
    requires GroupOrder(a, b) && GroupOrder(b, c)
    ensures GroupOrder(a, c)
  {
    Ordering.StringOrder(a.filePath, b.filePath);
    Ordering.StringOrder(b.filePath, c.filePath);
    if a.filePath != b.filePath && b.filePath != c.filePath {
      Ordering.StringTransitive(a.filePath, b.filePath, c.filePath);
      Ordering.StringOrder(a.filePath, c.filePath);
    }
    if a.filePath == b.filePath == c.filePath && a.startLine == b.startLine == c.startLine { NotLessTransitive(a.id, b.id, c.id); }
  }

  lemma NotLessTransitive(a: string, b: string, c: string)
    requires !Ordering.StringLess(b, a) && !Ordering.StringLess(c, b)
    ensures !Ordering.StringLess(c, a)
  {
    Ordering.StringOrder(a, b);
    Ordering.StringOrder(b, c);
    if Ordering.StringLess(a, b) && Ordering.StringLess(c, a) { Ordering.StringTransitive(c, a, b); }
  }

  lemma GroupOrderAntisymmetric(a: Group, b: Group)
    requires GroupOrder(a, b) && GroupOrder(b, a)
    ensures a.id == b.id
  {
    Ordering.StringOrder(a.filePath, b.filePath);
    Ordering.StringOrder(a.id, b.id);
  }

  // ---------- the map ----------

  ghost predicate Wide(g: Graph) {
    forall c :: c in g.source.columns ==> c.width >= 28.0
  }

  ghost predicate IsPlace(g: Graph, group: Group, k: nat, n: nat) {
    && k < |g.source.columns| && g.source.columns[k].id == group.columnId
    && n < |ColumnGroups(g, g.source.columns[k])| && ColumnGroups(g, g.source.columns[k])[n] == group
  }

  lemma WhereIs(g: Graph, group: Group) returns (k: nat, n: nat)
    requires Linked(g) && group in g.source.groups
    ensures IsPlace(g, group, k, n)
  {
    assert HasColumn(g, group.columnId);
    var c :| c in g.source.columns && c.id == group.columnId;
    k :| 0 <= k < |g.source.columns| && g.source.columns[k] == c;
    ColumnGroupsAre(g, c);
    assert group in ColumnGroups(g, c);
    n :| 0 <= n < |ColumnGroups(g, c)| && ColumnGroups(g, c)[n] == group;
  }

  function NotesOf(g: Graph, v: View): seq<Attachment> {
    var notes := Attachments(g, v.options.hiddenColumns, v.options.showTypes);
    if notes.Some? then notes.value else []
  }

  function BoxAtPlace(g: Graph, v: View, k: nat, n: nat): Rect
    requires k < |g.source.columns| && n < |ColumnGroups(g, g.source.columns[k])|
  {
    var columns := g.source.columns;
    BoxOf(ColumnGroups(g, columns[k]), n, ColumnX(columns, k, v), columns[k].width, v, NotesOf(g, v))
  }

  /** Every group of a graph that was read, visible or not, gets the box its place calls for. */
  lemma BoxIs(g: Graph, v: View, group: Group, k: nat, n: nat)
    requires Linked(g) && IsPlace(g, group, k, n)
    ensures LayoutOf(g, v).Some?
    ensures var boxes := LayoutOf(g, v).value.boxes; group.id in boxes && boxes[group.id] == BoxAtPlace(g, v, k, n)
  {
    TagsKnown(g, g.relations, v.options.hiddenColumns, v.options.showTypes);
    PlacedColumns(g, g.source.columns, v, NotesOf(g, v));
    var columns := g.source.columns;
    assert PlacedAt(PlaceColumns(g, columns, v, NotesOf(g, v)).boxes, ColumnGroups(g, columns[k]), n, ColumnX(columns, k, v),
                    columns[k].width, v, NotesOf(g, v));
  }

  lemma {:induction false} ColumnsDescend(columns: seq<Column>, k: nat, l: nat, v: View)
    requires k < l <= |columns| && forall c :: c in columns ==> c.width >= 28.0
    ensures ColumnX(columns, k, v) + (if Shown(columns[k], v) then columns[k].width else 0.0) <= ColumnX(columns, l, v)
  {
    if k < l - 1 {
      ColumnsDescend(columns, k, l - 1, v);
      assert columns[l - 1] in columns;
    }
  }

  /** One box ends at least `gap` before the other begins. */
  predicate Left(r: Rect, s: Rect, gap: real) {
    r.x + r.width + gap <= s.x
  }

  predicate Above(r: Rect, s: Rect, gap: real) {
    r.y + r.height + gap <= s.y
  }

  lemma SameColumnStacks(g: Graph, v: View, k: nat, m: nat, n: nat)
    requires k < |g.source.columns| && m < n < |ColumnGroups(g, g.source.columns[k])|
    ensures Above(BoxAtPlace(g, v, k, m), BoxAtPlace(g, v, k, n), GROUP_GAP)
    ensures GroupOrder(ColumnGroups(g, g.source.columns[k])[m], ColumnGroups(g, g.source.columns[k])[n])
  {
    TopsDescend(ColumnGroups(g, g.source.columns[k]), m, n, v, NotesOf(g, v));
    GroupOrderTotal();
    Ordering.SortSorts(Filter(g.source.groups, InColumn(g.source.columns[k].id)), GroupOrder);
  }

  /** In one column, a group earlier in the source stands above a later one, at least the gap away. */
  lemma SourceOrderDescends(g: Graph, v: View, a: Group, b: Group)
    requires Linked(g) && a in g.source.groups && b in g.source.groups && a != b && a.columnId == b.columnId
    requires GroupOrder(a, b)
    ensures LayoutOf(g, v).Some?
    ensures var boxes := LayoutOf(g, v).value.boxes;
            a.id in boxes && b.id in boxes && Above(boxes[a.id], boxes[b.id], GROUP_GAP)
  {
    var k, m := WhereIs(g, a);
    var l, n := WhereIs(g, b);
    SameColumnPlace(g, k, l);
    BoxIs(g, v, a, k, m);
    BoxIs(g, v, b, l, n);
    OrderedPlaces(g, v, a, b, k, m, n);
    SameColumnStacks(g, v, k, m, n);
  }

  lemma SameColumnPlace(g: Graph, k: nat, l: nat)
    requires Linked(g) && k < |g.source.columns| && l < |g.source.columns| && g.source.columns[k].id == g.source.columns[l].id
    ensures k == l
  {
    var a, b := ColumnId(g.source.columns[k]), ColumnId(g.source.columns[l]);
  }

  lemma DifferentIds(g: Graph, a: Group, b: Group)
    requires Linked(g) && a in g.source.groups && b in g.source.groups && a != b
    ensures a.id != b.id
  {
    assert g.groups[a.id] == a && g.groups[b.id] == b;
  }

  lemma OrderedPlaces(g: Graph, v: View, a: Group, b: Group, k: nat, m: nat, n: nat)
    requires Linked(g) && a in g.source.groups && b in g.source.groups && a != b && GroupOrder(a, b)
    requires IsPlace(g, a, k, m) && IsPlace(g, b, k, n)
    ensures m < n
  {
    DifferentIds(g, a, b);
    if n < m {
      SameColumnStacks(g, v, k, n, m);
      GroupOrderAntisymmetric(a, b);
    }
  }

  lemma ColumnsSideBySide(g: Graph, v: View, k: nat, m: nat, l: nat, n: nat)
    requires Wide(g) && k < l < |g.source.columns| && Shown(g.source.columns[k], v)
    requires m < |ColumnGroups(g, g.source.columns[k])| && n < |ColumnGroups(g, g.source.columns[l])|
    ensures Left(BoxAtPlace(g, v, k, m), BoxAtPlace(g, v, l, n), 28.0)
  {
    ColumnsDescend(g.source.columns, k, l, v);
  }

  /** Boxes in one column are the gap apart vertically; boxes of different columns are side by side. */
  predicate Apart(sameColumn: bool, r: Rect, s: Rect) {
    if sameColumn then Above(r, s, GROUP_GAP) || Above(s, r, GROUP_GAP) else Left(r, s, 28.0) || Left(s, r, 28.0)
  }

  lemma PlacesApart(g: Graph, v: View, k: nat, m: nat, l: nat, n: nat)
    requires Wide(g) && k < |g.source.columns| && l < |g.source.columns| && (k != l || m != n)
    requires Shown(g.source.columns[k], v) && Shown(g.source.columns[l], v)
    requires m < |ColumnGroups(g, g.source.columns[k])| && n < |ColumnGroups(g, g.source.columns[l])|
    ensures Apart(k == l, BoxAtPlace(g, v, k, m), BoxAtPlace(g, v, l, n))
  {
    if k < l { ColumnsSideBySide(g, v, k, m, l, n); }
    else if l < k { ColumnsSideBySide(g, v, l, n, k, m); }
    else if m < n { SameColumnStacks(g, v, k, m, n); }
    else { SameColumnStacks(g, v, k, n, m); }
  }

  /** No two visible boxes overlap. */
  lemma BoxesApart(g: Graph, v: View, a: Group, b: Group)
    requires Linked(g) && Wide(g) && a in g.source.groups && b in g.source.groups && a != b
    requires IsOnMap(a, v.options) && IsOnMap(b, v.options)
    ensures LayoutOf(g, v).Some?
    ensures var boxes := LayoutOf(g, v).value.boxes;
            a.id in boxes && b.id in boxes && Apart(a.columnId == b.columnId, boxes[a.id], boxes[b.id])
  {
    var k, m := WhereIs(g, a);
    var l, n := WhereIs(g, b);
    BoxIs(g, v, a, k, m);
    BoxIs(g, v, b, l, n);
    PlacesApart(g, v, k, m, l, n);
    if k != l { SameColumnsSameId(g, a, b, k, l); }
  }

  lemma SameColumnsSameId(g: Graph, a: Group, b: Group, k: nat, l: nat)
    requires Linked(g) && k < |g.source.columns| && l < |g.source.columns| && k != l
    requires g.source.columns[k].id == a.columnId && g.source.columns[l].id == b.columnId
    ensures a.columnId != b.columnId
  {
    if a.columnId == b.columnId { SameColumnPlace(g, k, l); }
  }

  /** Every visible box lies in its column, clear of its edges, and in the map. */
  lemma BoxInside(g: Graph, v: View, a: Group, k: nat)
    requires Linked(g) && Wide(g) && a in g.source.groups && IsOnMap(a, v.options)
    requires k < |g.source.columns| && g.source.columns[k].id == a.columnId
    ensures LayoutOf(g, v).Some? && a.id in LayoutOf(g, v).value.boxes
    ensures var L, c := LayoutOf(g, v).value, g.source.columns[k];
            var r, x := L.boxes[a.id], ColumnX(g.source.columns, k, v);
            && r.width >= 0.0 && r.x == x + 14.0 && r.x + r.width == x + c.width - 14.0
            && 0.0 <= x && x + c.width <= L.width - 20.0
            && COLUMN_TOP <= r.y && r.y + r.height <= L.height - 82.0
  {
    var l, n := WhereIs(g, a);
    SameColumnPlace(g, k, l);
    BoxIs(g, v, a, k, n);
    var columns, notes := g.source.columns, NotesOf(g, v);
    assert columns[k] in columns;
    if k > 0 { ColumnsDescend(columns, 0, k, v); assert columns[0] in columns; }
    ColumnsDescend(columns, k, |columns|, v);
    PlacedX(g, columns, v, notes);
    TopsBelow(ColumnGroups(g, columns[k]), n, v, notes);
    BottomOfColumns(g, columns, columns[k], n, v, notes);
  }

  /** Every member row of an expanded group ends within the group's box. */
  lemma MembersInsideBox(g: Graph, v: View, group: Group, i: nat)
    requires Linked(g) && group in g.source.groups && group.id in v.expanded && i < |MemberBoxes(group)|
    ensures LayoutOf(g, v).Some? && group.id in LayoutOf(g, v).value.boxes
    ensures var box, row := LayoutOf(g, v).value.boxes[group.id], MemberBoxes(group)[i];
            HEADER_HEIGHT <= row.top && ROW_HEIGHT - ROW_MARGIN <= row.height && row.top + row.height + ROW_MARGIN <= box.height
  {
    var k, n := WhereIs(g, group);
    BoxIs(g, v, group, k, n);
    MembersFit(group, i, i);
  }

  lemma {:induction false} FoundBox(boxes: seq<MemberBox>, id: string)
    ensures FindBox(boxes, id).Some? ==> exists i :: 0 <= i < |boxes| && boxes[i] == FindBox(boxes, id).value && boxes[i].member.id == id
  {
    if boxes != [] && boxes[0].member.id != id {
      FoundBox(boxes[1..], id);
      if FindBox(boxes, id).Some? {
        var i :| 0 <= i < |boxes[1..]| && boxes[1..][i] == FindBox(boxes, id).value && boxes[1..][i].member.id == id;
        assert boxes[i + 1] == boxes[1..][i];
      }
    }
  }

  lemma {:induction false} RowFound(boxes: seq<MemberBox>, i: nat)
    requires i < |boxes|
    ensures FindBox(boxes, boxes[i].member.id).Some?
  {
    if i > 0 {
      assert boxes[1..][i - 1] == boxes[i];
      RowFound(boxes[1..], i - 1);
    }
  }

  /** Every member has a row. */
  lemma MemberHasRow(group: Group, d: Declaration)
    requires d in group.members
    ensures FindBox(MemberBoxes(group), d.id).Some? && FindBox(MemberBoxes(group), d.id).value.member.id == d.id
  {
    var members := SourceOrderedMembers(group);
    Ordering.SortCounts(group.members, MemberOrder);
    assert d in multiset(members);
    var i :| 0 <= i < |members| && members[i] == d;
    BoxAt(members, HEADER_HEIGHT, i);
    RowFound(MemberBoxes(group), i);
    FoundBox(MemberBoxes(group), d.id);
  }

  /** Whatever the graph has can be anchored, and the anchor lies inside its group's box: in its own row when that is drawn. */
  lemma AnchorInside(g: Graph, v: View, id: string)
    requires Linked(g) && id in g.owners
    ensures LayoutOf(g, v).Some? && g.owners[id].id in LayoutOf(g, v).value.boxes && Position(g, v, LayoutOf(g, v).value, id).Some?
    ensures var L := LayoutOf(g, v).value;
            var r, box, row := Position(g, v, L, id).value, L.boxes[g.owners[id].id], FindBox(MemberBoxes(g.owners[id]), id);
            && r.x == box.x && r.width == box.width && box.y <= r.y && r.y + r.height <= box.y + box.height
            && (row.Some? && g.owners[id].id in v.expanded ==>
                  box.y + row.value.top <= r.y && r.y + r.height <= box.y + row.value.top + row.value.height)
            && (row.None? || g.owners[id].id !in v.expanded ==> r.y + r.height <= box.y + HEADER_HEIGHT)
  {
    OwnerIsGroup(g, id);
    var group := g.owners[id];
    var k, n := WhereIs(g, group);
    BoxIs(g, v, group, k, n);
    HeightPositive(v, NotesOf(g, v), group);
    FoundBox(MemberBoxes(group), id);
    if FindBox(MemberBoxes(group), id).Some? && group.id in v.expanded {
      var i :| 0 <= i < |MemberBoxes(group)| && MemberBoxes(group)[i] == FindBox(MemberBoxes(group), id).value && MemberBoxes(group)[i].member.id == id;
      MembersInsideBox(g, v, group, i);
    }
  }
}
