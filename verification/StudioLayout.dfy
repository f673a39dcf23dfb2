/** Where the map puts each group (packages/studio-ui/src/layout.lib.ts); lengths are exact reals. */
module StudioLayout {
  import opened Wrappers
  import opened Sequences
  import Ordering
  import opened StudioGraph
  import opened StudioView
  import opened StudioRelations

  const COLUMN_TOP := 70.0
  const GROUP_GAP := 56.0
  const HEADER_HEIGHT := 62.0
  const ROW_HEIGHT := 46.0
  const ROW_MARGIN := 3.0
  const HINT_LINE_HEIGHT := 17.0
  const TAG_AREA := 22.0
  const TAG_ROW := 26.0

  datatype Layout = Layout(boxes: map<string, Rect>, width: real, height: real)

  datatype MemberBox = MemberBox(member: Declaration, top: real, height: real)

  // ---------- members ----------

  function RowHeight(d: Declaration): real {
    ROW_HEIGHT + (if |d.hints| > 1 then (|d.hints| - 1) as real else 0.0) * HINT_LINE_HEIGHT
  }

  predicate MemberOrder(a: Declaration, b: Declaration) {
    a.startLine < b.startLine || (a.startLine == b.startLine && !Ordering.StringLess(b.id, a.id))
  }

  function SourceOrderedMembers(group: Group): seq<Declaration> {
    Ordering.Sort(group.members, MemberOrder)
  }

  function RowsHeight(members: seq<Declaration>): real {
    if members == [] then 0.0 else RowsHeight(members[..|members| - 1]) + RowHeight(members[|members| - 1])
  }

  function BoxesFrom(members: seq<Declaration>, top: real): seq<MemberBox> {
    if members == [] then []
    else
      var init, last := members[..|members| - 1], members[|members| - 1];
      BoxesFrom(init, top) + [MemberBox(last, top + RowsHeight(init), RowHeight(last) - ROW_MARGIN)]
  }

  function MemberBoxes(group: Group): seq<MemberBox> {
    BoxesFrom(SourceOrderedMembers(group), HEADER_HEIGHT)
  }

  method ComputeMemberBoxes(group: Group) returns (boxes: seq<MemberBox>)
    ensures boxes == MemberBoxes(group)
  {
    var top := HEADER_HEIGHT;
    var members := SourceOrderedMembers(group);
    boxes := [];
    for i := 0 to |members|
      invariant boxes == BoxesFrom(members[..i], HEADER_HEIGHT) && top == HEADER_HEIGHT + RowsHeight(members[..i])
    {
      assert members[..i + 1][..i] == members[..i];
      boxes := boxes + [MemberBox(members[i], top, RowHeight(members[i]) - ROW_MARGIN)];
      top := top + RowHeight(members[i]);
    }
    assert members[..|members|] == members;
  }

  // ---------- groups ----------

  predicate IsOnMap(group: Group, options: Options) {
    group.columnId !in options.hiddenColumns
  }

  predicate GroupOrder(a: Group, b: Group) {
    if a.filePath != b.filePath then Ordering.StringLess(a.filePath, b.filePath)
    else a.startLine < b.startLine || (a.startLine == b.startLine && !Ordering.StringLess(b.id, a.id))
  }

  function InColumn(id: string): Group -> bool {
    (group: Group) => group.columnId == id
  }

  function ColumnGroups(g: Graph, c: Column): seq<Group> {
    Ordering.Sort(Filter(g.source.groups, InColumn(c.id)), GroupOrder)
  }

  function OnGroup(id: string): Attachment -> bool {
    (n: Attachment) => n.key.groupId == id
  }

  function TagsHeight(notes: seq<Attachment>, group: Group): real {
    var count := |Filter(notes, OnGroup(group.id))|;
    if count > 0 then TAG_AREA + ((count + 1) / 2) as real * TAG_ROW else 0.0
  }

  function GroupHeight(v: View, notes: seq<Attachment>, group: Group): real {
    HEADER_HEIGHT + (if group.id in v.expanded then RowsHeight(group.members) else 0.0) + TagsHeight(notes, group)
  }

  /** The column of boxes while it grows downwards. */
  datatype Pen = Pen(boxes: map<string, Rect>, y: real, bottom: real)

  function Max(a: real, b: real): real {
    if a < b then b else a
  }

  function PlaceGroup(p: Pen, group: Group, x: real, width: real, shown: bool, v: View, notes: seq<Attachment>): Pen {
    var height := GroupHeight(v, notes, group);
    Pen(p.boxes[group.id := Rect(x + 14.0, p.y, width - 28.0, height)],
        p.y + height + GROUP_GAP,
        if shown then Max(p.bottom, p.y + height) else p.bottom)
  }

  function PlaceGroups(p: Pen, groups: seq<Group>, x: real, width: real, shown: bool, v: View, notes: seq<Attachment>): Pen {
    if groups == [] then p
    else PlaceGroup(PlaceGroups(p, groups[..|groups| - 1], x, width, shown, v, notes), groups[|groups| - 1], x, width, shown, v, notes)
  }

  datatype Sheet = Sheet(boxes: map<string, Rect>, x: real, bottom: real)

  predicate Shown(c: Column, v: View) {
    c.id !in v.options.hiddenColumns
  }

  function PlaceColumn(s: Sheet, g: Graph, c: Column, v: View, notes: seq<Attachment>): Sheet {
    var p := PlaceGroups(Pen(s.boxes, COLUMN_TOP, s.bottom), ColumnGroups(g, c), s.x, c.width, Shown(c, v), v, notes);
    Sheet(p.boxes, if Shown(c, v) then s.x + c.width else s.x, p.bottom)
  }

  function PlaceColumns(g: Graph, columns: seq<Column>, v: View, notes: seq<Attachment>): Sheet {
    if columns == [] then Sheet(map[], 0.0, 0.0)
    else PlaceColumn(PlaceColumns(g, columns[..|columns| - 1], v, notes), g, columns[|columns| - 1], v, notes)
  }

  function Finish(s: Sheet): Layout {
    Layout(s.boxes, s.x + 20.0, s.bottom + 82.0)
  }

  /** None when the tags cannot be placed. */
  function LayoutOf(g: Graph, v: View): Option<Layout> {
    match Attachments(g, v.options.hiddenColumns, v.options.showTypes)
    case None => None
    case Some(notes) => Some(Finish(PlaceColumns(g, g.source.columns, v, notes)))
  }

  /** The two nested loops, accumulating x, y and the bottom. */
  method ComputeLayout(g: Graph, v: View) returns (r: Option<Layout>)
    ensures r == LayoutOf(g, v)
  {
    var boxes: map<string, Rect> := map[];
    var visibleNotes := CollectAttachments(g, v.options.hiddenColumns, v.options.showTypes);
    if visibleNotes.None? { return None; }
    var notes := visibleNotes.value;
    var x, bottom := 0.0, 0.0;
    var columns := g.source.columns;
    for c := 0 to |columns|
      invariant Sheet(boxes, x, bottom) == PlaceColumns(g, columns[..c], v, notes)
    {
      assert columns[..c + 1][..c] == columns[..c];
      boxes, bottom := ComputeColumn(g, columns[c], boxes, x, bottom, v, notes);
      if Shown(columns[c], v) { x := x + columns[c].width; }
    }
    assert columns[..|columns|] == columns;
    return Some(Layout(boxes, x + 20.0, bottom + 82.0));
  }

  method ComputeColumn(g: Graph, c: Column, boxes: map<string, Rect>, x: real, bottom: real, v: View, notes: seq<Attachment>)
    returns (boxes': map<string, Rect>, bottom': real)
    ensures var p := PlaceGroups(Pen(boxes, COLUMN_TOP, bottom), ColumnGroups(g, c), x, c.width, Shown(c, v), v, notes);
            boxes' == p.boxes && bottom' == p.bottom
  {
    boxes', bottom' := boxes, bottom;
    var shown := Shown(c, v);
    var y := COLUMN_TOP;
    var groups := ColumnGroups(g, c);
    for i := 0 to |groups|
      invariant Pen(boxes', y, bottom') == PlaceGroups(Pen(boxes, COLUMN_TOP, bottom), groups[..i], x, c.width, shown, v, notes)
    {
      var group := groups[i];
      assert groups[..i + 1][..i] == groups[..i];
      var height := GroupHeight(v, notes, group);
      boxes' := boxes'[group.id := Rect(x + 14.0, y, c.width - 28.0, height)];
      if shown { bottom' := Max(bottom', y + height); }
      y := y + height + GROUP_GAP;
    }
    assert groups[..|groups|] == groups;
  }

  // ---------- lookups ----------

  function FindBox(boxes: seq<MemberBox>, id: string): Option<MemberBox> {
    if boxes == [] then None else if boxes[0].member.id == id then Some(boxes[0]) else FindBox(boxes[1..], id)
  }

  /** Where edges and the viewport meet something: at its member's row, or at its group's header. */
  function Position(g: Graph, v: View, geometry: Layout, id: string): Option<Rect> {
    if id !in g.owners || g.owners[id].id !in geometry.boxes then None
    else
      var group, box := g.owners[id], geometry.boxes[g.owners[id].id];
      var member := FindBox(MemberBoxes(group), id);
      var header := member.None? || group.id !in v.expanded;
      Some(Rect(box.x, box.y + (if header then 20.0 else member.value.top + 10.0), box.width, 26.0))
  }

  function DisplayUnit(g: Graph, v: View, id: string): Option<string> {
    if id !in g.owners then None
    else Some(if g.owners[id].id in v.expanded then id else g.owners[id].id)
  }
}
