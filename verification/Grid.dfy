/** Placing panels on the 24-column grid: dashboard/layout.go, the two `placePanels`
    (dashboard/overview/render.go, dashboard/category/render.go) and `stackRows`
    (dashboard/pipeline/plan.go). */
module Grid {
  import opened Wrappers
  import opened Ordering

  const GridColumns := 24
  const RowHeight := 1
  const CategoryOrder := ["service_overview", "http", "rpc", "kafka", "database", "cache"]

  datatype Box = Box(x: int, y: int, w: int, h: int)

  datatype GridPanel = GridPanel(id: int, width: int, height: int)

  datatype Placement = Placement(id: int, box: Box)

  datatype CategoryLayout = CategoryLayout(category: string, rowID: int, panels: seq<GridPanel>)

  datatype GridRow = GridRow(rowID: int, category: string, y: int, panels: seq<Placement>)

  // A rendered panel: its resolved ID and its position.
  datatype Panel = Panel(id: int, pos: Box)

  function Clamp(extent: int): (r: int)
    ensures 1 <= r <= GridColumns
    ensures 1 <= extent <= GridColumns ==> r == extent
    ensures extent < 1 ==> r == 1
    ensures extent > GridColumns ==> r == GridColumns
  {
    if extent < 1 then 1 else if extent > GridColumns then GridColumns else extent
  }

  // ---- Packing one row, relative to its first line ----

  datatype Cursor = Cursor(x: int, lineY: int, lineHeight: int)

  const Start := Cursor(0, 0, 0)

  function Wrap(c: Cursor, width: int): Cursor
  {
    if c.x + width > GridColumns then Cursor(0, c.lineY + c.lineHeight, 0) else c
  }

  function Advance(c: Cursor, p: GridPanel): Cursor
  {
    var d := Wrap(c, Clamp(p.width));
    Cursor(d.x + Clamp(p.width), d.lineY, if Clamp(p.height) > d.lineHeight then Clamp(p.height) else d.lineHeight)
  }

  function Place(c: Cursor, p: GridPanel): Box
  {
    var d := Wrap(c, Clamp(p.width));
    Box(d.x, d.lineY, Clamp(p.width), Clamp(p.height))
  }

  function Pack(c: Cursor, panels: seq<GridPanel>): (boxes: seq<Box>)
    ensures |boxes| == |panels|
    decreases |panels|
  {
    if panels == [] then [] else [Place(c, panels[0])] + Pack(Advance(c, panels[0]), panels[1..])
  }

  function PackEnd(c: Cursor, panels: seq<GridPanel>): Cursor
    decreases |panels|
  {
    if panels == [] then c else PackEnd(Advance(c, panels[0]), panels[1..])
  }

  predicate IDLeq(a: GridPanel, b: GridPanel) { a.id <= b.id }

  function Sorted(panels: seq<GridPanel>): (r: seq<GridPanel>)
    ensures multiset(r) == multiset(panels) && |r| == |panels|
  {
    SortBy(IDLeq, panels)
  }

  function Down(box: Box, lines: int): Box { box.(y := box.y + lines) }

  function AllDown(boxes: seq<Box>, lines: int): (r: seq<Box>)
    ensures |r| == |boxes| && forall i :: 0 <= i < |boxes| ==> r[i] == Down(boxes[i], lines)
  {
    if boxes == [] then [] else [Down(boxes[0], lines)] + AllDown(boxes[1..], lines)
  }

  // The box of the last panel with this ID.
  function BoxFor(id: int, panels: seq<GridPanel>, boxes: seq<Box>): Option<Box>
    requires |panels| == |boxes|
  {
    if panels == [] then None
    else if panels[|panels| - 1].id == id then Some(boxes[|panels| - 1])
    else BoxFor(id, panels[..|panels| - 1], boxes[..|panels| - 1])
  }

  // Where packing puts each panel, in the order the panels came in.
  function Positions(panels: seq<GridPanel>): (r: seq<Box>)
    ensures |r| == |panels|
  {
    var ordered := Sorted(panels);
    var boxes := Pack(Start, ordered);
    seq(|panels|, i requires 0 <= i < |panels| =>
      match BoxFor(panels[i].id, ordered, boxes) case Some(box) => box case None => Box(0, 0, 0, 0))
  }

  ghost predicate DistinctIDs(panels: seq<GridPanel>)
  {
    forall i, j :: 0 <= i < j < |panels| ==> panels[i].id != panels[j].id
  }

  // ---- PlanGrid ----

  function RowPlacements(panels: seq<GridPanel>, y: int): seq<Placement>
  {
    var ordered := Sorted(panels);
    var boxes := AllDown(Pack(Start, ordered), y + RowHeight);
    seq(|ordered|, i requires 0 <= i < |ordered| => Placement(ordered[i].id, boxes[i]))
  }

  function RowExtent(panels: seq<GridPanel>): int
  {
    var end := PackEnd(Start, Sorted(panels));
    RowHeight + end.lineY + end.lineHeight
  }

  // The last layout of each category.
  function ByCategory(layouts: seq<CategoryLayout>): map<string, CategoryLayout>
  {
    if layouts == [] then map[]
    else var last := layouts[|layouts| - 1]; ByCategory(layouts[..|layouts| - 1])[last.category := last]
  }

  predicate Shown(layouts: map<string, CategoryLayout>, category: string)
  {
    category in layouts && layouts[category].panels != []
  }

  function Rows(layouts: map<string, CategoryLayout>, order: seq<string>, y: int): seq<GridRow>
  {
    if order == [] then []
    else if !Shown(layouts, order[0]) then Rows(layouts, order[1..], y)
    else
      var layout := layouts[order[0]];
      [GridRow(layout.rowID, layout.category, y, RowPlacements(layout.panels, y))]
      + Rows(layouts, order[1..], y + RowExtent(layout.panels))
  }

  function Planned(layouts: seq<CategoryLayout>): seq<GridRow>
  {
    Rows(ByCategory(layouts), CategoryOrder, 0)
  }

  lemma {:induction false} PackSnoc(c: Cursor, panels: seq<GridPanel>, p: GridPanel)
    ensures Pack(c, panels + [p]) == Pack(c, panels) + [Place(PackEnd(c, panels), p)]
    ensures PackEnd(c, panels + [p]) == Advance(PackEnd(c, panels), p)
    decreases |panels|
  {
    hide Place, Advance;
    if panels == [] {
      assert [p][1..] == [];
    } else {
      assert (panels + [p])[1..] == panels[1..] + [p];
      PackSnoc(Advance(c, panels[0]), panels[1..], p);
    }
  }

  // One row of the grid: the placements, and the height it takes.
  method PlanRow(panels: seq<GridPanel>, currentY: int) returns (placements: seq<Placement>, extent: int)
    ensures placements == RowPlacements(panels, currentY) && extent == RowExtent(panels)
  {
    hide SortBy, Pack, PackEnd;
    var lineY, lineHeight, cursorX := 0, 0, 0;
    var ordered := SortBy(IDLeq, panels);
    placements := [];
    assert Pack(Start, []) == [] && PackEnd(Start, []) == Start by { EmptyPack(); }
    for k := 0 to |ordered|
      invariant PackEnd(Start, ordered[..k]) == Cursor(cursorX, lineY, lineHeight)
      invariant |placements| == k
      invariant forall j :: 0 <= j < k ==>
                  placements[j] == Placement(ordered[j].id, Down(Pack(Start, ordered[..k])[j], currentY + RowHeight))
    {
      var panel := ordered[k];
      assert ordered[..k + 1] == ordered[..k] + [panel];
      PackSnoc(Start, ordered[..k], panel);
      var width, height := Clamp(panel.width), Clamp(panel.height);
      if cursorX + width > GridColumns {
        cursorX, lineY, lineHeight := 0, lineY + lineHeight, 0;
      }
      placements := placements + [Placement(panel.id, Box(cursorX, currentY + RowHeight + lineY, width, height))];
      cursorX := cursorX + width;
      if height > lineHeight { lineHeight := height; }
    }
    assert ordered[..|ordered|] == ordered;
    extent := RowHeight + lineY + lineHeight;
  }

  lemma {:induction false} EmptyPack()
    ensures Pack(Start, []) == [] && PackEnd(Start, []) == Start
  {
  }

  // PlanGrid.
  method PlanGrid(layouts: seq<CategoryLayout>) returns (rows: seq<GridRow>)
    ensures rows == Planned(layouts)
  {
    hide RowPlacements, RowExtent, ByCategory;
    var byCategory: map<string, CategoryLayout> := map[];
    assert ByCategory([]) == map[] by { NoLayouts(); }
    for i := 0 to |layouts|
      invariant byCategory == ByCategory(layouts[..i])
    {
      assert layouts[..i + 1] == layouts[..i] + [layouts[i]];
      LayoutSnoc(layouts[..i], layouts[i]);
      byCategory := byCategory[layouts[i].category := layouts[i]];
    }
    assert layouts[..|layouts|] == layouts;
    rows := [];
    var currentY := 0;
    for i := 0 to |CategoryOrder|
      invariant rows + Rows(byCategory, CategoryOrder[i..], currentY) == Rows(byCategory, CategoryOrder, 0)
    {
      var category := CategoryOrder[i];
      assert CategoryOrder[i..][1..] == CategoryOrder[i + 1..];
      if category !in byCategory || |byCategory[category].panels| == 0 { continue; }
      var layout := byCategory[category];
      var placements, extent := PlanRow(layout.panels, currentY);
      RowsStep(rows, GridRow(layout.rowID, layout.category, currentY, placements),
               Rows(byCategory, CategoryOrder[i + 1..], currentY + extent));
      rows := rows + [GridRow(layout.rowID, layout.category, currentY, placements)];
      currentY := currentY + extent;
    }
    assert CategoryOrder[|CategoryOrder|..] == [];
  }

  lemma {:induction false} RowsStep<T>(done: seq<T>, row: T, rest: seq<T>)
    ensures done + ([row] + rest) == done + [row] + rest
  {
  }

  lemma {:induction false} NoLayouts()
    ensures ByCategory([]) == map[]
  {
  }

  lemma {:induction false} LayoutSnoc(before: seq<CategoryLayout>, layout: CategoryLayout)
    ensures ByCategory(before + [layout]) == ByCategory(before)[layout.category := layout]
  {
    assert (before + [layout])[..|before|] == before;
  }

  // ---- The category renderer: PlanGrid shifted up by the row band ----

  function GridPanels(panels: seq<Panel>, plan: seq<GridPanel>): (r: seq<GridPanel>)
    requires |panels| == |plan|
    ensures |r| == |panels|
    ensures forall i :: 0 <= i < |r| ==> r[i] == GridPanel(panels[i].id, plan[i].width, plan[i].height)
  {
    seq(|panels|, i requires 0 <= i < |panels| => GridPanel(panels[i].id, plan[i].width, plan[i].height))
  }

  // The panels keep their order and IDs; each gets its position.
  ghost predicate Placed(before: seq<Panel>, after: seq<Panel>, positions: seq<Box>)
  {
    && |before| == |after| == |positions|
    && forall i :: 0 <= i < |before| ==> after[i] == Panel(before[i].id, positions[i])
  }

  // What writing placements one by one leaves: the last placement with the panel's ID, if any.
  function LastPlacement(id: int, placements: seq<Placement>): Option<Box>
  {
    if placements == [] then None
    else if placements[|placements| - 1].id == id then Some(placements[|placements| - 1].box)
    else LastPlacement(id, placements[..|placements| - 1])
  }

  function Written(panel: Panel, placements: seq<Placement>): Panel
  {
    match LastPlacement(panel.id, placements)
    case Some(box) => Panel(panel.id, Down(box, -1))
    case None => panel
  }

  method PlaceCategoryPanels(panels: array<Panel>, plan: seq<GridPanel>, category: string) returns (ok: bool)
    requires |plan| == panels.Length
    modifies panels
    ensures ok <==> panels.Length == 0 || category in CategoryOrder
    ensures !ok ==> panels[..] == old(panels[..])
    ensures ok ==> forall i :: 0 <= i < panels.Length ==>
              panels[i] == old(Written(panels[i], RowPlacements(GridPanels(panels[..], plan), 0)))
  {
    hide RowPlacements, RowExtent;
    if panels.Length == 0 { return true; }
    ghost var before := panels[..];
    var gridPanels: seq<GridPanel> := [];
    for i := 0 to panels.Length
      invariant panels[..] == before
      invariant |gridPanels| == i
      invariant forall j :: 0 <= j < i ==> gridPanels[j] == GridPanel(before[j].id, plan[j].width, plan[j].height)
    {
      gridPanels := gridPanels + [GridPanel(panels[i].id, plan[i].width, plan[i].height)];
    }
    assert gridPanels == GridPanels(before, plan);
    var layout := CategoryLayout(category, panels[0].id, gridPanels);
    var rows := PlanGrid([layout]);
    OneCategory(layout);
    if |rows| != 1 { return false; }
    var placements := rows[0].panels;
    for k := 0 to |placements|
      invariant forall i :: 0 <= i < panels.Length ==> panels[i] == Written(before[i], placements[..k])
    {
      assert placements[..k + 1] == placements[..k] + [placements[k]];
      WriteOver(panels, placements[..k], placements[k], before);
    }
    assert placements[..|placements|] == placements;
    return true;
  }

  lemma {:induction false} WrittenSnoc(panel: Panel, placements: seq<Placement>, p: Placement)
    ensures Written(panel, placements + [p]) ==
            if panel.id == p.id then Panel(panel.id, Down(p.box, -1)) else Written(panel, placements)
    ensures Written(panel, placements).id == panel.id
  {
    assert (placements + [p])[..|placements|] == placements;
  }

  method WriteOver(panels: array<Panel>, ghost done: seq<Placement>, p: Placement, ghost before: seq<Panel>)
    requires |before| == panels.Length
    requires forall i :: 0 <= i < panels.Length ==> panels[i] == Written(before[i], done)
    modifies panels
    ensures forall i :: 0 <= i < panels.Length ==> panels[i] == Written(before[i], done + [p])
  {
    hide Written;
    for i := 0 to panels.Length
      invariant forall j :: 0 <= j < i ==> panels[j] == Written(before[j], done + [p])
      invariant forall j :: i <= j < panels.Length ==> panels[j] == Written(before[j], done)
    {
      WrittenSnoc(before[i], done, p);
      if panels[i].id == p.id {
        panels[i] := Panel(panels[i].id, Box(p.box.x, p.box.y - 1, p.box.w, p.box.h));
      }
    }
  }

  // PlanGrid on one category gives its row, unless the category has no slot.
  lemma {:induction false} OneCategory(layout: CategoryLayout)
    requires layout.panels != []
    ensures |Planned([layout])| == if layout.category in CategoryOrder then 1 else 0
    ensures layout.category in CategoryOrder ==> Planned([layout])[0].panels == RowPlacements(layout.panels, 0)
  {
    hide RowPlacements, RowExtent;
    LayoutSnoc([], layout);
    assert [] + [layout] == [layout];
    assert ByCategory([layout]) == map[layout.category := layout];
    OneRow(ByCategory([layout]), CategoryOrder, layout);
    assert CategoryOrder[0] == "service_overview" && CategoryOrder[1] == "http" && CategoryOrder[2] == "rpc";
  }

  lemma {:induction false} OneRow(layouts: map<string, CategoryLayout>, order: seq<string>, layout: CategoryLayout)
    requires layouts == map[layout.category := layout] && layout.panels != []
    requires forall i, j :: 0 <= i < j < |order| ==> order[i] != order[j]
    ensures |Rows(layouts, order, 0)| == if layout.category in order then 1 else 0
    ensures layout.category in order ==> Rows(layouts, order, 0)[0].panels == RowPlacements(layout.panels, 0)
  {
    hide RowPlacements, RowExtent;
    if order != [] {
      assert order == [order[0]] + order[1..];
      if order[0] == layout.category {
        NoMoreRows(layouts, order[1..], RowExtent(layout.panels));
      } else {
        OneRow(layouts, order[1..], layout);
      }
    }
  }

  lemma {:induction false} NoMoreRows(layouts: map<string, CategoryLayout>, order: seq<string>, y: int)
    requires forall c <- order :: c !in layouts
    ensures Rows(layouts, order, y) == []
  {
    if order != [] { NoMoreRows(layouts, order[1..], y); }
  }

  // ---- The overview renderer: the same packing written again ----

  method PlaceOverviewPanels(panels: array<Panel>, plan: seq<GridPanel>)
    requires |plan| == panels.Length
    modifies panels
    ensures Placed(old(panels[..]), panels[..], old(Positions(GridPanels(panels[..], plan))))
  {
    hide Pack, PackEnd, SortBy, BoxFor;
    ghost var before := panels[..];
    ghost var all := GridPanels(before, plan);
    ghost var sorted := Sorted(all);
    var ids := seq(panels.Length, i requires 0 <= i < panels.Length reads panels => panels[i].id);
    var ordered := SortBy((a: int, b: int) => IDAt(ids, a) <= IDAt(ids, b), Indexes(panels.Length));
    IndexesInRange(ids, ordered);
    OrderedIndexes(ids, all, ordered);
    var positions: map<int, Box> := map[];
    var cursorX, lineY, lineHeight := 0, 0, 0;
    assert Pack(Start, []) == [] && PackEnd(Start, []) == Start by { EmptyPack(); }
    assert Recorded(positions, [], []) by { NothingRecorded(); }
    for k := 0 to |ordered|
      invariant panels[..] == before
      invariant PackEnd(Start, sorted[..k]) == Cursor(cursorX, lineY, lineHeight)
      invariant Recorded(positions, sorted[..k], Pack(Start, sorted[..k]))
    {
      var panelIndex := ordered[k];
      assert sorted[..k + 1] == sorted[..k] + [sorted[k]];
      PackSnoc(Start, sorted[..k], sorted[k]);
      var width, height := Clamp(plan[panelIndex].width), Clamp(plan[panelIndex].height);
      if cursorX + width > GridColumns {
        cursorX, lineY, lineHeight := 0, lineY + lineHeight, 0;
      }
      RecordedSnoc(positions, sorted[..k], Pack(Start, sorted[..k]), sorted[k], Box(cursorX, lineY, width, height));
      positions := positions[panels[panelIndex].id := Box(cursorX, lineY, width, height)];
      cursorX := cursorX + width;
      if height > lineHeight { lineHeight := height; }
    }
    assert sorted[..|sorted|] == sorted;
    for i := 0 to panels.Length
      invariant forall j :: i <= j < panels.Length ==> panels[j].id == before[j].id
      invariant forall j :: 0 <= j < i ==> panels[j] == Panel(before[j].id, Positions(all)[j])
    {
      panels[i] := Panel(panels[i].id, if panels[i].id in positions then positions[panels[i].id] else Box(0, 0, 0, 0));
    }
  }

  // The map holds, for each ID among the panels, the box of the last panel with it.
  ghost predicate Recorded(positions: map<int, Box>, panels: seq<GridPanel>, boxes: seq<Box>)
    requires |panels| == |boxes|
  {
    forall id :: BoxFor(id, panels, boxes) == if id in positions then Some(positions[id]) else None
  }

  lemma {:induction false} NothingRecorded()
    ensures Recorded(map[], [], [])
  {
  }

  lemma {:induction false} RecordedSnoc(
    positions: map<int, Box>, panels: seq<GridPanel>, boxes: seq<Box>, p: GridPanel, box: Box)
    requires |panels| == |boxes| && Recorded(positions, panels, boxes)
    ensures Recorded(positions[p.id := box], panels + [p], boxes + [box])
  {
    assert (panels + [p])[..|panels|] == panels && (boxes + [box])[..|boxes|] == boxes;
  }

  function Indexes(n: nat): (r: seq<int>)
    ensures |r| == n && forall i :: 0 <= i < n ==> r[i] == i
  {
    seq(n, i => i)
  }

  function IDOf(p: GridPanel): int { p.id }

  function IDAt(ids: seq<int>, i: int): int { if 0 <= i < |ids| then ids[i] else 0 }

  function PanelAt(all: seq<GridPanel>, i: int): GridPanel
  {
    if 0 <= i < |all| then all[i] else GridPanel(0, 0, 0)
  }

  lemma {:induction false} IndexesInRange(ids: seq<int>, ordered: seq<int>)
    requires ordered == SortBy((a: int, b: int) => IDAt(ids, a) <= IDAt(ids, b), Indexes(|ids|))
    ensures |ordered| == |ids| && forall k :: 0 <= k < |ordered| ==> 0 <= ordered[k] < |ids|
  {
    hide SortBy;
    forall k | 0 <= k < |ordered| ensures 0 <= ordered[k] < |ids| {
      assert ordered[k] in multiset(ordered);
      assert ordered[k] in multiset(Indexes(|ids|));
    }
  }

  // Sorting the indexes by ID is sorting the panels by ID.
  lemma {:induction false} OrderedIndexes(ids: seq<int>, all: seq<GridPanel>, ordered: seq<int>)
    requires |ids| == |all| && forall i :: 0 <= i < |all| ==> all[i].id == ids[i]
    requires ordered == SortBy((a: int, b: int) => IDAt(ids, a) <= IDAt(ids, b), Indexes(|ids|))
    ensures |ordered| == |all|
    ensures forall k :: 0 <= k < |ordered| ==> PanelAt(all, ordered[k]) == Sorted(all)[k]
  {
    hide SortBy;
    var f := (i: int) => PanelAt(all, i);
    assert Apply(f, Indexes(|all|)) == all;
    SortByMapped(f, (a: int, b: int) => IDAt(ids, a) <= IDAt(ids, b), IDLeq, Indexes(|all|));
  }

  lemma {:induction false} SortedDistinct(panels: seq<GridPanel>)
    requires DistinctIDs(panels)
    ensures DistinctIDs(Sorted(panels))
  {
    hide SortBy;
    PermutedDistinct(IDOf, panels, Sorted(panels));
  }

  lemma {:induction false} BoxForAt(panels: seq<GridPanel>, boxes: seq<Box>, k: nat)
    requires |panels| == |boxes| && k < |panels| && DistinctIDs(panels)
    ensures BoxFor(panels[k].id, panels, boxes) == Some(boxes[k])
  {
    if k < |panels| - 1 { BoxForAt(panels[..|panels| - 1], boxes[..|panels| - 1], k); }
  }

  // A panel's position is the box packing gave it in sorted order.
  lemma {:induction false} PositionAt(panels: seq<GridPanel>, i: nat) returns (k: nat)
    requires DistinctIDs(panels) && i < |panels|
    ensures k < |panels| && Sorted(panels)[k] == panels[i] && Positions(panels)[i] == Pack(Start, Sorted(panels))[k]
  {
    hide Pack, SortBy;
    var s := Sorted(panels);
    assert panels[i] in multiset(s);
    k :| 0 <= k < |s| && s[k] == panels[i];
    SortedDistinct(panels);
    BoxForAt(s, Pack(Start, s), k);
  }

  // ---- Stacking the rows ----

  function LowerPanel(panel: Panel, lines: int): Panel { Panel(panel.id, Down(panel.pos, lines)) }

  function Lower(panels: seq<Panel>, lines: int): (r: seq<Panel>)
    ensures |r| == |panels| && forall i :: 0 <= i < |panels| ==> r[i] == LowerPanel(panels[i], lines)
  {
    if panels == [] then [] else [LowerPanel(panels[0], lines)] + Lower(panels[1..], lines)
  }

  // The lowest edge, at least zero.
  function Bottom(panels: seq<Panel>): int
  {
    if panels == [] then 0
    else
      var rest, last := Bottom(panels[..|panels| - 1]), panels[|panels| - 1].pos;
      if last.y + last.h > rest then last.y + last.h else rest
  }

  // Where the band of row `i` is: below the rows before it.
  function BandLine(rows: seq<seq<Panel>>, i: nat): int
    requires i <= |rows|
  {
    if i == 0 then 0
    else if rows[i - 1] == [] then BandLine(rows, i - 1)
    else Bottom(Lower(rows[i - 1], BandLine(rows, i - 1) + 1))
  }

  function StackedRow(rows: seq<seq<Panel>>, i: nat): (r: seq<Panel>)
    requires i < |rows|
    ensures |r| == |rows[i]|
  {
    Lower(rows[i], BandLine(rows, i) + 1)
  }

  // One row's panels moved below its band, and the lowest edge they reach.
  method LowerRow(panels: array<Panel>, cursorY: int) returns (maxBottom: int)
    modifies panels
    ensures panels[..] == Lower(old(panels[..]), cursorY + 1)
    ensures maxBottom == Bottom(panels[..])
  {
    maxBottom := 0;
    ghost var before := panels[..];
    for i := 0 to panels.Length
      invariant forall j :: 0 <= j < i ==> panels[j] == LowerPanel(before[j], cursorY + 1)
      invariant forall j :: i <= j < panels.Length ==> panels[j] == before[j]
      invariant maxBottom == Bottom(panels[..i])
    {
      ghost var sofar := panels[..i];
      panels[i] := Panel(panels[i].id, Down(panels[i].pos, cursorY + 1));
      var bottom := panels[i].pos.y + panels[i].pos.h;
      assert panels[..i + 1][..i] == sofar;
      if bottom > maxBottom { maxBottom := bottom; }
    }
    assert panels[..panels.Length] == panels[..];
  }

  // stackRows: every row has its own panel array.
  method StackRows(rows: seq<array<Panel>>, ghost before: seq<seq<Panel>>)
    requires forall i, j :: 0 <= i < j < |rows| ==> rows[i] != rows[j]
    requires |before| == |rows| && forall i :: 0 <= i < |rows| ==> before[i] == rows[i][..]
    modifies set row <- rows
    ensures forall i :: 0 <= i < |rows| ==> rows[i][..] == StackedRow(before, i)
  {
    hide Lower, Bottom, BandLine, StackedRow;
    var cursorY := 0;
    StackStep(before, 0);
    for index := 0 to |rows|
      invariant cursorY == BandLine(before, index)
      invariant forall j :: 0 <= j < index ==> rows[j][..] == StackedRow(before, j)
      invariant forall j :: index <= j < |rows| ==> rows[j][..] == before[j]
    {
      assert rows[index][..] == before[index];
      StackStep(before, index);
      if rows[index].Length == 0 { continue; }
      var maxBottom := LowerRow(rows[index], cursorY);
      cursorY := maxBottom;
    }
  }

  // One turn of the loop: the row goes below the cursor and the cursor to its lowest edge.
  lemma {:induction false} StackStep(rows: seq<seq<Panel>>, i: nat)
    requires i <= |rows|
    ensures BandLine(rows, 0) == 0
    ensures i < |rows| ==> StackedRow(rows, i) == Lower(rows[i], BandLine(rows, i) + 1)
    ensures i < |rows| && rows[i] == [] ==> StackedRow(rows, i) == [] && BandLine(rows, i + 1) == BandLine(rows, i)
    ensures i < |rows| && rows[i] != [] ==> BandLine(rows, i + 1) == Bottom(StackedRow(rows, i))
  {
  }
}
