/** What the layout guarantees: both packers agree, nothing overlaps, everything is in bounds. */
module GridTheorems {
  import opened Grid
  import opened Wrappers

  predicate Overlap(a: Box, b: Box)
  {
    a.x < b.x + b.w && b.x < a.x + a.w && a.y < b.y + b.h && b.y < a.y + a.h
  }

  // The bounds dashboard/model/validate.go checks.
  predicate InBounds(b: Box)
  {
    b.x >= 0 && b.y >= 0 && b.w >= 1 && b.h >= 1 && b.w <= 24 && b.h <= 24 && b.x + b.w <= 24
  }

  // Between two heights.
  predicate Within(b: Box, top: int, bottom: int) { top <= b.y && b.y + b.h <= bottom }

  // ---- One row ----

  predicate GoodCursor(c: Cursor) { 0 <= c.x <= GridColumns && c.lineY >= 0 && c.lineHeight >= 0 }

  // A box the cursor has passed: above its line, or on it to the left.
  predicate Behind(b: Box, c: Cursor)
  {
    b.y + b.h <= c.lineY || (b.y == c.lineY && b.x + b.w <= c.x && b.h <= c.lineHeight)
  }

  // A box still to come: below the line as it stands, or on it to the right.
  predicate Ahead(b: Box, c: Cursor)
  {
    b.y >= c.lineY + c.lineHeight || (b.y == c.lineY && b.x >= c.x)
  }

  lemma {:induction false} BehindAheadApart(a: Box, b: Box, c: Cursor)
    requires Behind(a, c) && Ahead(b, c) && GoodCursor(c)
    ensures !Overlap(a, b)
  {
  }

  lemma {:induction false} PlaceStep(c: Cursor, p: GridPanel)
    requires GoodCursor(c)
    ensures GoodCursor(Advance(c, p)) && InBounds(Place(c, p))
    ensures Ahead(Place(c, p), c) && Behind(Place(c, p), Advance(c, p))
    ensures forall b :: Behind(b, c) ==> Behind(b, Advance(c, p))
    ensures forall b :: Ahead(b, Advance(c, p)) ==> Ahead(b, c)
    ensures c.lineY + c.lineHeight <= Advance(c, p).lineY + Advance(c, p).lineHeight
  {
  }

  lemma {:induction false} PackAhead(c: Cursor, panels: seq<GridPanel>)
    requires GoodCursor(c)
    ensures GoodCursor(PackEnd(c, panels))
    ensures forall b <- Pack(c, panels) :: Ahead(b, c) && InBounds(b) && Behind(b, PackEnd(c, panels))
    ensures forall b :: Behind(b, c) ==> Behind(b, PackEnd(c, panels))
    decreases |panels|
  {
    hide Advance, Place, InBounds, Behind, Ahead;
    if panels != [] {
      PlaceStep(c, panels[0]);
      PackAhead(Advance(c, panels[0]), panels[1..]);
    }
  }

  // Packed boxes are in bounds, apart, and inside the height the row takes.
  lemma {:induction false} PackApart(c: Cursor, panels: seq<GridPanel>)
    requires GoodCursor(c)
    ensures forall i, j :: 0 <= i < j < |panels| ==> !Overlap(Pack(c, panels)[i], Pack(c, panels)[j])
    decreases |panels|
  {
    hide Advance, Place, Overlap, Behind, Ahead;
    if panels != [] {
      var first, rest, d := Place(c, panels[0]), Pack(Advance(c, panels[0]), panels[1..]), Advance(c, panels[0]);
      PlaceStep(c, panels[0]);
      PackAhead(d, panels[1..]);
      PackApart(d, panels[1..]);
      forall j | 0 <= j < |rest| ensures !Overlap(first, rest[j]) {
        assert rest[j] in rest;
        BehindAheadApart(first, rest[j], d);
      }
    }
  }

  function Extent(panels: seq<GridPanel>): int
  {
    PackEnd(Start, Sorted(panels)).lineY + PackEnd(Start, Sorted(panels)).lineHeight
  }

  lemma {:induction false} PackFits(panels: seq<GridPanel>)
    ensures forall b <- Pack(Start, panels) ::
              InBounds(b) && Within(b, 0, PackEnd(Start, panels).lineY + PackEnd(Start, panels).lineHeight)
  {
    hide Pack, PackEnd;
    PackAhead(Start, panels);
  }

  // No box reaches below the line, and some box reaches it.
  ghost predicate LowestEdgeIs(boxes: seq<Box>, line: int)
  {
    (forall b <- boxes :: b.y + b.h <= line) && exists b <- boxes :: b.y + b.h == line
  }

  // Each box follows the one before on the same line, or starts a new line right under everything
  // so far because it would not have fitted.
  ghost predicate Follows(above: seq<Box>, b: Box)
    requires above != []
  {
    var before := above[|above| - 1];
    || (b.y == before.y && b.x == before.x + before.w)
    || (b.x == 0 && before.x + before.w + b.w > GridColumns && LowestEdgeIs(above, b.y))
  }

  function LowestEdge(boxes: seq<Box>): int
  {
    if boxes == [] then 0
    else
      var rest, last := LowestEdge(boxes[..|boxes| - 1]), boxes[|boxes| - 1];
      if last.y + last.h > rest then last.y + last.h else rest
  }

  lemma {:induction false} LowestEdgeMeans(boxes: seq<Box>)
    requires forall b <- boxes :: InBounds(b)
    ensures if boxes == [] then LowestEdge(boxes) == 0 else LowestEdgeIs(boxes, LowestEdge(boxes))
  {
    if boxes != [] {
      var rest, last := boxes[..|boxes| - 1], boxes[|boxes| - 1];
      LowestEdgeMeans(rest);
      assert boxes == rest + [last];
      assert last in boxes && forall b <- rest :: b in boxes;
      if LowestEdge(boxes) != last.y + last.h {
        var b :| b in rest && b.y + b.h == LowestEdge(rest);
        assert b in boxes;
      }
    }
  }

  // The cursor stands right of the last box, and the line's height covers all boxes so far.
  lemma {:induction false} CursorFollows(panels: seq<GridPanel>)
    ensures var c, boxes := PackEnd(Start, panels), Pack(Start, panels);
            && c.lineY + c.lineHeight == LowestEdge(boxes)
            && (boxes != [] ==> c.x == boxes[|boxes| - 1].x + boxes[|boxes| - 1].w && c.lineY == boxes[|boxes| - 1].y)
  {
    if panels != [] {
      var rest, last := panels[..|panels| - 1], panels[|panels| - 1];
      assert panels == rest + [last];
      CursorFollows(rest);
      PackSnoc(Start, rest, last);
      assert Pack(Start, panels)[..|rest|] == Pack(Start, rest);
    }
  }

  // Packing keeps the sizes (clamped to the grid) and fills lines left to right in the order given.
  lemma {:induction false} PackFillsLines(panels: seq<GridPanel>, k: nat)
    requires k < |panels|
    ensures var boxes := Pack(Start, panels);
            && boxes[k].w == Clamp(panels[k].width) && boxes[k].h == Clamp(panels[k].height)
            && (k == 0 ==> boxes[0].x == 0 && boxes[0].y == 0)
            && (k > 0 ==> Follows(boxes[..k], boxes[k]))
  {
    hide Pack, PackEnd, LowestEdge, LowestEdgeIs;
    var rest := panels[..k];
    CursorFollows(rest);
    PackSnoc(Start, rest, panels[k]);
    assert panels[..k + 1] == rest + [panels[k]];
    PackPrefix(Start, panels, k);
    PackPrefix(Start, panels, k + 1);
    assert Pack(Start, panels)[k] == Pack(Start, panels)[..k + 1][k];
    PackAhead(Start, rest);
    LowestEdgeMeans(Pack(Start, rest));
    if k == 0 {
      EmptyPack();
      assert rest == [];
    }
  }

  lemma {:induction false} PackPrefix(c: Cursor, panels: seq<GridPanel>, k: nat)
    requires k <= |panels|
    ensures Pack(c, panels)[..k] == Pack(c, panels[..k])
    decreases |panels|
  {
    hide Advance, Place;
    if k > 0 {
      assert panels[..k][1..] == panels[1..][..k - 1];
      PackPrefix(Advance(c, panels[0]), panels[1..], k - 1);
    }
  }

  // ---- The positions of a row's panels ----

  lemma {:induction false} PositionsApart(panels: seq<GridPanel>)
    requires DistinctIDs(panels)
    ensures forall i, j :: 0 <= i < j < |panels| ==> !Overlap(Positions(panels)[i], Positions(panels)[j])
    ensures forall i :: 0 <= i < |panels| ==>
              InBounds(Positions(panels)[i]) && Within(Positions(panels)[i], 0, Extent(panels))
  {
    hide Positions, Sorted, Pack, PackEnd, Overlap, InBounds, Within;
    PackApart(Start, Sorted(panels));
    PackFits(Sorted(panels));
    forall i | 0 <= i < |panels| ensures InBounds(Positions(panels)[i])
        && Within(Positions(panels)[i], 0, Extent(panels)) {
      var k := PositionAt(panels, i);
      assert Pack(Start, Sorted(panels))[k] in Pack(Start, Sorted(panels));
    }
    forall i, j | 0 <= i < j < |panels| ensures !Overlap(Positions(panels)[i], Positions(panels)[j]) {
      var k := PositionAt(panels, i);
      var l := PositionAt(panels, j);
      assert k != l;
      OverlapSymmetric(Pack(Start, Sorted(panels))[k], Pack(Start, Sorted(panels))[l]);
    }
  }

  lemma {:induction false} OverlapSymmetric(a: Box, b: Box)
    ensures Overlap(a, b) <==> Overlap(b, a)
  {
  }

  // ---- The two packers agree ----

  lemma {:induction false} LastPlacementIs(panels: seq<GridPanel>, boxes: seq<Box>, placements: seq<Placement>, id: int)
    requires |panels| == |boxes| == |placements|
    requires forall i :: 0 <= i < |panels| ==> placements[i] == Placement(panels[i].id, boxes[i])
    ensures LastPlacement(id, placements) == BoxFor(id, panels, boxes)
  {
    if panels != [] {
      LastPlacementIs(panels[..|panels| - 1], boxes[..|boxes| - 1], placements[..|placements| - 1], id);
    }
  }

  lemma {:induction false} BoxForDown(panels: seq<GridPanel>, boxes: seq<Box>, moved: seq<Box>, lines: int, id: int)
    requires |panels| == |boxes| == |moved| && forall i :: 0 <= i < |boxes| ==> moved[i] == Down(boxes[i], lines)
    ensures BoxFor(id, panels, moved) ==
            match BoxFor(id, panels, boxes) case Some(box) => Some(Down(box, lines)) case None => None
  {
    if panels != [] {
      BoxForDown(panels[..|panels| - 1], boxes[..|boxes| - 1], moved[..|moved| - 1], lines, id);
    }
  }

  // The category renderer (PlanGrid less the one-line band) and the overview renderer (the same
  // packing written again) put every panel in the same place.
  lemma {:induction false} PackersAgree(panels: seq<Panel>, plan: seq<GridPanel>, i: nat)
    requires |panels| == |plan| && i < |panels|
    ensures Written(panels[i], RowPlacements(GridPanels(panels, plan), 0)) ==
            Panel(panels[i].id, Positions(GridPanels(panels, plan))[i])
  {
    hide Pack, Sorted;
    var all := GridPanels(panels, plan);
    var ordered := Sorted(all);
    var boxes := Pack(Start, ordered);
    var moved := AllDown(boxes, 0 + RowHeight);
    LastPlacementIs(ordered, moved, RowPlacements(all, 0), panels[i].id);
    BoxForDown(ordered, boxes, moved, RowHeight, panels[i].id);
    assert all[i] in multiset(ordered);
    BoxForSome(ordered, boxes, all[i]);
  }

  lemma {:induction false} BoxForSome(panels: seq<GridPanel>, boxes: seq<Box>, p: GridPanel)
    requires |panels| == |boxes| && p in panels
    ensures BoxFor(p.id, panels, boxes).Some?
  {
    var last := |panels| - 1;
    if panels[last].id != p.id { BoxForSome(panels[..last], boxes[..last], p); }
  }

  // ---- PlanGrid on its own ----

  ghost predicate RowFine(row: GridRow, bottom: int)
  {
    && row.y >= 0
    && (forall p <- row.panels :: InBounds(p.box) && Within(p.box, row.y + RowHeight, bottom))
    && (forall i, j :: 0 <= i < j < |row.panels| ==> !Overlap(row.panels[i].box, row.panels[j].box))
  }

  lemma {:induction false} OneRowFine(layout: CategoryLayout, y: int)
    requires y >= 0
    ensures RowFine(GridRow(layout.rowID, layout.category, y, RowPlacements(layout.panels, y)),
        y + RowExtent(layout.panels))
    ensures RowExtent(layout.panels) >= RowHeight
  {
    hide Pack, PackEnd, Sorted;
    var ordered := Sorted(layout.panels);
    var boxes := Pack(Start, ordered);
    PackApart(Start, ordered);
    PackFits(ordered);
    PackAhead(Start, ordered);
    var placements := RowPlacements(layout.panels, y);
    forall i | 0 <= i < |placements|
      ensures InBounds(placements[i].box) && Within(placements[i].box, y + RowHeight, y + RowExtent(layout.panels))
    {
      assert boxes[i] in boxes;
    }
  }

  ghost predicate Settled(row: GridRow) { exists bottom :: RowFine(row, bottom) }

  ghost predicate Above(a: GridRow, b: GridRow) { a.y + RowHeight <= b.y && RowFine(a, b.y) }

  // Every row's panels lie below its own band and above the next row's, and do not overlap.
  ghost predicate Stacks(rows: seq<GridRow>, y: int)
  {
    && (forall i :: 0 <= i < |rows| ==> rows[i].y >= y && Settled(rows[i]))
    && (forall i, j :: 0 <= i < j < |rows| ==> Above(rows[i], rows[j]))
  }

  lemma {:induction false} StacksMore(row: GridRow, next: int, rest: seq<GridRow>)
    requires RowFine(row, next) && row.y + RowHeight <= next && Stacks(rest, next)
    ensures Stacks([row] + rest, row.y)
  {
    hide RowFine;
    assert Settled(row);
    forall j | 0 <= j < |rest| ensures Above(row, rest[j]) { LowerBottom(row, next, rest[j].y); }
    hide Settled, Above;
    var all := [row] + rest;
    assert forall i :: 0 < i < |all| ==> all[i] == rest[i - 1];
    assert Stacks(all, row.y);
  }

  lemma {:induction false} RowsFine(layouts: map<string, CategoryLayout>, order: seq<string>, y: int)
    requires y >= 0
    ensures Stacks(Rows(layouts, order, y), y)
    decreases |order|
  {
    hide RowPlacements, RowExtent, RowFine;
    if order != [] {
      if !Shown(layouts, order[0]) {
        RowsFine(layouts, order[1..], y);
      } else {
        var layout := layouts[order[0]];
        var next := y + RowExtent(layout.panels);
        OneRowFine(layout, y);
        RowsFine(layouts, order[1..], next);
        StacksMore(GridRow(layout.rowID, layout.category, y, RowPlacements(layout.panels, y)), next,
                   Rows(layouts, order[1..], next));
      }
    }
  }

  lemma {:induction false} LowerBottom(row: GridRow, bottom: int, lower: int)
    requires RowFine(row, bottom) && bottom <= lower
    ensures RowFine(row, lower)
  {
  }

  function Band(y: int): Box { Box(0, y, GridColumns, RowHeight) }

  // Across rows: no panel or band of one row meets a panel or band of another.
  ghost predicate RowsApart(a: GridRow, b: GridRow)
  {
    && !Overlap(Band(a.y), Band(b.y))
    && (forall p <- a.panels, q <- b.panels :: !Overlap(p.box, q.box))
    && (forall p <- a.panels :: !Overlap(Band(b.y), p.box))
    && (forall q <- b.panels :: !Overlap(Band(a.y), q.box))
  }

  ghost predicate RowSafe(row: GridRow)
  {
    && InBounds(Band(row.y))
    && (forall p <- row.panels :: InBounds(p.box) && !Overlap(Band(row.y), p.box))
    && (forall i, j :: 0 <= i < j < |row.panels| ==> !Overlap(row.panels[i].box, row.panels[j].box))
  }

  // What PlanGrid documents: bounds, and no overlap within or across categories.
  lemma {:induction false} PlanGridSafe(layouts: seq<CategoryLayout>)
    ensures forall row <- Planned(layouts) :: RowSafe(row)
    ensures forall i, j :: 0 <= i < j < |Planned(layouts)| ==> RowsApart(Planned(layouts)[i], Planned(layouts)[j])
  {
    hide Rows, RowFine, Overlap;
    var rows := Planned(layouts);
    RowsFine(ByCategory(layouts), CategoryOrder, 0);
    forall row | row in rows ensures RowSafe(row) {
      assert Settled(row);
      var bottom :| RowFine(row, bottom);
      FineIsSafe(row, bottom);
    }
    forall i, j | 0 <= i < j < |rows| ensures RowsApart(rows[i], rows[j]) {
      assert Settled(rows[j]) && Above(rows[i], rows[j]);
      var bottom :| RowFine(rows[j], bottom);
      FineApart(rows[i], rows[j], bottom);
    }
  }

  lemma {:induction false} FineIsSafe(row: GridRow, bottom: int)
    requires RowFine(row, bottom)
    ensures RowSafe(row)
  {
  }

  lemma {:induction false} FineApart(a: GridRow, b: GridRow, bottom: int)
    requires a.y + RowHeight <= b.y && RowFine(a, b.y) && RowFine(b, bottom)
    ensures RowsApart(a, b)
  {
    hide InBounds;
  }

  // ---- The whole dashboard ----

  // A row as a packer leaves it: in bounds and apart.
  ghost predicate RowPacked(panels: seq<Panel>)
  {
    && (forall i :: 0 <= i < |panels| ==> InBounds(panels[i].pos))
    && (forall i, j :: 0 <= i < j < |panels| ==> !Overlap(panels[i].pos, panels[j].pos))
  }

  // What PlaceOverviewPanels or PlaceCategoryPanels leaves of a row.
  ghost predicate Rendered(before: seq<Panel>, plan: seq<GridPanel>, after: seq<Panel>)
  {
    && |before| == |plan| == |after|
    && (|| Placed(before, after, Positions(GridPanels(before, plan)))
        || (forall i :: 0 <= i < |before| ==>
              after[i] == Written(before[i], RowPlacements(GridPanels(before, plan), 0))))
  }

  // Whichever renderer placed it, a row is packed exactly when its panels have different IDs.
  lemma {:induction false} RenderedPackedExactlyWhen(before: seq<Panel>, plan: seq<GridPanel>, after: seq<Panel>)
    requires Rendered(before, plan, after)
    ensures Placed(before, after, Positions(GridPanels(before, plan)))
    ensures RowPacked(after) <==> DistinctIDs(GridPanels(before, plan))
  {
    hide Positions, RowPlacements, Written, Overlap, InBounds;
    var all := GridPanels(before, plan);
    forall i | 0 <= i < |before| ensures after[i] == Panel(before[i].id, Positions(all)[i]) {
      PackersAgree(before, plan, i);
    }
    if DistinctIDs(all) {
      PositionsApart(all);
    } else {
      var i, j :| 0 <= i < j < |all| && all[i].id == all[j].id;
      SharedPosition(all, i, j);
    }
  }

  lemma {:induction false} SharedPosition(panels: seq<GridPanel>, i: nat, j: nat)
    requires i < |panels| && j < |panels| && panels[i].id == panels[j].id
    ensures Positions(panels)[i] == Positions(panels)[j]
    ensures InBounds(Positions(panels)[i]) ==> Overlap(Positions(panels)[i], Positions(panels)[j])
  {
    hide Sorted, Pack;
  }

  lemma {:induction false} LowerPacked(panels: seq<Panel>, lines: int)
    requires RowPacked(panels) && lines >= 0
    ensures RowPacked(Lower(panels, lines))
    ensures forall i :: 0 <= i < |panels| ==> Lower(panels, lines)[i].pos.y >= lines
  {
    hide Lower;
  }

  lemma {:induction false} BottomCovers(panels: seq<Panel>)
    ensures forall i :: 0 <= i < |panels| ==> panels[i].pos.y + panels[i].pos.h <= Bottom(panels)
    ensures Bottom(panels) >= 0
  {
    if panels != [] { BottomCovers(panels[..|panels| - 1]); }
  }

  // Row `i` lies between its own band and the next row's.
  lemma {:induction false} RowBetween(rows: seq<seq<Panel>>, i: nat)
    requires i < |rows| && (forall r <- rows :: RowPacked(r)) && BandLine(rows, i) >= 0
    ensures RowPacked(StackedRow(rows, i))
    ensures forall p <- StackedRow(rows, i) :: Within(p.pos, BandLine(rows, i) + 1, BandLine(rows, i + 1))
    ensures BandLine(rows, i + 1) >= BandLine(rows, i) + if rows[i] == [] then 0 else 1
  {
    hide RowPacked, Lower, Bottom, BandLine, Overlap;
    assert rows[i] in rows;
    var line := BandLine(rows, i);
    LowerPacked(rows[i], line + 1);
    BottomCovers(StackedRow(rows, i));
    NextBand(rows, i);
    if rows[i] != [] { PackedBounds(StackedRow(rows, i), 0); }
  }

  lemma {:induction false} PackedBounds(panels: seq<Panel>, i: nat)
    requires RowPacked(panels) && i < |panels|
    ensures InBounds(panels[i].pos)
  {
  }

  lemma {:induction false} NextBand(rows: seq<seq<Panel>>, i: nat)
    requires i < |rows|
    ensures BandLine(rows, i + 1) == if rows[i] == [] then BandLine(rows, i) else Bottom(StackedRow(rows, i))
  {
  }

  lemma {:induction false} BandsDescend(rows: seq<seq<Panel>>, i: nat, j: nat)
    requires i <= j <= |rows| && forall r <- rows :: RowPacked(r)
    ensures BandLine(rows, i) >= 0
    ensures BandLine(rows, j) >= BandLine(rows, i) + if i < j && rows[i] != [] then 1 else 0
    decreases j
  {
    hide RowPacked, BandLine, Within;
    FirstBand(rows);
    if i == j {
      if i > 0 { BandsDescend(rows, 0, i - 1); RowBetween(rows, i - 1); }
    } else {
      BandsDescend(rows, i, j - 1);
      BandsDescend(rows, j - 1, j - 1);
      RowBetween(rows, j - 1);
    }
  }

  lemma {:induction false} FirstBand(rows: seq<seq<Panel>>)
    ensures BandLine(rows, 0) == 0
  {
  }

  // After stacking, no two panels anywhere overlap, no panel meets any row's band, no two bands
  // of shown rows meet, and every panel is in the bounds the model validator checks.
  ghost predicate DashboardFine(rows: seq<seq<Panel>>)
  {
    && (forall i, a :: 0 <= i < |rows| && 0 <= a < |rows[i]| ==> InBounds(StackedRow(rows, i)[a].pos))
    && (forall i, a, j, b | 0 <= i < |rows| && 0 <= j < |rows| && 0 <= a < |rows[i]| && 0 <= b < |rows[j]| ::
          (i == j && a == b) || !Overlap(StackedRow(rows, i)[a].pos, StackedRow(rows, j)[b].pos))
    && (forall i, j, b | 0 <= i < |rows| && rows[i] != [] && 0 <= j < |rows| && 0 <= b < |rows[j]| ::
          !Overlap(Band(BandLine(rows, i)), StackedRow(rows, j)[b].pos))
    && (forall i, j :: 0 <= i < j < |rows| && rows[i] != [] && rows[j] != [] ==>
          !Overlap(Band(BandLine(rows, i)), Band(BandLine(rows, j))))
  }

  // Rows placed by either renderer and then stacked: a dashboard whose rows each have panels with
  // different IDs.
  lemma {:induction false} RenderedDashboardFine(
    before: seq<seq<Panel>>, plans: seq<seq<GridPanel>>, rows: seq<seq<Panel>>)
    requires |before| == |plans| == |rows|
    requires forall i :: 0 <= i < |rows| ==>
               Rendered(before[i], plans[i], rows[i]) && DistinctIDs(GridPanels(before[i], plans[i]))
    ensures DashboardFine(rows)
  {
    hide Rendered, RowPacked, DashboardFine, DistinctIDs;
    forall r | r in rows ensures RowPacked(r) {
      var i :| 0 <= i < |rows| && rows[i] == r;
      RenderedPackedExactlyWhen(before[i], plans[i], rows[i]);
    }
    DashboardApart(rows);
  }

  lemma {:induction false} DashboardApart(rows: seq<seq<Panel>>)
    requires forall r <- rows :: RowPacked(r)
    ensures DashboardFine(rows)
  {
    hide RowPacked, BandLine, StackedRow, Overlap;
    forall i, a | 0 <= i < |rows| && 0 <= a < |rows[i]| ensures InBounds(StackedRow(rows, i)[a].pos) {
      PanelBetween(rows, i, a);
    }
    forall i, a, j, b | 0 <= i < |rows| && 0 <= j < |rows| && 0 <= a < |rows[i]| && 0 <= b < |rows[j]|
      ensures (i == j && a == b) || !Overlap(StackedRow(rows, i)[a].pos, StackedRow(rows, j)[b].pos)
    {
      if i != j || a != b { PanelsApart(rows, i, a, j, b); }
    }
    forall i, j, b | 0 <= i < |rows| && rows[i] != [] && 0 <= j < |rows| && 0 <= b < |rows[j]|
      ensures !Overlap(Band(BandLine(rows, i)), StackedRow(rows, j)[b].pos)
    {
      BandApart(rows, i, j, b);
    }
    forall i, j | 0 <= i < j < |rows| && rows[i] != [] && rows[j] != []
      ensures !Overlap(Band(BandLine(rows, i)), Band(BandLine(rows, j)))
    {
      BandsDescend(rows, i, j);
      BandsDistinct(BandLine(rows, i), BandLine(rows, j));
    }
  }

  lemma {:induction false} BandsDistinct(a: int, b: int)
    requires a < b
    ensures !Overlap(Band(a), Band(b))
  {
  }

  lemma {:induction false} PanelBetween(rows: seq<seq<Panel>>, i: nat, a: nat)
    requires i < |rows| && a < |rows[i]| && forall r <- rows :: RowPacked(r)
    ensures |StackedRow(rows, i)| == |rows[i]| && BandLine(rows, i) >= 0
    ensures InBounds(StackedRow(rows, i)[a].pos)
    ensures Within(StackedRow(rows, i)[a].pos, BandLine(rows, i) + 1, BandLine(rows, i + 1))
  {
    hide BandLine, RowPacked, Within;
    BandsDescend(rows, i, i);
    RowBetween(rows, i);
    assert StackedRow(rows, i)[a] in StackedRow(rows, i);
    PackedBounds(StackedRow(rows, i), a);
  }

  lemma {:induction false} PanelsApart(rows: seq<seq<Panel>>, i: nat, a: nat, j: nat, b: nat)
    requires i < |rows| && j < |rows| && a < |rows[i]| && b < |rows[j]| && (i != j || a != b)
    requires forall r <- rows :: RowPacked(r)
    ensures |StackedRow(rows, i)| == |rows[i]| && |StackedRow(rows, j)| == |rows[j]|
    ensures !Overlap(StackedRow(rows, i)[a].pos, StackedRow(rows, j)[b].pos)
  {
    hide BandLine, StackedRow;
    PanelBetween(rows, i, a);
    PanelBetween(rows, j, b);
    if i < j {
      BandsDescend(rows, i + 1, j);
    } else if j < i {
      BandsDescend(rows, j + 1, i);
    } else {
      RowBetween(rows, i);
      assert RowPacked(StackedRow(rows, i));
      OverlapSymmetric(StackedRow(rows, i)[a].pos, StackedRow(rows, i)[b].pos);
    }
  }

  lemma {:induction false} BandApart(rows: seq<seq<Panel>>, i: nat, j: nat, b: nat)
    requires i < |rows| && rows[i] != [] && j < |rows| && b < |rows[j]| && forall r <- rows :: RowPacked(r)
    ensures |StackedRow(rows, j)| == |rows[j]| && !Overlap(Band(BandLine(rows, i)), StackedRow(rows, j)[b].pos)
  {
    hide BandLine, StackedRow, RowPacked;
    PanelBetween(rows, j, b);
    if i <= j {
      BandsDescend(rows, i, j);
    } else {
      BandsDescend(rows, j + 1, i);
    }
  }
}
