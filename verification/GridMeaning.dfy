/** Where every panel goes, told from IDs and sizes: dashboard/layout.go, both `placePanels`, and
    `stackRows` of dashboard/pipeline/plan.go. */
module GridMeaning {
  import opened Grid
  import opened GridTheorems
  import opened Ordering

  // ---- One row ----

  // Panel `j` has the next greater ID after panel `i`.
  ghost predicate NextID(panels: seq<GridPanel>, i: nat, j: nat)
    requires i < |panels| && j < |panels|
  {
    panels[i].id < panels[j].id && forall k :: 0 <= k < |panels| ==> !(panels[i].id < panels[k].id < panels[j].id)
  }

  // The lowest edge of the panels with smaller IDs than `id`.
  ghost predicate LowestBefore(panels: seq<GridPanel>, boxes: seq<Box>, id: int, line: int)
    requires |panels| == |boxes|
  {
    && (forall k :: 0 <= k < |panels| && panels[k].id < id ==> boxes[k].y + boxes[k].h <= line)
    && (exists k :: 0 <= k < |panels| && panels[k].id < id && boxes[k].y + boxes[k].h == line)
  }

  // Panels in ID order: sizes clamped, the first one in the corner, each further one right of the one before
  // or, if there is no room, at the left edge right under all panels before it.
  ghost predicate Shelved(panels: seq<GridPanel>, boxes: seq<Box>)
  {
    && |panels| == |boxes|
    && (forall i :: 0 <= i < |panels| ==> boxes[i].w == Clamp(panels[i].width) && boxes[i].h == Clamp(panels[i].height))
    && (forall i :: 0 <= i < |panels| && (forall k :: 0 <= k < |panels| ==> panels[i].id <= panels[k].id) ==>
          boxes[i].x == 0 && boxes[i].y == 0)
    && (forall i, j :: 0 <= i < |panels| && 0 <= j < |panels| && NextID(panels, i, j) ==>
          var a, b := boxes[i], boxes[j];
          if a.x + a.w + b.w <= GridColumns then b.x == a.x + a.w && b.y == a.y
          else b.x == 0 && LowestBefore(panels, boxes, panels[j].id, b.y))
  }

  lemma {:induction false} SortedAscends(panels: seq<GridPanel>, k: nat, l: nat)
    requires DistinctIDs(panels) && k < |panels| && l < |panels|
    ensures k < l <==> Sorted(panels)[k].id < Sorted(panels)[l].id
  {
    SortBySorted(IDLeq, panels);
    SortedDistinct(panels);
  }

  // Every panel of the row stands somewhere in the sorted list, and nothing else does.
  lemma {:induction false} SortedFrom(panels: seq<GridPanel>, k: nat) returns (i: nat)
    requires DistinctIDs(panels) && k < |panels|
    ensures i < |panels| && panels[i] == Sorted(panels)[k] && Positions(panels)[i] == Pack(Start, Sorted(panels))[k]
  {
    hide Positions, Sorted, Pack;
    assert Sorted(panels)[k] in multiset(panels) by { assert Sorted(panels)[k] in multiset(Sorted(panels)); }
    i :| 0 <= i < |panels| && panels[i] == Sorted(panels)[k];
    var l := PositionAt(panels, i);
    SortedAscends(panels, k, l);
    SortedAscends(panels, l, k);
  }

  lemma {:induction false} FirstPosition(panels: seq<GridPanel>, i: nat)
    requires DistinctIDs(panels) && i < |panels| && forall k :: 0 <= k < |panels| ==> panels[i].id <= panels[k].id
    ensures Positions(panels)[i].x == 0 && Positions(panels)[i].y == 0
  {
    hide Positions, Sorted, Pack;
    var k := PositionAt(panels, i);
    var first := SortedFrom(panels, 0);
    SortedAscends(panels, 0, k);
    PackFillsLines(Sorted(panels), 0);
  }

  lemma {:induction false} NextPosition(panels: seq<GridPanel>, i: nat, j: nat)
    requires DistinctIDs(panels) && i < |panels| && j < |panels| && NextID(panels, i, j)
    ensures var a, b := Positions(panels)[i], Positions(panels)[j];
            if a.x + a.w + b.w <= GridColumns then b.x == a.x + a.w && b.y == a.y
            else b.x == 0 && LowestBefore(panels, Positions(panels), panels[j].id, b.y)
  {
    hide Positions, Sorted, Pack, LowestBefore, LowestEdgeIs;
    var k := PositionAt(panels, i);
    var l := PositionAt(panels, j);
    SortedAscends(panels, k, l);
    if k + 1 < l {
      var m := SortedFrom(panels, k + 1);
      SortedAscends(panels, k, k + 1);
      SortedAscends(panels, k + 1, l);
      assert false;
    }
    PackFillsLines(Sorted(panels), l);
    PackFits(Sorted(panels));
    assert Pack(Start, Sorted(panels))[l] in Pack(Start, Sorted(panels));
    if Positions(panels)[j].x == 0 && LowestEdgeIs(Pack(Start, Sorted(panels))[..l], Positions(panels)[j].y) {
      LowestInRow(panels, l, Positions(panels)[j].y);
    }
  }

  lemma {:induction false} LowestInRow(panels: seq<GridPanel>, l: nat, line: int)
    requires DistinctIDs(panels) && l < |panels| && LowestEdgeIs(Pack(Start, Sorted(panels))[..l], line)
    ensures LowestBefore(panels, Positions(panels), Sorted(panels)[l].id, line)
  {
    hide Positions, Sorted, Pack;
    var boxes := Pack(Start, Sorted(panels));
    forall i | 0 <= i < |panels| && panels[i].id < Sorted(panels)[l].id
      ensures Positions(panels)[i].y + Positions(panels)[i].h <= line
    {
      var k := PositionAt(panels, i);
      SortedAscends(panels, k, l);
      assert boxes[..l][k] == boxes[k] && boxes[k] in boxes[..l];
    }
    var b :| b in boxes[..l] && b.y + b.h == line;
    var k :| 0 <= k < l && boxes[k] == b;
    var i := SortedFrom(panels, k);
    SortedAscends(panels, k, l);
  }

  // What both renderers give a row of panels with different IDs.
  lemma {:induction false} PositionsShelve(panels: seq<GridPanel>)
    requires DistinctIDs(panels)
    ensures Shelved(panels, Positions(panels))
  {
    hide Positions, Sorted, Pack, NextID, LowestBefore, DistinctIDs, Follows;
    forall i | 0 <= i < |panels|
      ensures Positions(panels)[i].w == Clamp(panels[i].width) && Positions(panels)[i].h == Clamp(panels[i].height)
    {
      var k := PositionAt(panels, i);
      PackFillsLines(Sorted(panels), k);
    }
    forall i | 0 <= i < |panels| && (forall k :: 0 <= k < |panels| ==> panels[i].id <= panels[k].id)
      ensures Positions(panels)[i].x == 0 && Positions(panels)[i].y == 0
    {
      FirstPosition(panels, i);
    }
    forall i, j | 0 <= i < |panels| && 0 <= j < |panels| && NextID(panels, i, j)
      ensures var a, b := Positions(panels)[i], Positions(panels)[j];
              if a.x + a.w + b.w <= GridColumns then b.x == a.x + a.w && b.y == a.y
              else b.x == 0 && LowestBefore(panels, Positions(panels), panels[j].id, b.y)
    {
      NextPosition(panels, i, j);
    }
  }

  // ---- Rows on top of each other ----

  function Boxes(panels: seq<Panel>): (r: seq<Box>)
    ensures |r| == |panels| && forall i :: 0 <= i < |r| ==> r[i] == panels[i].pos
  {
    seq(|panels|, i requires 0 <= i < |panels| => panels[i].pos)
  }

  // Every panel moves down by the same number of lines, to below its row's band.
  ghost predicate MovedBelow(before: seq<Panel>, after: seq<Panel>, band: int)
  {
    && |before| == |after|
    && forall i :: 0 <= i < |before| ==>
         var a, b := before[i].pos, after[i].pos;
         after[i].id == before[i].id && b == Box(a.x, band + 1 + a.y, a.w, a.h)
  }

  // The first band is at the top, and each further one exactly at the lowest edge of the row before;
  // a row without panels takes no line.
  ghost predicate StackedTight(before: seq<seq<Panel>>, after: seq<seq<Panel>>, bands: seq<int>)
  {
    && |before| == |after| && |bands| == |before| + 1 && bands[0] == 0
    && forall i :: 0 <= i < |before| ==>
         && MovedBelow(before[i], after[i], bands[i])
         && if before[i] == [] then bands[i + 1] == bands[i] else LowestEdgeIs(Boxes(after[i]), bands[i + 1])
  }

  lemma {:induction false} BottomMeans(panels: seq<Panel>)
    requires panels != [] && forall p <- panels :: p.pos.y >= 0 && p.pos.h >= 1
    ensures LowestEdgeIs(Boxes(panels), Bottom(panels))
  {
    BottomCovers(panels);
    var i := BottomReached(panels);
    assert Boxes(panels)[i] in Boxes(panels);
  }

  lemma {:induction false} BottomReached(panels: seq<Panel>) returns (i: nat)
    requires panels != [] && forall p <- panels :: p.pos.y >= 0 && p.pos.h >= 1
    ensures i < |panels| && panels[i].pos.y + panels[i].pos.h == Bottom(panels)
  {
    i := |panels| - 1;
    var rest, last := panels[..i], panels[i];
    assert last in panels && forall p <- rest :: p in panels;
    if rest != [] && Bottom(panels) != last.pos.y + last.pos.h { i := BottomReached(rest); }
  }

  // Stacking packed rows leaves no line between them, and there is one way to do that.
  lemma {:induction false} StackingIsTight(rows: seq<seq<Panel>>, after: seq<seq<Panel>>, bands: seq<int>)
    requires |after| == |rows| && |bands| == |rows| + 1 && forall r <- rows :: RowPacked(r)
    ensures StackedTight(rows, after, bands) <==>
              && (forall i :: 0 <= i < |rows| ==> after[i] == StackedRow(rows, i))
              && (forall i :: 0 <= i <= |rows| ==> bands[i] == BandLine(rows, i))
  {
    hide RowPacked, StackedRow, BandLine, LowestEdgeIs, MovedBelow;
    StackStep(rows, 0);
    if StackedTight(rows, after, bands) {
      for i := 0 to |rows|
        invariant forall j :: 0 <= j < i ==> after[j] == StackedRow(rows, j)
        invariant forall j :: 0 <= j <= i ==> bands[j] == BandLine(rows, j)
      {
        OneMore(rows, i, after[i], bands[i], bands[i + 1]);
      }
    } else if (forall i :: 0 <= i < |rows| ==> after[i] == StackedRow(rows, i))
              && (forall i :: 0 <= i <= |rows| ==> bands[i] == BandLine(rows, i)) {
      forall i | 0 <= i < |rows|
        ensures MovedBelow(rows[i], after[i], bands[i])
        ensures if rows[i] == [] then bands[i + 1] == bands[i] else LowestEdgeIs(Boxes(after[i]), bands[i + 1])
      {
        OneMore(rows, i, after[i], bands[i], bands[i + 1]);
      }
      assert false;
    }
  }

  lemma {:induction false} OneMore(rows: seq<seq<Panel>>, i: nat, after: seq<Panel>, band: int, next: int)
    requires i < |rows| && band == BandLine(rows, i) && forall r <- rows :: RowPacked(r)
    ensures (&& MovedBelow(rows[i], after, band)
             && if rows[i] == [] then next == band else LowestEdgeIs(Boxes(after), next)) <==>
            after == StackedRow(rows, i) && next == BandLine(rows, i + 1)
  {
    hide RowPacked, StackedRow, BandLine, LowestEdgeIs, MovedBelow, Bottom, Within;
    BandsDescend(rows, i, i);
    RowBetween(rows, i);
    StackStep(rows, i);
    var row := StackedRow(rows, i);
    MovedIs(rows, i, after);
    if rows[i] != [] {
      forall p | p in row ensures p.pos.y >= 0 && p.pos.h >= 1 {
        var k :| 0 <= k < |row| && row[k] == p;
        PackedBounds(row, k);
      }
      BottomMeans(row);
      OneLowest(Boxes(row), Bottom(row), next);
    }
  }

  lemma {:induction false} MovedIs(rows: seq<seq<Panel>>, i: nat, after: seq<Panel>)
    requires i < |rows|
    ensures MovedBelow(rows[i], after, BandLine(rows, i)) <==> after == StackedRow(rows, i)
  {
    hide BandLine;
  }

  lemma {:induction false} OneLowest(boxes: seq<Box>, a: int, b: int)
    requires LowestEdgeIs(boxes, a)
    ensures LowestEdgeIs(boxes, b) <==> a == b
  {
  }

  // ---- PlanGrid ----

  // The last layout of a category.
  ghost predicate LastOf(layouts: seq<CategoryLayout>, category: string, k: nat)
  {
    && k < |layouts| && layouts[k].category == category
    && forall l :: k < l < |layouts| ==> layouts[l].category != category
  }

  ghost predicate HasRow(layouts: seq<CategoryLayout>, category: string)
  {
    exists k: nat :: LastOf(layouts, category, k) && layouts[k].panels != []
  }

  ghost function WithRows(layouts: seq<CategoryLayout>, order: seq<string>): seq<string>
  {
    if order == [] then []
    else (if HasRow(layouts, order[0]) then [order[0]] else []) + WithRows(layouts, order[1..])
  }

  function PlacementBoxes(panels: seq<Placement>): (r: seq<Box>)
    ensures |r| == |panels| && forall i :: 0 <= i < |r| ==> r[i] == panels[i].box
  {
    seq(|panels|, i requires 0 <= i < |panels| => panels[i].box)
  }

  // The row of a layout: its panels in ID order, shelved below the band.
  ghost predicate RowOf(row: GridRow, layout: CategoryLayout)
  {
    && row.rowID == layout.rowID && row.category == layout.category && |row.panels| == |layout.panels|
    && (forall i, j :: 0 <= i < j < |row.panels| ==> row.panels[i].id <= row.panels[j].id)
    && (DistinctIDs(layout.panels) ==>
          exists boxes ::
            && Shelved(layout.panels, boxes)
            && forall i :: 0 <= i < |layout.panels| ==>
                 Placement(layout.panels[i].id, Down(boxes[i], row.y + 1)) in row.panels)
  }

  // Each row's band is exactly at the lowest edge of the row before, the first one at `y`.
  ghost predicate RowsTight(rows: seq<GridRow>, y: int)
  {
    && (rows != [] ==> rows[0].y == y)
    && forall i :: 0 <= i < |rows| - 1 ==> LowestEdgeIs(PlacementBoxes(rows[i].panels), rows[i + 1].y)
  }

  ghost predicate RowsOf(rows: seq<GridRow>, layouts: seq<CategoryLayout>, order: seq<string>)
  {
    && |rows| == |WithRows(layouts, order)|
    && forall i :: 0 <= i < |rows| ==> RowOfCategory(rows[i], layouts, WithRows(layouts, order)[i])
  }

  ghost predicate RowOfCategory(row: GridRow, layouts: seq<CategoryLayout>, category: string)
  {
    exists k: nat :: LastOf(layouts, category, k) && RowOf(row, layouts[k])
  }

  lemma {:induction false} ByCategoryIs(layouts: seq<CategoryLayout>, category: string)
    ensures Shown(ByCategory(layouts), category) <==> HasRow(layouts, category)
    ensures category in ByCategory(layouts) ==>
              exists k: nat :: LastOf(layouts, category, k) && ByCategory(layouts)[category] == layouts[k]
  {
    if layouts != [] {
      var n := |layouts| - 1;
      var rest := layouts[..n];
      ByCategoryIs(rest, category);
      if layouts[n].category == category {
        assert LastOf(layouts, category, n);
      } else {
        assert forall k: nat :: LastOf(layouts, category, k) <==> LastOf(rest, category, k);
      }
    }
  }

  lemma {:induction false} RowIs(layout: CategoryLayout, y: int)
    requires layout.panels != []
    ensures RowOf(GridRow(layout.rowID, layout.category, y, RowPlacements(layout.panels, y)), layout)
  {
    hide Pack, Shelved, Positions, Sorted, DistinctIDs;
    var placements := RowPlacements(layout.panels, y);
    SortedOrder(layout.panels);
    if DistinctIDs(layout.panels) {
      PositionsShelve(layout.panels);
      forall i | 0 <= i < |layout.panels|
        ensures Placement(layout.panels[i].id, Down(Positions(layout.panels)[i], y + 1)) in placements
      {
        var k := PositionAt(layout.panels, i);
        assert placements[k] == Placement(layout.panels[i].id, Down(Positions(layout.panels)[i], y + 1));
      }
    }
  }

  lemma {:induction false} RowEndsAtLowest(layout: CategoryLayout, y: int)
    requires layout.panels != []
    ensures LowestEdgeIs(PlacementBoxes(RowPlacements(layout.panels, y)), y + RowExtent(layout.panels))
  {
    hide Pack, PackEnd, LowestEdge, Sorted, LowestEdgeIs;
    var ordered, placements := Sorted(layout.panels), RowPlacements(layout.panels, y);
    var boxes := Pack(Start, ordered);
    CursorFollows(ordered);
    PackFits(ordered);
    LowestEdgeMeans(boxes);
    DownLowest(boxes, PlacementBoxes(placements), LowestEdge(boxes), y + RowHeight);
  }

  lemma {:induction false} SortedOrder(panels: seq<GridPanel>)
    ensures forall i, j :: 0 <= i < j < |panels| ==> Sorted(panels)[i].id <= Sorted(panels)[j].id
  {
    SortBySorted(IDLeq, panels);
  }

  lemma {:induction false} DownLowest(boxes: seq<Box>, moved: seq<Box>, line: int, lines: int)
    requires |moved| == |boxes| && forall i :: 0 <= i < |boxes| ==> moved[i] == Down(boxes[i], lines)
    requires LowestEdgeIs(boxes, line)
    ensures LowestEdgeIs(moved, lines + line)
  {
    var b :| b in boxes && b.y + b.h == line;
    var i :| 0 <= i < |boxes| && boxes[i] == b;
    assert moved[i] in moved;
    forall m | m in moved ensures m.y + m.h <= lines + line {
      var j :| 0 <= j < |moved| && moved[j] == m;
      assert boxes[j] in boxes;
    }
  }

  lemma {:induction false} RowsMean(layouts: seq<CategoryLayout>, order: seq<string>, y: int)
    ensures var rows := Rows(ByCategory(layouts), order, y); RowsOf(rows, layouts, order) && RowsTight(rows, y)
    decreases |order|
  {
    hide RowPlacements, RowExtent, RowOf, LowestEdgeIs, ByCategory, LastOf, HasRow;
    if order != [] {
      var m := ByCategory(layouts);
      ByCategoryIs(layouts, order[0]);
      if !Shown(m, order[0]) {
        RowsMean(layouts, order[1..], y);
      } else {
        var layout := m[order[0]];
        RowIs(layout, y);
        RowEndsAtLowest(layout, y);
        RowsMean(layouts, order[1..], y + RowExtent(layout.panels));
        var row, rest := Rows(m, order, y)[0], Rows(m, order[1..], y + RowExtent(layout.panels));
        assert Rows(m, order, y) == [row] + rest;
        assert WithRows(layouts, order) == [order[0]] + WithRows(layouts, order[1..]);
        assert RowOfCategory(row, layouts, order[0]);
        hide Rows, WithRows, RowOfCategory;
        forall i | 0 <= i < |rest| ensures RowOfCategory(rest[i], layouts, WithRows(layouts, order)[i + 1]) {
          assert WithRows(layouts, order)[i + 1] == WithRows(layouts, order[1..])[i];
        }
        assert forall i :: 0 <= i < |rest| ==> ([row] + rest)[i + 1] == rest[i];
      }
    }
  }

  // PlanGrid gives exactly the categories that have panels, in the fixed order, the last layout of each,
  // one row right under the other.
  lemma {:induction false} PlanGridMeans(layouts: seq<CategoryLayout>)
    ensures RowsOf(Planned(layouts), layouts, CategoryOrder) && RowsTight(Planned(layouts), 0)
  {
    hide RowsOf, RowsTight, Rows, ByCategory;
    RowsMean(layouts, CategoryOrder, 0);
  }
}
