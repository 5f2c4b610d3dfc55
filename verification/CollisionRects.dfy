/** The merged collision rectangles: one run per stretch of touching cells, row by row. */
module CollisionRects {
  import opened Rects
  import opened Surfaces

  // Specification: runs of one row, rows of the map

  /** Touching cells merged, left to right. */
  function Runs(row: seq<Cell>): seq<Cell> {
    if row == [] then []
    else
      var n := |row| - 1;
      var runs := Runs(row[..n]);
      if runs != [] && runs[|runs| - 1].x1 == row[n].x0
      then runs[..|runs| - 1] + [runs[|runs| - 1].(x1 := row[n].x1)]
      else runs + [row[n]]
  }

  function RunRect(run: Cell, tileHeight: real): Rect {
    Rect(run.x0, run.top - tileHeight, run.x1 - run.x0, tileHeight)
  }

  function RunRects(runs: seq<Cell>, tileHeight: real): (rects: seq<Rect>)
    ensures |rects| == |runs|
  {
    seq(|runs|, i requires 0 <= i < |runs| => RunRect(runs[i], tileHeight))
  }

  function RowOf(cells: seq<Cell>, top: real): seq<Cell> {
    if cells == [] then []
    else
      var n := |cells| - 1;
      RowOf(cells[..n], top) + if cells[n].top == top then [cells[n]] else []
  }

  /** Distinct tops, in order of first appearance. */
  function Tops(cells: seq<Cell>): seq<real> {
    if cells == [] then []
    else
      var n := |cells| - 1;
      var tops := Tops(cells[..n]);
      if cells[n].top in tops then tops else tops + [cells[n].top]
  }

  function RectsOfRows(q: SurfaceQuery, tops: seq<real>): seq<Rect> {
    if tops == [] then []
    else
      var n := |tops| - 1;
      RectsOfRows(q, tops[..n]) + RunRects(Runs(RowOf(q.cells, tops[n])), q.tileHeight)
  }

  function MergedRects(q: SurfaceQuery): seq<Rect> {
    RectsOfRows(q, Tops(q.cells))
  }

  // Runs

  ghost predicate RowSorted(row: seq<Cell>) {
    && (forall i :: 0 <= i < |row| ==> row[i].x0 < row[i].x1 && row[i].top == row[0].top)
    && (forall i, j :: 0 <= i < j < |row| ==> row[i].x1 <= row[j].x0)
  }

  /** No two runs touch, and they go from left to right. */
  ghost predicate Separated(runs: seq<Cell>) {
    && (forall i :: 0 <= i < |runs| ==> runs[i].x0 < runs[i].x1)
    && (forall i, j :: 0 <= i < j < |runs| ==> runs[i].x1 < runs[j].x0)
  }

  ghost predicate SpanCovers(cells: seq<Cell>, x: real) {
    exists i :: 0 <= i < |cells| && cells[i].x0 <= x < cells[i].x1
  }

  lemma ExtendLastRun(runs: seq<Cell>, x1: real)
    requires Separated(runs) && runs != [] && runs[|runs| - 1].x1 < x1
    ensures Separated(runs[..|runs| - 1] + [runs[|runs| - 1].(x1 := x1)])
  {
  }

  lemma AddRun(runs: seq<Cell>, c: Cell)
    requires Separated(runs) && c.x0 < c.x1 && (runs != [] ==> runs[|runs| - 1].x1 < c.x0)
    ensures Separated(runs + [c])
  {
  }

  lemma {:induction false} RunsAreMaximal(row: seq<Cell>)
    requires RowSorted(row)
    ensures var runs := Runs(row);
            && Separated(runs)
            && (row != [] ==> runs != [] && runs[|runs| - 1].x1 == row[|row| - 1].x1)
            && forall i :: 0 <= i < |runs| ==> runs[i].top == row[0].top
  {
    if row != [] {
      var n := |row| - 1;
      RunsAreMaximal(row[..n]);
      hide Separated;
      var runs := Runs(row[..n]);
      if runs != [] && runs[|runs| - 1].x1 == row[n].x0 {
        ExtendLastRun(runs, row[n].x1);
      } else {
        AddRun(runs, row[n]);
      }
    }
  }

  lemma SpanCoversMore(cells: seq<Cell>, c: Cell, x: real)
    ensures SpanCovers(cells + [c], x) <==> SpanCovers(cells, x) || c.x0 <= x < c.x1
  {
    if SpanCovers(cells, x) {
      var i :| 0 <= i < |cells| && cells[i].x0 <= x < cells[i].x1;
      assert (cells + [c])[i] == cells[i];
    }
    assert (cells + [c])[|cells|] == c;
  }

  lemma SortedParts(row: seq<Cell>)
    requires RowSorted(row) && row != []
    ensures RowSorted(row[..|row| - 1]) && row[|row| - 1].x0 < row[|row| - 1].x1
  {}

  lemma {:induction false} RunsCoverTheRow(row: seq<Cell>, x: real)
    requires RowSorted(row)
    ensures SpanCovers(Runs(row), x) <==> SpanCovers(row, x)
  {
    hide SpanCovers, RowSorted;
    if row != [] {
      var n := |row| - 1;
      var runs, c := Runs(row[..n]), row[n];
      SortedParts(row);
      RunsCoverTheRow(row[..n], x);
      RunsAreMaximal(row[..n]);
      SpanCoversMore(row[..n], c, x);
      assert row == row[..n] + [c];
      SpanCoversMore(runs, c, x);
      if runs != [] && runs[|runs| - 1].x1 == c.x0 {
        var k := |runs| - 1;
        SpanCoversMore(runs[..k], runs[k], x);
        assert runs == runs[..k] + [runs[k]];
        SpanCoversMore(runs[..k], runs[k].(x1 := c.x1), x);
      }
    }
  }

  // Rows

  lemma {:induction false} RowMembers(cells: seq<Cell>, top: real)
    ensures forall c :: c in RowOf(cells, top) <==> c in cells && c.top == top
  {
    if cells != [] {
      var n := |cells| - 1;
      RowMembers(cells[..n], top);
      assert cells == cells[..n] + [cells[n]];
    }
  }

  lemma RowGrows(row: seq<Cell>, c: Cell)
    requires RowSorted(row) && c.x0 < c.x1
    requires forall i :: 0 <= i < |row| ==> row[i].x1 <= c.x0 && row[i].top == c.top
    ensures RowSorted(row + [c])
  {}

  lemma EarlierInRow(q: SurfaceQuery, n: nat, d: Cell)
    requires GridCells(q) && n < |q.cells| && d in q.cells[..n] && d.top == q.cells[n].top
    ensures d.x1 <= q.cells[n].x0
  {
    var k :| 0 <= k < n && q.cells[k] == d;
    assert Before(q.cells[k], q.cells[n], q.tileHeight);
  }

  lemma {:induction false} RowIsSorted(q: SurfaceQuery, n: nat, top: real)
    requires GridCells(q) && n <= |q.cells|
    ensures RowSorted(RowOf(q.cells[..n], top))
  {
    if n > 0 {
      var front, c := q.cells[..n - 1], q.cells[n - 1];
      RowIsSorted(q, n - 1, top);
      assert q.cells[..n][..n - 1] == front;
      if c.top == top {
        hide RowSorted, Before;
        var row := RowOf(front, top);
        RowMembers(front, top);
        forall i | 0 <= i < |row| ensures row[i].x1 <= c.x0 && row[i].top == c.top {
          assert row[i] in row;
          EarlierInRow(q, n - 1, row[i]);
        }
        RowGrows(row, c);
      }
    }
  }

  lemma WholeRow(q: SurfaceQuery, top: real)
    requires GridCells(q)
    ensures RowSorted(RowOf(q.cells, top))
    ensures forall c :: c in RowOf(q.cells, top) <==> c in q.cells && c.top == top
  {
    RowIsSorted(q, |q.cells|, top);
    RowMembers(q.cells, top);
    assert q.cells[..|q.cells|] == q.cells;
  }

  /** Tops from the highest down, at least one tile apart. */
  ghost predicate Descending(tops: seq<real>, step: real) {
    forall i, j :: 0 <= i < j < |tops| ==> tops[i] - step >= tops[j]
  }

  lemma {:induction false} TopsDescend(q: SurfaceQuery, cells: seq<Cell>)
    requires GridCells(q) && cells <= q.cells
    ensures Descending(Tops(cells), q.tileHeight)
    ensures forall t :: t in Tops(cells) <==> exists c :: c in cells && c.top == t
  {
    if cells != [] {
      var n := |cells| - 1;
      TopsDescend(q, cells[..n]);
      var tops, c := Tops(cells[..n]), cells[n];
      assert cells == cells[..n] + [c];
      forall i | 0 <= i < |tops| && c.top !in tops ensures tops[i] - q.tileHeight >= c.top {
        assert tops[i] in tops;
        var d :| d in cells[..n] && d.top == tops[i];
        var k :| 0 <= k < n && cells[k] == d;
        assert Before(q.cells[k], q.cells[n], q.tileHeight);
      }
      forall t ensures t in Tops(cells) <==> exists d :: d in cells && d.top == t {
        if t in Tops(cells) {
          if t in tops {
            var d :| d in cells[..n] && d.top == t;
            assert d in cells;
          } else {
            assert c in cells && c.top == t;
          }
        }
        if d :| d in cells && d.top == t {
          assert d in cells[..n] || d == c;
        }
      }
    }
  }

  // The theorem

  /** The order of emission: rows from the top down, and within a row strictly apart from left to
      right, so that no two rectangles overlap or touch end to end. */
  ghost predicate RowMajor(rects: seq<Rect>) {
    forall i, j :: 0 <= i < j < |rects| ==>
      rects[i].MinY() >= rects[j].MaxY()
      || (rects[i].MinY() == rects[j].MinY() && rects[i].MaxX() < rects[j].MinX())
  }

  ghost predicate RectsOk(q: SurfaceQuery, rects: seq<Rect>, low: real) {
    && RowMajor(rects)
    && (forall i :: 0 <= i < |rects| ==>
          rects[i].width > 0.0 && rects[i].height == q.tileHeight && rects[i].MinY() >= low)
  }

  lemma {:induction false} RowsAreOk(q: SurfaceQuery, tops: seq<real>)
    requires GridCells(q) && Descending(tops, q.tileHeight)
    ensures RectsOk(q, RectsOfRows(q, tops), if tops == [] then 0.0 else tops[|tops| - 1] - q.tileHeight)
  {
    if tops != [] {
      hide GridCells, Runs, RowOf;
      var n := |tops| - 1;
      RowsAreOk(q, tops[..n]);
      RowIsOk(q, tops[n]);
    }
  }

  lemma RowIsOk(q: SurfaceQuery, top: real)
    requires GridCells(q)
    ensures RectsOk(q, RunRects(Runs(RowOf(q.cells, top)), q.tileHeight), top - q.tileHeight)
    ensures forall rect :: rect in RunRects(Runs(RowOf(q.cells, top)), q.tileHeight) ==>
              rect.MinY() == top - q.tileHeight && rect.MaxY() == top
  {
    WholeRow(q, top);
    RowTops(q.cells, top);
    RunsAreMaximal(RowOf(q.cells, top));
  }

  lemma {:induction false} RowTops(cells: seq<Cell>, top: real)
    ensures forall i :: 0 <= i < |RowOf(cells, top)| ==> RowOf(cells, top)[i].top == top
  {
    if cells != [] { RowTops(cells[..|cells| - 1], top); }
  }

  ghost predicate RowCovers(q: SurfaceQuery, top: real, x: real, y: real) {
    SpanCovers(RowOf(q.cells, top), x) && top - q.tileHeight <= y < top
  }

  lemma RowRectsCover(q: SurfaceQuery, top: real, x: real, y: real)
    requires GridCells(q)
    ensures Covers(RunRects(Runs(RowOf(q.cells, top)), q.tileHeight), x, y) <==> RowCovers(q, top, x, y)
  {
    hide Runs, RowOf, GridCells;
    var row := RowOf(q.cells, top);
    WholeRow(q, top);
    RowTops(q.cells, top);
    RunsAreMaximal(row);
    RunsCoverTheRow(row, x);
    var runs := Runs(row);
    var rects := RunRects(runs, q.tileHeight);
    if Covers(rects, x, y) {
      var i :| 0 <= i < |rects| && rects[i].Contains(x, y);
      assert runs[i].x0 <= x < runs[i].x1;
    }
    if RowCovers(q, top, x, y) {
      var i :| 0 <= i < |runs| && runs[i].x0 <= x < runs[i].x1;
      assert rects[i].Contains(x, y);
    }
  }

  lemma {:induction false} RowsCover(q: SurfaceQuery, tops: seq<real>, x: real, y: real)
    requires GridCells(q)
    ensures Covers(RectsOfRows(q, tops), x, y) <==> exists t :: t in tops && RowCovers(q, t, x, y)
  {
    if tops != [] {
      var n := |tops| - 1;
      RowsCover(q, tops[..n], x, y);
      RowRectsCover(q, tops[n], x, y);
      CoversConcat(RectsOfRows(q, tops[..n]), RunRects(Runs(RowOf(q.cells, tops[n])), q.tileHeight), x, y);
      assert tops == tops[..n] + [tops[n]];
    }
  }

  lemma MergedShape(q: SurfaceQuery)
    requires GridCells(q)
    ensures RowMajor(MergedRects(q)) && AllPositive(MergedRects(q)) && PairwiseApart(MergedRects(q))
    ensures forall r :: r in MergedRects(q) ==> r.height == q.tileHeight
  {
    hide Tops, RectsOfRows;
    TopsDescend(q, q.cells);
    RowsAreOk(q, Tops(q.cells));
  }

  lemma MergedCover(q: SurfaceQuery, x: real, y: real)
    requires GridCells(q)
    ensures Covers(MergedRects(q), x, y) <==> exists c :: c in q.cells && CellCovers(q, c, x, y)
  {
    hide GridCells, RowSorted, Descending, Tops, RectsOfRows, RowOf, Covers;
    TopsDescend(q, q.cells);
    RowsCover(q, Tops(q.cells), x, y);
    if Covers(MergedRects(q), x, y) {
      var t :| t in Tops(q.cells) && RowCovers(q, t, x, y);
      WholeRow(q, t);
      var row := RowOf(q.cells, t);
      var i :| 0 <= i < |row| && row[i].x0 <= x < row[i].x1;
      assert row[i] in row;
      assert CellCovers(q, row[i], x, y);
    }
    if c :| c in q.cells && CellCovers(q, c, x, y) {
      WholeRow(q, c.top);
      var row := RowOf(q.cells, c.top);
      assert c in row;
      var i :| 0 <= i < |row| && row[i] == c;
      assert SpanCovers(row, x);
      assert c.top in Tops(q.cells) && RowCovers(q, c.top, x, y);
    }
  }

  /** The rectangles cover exactly the union of the solid cells, are one tile tall, pairwise apart,
      maximal, and emitted top to bottom, left to right. */
  lemma MergedRectsAreExact(q: SurfaceQuery, x: real, y: real)
    requires GridCells(q)
    ensures RowMajor(MergedRects(q)) && AllPositive(MergedRects(q)) && PairwiseApart(MergedRects(q))
    ensures forall r :: r in MergedRects(q) ==> r.height == q.tileHeight
    ensures Covers(MergedRects(q), x, y) <==> exists c :: c in q.cells && CellCovers(q, c, x, y)
  {
    hide GridCells, MergedRects, RowMajor, AllPositive, PairwiseApart, Covers;
    MergedShape(q);
    MergedCover(q, x, y);
  }

  // The algorithm

  function InsertTop(t: real, tops: seq<real>): seq<real> {
    if tops == [] then [t]
    else if t < tops[|tops| - 1] then tops + [t]
    else InsertTop(t, tops[..|tops| - 1]) + [tops[|tops| - 1]]
  }

  function SortTopsDescending(tops: seq<real>): seq<real> {
    if tops == [] then [] else InsertTop(tops[|tops| - 1], SortTopsDescending(tops[..|tops| - 1]))
  }

  lemma {:induction false} SortedTopsStay(tops: seq<real>, step: real)
    requires Descending(tops, step) && step > 0.0
    ensures SortTopsDescending(tops) == tops
  {
    if tops != [] {
      var n := |tops| - 1;
      SortedTopsStay(tops[..n], step);
      assert tops == tops[..n] + [tops[n]];
    }
  }

  function InsertCell(c: Cell, row: seq<Cell>): seq<Cell> {
    if row == [] then [c]
    else if row[|row| - 1].x0 <= c.x0 then row + [c]
    else InsertCell(c, row[..|row| - 1]) + [row[|row| - 1]]
  }

  function SortByX0(row: seq<Cell>): seq<Cell> {
    if row == [] then [] else InsertCell(row[|row| - 1], SortByX0(row[..|row| - 1]))
  }

  lemma {:induction false} SortedRowStays(row: seq<Cell>)
    requires RowSorted(row)
    ensures SortByX0(row) == row
  {
    hide RowSorted, InsertCell;
    if row != [] {
      var n := |row| - 1;
      SortedParts(row);
      SortedRowStays(row[..n]);
      InsertAfter(row);
    }
  }

  lemma InsertAfter(row: seq<Cell>)
    requires RowSorted(row) && row != []
    ensures InsertCell(row[|row| - 1], row[..|row| - 1]) == row
  {
    var n := |row| - 1;
    assert row == row[..n] + [row[n]];
    assert n > 0 ==> row[n - 1].x0 < row[n - 1].x1 <= row[n].x0;
  }

  method DistinctTops(cells: seq<Cell>) returns (tops: seq<real>)
    ensures tops == Tops(cells)
  {
    tops := [];
    for i := 0 to |cells|
      invariant tops == Tops(cells[..i])
    {
      assert cells[..i + 1][..i] == cells[..i];
      if cells[i].top !in tops { tops := tops + [cells[i].top]; }
    }
    assert cells[..|cells|] == cells;
  }

  method RowCells(cells: seq<Cell>, top: real) returns (row: seq<Cell>)
    ensures row == RowOf(cells, top)
  {
    row := [];
    for i := 0 to |cells|
      invariant row == RowOf(cells[..i], top)
    {
      assert cells[..i + 1][..i] == cells[..i];
      if cells[i].top == top { row := row + [cells[i]]; }
    }
    assert cells[..|cells|] == cells;
  }

  lemma OneRun(c: Cell)
    ensures Runs([c]) == [] + [c]
  {
    assert [c][..0] == [];
  }

  lemma RunsStep(row: seq<Cell>, closed: seq<Cell>, run: Cell, c: Cell)
    requires Runs(row) == closed + [run]
    ensures Runs(row + [c]) == if run.x1 == c.x0 then closed + [run.(x1 := c.x1)] else closed + [run] + [c]
  {
    assert (row + [c])[..|row|] == row;
    assert (closed + [run])[..|closed|] == closed;
  }

  /** Merges one sorted row: a run grows while the next cell touches it. */
  method MergeRow(row: seq<Cell>, tileHeight: real) returns (rects: seq<Rect>)
    requires row != []
    ensures rects == RunRects(Runs(row), tileHeight)
  {
    hide RunRect, Runs;
    rects := [];
    var run := row[0];
    ghost var closed: seq<Cell> := [];
    OneRun(row[0]);
    assert row[..1] == [row[0]];
    for i := 1 to |row|
      invariant Runs(row[..i]) == closed + [run]
      invariant rects == RunRects(closed, tileHeight)
    {
      var cell := row[i];
      assert row[..i + 1] == row[..i] + [cell];
      RunsStep(row[..i], closed, run, cell);
      if cell.x0 == run.x1 {
        run := run.(x1 := cell.x1);
      } else {
        rects := rects + [RunRect(run, tileHeight)];
        closed := closed + [run];
        run := cell;
      }
    }
    assert row[..|row|] == row;
    rects := rects + [RunRect(run, tileHeight)];
  }

  method ComputeCollisionRects(q: SurfaceQuery) returns (rects: seq<Rect>)
    requires GridCells(q)
    ensures rects == MergedRects(q)
  {
    hide Runs, RunRects, Descending, RowOf, Tops, RectsOfRows, GridCells, RowSorted, SortByX0, SortTopsDescending;
    if q.cells == [] {
      NoRows(q);
      return [];
    }
    var distinct := DistinctTops(q.cells);
    DistinctTopsStay(q);
    var tops := SortTopsDescending(distinct);
    rects := [];
    RowsStart(q);
    for i := 0 to |tops|
      invariant rects == RectsOfRows(q, tops[..i])
    {
      var cells := RowCells(q.cells, tops[i]);
      RowIsThere(q, tops[i]);
      SortedRowStays(cells);
      var row := SortByX0(cells);
      var merged := MergeRow(row, q.tileHeight);
      RowsStep(q, tops[..i], tops[i]);
      assert tops[..i + 1] == tops[..i] + [tops[i]];
      rects := rects + merged;
    }
    assert tops[..|tops|] == tops;
  }

  lemma NoRows(q: SurfaceQuery)
    requires q.cells == []
    ensures MergedRects(q) == []
  {}

  lemma RowsStart(q: SurfaceQuery)
    ensures RectsOfRows(q, []) == []
  {}

  lemma RowsStep(q: SurfaceQuery, tops: seq<real>, top: real)
    ensures RectsOfRows(q, tops + [top]) == RectsOfRows(q, tops) + RunRects(Runs(RowOf(q.cells, top)), q.tileHeight)
  {
    assert (tops + [top])[..|tops|] == tops;
  }

  lemma DistinctTopsStay(q: SurfaceQuery)
    requires GridCells(q)
    ensures SortTopsDescending(Tops(q.cells)) == Tops(q.cells)
  {
    TopsDescend(q, q.cells);
    SortedTopsStay(Tops(q.cells), q.tileHeight);
  }

  lemma RowIsThere(q: SurfaceQuery, top: real)
    requires GridCells(q) && top in Tops(q.cells)
    ensures RowSorted(RowOf(q.cells, top)) && RowOf(q.cells, top) != []
  {
    WholeRow(q, top);
    TopsDescend(q, q.cells);
  }
}
