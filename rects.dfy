/**
 * The decoration-rectangle accumulator of the renderer (`Rects`).
 *
 * It is fed the renderable cells of one frame one at a time and keeps, for
 * each tracked decoration flag (underline, then strikeout), either no open
 * run or a run from a starting cell to an end point. A cell that continues
 * the run extends it; any other cell flushes the run as one rectangle and
 * may open a new one.
 */
module Rects {
  import opened Wrappers
  import opened Geometry

  newtype byte = x: int | 0 <= x < 256

  /** An RGB colour. */
  datatype Rgb = Rgb(r: byte, g: byte, b: byte)

  /**
   * The cell flags that carry a decoration line. Cells have other flags
   * (bold, italic, ...); none of them affects decoration, so they are not
   * represented.
   */
  datatype Flag = Underline | Strikeout

  /** A grid position. */
  datatype Point = Point(line: nat, col: nat)

  /** The parts of a renderable cell that decoration reads. */
  datatype RenderableCell = RenderableCell(line: nat, column: nat, fg: Rgb, bg: Rgb, flags: set<Flag>)

  /** `cell.into()`: the cell's grid position. */
  function PointOf(cell: RenderableCell): Point {
    Point(cell.line, cell.column)
  }

  /** An axis-aligned rectangle in pixels (`Rect::new`). */
  datatype Rect = Rect(x: real, y: real, width: real, height: real)

  /** The font metrics decoration uses. */
  datatype Metrics = Metrics(
    descent: real,
    underlinePosition: real,
    underlineThickness: real,
    strikeoutPosition: real,
    strikeoutThickness: real)

  /** An open run: the cell that started it and the position it has reached. */
  datatype Run = Run(start: RenderableCell, end: Point)

  /** One tracked flag and its open run, if any. */
  datatype Line = Line(flag: Flag, range: Option<Run>)

  type Offset = (real, real)

  // ---------------------------------------------------------------------
  // Rectangle geometry (`create_rect`)
  // ---------------------------------------------------------------------

  /** Position and raw thickness the font gives the line of `flag`. */
  function FlagMetrics(flag: Flag, metrics: Metrics): (real, real) {
    match flag
    case Underline => (metrics.underlinePosition, metrics.underlineThickness)
    case Strikeout => (metrics.strikeoutPosition, metrics.strikeoutThickness)
  }

  /** The line's thickness, at least one pixel so that it is always visible. */
  function LineHeight(flag: Flag, metrics: Metrics): real {
    Max(FlagMetrics(flag, metrics).1, 1.0)
  }

  /** The bottom edge of grid line `line`, before padding. */
  function CellBottom(line: nat, size: SizeInfo): real {
    (line as real + 1.0) * size.cellHeight
  }

  /**
   * Top of the line before rounding: centred on the font's position below
   * the baseline, but never so low that it passes the cell's bottom edge.
   */
  function LineTop(line: nat, flag: Flag, metrics: Metrics, size: SizeInfo): (y: real)
    ensures y <= CellBottom(line, size) - LineHeight(flag, metrics)
  {
    var height := LineHeight(flag, metrics);
    var baseline := CellBottom(line, size) + metrics.descent;
    var y := baseline - FlagMetrics(flag, metrics).0 - height / 2.0;
    var maxY := CellBottom(line, size) - height;
    if y > maxY then maxY else y
  }

  /**
   * The rectangle that starts at the left edge of `start` and ends at the
   * right edge of `end`, coloured with the start cell's foreground.
   */
  function CreateRect(start: RenderableCell, end: Point, flag: Flag, metrics: Metrics, size: SizeInfo, offset: Offset)
    : (r: (Rect, Rgb))
    ensures r.1 == start.fg
    ensures r.0.x == start.column as real * size.cellWidth + size.paddingX + offset.0
    ensures r.0.width == (end.col + 1 - start.column) as real * size.cellWidth
    ensures r.0.height >= 1.0
    ensures r.0.y <= Round(CellBottom(start.line, size) - LineHeight(flag, metrics)) as real + size.paddingY + offset.1
  {
    var startX := start.column as real * size.cellWidth;
    var endX := (end.col + 1) as real * size.cellWidth;
    var height := LineHeight(flag, metrics);
    var y := LineTop(start.line, flag, metrics, size);
    RoundMonotone(y, CellBottom(start.line, size) - height);
    (Rect(startX + size.paddingX + offset.0, Round(y) as real + size.paddingY + offset.1, endX - startX, Round(height) as real),
     start.fg)
  }

  // ---------------------------------------------------------------------
  // One tracked line fed one cell (`update_lines`, loop body)
  // ---------------------------------------------------------------------

  /** The cell extends `run`: same line, flag still set, same colour, next column. */
  predicate Continues(run: Run, flag: Flag, cell: RenderableCell) {
    cell.line == run.start.line && flag in cell.flags && cell.fg == run.start.fg && cell.column == run.end.col + 1
  }

  /**
   * The end-of-terminal test as the source writes it: the cell's column and
   * line equal the column and line COUNTS of the grid.
   */
  predicate AtTerminalEnd(sizeInfo: SizeInfo, cell: RenderableCell) {
    Cols(sizeInfo) == cell.column && Lines(sizeInfo) == cell.line
  }

  /** The new state of one tracked line and the rectangles it emits for `cell`. */
  function LineStep(line: Line, sizeInfo: SizeInfo, cell: RenderableCell, metrics: Metrics, size: SizeInfo, offset: Offset)
    : (r: (Line, seq<(Rect, Rgb)>))
    ensures r.0.flag == line.flag && |r.1| <= 1
  {
    match line.range
    case Some(run) =>
      if Continues(run, line.flag, cell) then
        if AtTerminalEnd(sizeInfo, cell) then
          (line, [CreateRect(run.start, PointOf(cell), line.flag, metrics, size, offset)])
        else
          (Line(line.flag, Some(Run(run.start, PointOf(cell)))), [])
      else
        var flushed := [CreateRect(run.start, run.end, line.flag, metrics, size, offset)];
        if line.flag in cell.flags then
          (Line(line.flag, Some(Run(cell, PointOf(cell)))), flushed)
        else
          (Line(line.flag, None), flushed)
    case None =>
      if line.flag in cell.flags then (Line(line.flag, Some(Run(cell, PointOf(cell)))), []) else (line, [])
  }

  /**
   * The three rules of `update_lines` for one tracked line: how a continuing
   * cell, any other cell after an open run, and a cell without an open run
   * change the line and what they emit.
   */
  lemma LineStepRules(line: Line, sizeInfo: SizeInfo, cell: RenderableCell, metrics: Metrics, size: SizeInfo, offset: Offset)
    // a continuing cell extends the run silently, except at the end of the terminal
    ensures var r := LineStep(line, sizeInfo, cell, metrics, size, offset);
      line.range.Some? && Continues(line.range.value, line.flag, cell) ==>
        if AtTerminalEnd(sizeInfo, cell) then
          r.0 == line && r.1 == [CreateRect(line.range.value.start, PointOf(cell), line.flag, metrics, size, offset)]
        else
          r.0.range == Some(Run(line.range.value.start, PointOf(cell))) && r.1 == []
    // any other cell flushes the whole run and restarts it iff the cell has the flag
    ensures var r := LineStep(line, sizeInfo, cell, metrics, size, offset);
      line.range.Some? && !Continues(line.range.value, line.flag, cell) ==>
        && r.1 == [CreateRect(line.range.value.start, line.range.value.end, line.flag, metrics, size, offset)]
        && r.0.range == (if line.flag in cell.flags then Some(Run(cell, PointOf(cell))) else None)
    // without an open run a flagged cell opens one and emits nothing; an unflagged one changes nothing
    ensures var r := LineStep(line, sizeInfo, cell, metrics, size, offset);
      line.range.None? ==>
        && r.1 == []
        && r.0 == (if line.flag in cell.flags then Line(line.flag, Some(Run(cell, PointOf(cell)))) else line)
  {
  }

  /** All tracked lines fed one cell, in order: their new states and the rectangles emitted. */
  function StepLines(lines: seq<Line>, sizeInfo: SizeInfo, cell: RenderableCell, metrics: Metrics, size: SizeInfo, offset: Offset)
    : (r: (seq<Line>, seq<(Rect, Rgb)>))
    ensures |r.0| == |lines| && |r.1| <= |lines|
    ensures forall i :: 0 <= i < |lines| ==> r.0[i] == LineStep(lines[i], sizeInfo, cell, metrics, size, offset).0
    decreases |lines|
  {
    if lines == [] then ([], [])
    else
      var n := |lines| - 1;
      var done := StepLines(lines[..n], sizeInfo, cell, metrics, size, offset);
      var last := LineStep(lines[n], sizeInfo, cell, metrics, size, offset);
      (done.0 + [last.0], done.1 + last.1)
  }

  lemma StepLinesSnoc(lines: seq<Line>, i: nat, sizeInfo: SizeInfo, cell: RenderableCell, metrics: Metrics,
                      size: SizeInfo, offset: Offset)
    requires i < |lines|
    ensures var step := LineStep(lines[i], sizeInfo, cell, metrics, size, offset);
            var done := StepLines(lines[..i], sizeInfo, cell, metrics, size, offset);
            StepLines(lines[..i + 1], sizeInfo, cell, metrics, size, offset) == (done.0 + [step.0], done.1 + step.1)
  {
    assert lines[..i + 1][..i] == lines[..i];
  }

  // ---------------------------------------------------------------------
  // A frame's cells fed in order
  // ---------------------------------------------------------------------

  /** The tracked lines and the rectangles emitted after feeding `cells`, in order, to `lines`. */
  function Feed(lines: seq<Line>, cells: seq<RenderableCell>, sizeInfo: SizeInfo, metrics: Metrics, size: SizeInfo,
                offset: Offset): (r: (seq<Line>, seq<(Rect, Rgb)>))
    decreases |cells|
  {
    if cells == [] then (lines, [])
    else
      var n := |cells| - 1;
      var done := Feed(lines, cells[..n], sizeInfo, metrics, size, offset);
      var step := StepLines(done.0, sizeInfo, cells[n], metrics, size, offset);
      (step.0, done.1 + step.1)
  }

  /** An open run is well formed: its start has the flag and it ends on its own line, at or after its start. */
  predicate ValidLine(line: Line) {
    line.range.Some? ==>
      var run := line.range.value;
      line.flag in run.start.flags && run.end.line == run.start.line && run.start.column <= run.end.col
  }

  predicate ValidLines(lines: seq<Line>) {
    forall i :: 0 <= i < |lines| ==> ValidLine(lines[i])
  }

  /** Every emitted rectangle covers at least one whole cell and is at least one pixel high. */
  predicate WellFormed(rects: seq<(Rect, Rgb)>, size: SizeInfo) {
    forall i :: 0 <= i < |rects| ==> rects[i].0.width >= size.cellWidth && rects[i].0.height >= 1.0
  }

  /** One step keeps a well-formed run well formed and emits only well-formed rectangles. */
  lemma LineStepValid(line: Line, sizeInfo: SizeInfo, cell: RenderableCell, metrics: Metrics, size: SizeInfo,
                      offset: Offset)
    requires ValidLine(line)
    ensures var r := LineStep(line, sizeInfo, cell, metrics, size, offset);
            ValidLine(r.0) && WellFormed(r.1, size)
  {
    LineStepRules(line, sizeInfo, cell, metrics, size, offset);
    if line.range.Some? {
      var run := line.range.value;
      var end := if Continues(run, line.flag, cell) then PointOf(cell) else run.end;
      assert run.start.column <= end.col;
      CreateRectWellFormed(run.start, end, line.flag, metrics, size, offset);
    }
  }

  /** A rectangle for a run that ends at or after its start is well formed. */
  lemma CreateRectWellFormed(start: RenderableCell, end: Point, flag: Flag, metrics: Metrics, size: SizeInfo, offset: Offset)
    requires start.column <= end.col
    ensures WellFormed([CreateRect(start, end, flag, metrics, size, offset)], size)
  {
    WidthAtLeastOneCell(start.column, end.col, size);
  }

  lemma WidthAtLeastOneCell(startCol: nat, endCol: nat, size: SizeInfo)
    requires startCol <= endCol
    ensures (endCol + 1 - startCol) as real * size.cellWidth >= size.cellWidth
  {
    var k := (endCol + 1 - startCol) as real;
    assert k >= 1.0;
    assert k * size.cellWidth == size.cellWidth + (k - 1.0) * size.cellWidth;
  }

  lemma {:induction false} StepLinesValid(lines: seq<Line>, sizeInfo: SizeInfo, cell: RenderableCell, metrics: Metrics,
                                          size: SizeInfo, offset: Offset)
    requires ValidLines(lines)
    ensures var r := StepLines(lines, sizeInfo, cell, metrics, size, offset);
            ValidLines(r.0) && WellFormed(r.1, size)
    decreases |lines|
  {
    if lines != [] {
      var n := |lines| - 1;
      assert ValidLines(lines[..n]) by {
        forall i | 0 <= i < n ensures ValidLine(lines[..n][i]) { assert lines[..n][i] == lines[i]; }
      }
      StepLinesValid(lines[..n], sizeInfo, cell, metrics, size, offset);
      LineStepValid(lines[n], sizeInfo, cell, metrics, size, offset);
      var done := StepLines(lines[..n], sizeInfo, cell, metrics, size, offset);
      var last := LineStep(lines[n], sizeInfo, cell, metrics, size, offset);
      assert WellFormed(done.1 + last.1, size) by {
        forall i | 0 <= i < |done.1 + last.1|
          ensures (done.1 + last.1)[i].0.width >= size.cellWidth && (done.1 + last.1)[i].0.height >= 1.0
        {
          if i < |done.1| { assert (done.1 + last.1)[i] == done.1[i]; }
          else { assert (done.1 + last.1)[i] == last.1[i - |done.1|]; }
        }
      }
    }
  }

  lemma WellFormedConcat(a: seq<(Rect, Rgb)>, b: seq<(Rect, Rgb)>, size: SizeInfo)
    requires WellFormed(a, size) && WellFormed(b, size)
    ensures WellFormed(a + b, size)
  {
    forall i | 0 <= i < |a + b| ensures (a + b)[i].0.width >= size.cellWidth && (a + b)[i].0.height >= 1.0 {
      if i < |a| { assert (a + b)[i] == a[i]; } else { assert (a + b)[i] == b[i - |a|]; }
    }
  }

  /**
   * Over a whole frame the open runs stay well formed and every rectangle
   * is at least a cell wide and a pixel high.
   */
  lemma {:induction false} FeedValid(lines: seq<Line>, cells: seq<RenderableCell>, sizeInfo: SizeInfo, metrics: Metrics,
                                     size: SizeInfo, offset: Offset)
    requires ValidLines(lines)
    ensures var r := Feed(lines, cells, sizeInfo, metrics, size, offset);
            ValidLines(r.0) && WellFormed(r.1, size)
    decreases |cells|
  {
    if cells != [] {
      var n := |cells| - 1;
      FeedValid(lines, cells[..n], sizeInfo, metrics, size, offset);
      var done := Feed(lines, cells[..n], sizeInfo, metrics, size, offset);
      StepLinesValid(done.0, sizeInfo, cells[n], metrics, size, offset);
      var step := StepLines(done.0, sizeInfo, cells[n], metrics, size, offset);
      WellFormedConcat(done.1, step.1, size);
    }
  }

  /**
   * Over a whole frame each cell adds at most one rectangle per tracked
   * line, and the tracked flags stay what they were, in the same order.
   */
  lemma {:induction false} FeedShape(lines: seq<Line>, cells: seq<RenderableCell>, sizeInfo: SizeInfo, metrics: Metrics,
                                     size: SizeInfo, offset: Offset)
    ensures var r := Feed(lines, cells, sizeInfo, metrics, size, offset);
            && |r.1| <= |cells| * |lines|
            && |r.0| == |lines| && forall i :: 0 <= i < |lines| ==> r.0[i].flag == lines[i].flag
    decreases |cells|
  {
    if cells != [] {
      var n := |cells| - 1;
      FeedShape(lines, cells[..n], sizeInfo, metrics, size, offset);
      var done := Feed(lines, cells[..n], sizeInfo, metrics, size, offset);
      var step := StepLines(done.0, sizeInfo, cells[n], metrics, size, offset);
      forall i | 0 <= i < |lines| ensures step.0[i].flag == lines[i].flag {
        assert step.0[i] == LineStep(done.0[i], sizeInfo, cells[n], metrics, size, offset).0;
      }
      assert |cells| * |lines| == n * |lines| + |lines|;
    }
  }

  lemma StepLinesPair(l0: Line, l1: Line, sizeInfo: SizeInfo, cell: RenderableCell, metrics: Metrics, size: SizeInfo,
                      offset: Offset)
    ensures var s0 := LineStep(l0, sizeInfo, cell, metrics, size, offset);
            var s1 := LineStep(l1, sizeInfo, cell, metrics, size, offset);
            StepLines([l0, l1], sizeInfo, cell, metrics, size, offset) == ([s0.0, s1.0], s0.1 + s1.1)
  {
    StepLinesOne(l0, sizeInfo, cell, metrics, size, offset);
    assert [l0, l1][..1] == [l0];
    var s0 := LineStep(l0, sizeInfo, cell, metrics, size, offset);
    assert [s0.0] + [LineStep(l1, sizeInfo, cell, metrics, size, offset).0] == [s0.0, LineStep(l1, sizeInfo, cell, metrics, size, offset).0];
  }

  lemma StepLinesOne(l0: Line, sizeInfo: SizeInfo, cell: RenderableCell, metrics: Metrics, size: SizeInfo, offset: Offset)
    ensures var s0 := LineStep(l0, sizeInfo, cell, metrics, size, offset);
            StepLines([l0], sizeInfo, cell, metrics, size, offset) == ([s0.0], s0.1)
  {
    assert [l0][..0] == [];
    var s0 := LineStep(l0, sizeInfo, cell, metrics, size, offset);
    assert [] + [s0.0] == [s0.0];
    assert [] + s0.1 == s0.1;
  }

  /**
   * The source's end-of-terminal test compares indices with counts, so it
   * never holds for a cell inside the grid.
   */
  lemma EndTestNeverHoldsInsideGrid(sizeInfo: SizeInfo, cell: RenderableCell)
    requires cell.column < Cols(sizeInfo) || cell.line < Lines(sizeInfo)
    ensures !AtTerminalEnd(sizeInfo, cell)
  {
  }

  /**
   * Consequence: on a grid of two columns and one line, an underline over
   * both cells is still open after the last cell and no rectangle has been
   * emitted for it.
   */
  lemma LastRunIsNotFlushed()
    ensures var size := SizeInfo(20.0, 10.0, 10.0, 10.0, 0.0, 0.0, 1.0);
            var red := Rgb(255, 0, 0);
            var a := RenderableCell(0, 0, red, red, {Underline});
            var b := RenderableCell(0, 1, red, red, {Underline});
            var metrics := Metrics(0.0, 0.0, 1.0, 0.0, 1.0);
            var r := Feed(InitialLines, [a, b], size, metrics, size, (0.0, 0.0));
            && Cols(size) == 2 && Lines(size) == 1 && r.1 == []
            && r.0 == [Line(Underline, Some(Run(a, PointOf(b)))), Line(Strikeout, None)]
  {
    var size := SizeInfo(20.0, 10.0, 10.0, 10.0, 0.0, 0.0, 1.0);
    var red := Rgb(255, 0, 0);
    var a := RenderableCell(0, 0, red, red, {Underline});
    var b := RenderableCell(0, 1, red, red, {Underline});
    var metrics := Metrics(0.0, 0.0, 1.0, 0.0, 1.0);
    var offset := (0.0, 0.0);
    assert Cols(size) == 2 && Lines(size) == 1;
    assert [a, b][..1] == [a] && [a][..0] == [];
    StepLinesPair(Line(Underline, None), Line(Strikeout, None), size, a, metrics, size, offset);
    var one := Feed(InitialLines, [a], size, metrics, size, offset);
    assert Feed(InitialLines, [], size, metrics, size, offset) == (InitialLines, []);
    assert one == StepLines(InitialLines, size, a, metrics, size, offset);
    assert one.0 == [Line(Underline, Some(Run(a, PointOf(a)))), Line(Strikeout, None)] && one.1 == [];
    StepLinesPair(one.0[0], one.0[1], size, b, metrics, size, offset);
    assert Continues(Run(a, PointOf(a)), Underline, b) && !AtTerminalEnd(size, b);
  }

  // ---------------------------------------------------------------------
  // The runs of a frame: what the rectangles cover
  // ---------------------------------------------------------------------

  /** Feeding `cells`, in order, to one tracked line: its final state and the rectangles it emits. */
  function LineFeed(line: Line, cells: seq<RenderableCell>, sizeInfo: SizeInfo, metrics: Metrics, size: SizeInfo,
                    offset: Offset): (r: (Line, seq<(Rect, Rgb)>))
    ensures r.0.flag == line.flag
    decreases |cells|
  {
    if cells == [] then (line, [])
    else
      var n := |cells| - 1;
      var done := LineFeed(line, cells[..n], sizeInfo, metrics, size, offset);
      var step := LineStep(done.0, sizeInfo, cells[n], metrics, size, offset);
      (step.0, done.1 + step.1)
  }

  /**
   * Cell `k` continues the run of cell `k - 1` for `flag`: both carry the
   * flag, and `k` is the next column of the same line, in the same colour.
   */
  predicate Linked(flag: Flag, cells: seq<RenderableCell>, k: nat)
    requires 0 < k < |cells|
  {
    var p := cells[k - 1];
    var c := cells[k];
    flag in p.flags && flag in c.flags && c.line == p.line && c.fg == p.fg && c.column == p.column + 1
  }

  /** Index of the first cell of the run through cell `k`. */
  function RunStart(flag: Flag, cells: seq<RenderableCell>, k: nat): (a: nat)
    requires k < |cells|
    ensures a <= k
    decreases k
  {
    if 0 < k && Linked(flag, cells, k) then RunStart(flag, cells, k - 1) else k
  }

  /** Cells `a` to `k` form one run that nothing before `a` continues. */
  predicate Chain(flag: Flag, cells: seq<RenderableCell>, a: nat, k: nat)
    requires a <= k < |cells|
  {
    && flag in cells[a].flags
    && (a == 0 || !Linked(flag, cells, a))
    && forall j :: a < j <= k ==> Linked(flag, cells, j)
  }

  /** Cells `a` to `b` form a maximal run: a chain that the cell after `b`, if any, does not continue. */
  predicate MaximalRun(flag: Flag, cells: seq<RenderableCell>, a: nat, b: nat) {
    a <= b < |cells| && Chain(flag, cells, a, b) && (b + 1 == |cells| || !Linked(flag, cells, b + 1))
  }

  /**
   * The maximal runs that a later cell has closed, as (first, last) index
   * pairs in order: run `(a, b)` is closed once cell `b + 1` is seen.
   */
  function ClosedRuns(flag: Flag, cells: seq<RenderableCell>): (runs: seq<(nat, nat)>)
    ensures forall i :: 0 <= i < |runs| ==> runs[i].0 <= runs[i].1 && runs[i].1 + 1 < |cells|
    decreases |cells|
  {
    if |cells| < 2 then []
    else
      var n := |cells| - 1;
      var front := ClosedRuns(flag, cells[..n]);
      if flag in cells[n - 1].flags && !Linked(flag, cells, n) then front + [(RunStart(flag, cells, n - 1), n - 1)]
      else front
  }

  /** The run still open after `cells`: the one through the last cell, if that cell carries the flag. */
  function OpenRun(flag: Flag, cells: seq<RenderableCell>): Option<Run> {
    if cells != [] && flag in cells[|cells| - 1].flags then
      Some(Run(cells[RunStart(flag, cells, |cells| - 1)], PointOf(cells[|cells| - 1])))
    else None
  }

  /** The rectangle of each run, in order. */
  function RunRects(runs: seq<(nat, nat)>, cells: seq<RenderableCell>, flag: Flag, metrics: Metrics, size: SizeInfo,
                    offset: Offset): seq<(Rect, Rgb)>
    requires forall i :: 0 <= i < |runs| ==> runs[i].0 <= runs[i].1 < |cells|
    decreases |runs|
  {
    if runs == [] then []
    else
      var n := |runs| - 1;
      RunRects(runs[..n], cells, flag, metrics, size, offset)
        + [CreateRect(cells[runs[n].0], PointOf(cells[runs[n].1]), flag, metrics, size, offset)]
  }

  /** `x` is the rectangle of a maximal run of `flag` that a later cell closed. */
  ghost predicate ClosedRunRect(flag: Flag, cells: seq<RenderableCell>, x: (Rect, Rgb), metrics: Metrics, size: SizeInfo,
                          offset: Offset)
  {
    exists a: nat, b: nat :: MaximalRun(flag, cells, a, b) && b + 1 < |cells|
      && x == CreateRect(cells[a], PointOf(cells[b]), flag, metrics, size, offset)
  }

  /** The cells arrive in scan order: line by line, and left to right within a line. */
  predicate ScanOrder(cells: seq<RenderableCell>) {
    forall i, j :: 0 <= i < j < |cells| ==>
      cells[i].line < cells[j].line || (cells[i].line == cells[j].line && cells[i].column < cells[j].column)
  }

  /** A cell inside the grid's columns and lines. */
  predicate InGrid(sizeInfo: SizeInfo, cell: RenderableCell) {
    cell.column < Cols(sizeInfo) && cell.line < Lines(sizeInfo)
  }

  lemma LinkedPrefix(flag: Flag, cells: seq<RenderableCell>, m: nat, j: nat)
    requires 0 < j < m <= |cells|
    ensures Linked(flag, cells[..m], j) == Linked(flag, cells, j)
  {
    assert cells[..m][j] == cells[j] && cells[..m][j - 1] == cells[j - 1];
  }

  /** The run through a flagged cell `k` is a chain, and all of it lies on `k`'s line in `k`'s colour. */
  lemma {:induction false} RunStartChain(flag: Flag, cells: seq<RenderableCell>, k: nat)
    requires k < |cells| && flag in cells[k].flags
    ensures var a := RunStart(flag, cells, k);
            Chain(flag, cells, a, k) && cells[a].line == cells[k].line && cells[a].fg == cells[k].fg
    decreases k
  {
    if 0 < k && Linked(flag, cells, k) {
      RunStartChain(flag, cells, k - 1);
    }
  }

  /** A chain from `a` through `k` is the run through `k`: it starts at `a`. */
  lemma {:induction false} ChainRunStart(flag: Flag, cells: seq<RenderableCell>, a: nat, k: nat)
    requires a <= k < |cells| && Chain(flag, cells, a, k)
    ensures RunStart(flag, cells, k) == a
    decreases k
  {
    if a < k {
      assert Linked(flag, cells, k);
      assert Chain(flag, cells, a, k - 1);
      ChainRunStart(flag, cells, a, k - 1);
    }
  }

  lemma {:induction false} RunStartPrefix(flag: Flag, cells: seq<RenderableCell>, m: nat, k: nat)
    requires k < m <= |cells|
    ensures RunStart(flag, cells[..m], k) == RunStart(flag, cells, k)
    decreases k
  {
    if 0 < k {
      LinkedPrefix(flag, cells, m, k);
      RunStartPrefix(flag, cells, m, k - 1);
    }
  }

  /** A maximal run whose successor cell lies within the first `m` cells is one of those cells' maximal runs too. */
  lemma MaximalRunPrefix(flag: Flag, cells: seq<RenderableCell>, m: nat, a: nat, b: nat)
    requires a <= b && b + 1 < m <= |cells|
    ensures MaximalRun(flag, cells[..m], a, b) <==> MaximalRun(flag, cells, a, b)
  {
    forall j | 0 < j <= b + 1 ensures Linked(flag, cells[..m], j) == Linked(flag, cells, j) {
      LinkedPrefix(flag, cells, m, j);
    }
    assert cells[..m][a] == cells[a];
  }

  lemma {:induction false} RunRectsPrefix(runs: seq<(nat, nat)>, cells: seq<RenderableCell>, m: nat, flag: Flag,
                                          metrics: Metrics, size: SizeInfo, offset: Offset)
    requires m <= |cells|
    requires forall i :: 0 <= i < |runs| ==> runs[i].0 <= runs[i].1 < m
    ensures RunRects(runs, cells[..m], flag, metrics, size, offset) == RunRects(runs, cells, flag, metrics, size, offset)
    decreases |runs|
  {
    if runs != [] {
      var n := |runs| - 1;
      RunRectsPrefix(runs[..n], cells, m, flag, metrics, size, offset);
      assert cells[..m][runs[n].0] == cells[runs[n].0] && cells[..m][runs[n].1] == cells[runs[n].1];
    }
  }

  /**
   * One tracked line fed a frame whose cells lie inside the grid: it has
   * emitted the rectangle of every closed maximal run, in order, and holds
   * the run through the last cell open.
   */
  lemma {:induction false} LineFeedTilesRuns(flag: Flag, cells: seq<RenderableCell>, sizeInfo: SizeInfo,
                                             metrics: Metrics, size: SizeInfo, offset: Offset)
    requires forall k :: 0 <= k < |cells| ==> InGrid(sizeInfo, cells[k])
    ensures var r := LineFeed(Line(flag, None), cells, sizeInfo, metrics, size, offset);
            && r.0 == Line(flag, OpenRun(flag, cells))
            && r.1 == RunRects(ClosedRuns(flag, cells), cells, flag, metrics, size, offset)
    decreases |cells|
  {
    if cells != [] {
      var n := |cells| - 1;
      var prefix := cells[..n];
      var c := cells[n];
      LineFeedTilesRuns(flag, prefix, sizeInfo, metrics, size, offset);
      var done := LineFeed(Line(flag, None), prefix, sizeInfo, metrics, size, offset);
      var step := LineStep(done.0, sizeInfo, c, metrics, size, offset);
      assert LineFeed(Line(flag, None), cells, sizeInfo, metrics, size, offset) == (step.0, done.1 + step.1);
      EndTestNeverHoldsInsideGrid(sizeInfo, c);
      RunRectsPrefix(ClosedRuns(flag, prefix), cells, n, flag, metrics, size, offset);
      var rects := RunRects(ClosedRuns(flag, prefix), cells, flag, metrics, size, offset);
      assert done.1 == rects;
      if n == 0 || flag !in cells[n - 1].flags {
        assert n > 0 ==> !Linked(flag, cells, n);
        assert RunStart(flag, cells, n) == n;
        assert ClosedRuns(flag, cells) == ClosedRuns(flag, prefix);
      } else {
        var a := RunStart(flag, cells, n - 1);
        RunStartPrefix(flag, cells, n, n - 1);
        RunStartChain(flag, cells, n - 1);
        assert prefix[n - 1] == cells[n - 1] && prefix[a] == cells[a];
        assert done.0.range == Some(Run(cells[a], PointOf(cells[n - 1])));
        assert Continues(done.0.range.value, flag, c) == Linked(flag, cells, n);
        if Linked(flag, cells, n) {
          assert ClosedRuns(flag, cells) == ClosedRuns(flag, prefix);
        } else {
          var runs := ClosedRuns(flag, cells);
          assert runs == ClosedRuns(flag, prefix) + [(a, n - 1)];
          assert runs[..|runs| - 1] == ClosedRuns(flag, prefix);
          assert RunStart(flag, cells, n) == n;
        }
      }
    }
  }

  /** Each of `runs` is a maximal run of `flag`, on one line in one colour. */
  predicate RunsMaximal(flag: Flag, cells: seq<RenderableCell>, runs: seq<(nat, nat)>) {
    forall i :: 0 <= i < |runs| ==> SameLineRun(flag, cells, runs[i])
  }

  predicate SameLineRun(flag: Flag, cells: seq<RenderableCell>, run: (nat, nat)) {
    && MaximalRun(flag, cells, run.0, run.1)
    && cells[run.0].line == cells[run.1].line
    && cells[run.0].fg == cells[run.1].fg
  }

  /** Each of `runs` ends before the next one starts. */
  predicate RunsOrdered(runs: seq<(nat, nat)>) {
    forall i, j :: 0 <= i < j < |runs| ==> runs[i].1 < runs[j].0
  }

  /**
   * Every closed run is maximal and lies on one line in one colour, and
   * the runs come in order without overlapping.
   */
  lemma {:induction false} ClosedRunsMaximal(flag: Flag, cells: seq<RenderableCell>)
    ensures RunsMaximal(flag, cells, ClosedRuns(flag, cells))
    ensures RunsOrdered(ClosedRuns(flag, cells))
    decreases |cells|
  {
    if |cells| >= 2 {
      var n := |cells| - 1;
      var prefix := cells[..n];
      var front := ClosedRuns(flag, prefix);
      ClosedRunsMaximal(flag, prefix);
      forall i | 0 <= i < |front| ensures SameLineRun(flag, cells, front[i]) {
        assert SameLineRun(flag, prefix, front[i]);
        MaximalRunPrefix(flag, cells, n, front[i].0, front[i].1);
        assert prefix[front[i].0] == cells[front[i].0] && prefix[front[i].1] == cells[front[i].1];
      }
      if flag in cells[n - 1].flags && !Linked(flag, cells, n) {
        var a := RunStart(flag, cells, n - 1);
        RunStartChain(flag, cells, n - 1);
        var runs := front + [(a, n - 1)];
        assert ClosedRuns(flag, cells) == runs;
        forall i | 0 <= i < |front| ensures front[i].1 < a {
          var b := front[i].1;
          assert SameLineRun(flag, cells, front[i]);
        }
        assert SameLineRun(flag, cells, runs[|front|]);
        assert forall i :: 0 <= i < |front| ==> runs[i] == front[i];
      }
    }
  }

  /** Every maximal run that a later cell closed is among the closed runs. */
  lemma {:induction false} ClosedRunsComplete(flag: Flag, cells: seq<RenderableCell>, a: nat, b: nat)
    requires MaximalRun(flag, cells, a, b) && b + 1 < |cells|
    ensures (a, b) in ClosedRuns(flag, cells)
    decreases |cells|
  {
    var n := |cells| - 1;
    var prefix := cells[..n];
    if b == n - 1 {
      assert flag in cells[n - 1].flags by {
        if a < b { assert Linked(flag, cells, b); }
      }
      ChainRunStart(flag, cells, a, b);
    } else {
      MaximalRunPrefix(flag, cells, n, a, b);
      ClosedRunsComplete(flag, prefix, a, b);
    }
  }

  /**
   * A run stays open iff the last cell carries the flag; it is then the
   * maximal run through the last cell, and every closed run ends before it
   * starts.
   */
  lemma OpenRunMaximal(flag: Flag, cells: seq<RenderableCell>)
    ensures OpenRun(flag, cells).Some? <==> cells != [] && flag in cells[|cells| - 1].flags
    ensures cells != [] && flag in cells[|cells| - 1].flags ==>
              var last := |cells| - 1;
              var a := RunStart(flag, cells, last);
              var runs := ClosedRuns(flag, cells);
              && MaximalRun(flag, cells, a, last)
              && OpenRun(flag, cells) == Some(Run(cells[a], PointOf(cells[last])))
              && forall i :: 0 <= i < |runs| ==> runs[i].1 < a
  {
    if cells != [] && flag in cells[|cells| - 1].flags {
      var last := |cells| - 1;
      var a := RunStart(flag, cells, last);
      RunStartChain(flag, cells, last);
      ClosedRunsMaximal(flag, cells);
      var runs := ClosedRuns(flag, cells);
      forall i | 0 <= i < |runs| ensures runs[i].1 < a {
        assert SameLineRun(flag, cells, runs[i]);
      }
    }
  }

  /**
   * In scan order, two closed runs of one flag on the same line do not
   * share a column: the earlier one ends left of where the later one starts.
   */
  lemma ClosedRunsDisjoint(flag: Flag, cells: seq<RenderableCell>)
    requires ScanOrder(cells)
    ensures var runs := ClosedRuns(flag, cells);
            forall i, j :: 0 <= i < j < |runs| && cells[runs[i].0].line == cells[runs[j].0].line ==>
              cells[runs[i].1].column < cells[runs[j].0].column
  {
    var runs := ClosedRuns(flag, cells);
    ClosedRunsMaximal(flag, cells);
    forall i, j | 0 <= i < j < |runs| && cells[runs[i].0].line == cells[runs[j].0].line
      ensures cells[runs[i].1].column < cells[runs[j].0].column
    {
      assert SameLineRun(flag, cells, runs[i]);
      assert runs[i].1 < runs[j].0;
    }
  }

  /** A rectangle is among a line's emitted ones iff it is the rectangle of a closed maximal run. */
  lemma RunRectsAreClosedRuns(flag: Flag, cells: seq<RenderableCell>, x: (Rect, Rgb), metrics: Metrics,
                              size: SizeInfo, offset: Offset)
    ensures x in RunRects(ClosedRuns(flag, cells), cells, flag, metrics, size, offset)
            <==> ClosedRunRect(flag, cells, x, metrics, size, offset)
  {
    var runs := ClosedRuns(flag, cells);
    ClosedRunsMaximal(flag, cells);
    if x in RunRects(runs, cells, flag, metrics, size, offset) {
      var i := RunRectsMember(runs, cells, flag, metrics, size, offset, x);
      assert SameLineRun(flag, cells, runs[i]);
    }
    if ClosedRunRect(flag, cells, x, metrics, size, offset) {
      var a: nat, b: nat :| MaximalRun(flag, cells, a, b) && b + 1 < |cells|
        && x == CreateRect(cells[a], PointOf(cells[b]), flag, metrics, size, offset);
      ClosedRunsComplete(flag, cells, a, b);
      var i :| 0 <= i < |runs| && runs[i] == (a, b);
      RunRectsHas(runs, cells, flag, metrics, size, offset, i);
    }
  }

  /** The run whose rectangle `x` is. */
  lemma {:induction false} RunRectsMember(runs: seq<(nat, nat)>, cells: seq<RenderableCell>, flag: Flag,
                                          metrics: Metrics, size: SizeInfo, offset: Offset, x: (Rect, Rgb))
    returns (i: nat)
    requires forall k :: 0 <= k < |runs| ==> runs[k].0 <= runs[k].1 < |cells|
    requires x in RunRects(runs, cells, flag, metrics, size, offset)
    ensures i < |runs| && x == CreateRect(cells[runs[i].0], PointOf(cells[runs[i].1]), flag, metrics, size, offset)
    decreases |runs|
  {
    var n := |runs| - 1;
    if x in RunRects(runs[..n], cells, flag, metrics, size, offset) {
      i := RunRectsMember(runs[..n], cells, flag, metrics, size, offset, x);
      assert runs[..n][i] == runs[i];
    } else {
      i := n;
    }
  }

  /** The rectangle of run `i` is emitted. */
  lemma {:induction false} RunRectsHas(runs: seq<(nat, nat)>, cells: seq<RenderableCell>, flag: Flag,
                                       metrics: Metrics, size: SizeInfo, offset: Offset, i: nat)
    requires forall k :: 0 <= k < |runs| ==> runs[k].0 <= runs[k].1 < |cells|
    requires i < |runs|
    ensures CreateRect(cells[runs[i].0], PointOf(cells[runs[i].1]), flag, metrics, size, offset)
            in RunRects(runs, cells, flag, metrics, size, offset)
    decreases |runs|
  {
    var n := |runs| - 1;
    if i < n {
      RunRectsHas(runs[..n], cells, flag, metrics, size, offset, i);
      assert runs[..n][i] == runs[i];
    }
  }

  /** `x` is among the rectangles that one of `lines` emits on `cell`. */
  ghost predicate EmittedByOne(lines: seq<Line>, sizeInfo: SizeInfo, cell: RenderableCell, metrics: Metrics,
                               size: SizeInfo, offset: Offset, x: (Rect, Rgb))
  {
    exists i :: 0 <= i < |lines| && x in LineStep(lines[i], sizeInfo, cell, metrics, size, offset).1
  }

  /** A rectangle emitted for one cell comes from one of the tracked lines, and each line's come out. */
  lemma {:induction false} StepLinesMembers(lines: seq<Line>, sizeInfo: SizeInfo, cell: RenderableCell, metrics: Metrics,
                                            size: SizeInfo, offset: Offset, x: (Rect, Rgb))
    ensures x in StepLines(lines, sizeInfo, cell, metrics, size, offset).1
            <==> EmittedByOne(lines, sizeInfo, cell, metrics, size, offset, x)
    decreases |lines|
  {
    if lines != [] {
      var n := |lines| - 1;
      var front := lines[..n];
      var done := StepLines(front, sizeInfo, cell, metrics, size, offset);
      var last := LineStep(lines[n], sizeInfo, cell, metrics, size, offset);
      assert StepLines(lines, sizeInfo, cell, metrics, size, offset).1 == done.1 + last.1;
      StepLinesMembers(front, sizeInfo, cell, metrics, size, offset, x);
      if x in done.1 {
        var i :| 0 <= i < n && x in LineStep(front[i], sizeInfo, cell, metrics, size, offset).1;
        assert front[i] == lines[i];
      } else if x in last.1 {
        assert 0 <= n < |lines| && x in LineStep(lines[n], sizeInfo, cell, metrics, size, offset).1;
      }
      if EmittedByOne(lines, sizeInfo, cell, metrics, size, offset, x) {
        var i :| 0 <= i < |lines| && x in LineStep(lines[i], sizeInfo, cell, metrics, size, offset).1;
        if i < n {
          assert front[i] == lines[i];
          assert EmittedByOne(front, sizeInfo, cell, metrics, size, offset, x);
        }
      }
    }
  }

  /** Over a frame, each tracked line ends as if it had been fed the frame alone. */
  lemma {:induction false} FeedLines(lines: seq<Line>, cells: seq<RenderableCell>, sizeInfo: SizeInfo, metrics: Metrics,
                                     size: SizeInfo, offset: Offset)
    ensures var r := Feed(lines, cells, sizeInfo, metrics, size, offset);
            |r.0| == |lines| && forall i :: 0 <= i < |lines| ==> r.0[i] == LineFeed(lines[i], cells, sizeInfo, metrics, size, offset).0
    decreases |cells|
  {
    if cells != [] {
      FeedLines(lines, cells[..|cells| - 1], sizeInfo, metrics, size, offset);
    }
  }

  /** Over a frame, a rectangle is emitted iff one of the tracked lines, fed the frame alone, emits it. */
  lemma {:induction false} FeedMembers(lines: seq<Line>, cells: seq<RenderableCell>, sizeInfo: SizeInfo, metrics: Metrics,
                                       size: SizeInfo, offset: Offset, x: (Rect, Rgb))
    ensures x in Feed(lines, cells, sizeInfo, metrics, size, offset).1
            <==> exists i :: 0 <= i < |lines| && x in LineFeed(lines[i], cells, sizeInfo, metrics, size, offset).1
    decreases |cells|
  {
    if cells != [] {
      var n := |cells| - 1;
      var prefix := cells[..n];
      FeedMembers(lines, prefix, sizeInfo, metrics, size, offset, x);
      FeedLines(lines, prefix, sizeInfo, metrics, size, offset);
      var done := Feed(lines, prefix, sizeInfo, metrics, size, offset);
      StepLinesMembers(done.0, sizeInfo, cells[n], metrics, size, offset, x);
      if x in Feed(lines, cells, sizeInfo, metrics, size, offset).1 {
        if x in done.1 {
          var i :| 0 <= i < |lines| && x in LineFeed(lines[i], prefix, sizeInfo, metrics, size, offset).1;
          assert x in LineFeed(lines[i], cells, sizeInfo, metrics, size, offset).1;
        } else {
          var i :| 0 <= i < |done.0| && x in LineStep(done.0[i], sizeInfo, cells[n], metrics, size, offset).1;
          assert x in LineFeed(lines[i], cells, sizeInfo, metrics, size, offset).1;
        }
      }
      if exists i :: 0 <= i < |lines| && x in LineFeed(lines[i], cells, sizeInfo, metrics, size, offset).1 {
        var i :| 0 <= i < |lines| && x in LineFeed(lines[i], cells, sizeInfo, metrics, size, offset).1;
        if x !in LineFeed(lines[i], prefix, sizeInfo, metrics, size, offset).1 {
          assert x in LineStep(done.0[i], sizeInfo, cells[n], metrics, size, offset).1;
        }
      }
    }
  }

  /**
   * What a frame leaves behind, for cells inside the grid: the rectangles
   * emitted are exactly those of the maximal underline and strikeout runs
   * a later cell closed, and each tracked line holds the maximal run
   * through the last cell open, if that cell carries its flag.
   */
  lemma FrameTilesRuns(cells: seq<RenderableCell>, sizeInfo: SizeInfo, metrics: Metrics, size: SizeInfo, offset: Offset)
    requires forall k :: 0 <= k < |cells| ==> InGrid(sizeInfo, cells[k])
    ensures var r := Feed(InitialLines, cells, sizeInfo, metrics, size, offset);
            && r.0 == [Line(Underline, OpenRun(Underline, cells)), Line(Strikeout, OpenRun(Strikeout, cells))]
            && forall x :: x in r.1 <==>
                 ClosedRunRect(Underline, cells, x, metrics, size, offset) || ClosedRunRect(Strikeout, cells, x, metrics, size, offset)
  {
    FeedLines(InitialLines, cells, sizeInfo, metrics, size, offset);
    LineFeedTilesRuns(Underline, cells, sizeInfo, metrics, size, offset);
    LineFeedTilesRuns(Strikeout, cells, sizeInfo, metrics, size, offset);
    var r := Feed(InitialLines, cells, sizeInfo, metrics, size, offset);
    assert r.0 == [r.0[0], r.0[1]];
    forall x
      ensures x in r.1 <==>
        ClosedRunRect(Underline, cells, x, metrics, size, offset) || ClosedRunRect(Strikeout, cells, x, metrics, size, offset)
    {
      FeedMembers(InitialLines, cells, sizeInfo, metrics, size, offset, x);
      RunRectsAreClosedRuns(Underline, cells, x, metrics, size, offset);
      RunRectsAreClosedRuns(Strikeout, cells, x, metrics, size, offset);
      if x in r.1 {
        var i :| 0 <= i < 2 && x in LineFeed(InitialLines[i], cells, sizeInfo, metrics, size, offset).1;
        assert i == 0 || i == 1;
      }
    }
  }

  /** The tracked lines the accumulator starts with: underline, then strikeout, both without a run. */
  const InitialLines: seq<Line> := [Line(Underline, None), Line(Strikeout, None)]

  /**
   * `Rects`: the rectangles of one frame and the tracked decoration lines.
   * `metrics` and `size` are fixed when the accumulator is made.
   */
  class Rects {
    var inner: seq<(Rect, Rgb)>
    var activeLines: seq<Line>
    const metrics: Metrics
    const size: SizeInfo

    /** `Rects::new`: no rectangles, and an empty run for each tracked flag. */
    constructor (metrics: Metrics, size: SizeInfo)
      ensures inner == [] && activeLines == InitialLines
      ensures this.metrics == metrics && this.size == size
    {
      this.metrics := metrics;
      this.size := size;
      inner := [];
      activeLines := InitialLines;
    }

    /** `rects()`: the rectangles accumulated so far, in the order they were added. */
    function Rectangles(): seq<(Rect, Rgb)>
      reads this
    {
      inner
    }

    /**
     * `update_lines`: feed the next cell to every tracked line. Earlier
     * rectangles stay as they are; each line appends at most one.
     */
    method UpdateLines(sizeInfo: SizeInfo, cell: RenderableCell, offset: Offset)
      modifies this
      ensures activeLines == StepLines(old(activeLines), sizeInfo, cell, metrics, size, offset).0
      ensures inner == old(inner) + StepLines(old(activeLines), sizeInfo, cell, metrics, size, offset).1
    {
      ghost var lines0 := activeLines;
      ghost var inner0 := inner;
      var i := 0;
      while i < |activeLines|
        invariant 0 <= i <= |activeLines| == |lines0|
        invariant activeLines[..i] == StepLines(lines0[..i], sizeInfo, cell, metrics, size, offset).0
        invariant activeLines[i..] == lines0[i..]
        invariant inner == inner0 + StepLines(lines0[..i], sizeInfo, cell, metrics, size, offset).1
      {
        ghost var linesBefore := activeLines;
        assert activeLines[i] == lines0[i] by { assert activeLines[i..][0] == lines0[i..][0]; }
        UpdateLine(i, sizeInfo, cell, offset);
        StepLinesSnoc(lines0, i, sizeInfo, cell, metrics, size, offset);
        assert activeLines[..i + 1] == linesBefore[..i] + [activeLines[i]];
        assert activeLines[i + 1..] == linesBefore[i + 1..];
        i := i + 1;
      }
      assert lines0[..i] == lines0;
      assert activeLines[..i] == activeLines;
    }

    /** The loop body of `update_lines`: feed `cell` to the tracked line at index `i`. */
    method UpdateLine(i: nat, sizeInfo: SizeInfo, cell: RenderableCell, offset: Offset)
      requires i < |activeLines|
      modifies this
      ensures var step := LineStep(old(activeLines[i]), sizeInfo, cell, metrics, size, offset);
              activeLines == old(activeLines)[i := step.0] && inner == old(inner) + step.1
    {
      var line := activeLines[i];
      match line.range {
        case Some(run) =>
          if Continues(run, line.flag, cell) {
            if AtTerminalEnd(sizeInfo, cell) {
              // the end-of-terminal test, as written, flushes the run including this cell
              inner := inner + [CreateRect(run.start, PointOf(cell), line.flag, metrics, size, offset)];
            } else {
              activeLines := activeLines[i := Line(line.flag, Some(Run(run.start, PointOf(cell))))];
            }
          } else {
            inner := inner + [CreateRect(run.start, run.end, line.flag, metrics, size, offset)];
            if line.flag in cell.flags {
              activeLines := activeLines[i := Line(line.flag, Some(Run(cell, PointOf(cell))))];
            } else {
              activeLines := activeLines[i := Line(line.flag, None)];
            }
          }
        case None =>
          if line.flag in cell.flags {
            activeLines := activeLines[i := Line(line.flag, Some(Run(cell, PointOf(cell))))];
          }
      }
    }

    /** `push`: append one rectangle as it is, without touching the tracked lines. */
    method Push(rect: Rect, color: Rgb)
      modifies this`inner
      ensures inner == old(inner) + [(rect, color)]
    {
      inner := inner + [(rect, color)];
    }
  }
}
