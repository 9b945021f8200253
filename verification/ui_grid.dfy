/** Placing a control on a grid: the arithmetic of the cells. */
module UiGrid {

  datatype Rect = Rect(x: int, y: int, width: int, height: int)

  datatype Grid = Grid(rows: nat, columns: nat, rowGap: int, columnGap: int, top: int, right: int, bottom: int,
      left: int)

  predicate GridOk(g: Grid) {
    && 0 < g.rows <= 64 && 0 < g.columns <= 64
    && 0 <= g.rowGap <= 4096 && 0 <= g.columnGap <= 4096
    && 0 <= g.top <= 4096 && 0 <= g.right <= 4096 && 0 <= g.bottom <= 4096 && 0 <= g.left <= 4096
  }

  predicate CellOk(g: Grid, row: nat, column: nat, rowSpan: nat, columnSpan: nat) {
    && 0 < rowSpan <= g.rows && 0 < columnSpan <= g.columns
    && row + rowSpan <= g.rows && column + columnSpan <= g.columns
  }

  function Width(outer: Rect, g: Grid): int {
    outer.width - g.left - g.right - (g.columns - 1) * g.columnGap
  }

  function Height(outer: Rect, g: Grid): int {
    outer.height - g.top - g.bottom - (g.rows - 1) * g.rowGap
  }

  datatype Placement = InvalidArgument | TooSmall | Place(bounds: Rect)

  /** mpc_ui_control_place_grid up to the placing itself; bounds are relative to the screen. */
  function PlaceGrid(outer: Rect, g: Grid, row: nat, column: nat, rowSpan: nat, columnSpan: nat): Placement {
    if !GridOk(g) || !CellOk(g, row, column, rowSpan, columnSpan) then InvalidArgument
    else if Width(outer, g) < g.columns || Height(outer, g) < g.rows then TooSmall
    else
      var cellWidth, cellHeight := Width(outer, g) / g.columns, Height(outer, g) / g.rows;
      Place(Rect(g.left + column * (cellWidth + g.columnGap), g.top + row * (cellHeight + g.rowGap),
                 cellWidth * columnSpan + g.columnGap * (columnSpan - 1),
                 cellHeight * rowSpan + g.rowGap * (rowSpan - 1)))
  }

  /** What mpc_ui_control_place demands of bounds within a screen. */
  predicate Within(b: Rect, outer: Rect) {
    0 <= b.x && 0 <= b.y && 0 < b.width && 0 < b.height && b.x + b.width <= outer.width &&
      b.y + b.height <= outer.height
  }

  predicate Overlap(a: Rect, b: Rect) {
    a.x < b.x + b.width && b.x < a.x + a.width && a.y < b.y + b.height && b.y < a.y + a.height
  }

  /** One axis: `n` cells of `cell` with `gap` between them, from `inset`; the span from `at` ends inside. */
  lemma SpanFits(n: nat, cell: int, gap: int, total: int, at: nat, span: nat)
    requires 0 < n && n <= total && cell == total / n && 0 <= gap && 0 < span && at + span <= n
    ensures 0 < cell
    ensures at * (cell + gap) >= 0 && cell * span + gap * (span - 1) > 0
    ensures at * (cell + gap) + cell * span + gap * (span - 1) <= total + (n - 1) * gap
  {
  }

  /** Spans one after the other do not meet. */
  lemma SpansApart(cell: int, gap: int, at: nat, span: nat, other: nat)
    requires 0 < cell && 0 <= gap && 0 < span && at + span <= other
    ensures at * (cell + gap) + cell * span + gap * (span - 1) <= other * (cell + gap)
  {
  }

  /** An accepted cell lies within the screen. */
  lemma AcceptedCellsFit(outer: Rect, g: Grid, row: nat, column: nat, rowSpan: nat, columnSpan: nat)
    ensures var p := PlaceGrid(outer, g, row, column, rowSpan, columnSpan);
            p.Place? ==> Within(p.bounds, outer)
  {
    if PlaceGrid(outer, g, row, column, rowSpan, columnSpan).Place? {
      SpanFits(g.columns, Width(outer, g) / g.columns, g.columnGap, Width(outer, g), column, columnSpan);
      SpanFits(g.rows, Height(outer, g) / g.rows, g.rowGap, Height(outer, g), row, rowSpan);
    }
  }

  /** The cells two controls take on the grid. */
  predicate Disjoint(row: nat, column: nat, rowSpan: nat, columnSpan: nat, row': nat, column': nat, rowSpan': nat,
      columnSpan': nat) {
    row + rowSpan <= row' || row' + rowSpan' <= row || column + columnSpan <= column' || column' + columnSpan' <= column
  }

  /** Disjoint cells of one grid do not overlap, and cells that share one do. */
  lemma DisjointExactly(outer: Rect, g: Grid, row: nat, column: nat, rowSpan: nat, columnSpan: nat,
                        row': nat, column': nat, rowSpan': nat, columnSpan': nat)
    ensures var p, q := PlaceGrid(outer, g, row, column, rowSpan, columnSpan),
                        PlaceGrid(outer, g, row', column', rowSpan', columnSpan');
            p.Place? && q.Place? ==>
              (Overlap(p.bounds, q.bounds) <==>
                !Disjoint(row, column, rowSpan, columnSpan, row', column', rowSpan', columnSpan'))
  {
    var p, q := PlaceGrid(outer, g, row, column, rowSpan, columnSpan),
      PlaceGrid(outer, g, row', column', rowSpan', columnSpan');
    if p.Place? && q.Place? {
      var w, h := Width(outer, g) / g.columns, Height(outer, g) / g.rows;
      SpanFits(g.columns, w, g.columnGap, Width(outer, g), column, columnSpan);
      SpanFits(g.rows, h, g.rowGap, Height(outer, g), row, rowSpan);
      AxisExactly(w, g.columnGap, column, columnSpan, column', columnSpan');
      AxisExactly(h, g.rowGap, row, rowSpan, row', rowSpan');
    }
  }

  /** Along one axis two spans meet exactly when they share a cell. */
  lemma AxisExactly(cell: int, gap: int, at: nat, span: nat, at': nat, span': nat)
    requires 0 < cell && 0 <= gap && 0 < span && 0 < span'
    ensures var x, x' := at * (cell + gap), at' * (cell + gap);
            var w, w' := cell * span + gap * (span - 1), cell * span' + gap * (span' - 1);
            (x < x' + w' && x' < x + w) <==> !(at + span <= at' || at' + span' <= at)
  {
    if at + span <= at' { SpansApart(cell, gap, at, span, at'); }
    else if at' + span' <= at { SpansApart(cell, gap, at', span', at); }
    else {
      SpansMeet(cell, gap, at, span, at');
      SpansMeet(cell, gap, at', span', at);
    }
  }

  lemma SpansMeet(cell: int, gap: int, at: nat, span: nat, at': nat)
    requires 0 < cell && 0 <= gap && 0 < span && at' < at + span
    ensures at' * (cell + gap) < at * (cell + gap) + cell * span + gap * (span - 1)
  {
    assert at' * (cell + gap) <= (at + span - 1) * (cell + gap);
  }
}
