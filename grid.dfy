/** The grid shared by the trackers and the overlay: a fixed 15 x 11
    partition of the tracked screen rectangle, and the mapping from an
    absolute screen point to the cell under it (`printTileAtPoint` in each of
    the three native trackers). */
module Grid {
  import opened Wrappers

  const Cols: int := 15
  const Rows: int := 11

  /** The tracked region, in absolute screen pixels. */
  datatype Rect = Rect(x: int, y: int, width: int, height: int)

  /** A grid cell, zero-based. */
  datatype Cell = Cell(col: int, row: int)

  /** Half-open containment: the right and bottom edges are outside. */
  predicate Contains(r: Rect, px: int, py: int)
  {
    r.x <= px < r.x + r.width && r.y <= py < r.y + r.height
  }

  function Clamp(v: int, n: int): int
  {
    if v < 0 then 0 else if v >= n then n - 1 else v
  }

  /** The cell under the point, or None outside the rectangle. The tile
      width is `width / 15` and the column is the truncated quotient of the
      relative x by it, computed here exactly as `relX * 15 / width`; likewise
      for rows. */
  function TileAt(r: Rect, px: int, py: int): (cell: Option<Cell>)
    ensures cell.Some? <==> Contains(r, px, py)
    ensures cell.Some? ==> 0 <= cell.value.col < Cols && 0 <= cell.value.row < Rows
  {
    if px < r.x || px >= r.x + r.width || py < r.y || py >= r.y + r.height then None
    else
      var relX := px - r.x;
      var relY := py - r.y;
      Some(Cell(Clamp(relX * Cols / r.width, Cols), Clamp(relY * Rows / r.height, Rows)))
  }

  /** Floor division characterised: `q` is `a / b` exactly when `q * b <= a <
      (q + 1) * b`. */
  lemma FloorDiv(a: int, b: int, q: int)
    requires b > 0
    ensures a / b == q <==> q * b <= a < q * b + b
  {
    var d := a / b;
    assert a == d * b + a % b;
    if q * b <= a < q * b + b {
      if d < q {
        MulMonotone(d + 1, q, b);
        assert false;
      } else if d > q {
        MulMonotone(q + 1, d, b);
        assert false;
      }
    }
  }

  lemma DivMonotone(a1: int, a2: int, b: int)
    requires a1 <= a2 && b > 0
    ensures a1 / b <= a2 / b
  {
    var q1, q2 := a1 / b, a2 / b;
    FloorDiv(a1, b, q1);
    FloorDiv(a2, b, q2);
    if q1 > q2 {
      MulMonotone(q2 + 1, q1, b);
      assert false;
    }
  }

  lemma MulMonotone(a: int, b: int, c: int)
    requires a <= b && c > 0
    ensures a * c <= b * c
  {
  }

  /** The share of `0 <= rel < size` in `n` equal parts lies in `[0, n)`. */
  lemma ShareInRange(rel: int, size: int, n: int)
    requires 0 <= rel < size && n > 0
    ensures 0 <= rel * n / size < n
  {
    var q := rel * n / size;
    FloorDiv(rel * n, size, q);
    if q >= n {
      MulMonotone(n, q, size);
      assert false;
    }
  }

  /** With exact arithmetic the clamp never binds: inside the rectangle the
      column is `relX * 15 / width` and the row `relY * 11 / height`. */
  lemma ClampNeverBinds(r: Rect, px: int, py: int)
    requires Contains(r, px, py)
    ensures TileAt(r, px, py) ==
      Some(Cell((px - r.x) * Cols / r.width, (py - r.y) * Rows / r.height))
  {
    ShareInRange(px - r.x, r.width, Cols);
    ShareInRange(py - r.y, r.height, Rows);
  }

  /** The grid is a uniform partition: a point is in cell `(c, k)` exactly
      when it is inside and `c` fifteenths of the width lie at or before it
      while `c + 1` fifteenths lie after it (likewise for rows, in elevenths). */
  lemma CellSpan(r: Rect, px: int, py: int, c: int, k: int)
    ensures TileAt(r, px, py) == Some(Cell(c, k)) <==>
      && Contains(r, px, py)
      && c * r.width <= (px - r.x) * Cols < c * r.width + r.width
      && k * r.height <= (py - r.y) * Rows < k * r.height + r.height
  {
    if Contains(r, px, py) {
      ClampNeverBinds(r, px, py);
      FloorDiv((px - r.x) * Cols, r.width, c);
      FloorDiv((py - r.y) * Rows, r.height, k);
    }
  }

  /** The rectangle's origin is in cell (0, 0). */
  lemma OriginCell(r: Rect)
    requires r.width > 0 && r.height > 0
    ensures TileAt(r, r.x, r.y) == Some(Cell(0, 0))
  {
    CellSpan(r, r.x, r.y, 0, 0);
  }

  /** The last pixel of the rectangle is in the last cell (14, 10) exactly
      when the rectangle is at least 15 pixels wide and 11 high; a narrower
      rectangle has cells that no pixel reaches. */
  lemma FarCornerCell(r: Rect)
    requires r.width > 0 && r.height > 0
    ensures TileAt(r, r.x + r.width - 1, r.y + r.height - 1) == Some(Cell(Cols - 1, Rows - 1))
        <==> r.width >= Cols && r.height >= Rows
  {
    CellSpan(r, r.x + r.width - 1, r.y + r.height - 1, Cols - 1, Rows - 1);
  }

  /** Moving right never moves to an earlier column, whatever the row. */
  lemma ColumnMonotone(r: Rect, px1: int, py1: int, px2: int, py2: int)
    requires Contains(r, px1, py1) && Contains(r, px2, py2) && px1 <= px2
    ensures TileAt(r, px1, py1).value.col <= TileAt(r, px2, py2).value.col
  {
    ClampNeverBinds(r, px1, py1);
    ClampNeverBinds(r, px2, py2);
    DivMonotone((px1 - r.x) * Cols, (px2 - r.x) * Cols, r.width);
  }

  /** Moving down never moves to an earlier row, whatever the column. */
  lemma RowMonotone(r: Rect, px1: int, py1: int, px2: int, py2: int)
    requires Contains(r, px1, py1) && Contains(r, px2, py2) && py1 <= py2
    ensures TileAt(r, px1, py1).value.row <= TileAt(r, px2, py2).value.row
  {
    ClampNeverBinds(r, px1, py1);
    ClampNeverBinds(r, px2, py2);
    DivMonotone((py1 - r.y) * Rows, (py2 - r.y) * Rows, r.height);
  }

  /** A rectangle with no width or no height contains nothing, so no point
      reaches the divisions. */
  lemma EmptyRectHitsNothing(r: Rect, px: int, py: int)
    requires r.width <= 0 || r.height <= 0
    ensures TileAt(r, px, py) == None
  {
  }

  /** The first pixel column of column `c`: the least relative x whose share
      is `c`, i.e. `c` fifteenths of the width rounded up. */
  function CellStart(c: int, size: int, n: int): int
    requires n > 0
  {
    (c * size + n - 1) / n
  }

  /** Every cell is reached, at its first pixel, when the rectangle is at
      least 15 x 11 pixels. */
  lemma EveryCellReachable(r: Rect, c: int, k: int)
    requires r.width >= Cols && r.height >= Rows
    requires 0 <= c < Cols && 0 <= k < Rows
    ensures TileAt(r, r.x + CellStart(c, r.width, Cols), r.y + CellStart(k, r.height, Rows))
      == Some(Cell(c, k))
  {
    StartInShare(c, r.width, Cols);
    StartInShare(k, r.height, Rows);
    CellSpan(r, r.x + CellStart(c, r.width, Cols), r.y + CellStart(k, r.height, Rows), c, k);
  }

  lemma StartInShare(c: int, size: int, n: int)
    requires size >= n > 0 && 0 <= c < n
    ensures var s := CellStart(c, size, n);
      0 <= s < size && c * size <= s * n < c * size + size
  {
    var s := CellStart(c, size, n);
    FloorDiv(c * size + n - 1, n, s);
    MulMonotone(0, c, size);
    MulMonotone(c, n - 1, size);
    if s >= size {
      MulMonotone(size, s, n);
      assert false;
    }
  }
}
