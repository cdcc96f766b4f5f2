/** The overlay page (src/renderer.js): the 165 tiles of the grid, the
    highlight of the tile a tracker event names, the two-click calibration
    that sets new overlay bounds, the menu toggle, the keyboard shortcuts
    and the restoring of saved bounds at start-up. Requests to the host go
    through `window.electronAPI` and are recorded in order. */
module Renderer {
  import opened Wrappers
  import opened Numerals
  import opened JsText
  import opened Grid
  import opened TrackerSpec
  import opened HostProtocol

  /** A tile element, by the `data-row` and `data-col` it carries. */
  datatype Tile = Tile(row: int, col: int)

  /** The index of the tile at a row and column, as the click handler
      computes it. */
  function TileIndex(row: int, col: int): (i: int)
    ensures 0 <= row < Rows && 0 <= col < Cols ==> 0 <= i < Rows * Cols
  {
    row * Cols + col
  }

  /** The row and column `updateTilePositions` lays out the tile at an index. */
  function TilePlace(index: int): (t: Tile)
    ensures 0 <= index < Rows * Cols ==> 0 <= t.row < Rows && 0 <= t.col < Cols
  {
    Tile(index / Cols, index % Cols)
  }

  /** Every cell of the grid has its own index, and the layout puts the tile
      at that index back in the same cell. */
  lemma PlaceOfIndex(row: int, col: int)
    requires 0 <= row < Rows && 0 <= col < Cols
    ensures 0 <= TileIndex(row, col) < Rows * Cols
    ensures TilePlace(TileIndex(row, col)) == Tile(row, col)
  {
    FloorDiv(TileIndex(row, col), Cols, row);
  }

  /** Every index of the grid is the index of the cell it is laid out in. */
  lemma IndexOfPlace(index: int)
    requires 0 <= index < Rows * Cols
    ensures var t := TilePlace(index);
      0 <= t.row < Rows && 0 <= t.col < Cols && TileIndex(t.row, t.col) == index
  {
  }

  /** The requests the page sends to the host. */
  datatype Request = SetFullscreen(on: bool) | SetOverlayBounds(bounds: Rect)

  /** `calibrationMode`: null, 'topleft' or 'bottomright'. */
  datatype Mode = Off | TopLeft | BottomRight

  datatype Point = Point(x: int, y: int)

  /** The calibration state: the mode and `calibrationPoints`. */
  datatype Calibration = Calibration(mode: Mode, topLeft: Option<Point>, bottomRight: Option<Point>)

  /** In the bottom-right step the first corner is known. */
  predicate CalibrationInv(c: Calibration)
  {
    c.mode == BottomRight ==> c.topLeft.Some?
  }

  function Min(a: int, b: int): int { if a <= b then a else b }
  function Max(a: int, b: int): int { if a <= b then b else a }

  /** The bounds two corner clicks select: the smaller coordinates and the
      distances between the clicks, whichever corner came first. */
  function CalibratedBounds(p: Point, q: Point): (r: Rect)
    ensures r.width >= 0 && r.height >= 0
  {
    var x1, y1 := Min(p.x, q.x), Min(p.y, q.y);
    var x2, y2 := Max(p.x, q.x), Max(p.y, q.y);
    Rect(x1, y1, x2 - x1, y2 - y1)
  }

  /** The two clicks are opposite corners of the bounds, in either order:
      the left and right edges are exactly the two x values, and the top
      and bottom edges exactly the two y values. */
  lemma CornersOfBounds(p: Point, q: Point)
    ensures var r := CalibratedBounds(p, q);
      && {r.x, r.x + r.width} == {p.x, q.x}
      && {r.y, r.y + r.height} == {p.y, q.y}
  {
  }

  /** Swapping the two clicks selects the same bounds. */
  lemma BoundsOrderFree(p: Point, q: Point)
    ensures CalibratedBounds(p, q) == CalibratedBounds(q, p)
  {
  }

  const StartPrompt := "Click TOP-LEFT corner of viewport"
  const SecondPrompt := "Click BOTTOM-RIGHT corner of viewport"

  function CalibratedStatus(r: Rect): string
  {
    "Calibrated: " + IntToDecimal(r.width) + "x" + IntToDecimal(r.height)
  }

  /** What a document click does to the calibration: nothing when it is
      off; the first corner is taken in the top-left step; the second
      corner ends calibration and yields the bounds. */
  function CalibrationClick(c: Calibration, p: Point): (res: (Calibration, Option<Rect>))
    requires CalibrationInv(c)
    ensures CalibrationInv(res.0)
    ensures res.1.Some? <==> c.mode == BottomRight
  {
    match c.mode
    case Off => (c, None)
    case TopLeft => (c.(topLeft := Some(p), mode := BottomRight), None)
    case BottomRight =>
      (c.(bottomRight := Some(p), mode := Off), Some(CalibratedBounds(c.topLeft.value, p)))
  }

  /** `startCalibration`'s effect on the calibration state. */
  const Started := Calibration(TopLeft, None, None)

  /** Two clicks after calibration starts select the bounds they span and
      end calibration; a further click changes nothing. */
  lemma TwoClicksCalibrate(p: Point, q: Point, more: Point)
    ensures var (c1, r1) := CalibrationClick(Started, p);
      var (c2, r2) := CalibrationClick(c1, q);
      && r1 == None
      && c1.mode == BottomRight
      && r2 == Some(CalibratedBounds(p, q))
      && c2.mode == Off
      && CalibrationClick(c2, more) == (c2, None)
  {
  }

  /** Without calibration, clicks are ignored. */
  lemma IdleClickIgnored(c: Calibration, p: Point)
    requires c.mode == Off
    ensures CalibrationClick(c, p) == (c, None)
  {
  }

  /** The menu's state: whether the controls and the drag handle are hidden. */
  datatype Menu = Menu(controlsHidden: bool, handleHidden: bool)

  /** `toggleMenu`: the controls flip and the handle follows them. */
  function Toggle(m: Menu): (m': Menu)
    ensures m'.controlsHidden != m.controlsHidden
    ensures m'.handleHidden == m'.controlsHidden
  {
    var hidden := !m.controlsHidden;
    Menu(hidden, hidden)
  }

  /** Toggling twice shows the menu as it was, once the handle follows the
      controls. */
  lemma ToggleTwice(m: Menu)
    requires m.handleHidden == m.controlsHidden
    ensures Toggle(Toggle(m)) == m
  {
  }

  /** What a key does. */
  datatype KeyAction = StartsCalibration | TogglesMenu | NoAction

  function KeyOf(key: string): (a: KeyAction)
    ensures a == StartsCalibration <==> key == "c" || key == "C"
    ensures a == TogglesMenu <==> key == "m" || key == "M"
  {
    if key == "c" || key == "C" then StartsCalibration
    else if key == "m" || key == "M" then TogglesMenu
    else NoAction
  }

  /** The tile a tracker event highlights: column and row must be numbers
      within the grid (NaN fails every comparison). */
  function HighlightTarget(ev: TileEvent): (index: Option<int>)
    ensures index.Some? <==>
      ev.col.Num? && ev.row.Num? &&
      0 <= ev.col.value < Cols && 0 <= ev.row.value < Rows
    ensures index.Some? ==> 0 <= index.value < Rows * Cols
  {
    if ev.col.Num? && ev.row.Num? &&
       ev.col.value >= 0 && ev.col.value < Cols && ev.row.value >= 0 && ev.row.value < Rows
    then Some(TileIndex(ev.row.value, ev.col.value))
    else None
  }

  /** The highlighted tile is the one laid out in the event's cell. */
  lemma HighlightsNamedTile(ev: TileEvent)
    requires HighlightTarget(ev).Some?
    ensures TilePlace(HighlightTarget(ev).value) == Tile(ev.row.value, ev.col.value)
  {
    PlaceOfIndex(ev.row.value, ev.col.value);
  }

  /** Every click a tracker reports for a point of its bounds highlights
      the cell under that point. */
  lemma TrackedClickHighlights(r: Rect, c: Click)
    requires Contains(r, c.x, c.y)
    ensures var cell := TileAt(r, c.x, c.y).value;
      && |HitEvent(r, c)| == 1
      && HighlightTarget(HitEvent(r, c)[0]) == Some(TileIndex(cell.row, cell.col))
      && TilePlace(TileIndex(cell.row, cell.col)) == Tile(cell.row, cell.col)
  {
    var cell := TileAt(r, c.x, c.y).value;
    PlaceOfIndex(cell.row, cell.col);
  }

  /** The start-up guard on saved bounds: every field must be truthy, so a
      zero anywhere, the left or top screen edge included, leaves the
      window where it is. */
  predicate RestoresSaved(saved: Option<Rect>)
  {
    saved.Some? && saved.value.x != 0 && saved.value.y != 0 &&
    saved.value.width != 0 && saved.value.height != 0
  }

  /** Bounds saved at the left screen edge are not restored. */
  lemma LeftEdgeNotRestored(b: Rect)
    requires b.x == 0
    ensures !RestoresSaved(Some(b))
  {
  }

  function LoadedStatus(r: Rect): string
  {
    "Loaded: " + IntToDecimal(r.width) + "x" + IntToDecimal(r.height)
  }

  /** The page's state. */
  class Overlay {
    /** `tiles`, in creation order. */
    var tiles: seq<Tile>
    var mode: Mode
    var topLeft: Option<Point>
    var bottomRight: Option<Point>
    /** The `hidden` class on `#controls` and on `#drag-handle`. */
    var controlsHidden: bool
    var handleHidden: bool
    /** The text of `#status`. */
    var status: string
    /** The requests sent to the host, in order. */
    var requests: seq<Request>
    /** The indices of the tiles highlighted, in order. */
    var highlighted: seq<int>

    function Calib(): Calibration
      reads this
    {
      Calibration(mode, topLeft, bottomRight)
    }

    function MenuState(): Menu
      reads this
    {
      Menu(controlsHidden, handleHidden)
    }

    predicate Valid()
      reads this
    {
      CalibrationInv(Calib())
    }

    /** The page as loaded, before the script's last statements run. */
    constructor ()
      ensures Valid() && Calib() == Calibration(Off, None, None)
      ensures MenuState() == Menu(false, false)
      ensures tiles == [] && status == "" && requests == [] && highlighted == []
    {
      tiles := [];
      mode, topLeft, bottomRight := Off, None, None;
      controlsHidden, handleHidden := false, false;
      status := "";
      requests := [];
      highlighted := [];
    }

    /** `createGrid`: row by row, one tile per column, each carrying its
        row and column; the tile at each index is the one the layout places
        at that index. */
    method CreateGrid()
      modifies this`tiles
      ensures |tiles| == Rows * Cols
      ensures forall i :: 0 <= i < |tiles| ==> tiles[i] == TilePlace(i)
    {
      tiles := [];
      var row := 0;
      while row < Rows
        invariant 0 <= row <= Rows
        invariant |tiles| == row * Cols
        invariant forall i :: 0 <= i < |tiles| ==> tiles[i] == TilePlace(i)
      {
        var col := 0;
        while col < Cols
          invariant 0 <= col <= Cols
          invariant |tiles| == row * Cols + col
          invariant forall i :: 0 <= i < |tiles| ==> tiles[i] == TilePlace(i)
        {
          PlaceOfIndex(row, col);
          tiles := tiles + [Tile(row, col)];
          col := col + 1;
        }
        row := row + 1;
      }
    }

    /** `startCalibration`: the first corner is awaited, both points are
        cleared, the prompt shows and the window asks to go full screen. */
    method StartCalibration()
      modifies this`mode, this`topLeft, this`bottomRight, this`status, this`requests
      ensures Valid() && Calib() == Started
      ensures status == StartPrompt
      ensures requests == old(requests) + [SetFullscreen(true)]
    {
      mode := TopLeft;
      topLeft, bottomRight := None, None;
      status := StartPrompt;
      requests := requests + [SetFullscreen(true)];
    }

    /** The document `click` handler at client point (x, y). */
    method OnDocumentClick(x: int, y: int)
      requires Valid()
      modifies this`mode, this`topLeft, this`bottomRight, this`status, this`requests
      ensures Valid()
      ensures var (c, bounds) := CalibrationClick(old(Calib()), Point(x, y));
        && Calib() == c
        && requests == old(requests) + (if bounds.Some? then [SetOverlayBounds(bounds.value)] else [])
        && status == (if bounds.Some? then CalibratedStatus(bounds.value)
                      else if old(mode) == TopLeft then SecondPrompt
                      else old(status))
    {
      if mode == Off {
        return;
      }
      if mode == TopLeft {
        topLeft := Some(Point(x, y));
        mode := BottomRight;
        status := SecondPrompt;
      } else if mode == BottomRight {
        bottomRight := Some(Point(x, y));
        var x1 := Min(topLeft.value.x, x);
        var y1 := Min(topLeft.value.y, y);
        var x2 := Max(topLeft.value.x, x);
        var y2 := Max(topLeft.value.y, y);
        var width := x2 - x1;
        var height := y2 - y1;
        requests := requests + [SetOverlayBounds(Rect(x1, y1, width, height))];
        mode := Off;
        status := "Calibrated: " + IntToDecimal(width) + "x" + IntToDecimal(height);
      }
    }

    /** `toggleMenu`. */
    method ToggleMenu()
      modifies this`controlsHidden, this`handleHidden
      ensures MenuState() == Toggle(old(MenuState()))
    {
      controlsHidden := !controlsHidden;
      if controlsHidden {
        handleHidden := true;
      } else {
        handleHidden := false;
      }
    }

    /** The `keydown` handler. */
    method OnKeyDown(key: string)
      requires Valid()
      modifies this`mode, this`topLeft, this`bottomRight, this`status, this`requests,
        this`controlsHidden, this`handleHidden
      ensures Valid()
      ensures KeyOf(key) == StartsCalibration ==>
        Calib() == Started && requests == old(requests) + [SetFullscreen(true)] &&
        MenuState() == old(MenuState())
      ensures KeyOf(key) == TogglesMenu ==>
        MenuState() == Toggle(old(MenuState())) && Calib() == old(Calib()) &&
        requests == old(requests)
      ensures KeyOf(key) == NoAction ==>
        Calib() == old(Calib()) && MenuState() == old(MenuState()) &&
        requests == old(requests) && status == old(status)
    {
      if key == "c" || key == "C" {
        StartCalibration();
      } else if key == "m" || key == "M" {
        ToggleMenu();
      }
    }

    /** The `onTileClicked` listener: an in-range event highlights the tile
        at its index, when that tile exists. */
    method OnTileClicked(ev: TileEvent)
      modifies this`highlighted
      ensures var t := HighlightTarget(ev);
        highlighted == old(highlighted) + (if t.Some? && t.value < |tiles| then [t.value] else [])
    {
      if ev.col.Num? && ev.row.Num? &&
         ev.col.value >= 0 && ev.col.value < Cols && ev.row.value >= 0 && ev.row.value < Rows {
        var index := ev.row.value * Cols + ev.col.value;
        if index < |tiles| {
          highlighted := highlighted + [index];
        }
      }
    }

    /** The reply of `getSavedBounds`: truthy bounds are sent back to the
        host and announced. */
    method OnSavedBounds(saved: Option<Rect>)
      modifies this`status, this`requests
      ensures RestoresSaved(saved) ==>
        requests == old(requests) + [SetOverlayBounds(saved.value)] &&
        status == LoadedStatus(saved.value)
      ensures !RestoresSaved(saved) ==> requests == old(requests) && status == old(status)
    {
      if saved.Some? && saved.value.x != 0 && saved.value.y != 0 &&
         saved.value.width != 0 && saved.value.height != 0 {
        requests := requests + [SetOverlayBounds(saved.value)];
        status := "Loaded: " + IntToDecimal(saved.value.width) + "x" + IntToDecimal(saved.value.height);
      }
    }
  }
}
