/** The Linux tracker (native/global_mouse_tracker_linux.c): a process whose
    globals hold the bounds and the last accepted click, and whose `main`
    loops over X pointer-button events, debouncing them and printing a
    `TILE_CLICKED` line on standard output for each hit. */
module LinuxTracker {
  import opened Wrappers
  import opened Numerals
  import opened Strings
  import opened JsText
  import opened Grid
  import opened TrackerSpec
  import opened HostProtocol

  /** The X event types the loop reacts to. */
  const ButtonPress: int := 4
  const ButtonRelease: int := 5

  /** An X event as the loop sees it: its type, the pointer position, and the
      `clock()` reading, in milliseconds, when it is handled. */
  datatype XEvent = XEvent(kind: int, x: int, y: int, time: int)

  /** A press or a release of any button is a candidate click. */
  predicate IsCandidate(e: XEvent)
  {
    e.kind == ButtonPress || e.kind == ButtonRelease
  }

  /** The candidate clicks among a run of events, in order. */
  function Clicks(events: seq<XEvent>): seq<Click>
  {
    if |events| == 0 then []
    else
      var e := events[|events| - 1];
      Clicks(events[..|events| - 1]) + if IsCandidate(e) then [Click(e.x, e.y, e.time)] else []
  }

  lemma BoundsLineShape(b: Rect)
    ensures var l := BoundsLine(b); |l| > 0 && l[0] == 'O' && '\n' !in l
  {
    DecimalHasNoSeparator(b.x);
    DecimalHasNoSeparator(b.y);
    DecimalHasNoSeparator(b.width);
    DecimalHasNoSeparator(b.height);
  }

  const DisplayError := "Failed to open X display\n"

  lemma ClicksStep(events: seq<XEvent>, i: nat)
    requires i < |events|
    ensures var e := events[i];
      Clicks(events[..i + 1]) == Clicks(events[..i]) + if IsCandidate(e) then [Click(e.x, e.y, e.time)] else []
  {
    assert events[..i + 1][..i] == events[..i];
  }

  /** Whether the loop accepts `ev` when `last` is the remembered click. */
  predicate Accepts(last: Click, ev: XEvent)
  {
    IsCandidate(ev) && !IsRepeat(Plain, last, Click(ev.x, ev.y, ev.time))
  }

  /** The remembered click after the loop handles `ev`. */
  function NextLast(last: Click, ev: XEvent): Click
  {
    if Accepts(last, ev) then Click(ev.x, ev.y, ev.time) else last
  }

  /** What the loop prints while handling `ev`. */
  function StepOutput(b: Rect, last: Click, ev: XEvent): string
  {
    if Accepts(last, ev) then PointOutput(b, ev.x, ev.y) else ""
  }

  /** What one more event adds to the output and to the remembered click. */
  lemma LoopStep(b: Rect, l0: Click, events: seq<XEvent>, i: nat)
    requires i < |events|
    ensures var prev := Remembered(Plain, l0, Clicks(events[..i]));
      && Remembered(Plain, l0, Clicks(events[..i + 1])) == NextLast(prev, events[i])
      && Emitted(Plain, b, l0, Clicks(events[..i + 1])) ==
           Emitted(Plain, b, l0, Clicks(events[..i])) + StepOutput(b, prev, events[i])
  {
    var ev := events[i];
    var c := Click(ev.x, ev.y, ev.time);
    var done := Clicks(events[..i]);
    ClicksStep(events, i);
    if IsCandidate(ev) {
      EmittedStep(Plain, b, l0, done, c);
      AcceptedStep(Plain, l0, done, c);
    } else {
      assert done + [] == done;
      var e := Emitted(Plain, b, l0, done);
      assert e + "" == e;
    }
  }

  /** The startup banner never reads as a tile click on the host. */
  lemma BannerHasNoEvents(b: Rect)
    ensures ParseChunk(Banner(b)) == []
  {
    var l1, l2, l3 := "Mouse tracker started", BoundsLine(b), "Monitoring for clicks...";
    assert QuietLine(l1) by { OtherInitialNoMarker(l1); }
    assert QuietLine(l2) by { BoundsLineShape(b); OtherInitialNoMarker(l2); }
    assert QuietLine(l3) by { OtherInitialNoMarker(l3); }
    assert l3[|l3| - 1] == '.';
    ChunkWithoutMarker([l1, l2, l3]);
  }

  class Tracker {
    /** The globals `overlayX`, `overlayY`, `overlayWidth`, `overlayHeight`. */
    var overlay: Rect
    /** The remembered click: the globals `lastClickX`, `lastClickY` and `lastClickTime`. */
    var lastClick: Click
    var stdout: string
    var stderr: string

    /** The process as loaded: default bounds, the initial remembered click,
        nothing written yet. */
    constructor ()
      ensures overlay == DefaultBounds && lastClick == Initial
      ensures stdout == "" && stderr == ""
    {
      overlay := Rect(0, 0, 600, 440);
      lastClick := Click(0, 0, 0);
      stdout, stderr := "", "";
    }

    /** Prints the line for the cell under the point, if it is inside. */
    method PrintTileAtPoint(x: int, y: int)
      modifies this`stdout
      ensures stdout == old(stdout) + PointOutput(overlay, x, y)
    {
      if x < overlay.x || x >= overlay.x + overlay.width ||
         y < overlay.y || y >= overlay.y + overlay.height {
        return;
      }
      ghost var cell := TileAt(overlay, x, y).value;
      var relX := x - overlay.x;
      var relY := y - overlay.y;
      var col := relX * Cols / overlay.width;
      var row := relY * Rows / overlay.height;
      if col < 0 { col := 0; }
      if col >= Cols { col := Cols - 1; }
      if row < 0 { row := 0; }
      if row >= Rows { row := Rows - 1; }
      assert Cell(col, row) == cell;
      stdout := stdout + TileText(Cell(col, row), x, y) + "\n";
    }

    /** The start of `main`: with at least four arguments, the bounds are
        their `atoi` values; otherwise they stay as they are. */
    method ReadArgs(argv: seq<string>)
      requires overlay == DefaultBounds
      modifies this`overlay
      ensures overlay == ParseArgs(argv)
    {
      if |argv| >= 5 {
        overlay := Rect(CText.Atoi(argv[1]), CText.Atoi(argv[2]), CText.Atoi(argv[3]), CText.Atoi(argv[4]));
      }
    }

    /** `main`: reads the bounds from the arguments, fails with status 1 and
        nothing on standard output when the display cannot be opened, and
        otherwise prints the banner and handles `events` in its endless
        loop; `status` is None while the loop is still running. */
    method Run(argv: seq<string>, displayOpened: bool, events: seq<XEvent>) returns (status: Option<int>)
      requires overlay == DefaultBounds
      modifies this
      ensures overlay == ParseArgs(argv)
      ensures !displayOpened ==>
        && status == Some(1)
        && stdout == old(stdout) && stderr == old(stderr) + DisplayError
        && lastClick == old(lastClick)
      ensures displayOpened ==>
        && status == None
        && stdout == old(stdout) + Banner(overlay) + Emitted(Plain, overlay, old(lastClick), Clicks(events))
        && stderr == old(stderr)
        && lastClick == Remembered(Plain, old(lastClick), Clicks(events))
    {
      ReadArgs(argv);
      var b := overlay;
      if !displayOpened {
        stderr := stderr + DisplayError;
        return Some(1);
      }
      stdout := stdout + Banner(b);
      EventLoop(events);
      return None;
    }
  
    /** One pass of `main`'s loop: a press or release that does not repeat
        the remembered click becomes the remembered click and is mapped;
        anything else changes nothing. */
    method HandleEvent(event: XEvent)
      modifies this`lastClick, this`stdout
      ensures lastClick == NextLast(old(lastClick), event)
      ensures stdout == old(stdout) + StepOutput(overlay, old(lastClick), event)
    {
      if event.kind == ButtonPress || event.kind == ButtonRelease {
        var x, y := event.x, event.y;
        var now := event.time;
        var dx, dy := x - lastClick.x, y - lastClick.y;
        if dx * dx + dy * dy < 25 && now - lastClick.time < 100 {
          return;
        }
        lastClick := Click(x, y, now);
        if x >= overlay.x && x < overlay.x + overlay.width &&
           y >= overlay.y && y < overlay.y + overlay.height {
          PrintTileAtPoint(x, y);
        }
      }
    }

    /** The `while (1)` loop of `main` over the events it reads. */
    method EventLoop(events: seq<XEvent>)
      modifies this`lastClick, this`stdout
      ensures stdout == old(stdout) + Emitted(Plain, overlay, old(lastClick), Clicks(events))
      ensures lastClick == Remembered(Plain, old(lastClick), Clicks(events))
    {
      var b := overlay;
      var s1 := stdout;
      ghost var l0 := lastClick;
      var i := 0;
      while i < |events|
        invariant 0 <= i <= |events|
        invariant overlay == b
        invariant lastClick == Remembered(Plain, l0, Clicks(events[..i]))
        invariant stdout == s1 + Emitted(Plain, b, l0, Clicks(events[..i]))
      {
        var event := events[i];
        ghost var e := Emitted(Plain, b, l0, Clicks(events[..i]));
        ghost var out := StepOutput(b, lastClick, event);
        LoopStep(b, l0, events, i);
        HandleEvent(event);
        AppendAssoc(s1, e, out);
        i := i + 1;
      }
      assert events[..|events|] == events;
    }
  }
}
