/** The macOS tracker (native/global_mouse_tracker.c): a process whose
    globals hold the bounds and the last accepted click, and whose event-tap
    callback debounces left and right mouse-downs and prints a
    `TILE_CLICKED` line for each hit. As written, that line goes to
    standard error; the model keeps that version beside the corrected one,
    which prints on standard output like the other two trackers. */
module MacTracker {
  import opened Wrappers
  import opened Strings
  import opened Grid
  import opened TrackerSpec
  import opened HostProtocol
  import opened JsText

  /** The Core Graphics event types the tap listens for. */
  const LeftMouseDown: int := 1
  const RightMouseDown: int := 3

  /** An event as the callback sees it: its type, its location, and the
      `CFAbsoluteTimeGetCurrent()` reading, in milliseconds, when it is
      handled. */
  datatype TapEvent = TapEvent(kind: int, x: int, y: int, time: int)

  /** Only left and right mouse-downs are candidate clicks. */
  predicate IsCandidate(e: TapEvent)
  {
    e.kind == LeftMouseDown || e.kind == RightMouseDown
  }

  /** The candidate clicks among a run of events, in order. */
  function Clicks(events: seq<TapEvent>): seq<Click>
  {
    if |events| == 0 then []
    else
      var e := events[|events| - 1];
      Clicks(events[..|events| - 1]) + if IsCandidate(e) then [Click(e.x, e.y, e.time)] else []
  }

  lemma ClicksStep(events: seq<TapEvent>, i: nat)
    requires i < |events|
    ensures var e := events[i];
      Clicks(events[..i + 1]) == Clicks(events[..i]) + if IsCandidate(e) then [Click(e.x, e.y, e.time)] else []
  {
    assert events[..i + 1][..i] == events[..i];
  }

  /** What `main` prints when the event tap cannot be created. */
  const TapError := "Failed to create event tap. Try running with sudo or granting accessibility permissions.\n"

  /** Whether the callback accepts `ev` when `last` is the remembered click. */
  predicate Accepts(last: Click, ev: TapEvent)
  {
    IsCandidate(ev) && !IsRepeat(Plain, last, Click(ev.x, ev.y, ev.time))
  }

  /** The remembered click after the callback handles `ev`. */
  function NextLast(last: Click, ev: TapEvent): Click
  {
    if Accepts(last, ev) then Click(ev.x, ev.y, ev.time) else last
  }

  /** What the callback prints while handling `ev`. */
  function StepOutput(b: Rect, last: Click, ev: TapEvent): string
  {
    if Accepts(last, ev) then PointOutput(b, ev.x, ev.y) else ""
  }

  /** What one more event adds to the output and to the remembered click. */
  lemma LoopStep(b: Rect, l0: Click, events: seq<TapEvent>, i: nat)
    requires i < |events|
    ensures var prev := Remembered(Plain, l0, Clicks(events[..i]));
      && Remembered(Plain, l0, Clicks(events[..i + 1])) == NextLast(prev, events[i])
      && Emitted(Plain, b, l0, Clicks(events[..i + 1])) ==
           Emitted(Plain, b, l0, Clicks(events[..i])) + StepOutput(b, prev, events[i])
  {
    var ev := events[i];
    var c := Click(ev.x, ev.y, ev.time);
    var done := Clicks(events[..i]);
    ClicksStep(events, i);
    if IsCandidate(ev) {
      EmittedStep(Plain, b, l0, done, c);
      AcceptedStep(Plain, l0, done, c);
    } else {
      assert done + [] == done;
      var e := Emitted(Plain, b, l0, done);
      assert e + "" == e;
    }
  }

  /** A left click at (400, 320) on an overlay at (100, 100) of 600 by 440,
      as the first click of the process, is accepted and printed as the
      line for cell (7, 5), which the host would turn into a tile event. The
      callback as written puts that line on standard error, which the host
      only logs, so the click never reaches the overlay. */
  lemma LostClick()
    ensures var ev := TapEvent(LeftMouseDown, 400, 320, 1000);
      var out := StepOutput(Rect(100, 100, 600, 440), Initial, ev);
      && Accepts(Initial, ev)
      && out == "TILE_CLICKED 7 5 400 320\n"
      && ParseChunk(out) == [TileEvent(Num(7), Num(5), Num(400), Num(320))]
      && ParseChunk("") == []
  {
    var r := Rect(100, 100, 600, 440);
    var ev := TapEvent(LeftMouseDown, 400, 320, 1000);
    var c := Click(400, 320, 1000);
    assert DistanceSq(Initial, c) == 262400;
    assert Accepts(Initial, ev);
    assert TileAt(r, 400, 320) == Some(Cell(7, 5)) by {
      CellSpan(r, 400, 320, 7, 5);
    }
    var out := StepOutput(r, Initial, ev);
    assert out == PointOutput(r, 400, 320);
    assert out == TileText(Cell(7, 5), 400, 320) + "\n";
    SampleLine();
    SampleChunk();
    EmptyChunk();
  }

  /** The host reads the line of that click back as the event of cell (7, 5). */
  lemma SampleChunk()
    ensures ParseChunk(TileText(Cell(7, 5), 400, 320) + "\n") == [TileEvent(Num(7), Num(5), Num(400), Num(320))]
  {
    var r := Rect(100, 100, 600, 440);
    var c := Click(400, 320, 1000);
    assert TileAt(r, 400, 320) == Some(Cell(7, 5)) by {
      CellSpan(r, 400, 320, 7, 5);
    }
    PointOutputLines(r, c);
    ChunkRoundTrip(r, [c]);
    assert [c][..0] == [];
    assert HitTexts(r, [c]) == HitText(r, c);
    assert HitEvents(r, [c]) == HitEvent(r, c);
  }

  lemma SampleLine()
    ensures TileText(Cell(7, 5), 400, 320) == "TILE_CLICKED 7 5 400 320"
  {
  }

  class Tracker {
    /** The globals `overlayX`, `overlayY`, `overlayWidth`, `overlayHeight`. */
    var overlay: Rect
    /** The remembered click: the globals `lastClickPoint` and `lastClickTime`. */
    var lastClick: Click
    var stdout: string
    var stderr: string

    /** The process as loaded: default bounds, the initial remembered click,
        nothing written yet. */
    constructor ()
      ensures overlay == DefaultBounds && lastClick == Initial
      ensures stdout == "" && stderr == ""
    {
      overlay := Rect(0, 0, 600, 440);
      lastClick := Click(0, 0, 0);
      stdout, stderr := "", "";
    }

    /** `printTileAtPoint` as written: the line for the cell under the point,
        if it is inside, goes to standard error. */
    method PrintTileAtPointAsWritten(x: int, y: int)
      modifies this`stderr
      ensures stderr == old(stderr) + PointOutput(overlay, x, y)
    {
      if x < overlay.x || x >= overlay.x + overlay.width ||
         y < overlay.y || y >= overlay.y + overlay.height {
        return;
      }
      var line := TileLine(x, y);
      stderr := stderr + line;
    }

    /** `printTileAtPoint` corrected: the same line on standard output. */
    method PrintTileAtPoint(x: int, y: int)
      modifies this`stdout
      ensures stdout == old(stdout) + PointOutput(overlay, x, y)
    {
      if x < overlay.x || x >= overlay.x + overlay.width ||
         y < overlay.y || y >= overlay.y + overlay.height {
        return;
      }
      var line := TileLine(x, y);
      stdout := stdout + line;
    }

    /** The mapping shared by both versions, for a point inside the bounds. */
    method TileLine(x: int, y: int) returns (line: string)
      requires Contains(overlay, x, y)
      ensures line == PointOutput(overlay, x, y)
    {
      ghost var cell := TileAt(overlay, x, y).value;
      var relX := x - overlay.x;
      var relY := y - overlay.y;
      var col := relX * Cols / overlay.width;
      var row := relY * Rows / overlay.height;
      if col < 0 { col := 0; }
      if col >= Cols { col := Cols - 1; }
      if row < 0 { row := 0; }
      if row >= Rows { row := Rows - 1; }
      assert Cell(col, row) == cell;
      line := TileText(Cell(col, row), x, y) + "\n";
    }

    /** `mouseCallback` as written: a mouse-down that does not repeat the
        remembered click becomes the remembered click and, if inside, is
        printed on standard error; the event is passed on unchanged. */
    method MouseCallbackAsWritten(event: TapEvent) returns (passed: TapEvent)
      modifies this`lastClick, this`stderr
      ensures passed == event
      ensures lastClick == NextLast(old(lastClick), event)
      ensures stderr == old(stderr) + StepOutput(overlay, old(lastClick), event)
      ensures stdout == old(stdout)
    {
      if event.kind == LeftMouseDown || event.kind == RightMouseDown {
        var x, y := event.x, event.y;
        var now := event.time;
        var dx, dy := x - lastClick.x, y - lastClick.y;
        if dx * dx + dy * dy < 25 && now - lastClick.time < 100 {
          return event;
        }
        lastClick := Click(x, y, now);
        if x >= overlay.x && x < overlay.x + overlay.width &&
           y >= overlay.y && y < overlay.y + overlay.height {
          PrintTileAtPointAsWritten(x, y);
        }
      }
      return event;
    }

    /** `mouseCallback` corrected: the same debounce, with the line printed
        on standard output. */
    method MouseCallback(event: TapEvent) returns (passed: TapEvent)
      modifies this`lastClick, this`stdout
      ensures passed == event
      ensures lastClick == NextLast(old(lastClick), event)
      ensures stdout == old(stdout) + StepOutput(overlay, old(lastClick), event)
      ensures stderr == old(stderr)
    {
      if event.kind == LeftMouseDown || event.kind == RightMouseDown {
        var x, y := event.x, event.y;
        var now := event.time;
        var dx, dy := x - lastClick.x, y - lastClick.y;
        if dx * dx + dy * dy < 25 && now - lastClick.time < 100 {
          return event;
        }
        lastClick := Click(x, y, now);
        if x >= overlay.x && x < overlay.x + overlay.width &&
           y >= overlay.y && y < overlay.y + overlay.height {
          PrintTileAtPoint(x, y);
        }
      }
      return event;
    }

    /** One turn of the run loop as written: the tap delivers `events[i]` to the
        callback, and the output and the remembered click move from the
        state after `events[..i]` to the state after `events[..i + 1]`. */
    method DeliverAsWritten(s1: string, ghost l0: Click, events: seq<TapEvent>, i: nat)
      requires i < |events|
      requires lastClick == Remembered(Plain, l0, Clicks(events[..i]))
      requires stderr == s1 + Emitted(Plain, overlay, l0, Clicks(events[..i]))
      modifies this`lastClick, this`stderr
      ensures lastClick == Remembered(Plain, l0, Clicks(events[..i + 1]))
      ensures stderr == s1 + Emitted(Plain, overlay, l0, Clicks(events[..i + 1]))
      ensures stdout == old(stdout)
    {
      var event := events[i];
      ghost var e := Emitted(Plain, overlay, l0, Clicks(events[..i]));
      ghost var out := StepOutput(overlay, lastClick, event);
      LoopStep(overlay, l0, events, i);
      var _ := MouseCallbackAsWritten(event);
      AppendAssoc(s1, e, out);
    }

    /** The run loop as written, delivering `events` to the callback as
        written: every hit goes to standard error and standard output never
        changes. */
    method EventLoopAsWritten(events: seq<TapEvent>)
      modifies this`lastClick, this`stderr
      ensures stderr == old(stderr) + Emitted(Plain, overlay, old(lastClick), Clicks(events))
      ensures lastClick == Remembered(Plain, old(lastClick), Clicks(events))
      ensures stdout == old(stdout)
    {
      var b := overlay;
      var s1 := stderr;
      ghost var l0 := lastClick;
      var i := 0;
      while i < |events|
        invariant 0 <= i <= |events|
        invariant overlay == b
        invariant stdout == old(stdout)
        invariant lastClick == Remembered(Plain, l0, Clicks(events[..i]))
        invariant stderr == s1 + Emitted(Plain, b, l0, Clicks(events[..i]))
      {
        DeliverAsWritten(s1, l0, events, i);
        i := i + 1;
      }
      assert events[..|events|] == events;
    }

    /** One turn of the run loop: the tap delivers `events[i]` to the
        callback, and the output and the remembered click move from the
        state after `events[..i]` to the state after `events[..i + 1]`. */
    method Deliver(s1: string, ghost l0: Click, events: seq<TapEvent>, i: nat)
      requires i < |events|
      requires lastClick == Remembered(Plain, l0, Clicks(events[..i]))
      requires stdout == s1 + Emitted(Plain, overlay, l0, Clicks(events[..i]))
      modifies this`lastClick, this`stdout
      ensures lastClick == Remembered(Plain, l0, Clicks(events[..i + 1]))
      ensures stdout == s1 + Emitted(Plain, overlay, l0, Clicks(events[..i + 1]))
      ensures stderr == old(stderr)
    {
      var event := events[i];
      ghost var e := Emitted(Plain, overlay, l0, Clicks(events[..i]));
      ghost var out := StepOutput(overlay, lastClick, event);
      LoopStep(overlay, l0, events, i);
      var _ := MouseCallback(event);
      AppendAssoc(s1, e, out);
    }

    /** The run loop, delivering `events` to the corrected callback. */
    method EventLoop(events: seq<TapEvent>)
      modifies this`lastClick, this`stdout
      ensures stdout == old(stdout) + Emitted(Plain, overlay, old(lastClick), Clicks(events))
      ensures lastClick == Remembered(Plain, old(lastClick), Clicks(events))
      ensures stderr == old(stderr)
    {
      var b := overlay;
      var s1 := stdout;
      ghost var l0 := lastClick;
      var i := 0;
      while i < |events|
        invariant 0 <= i <= |events|
        invariant overlay == b
        invariant stderr == old(stderr)
        invariant lastClick == Remembered(Plain, l0, Clicks(events[..i]))
        invariant stdout == s1 + Emitted(Plain, b, l0, Clicks(events[..i]))
      {
        Deliver(s1, l0, events, i);
        i := i + 1;
      }
      assert events[..|events|] == events;
    }

    /** The start of `main`: with at least four arguments, the bounds are
        their `atoi` values; otherwise they stay as they are. */
    method ReadArgs(argv: seq<string>)
      requires overlay == DefaultBounds
      modifies this`overlay
      ensures overlay == ParseArgs(argv)
    {
      if |argv| >= 5 {
        overlay := Rect(CText.Atoi(argv[1]), CText.Atoi(argv[2]), CText.Atoi(argv[3]), CText.Atoi(argv[4]));
      }
    }

    /** `main` as written: the banner, then, once the tap exists, every hit
        on standard error; standard output is never written. */
    method RunAsWritten(argv: seq<string>, tapCreated: bool, events: seq<TapEvent>) returns (status: Option<int>)
      requires overlay == DefaultBounds
      modifies this
      ensures overlay == ParseArgs(argv)
      ensures stdout == old(stdout)
      ensures !tapCreated ==>
        && status == Some(1)
        && stderr == old(stderr) + Banner(overlay) + TapError
        && lastClick == old(lastClick)
      ensures tapCreated ==>
        && status == None
        && stderr == old(stderr) + Banner(overlay) + Emitted(Plain, overlay, old(lastClick), Clicks(events))
        && lastClick == Remembered(Plain, old(lastClick), Clicks(events))
    {
      ReadArgs(argv);
      var b := overlay;
      stderr := stderr + Banner(b);
      if !tapCreated {
        stderr := stderr + TapError;
        return Some(1);
      }
      EventLoopAsWritten(events);
      return None;
    }

    /** `main`: reads the bounds from the arguments, prints the banner on
        standard error, fails with status 1 when the event tap cannot be
        created, and otherwise hands `events` to the run loop; `status` is
        None while the loop is still running. */
    method Run(argv: seq<string>, tapCreated: bool, events: seq<TapEvent>) returns (status: Option<int>)
      requires overlay == DefaultBounds
      modifies this
      ensures overlay == ParseArgs(argv)
      ensures !tapCreated ==>
        && status == Some(1)
        && stdout == old(stdout)
        && stderr == old(stderr) + Banner(overlay) + TapError
        && lastClick == old(lastClick)
      ensures tapCreated ==>
        && status == None
        && stdout == old(stdout) + Emitted(Plain, overlay, old(lastClick), Clicks(events))
        && stderr == old(stderr) + Banner(overlay)
        && lastClick == Remembered(Plain, old(lastClick), Clicks(events))
    {
      ReadArgs(argv);
      var b := overlay;
      stderr := stderr + Banner(b);
      if !tapCreated {
        stderr := stderr + TapError;
        return Some(1);
      }
      EventLoop(events);
      return None;
    }
  }
}
