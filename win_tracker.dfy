/** The Windows tracker (native/global_mouse_tracker_win.c): a process whose
    globals hold the bounds, the last accepted click and the message-only
    window. Its low-level mouse hook debounces left and right button-downs
    with 32-bit tick counts and posts each accepted hit inside the bounds to
    the window, whose procedure prints the `TILE_CLICKED` line on standard
    output. The hook and the window procedure run one after the other here. */
module WinTracker {
  import opened Wrappers
  import opened Numerals
  import opened Strings
  import opened JsText
  import opened Grid
  import opened TrackerSpec
  import opened HostProtocol

  /** The hook code and the mouse messages the hook reacts to. */
  const HcAction: int := 0
  const WmLButtonDown: int := 0x0201
  const WmRButtonDown: int := 0x0204

  /** The private message the hook posts for a hit: `WM_USER + 1`. */
  const WmUser: int := 0x0400
  const WmClickDetected: int := WmUser + 1

  /** The size of the buffer the line is formatted into. */
  const LineBuffer: int := 128

  /** One call of the hook: its code, the mouse message, the pointer
      position, and the `GetTickCount()` reading when it is handled. */
  datatype HookCall = HookCall(nCode: int, wParam: int, x: int, y: int, time: int)

  /** A message posted to the window: its identifier and its two words. */
  datatype Message = Message(id: int, wParam: int, lParam: int)

  /** An action-code left or right button-down is a candidate click. */
  predicate IsCandidate(h: HookCall)
  {
    h.nCode == HcAction && (h.wParam == WmLButtonDown || h.wParam == WmRButtonDown)
  }

  /** The candidate clicks among a run of hook calls, in order. */
  function Clicks(calls: seq<HookCall>): seq<Click>
  {
    if |calls| == 0 then []
    else
      var h := calls[|calls| - 1];
      Clicks(calls[..|calls| - 1]) + if IsCandidate(h) then [Click(h.x, h.y, h.time)] else []
  }

  lemma ClicksStep(calls: seq<HookCall>, i: nat)
    requires i < |calls|
    ensures var h := calls[i];
      Clicks(calls[..i + 1]) == Clicks(calls[..i]) + if IsCandidate(h) then [Click(h.x, h.y, h.time)] else []
  {
    assert calls[..i + 1][..i] == calls[..i];
  }

  /** Whether the hook accepts `h` when `last` is the remembered click. */
  predicate Accepts(last: Click, h: HookCall)
  {
    IsCandidate(h) && !IsRepeat(Dword, last, Click(h.x, h.y, h.time))
  }

  /** The remembered click after the hook handles `h`. */
  function NextLast(last: Click, h: HookCall): Click
  {
    if Accepts(last, h) then Click(h.x, h.y, h.time) else last
  }

  /** What the hook posts while handling `h`: the point of an accepted
      click inside the bounds. */
  function Posts(b: Rect, last: Click, h: HookCall): seq<Message>
  {
    if Accepts(last, h) && Contains(b, h.x, h.y) then [Message(WmClickDetected, h.x, h.y)] else []
  }

  /** What the window procedure prints for one message. */
  function MessageOutput(b: Rect, m: Message): string
  {
    if m.id == WmClickDetected then PointOutput(b, m.wParam, m.lParam) else ""
  }

  /** What the window procedure prints for a run of messages, in order. */
  function Delivered(b: Rect, ms: seq<Message>): string
  {
    if |ms| == 0 then "" else Delivered(b, ms[..|ms| - 1]) + MessageOutput(b, ms[|ms| - 1])
  }

  /** Delivering one more message appends what the window procedure
      prints for it. */
  lemma DeliverOne(s0: string, b: Rect, done: seq<Message>, m: Message)
    ensures (s0 + Delivered(b, done)) + MessageOutput(b, m) == s0 + Delivered(b, done + [m])
  {
    assert (done + [m])[..|done|] == done;
    AppendAssoc(s0, Delivered(b, done), MessageOutput(b, m));
  }

  /** Posting a hit and printing it from the window procedure prints what
      printing it straight from the hook would: the line for an accepted
      click inside the bounds, and nothing otherwise. */
  lemma HandOff(b: Rect, last: Click, h: HookCall)
    ensures Delivered(b, Posts(b, last, h)) ==
      if Accepts(last, h) then PointOutput(b, h.x, h.y) else ""
  {
    var ps := Posts(b, last, h);
    if Accepts(last, h) && Contains(b, h.x, h.y) {
      assert ps[..0] == [];
    } else if Accepts(last, h) {
      assert TileAt(b, h.x, h.y) == None;
    }
  }

  /** What one more hook call adds to the output and to the remembered
      click, once what it posted has been delivered. */
  lemma LoopStep(b: Rect, l0: Click, calls: seq<HookCall>, i: nat)
    requires i < |calls|
    ensures var prev := Remembered(Dword, l0, Clicks(calls[..i]));
      && Remembered(Dword, l0, Clicks(calls[..i + 1])) == NextLast(prev, calls[i])
      && Emitted(Dword, b, l0, Clicks(calls[..i + 1])) ==
           Emitted(Dword, b, l0, Clicks(calls[..i])) + Delivered(b, Posts(b, prev, calls[i]))
  {
    var h := calls[i];
    var c := Click(h.x, h.y, h.time);
    var done := Clicks(calls[..i]);
    var prev := Remembered(Dword, l0, done);
    ClicksStep(calls, i);
    HandOff(b, prev, h);
    if IsCandidate(h) {
      EmittedStep(Dword, b, l0, done, c);
      AcceptedStep(Dword, l0, done, c);
    } else {
      assert done + [] == done;
      var e := Emitted(Dword, b, l0, done);
      assert e + "" == e;
    }
  }

  /** The line for a cell of the grid and two 32-bit coordinates takes at
      most 43 characters, so `_snprintf` into the 128-byte buffer never
      truncates it and always leaves room for the terminator. */
  lemma LineFitsBuffer(c: Cell, x: int, y: int)
    requires 0 <= c.col < Cols && 0 <= c.row < Rows
    requires -0x8000_0000 <= x < 0x8000_0000 && -0x8000_0000 <= y < 0x8000_0000
    ensures |TileText(c, x, y) + "\n"| <= 43 < LineBuffer
  {
    NatToDecimalLength(c.col, 2);
    NatToDecimalLength(c.row, 2);
    DecimalLength(x);
    DecimalLength(y);
  }

  lemma DecimalLength(n: int)
    requires -0x8000_0000 <= n < 0x8000_0000
    ensures |IntToDecimal(n)| <= 11
  {
    if n < 0 {
      NatToDecimalLength(-n, 10);
    } else {
      NatToDecimalLength(n, 10);
    }
  }

  /** The lines `main` writes on standard output at each stage of start-up. */
  const StartedLine := "Mouse tracker started"
  const InstalledLine := "Hook installed"
  const WindowError := "Failed to create window"
  const HookError := "Failed to create mouse hook"

  /** None of the start-up texts, whichever way start-up goes, reads as a
      tile click on the host: neither the window failure, */
  lemma WindowFailureHasNoEvents()
    ensures ParseChunk(Unlines([WindowError])) == []
  {
    assert QuietLine(WindowError) by { OtherInitialNoMarker(WindowError); }
    assert WindowError[|WindowError| - 1] == 'w';
    ChunkWithoutMarker([WindowError]);
  }

  /** nor the hook failure, */
  lemma HookFailureHasNoEvents()
    ensures ParseChunk(Unlines([StartedLine, HookError])) == []
  {
    assert QuietLine(StartedLine) by { OtherInitialNoMarker(StartedLine); }
    assert QuietLine(HookError) by { OtherInitialNoMarker(HookError); }
    assert HookError[|HookError| - 1] == 'k';
    ChunkWithoutMarker([StartedLine, HookError]);
  }

  /** nor a successful start. */
  lemma StartupHasNoEvents()
    ensures ParseChunk(Unlines([StartedLine, InstalledLine])) == []
  {
    assert QuietLine(StartedLine) by { OtherInitialNoMarker(StartedLine); }
    assert QuietLine(InstalledLine) by { OtherInitialNoMarker(InstalledLine); }
    assert InstalledLine[|InstalledLine| - 1] == 'd';
    ChunkWithoutMarker([StartedLine, InstalledLine]);
  }

  class Tracker {
    /** The globals `overlayX`, `overlayY`, `overlayWidth`, `overlayHeight`. */
    var overlay: Rect
    /** The remembered click: the globals `lastClickPoint` and `lastClickTime`. */
    var lastClick: Click
    /** Whether the message-only window exists (`hwnd` is not NULL). */
    var hwnd: bool
    /** The window's queue of posted messages not yet dispatched. */
    var posted: seq<Message>
    var stdout: string

    /** The process as loaded: default bounds, the initial remembered click,
        no window, nothing posted or written yet. */
    constructor ()
      ensures overlay == DefaultBounds && lastClick == Initial
      ensures !hwnd && posted == [] && stdout == ""
    {
      overlay := Rect(0, 0, 600, 440);
      lastClick := Click(0, 0, 0);
      hwnd, posted, stdout := false, [], "";
    }

    /** `printTileAtPoint`: the line for the cell under the point, if it is
        inside, written to file descriptor 1 through `output`. */
    method PrintTileAtPoint(x: int, y: int)
      modifies this`stdout
      ensures stdout == old(stdout) + PointOutput(overlay, x, y)
    {
      if x < overlay.x || x >= overlay.x + overlay.width ||
         y < overlay.y || y >= overlay.y + overlay.height {
        return;
      }
      ghost var cell := TileAt(overlay, x, y).value;
      var relX := x - overlay.x;
      var relY := y - overlay.y;
      var col := relX * Cols / overlay.width;
      var row := relY * Rows / overlay.height;
      if col < 0 { col := 0; }
      if col >= Cols { col := Cols - 1; }
      if row < 0 { row := 0; }
      if row >= Rows { row := Rows - 1; }
      assert Cell(col, row) == cell;
      stdout := stdout + TileText(Cell(col, row), x, y) + "\n";
    }

    /** `MouseProc`: with the window in place, an action-code button-down
        whose squared distance from the remembered click is at least 25 or
        whose unsigned tick difference is at least 100 becomes the
        remembered click, and is posted to the window if it is inside. */
    method MouseProc(h: HookCall)
      modifies this`lastClick, this`posted
      ensures hwnd ==> lastClick == NextLast(old(lastClick), h)
      ensures hwnd ==> posted == old(posted) + Posts(overlay, old(lastClick), h)
      ensures !hwnd ==> lastClick == old(lastClick) && posted == old(posted)
    {
      if h.nCode == HcAction && hwnd {
        if h.wParam == WmLButtonDown || h.wParam == WmRButtonDown {
          var x, y := h.x, h.y;
          var now := h.time;
          var dx, dy := x - lastClick.x, y - lastClick.y;
          if dx * dx + dy * dy >= 25 || (now - lastClick.time) % TickModulus >= 100 {
            lastClick := Click(x, y, now);
            if x >= overlay.x && x < overlay.x + overlay.width &&
               y >= overlay.y && y < overlay.y + overlay.height {
              posted := posted + [Message(WmClickDetected, x, y)];
            }
          }
        }
      }
    }

    /** `WndProc`: the click message prints the tile for its point and is
        handled; any other message goes to the default procedure. */
    method WndProc(m: Message) returns (handled: bool)
      modifies this`stdout
      ensures handled <==> m.id == WmClickDetected
      ensures stdout == old(stdout) + MessageOutput(overlay, m)
    {
      if m.id == WmClickDetected {
        PrintTileAtPoint(m.wParam, m.lParam);
        return true;
      }
      return false;
    }

    /** The message loop draining the queue: every posted message is
        dispatched to the window procedure, oldest first. */
    method DispatchPosted()
      modifies this`posted, this`stdout
      ensures posted == []
      ensures stdout == old(stdout) + Delivered(overlay, old(posted))
    {
      ghost var queue := posted;
      ghost var done: seq<Message> := [];
      ghost var s0 := stdout;
      ghost var b := overlay;
      while |posted| > 0
        invariant overlay == b
        invariant queue == done + posted
        invariant stdout == s0 + Delivered(b, done)
        decreases |posted|
      {
        var m := posted[0];
        assert done + posted == (done + [m]) + posted[1..];
        posted := posted[1..];
        var _ := WndProc(m);
        DeliverOne(s0, b, done, m);
        done := done + [m];
      }
      assert done + [] == done;
    }

    /** One hook call, then the message loop dispatching what it posted. */
    method HandleCall(h: HookCall)
      requires hwnd && posted == []
      modifies this`lastClick, this`posted, this`stdout
      ensures posted == []
      ensures lastClick == NextLast(old(lastClick), h)
      ensures stdout == old(stdout) + Delivered(overlay, Posts(overlay, old(lastClick), h))
    {
      MouseProc(h);
      DispatchPosted();
    }

    /** The `GetMessage` loop over `calls`: each hook call is handled and
        what it posts is dispatched before the next one. */
    method EventLoop(calls: seq<HookCall>)
      requires hwnd && posted == []
      modifies this`lastClick, this`posted, this`stdout
      ensures posted == []
      ensures stdout == old(stdout) + Emitted(Dword, overlay, old(lastClick), Clicks(calls))
      ensures lastClick == Remembered(Dword, old(lastClick), Clicks(calls))
    {
      var b := overlay;
      var s1 := stdout;
      ghost var l0 := lastClick;
      var i := 0;
      while i < |calls|
        invariant 0 <= i <= |calls|
        invariant overlay == b
        invariant hwnd
        invariant posted == []
        invariant lastClick == Remembered(Dword, l0, Clicks(calls[..i]))
        invariant stdout == s1 + Emitted(Dword, b, l0, Clicks(calls[..i]))
      {
        var h := calls[i];
        ghost var e := Emitted(Dword, b, l0, Clicks(calls[..i]));
        ghost var out := Delivered(b, Posts(b, lastClick, h));
        LoopStep(b, l0, calls, i);
        HandleCall(h);
        AppendAssoc(s1, e, out);
        i := i + 1;
      }
      assert calls[..|calls|] == calls;
    }

    /** The start of `main`: with at least four arguments, the bounds are
        their `atoi` values; otherwise they stay as they are. */
    method ReadArgs(argv: seq<string>)
      requires overlay == DefaultBounds
      modifies this`overlay
      ensures overlay == ParseArgs(argv)
    {
      if |argv| >= 5 {
        overlay := Rect(CText.Atoi(argv[1]), CText.Atoi(argv[2]), CText.Atoi(argv[3]), CText.Atoi(argv[4]));
      }
    }

    /** `main`: reads the bounds from the arguments, then fails with status 1
        if the window or the hook cannot be created, writing each stage's
        line to standard output; otherwise it runs the message loop over
        `calls`, and `status` is None while the loop is still running. */
    method Run(argv: seq<string>, windowCreated: bool, hookInstalled: bool, calls: seq<HookCall>)
      returns (status: Option<int>)
      requires overlay == DefaultBounds && !hwnd && posted == []
      modifies this
      ensures overlay == ParseArgs(argv)
      ensures hwnd == windowCreated
      ensures !windowCreated ==>
        && status == Some(1)
        && stdout == old(stdout) + Unlines([WindowError])
        && lastClick == old(lastClick)
      ensures windowCreated && !hookInstalled ==>
        && status == Some(1)
        && stdout == old(stdout) + Unlines([StartedLine, HookError])
        && lastClick == old(lastClick)
      ensures windowCreated && hookInstalled ==>
        && status == None
        && stdout == old(stdout) + Unlines([StartedLine, InstalledLine]) +
             Emitted(Dword, overlay, old(lastClick), Clicks(calls))
        && lastClick == Remembered(Dword, old(lastClick), Clicks(calls))
    {
      ReadArgs(argv);
      status := StartUp(windowCreated, hookInstalled);
      if status == None {
        EventLoop(calls);
      }
    }

    /** The part of `main` between the arguments and the message loop:
        create the window, then install the hook, writing each stage's line
        to standard output and giving up with status 1 at the first failure. */
    method StartUp(windowCreated: bool, hookInstalled: bool) returns (status: Option<int>)
      requires !hwnd && posted == []
      modifies this`hwnd, this`stdout
      ensures hwnd == windowCreated && posted == []
      ensures !windowCreated ==> status == Some(1) && stdout == old(stdout) + Unlines([WindowError])
      ensures windowCreated && !hookInstalled ==>
        status == Some(1) && stdout == old(stdout) + Unlines([StartedLine, HookError])
      ensures windowCreated && hookInstalled ==>
        status == None && stdout == old(stdout) + Unlines([StartedLine, InstalledLine])
    {
      ghost var s0 := stdout;
      hwnd := windowCreated;
      if !hwnd {
        stdout := stdout + WindowError + "\n";
        WriteOne(s0, WindowError);
        return Some(1);
      }
      stdout := stdout + StartedLine + "\n";
      if !hookInstalled {
        stdout := stdout + HookError + "\n";
        WriteTwo(s0, StartedLine, HookError);
        return Some(1);
      }
      stdout := stdout + InstalledLine + "\n";
      WriteTwo(s0, StartedLine, InstalledLine);
      return None;
    }
  }

  lemma WriteOne(s: string, a: string)
    ensures s + a + "\n" == s + Unlines([a])
  {
    assert [a][..0] == [];
  }

  lemma WriteTwo(s: string, a: string, b: string)
    ensures s + a + "\n" + b + "\n" == s + Unlines([a, b])
  {
    assert [a, b][..1] == [a];
    WriteOne(s, a);
  }
}
