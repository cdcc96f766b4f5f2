/** The host's management of the tracker process (src/main.js): the single
    `mouseTracker` handle that `startMouseTracker`, `restartMouseTracker`,
    the `close` handler and the quit handlers share, and the `data` handler
    that forwards parsed events to the overlay while its window lives.

    Processes are numbered in spawn order. `running` holds the processes
    spawned and not yet closed, `killed` those the host has sent a kill
    signal to; a killed process keeps running until its `close` event. */
module Supervisor {
  import opened Wrappers
  import opened Strings
  import opened JsText
  import opened Grid
  import opened TrackerSpec
  import opened HostProtocol

  /** One `spawn` call: the process number and the argument list. */
  datatype Spawn = Spawn(pid: nat, args: seq<string>)

  /** The host's view of trackers and its overlay window. */
  datatype Host = Host(
    handle: Option<nat>,     // `mouseTracker`
    window: bool,            // `overlayWindow` exists and is not destroyed
    bounds: Rect,            // `overlayWindow.getBounds()`
    running: set<nat>,
    killed: set<nat>,
    nextPid: nat,
    spawned: seq<Spawn>,
    timers: nat)             // `setTimeout(startMouseTracker, …)` calls not yet fired

  /** Before `app.whenReady`: no window, no tracker. */
  const Launch := Host(None, false, Rect(0, 0, 0, 0), {}, {}, 0, [], 0)

  /** The window `createOverlay` opens. */
  const InitialWindow := Rect(100, 100, 600, 440)

  /** Sends the kill signal to the held process, if any. */
  function KillHeld(h: Host): Host
  {
    if h.handle.Some? then h.(killed := h.killed + {h.handle.value}) else h
  }

  /** `startMouseTracker`: kill and drop the held process, then, while the
      window lives, spawn a tracker with the window's bounds and hold it. */
  function Start(h: Host): (h': Host)
    ensures h'.window == h.window && h'.bounds == h.bounds && h'.timers == h.timers
    ensures h.handle.Some? ==> h.handle.value in h'.killed
    ensures h'.window ==>
      && h'.handle == Some(h.nextPid)
      && h'.running == h.running + {h.nextPid}
      && h'.spawned == h.spawned + [Spawn(h.nextPid, SpawnArgs(h.bounds))]
    ensures !h'.window ==>
      && h'.handle == None
      && h'.running == h.running
      && h'.spawned == h.spawned
  {
    var h1 := KillHeld(h).(handle := None);
    if !h1.window then h1
    else
      h1.(handle := Some(h1.nextPid),
          running := h1.running + {h1.nextPid},
          nextPid := h1.nextPid + 1,
          spawned := h1.spawned + [Spawn(h1.nextPid, SpawnArgs(h1.bounds))])
  }

  /** `restartMouseTracker`: with a held process, kill it (keeping the
      handle) and start again after a delay; without one, start at once. */
  function Restart(h: Host): (h': Host)
    ensures h'.window == h.window && h'.bounds == h.bounds
    ensures h.handle.Some? ==>
      && h'.handle == h.handle && h.handle.value in h'.killed
      && h'.timers == h.timers + 1 && h'.running == h.running && h'.spawned == h.spawned
    ensures h.handle.None? && h.window ==>
      && h'.handle == Some(h.nextPid) && h'.timers == h.timers
      && h'.spawned == h.spawned + [Spawn(h.nextPid, SpawnArgs(h.bounds))]
  {
    if h.handle.Some? then KillHeld(h).(timers := h.timers + 1) else Start(h)
  }

  /** A pending `setTimeout(startMouseTracker, …)` fires. */
  function TimerFires(h: Host): (h': Host)
    requires h.timers > 0
    ensures h'.timers == h.timers - 1 && h'.bounds == h.bounds
    ensures h.handle.Some? ==> h.handle.value in h'.killed
    ensures h.window ==> h'.spawned == h.spawned + [Spawn(h.nextPid, SpawnArgs(h.bounds))]
  {
    Start(h.(timers := h.timers - 1))
  }

  /** `app.whenReady`: the window opens and the first start is scheduled. */
  function Ready(h: Host): (h': Host)
    ensures h'.window && h'.bounds == InitialWindow && h'.timers == h.timers + 1
    ensures h'.handle == h.handle && h'.running == h.running && h'.spawned == h.spawned
  {
    h.(window := true, bounds := InitialWindow, timers := h.timers + 1)
  }

  /** The window is moved or resized, or `set-overlay-bounds` is handled
      while it lives: `b` is what `getBounds()` reports afterwards, and the
      tracker restarts with it. */
  function SetBounds(h: Host, b: Rect): (h': Host)
    ensures !h.window ==> h' == h
    ensures h.window ==> h'.window && h'.bounds == b
    ensures h.window && h.handle.None? ==> h'.spawned == h.spawned + [Spawn(h.nextPid, SpawnArgs(b))]
  {
    if h.window then Restart(h.(bounds := b)) else h
  }

  /** The `close` handler as written: whichever process closed, the handle
      is dropped. */
  function CloseAsWritten(h: Host, pid: nat): (h': Host)
    ensures h'.handle == None && pid !in h'.running && h'.running == h.running - {pid}
  {
    h.(handle := None, running := h.running - {pid})
  }

  /** The `close` handler corrected: the handle is dropped only when it is
      the process that closed. */
  function Close(h: Host, pid: nat): (h': Host)
    ensures pid !in h'.running && h'.running == h.running - {pid}
    ensures h'.handle != Some(pid)
    ensures h.handle != Some(pid) ==> h'.handle == h.handle
  {
    h.(handle := if h.handle == Some(pid) then None else h.handle, running := h.running - {pid})
  }

  /** The window closes (`window-all-closed`, then `will-quit`): the held
      process is killed and dropped, and the window is gone. */
  function ShutDown(h: Host): (h': Host)
    ensures !h'.window && h'.handle == None && h'.running == h.running
    ensures h.handle.Some? ==> h.handle.value in h'.killed
  {
    KillHeld(h).(handle := None, window := false)
  }

  /** The processes still running that nobody has asked to stop. */
  function Unkilled(h: Host): set<nat>
  {
    h.running - h.killed
  }

  /** The single-handle discipline: every running process that has not been
      killed is the held one, the held one is running, and numbers grow. */
  predicate Inv(h: Host)
  {
    && (forall p :: p in Unkilled(h) ==> h.handle == Some(p))
    && (h.handle.Some? ==> h.handle.value in h.running)
    && (forall p :: p in h.running ==> p < h.nextPid)
  }

  lemma LaunchInv()
    ensures Inv(Launch)
  {
  }

  lemma StartInv(h: Host)
    requires Inv(h)
    ensures Inv(Start(h))
  {
    var h' := Start(h);
    forall p | p in Unkilled(h')
      ensures h'.handle == Some(p)
    {
      if p != h.nextPid {
        assert p in Unkilled(h);
      }
    }
  }

  lemma RestartInv(h: Host)
    requires Inv(h)
    ensures Inv(Restart(h))
  {
    if h.handle.None? {
      StartInv(h);
    }
  }

  lemma TimerInv(h: Host)
    requires Inv(h) && h.timers > 0
    ensures Inv(TimerFires(h))
  {
    StartInv(h.(timers := h.timers - 1));
  }

  lemma ReadyInv(h: Host)
    requires Inv(h)
    ensures Inv(Ready(h))
  {
  }

  lemma SetBoundsInv(h: Host, b: Rect)
    requires Inv(h)
    ensures Inv(SetBounds(h, b))
  {
    if h.window {
      RestartInv(h.(bounds := b));
    }
  }

  /** With the corrected handler, a `close` of any running process keeps
      the discipline. */
  lemma CloseInv(h: Host, pid: nat)
    requires Inv(h)
    ensures Inv(Close(h, pid))
  {
    var h' := Close(h, pid);
    forall p | p in Unkilled(h')
      ensures h'.handle == Some(p)
    {
      assert p in Unkilled(h);
    }
  }

  lemma ShutDownInv(h: Host)
    requires Inv(h)
    ensures Inv(ShutDown(h))
  {
  }

  /** Under the discipline at most one tracker runs unkilled. */
  lemma AtMostOneUnkilled(h: Host, p: nat, q: nat)
    requires Inv(h)
    requires p in Unkilled(h) && q in Unkilled(h)
    ensures p == q
  {
  }

  /** Under the discipline quitting leaves no tracker running unkilled, so
      no system-wide hook outlives the host. */
  lemma ShutDownStopsAll(h: Host)
    requires Inv(h)
    ensures Unkilled(ShutDown(h)) == {}
  {
    assert Unkilled(h) <= ShutDown(h).killed;
  }

  /** A start timer still pending when the window has closed spawns
      nothing. */
  lemma NoSpawnAfterShutDown(h: Host)
    requires h.timers > 0
    ensures var h' := ShutDown(h);
      TimerFires(h').spawned == h.spawned && TimerFires(h').running == h.running
  {
  }

  /** A restart spawns the new tracker with the bounds it was given. */
  lemma SetBoundsSpawns(h: Host, b: Rect)
    requires h.window && h.handle.None?
    ensures var h' := SetBounds(h, b);
      && h'.handle == Some(h.nextPid)
      && h'.spawned == h.spawned + [Spawn(h.nextPid, SpawnArgs(b))]
      && ParseArgs(["global_mouse_tracker"] + h'.spawned[|h'.spawned| - 1].args) == b
  {
    SpawnArgsRoundTrip("global_mouse_tracker", b);
  }

  /** The trace that loses the handle as written: the window opens, saved
      bounds restart the tracker at once (process 0), the first start timer
      kills process 0 and spawns process 1, and then process 0's `close`
      drops the handle of process 1. The next bounds change spawns
      process 2 beside process 1, and quitting stops only process 2. */
  lemma LostHandle(saved: Rect, moved: Rect)
    ensures var h1 := SetBounds(Ready(Launch), saved);
      var h2 := TimerFires(h1);
      var h3 := CloseAsWritten(h2, 0);
      var h4 := SetBounds(h3, moved);
      && h2.handle == Some(1) && Unkilled(h2) == {1}
      && h3.handle == None && Unkilled(h3) == {1} && !Inv(h3)
      && Unkilled(h4) == {1, 2}
      && Unkilled(ShutDown(h4)) == {1}
  {
    var h1 := SetBounds(Ready(Launch), saved);
    assert h1.running == {0} && h1.handle == Some(0) && h1.killed == {};
    var h2 := TimerFires(h1);
    assert h2.running == {0, 1} && h2.killed == {0};
    var h3 := CloseAsWritten(h2, 0);
    assert h3.running == {1};
    var h4 := SetBounds(h3, moved);
    assert h4.running == {1, 2} && h4.killed == {0};
  }

  /** The same trace with the corrected handler keeps process 1 held, and
      quitting stops it. */
  lemma KeptHandle(saved: Rect, moved: Rect)
    ensures var h1 := SetBounds(Ready(Launch), saved);
      var h2 := TimerFires(h1);
      var h3 := Close(h2, 0);
      && h3.handle == Some(1)
      && Unkilled(ShutDown(h3)) == {}
  {
    var h1 := SetBounds(Ready(Launch), saved);
    assert h1.running == {0} && h1.handle == Some(0) && h1.killed == {};
    var h2 := TimerFires(h1);
    assert h2.running == {0, 1} && h2.killed == {0};
  }

  /** Parsing one more line appends that line's event, if any. */
  lemma ParseLinesStep(lines: seq<string>, i: nat)
    requires i < |lines|
    ensures var ev := ParseLine(lines[i]);
      ParseLines(lines[..i + 1]) == ParseLines(lines[..i]) + (if ev.Some? then [ev.value] else [])
  {
    assert lines[..i + 1][..i] == lines[..i];
  }

  /** Forwarding one more line appends its event, if any, while the window
      lives, and nothing otherwise. */
  lemma ForwardStep(s0: seq<TileEvent>, alive: bool, lines: seq<string>, i: nat)
    requires i < |lines|
    ensures var ev := ParseLine(lines[i]);
      s0 + (if alive then ParseLines(lines[..i + 1]) else []) ==
        (s0 + (if alive then ParseLines(lines[..i]) else [])) + (if ev.Some? && alive then [ev.value] else [])
  {
    ParseLinesStep(lines, i);
    var ev := ParseLine(lines[i]);
    if alive && ev.Some? {
      AppendAssoc(s0, ParseLines(lines[..i]), [ev.value]);
    } else if alive {
      var d := ParseLines(lines[..i]);
      assert d + [] == d;
    } else {
      assert s0 + [] == s0;
    }
  }

  /** The events a `data` chunk forwards to the overlay. */
  function Forwarded(window: bool, chunk: string): seq<TileEvent>
  {
    if window then ParseChunk(chunk) else []
  }

  /** The host, with the handle discipline and the events it has sent to
      the overlay. */
  class App {
    var handle: Option<nat>
    var window: bool
    var bounds: Rect
    var running: set<nat>
    var killed: set<nat>
    var nextPid: nat
    var spawned: seq<Spawn>
    var timers: nat
    /** The `tile-clicked` messages sent to the overlay, in order. */
    var sent: seq<TileEvent>

    function State(): Host
      reads this
    {
      Host(handle, window, bounds, running, killed, nextPid, spawned, timers)
    }

    constructor ()
      ensures State() == Launch && sent == []
    {
      handle, window, bounds := None, false, Rect(0, 0, 0, 0);
      running, killed, nextPid, spawned, timers := {}, {}, 0, [], 0;
      sent := [];
    }

    /** `startMouseTracker`. */
    method StartMouseTracker()
      modifies this
      ensures State() == Start(old(State())) && sent == old(sent)
    {
      if handle.Some? {
        killed := killed + {handle.value};
        handle := None;
      }
      if !window {
        return;
      }
      var args := SpawnArgs(bounds);
      spawned := spawned + [Spawn(nextPid, args)];
      running := running + {nextPid};
      handle := Some(nextPid);
      nextPid := nextPid + 1;
    }

    /** `restartMouseTracker`. */
    method RestartMouseTracker()
      modifies this
      ensures State() == Restart(old(State())) && sent == old(sent)
    {
      if handle.Some? {
        killed := killed + {handle.value};
        timers := timers + 1;
      } else {
        StartMouseTracker();
      }
    }

    /** `app.whenReady`: `createOverlay` opens the window at its initial
        bounds and the first start is scheduled. */
    method OnReady()
      modifies this
      ensures State() == Ready(old(State())) && sent == old(sent)
    {
      window := true;
      bounds := InitialWindow;
      timers := timers + 1;
    }

    /** The `moved` and `resized` handlers: the window already has the new
        bounds `b`, and the tracker restarts. */
    method OnWindowChanged(b: Rect)
      requires window
      modifies this
      ensures State() == SetBounds(old(State()), b) && sent == old(sent)
    {
      bounds := b;
      RestartMouseTracker();
    }

    /** The `set-overlay-bounds` handler: while the window lives it is
        asked for `requested`, the window system settles on `taken` (what
        `getBounds()` then reports), the tracker restarts with those, and
        the reply is a success; otherwise nothing changes and the reply is
        an error. */
    method SetOverlayBounds(requested: Rect, taken: Rect) returns (success: bool)
      modifies this
      ensures success == old(window)
      ensures State() == SetBounds(old(State()), taken) && sent == old(sent)
    {
      if !window {
        return false;
      }
      bounds := taken;
      RestartMouseTracker();
      return true;
    }

    /** A pending start timer fires. */
    method OnTimer()
      requires timers > 0
      modifies this
      ensures State() == TimerFires(old(State())) && sent == old(sent)
    {
      timers := timers - 1;
      StartMouseTracker();
    }

    /** The corrected `close` handler of process `pid`. */
    method OnClose(pid: nat)
      modifies this
      ensures State() == Close(old(State()), pid) && sent == old(sent)
    {
      if handle == Some(pid) {
        handle := None;
      }
      running := running - {pid};
    }

    /** The window closes: `window-all-closed` kills and drops the held
        process (`will-quit` then finds no handle). */
    method OnQuit()
      modifies this
      ensures State() == ShutDown(old(State())) && sent == old(sent)
    {
      window := false;
      if handle.Some? {
        killed := killed + {handle.value};
        handle := None;
      }
    }

    /** The body of the `data` handler's `forEach` for one line: an event
        when the line starts with the marker and has five tokens or more. */
    static method ReadLine(line: string) returns (ev: Option<TileEvent>)
      ensures ev == ParseLine(line)
    {
      ev := None;
      if StartsWith(line, Marker) {
        var parts := Split(line, ' ');
        if |parts| >= 5 {
          var col := ParseInt(parts[1]);
          var row := ParseInt(parts[2]);
          var x := ParseInt(parts[3]);
          var y := ParseInt(parts[4]);
          ev := Some(TileEvent(col, row, x, y));
        }
      }
    }

    /** The `data` handler: the chunk is trimmed and split on newlines, and
        its lines are handled in order. */
    method OnStdoutData(chunk: string)
      modifies this`sent
      ensures sent == old(sent) + Forwarded(window, chunk)
    {
      var lines := Split(Trim(chunk), '\n');
      ForwardLines(lines);
    }

    /** The `forEach` over the lines of a chunk: each line that starts with
        the marker and has at least five tokens becomes an event, sent on
        while the window lives. */
    method ForwardLines(lines: seq<string>)
      modifies this`sent
      ensures sent == old(sent) + (if window then ParseLines(lines) else [])
    {
      ghost var s0 := sent;
      var alive := window;
      var i := 0;
      while i < |lines|
        invariant 0 <= i <= |lines|
        invariant window == alive
        invariant sent == s0 + (if alive then ParseLines(lines[..i]) else [])
      {
        ForwardStep(s0, alive, lines, i);
        var ev := ReadLine(lines[i]);
        if ev.Some? && window {
          sent := sent + [ev.value];
        }
        i := i + 1;
      }
      assert lines[..|lines|] == lines;
    }
  }
}
