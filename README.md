# rodspot click-to-grid pipeline, in Dafny

rodspot lays a transparent, click-through 15 x 11 grid over a game window.
The overlay ignores the mouse, so a small native tracker process sees each
click instead. That process is one of three C programs: macOS event tap,
Windows low-level hook, or X11 pointer grab. It maps the click's screen
point into a grid cell and prints `TILE_CLICKED <col> <row> <x> <y>`. The
Electron host (`src/main.js`) spawns the tracker with the overlay's bounds,
restarts it whenever the bounds change, and parses its standard output. It
forwards each event to the overlay page (`src/renderer.js`), which
highlights the tile and also runs a two-click calibration of new bounds.

This project models that pipeline and proves what each stage promises, and
what the stages promise together.

- `grid.dfy` (module `Grid`): the rectangle, the cell, and the point-to-cell
  mapping shared by the three trackers. It is proved to be a uniform
  partition of the rectangle with half-open edges, in which the clamp
  never binds.
- `tracker_spec.dfy` (`TrackerSpec`): what the trackers share.
  - The argument parsing, the printed line, and the debounce (a click less
    than 5 px and less than 100 ms from the remembered one is dropped).
  - Specification functions: `Accepted`, `Remembered` and `Emitted` give
    what a tracker lets through and prints for any run of clicks.
- `linux_tracker.dfy`, `mac_tracker.dfy`, `win_tracker.dfy`: one class per
  tracker, whose fields are the C globals.
  - The methods are `printTileAtPoint`, the callback or loop body, the
    event loop and `main`.
  - Each loop is proved against `Emitted`/`Remembered`.
  - On Windows the hook posts a message and the window procedure prints. A
    queue of posted messages models that hand-off, and it is proved to
    print what a direct print would.
- `numerals.dfy`, `ctext.dfy`, `jstext.dfy`, `strings.dfy`: `%d`/`toString`
  rendering, C `atoi`, and JavaScript `trim`, `split`, `startsWith` and
  `parseInt`, with the round trips between them.
- `host_protocol.dfy` (`HostProtocol`): the spawn arguments, and the
  reading of one `data` chunk into events. The round trip is proved:
  whatever a tracker prints reads back as exactly one event per accepted
  click inside the bounds.
- `supervisor.dfy` (`Supervisor`): the host's single `mouseTracker` handle
  across start, restart, timers, `close` and quit, as a state machine.
  - It has an invariant (at most one tracker runs unkilled) and the class
    `App`, whose handlers are proved against the transitions.
  - The `data` handler is a loop proved to forward exactly the parsed
    events while the window lives.
- `renderer.dfy` (`Renderer`): the tile index and layout, the calibration
  state machine of the live document `click` handler, `toggleMenu`, the
  keyboard shortcuts, the highlight bounds check and the saved-bounds
  guard, with the page as class `Overlay`.
- `end_to_end.dfy` (`EndToEnd`): the stages composed, from a click to a
  highlighted tile. It also works through one concrete session: bounds
  100 100 600 440, a click at (400, 320), a miss, a bounce and a restart.

Some points of the code that the model keeps as written:

- Which stream each line goes to:
  - the Linux banner goes to standard output
    (native/global_mouse_tracker_linux.c:59-61);
  - every Windows start-up and failure line goes to standard output
    (native/global_mouse_tracker_win.c:107-120);
  - the macOS banner and tap error go to standard error
    (native/global_mouse_tracker.c:91-93, 106-109);
  - the macOS tile line also goes to standard error
    (native/global_mouse_tracker.c:47; see Findings).
- Arguments are not validated. With fewer than four of them the bounds
  stay (0, 0, 600, 440); a non-numeric one becomes 0 through `atoi`
  (native/global_mouse_tracker_linux.c:46-51 and the same lines in the
  other two trackers).
- Which button events count:
  - macOS counts left and right mouse-downs
    (native/global_mouse_tracker.c:56-58);
  - Windows counts `WM_LBUTTONDOWN` and `WM_RBUTTONDOWN`
    (native/global_mouse_tracker_win.c:57);
  - Linux counts every press and every release of any button
    (native/global_mouse_tracker_linux.c:72).
- The X11 tracker does not check whether the pointer grab succeeded
  (native/global_mouse_tracker_linux.c:66). Only a display that cannot be
  opened ends it with status 1 (:53-57).

## Model

| member | source | states |
|---|---|---|
| Grid.TileAt | native/global_mouse_tracker_linux.c:21-43 | a cell exactly when the point is inside the half-open rectangle, and then its column lies in [0, 15) and its row in [0, 11) |
| Grid.ClampNeverBinds | native/global_mouse_tracker.c:41-45 | for a point inside, the clamps change nothing: the cell is `relX*15/width`, `relY*11/height` |
| Grid.CellSpan | native/global_mouse_tracker.c:34-39 | the point is in cell (c, k) iff it is inside and c fifteenths of the width lie at or before it and c+1 fifteenths after it (likewise rows in elevenths) |
| Grid.OriginCell | native/global_mouse_tracker.c:30-39 | the rectangle's origin is in cell (0, 0) |
| Grid.FarCornerCell | native/global_mouse_tracker.c:34-45 | the last pixel is in cell (14, 10) iff the rectangle is at least 15 wide and 11 high |
| Grid.ColumnMonotone | native/global_mouse_tracker.c:38 | a point further right is never in an earlier column |
| Grid.RowMonotone | native/global_mouse_tracker.c:39 | a point further down is never in an earlier row |
| Grid.EmptyRectHitsNothing | native/global_mouse_tracker.c:25-28 | bounds with no width or height contain no point, so the divisions are never reached |
| Grid.EveryCellReachable | native/global_mouse_tracker.c:34-45 | in a rectangle of at least 15 x 11 every cell is hit, at its first pixel |
| Numerals.NatToDecimalValue | native/global_mouse_tracker_linux.c:41 | the `%d` numeral is non-empty, all decimal digits, and denotes the number |
| Numerals.NatToDecimalLength | native/global_mouse_tracker_win.c:49 | a number below 10^k takes at most k digits |
| Numerals.IntToDecimalShape | native/global_mouse_tracker_linux.c:41 | a rendered integer is an optional '-' (exactly for negatives) followed by digits |
| CText.Atoi | native/global_mouse_tracker_linux.c:46-51 | `atoi`: white space skipped, an optional sign, the longest digit run; the result is negative only after a minus sign |
| CText.AtoiOfDecimal | native/global_mouse_tracker_linux.c:46-51 | `atoi` reads back every integer rendered in decimal |
| CText.AtoiNonNumeric | native/global_mouse_tracker.c:84-89 | an argument not starting with white space, a sign or a digit becomes 0 |
| JsText.ParseInt | src/main.js:107-110 | `parseInt` without a radix: white space skipped, an optional sign, a `0x` prefix for hexadecimal, the longest digit run, NaN without digits; negative only after a minus sign, and blank text is NaN |
| JsText.Trim | src/main.js:99 | `trim`: the result is no longer than the text, starts and ends with no white space, and is empty exactly when the text is all white space |
| JsText.ParseIntOfDecimal | src/main.js:107-110 | `parseInt` reads back every integer the tracker prints |
| JsText.ParseIntNonNumeric | src/main.js:107-110 | a token that starts with no white space, sign or digit is NaN |
| JsText.TrimLines | src/main.js:99 | trimming a stream of lines with no outer white space leaves the lines joined by newlines |
| Strings.Split | src/main.js:99-105 | `split` on one character: at least one piece, and no piece holds the separator |
| Strings.StartsWith | src/main.js:104 | `startsWith`: true iff the text is at least as long as the prefix and agrees with it character by character |
| Strings.SplitJoin | src/main.js:105 | `split` undoes a join when no piece holds the separator |
| Strings.JoinSplit | src/main.js:99 | joining the pieces of a `split` gives the string back |
| Strings.SplitAround | src/main.js:105 | splitting distributes over a separator |
| Strings.UnlinesJoin | native/global_mouse_tracker_linux.c:41 | a stream of newline-terminated lines is the lines joined by newlines plus a final newline |
| TrackerSpec.ParseArgs | native/global_mouse_tracker_linux.c:46-51 | with fewer than four arguments after the program name the bounds stay (0, 0, 600, 440); otherwise each is `atoi` of its argument |
| TrackerSpec.TileText | native/global_mouse_tracker_linux.c:41 | the printed text: `TILE_CLICKED`, then column, row, x and y in decimal, separated by single spaces |
| TrackerSpec.PointOutput | native/global_mouse_tracker_linux.c:21-43 | `printTileAtPoint` writes something iff the point is inside the bounds, and what it writes ends in a newline |
| TrackerSpec.IsRepeat | native/global_mouse_tracker_linux.c:78-81 | a click repeats the remembered one when it is less than 5 px away and less than 100 ms later (on Windows, by the 32-bit unsigned tick difference) |
| TrackerSpec.Remembered | native/global_mouse_tracker_linux.c:83-85 | the click remembered after a run is the start click or one of the run's clicks |
| TrackerSpec.Accepted | native/global_mouse_tracker_linux.c:78-85 | the debounce never lets through more clicks than it was given |
| TrackerSpec.Emitted | native/global_mouse_tracker_linux.c:69-91 | what a tracker prints for a run of clicks: one line per accepted click inside the bounds, in order |
| TrackerSpec.AcceptedStep | native/global_mouse_tracker_linux.c:78-85 | one more click is accepted and becomes the remembered click iff it does not repeat the remembered one; otherwise neither changes |
| TrackerSpec.EmittedStep | native/global_mouse_tracker_linux.c:78-90 | one more click adds what `printTileAtPoint` prints for it iff the debounce lets it through |
| TrackerSpec.RememberedIsLastAccepted | native/global_mouse_tracker_linux.c:83-85 | the remembered click is always the last accepted one, or the initial one if none |
| TrackerSpec.AcceptedAreSpaced | native/global_mouse_tracker.c:61-64 | no accepted click repeats the click accepted before it |
| TrackerSpec.AcceptedFromInput | native/global_mouse_tracker.c:61-67 | the debounce only drops clicks: every accepted click is an input click |
| TrackerSpec.DistantClickAccepted | native/global_mouse_tracker_win.c:65-68 | a click at least 5 px or 100 ms from the remembered one is always accepted and remembered |
| TrackerSpec.DwordElapsed | native/global_mouse_tracker_win.c:61-65 | the unsigned difference of 32-bit tick counts is the true elapsed time across a wrap |
| TrackerSpec.PointOutputLines | native/global_mouse_tracker_linux.c:21-43 | what `printTileAtPoint` prints is the line stream of the click's hit text |
| HostProtocol.SpawnArgs | src/main.js:91-96 | four non-empty arguments, x, y, width and height through `toString` |
| HostProtocol.ParseChunk | src/main.js:98-119 | a chunk is trimmed, split on newlines and read line by line; an all-white-space chunk gives no event |
| HostProtocol.ParseLine | src/main.js:104-110 | a line is an event iff it starts with `TILE_CLICKED` and has at least five space-separated tokens |
| HostProtocol.SpawnArgsRoundTrip | src/main.js:91-96 | a tracker spawned with the bounds' `toString` arguments tracks exactly those bounds |
| HostProtocol.DecimalHasNoSeparator | src/main.js:105 | a rendered integer holds no space and no newline, so the tokens survive the splits |
| HostProtocol.TileTextTokens | native/global_mouse_tracker_linux.c:41 | the printed line is its five tokens joined by spaces |
| HostProtocol.ParseFiveTokens | src/main.js:105-110 | tokens 1 to 4 become column, row, x and y, in that order |
| HostProtocol.ParseTileText | src/main.js:104-110 | the host reads back exactly the column, row, x and y a tracker printed |
| HostProtocol.TrailingTokensIgnored | src/main.js:106-110 | tokens after the fifth do not change the event |
| HostProtocol.TileTextShape | native/global_mouse_tracker_linux.c:41 | a printed line starts with 'T', holds no newline and ends with a digit |
| HostProtocol.ParseHitTexts | src/main.js:100-118 | reading the printed lines one by one gives one event per hit, in order |
| HostProtocol.ChunkRoundTrip | src/main.js:98-119 | a chunk of whole printed lines reads as the events of those hits |
| HostProtocol.ChunkOfPlainLines | src/main.js:99 | a chunk of whole printed lines is split back into exactly those lines |
| HostProtocol.EmittedRoundTrip | src/main.js:98-119 | whatever a tracker prints for a run of clicks reads back as the events of the accepted clicks inside its bounds |
| HostProtocol.NoMarkerNoEvents | src/main.js:104 | lines not starting with the marker give no events |
| HostProtocol.ChunkWithoutMarker | src/main.js:99-104 | a chunk of diagnostic lines yields no event |
| HostProtocol.EmptyChunk | src/main.js:99 | an empty chunk yields no event |
| LinuxTracker.IsCandidate | native/global_mouse_tracker_linux.c:72 | every button press and every button release is a click |
| LinuxTracker.Clicks | native/global_mouse_tracker_linux.c:70-76 | the clicks of a run of events, in order; never more than the events |
| LinuxTracker.Tracker.constructor | native/global_mouse_tracker_linux.c:12-19 | the globals start at bounds (0, 0, 600, 440) and remembered click (0, 0) at time 0 |
| LinuxTracker.Tracker.PrintTileAtPoint | native/global_mouse_tracker_linux.c:21-43 | standard output grows by the line for the cell under the point, or by nothing outside |
| LinuxTracker.Tracker.ReadArgs | native/global_mouse_tracker_linux.c:46-51 | the bounds become the `atoi` values of argv[1..4] when there are four arguments, else stay the defaults |
| LinuxTracker.Tracker.HandleEvent | native/global_mouse_tracker_linux.c:72-91 | a press or release not repeating the remembered click is remembered and printed if inside; anything else changes nothing |
| LinuxTracker.LoopStep | native/global_mouse_tracker_linux.c:69-91 | one pass of the loop extends the output and the remembered click as the specification functions do |
| LinuxTracker.Tracker.EventLoop | native/global_mouse_tracker_linux.c:68-92 | after any run of events, standard output has grown by `Emitted` of the candidate clicks and the remembered click is `Remembered` |
| LinuxTracker.Tracker.Run | native/global_mouse_tracker_linux.c:45-92 | without a display: status 1, the error on standard error, nothing on standard output; otherwise the banner, then every hit |
| LinuxTracker.BannerHasNoEvents | native/global_mouse_tracker_linux.c:59-61 | the start-up banner never reads as a tile click on the host |
| MacTracker.IsCandidate | native/global_mouse_tracker.c:56-58 | left and right mouse-downs are clicks |
| MacTracker.Clicks | native/global_mouse_tracker.c:50-58 | the clicks of a run of tap events, in order; never more than the events |
| MacTracker.Tracker.constructor | native/global_mouse_tracker.c:14-21 | the globals start at bounds (0, 0, 600, 440) and remembered click (0, 0) at time 0 |
| MacTracker.Tracker.TileLine | native/global_mouse_tracker.c:31-47 | for a point inside, the line is the one for the cell under it |
| MacTracker.Tracker.PrintTileAtPointAsWritten | native/global_mouse_tracker.c:23-48 | the line for the cell under the point goes to standard error |
| MacTracker.Tracker.PrintTileAtPoint | native/global_mouse_tracker.c:23-48 | corrected: the same line goes to standard output |
| MacTracker.Tracker.MouseCallbackAsWritten | native/global_mouse_tracker.c:50-81 | a left/right mouse-down not repeating the remembered click is remembered and its line goes to standard error; standard output never changes; the event is passed on |
| MacTracker.Tracker.MouseCallback | native/global_mouse_tracker.c:50-81 | corrected: the same, with the line on standard output |
| MacTracker.LoopStep | native/global_mouse_tracker.c:57-78 | one callback extends the output and the remembered click as the specification functions do |
| MacTracker.Tracker.EventLoopAsWritten | native/global_mouse_tracker.c:116-119 | after any run of tap events, standard error has grown by `Emitted` of the mouse-downs, standard output is unchanged, and the remembered click is `Remembered` |
| MacTracker.Tracker.EventLoop | native/global_mouse_tracker.c:116-119 | corrected: after any run of tap events, standard output has grown by `Emitted` of the mouse-downs and the remembered click is `Remembered` |
| MacTracker.Tracker.ReadArgs | native/global_mouse_tracker.c:84-89 | the bounds become the `atoi` values of argv[1..4] when there are four arguments, else stay the defaults |
| MacTracker.Tracker.RunAsWritten | native/global_mouse_tracker.c:83-119 | the banner on standard error; without a tap, status 1 and the permission error; otherwise every hit also on standard error, and standard output is never written |
| MacTracker.Tracker.Run | native/global_mouse_tracker.c:83-119 | corrected: the banner on standard error; without a tap, status 1 and the permission error; otherwise every hit on standard output |
| MacTracker.LostClick | native/global_mouse_tracker.c:47 | a first left click at (400, 320) in (100, 100, 600, 440) prints a line the host would read as event (7, 5, 400, 320), while the empty standard output yields nothing |
| WinTracker.IsCandidate | native/global_mouse_tracker_win.c:54-57 | an action-code call for a left or right button-down is a click |
| WinTracker.Clicks | native/global_mouse_tracker_win.c:53-60 | the clicks of a run of hook calls, in order; never more than the calls |
| WinTracker.Tracker.constructor | native/global_mouse_tracker_win.c:11-19 | the globals start at bounds (0, 0, 600, 440), remembered click (0, 0) at tick 0, no window |
| WinTracker.Tracker.PrintTileAtPoint | native/global_mouse_tracker_win.c:28-51 | standard output grows by the line for the cell under the point, or by nothing outside |
| WinTracker.LineFitsBuffer | native/global_mouse_tracker_win.c:48-49 | the line for any cell and 32-bit coordinates takes at most 43 characters, so the 128-byte buffer never truncates it |
| WinTracker.Tracker.MouseProc | native/global_mouse_tracker_win.c:53-79 | with the window in place, an action-code button-down at least 5 px or 100 ticks from the remembered click is remembered and, if inside, posted; without the window nothing changes |
| WinTracker.Tracker.WndProc | native/global_mouse_tracker_win.c:81-87 | the click message is handled and prints its tile; every other message is left to the default procedure |
| WinTracker.Tracker.DispatchPosted | native/global_mouse_tracker_win.c:124-127 | the queue is drained, oldest first, through the window procedure |
| WinTracker.HandOff | native/global_mouse_tracker_win.c:70-73 | posting a hit and printing it in the window procedure prints what printing it in the hook would |
| WinTracker.DeliverOne | native/global_mouse_tracker_win.c:126 | dispatching one more message appends what the window procedure prints for it |
| WinTracker.LoopStep | native/global_mouse_tracker_win.c:53-87 | one hook call, once its posts are delivered, extends the output and the remembered click as the specification functions do |
| WinTracker.Tracker.HandleCall | native/global_mouse_tracker_win.c:124-127 | one hook call, with what it posted dispatched, remembers as `NextLast` and prints what the window procedure prints for its posts, leaving the queue empty |
| WinTracker.Tracker.EventLoop | native/global_mouse_tracker_win.c:123-127 | after any run of hook calls, standard output has grown by `Emitted` (32-bit tick clock) and the remembered click is `Remembered` |
| WinTracker.Tracker.ReadArgs | native/global_mouse_tracker_win.c:90-95 | the bounds become the `atoi` values of argv[1..4] when there are four arguments, else stay the defaults |
| WinTracker.Tracker.StartUp | native/global_mouse_tracker_win.c:106-121 | without a window: status 1 and its error; without a hook: status 1 after the started line; otherwise the started and installed lines |
| WinTracker.Tracker.Run | native/global_mouse_tracker_win.c:89-127 | start-up as above, then every hit of the message loop on standard output |
| WinTracker.WindowFailureHasNoEvents | native/global_mouse_tracker_win.c:108 | the window failure line never reads as a tile click |
| WinTracker.HookFailureHasNoEvents | native/global_mouse_tracker_win.c:112-117 | the lines of a hook failure never read as a tile click |
| WinTracker.StartupHasNoEvents | native/global_mouse_tracker_win.c:112-121 | the lines of a successful start never read as a tile click |
| Supervisor.Start | src/main.js:78-96 | the held tracker is killed; while the window lives a new one is spawned with the window's bounds and held, otherwise nothing is held or spawned |
| Supervisor.Restart | src/main.js:136-143 | with a held tracker, it is killed, the handle is kept and one start is scheduled; without one, a tracker is spawned at once while the window lives |
| Supervisor.TimerFires | src/main.js:136-143 | a pending start fires: the held tracker is killed and, while the window lives, a tracker with the window's bounds is spawned |
| Supervisor.Ready | src/main.js:190-195 | the window opens at (100, 100, 600, 440) and one start is scheduled; trackers are untouched |
| Supervisor.SetBounds | src/main.js:167-177 | with no window nothing changes; otherwise the window has the new bounds, and without a held tracker one is spawned at once with those bounds |
| Supervisor.CloseAsWritten | src/main.js:125-128 | as written: the closed process stops running and the handle is dropped, whichever process closed |
| Supervisor.Close | src/main.js:125-128 | corrected: the closed process stops running; the handle is dropped only if it was that process, and is otherwise kept |
| Supervisor.ShutDown | src/main.js:203-218 | the window is gone, the held tracker is killed and the handle dropped |
| Supervisor.LaunchInv | src/main.js:6-7 | the host starts with the single-handle discipline |
| Supervisor.StartInv | src/main.js:78-96 | `startMouseTracker` keeps the discipline |
| Supervisor.RestartInv | src/main.js:136-143 | `restartMouseTracker` keeps the discipline |
| Supervisor.TimerInv | src/main.js:139 | a delayed start keeps the discipline |
| Supervisor.ReadyInv | src/main.js:190-195 | opening the window and scheduling the first start keeps the discipline |
| Supervisor.SetBoundsInv | src/main.js:167-177 | a bounds change (moved, resized, `set-overlay-bounds`) keeps the discipline |
| Supervisor.CloseInv | src/main.js:125-128 | with the corrected handler, any tracker's `close` keeps the discipline |
| Supervisor.ShutDownInv | src/main.js:203-218 | quitting keeps the discipline |
| Supervisor.AtMostOneUnkilled | src/main.js:78-82 | under the discipline at most one tracker runs unkilled |
| Supervisor.ShutDownStopsAll | src/main.js:203-218 | under the discipline quitting leaves no tracker running unkilled |
| Supervisor.NoSpawnAfterShutDown | src/main.js:84 | a start timer firing after the window closed spawns nothing |
| Supervisor.SetBoundsSpawns | src/main.js:91-96 | a restart without a held tracker spawns one at once, and it tracks exactly the new bounds |
| Supervisor.LostHandle | src/main.js:125-128 | as written, a launch with saved bounds loses the handle of a live tracker; the next bounds change runs two trackers and quitting leaves one unkilled |
| Supervisor.KeptHandle | src/main.js:125-128 | with the corrected handler the same trace keeps the live tracker held and quitting stops it |
| Supervisor.ForwardStep | src/main.js:100-116 | forwarding one more line appends its event, if any, while the window lives, and nothing otherwise |
| Supervisor.App.constructor | src/main.js:6-7 | no window, no tracker, nothing sent |
| Supervisor.App.StartMouseTracker | src/main.js:78-96 | the host's state moves as `Start` |
| Supervisor.App.RestartMouseTracker | src/main.js:136-143 | with a held tracker it is killed and a start is scheduled; without one a start happens at once |
| Supervisor.App.OnReady | src/main.js:190-201 | the window opens at (100, 100, 600, 440) and one start is scheduled |
| Supervisor.App.OnWindowChanged | src/main.js:60-72 | the window's new bounds are taken and the tracker restarts |
| Supervisor.App.SetOverlayBounds | src/main.js:167-177 | success iff the window lives, and then the bounds the window settles on are taken and the tracker restarts with them; otherwise nothing changes |
| Supervisor.App.OnTimer | src/main.js:195 | a pending start fires |
| Supervisor.App.OnClose | src/main.js:125-128 | corrected: the closed tracker stops running, and the handle is dropped only if it was that tracker |
| Supervisor.App.OnQuit | src/main.js:203-207 | the window is gone and the held tracker is killed and dropped |
| Supervisor.App.ReadLine | src/main.js:104-111 | the event of one output line, as `ParseLine` specifies it |
| Supervisor.App.OnStdoutData | src/main.js:98-100 | a chunk forwards exactly its parsed events, in order, while the window lives, and nothing otherwise |
| Supervisor.App.ForwardLines | src/main.js:100-118 | the lines' events are sent in order while the window lives |
| Renderer.TileIndex | src/renderer.js:211 | a cell of the grid has an index in [0, 165) |
| Renderer.TilePlace | src/renderer.js:34-35 | an index in [0, 165) is laid out in a cell of the grid |
| Renderer.PlaceOfIndex | src/renderer.js:34-35 | every cell has an index in [0, 165), and the layout puts the tile at that index back in that cell |
| Renderer.IndexOfPlace | src/renderer.js:211 | every index is the index of the cell it is laid out in |
| Renderer.CalibratedBounds | src/renderer.js:161-166 | the selected width and height are never negative |
| Renderer.CornersOfBounds | src/renderer.js:161-166 | the two clicks are opposite corners: the edges are exactly their x values and their y values |
| Renderer.BoundsOrderFree | src/renderer.js:161-166 | either click order selects the same bounds |
| Renderer.CalibrationClick | src/renderer.js:141-181 | the first corner is known in the second step; bounds come out iff the click was the second corner |
| Renderer.TwoClicksCalibrate | src/renderer.js:151-181 | after `startCalibration`, two clicks select the bounds they span and end calibration; a third changes nothing |
| Renderer.IdleClickIgnored | src/renderer.js:141 | without calibration a click changes nothing |
| Renderer.Toggle | src/renderer.js:61-68 | the controls flip and the drag handle follows them |
| Renderer.ToggleTwice | src/renderer.js:61-68 | toggling twice restores the menu |
| Renderer.KeyOf | src/renderer.js:218-224 | 'c' or 'C' starts calibration, 'm' or 'M' toggles the menu, in both directions |
| Renderer.HighlightTarget | src/renderer.js:210-211 | a tile is targeted iff column and row are numbers in the grid, and its index is in [0, 165) |
| Renderer.HighlightsNamedTile | src/renderer.js:210-213 | the targeted tile is the one laid out in the event's cell |
| Renderer.TrackedClickHighlights | src/renderer.js:207-216 | a click a tracker reports inside its bounds highlights the tile of the cell under it |
| Renderer.RestoresSaved | src/renderer.js:238 | saved bounds are restored only when present with every field non-zero |
| Renderer.LeftEdgeNotRestored | src/renderer.js:238 | saved bounds at the left screen edge (x = 0) are not restored |
| Renderer.Overlay.constructor | src/renderer.js:7-8 | no tiles, calibration off, menu shown, nothing sent |
| Renderer.Overlay.CreateGrid | src/renderer.js:10-26 | 165 tiles, row by row, and the tile at each index is the one the layout places there |
| Renderer.Overlay.StartCalibration | src/renderer.js:72-83 | the first corner is awaited with both points cleared, the prompt shows, and full screen is requested |
| Renderer.Overlay.OnDocumentClick | src/renderer.js:139-184 | the calibration moves as `CalibrationClick`; the second corner sends the bounds and shows them; the first shows the second prompt |
| Renderer.Overlay.ToggleMenu | src/renderer.js:61-68 | the menu moves as `Toggle` |
| Renderer.Overlay.OnKeyDown | src/renderer.js:218-224 | each key has its action and nothing else changes |
| Renderer.Overlay.OnTileClicked | src/renderer.js:207-216 | an in-range event highlights the tile at its index when that tile exists; anything else highlights nothing |
| Renderer.Overlay.OnSavedBounds | src/renderer.js:237-243 | bounds with every field non-zero are sent to the host and announced; otherwise nothing happens |
| EndToEnd.HitEventsTracked | native/global_mouse_tracker_linux.c:87-90 | every event formed from a tracker's lines stands for a click inside its bounds, in the cell under it |
| EndToEnd.TrackedEventHighlights | src/renderer.js:210-213 | such an event passes the overlay's bounds check and highlights the clicked cell's tile |
| EndToEnd.TrackerToOverlay | src/main.js:98-119 | whatever a tracker prints is one event per accepted click inside its bounds, and each highlights a tile |
| EndToEnd.InitialTrackerBounds | src/main.js:36-40 | the first tracker tracks (100, 100, 600, 440) |
| EndToEnd.SampleCell | native/global_mouse_tracker.c:35-39 | (400, 320) in (100, 100, 600, 440) is in column 7, row 5 |
| EndToEnd.SampleHitLine | native/global_mouse_tracker_linux.c:41 | that click prints `TILE_CLICKED 7 5 400 320` |
| EndToEnd.FirstClickEvents | src/main.js:98-119 | a first click that the debounce lets through reaches the host as its event |
| EndToEnd.SampleHitEvent | src/main.js:104-110 | the host reads it as event (7, 5, 400, 320) |
| EndToEnd.SampleHighlight | src/renderer.js:210-213 | that event highlights tile 82, laid out at row 5, column 7 |
| EndToEnd.SampleMiss | native/global_mouse_tracker_linux.c:87-90 | a click at (50, 50) prints nothing |
| EndToEnd.SampleRestartBounds | src/main.js:91-96 | after a change to (0, 0, 300, 220) the new tracker tracks those bounds |
| EndToEnd.SampleAfterRestart | native/global_mouse_tracker_linux.c:87-90 | (400, 320) then prints nothing |
| EndToEnd.SampleBounce | native/global_mouse_tracker_linux.c:78-81 | a second event 2 px away and 50 ms later is dropped |
| EndToEnd.CutHeadLost | src/main.js:99-106 | the head of a line cut by a chunk boundary yields no event |
| EndToEnd.CutTailLost | src/main.js:99-104 | the tail of a cut line yields no event |
| EndToEnd.OneLineChunk | src/main.js:99 | a chunk of one line with no outer white space reads as that line |
| EndToEnd.FewTokensNoEvent | src/main.js:106 | a marker line with only three tokens yields no event |
| EndToEnd.PaddedQuietLine | src/main.js:99-104 | a non-marker line between a space and a newline yields no event |

## Left out

- Grid.TileAt: computes the cell as `relX*15/width` in exact integers. The trackers divide by a `float` tile width, which can land one cell off exactly at a cell edge; the model's clamp is kept as written, and `Grid.ClampNeverBinds` shows it never binds.
- Grid.TileAt: takes the bounds, the point and the sums `x + width` and `y + height` as unbounded integers. The trackers compute those sums in 32-bit `int`, which overflows for bounds near 2^31 (native/global_mouse_tracker.c:25-26 and 70-71, native/global_mouse_tracker_linux.c:22-23 and 87-88, native/global_mouse_tracker_win.c:29-30 and 70-71). The containment and cell results hold in C only while these fit in 32 bits.
- CText.Atoi: returns the unbounded value of the digits. C's `atoi` of a numeral outside the `int` range is undefined behaviour. So `CText.AtoiOfDecimal`, `HostProtocol.SpawnArgsRoundTrip` and `Supervisor.SetBoundsSpawns` hold in C only for bounds that fit in 32 bits.
- TrackerSpec.IsRepeat: compares the squared distance with 25 instead of `sqrt(pow(...)) < 5`. These agree on integer points. Times are integer milliseconds: `CFAbsoluteTimeGetCurrent()` seconds, Linux `clock()` (processor time, not wall time) and `GetTickCount()` are not modelled as such. The model takes whatever the clock reads. On Linux that is processor time, which barely advances while `XNextEvent` blocks. So a click within 5 px of the remembered one is usually dropped however much wall time has passed, and so is the release that follows a press at the same point (native/global_mouse_tracker_linux.c:76-81).
- MacTracker.Tracker.MouseCallback: remembers the truncated integer point. The source remembers the `CGPoint` location as floating point.
- WinTracker.Tracker.MouseProc: `dx*dx + dy*dy` is unbounded here, while the source's 32-bit `int` can overflow for points more than about 32768 px apart. The `CallNextHookEx` result is not modelled.
- The OS hooks themselves are parameters, as a run of events or hook calls: the X server, the Core Graphics event tap and the Win32 hook. So are the display/tap/window/hook failures, as booleans. The endless loops are modelled over a finite run, and `status` is None while they run.
- The Win32 `CRITICAL_SECTION`, the threads the hook runs on, `_setmode`, `DefWindowProc`, and a `PostMessage` that fails are not modelled: hook and window procedure run one after the other.
- Output buffering: lines are written whole, with no `fflush` semantics.
- The unreachable clean-up code after each endless loop.
- JsText.ParseInt: gives an unbounded integer, with no `-0`, no loss of precision above 2^53 and no radix argument.
- Supervisor.App.OnStdoutData: each chunk is parsed on its own, as the source does. `EndToEnd.TrackerToOverlay` assumes a tracker's output arrives as one chunk; `EndToEnd.CutHeadLost` and `EndToEnd.CutTailLost` show what a cut line costs.
- Supervisor.SetBounds: the bounds the window settles on (what `getBounds()` reports, src/main.js:61, 68, 86 and 171) are an input. How the window system may adjust the bounds `setBounds` asks for (src/main.js:170), by clamping, a minimum size or scaling, is not modelled. `Supervisor.App.SetOverlayBounds` takes both the requested and the settled bounds.
- Supervisor: process ids are spawn numbers. A `close` event may arrive for any running process at any time; no ordering of OS events is modelled. Timer delays (100 ms, 1000 ms) are a count of pending starts.
- Supervisor: not modelled:
  - the `error` event of a spawn that fails;
  - the stderr and console logging;
  - `saveBounds`/`loadSavedBounds` and their file I/O;
  - `sendBoundsToRenderer`;
  - the `set-fullscreen` and `set-normal-size` handlers;
  - `globalShortcut`, `focus`;
  - the `window-all-closed` platform check (`app.quit` on all but macOS).
- Renderer: not modelled:
  - pixel layout and styling (`updateTilePositions`' sizes, cursor, background, pointer events);
  - the 15 s status timer and the 10 s highlight timer;
  - the resize listener and the `bounds-changed` log;
  - `Math.round` (the modelled clicks are integer client points).
- Renderer: `handleCalibrationClick` (src/renderer.js:85-137) is registered nowhere, so it is not modelled.
- Renderer.Overlay.OnSavedBounds: the saved object is a rectangle or nothing. A saved JSON object with missing or non-numeric fields is not modelled.
- `setIgnoreMouseEvents(true)` (src/main.js:56) makes the document `click` handler unreachable while the overlay passes clicks through. The handler is modelled as written, on the clicks it would receive.
- native/click_helper.c, the scripts under scripts/ and src/preload.js are not part of this model.

## Findings

| source | as written | input that shows it | evidently intended | confidence | as-written member | corrected member |
|---|---|---|---|---|---|---|
| native/global_mouse_tracker.c:47 | the macOS tracker prints the `TILE_CLICKED` line with `fprintf(stderr, …)`, while the host parses only standard output and merely logs standard error (src/main.js:98-123) | a first left click at (400, 320) with bounds 100 100 600 440: the line `TILE_CLICKED 7 5 400 320` goes to standard error, standard output stays empty, and no tile is highlighted | print the line on standard output, as the Linux and Windows trackers do | not executed | MacTracker.Tracker.MouseCallbackAsWritten | MacTracker.Tracker.MouseCallback |
| src/main.js:125-128 | the `close` handler sets `mouseTracker = null` whichever tracker closed, including one already replaced | saved bounds are restored at launch: `set-overlay-bounds` finds no tracker and spawns tracker 0 at once; the 1000 ms start timer kills 0 and spawns 1; 0's `close` then drops the handle of 1; the next move spawns 2 beside 1, and quitting kills only 2, leaving 1's system-wide hook running | drop the handle only when the closing tracker is the held one | not executed | Supervisor.LostHandle | Supervisor.App.OnClose |

In the first row, `MacTracker.LostClick` exhibits the click. `MacTracker.Tracker.EventLoopAsWritten` and `MacTracker.Tracker.RunAsWritten` are the run loop and `main` as written: whatever the clicks, standard output is never written. `MacTracker.Tracker.EventLoop` and `MacTracker.Tracker.Run` are the same with the corrected callback.

In the second row, `Supervisor.CloseAsWritten` is the handler as written. `Supervisor.Close`, `Supervisor.CloseInv` and `Supervisor.KeptHandle` prove the corrected one keeps at most one tracker unkilled and lets quitting stop it.
