/** What the three native trackers share: the bounds they read from their
    arguments, the `TILE_CLICKED` line they print for a hit, and the
    click debounce they apply before mapping a click. */
module TrackerSpec {
  import opened Wrappers
  import opened Numerals
  import opened Strings
  import opened CText
  import opened Grid

  /** The bounds a tracker uses when it is started without four arguments. */
  const DefaultBounds := Rect(0, 0, 600, 440)

  /** `main`'s argument handling: `argv[0]` is the program, and only when
      there are at least four more do `argv[1..4]` replace the defaults,
      each through `atoi`. */
  function ParseArgs(argv: seq<string>): (b: Rect)
  {
    if |argv| >= 5 then Rect(Atoi(argv[1]), Atoi(argv[2]), Atoi(argv[3]), Atoi(argv[4]))
    else DefaultBounds
  }

  /** The three lines `main` prints once its hook is in place (on standard
      output on Linux, on standard error on macOS). */
  function Banner(b: Rect): string
  {
    Unlines(["Mouse tracker started", BoundsLine(b), "Monitoring for clicks..."])
  }

  function BoundsLine(b: Rect): string
  {
    "Overlay bounds: x=" + IntToDecimal(b.x) + " y=" + IntToDecimal(b.y) +
    " w=" + IntToDecimal(b.width) + " h=" + IntToDecimal(b.height)
  }

  /** The text of `"TILE_CLICKED %d %d %d %d"` with column, row, x and y. */
  function TileText(c: Cell, x: int, y: int): string
  {
    "TILE_CLICKED " + IntToDecimal(c.col) + " " + IntToDecimal(c.row) + " " +
    IntToDecimal(x) + " " + IntToDecimal(y)
  }

  /** What `printTileAtPoint(x, y)` writes: one newline-terminated line for a
      point inside the bounds, nothing for a point outside. */
  function PointOutput(r: Rect, x: int, y: int): (out: string)
    ensures out != "" <==> Contains(r, x, y)
    ensures out != "" ==> out[|out| - 1] == '\n'
  {
    match TileAt(r, x, y)
    case None => ""
    case Some(c) => TileText(c, x, y) + "\n"
  }

  /** A mouse click as the debounce sees it: the point and the time in
      milliseconds. */
  datatype Click = Click(x: int, y: int, time: int)

  /** The remembered click every tracker starts from: point (0, 0) at time 0. */
  const Initial := Click(0, 0, 0)

  /** How the elapsed time since the remembered click is computed: a plain
      difference of timestamps (macOS, Linux) or a difference of 32-bit
      `GetTickCount` values in unsigned arithmetic (Windows). */
  datatype Clock = Plain | Dword

  const TickModulus: int := 0x1_0000_0000

  function Elapsed(clock: Clock, now: int, earlier: int): int
  {
    match clock
    case Plain => now - earlier
    case Dword => (now - earlier) % TickModulus
  }

  /** A click repeats the remembered one when it is less than 5 pixels away
      (squared distance below 25) and less than 100 ms later. */
  predicate IsRepeat(clock: Clock, last: Click, c: Click)
  {
    DistanceSq(last, c) < 25 && Elapsed(clock, c.time, last.time) < 100
  }

  function DistanceSq(a: Click, b: Click): int
  {
    (b.x - a.x) * (b.x - a.x) + (b.y - a.y) * (b.y - a.y)
  }

  /** The remembered click after a run of clicks. */
  function Remembered(clock: Clock, last: Click, clicks: seq<Click>): (m: Click)
    ensures m == last || m in clicks
  {
    if |clicks| == 0 then last
    else
      var prev := Remembered(clock, last, clicks[..|clicks| - 1]);
      var c := clicks[|clicks| - 1];
      if IsRepeat(clock, prev, c) then prev else c
  }

  /** The clicks the debounce lets through, in order. */
  function Accepted(clock: Clock, last: Click, clicks: seq<Click>): (a: seq<Click>)
    ensures |a| <= |clicks|
  {
    if |clicks| == 0 then []
    else
      var prev := Remembered(clock, last, clicks[..|clicks| - 1]);
      var c := clicks[|clicks| - 1];
      Accepted(clock, last, clicks[..|clicks| - 1]) + if IsRepeat(clock, prev, c) then [] else [c]
  }

  /** The line text printed for one accepted click: none outside the bounds. */
  function HitText(r: Rect, c: Click): seq<string>
  {
    match TileAt(r, c.x, c.y)
    case None => []
    case Some(cell) => [TileText(cell, c.x, c.y)]
  }

  /** The line texts printed for a run of accepted clicks, in order. */
  function HitTexts(r: Rect, clicks: seq<Click>): seq<string>
  {
    if |clicks| == 0 then []
    else HitTexts(r, clicks[..|clicks| - 1]) + HitText(r, clicks[|clicks| - 1])
  }

  /** Everything a tracker prints for a run of clicks. */
  function Emitted(clock: Clock, r: Rect, last: Click, clicks: seq<Click>): string
  {
    Unlines(HitTexts(r, Accepted(clock, last, clicks)))
  }

  /** Feeding one more click extends what is printed by what
      `printTileAtPoint` prints for it, if the debounce lets it through. */
  lemma EmittedStep(clock: Clock, r: Rect, last: Click, clicks: seq<Click>, c: Click)
    ensures var prev := Remembered(clock, last, clicks);
      Emitted(clock, r, last, clicks + [c]) ==
        Emitted(clock, r, last, clicks) + if IsRepeat(clock, prev, c) then "" else PointOutput(r, c.x, c.y)
  {
    var prev := Remembered(clock, last, clicks);
    var a := Accepted(clock, last, clicks);
    AcceptedStep(clock, last, clicks, c);
    if IsRepeat(clock, prev, c) {
      assert Accepted(clock, last, clicks + [c]) == a + [];
      assert a + [] == a;
    } else {
      HitTextsStep(r, a, c);
      UnlinesAppend(HitTexts(r, a), HitText(r, c));
      PointOutputLines(r, c);
    }
  }

  lemma HitTextsStep(r: Rect, a: seq<Click>, c: Click)
    ensures HitTexts(r, a + [c]) == HitTexts(r, a) + HitText(r, c)
  {
    assert (a + [c])[..|a|] == a;
  }

  lemma AcceptedStep(clock: Clock, last: Click, clicks: seq<Click>, c: Click)
    ensures var prev := Remembered(clock, last, clicks);
      && Accepted(clock, last, clicks + [c]) ==
           Accepted(clock, last, clicks) + (if IsRepeat(clock, prev, c) then [] else [c])
      && Remembered(clock, last, clicks + [c]) == if IsRepeat(clock, prev, c) then prev else c
  {
    assert (clicks + [c])[..|clicks|] == clicks;
  }

  lemma PointOutputLines(r: Rect, c: Click)
    ensures Unlines(HitText(r, c)) == PointOutput(r, c.x, c.y)
  {
    match TileAt(r, c.x, c.y)
    case None =>
    case Some(cell) =>
      UnlinesOne(TileText(cell, c.x, c.y));
  }

  /** The remembered click is always the last accepted one (the initial one
      while none has been accepted). */
  lemma {:induction false} RememberedIsLastAccepted(clock: Clock, last: Click, clicks: seq<Click>)
    ensures var a := Accepted(clock, last, clicks);
      Remembered(clock, last, clicks) == if |a| == 0 then last else a[|a| - 1]
    decreases |clicks|
  {
    if |clicks| > 0 {
      RememberedIsLastAccepted(clock, last, clicks[..|clicks| - 1]);
    }
  }

  /** No accepted click repeats the click accepted before it, and the first
      accepted click does not repeat the initial one. */
  lemma {:induction false} AcceptedAreSpaced(clock: Clock, last: Click, clicks: seq<Click>)
    ensures var a := Accepted(clock, last, clicks);
      && (|a| > 0 ==> !IsRepeat(clock, last, a[0]))
      && forall i :: 0 < i < |a| ==> !IsRepeat(clock, a[i - 1], a[i])
    decreases |clicks|
  {
    if |clicks| > 0 {
      var init := clicks[..|clicks| - 1];
      AcceptedAreSpaced(clock, last, init);
      RememberedIsLastAccepted(clock, last, init);
    }
  }

  /** The debounce only drops: every accepted click is one of the input
      clicks, and there are no more of them than input clicks. */
  lemma {:induction false} AcceptedFromInput(clock: Clock, last: Click, clicks: seq<Click>)
    ensures var a := Accepted(clock, last, clicks);
      |a| <= |clicks| && forall c :: c in a ==> c in clicks
    decreases |clicks|
  {
    if |clicks| > 0 {
      var init := clicks[..|clicks| - 1];
      AcceptedFromInput(clock, last, init);
      assert clicks == init + [clicks[|clicks| - 1]];
    }
  }

  /** A click that is at least 5 pixels from, or at least 100 ms after, the
      remembered click always gets through. */
  lemma {:induction false} DistantClickAccepted(clock: Clock, last: Click, clicks: seq<Click>, c: Click)
    requires !IsRepeat(clock, Remembered(clock, last, clicks), c)
    ensures Accepted(clock, last, clicks + [c]) == Accepted(clock, last, clicks) + [c]
    ensures Remembered(clock, last, clicks + [c]) == c
  {
    assert (clicks + [c])[..|clicks|] == clicks;
  }

  /** The unsigned tick difference is the true elapsed time across a wrap of
      the 32-bit tick counter. */
  lemma DwordElapsed(now: int, earlier: int)
    requires 0 <= now < TickModulus && 0 <= earlier < TickModulus
    ensures Elapsed(Dword, now, earlier) == if now >= earlier then now - earlier else now - earlier + TickModulus
  {
  }
}
