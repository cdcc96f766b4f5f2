/** The host's side of the process boundary (`startMouseTracker` in
    src/main.js): the arguments it spawns a tracker with and its reading of
    the tracker's standard output into tile-click events. */
module HostProtocol {
  import opened Wrappers
  import opened Numerals
  import opened Strings
  import opened JsText
  import opened Grid
  import opened TrackerSpec

  /** A tile-click event as the host forwards it to the overlay; a field is
      NaN when its token has no digits. */
  datatype TileEvent = TileEvent(col: JsNum, row: JsNum, x: JsNum, y: JsNum)

  const Marker := "TILE_CLICKED"

  /** `[x, y, width, height]`, each through `toString()`. */
  function SpawnArgs(b: Rect): (args: seq<string>)
    ensures |args| == 4
    ensures forall i :: 0 <= i < 4 ==> |args[i]| > 0
  {
    [IntToDecimal(b.x), IntToDecimal(b.y), IntToDecimal(b.width), IntToDecimal(b.height)]
  }

  /** One line of output: an event exactly when the line starts with the
      marker and has at least five space-separated tokens; tokens 1 to 4 are
      the column, row, x and y, and any further tokens are ignored. */
  function ParseLine(line: string): (ev: Option<TileEvent>)
    ensures ev.Some? <==> StartsWith(line, Marker) && |Split(line, ' ')| >= 5
  {
    if !StartsWith(line, Marker) then None
    else
      var parts := Split(line, ' ');
      if |parts| < 5 then None
      else Some(TileEvent(ParseInt(parts[1]), ParseInt(parts[2]), ParseInt(parts[3]), ParseInt(parts[4])))
  }

  /** The events of a sequence of lines, in order. */
  function ParseLines(lines: seq<string>): seq<TileEvent>
  {
    if |lines| == 0 then []
    else
      ParseLines(lines[..|lines| - 1]) +
        match ParseLine(lines[|lines| - 1])
        case None => []
        case Some(ev) => [ev]
  }

  /** One `data` chunk of the tracker's standard output: trimmed, split on
      newlines, and each piece parsed on its own. A line that a chunk
      boundary cuts in two is parsed as two lines. */
  function ParseChunk(chunk: string): (evs: seq<TileEvent>)
    ensures (forall i :: 0 <= i < |chunk| ==> IsJsSpace(chunk[i])) ==> evs == []
  {
    var lines := Split(Trim(chunk), '\n');
    assert Trim(chunk) == "" ==> ParseLines(lines) == [] by {
      if Trim(chunk) == "" {
        assert lines == [""] && lines[..0] == [];
      }
    }
    ParseLines(lines)
  }

  /** The event the host forms from the line a tracker prints for a click. */
  function HitEvent(r: Rect, c: Click): seq<TileEvent>
  {
    match TileAt(r, c.x, c.y)
    case None => []
    case Some(cell) => [TileEvent(Num(cell.col), Num(cell.row), Num(c.x), Num(c.y))]
  }

  function HitEvents(r: Rect, clicks: seq<Click>): seq<TileEvent>
  {
    if |clicks| == 0 then []
    else HitEvents(r, clicks[..|clicks| - 1]) + HitEvent(r, clicks[|clicks| - 1])
  }

  /** A tracker started with the spawn arguments of `b` tracks `b`. */
  lemma SpawnArgsRoundTrip(program: string, b: Rect)
    ensures ParseArgs([program] + SpawnArgs(b)) == b
  {
    CText.AtoiOfDecimal(b.x);
    CText.AtoiOfDecimal(b.y);
    CText.AtoiOfDecimal(b.width);
    CText.AtoiOfDecimal(b.height);
  }

  /** A rendered integer holds neither a space nor a newline. */
  lemma DecimalHasNoSeparator(n: int)
    ensures ' ' !in IntToDecimal(n) && '\n' !in IntToDecimal(n)
  {
    IntToDecimalShape(n);
    var s := IntToDecimal(n);
    forall i | 0 <= i < |s|
      ensures s[i] != ' ' && s[i] != '\n'
    {
      if i > 0 || n >= 0 {
        if n < 0 {
          assert s[i] == s[1..][i - 1];
        }
        assert IsDigitIn(s[i], 10);
      }
    }
  }

  /** The printed line is its five tokens joined by spaces. */
  lemma TileTextTokens(c: Cell, x: int, y: int)
    ensures TileText(c, x, y) ==
      Join([Marker, IntToDecimal(c.col), IntToDecimal(c.row), IntToDecimal(x), IntToDecimal(y)], ' ')
  {
    JoinFive(Marker, IntToDecimal(c.col), IntToDecimal(c.row), IntToDecimal(x), IntToDecimal(y), ' ');
  }

  /** A line of the marker and four space-free tokens is the event of
      those tokens. */
  lemma ParseFiveTokens(a: string, b: string, c: string, d: string)
    requires ' ' !in a && ' ' !in b && ' ' !in c && ' ' !in d
    ensures ParseLine(Join([Marker, a, b, c, d], ' ')) ==
      Some(TileEvent(ParseInt(a), ParseInt(b), ParseInt(c), ParseInt(d)))
  {
    var p := [Marker, a, b, c, d];
    var t := Join(p, ' ');
    JoinFive(Marker, a, b, c, d, ' ');
    assert ' ' !in Marker;
    SplitJoin(p, ' ');
    assert t[..|Marker|] == Marker;
  }

  /** Round trip across the process boundary: the host reads back exactly the
      column, row, x and y the tracker printed. */
  lemma ParseTileText(c: Cell, x: int, y: int)
    ensures ParseLine(TileText(c, x, y)) ==
      Some(TileEvent(Num(c.col), Num(c.row), Num(x), Num(y)))
  {
    TileTextTokens(c, x, y);
    DecimalHasNoSeparator(c.col);
    DecimalHasNoSeparator(c.row);
    DecimalHasNoSeparator(x);
    DecimalHasNoSeparator(y);
    ParseFiveTokens(IntToDecimal(c.col), IntToDecimal(c.row), IntToDecimal(x), IntToDecimal(y));
    ParseIntOfDecimal(c.col);
    ParseIntOfDecimal(c.row);
    ParseIntOfDecimal(x);
    ParseIntOfDecimal(y);
  }

  /** Tokens after the fifth do not change the event. */
  lemma TrailingTokensIgnored(c: Cell, x: int, y: int, extra: string)
    ensures ParseLine(TileText(c, x, y) + [' '] + extra) == ParseLine(TileText(c, x, y))
  {
    var t := TileText(c, x, y);
    var p := [Marker, IntToDecimal(c.col), IntToDecimal(c.row), IntToDecimal(x), IntToDecimal(y)];
    TileTextTokens(c, x, y);
    DecimalHasNoSeparator(c.col);
    DecimalHasNoSeparator(c.row);
    DecimalHasNoSeparator(x);
    DecimalHasNoSeparator(y);
    assert ' ' !in Marker;
    SplitJoin(p, ' ');
    SplitAround(t, ' ', extra);
    assert t[..|Marker|] == Marker;
    assert (t + [' '] + extra)[..|Marker|] == Marker;
  }

  /** A line text that starts with a letter, holds no newline and ends with a
      digit. */
  predicate PlainLine(t: string)
  {
    |t| > 0 && t[0] == 'T' && '\n' !in t && IsDigitIn(t[|t| - 1], 10)
  }

  /** The shape of a printed line that the chunk reader relies on. */
  lemma TileTextShape(c: Cell, x: int, y: int)
    ensures PlainLine(TileText(c, x, y))
  {
    var d1, d2, d3, d4 := IntToDecimal(c.col), IntToDecimal(c.row), IntToDecimal(x), IntToDecimal(y);
    var pre := "TILE_CLICKED " + d1 + " " + d2 + " " + d3 + " ";
    var t := pre + d4;
    assert t == TileText(c, x, y);
    DecimalHasNoSeparator(c.col);
    DecimalHasNoSeparator(c.row);
    DecimalHasNoSeparator(x);
    DecimalHasNoSeparator(y);
    IntToDecimalShape(y);
    assert t[0] == pre[0] == 'T';
    assert t[|t| - 1] == d4[|d4| - 1];
  }

  /** Reading the printed lines one by one gives one event per hit. */
  lemma {:induction false} ParseHitTexts(r: Rect, clicks: seq<Click>)
    ensures ParseLines(HitTexts(r, clicks)) == HitEvents(r, clicks)
    decreases |clicks|
  {
    if |clicks| > 0 {
      var init := clicks[..|clicks| - 1];
      var c := clicks[|clicks| - 1];
      ParseHitTexts(r, init);
      var ts := HitTexts(r, init);
      match TileAt(r, c.x, c.y)
      case None =>
        assert HitTexts(r, clicks) == ts + [];
        assert ts + [] == ts;
      case Some(cell) =>
        var t := TileText(cell, c.x, c.y);
        assert HitTexts(r, clicks) == ts + [t];
        assert (ts + [t])[..|ts|] == ts;
        ParseTileText(cell, c.x, c.y);
    }
  }

  lemma {:induction false} HitTextsShape(r: Rect, clicks: seq<Click>)
    ensures forall t :: t in HitTexts(r, clicks) ==> PlainLine(t)
    decreases |clicks|
  {
    if |clicks| > 0 {
      var c := clicks[|clicks| - 1];
      var ts := HitTexts(r, clicks[..|clicks| - 1]);
      HitTextsShape(r, clicks[..|clicks| - 1]);
      match TileAt(r, c.x, c.y)
      case None =>
        assert HitText(r, c) == [];
        assert HitTexts(r, clicks) == ts + [];
        assert ts + [] == ts;
      case Some(cell) =>
        TileTextShape(cell, c.x, c.y);
        assert HitText(r, c) == [TileText(cell, c.x, c.y)];
        assert HitTexts(r, clicks) == ts + [TileText(cell, c.x, c.y)];
    }
  }

  /** The protocol round trip: when a run of printed lines reaches the host
      as one chunk, the host reconstructs exactly the hits, in order, with
      their cells and points. */
  lemma ChunkRoundTrip(r: Rect, clicks: seq<Click>)
    ensures ParseChunk(Unlines(HitTexts(r, clicks))) == HitEvents(r, clicks)
  {
    HitTextsShape(r, clicks);
    ChunkOfPlainLines(HitTexts(r, clicks));
    ParseHitTexts(r, clicks);
  }

  /** A chunk made of whole plain lines is read line by line. */
  lemma ChunkOfPlainLines(ts: seq<string>)
    requires forall t :: t in ts ==> PlainLine(t)
    ensures ParseChunk(Unlines(ts)) == ParseLines(ts)
  {
    if |ts| == 0 {
      EmptyChunk();
    } else {
      PlainLinesSplit(ts);
    }
  }

  /** An empty chunk trims to the empty string, whose one piece is no event. */
  lemma EmptyChunk()
    ensures ParseChunk(Unlines([])) == []
  {
    assert Trim("") == "";
    assert Split("", '\n') == [""];
    assert ParseLines([""]) == ParseLines([]) + [];
  }

  lemma DigitNotSpace(c: char)
    requires IsDigitIn(c, 10)
    ensures !IsJsSpace(c)
  {
  }

  lemma PlainLinesSplit(ts: seq<string>)
    requires |ts| > 0 && forall t :: t in ts ==> PlainLine(t)
    ensures Split(Trim(Unlines(ts)), '\n') == ts
  {
    PlainEnds(ts);
    PlainNoNewline(ts);
    TrimLines(ts);
    SplitJoin(ts, '\n');
  }

  lemma PlainEnds(ts: seq<string>)
    requires |ts| > 0 && forall t :: t in ts ==> PlainLine(t)
    ensures |ts[0]| > 0 && !IsJsSpace(ts[0][0])
    ensures var last := ts[|ts| - 1]; |last| > 0 && !IsJsSpace(last[|last| - 1])
  {
    var first, last := ts[0], ts[|ts| - 1];
    assert first in ts && last in ts;
    assert first[0] == 'T';
    DigitNotSpace(last[|last| - 1]);
  }

  lemma PlainNoNewline(ts: seq<string>)
    requires forall t :: t in ts ==> PlainLine(t)
    ensures forall i :: 0 <= i < |ts| ==> '\n' !in ts[i]
  {
    forall i | 0 <= i < |ts|
      ensures '\n' !in ts[i]
    {
      assert ts[i] in ts;
    }
  }

  /** What a tracker prints for a run of clicks reads back as the events of
      the accepted clicks inside the bounds. */
  lemma EmittedRoundTrip(clock: Clock, r: Rect, last: Click, clicks: seq<Click>)
    ensures ParseChunk(Emitted(clock, r, last, clicks)) == HitEvents(r, Accepted(clock, last, clicks))
  {
    ChunkRoundTrip(r, Accepted(clock, last, clicks));
  }

  /** Lines that do not start with the marker give no events. */
  lemma {:induction false} NoMarkerNoEvents(lines: seq<string>)
    requires forall l :: l in lines ==> !StartsWith(l, Marker)
    ensures ParseLines(lines) == []
    decreases |lines|
  {
    if |lines| > 0 {
      var init := lines[..|lines| - 1];
      assert forall l :: l in init ==> l in lines;
      NoMarkerNoEvents(init);
      assert lines[|lines| - 1] in lines;
    }
  }

  /** A line starting with any letter but 'T' does not start with the marker. */
  lemma OtherInitialNoMarker(l: string)
    requires |l| > 0 && l[0] != 'T'
    ensures !StartsWith(l, Marker)
  {
  }

  /** A diagnostic line: one whole, non-empty line that is not an event. */
  predicate QuietLine(l: string)
  {
    |l| > 0 && '\n' !in l && !StartsWith(l, Marker)
  }

  /** Diagnostic lines on the event stream are harmless: a chunk of whole
      lines none of which starts with the marker yields no event. */
  lemma ChunkWithoutMarker(lines: seq<string>)
    requires |lines| > 0
    requires forall l :: l in lines ==> QuietLine(l)
    requires |lines[0]| > 0 && !IsJsSpace(lines[0][0])
    requires var last := lines[|lines| - 1]; |last| > 0 && !IsJsSpace(last[|last| - 1])
    ensures ParseChunk(Unlines(lines)) == []
  {
    assert lines[0] in lines && lines[|lines| - 1] in lines;
    TrimLines(lines);
    forall i | 0 <= i < |lines|
      ensures '\n' !in lines[i]
    {
      assert lines[i] in lines;
    }
    SplitJoin(lines, '\n');
    NoMarkerNoEvents(lines);
  }
}
