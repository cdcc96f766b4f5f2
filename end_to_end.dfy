/** The pipeline from a physical click to a highlighted tile: a tracker's
    standard output, the host's reading of it, and the overlay's bounds
    check, put together; and one concrete session worked through: bounds
    100 100 600 440, a click at (400, 320), a miss, a bounce and a restart. */
module EndToEnd {
  import opened Wrappers
  import opened Strings
  import opened JsText
  import opened Grid
  import opened TrackerSpec
  import opened HostProtocol
  import opened Renderer
  import Supervisor
  import MacTracker

  /** An event that stands for a click inside `r`: its position is a point
      of `r` and its column and row are those of the cell under it. */
  predicate TrackedEvent(r: Rect, ev: TileEvent)
  {
    && ev.x.Num? && ev.y.Num?
    && Contains(r, ev.x.value, ev.y.value)
    && ev.col == Num(TileAt(r, ev.x.value, ev.y.value).value.col)
    && ev.row == Num(TileAt(r, ev.x.value, ev.y.value).value.row)
  }

  /** Every event the host forms from a tracker's lines stands for a click
      inside the tracker's bounds. */
  lemma {:induction false} HitEventsTracked(r: Rect, clicks: seq<Click>)
    ensures forall k :: 0 <= k < |HitEvents(r, clicks)| ==> TrackedEvent(r, HitEvents(r, clicks)[k])
    decreases |clicks|
  {
    if |clicks| > 0 {
      HitEventsTracked(r, clicks[..|clicks| - 1]);
    }
  }

  /** An event standing for a click inside the bounds passes the overlay's
      bounds check and highlights the tile laid out in the clicked cell. */
  lemma TrackedEventHighlights(r: Rect, ev: TileEvent)
    requires TrackedEvent(r, ev)
    ensures var cell := TileAt(r, ev.x.value, ev.y.value).value;
      && HighlightTarget(ev) == Some(TileIndex(cell.row, cell.col))
      && TilePlace(TileIndex(cell.row, cell.col)) == Tile(cell.row, cell.col)
  {
    var cell := TileAt(r, ev.x.value, ev.y.value).value;
    PlaceOfIndex(cell.row, cell.col);
  }

  /** Whatever a tracker with bounds `r` prints, read as one chunk, is one
      event per accepted click inside `r`, in order, and each of them
      highlights the tile of the cell that was clicked. */
  lemma TrackerToOverlay(clock: Clock, r: Rect, last: Click, clicks: seq<Click>)
    ensures var evs := ParseChunk(Emitted(clock, r, last, clicks));
      && evs == HitEvents(r, Accepted(clock, last, clicks))
      && forall k :: 0 <= k < |evs| ==> TrackedEvent(r, evs[k]) && HighlightTarget(evs[k]).Some?
  {
    var evs := ParseChunk(Emitted(clock, r, last, clicks));
    EmittedRoundTrip(clock, r, last, clicks);
    HitEventsTracked(r, Accepted(clock, last, clicks));
    forall k | 0 <= k < |evs|
      ensures HighlightTarget(evs[k]).Some?
    {
      TrackedEventHighlights(r, evs[k]);
    }
  }

  /** The window's initial bounds, as a tracker started for it reads them. */
  lemma InitialTrackerBounds()
    ensures ParseArgs(["global_mouse_tracker"] + SpawnArgs(Supervisor.InitialWindow)) == Rect(100, 100, 600, 440)
  {
    SpawnArgsRoundTrip("global_mouse_tracker", Supervisor.InitialWindow);
  }

  /** The point (400, 320) of the initial bounds is in column 7, row 5. */
  lemma SampleCell()
    ensures TileAt(Rect(100, 100, 600, 440), 400, 320) == Some(Cell(7, 5))
  {
    CellSpan(Rect(100, 100, 600, 440), 400, 320, 7, 5);
  }

  /** A click at (400, 320) in the initial bounds prints the line for cell
      (7, 5). */
  lemma SampleHitLine()
    ensures Emitted(Plain, Rect(100, 100, 600, 440), Initial, [Click(400, 320, 1000)]) ==
      "TILE_CLICKED 7 5 400 320\n"
  {
    var r := Rect(100, 100, 600, 440);
    var c := Click(400, 320, 1000);
    assert DistanceSq(Initial, c) == 262400;
    assert [c][..0] == [];
    assert Accepted(Plain, Initial, [c]) == [c];
    SampleCell();
    assert HitTexts(r, [c]) == HitText(r, c);
    PointOutputLines(r, c);
    MacTracker.SampleLine();
  }

  /** A single click the debounce lets through reaches the host as the
      event for it, if it is inside the bounds. */
  lemma FirstClickEvents(clock: Clock, r: Rect, c: Click)
    requires !IsRepeat(clock, Initial, c)
    ensures ParseChunk(Emitted(clock, r, Initial, [c])) == HitEvent(r, c)
  {
    EmittedRoundTrip(clock, r, Initial, [c]);
    assert [c][..0] == [];
    assert Accepted(clock, Initial, [c]) == [c];
    assert HitEvents(r, [c]) == HitEvent(r, c);
  }

  /** The host reads that output as the event for column 7, row 5. */
  lemma SampleHitEvent()
    ensures ParseChunk(Emitted(Plain, Rect(100, 100, 600, 440), Initial, [Click(400, 320, 1000)])) ==
      [TileEvent(Num(7), Num(5), Num(400), Num(320))]
  {
    var r := Rect(100, 100, 600, 440);
    var c := Click(400, 320, 1000);
    assert DistanceSq(Initial, c) == 262400;
    FirstClickEvents(Plain, r, c);
    SampleCell();
  }

  /** The overlay highlights tile 82 for that event, the one it lays out in
      row 5, column 7. */
  lemma SampleHighlight()
    ensures HighlightTarget(TileEvent(Num(7), Num(5), Num(400), Num(320))) == Some(82)
    ensures TilePlace(82) == Tile(5, 7)
  {
    PlaceOfIndex(5, 7);
  }

  /** A click at (50, 50) is outside the initial bounds: nothing is printed. */
  lemma SampleMiss()
    ensures Emitted(Plain, Rect(100, 100, 600, 440), Initial, [Click(50, 50, 1000)]) == ""
  {
    var c := Click(50, 50, 1000);
    assert [c][..0] == [];
    assert Accepted(Plain, Initial, [c]) == [c];
  }

  /** After the bounds change to (0, 0, 300, 220) the tracker is restarted
      with them. */
  lemma SampleRestartBounds()
    ensures ParseArgs(["global_mouse_tracker"] + SpawnArgs(Rect(0, 0, 300, 220))) == Rect(0, 0, 300, 220)
  {
    SpawnArgsRoundTrip("global_mouse_tracker", Rect(0, 0, 300, 220));
  }

  /** The click at (400, 320) is outside (0, 0, 300, 220): nothing is printed. */
  lemma SampleAfterRestart()
    ensures Emitted(Plain, Rect(0, 0, 300, 220), Initial, [Click(400, 320, 1000)]) == ""
  {
    var c := Click(400, 320, 1000);
    assert [c][..0] == [];
    assert Accepted(Plain, Initial, [c]) == [c];
  }

  /** A second event 2 pixels away and 50 ms later repeats the first click:
      only one line is printed. */
  lemma SampleBounce()
    ensures var c1, c2 := Click(400, 320, 1000), Click(402, 321, 1050);
      Accepted(Plain, Initial, [c1, c2]) == [c1]
  {
    var c1, c2 := Click(400, 320, 1000), Click(402, 321, 1050);
    assert [c1, c2][..1] == [c1];
    assert [c1][..0] == [];
    assert DistanceSq(Initial, c1) == 262400;
    assert Remembered(Plain, Initial, [c1]) == c1;
    assert DistanceSq(c1, c2) == 5;
    assert IsRepeat(Plain, c1, c2);
    assert Accepted(Plain, Initial, [c1]) == [c1];
  }

  /** A line that reaches the host cut in two by a chunk boundary is not
      put back together: the head, the marker and two tokens, yields no
      event ... */
  lemma CutHeadLost()
    ensures ParseChunk(Marker + " 7 5") == []
  {
    FewTokensNoEvent(Marker, "7", "5");
    assert Marker + " " + "7" + " " + "5" == Marker + " 7 5";
  }

  /** ... and neither does the tail. */
  lemma CutTailLost()
    ensures ParseChunk(" " + "400 320" + "\n") == []
  {
    var l := "400 320";
    assert QuietLine(l) by {
      OtherInitialNoMarker(l);
    }
    PaddedQuietLine(l);
  }

  /** A chunk of one line without surrounding white space is read as that
      line. */
  lemma OneLineChunk(line: string)
    requires |line| > 0 && '\n' !in line
    requires !IsJsSpace(line[0]) && !IsJsSpace(line[|line| - 1])
    ensures ParseChunk(line) == ParseLines([line])
  {
    assert Trim(line) == line;
    SplitWithout(line, '\n');
  }

  /** A chunk of one line with three tokens, the first the marker, yields no
      event. */
  lemma FewTokensNoEvent(m: string, a: string, b: string)
    requires m == Marker
    requires |a| > 0 && |b| > 0 && !IsJsSpace(b[|b| - 1])
    requires ' ' !in a && ' ' !in b && '\n' !in a && '\n' !in b
    ensures ParseChunk(m + " " + a + " " + b) == []
  {
    var line := m + " " + a + " " + b;
    assert Join([m, a, b], ' ') == line by {
      assert [m] + [a] == [m, a];
      JoinSnoc([m], a, ' ');
      assert [m, a] + [b] == [m, a, b];
      JoinSnoc([m, a], b, ' ');
    }
    SplitJoin([m, a, b], ' ');
    assert ParseLine(line) == None;
    assert line[0] == 'T' && line[|line| - 1] == b[|b| - 1];
    OneLineChunk(line);
    assert [line][..0] == [];
  }

  /** A chunk holding one line without the marker, between a leading space
      and the newline, yields no event. */
  lemma PaddedQuietLine(l: string)
    requires QuietLine(l)
    requires !IsJsSpace(l[0]) && !IsJsSpace(l[|l| - 1])
    ensures ParseChunk(" " + l + "\n") == []
  {
    var t := l + "\n";
    assert Trim(" " + l + "\n") == l by {
      assert " " + l + "\n" == " " + t;
      assert DropWhile(t, IsJsSpace) == t;
      assert DropWhile(" " + t, IsJsSpace) == t by {
        assert (" " + t)[1..] == t;
      }
      assert DropLastWhile(t, IsJsSpace) == l by {
        assert t[..|l|] == l;
      }
    }
    assert Split(l, '\n') == [l] by {
      SplitWithout(l, '\n');
    }
    assert ParseLines([l]) == [] by {
      assert ParseLine(l) == None;
      assert [l][..0] == [];
    }
  }


}
