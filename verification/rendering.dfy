/**
 What a frame of the guide draws, as values instead of canvas calls: which
 events of each visible row get a cell and where, whether the "now" line is
 drawn, the times of the time-bar labels, and whether the reset button shows.
 */
module Rendering {
  import opened JavaInt
  import opened Geometry
  import opened Domain
  import opened EpgData
  import opened TimeAxis
  import opened RowLayout
  import Scrolling

  /** A frame starts by setting the window to the times of canvas pixels scrollX and scrollX + width. */
  function BeginFrame(v: Viewport): (v': Viewport)
    requires v.millisPerPixel > 0 && v.width >= 0
    ensures v'.window.lower <= v'.window.upper
    ensures v' == v.(window := FrameWindow(v))
  {
    v.(window := FrameWindow(v))
  }

  /**
   EPG.java's three-way visibility test: the start is in the window, the end
   is in the window, or the event spans the whole window. For a well-formed
   event and window this is exactly closed-interval intersection.
   */
  function IsEventVisible(w: Window, start: int, end: int): (r: bool)
    ensures start <= end && w.lower <= w.upper ==> (r <==> start <= w.upper && w.lower <= end)
  {
    || (start >= w.lower && start <= w.upper)
    || (end >= w.lower && end <= w.upper)
    || (start <= w.lower && end >= w.upper)
  }

  /**
   The "now" line is drawn for a clock in the half-open window [lower, upper):
   exactly when the window shows that instant and it is not the upper end,
   although an event at that end is visible. So it is drawn only in a
   non-empty window.
   */
  function ShouldDrawTimeLine(w: Window, now: int): (r: bool)
    ensures r <==> IsEventVisible(w, now, now) && now < w.upper
    ensures r ==> w.lower < w.upper
    ensures now == w.upper ==> !r
  {
    now >= w.lower && now < w.upper
  }

  /** Whenever the "now" line is drawn, every event current at that instant is visible. */
  lemma CurrentEventVisibleUnderNowLine(w: Window, e: Event, now: int)
    requires IsCurrent(e, now) && ShouldDrawTimeLine(w, now)
    ensures IsEventVisible(w, e.start, e.end)
  {
  }

  /**
   In a frame whose window was set from the scroll offset, a drawn "now" line
   lies between the event area's left edge and AxisStart pixels past the
   view's right edge: the window reaches past what the view shows.
   */
  lemma NowLinePlacement(cfg: Config, v: Viewport, now: int)
    requires v.millisPerPixel > 0 && v.width >= 0
    requires ShouldDrawTimeLine(BeginFrame(v).window, now)
    ensures v.scrollX + cfg.AxisStart() <= XFrom(cfg, v, now) <= v.scrollX + v.width + cfg.AxisStart()
  {
    var w := FrameWindow(v);
    FrameWindowAtEdges(cfg, v);
    XFromMonotone(cfg, v, w.lower, now);
    XFromMonotone(cfg, v, now, w.upper);
  }

  /**
   The "now" line can be placed off screen: with a 108-pixel channel column
   and margins, a 600-pixel view at scroll 0 and 6000 ms per pixel, the last
   millisecond of the window passes the test and is drawn at x = 707.
   */
  lemma NowLineCanFallOffScreen()
    ensures var cfg := Config(4, 60, 100, 30, 40, 8);
            var v := Viewport(600, 400, 0, 0, 6000, 0, Window(0, 0), 1000, 0, Finished);
            var now := 3599999;
            && ShouldDrawTimeLine(BeginFrame(v).window, now)
            && XFrom(cfg, v, now) == 707 > v.scrollX + v.width
  {
    assert Quot(3599999, 6000) == 599;
  }

  /** Reference definition: the visible events of a list, in list order. */
  function VisibleEvents(w: Window, es: seq<Event>): (r: seq<Event>)
    ensures |r| <= |es|
    ensures forall e :: e in r ==> e in es && IsEventVisible(w, e.start, e.end)
  {
    if es == [] then []
    else
      var last := es[|es| - 1];
      VisibleEvents(w, es[..|es| - 1]) + (if IsEventVisible(w, last.start, last.end) then [last] else [])
  }

  lemma {:induction false} VisibleEventsAppend(w: Window, a: seq<Event>, b: seq<Event>)
    ensures VisibleEvents(w, a + b) == VisibleEvents(w, a) + VisibleEvents(w, b)
    decreases |b|
  {
    if b != [] {
      var b' := b[..|b| - 1];
      assert (a + b)[..|a + b| - 1] == a + b';
      VisibleEventsAppend(w, a, b');
    } else {
      assert a + b == a;
    }
  }

  lemma {:induction false} NoneVisible(w: Window, es: seq<Event>)
    requires forall k :: 0 <= k < |es| ==> !IsEventVisible(w, es[k].start, es[k].end)
    ensures VisibleEvents(w, es) == []
    decreases |es|
  {
    if es != [] {
      NoneVisible(w, es[..|es| - 1]);
    }
  }

  /**
   In a sorted, non-overlapping list the visible events form one contiguous
   run: an event between two visible ones is visible too.
   */
  lemma VisibleContiguous(w: Window, es: seq<Event>, i: int, j: int, k: int)
    requires SortedDisjoint(es) && w.lower <= w.upper
    requires 0 <= i < j < k < |es|
    requires IsEventVisible(w, es[i].start, es[i].end) && IsEventVisible(w, es[k].start, es[k].end)
    ensures IsEventVisible(w, es[j].start, es[j].end)
  {
    SortedPairwise(es, i, j);
    SortedPairwise(es, j, k);
  }

  /**
   Once a visible event has been seen and an invisible one follows, nothing
   later in a sorted list is visible, so stopping there loses nothing.
   */
  lemma StopLosesNothing(w: Window, es: seq<Event>, i: int)
    requires SortedDisjoint(es) && w.lower <= w.upper
    requires 0 <= i < |es|
    requires VisibleEvents(w, es[..i]) != []
    requires !IsEventVisible(w, es[i].start, es[i].end)
    ensures VisibleEvents(w, es) == VisibleEvents(w, es[..i])
  {
    var e0 := VisibleEvents(w, es[..i])[0];
    assert e0 in es[..i];
    var j :| 0 <= j < i && es[j] == e0;
    forall k | 0 <= k < |es[i..]|
      ensures !IsEventVisible(w, es[i..][k].start, es[i..][k].end)
    {
      if k > 0 && IsEventVisible(w, es[i + k].start, es[i + k].end) {
        VisibleContiguous(w, es, j, i, i + k);
      }
    }
    NoneVisible(w, es[i..]);
    assert es == es[..i] + es[i..];
    VisibleEventsAppend(w, es[..i], es[i..]);
  }

  /**
   One row of the event loop: events are drawn in list order while visible,
   and the scan stops at the first invisible event after a visible one. Every
   drawn event is visible; for a sorted, non-overlapping list the drawn events
   are exactly the visible ones.
   */
  method DrawRowEvents(w: Window, es: seq<Event>) returns (drawn: seq<Event>)
    ensures forall e :: e in drawn ==> e in es && IsEventVisible(w, e.start, e.end)
    ensures exists n :: 0 <= n <= |es| && drawn == VisibleEvents(w, es[..n])
    ensures SortedDisjoint(es) && w.lower <= w.upper ==> drawn == VisibleEvents(w, es)
  {
    drawn := [];
    var foundFirst := false;
    var i := 0;
    while i < |es|
      invariant 0 <= i <= |es|
      invariant drawn == VisibleEvents(w, es[..i])
      invariant foundFirst <==> drawn != []
    {
      var event := es[i];
      assert es[..i + 1][..i] == es[..i];
      if IsEventVisible(w, event.start, event.end) {
        drawn := drawn + [event];
        foundFirst := true;
      } else if foundFirst {
        if SortedDisjoint(es) && w.lower <= w.upper {
          StopLosesNothing(w, es, i);
        }
        break;
      }
      i := i + 1;
    }
    assert drawn == VisibleEvents(w, es[..i]);
    assert i == |es| ==> es[..i] == es;
  }

  /** The cell drawn for an event in a row: its pixel span, less a margin on the right, at the row's height. */
  datatype Cell = Cell(row: int, rect: Rect, current: bool)

  function EventCell(cfg: Config, v: Viewport, row: int, e: Event, now: int): (c: Cell)
    requires v.millisPerPixel > 0
    ensures c.row == row && c.rect.top == TopFrom(cfg, row) && c.rect.bottom - c.rect.top == cfg.channelHeight
    ensures c.current <==> IsCurrent(e, now)
    ensures e.start <= e.end ==> c.rect.left <= c.rect.right + cfg.channelMargin
    ensures e.start >= v.timeOffset ==>
              TimeFrom(v, c.rect.left - cfg.AxisStart()) <= e.start < TimeFrom(v, c.rect.left - cfg.AxisStart() + 1)
    ensures e.end >= v.timeOffset ==>
              var p := c.rect.right + cfg.channelMargin - cfg.AxisStart();
              TimeFrom(v, p) <= e.end < TimeFrom(v, p + 1)
  {
    assert e.start <= e.end ==> XFrom(cfg, v, e.start) <= XFrom(cfg, v, e.end) by {
      if e.start <= e.end {
        XFromMonotone(cfg, v, e.start, e.end);
      }
    }
    Cell(row, Rect(XFrom(cfg, v, e.start), TopFrom(cfg, row), XFrom(cfg, v, e.end) - cfg.channelMargin,
                   TopFrom(cfg, row) + cfg.channelHeight),
         IsCurrent(e, now))
  }

  /**
   The cell of a visible event reaches the drawn frame: it starts no further
   right than the window's upper end and ends (with its margin) no further
   left than the window's lower end.
   */
  lemma VisibleCellMeetsWindow(cfg: Config, v: Viewport, row: int, e: Event, now: int)
    requires v.millisPerPixel > 0 && v.width >= 0 && e.start <= e.end
    requires IsEventVisible(FrameWindow(v), e.start, e.end)
    ensures var c := EventCell(cfg, v, row, e, now);
            && c.rect.left <= v.scrollX + v.width + cfg.AxisStart()
            && v.scrollX + cfg.AxisStart() <= c.rect.right + cfg.channelMargin
  {
    var w := FrameWindow(v);
    FrameWindowAtEdges(cfg, v);
    XFromMonotone(cfg, v, e.start, w.upper);
    XFromMonotone(cfg, v, w.lower, e.end);
  }

  /** Cells of back-to-back events are separated by exactly one margin. */
  lemma BackToBackCellsLeaveMargin(cfg: Config, v: Viewport, row: int, e1: Event, e2: Event, now: int)
    requires v.millisPerPixel > 0 && e1.end == e2.start
    ensures EventCell(cfg, v, row, e1, now).rect.right + cfg.channelMargin == EventCell(cfg, v, row, e2, now).rect.left
  {
  }

  function RowCells(cfg: Config, v: Viewport, row: int, es: seq<Event>, now: int): (cells: seq<Cell>)
    requires v.millisPerPixel > 0
    ensures |cells| == |es|
    ensures forall i :: 0 <= i < |es| ==> cells[i] == EventCell(cfg, v, row, es[i], now)
    ensures forall c :: c in cells ==> c.row == row
  {
    seq(|es|, i requires 0 <= i < |es| => EventCell(cfg, v, row, es[i], now))
  }

  /** Reference definition: the cells of the visible events of rows lo .. hi-1, row by row. */
  function FrameCells(cfg: Config, v: Viewport, d: Data, now: int, lo: int, hi: int): seq<Cell>
    requires v.millisPerPixel > 0
    requires 0 <= lo && hi <= |d.events|
    decreases hi - lo
  {
    if hi <= lo then []
    else FrameCells(cfg, v, d, now, lo, hi - 1) + RowCells(cfg, v, hi - 1, VisibleEvents(v.window, d.events[hi - 1]), now)
  }

  predicate AllRowsSorted(d: Data) {
    forall r :: 0 <= r < |d.events| ==> SortedDisjoint(d.events[r])
  }

  /**
   The row loop of the event pass over rows firstPos .. lastPos, each drawn by
   the row loop above. Every cell lies in one of those rows and is the cell of
   a visible event of its row; with sorted rows the cells are exactly those of
   the reference definition.
   */
  method DrawRows(cfg: Config, v: Viewport, d: Data, now: int, firstPos: int, lastPos: int)
    returns (cells: seq<Cell>)
    requires v.millisPerPixel > 0
    requires 0 <= firstPos && lastPos < |d.events|
    ensures forall c :: c in cells ==> firstPos <= c.row <= lastPos
    ensures forall c :: c in cells ==>
              0 <= c.row < |d.events| &&
              exists e :: e in d.events[c.row] && IsEventVisible(v.window, e.start, e.end) && c == EventCell(cfg, v, c.row, e, now)
    ensures AllRowsSorted(d) && v.window.lower <= v.window.upper && firstPos <= lastPos ==>
              cells == FrameCells(cfg, v, d, now, firstPos, lastPos + 1)
  {
    ghost var exact := AllRowsSorted(d) && v.window.lower <= v.window.upper && firstPos <= lastPos;
    cells := [];
    var pos := firstPos;
    while pos <= lastPos
      invariant firstPos <= pos
      invariant firstPos <= lastPos ==> pos <= lastPos + 1
      invariant firstPos > lastPos ==> cells == []
      invariant forall c :: c in cells ==> firstPos <= c.row < pos
      invariant forall c :: c in cells ==>
                  0 <= c.row < |d.events| &&
                  exists e :: e in d.events[c.row] && IsEventVisible(v.window, e.start, e.end) && c == EventCell(cfg, v, c.row, e, now)
      invariant exact ==> cells == FrameCells(cfg, v, d, now, firstPos, pos)
    {
      var drawn := DrawRowEvents(v.window, d.events[pos]);
      var rowCells := RowCells(cfg, v, pos, drawn, now);
      forall c | c in rowCells
        ensures exists e :: e in d.events[c.row] && IsEventVisible(v.window, e.start, e.end) && c == EventCell(cfg, v, c.row, e, now)
      {
        var i :| 0 <= i < |rowCells| && rowCells[i] == c;
        assert drawn[i] in drawn;
      }
      if exact {
        assert SortedDisjoint(d.events[pos]);
        assert rowCells == RowCells(cfg, v, pos, VisibleEvents(v.window, d.events[pos]), now);
      }
      cells := cells + rowCells;
      pos := pos + 1;
    }
  }

  /** The event pass of a frame: the rows from the first to the last visible one. */
  method DrawEvents(cfg: Config, v: Viewport, d: Data, now: int) returns (cells: seq<Cell>)
    requires cfg.Valid() && v.millisPerPixel > 0 && Aligned(d)
    ensures forall c :: c in cells ==>
              FirstVisibleChannel(cfg, v) <= c.row <= LastVisibleChannel(cfg, v, ChannelCount(d))
    ensures forall c :: c in cells ==>
              0 <= c.row < |d.events| &&
              exists e :: e in d.events[c.row] && IsEventVisible(v.window, e.start, e.end) && c == EventCell(cfg, v, c.row, e, now)
    ensures AllRowsSorted(d) && v.window.lower <= v.window.upper
            && FirstVisibleChannel(cfg, v) <= LastVisibleChannel(cfg, v, ChannelCount(d)) ==>
              cells == FrameCells(cfg, v, d, now, FirstVisibleChannel(cfg, v), LastVisibleChannel(cfg, v, ChannelCount(d)) + 1)
  {
    var firstPos := FirstVisibleChannel(cfg, v);
    var lastPos := LastVisibleChannel(cfg, v, ChannelCount(d));
    cells := DrawRows(cfg, v, d, now, firstPos, lastPos);
  }

  /**
   Time-bar label i: the time `i` label spacings after the window's lower end,
   rounded to a label boundary; for slots after the epoch, to the nearest one.
   */
  function TickTime(lower: int, i: int): (t: int)
    ensures t % TimeLabelSpacingMillis == 0
    ensures lower + TimeLabelSpacingMillis * i >= 0 ==>
              t - TimeLabelSpacingMillis / 2 <= lower + TimeLabelSpacingMillis * i < t + TimeLabelSpacingMillis / 2
  {
    var s := TimeLabelSpacingMillis;
    var slot := lower + s * i;
    assert slot >= 0 ==> Quot(slot + s / 2, s) * s <= slot + s / 2 < Quot(slot + s / 2, s) * s + s by {
      if slot >= 0 {
        QuotFloor(slot + s / 2, s);
      }
    }
    s * Quot(slot + s / 2, s)
  }

  /** The label times of the time bar: one per half hour of the two-hour viewport, each on a half-hour boundary. */
  function TimebarTicks(lower: int): (ticks: seq<int>)
    ensures |ticks| == HoursInViewportMillis / TimeLabelSpacingMillis == 4
    ensures forall i :: 0 <= i < |ticks| ==> ticks[i] % TimeLabelSpacingMillis == 0
  {
    seq(HoursInViewportMillis / TimeLabelSpacingMillis, i => TickTime(lower, i))
  }

  /**
   For times after the epoch each label is the nearest half-hour boundary to
   its slot (halfway rounds up), and consecutive labels are exactly one
   spacing apart.
   */
  lemma TicksRoundToNearest(lower: int)
    requires lower >= 0
    ensures forall i :: 0 <= i < |TimebarTicks(lower)| ==>
              TimebarTicks(lower)[i] - TimeLabelSpacingMillis / 2 <= lower + TimeLabelSpacingMillis * i
              < TimebarTicks(lower)[i] + TimeLabelSpacingMillis / 2
    ensures forall i :: 0 <= i < |TimebarTicks(lower)| - 1 ==>
              TimebarTicks(lower)[i + 1] == TimebarTicks(lower)[i] + TimeLabelSpacingMillis
  {
    var s := TimeLabelSpacingMillis;
    forall i | 0 <= i < 3
      ensures TickTime(lower, i + 1) == TickTime(lower, i) + s
    {
      QuotShift(lower + s * i + s / 2, 1, s);
      assert lower + s * (i + 1) + s / 2 == lower + s * i + s / 2 + 1 * s;
    }
  }

  /**
   The reset button shows when the view is more than a third of its width
   away from the start position; never at the start position itself.
   */
  function ShowResetButton(cfg: Config, v: Viewport, now: int): (r: bool)
    requires v.millisPerPixel > 0
    ensures v.width >= 0 && v.scrollX == XPositionStart(cfg, v, now) ==> !r
  {
    Abs(XPositionStart(cfg, v, now) - v.scrollX) > Quot(v.width, 3)
  }

  /**
   Once the scroll started by a recalculation completes, the view sits at the
   start position and the reset button is hidden.
   */
  lemma ResetButtonHiddenAfterReset(cfg: Config, v: Viewport, d: Data, displayWidth: int, now: int,
                                    withAnimation: bool)
    requires HasData(d) && 0 < displayWidth <= HoursInViewportMillis && v.width >= 0
    ensures !ShowResetButton(cfg, Scrolling.FinishScroll(Scrolling.RecalculateAndRedraw(cfg, v, d, displayWidth, now, withAnimation)), now)
  {
    Scrolling.RecalculateThenFinish(cfg, v, d, displayWidth, now, withAnimation);
  }

  /**
   At the start position, where a completed recalculation leaves the view, a
   horizontal pan that stays within the limits shows the button exactly when
   it moves more than a third of the view's width.
   */
  lemma PanAwayShowsResetButton(cfg: Config, v: Viewport, now: int, dx: int)
    requires v.millisPerPixel > 0 && v.width >= 0
    requires v.scrollX == XPositionStart(cfg, v, now)
    requires 0 <= v.scrollX + dx <= v.maxHorizontalScroll
    ensures ShowResetButton(cfg, Scrolling.OnScroll(v, dx, 0), now) <==> Abs(dx) > v.width / 3
  {
    var v' := Scrolling.OnScroll(v, dx, 0);
    assert v'.scrollX == v.scrollX + dx;
    assert XPositionStart(cfg, v', now) == XPositionStart(cfg, v, now);
  }
}
