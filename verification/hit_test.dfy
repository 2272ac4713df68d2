/**
 Mapping a tap back to what it touched. The tap arrives in view coordinates;
 the reset button is hit in canvas (scrolled) coordinates, the channel
 column and the event area in view coordinates, and the channel row and the
 tapped time are computed from the scrolled position.
 */
module HitTest {
  import opened JavaInt
  import opened Geometry
  import opened Domain
  import opened EpgData
  import opened TimeAxis
  import opened RowLayout
  import Rendering

  /** What a tap makes the click listener receive, or that the lookup would fail on an index. */
  datatype TapOutcome =
    | NoAction
    | ResetClicked
    | ChannelClicked(channelPosition: int, channel: Channel)
    | EventClicked(channelPosition: int, programPosition: int, event: Event)
    | IndexError

  /**
   The reset button's square, anchored at the view's bottom-right corner in
   canvas coordinates: a scrolled tap is inside it exactly when the unscrolled
   tap is in the fixed on-screen square.
   */
  function ResetButtonHitArea(cfg: Config, v: Viewport): (r: Rect)
    ensures r.right - r.left == r.bottom - r.top == cfg.resetButtonSize
    ensures forall x, y :: r.Contains(v.scrollX + x, v.scrollY + y) <==> InResetSquare(cfg, v, x, y)
  {
    var left := v.scrollX + v.width - cfg.resetButtonSize - cfg.resetButtonMargin;
    var top := v.scrollY + v.height - cfg.resetButtonSize - cfg.resetButtonMargin;
    Rect(left, top, left + cfg.resetButtonSize, top + cfg.resetButtonSize)
  }

  /** The reset square in view coordinates: it does not move when the guide scrolls. */
  predicate InResetSquare(cfg: Config, v: Viewport, x: int, y: int) {
    && cfg.resetButtonSize > 0
    && v.width - cfg.resetButtonSize - cfg.resetButtonMargin <= x < v.width - cfg.resetButtonMargin
    && v.height - cfg.resetButtonSize - cfg.resetButtonMargin <= y < v.height - cfg.resetButtonMargin
  }

  /** Height of the hit areas below the time bar: all rows, or the view height if that is smaller. */
  function VisibleChannelsBottom(cfg: Config, v: Viewport, channelCount: int): int {
    var visibleChannelsHeight := channelCount * cfg.RowStride();
    if visibleChannelsHeight < v.height then visibleChannelsHeight else v.height
  }

  /** The channel column, in view coordinates. */
  function ChannelsHitArea(cfg: Config, v: Viewport, channelCount: int): (r: Rect)
    ensures forall x, y :: r.Contains(x, y) <==>
              0 <= x < cfg.channelWidth && cfg.timeBarHeight <= y < VisibleChannelsBottom(cfg, v, channelCount)
  {
    Rect(0, cfg.timeBarHeight, cfg.channelWidth, VisibleChannelsBottom(cfg, v, channelCount))
  }

  /** The event area right of the channel column, in view coordinates. */
  function ProgramsHitArea(cfg: Config, v: Viewport, channelCount: int): (r: Rect)
    ensures r.left == cfg.channelWidth
    ensures forall x, y :: r.Contains(x, y) <==>
              cfg.channelWidth <= x < v.width && cfg.timeBarHeight <= y < VisibleChannelsBottom(cfg, v, channelCount)
  {
    Rect(cfg.channelWidth, cfg.timeBarHeight, v.width, VisibleChannelsBottom(cfg, v, channelCount))
  }

  /** The two areas split at x = channelWidth, so no point is in both; they share their vertical extent. */
  lemma HitAreasDisjoint(cfg: Config, v: Viewport, channelCount: int, x: int, y: int)
    ensures ChannelsHitArea(cfg, v, channelCount).Contains(x, y) ==> 0 <= x < cfg.channelWidth
    ensures ProgramsHitArea(cfg, v, channelCount).Contains(x, y) ==> cfg.channelWidth <= x < v.width
    ensures !(ChannelsHitArea(cfg, v, channelCount).Contains(x, y) && ProgramsHitArea(cfg, v, channelCount).Contains(x, y))
  {
  }

  /**
   The channel row under a canvas y coordinate, or -1 for an empty guide.
   Each row claims the band that starts two margins above its top; because
   the division truncates toward zero, row 0 also claims the stride above its
   band, and a point above that gives a negative row.
   */
  function ChannelPosition(cfg: Config, channelCount: int, y: int): (r: int)
    requires cfg.Valid()
    ensures channelCount == 0 ==> r == -1
    ensures channelCount != 0 && y - cfg.timeBarHeight + cfg.channelMargin >= 0 ==>
              && r >= 0
              && TopFrom(cfg, r) - 2 * cfg.channelMargin <= y < TopFrom(cfg, r + 1) - 2 * cfg.channelMargin
    ensures channelCount != 0 && y - cfg.timeBarHeight + cfg.channelMargin <= 0 ==>
              && r <= 0
              && TopFrom(cfg, r - 1) - 2 * cfg.channelMargin < y <= TopFrom(cfg, r) - 2 * cfg.channelMargin
  {
    var s := cfg.RowStride();
    var y' := y - cfg.timeBarHeight;
    var channelPosition := Quot(y' + cfg.channelMargin, s);
    assert y' + cfg.channelMargin >= 0 ==>
             channelPosition * s <= y' + cfg.channelMargin < channelPosition * s + s
      by {
        if y' + cfg.channelMargin >= 0 {
          QuotFloor(y' + cfg.channelMargin, s);
        }
      }
    assert y' + cfg.channelMargin <= 0 ==>
             channelPosition * s - s < y' + cfg.channelMargin <= channelPosition * s
      by {
        if y' + cfg.channelMargin <= 0 {
          QuotCeil(y' + cfg.channelMargin, s);
        }
      }
    assert (channelPosition + 1) * s == channelPosition * s + s;
    assert (channelPosition - 1) * s == channelPosition * s - s;
    if channelCount == 0 then -1 else channelPosition
  }

  /** Index of the first event of `es`, from index `i` on, whose closed interval holds `time`; -1 if none. */
  function ProgramPositionFrom(es: seq<Event>, time: int, i: int): (r: int)
    requires 0 <= i <= |es|
    ensures r == -1 <==> forall k :: i <= k < |es| ==> !IsCurrent(es[k], time)
    ensures r != -1 ==> i <= r < |es| && IsCurrent(es[r], time)
    ensures r != -1 ==> forall k :: i <= k < r ==> !IsCurrent(es[k], time)
    decreases |es| - i
  {
    if i == |es| then -1
    else if es[i].start <= time && es[i].end >= time then i
    else ProgramPositionFrom(es, time, i + 1)
  }

  /** The event of a channel under a tapped time: the first one whose closed interval holds it, or -1. */
  function ProgramPosition(es: seq<Event>, time: int): (r: int)
    ensures r == -1 <==> forall k :: 0 <= k < |es| ==> !IsCurrent(es[k], time)
    ensures r != -1 ==> 0 <= r < |es| && IsCurrent(es[r], time)
    ensures r != -1 ==> forall k :: 0 <= k < r ==> !IsCurrent(es[k], time)
  {
    ProgramPositionFrom(es, time, 0)
  }

  /**
   On the boundary shared by back-to-back events the earlier one is picked:
   the result is never the later event, and it is the earlier one whenever
   that event has positive length.
   */
  lemma SharedBoundaryPicksEarlier(es: seq<Event>, i: int)
    requires SortedDisjoint(es)
    requires 0 <= i < |es| - 1 && es[i].end == es[i + 1].start
    ensures 0 <= ProgramPosition(es, es[i].end) <= i
    ensures es[i].start < es[i].end ==> ProgramPosition(es, es[i].end) == i
  {
    var t := es[i].end;
    assert IsCurrent(es[i], t);
    var r := ProgramPosition(es, t);
    if es[i].start < es[i].end && r < i {
      SortedPairwise(es, r, i);
    }
  }

  /**
   The time a tap in the event area resolves to. A tap on the event area's
   left edge resolves to the lower end of the frame window.
   */
  function TapTime(cfg: Config, v: Viewport, channelCount: int, x: int): (t: int)
    ensures v.millisPerPixel > 0 && v.width >= 0 && x == cfg.channelWidth ==> t == FrameWindow(v).lower
  {
    TimeFrom(v, v.scrollX + x - ProgramsHitArea(cfg, v, channelCount).left)
  }

  /**
   The time a tap resolves to is the time drawn two margins to the right of
   the tapped point.
   */
  lemma TapTimeDrawnRightOfTap(cfg: Config, v: Viewport, channelCount: int, x: int)
    requires v.millisPerPixel > 0
    ensures XFrom(cfg, v, TapTime(cfg, v, channelCount, x)) == v.scrollX + x + 2 * cfg.channelMargin
  {
    XFromTimeFrom(cfg, v, v.scrollX + x - cfg.channelWidth);
  }

  /**
   A single tap at view point (x, y). Nothing fires without a listener or
   for an empty guide. The reset square is tried first, in canvas
   coordinates; then the channel column; then the event area, which fires only
   when an event of the tapped row holds the tapped time.
   */
  function OnSingleTapUp(cfg: Config, v: Viewport, d: Data, hasListener: bool, x: int, y: int): (r: TapOutcome)
    requires cfg.Valid() && Aligned(d)
    ensures ChannelCount(d) == 0 || !hasListener ==> r == NoAction
    ensures r == ResetClicked <==>
              hasListener && ChannelPosition(cfg, ChannelCount(d), v.scrollY + y) != -1 && InResetSquare(cfg, v, x, y)
    ensures r.ChannelClicked? ==>
              && ChannelsHitArea(cfg, v, ChannelCount(d)).Contains(x, y)
              && !InResetSquare(cfg, v, x, y)
              && r.channelPosition == ChannelPosition(cfg, ChannelCount(d), v.scrollY + y)
              && 0 <= r.channelPosition < ChannelCount(d)
              && r.channel == GetChannel(d, r.channelPosition)
    ensures r.EventClicked? ==>
              && ProgramsHitArea(cfg, v, ChannelCount(d)).Contains(x, y)
              && !InResetSquare(cfg, v, x, y)
              && r.channelPosition == ChannelPosition(cfg, ChannelCount(d), v.scrollY + y)
              && 0 <= r.channelPosition < ChannelCount(d)
              && 0 <= r.programPosition < |GetEvents(d, r.channelPosition)|
              && r.event == GetEvent(d, r.channelPosition, r.programPosition)
              && IsCurrent(r.event, TapTime(cfg, v, ChannelCount(d), x))
              && forall k :: 0 <= k < r.programPosition ==>
                   !IsCurrent(GetEvents(d, r.channelPosition)[k], TapTime(cfg, v, ChannelCount(d), x))
    ensures var cp := ChannelPosition(cfg, ChannelCount(d), v.scrollY + y);
            hasListener && 0 <= cp < ChannelCount(d) && !InResetSquare(cfg, v, x, y) ==>
              && (ChannelsHitArea(cfg, v, ChannelCount(d)).Contains(x, y) ==> r == ChannelClicked(cp, GetChannel(d, cp)))
              && (ProgramsHitArea(cfg, v, ChannelCount(d)).Contains(x, y) ==>
                    var pp := ProgramPosition(GetEvents(d, cp), TapTime(cfg, v, ChannelCount(d), x));
                    r == if pp == -1 then NoAction else EventClicked(cp, pp, GetEvent(d, cp, pp)))
    ensures (&& !InResetSquare(cfg, v, x, y)
             && !ChannelsHitArea(cfg, v, ChannelCount(d)).Contains(x, y)
             && !ProgramsHitArea(cfg, v, ChannelCount(d)).Contains(x, y)) ==> r == NoAction
    ensures var cp := ChannelPosition(cfg, ChannelCount(d), v.scrollY + y);
            r == IndexError <==>
              && hasListener && cp != -1 && !InResetSquare(cfg, v, x, y)
              && (ChannelsHitArea(cfg, v, ChannelCount(d)).Contains(x, y)
                  || ProgramsHitArea(cfg, v, ChannelCount(d)).Contains(x, y))
              && !(0 <= cp < ChannelCount(d))
  {
    var count := ChannelCount(d);
    var scrolledX := v.scrollX + x;
    var scrolledY := v.scrollY + y;
    var channelPosition := ChannelPosition(cfg, count, scrolledY);
    if channelPosition == -1 || !hasListener then NoAction
    else if ResetButtonHitArea(cfg, v).Contains(scrolledX, scrolledY) then ResetClicked
    else if ChannelsHitArea(cfg, v, count).Contains(x, y) then
      if 0 <= channelPosition < count then ChannelClicked(channelPosition, GetChannel(d, channelPosition))
      else IndexError
    else if ProgramsHitArea(cfg, v, count).Contains(x, y) then
      if 0 <= channelPosition < count then
        var programPosition := ProgramPosition(GetEvents(d, channelPosition), TapTime(cfg, v, count, x));
        if programPosition != -1 then
          EventClicked(channelPosition, programPosition, GetEvent(d, channelPosition, programPosition))
        else NoAction
      else IndexError
    else NoAction
  }

  /**
   While the vertical offset is within its limits and the time bar is at least
   one margin tall, a tap in the channel column or the event area always
   resolves to a real channel row, so the lookups never fail.
   */
  lemma TapNeverOutOfRange(cfg: Config, v: Viewport, d: Data, hasListener: bool, x: int, y: int)
    requires cfg.Valid() && Aligned(d) && cfg.timeBarHeight >= cfg.channelMargin
    requires 0 <= v.scrollY <= MaxVerticalScroll(cfg, ChannelCount(d), v.height)
    ensures OnSingleTapUp(cfg, v, d, hasListener, x, y) != IndexError
  {
    var count := ChannelCount(d);
    var s := cfg.RowStride();
    if count > 0 && cfg.timeBarHeight <= y < VisibleChannelsBottom(cfg, v, count) {
      var num := v.scrollY + y - cfg.timeBarHeight + cfg.channelMargin;
      assert num < count * s by {
        if MaxVerticalScroll(cfg, count, v.height) > 0 {
          assert (count - 2) * s + 2 * s == count * s;
        }
      }
      QuotFloor(num, s);
      var p := Quot(num, s);
      if p >= count {
        MulMonotone(count, p, s);
      }
    }
  }

  /**
   Without that time-bar assumption the channel lookup can fail: with no time
   bar, a 4-pixel margin and one 60-pixel row, a tap 63 pixels down the
   channel column resolves to row 1 of a one-row guide.
   */
  lemma TapOutOfRangeWithoutTimeBar()
    ensures var cfg := Config(4, 60, 100, 0, 40, 8);
            var v := Viewport(600, 1000, 0, 0, 6000, 0, Window(0, 0), 1000, 0, Finished);
            var d := Data([Channel("1", "One", "logo")], [[]]);
            OnSingleTapUp(cfg, v, d, true, 10, 63) == IndexError
  {
    var cfg := Config(4, 60, 100, 0, 40, 8);
    var v := Viewport(600, 1000, 0, 0, 6000, 0, Window(0, 0), 1000, 0, Finished);
    assert Quot(67, 64) == 1;
    assert ChannelPosition(cfg, 1, 63) == 1;
    assert !InResetSquare(cfg, v, 10, 63);
    assert VisibleChannelsBottom(cfg, v, 1) == 64;
    assert ChannelsHitArea(cfg, v, 1).Contains(10, 63);
  }

  /**
   The reset square fires whether or not the button is drawn: with the view
   exactly at the start position the button is hidden, yet a tap in its
   square reports a reset.
   */
  lemma ResetTapNotGatedByVisibility()
    ensures var cfg := Config(4, 60, 100, 30, 40, 8);
            var v := Viewport(600, 400, 0, 0, 6000, 0, Window(0, 0), 1000, 0, Finished);
            var d := Data([Channel("1", "One", "logo")], [[]]);
            var now := 2952000;
            && XPositionStart(cfg, v, now) == v.scrollX
            && !Rendering.ShowResetButton(cfg, v, now)
            && OnSingleTapUp(cfg, v, d, true, 560, 360) == ResetClicked
  {
  }
}
