/**
 The horizontal time axis of the guide: epoch milliseconds against pixels.

 Pixel 0 of the scrollable canvas stands for `timeOffset`, each pixel covers
 `millisPerPixel` milliseconds, and a time's x coordinate is shifted right by
 the channel column and its two margins. The scale is derived from the
 display width so that the viewport spans two hours.
 */
module TimeAxis {
  import opened JavaInt
  import opened Geometry

  /** Milliseconds per pixel for a display of the given width, by Java integer division. */
  function MillisPerPixel(displayWidth: int): (mpp: int)
    requires displayWidth > 0
    ensures mpp >= 0
    ensures mpp * displayWidth <= HoursInViewportMillis < (mpp + 1) * displayWidth
    ensures mpp > 0 <==> displayWidth <= HoursInViewportMillis
  {
    QuotFloor(HoursInViewportMillis, displayWidth);
    assert (Quot(HoursInViewportMillis, displayWidth) + 1) * displayWidth
        == Quot(HoursInViewportMillis, displayWidth) * displayWidth + displayWidth;
    Quot(HoursInViewportMillis, displayWidth)
  }

  /**
   The time at canvas pixel x: pixel 0 stands for the time offset, and every
   pixel time lies a whole number of pixels' worth of milliseconds from it.
   */
  function TimeFrom(v: Viewport, x: int): (t: int)
    ensures x == 0 ==> t == v.timeOffset
    ensures v.millisPerPixel > 0 ==> (t - v.timeOffset) % v.millisPerPixel == 0
    ensures x >= 0 && v.millisPerPixel >= 0 ==> t >= v.timeOffset
  {
    assert v.millisPerPixel > 0 ==> (x * v.millisPerPixel) % v.millisPerPixel == 0 by {
      if v.millisPerPixel > 0 {
        DivUnique(x * v.millisPerPixel, v.millisPerPixel, x);
      }
    }
    assert x >= 0 && v.millisPerPixel >= 0 ==> x * v.millisPerPixel >= 0 by {
      if x >= 0 && v.millisPerPixel >= 0 {
        MulMonotone(0, x, v.millisPerPixel);
      }
    }
    x * v.millisPerPixel + v.timeOffset
  }

  /**
   The canvas x coordinate at which a time is drawn, shifted right by the
   channel column and its two margins. Because the division truncates toward
   zero, a time at or after the origin goes to the pixel p whose span holds it,
   TimeFrom(p) <= time < TimeFrom(p + 1), and a time before the origin to the
   pixel p with TimeFrom(p - 1) < time <= TimeFrom(p).
   */
  function XFrom(cfg: Config, v: Viewport, time: int): (x: int)
    requires v.millisPerPixel > 0
    ensures time >= v.timeOffset ==>
              TimeFrom(v, x - cfg.AxisStart()) <= time < TimeFrom(v, x - cfg.AxisStart() + 1)
    ensures time <= v.timeOffset ==>
              TimeFrom(v, x - cfg.AxisStart() - 1) < time <= TimeFrom(v, x - cfg.AxisStart())
  {
    var m := v.millisPerPixel;
    var p := Quot(time - v.timeOffset, m);
    QuotBounds(time - v.timeOffset, m);
    assert (p + 1) * m == p * m + m;
    assert (p - 1) * m == p * m - m;
    p + cfg.AxisStart()
  }

  /** Later pixels stand for strictly later times. */
  lemma TimeFromStrictlyIncreasing(v: Viewport, x: int, y: int)
    requires v.millisPerPixel > 0 && x < y
    ensures TimeFrom(v, x) < TimeFrom(v, y)
  {
    MulMonotone(x + 1, y, v.millisPerPixel);
  }

  /** Later times are never drawn further left. */
  lemma XFromMonotone(cfg: Config, v: Viewport, t1: int, t2: int)
    requires v.millisPerPixel > 0 && t1 <= t2
    ensures XFrom(cfg, v, t1) <= XFrom(cfg, v, t2)
  {
    QuotMonotone(t1 - v.timeOffset, t2 - v.timeOffset, v.millisPerPixel);
  }

  /** The time of a pixel is drawn exactly at that pixel, shifted by the reserved channel column. */
  lemma XFromTimeFrom(cfg: Config, v: Viewport, x: int)
    requires v.millisPerPixel > 0
    ensures XFrom(cfg, v, TimeFrom(v, x)) == x + cfg.AxisStart()
  {
    QuotOfMultiple(x, v.millisPerPixel);
  }

  /**
   Going from a time to its pixel and back loses less than one pixel's worth
   of milliseconds; for times at or after the origin the pixel is the one
   whose span contains the time.
   */
  lemma TimeFromXFrom(cfg: Config, v: Viewport, t: int)
    requires v.millisPerPixel > 0
    ensures t - v.millisPerPixel < TimeFrom(v, XFrom(cfg, v, t) - cfg.AxisStart()) < t + v.millisPerPixel
    ensures t >= v.timeOffset ==>
              TimeFrom(v, XFrom(cfg, v, t) - cfg.AxisStart()) <= t < TimeFrom(v, XFrom(cfg, v, t) - cfg.AxisStart() + 1)
  {
    var p := XFrom(cfg, v, t) - cfg.AxisStart();
    QuotBounds(t - v.timeOffset, v.millisPerPixel);
    assert (p + 1) * v.millisPerPixel == p * v.millisPerPixel + v.millisPerPixel;
  }

  /**
   The time window of the current frame: the times of canvas pixels scrollX
   and scrollX + width. These are drawn AxisStart pixels further right, so the
   window ends past the view's right edge.
   */
  function FrameWindow(v: Viewport): (w: Window)
    requires v.millisPerPixel > 0 && v.width >= 0
    ensures w.lower <= w.upper
    ensures w.upper - w.lower == v.width * v.millisPerPixel
  {
    MulMonotone(0, v.width, v.millisPerPixel);
    assert (v.scrollX + v.width) * v.millisPerPixel == v.scrollX * v.millisPerPixel + v.width * v.millisPerPixel;
    Window(TimeFrom(v, v.scrollX), TimeFrom(v, v.scrollX + v.width))
  }

  /**
   The frame window's lower end is drawn exactly at the left edge of the event
   area, right of the channel column; its upper end is drawn AxisStart pixels
   past the view's right edge.
   */
  lemma FrameWindowAtEdges(cfg: Config, v: Viewport)
    requires v.millisPerPixel > 0 && v.width >= 0
    ensures XFrom(cfg, v, FrameWindow(v).lower) == v.scrollX + cfg.AxisStart()
    ensures XFrom(cfg, v, FrameWindow(v).upper) == v.scrollX + v.width + cfg.AxisStart()
  {
    XFromTimeFrom(cfg, v, v.scrollX);
    XFromTimeFrom(cfg, v, v.scrollX + v.width);
  }

  /**
   Re-derives the scale from the display width, re-anchors pixel 0 at three
   days before `now`, and sets the window to the first view width of the canvas.
   */
  function ResetBoundaries(v: Viewport, displayWidth: int, now: int): (v': Viewport)
    requires displayWidth > 0
    ensures v'.millisPerPixel == MillisPerPixel(displayWidth)
    ensures TimeFrom(v', 0) == now - DaysBackMillis
    ensures v'.window.lower == now - DaysBackMillis
    ensures v'.window.upper == now - DaysBackMillis + v.width * v'.millisPerPixel
    ensures v' == v.(millisPerPixel := v'.millisPerPixel, timeOffset := v'.timeOffset, window := v'.window)
  {
    var scaled := v.(millisPerPixel := MillisPerPixel(displayWidth), timeOffset := now - DaysBackMillis);
    scaled.(window := Window(TimeFrom(scaled, 0), TimeFrom(scaled, v.width)))
  }

  /** Width in pixels of the six-day canvas, narrowed to a Java int. */
  function MaxHorizontalScroll(millisPerPixel: int): (r: int)
    requires millisPerPixel > 0
    ensures r >= 0 && FitsInt(r)
    ensures r * millisPerPixel <= DaysBackMillis + DaysForwardMillis < (r + 1) * millisPerPixel
  {
    QuotFloor(DaysBackMillis + DaysForwardMillis, millisPerPixel);
    assert (Quot(DaysBackMillis + DaysForwardMillis, millisPerPixel) + 1) * millisPerPixel
        == Quot(DaysBackMillis + DaysForwardMillis, millisPerPixel) * millisPerPixel + millisPerPixel;
    MulMonotone(1, millisPerPixel, Quot(DaysBackMillis + DaysForwardMillis, millisPerPixel));
    Quot(DaysBackMillis + DaysForwardMillis, millisPerPixel)
  }

  /** At the horizontal scroll limit the view's left edge is the last pixel that starts inside the six-day range. */
  lemma MaxHorizontalScrollEndsRange(v: Viewport)
    requires v.millisPerPixel > 0
    requires v.maxHorizontalScroll == MaxHorizontalScroll(v.millisPerPixel)
    ensures TimeFrom(v, v.maxHorizontalScroll) <= v.timeOffset + DaysBackMillis + DaysForwardMillis
    ensures v.timeOffset + DaysBackMillis + DaysForwardMillis < TimeFrom(v, v.maxHorizontalScroll + 1)
  {
    var r := v.maxHorizontalScroll;
    assert (r + 1) * v.millisPerPixel == r * v.millisPerPixel + v.millisPerPixel;
  }

  /**
   The start position: the scroll offset at which the time one hour before
   `now` is drawn: from the origin on, the pixel whose span holds that time,
   and before the origin the pixel p with TimeFrom(p - 1) < time <= TimeFrom(p).
   */
  function XPositionStart(cfg: Config, v: Viewport, now: int): (x: int)
    requires v.millisPerPixel > 0
    ensures now - HoursInViewportMillis / 2 >= v.timeOffset ==>
              TimeFrom(v, x - cfg.AxisStart()) <= now - HoursInViewportMillis / 2 < TimeFrom(v, x - cfg.AxisStart() + 1)
    ensures now - HoursInViewportMillis / 2 <= v.timeOffset ==>
              TimeFrom(v, x - cfg.AxisStart() - 1) < now - HoursInViewportMillis / 2 <= TimeFrom(v, x - cfg.AxisStart())
  {
    XFrom(cfg, v, now - HoursInViewportMillis / 2)
  }

  /**
   Right after the axis is re-anchored at `now`, the start position depends on
   the scale and the layout only, not on the clock.
   */
  lemma StartPositionAfterReset(cfg: Config, v: Viewport, displayWidth: int, now: int)
    requires 0 < displayWidth <= HoursInViewportMillis
    ensures XPositionStart(cfg, ResetBoundaries(v, displayWidth, now), now)
         == (DaysBackMillis - HoursInViewportMillis / 2) / MillisPerPixel(displayWidth) + cfg.AxisStart()
  {
  }

  /** A 1200-pixel display shows 6000 ms per pixel, and the axis origin is drawn at the right edge of the channel column. */
  lemma WideDisplayScale(cfg: Config, v: Viewport)
    requires v.millisPerPixel == MillisPerPixel(1200)
    ensures v.millisPerPixel == 6000
    ensures XFrom(cfg, v, v.timeOffset) == cfg.AxisStart()
  {
  }
}
