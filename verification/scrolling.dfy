/**
 The scroll state of the guide: panning clamped to the scroll limits, the
 recalculation that re-anchors the time axis and starts a scroll back to the
 current time, and the touch-down that stops a running scroll.

 The animator is opaque: it holds a final offset, and `FinishScroll` is its
 last step, which lands exactly on that offset. Intermediate animation frames
 and fling physics are not part of the model.
 */
module Scrolling {
  import opened Geometry
  import opened TimeAxis
  import opened RowLayout
  import EpgData

  /** Reference clamp of a value into [lo, hi]. */
  function Clamp(a: int, lo: int, hi: int): int
    requires lo <= hi
  {
    if a < lo then lo else if a > hi then hi else a
  }

  /**
   A pan by (dx, dy): the delta is cut back so that the offset stops at 0 or
   at the scroll limit instead of passing it.
   */
  function OnScroll(v: Viewport, dx: int, dy: int): (v': Viewport)
    ensures v.maxHorizontalScroll >= 0 ==> 0 <= v'.scrollX <= v.maxHorizontalScroll
    ensures v.maxVerticalScroll >= 0 ==> 0 <= v'.scrollY <= v.maxVerticalScroll
    ensures 0 <= v.scrollX + dx <= v.maxHorizontalScroll ==> v'.scrollX == v.scrollX + dx
    ensures 0 <= v.scrollY + dy <= v.maxVerticalScroll ==> v'.scrollY == v.scrollY + dy
    ensures v' == v.(scrollX := v'.scrollX, scrollY := v'.scrollY)
  {
    var x := v.scrollX;
    var y := v.scrollY;
    var dx1 := if x + dx < 0 then 0 - x else dx;
    var dy1 := if y + dy < 0 then 0 - y else dy;
    var dx2 := if x + dx1 > v.maxHorizontalScroll then v.maxHorizontalScroll - x else dx1;
    var dy2 := if y + dy1 > v.maxVerticalScroll then v.maxVerticalScroll - y else dy1;
    v.(scrollX := x + dx2, scrollY := y + dy2)
  }

  /** With non-negative limits a pan lands on the requested offset clamped into the limits, coordinate by coordinate. */
  lemma OnScrollIsClamp(v: Viewport, dx: int, dy: int)
    requires v.maxHorizontalScroll >= 0 && v.maxVerticalScroll >= 0
    ensures OnScroll(v, dx, dy).scrollX == Clamp(v.scrollX + dx, 0, v.maxHorizontalScroll)
    ensures OnScroll(v, dx, dy).scrollY == Clamp(v.scrollY + dy, 0, v.maxVerticalScroll)
  {
  }

  /** Panning back by the delta that was applied returns to the starting offset. */
  lemma OnScrollUndo(v: Viewport, dx: int, dy: int)
    requires v.ScrollInBounds()
    ensures var v' := OnScroll(v, dx, dy);
            OnScroll(v', v.scrollX - v'.scrollX, v.scrollY - v'.scrollY) == v
  {
  }

  /** A touch-down stops the animator where it is; the offset does not jump to the animator's target. */
  function OnDown(v: Viewport): (v': Viewport)
    ensures v'.scroller == Finished
    ensures v'.scrollX == v.scrollX && v'.scrollY == v.scrollY
    ensures v' == v.(scroller := Finished)
  {
    v.(scroller := Finished)
  }

  /** The animator's last step: the offset becomes its final offset and it stops. */
  function FinishScroll(v: Viewport): (v': Viewport)
    ensures v'.scroller == Finished
    ensures v.scroller.Running? ==> v'.scrollX == v.scroller.finalX && v'.scrollY == v.scroller.finalY
    ensures v.scroller == Finished ==> v' == v
    ensures v.scroller.Running? ==>
              v' == v.(scrollX := v.scroller.finalX, scrollY := v.scroller.finalY, scroller := Finished)
  {
    match v.scroller
    case Finished => v
    case Running(finalX, finalY, _) => v.(scrollX := finalX, scrollY := finalY, scroller := Finished)
  }

  /**
   Recalculation after a size change or new data: with data present, the time
   axis is re-anchored at `now`, both scroll limits are recomputed, and the
   animator is started toward the start position (600 ms or instantly); the
   offset itself does not move yet. Without data nothing changes.
   */
  function RecalculateAndRedraw(cfg: Config, v: Viewport, d: EpgData.Data, displayWidth: int, now: int,
                                withAnimation: bool): (v': Viewport)
    requires EpgData.HasData(d) ==> 0 < displayWidth <= HoursInViewportMillis
    ensures !EpgData.HasData(d) ==> v' == v
    ensures EpgData.HasData(d) ==>
              && v' == ResetBoundaries(v, displayWidth, now).(maxVerticalScroll := v'.maxVerticalScroll,
                                                             maxHorizontalScroll := v'.maxHorizontalScroll,
                                                             scroller := v'.scroller)
              && v'.millisPerPixel > 0
              && TimeFrom(v', 0) == now - DaysBackMillis
              && v'.maxHorizontalScroll == MaxHorizontalScroll(v'.millisPerPixel)
              && v'.maxVerticalScroll == MaxVerticalScroll(cfg, EpgData.ChannelCount(d), v.height)
              && v'.scrollX == v.scrollX && v'.scrollY == v.scrollY
              && v'.scroller == Running(XPositionStart(cfg, v', now), v.scrollY,
                                        if withAnimation then ResetAnimationMillis else 0)
  {
    if !EpgData.HasData(d) then v
    else
      var reset := ResetBoundaries(v, displayWidth, now);
      var bounded := reset.(maxVerticalScroll := MaxVerticalScroll(cfg, EpgData.ChannelCount(d), v.height),
                            maxHorizontalScroll := MaxHorizontalScroll(reset.millisPerPixel));
      bounded.(scroller := Running(XPositionStart(cfg, bounded, now), v.scrollY,
                                   if withAnimation then ResetAnimationMillis else 0))
  }

  /**
   Once the scroll started by a recalculation completes, the time one hour
   before `now` is drawn at the view's left edge; the vertical offset is kept.
   */
  lemma RecalculateThenFinish(cfg: Config, v: Viewport, d: EpgData.Data, displayWidth: int, now: int,
                              withAnimation: bool)
    requires EpgData.HasData(d) && 0 < displayWidth <= HoursInViewportMillis
    ensures var v' := FinishScroll(RecalculateAndRedraw(cfg, v, d, displayWidth, now, withAnimation));
            && v'.millisPerPixel > 0
            && XFrom(cfg, v', now - HoursInViewportMillis / 2) == v'.scrollX
            && v'.scrollY == v.scrollY
            && v'.scroller == Finished
  {
  }

  /** A touch-down before the first frame after a recalculation cancels the scroll back to the current time. */
  lemma TouchCancelsReset(cfg: Config, v: Viewport, d: EpgData.Data, displayWidth: int, now: int,
                          withAnimation: bool)
    requires EpgData.HasData(d) ==> 0 < displayWidth <= HoursInViewportMillis
    ensures var v' := FinishScroll(OnDown(RecalculateAndRedraw(cfg, v, d, displayWidth, now, withAnimation)));
            v'.scrollX == v.scrollX && v'.scrollY == v.scrollY
  {
  }
}
