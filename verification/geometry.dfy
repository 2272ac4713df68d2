/**
 The guide view's constants, its layout configuration and its viewport state.

 The configuration holds the dimension resources the view reads once when it
 is built; the viewport holds what changes at run time: the view size, the
 scroll offset, the time axis (milliseconds per pixel and the time at pixel 0),
 the visible time window, the scroll limits and the scroll animator.
 */
module Geometry {

  const DaysBackMillis: int := 3 * 24 * 60 * 60 * 1000
  const DaysForwardMillis: int := 3 * 24 * 60 * 60 * 1000
  const HoursInViewportMillis: int := 2 * 60 * 60 * 1000
  const TimeLabelSpacingMillis: int := 30 * 60 * 1000
  /** Duration of the animated scroll back to the current time. */
  const ResetAnimationMillis: int := 600

  /** Pixel sizes of the grid, the time bar and the reset button. */
  datatype Config = Config(
    channelMargin: int,
    channelHeight: int,
    channelWidth: int,
    timeBarHeight: int,
    resetButtonSize: int,
    resetButtonMargin: int)
  {
    /** Dimension resources are never negative, and a row plus its margin has some height. */
    predicate Valid() {
      && channelMargin >= 0 && channelHeight >= 0 && channelWidth >= 0
      && timeBarHeight >= 0 && resetButtonSize >= 0 && resetButtonMargin >= 0
      && channelHeight + channelMargin > 0
    }

    /** Vertical distance from the top of one channel row to the top of the next. */
    function RowStride(): int {
      channelHeight + channelMargin
    }

    /** Horizontal pixels reserved left of the time axis: the channel column and a margin on each side. */
    function AxisStart(): int {
      channelMargin + channelWidth + channelMargin
    }
  }

  /** The closed time range [lower, upper] the grid currently shows. */
  datatype Window = Window(lower: int, upper: int)

  /**
   The scroll animator, kept opaque: either idle, or moving toward a final
   offset over some duration.
   */
  datatype Scroller = Finished | Running(finalX: int, finalY: int, duration: int)

  datatype Viewport = Viewport(
    width: int,
    height: int,
    scrollX: int,
    scrollY: int,
    millisPerPixel: int,
    timeOffset: int,
    window: Window,
    maxHorizontalScroll: int,
    maxVerticalScroll: int,
    scroller: Scroller)
  {
    /** The scroll offset lies inside the scroll limits. */
    predicate ScrollInBounds() {
      && 0 <= scrollX <= maxHorizontalScroll
      && 0 <= scrollY <= maxVerticalScroll
    }
  }

  /** An axis-aligned rectangle, right and bottom edges exclusive. */
  datatype Rect = Rect(left: int, top: int, right: int, bottom: int)
  {
    /** Hit test as the platform does it: an empty rectangle contains nothing. */
    predicate Contains(x: int, y: int) {
      left < right && top < bottom && left <= x < right && top <= y < bottom
    }
  }
}
