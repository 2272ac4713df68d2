/**
 The vertical layout of the guide: channel rows stacked under the time bar,
 each `channelHeight` tall and followed by a `channelMargin` gap, and the
 range of rows a vertical scroll offset brings into view.
 */
module RowLayout {
  import opened JavaInt
  import opened Geometry

  /**
   Canvas y coordinate of the top of channel row `position`: row 0 starts one
   margin below the time bar, and no row starts above it.
   */
  function TopFrom(cfg: Config, position: int): (y: int)
    ensures position == 0 ==> y == cfg.timeBarHeight + cfg.channelMargin
    ensures cfg.Valid() && position >= 0 ==> y >= cfg.timeBarHeight + cfg.channelMargin
  {
    assert cfg.Valid() && position >= 0 ==> position * cfg.RowStride() >= 0 by {
      if cfg.Valid() && position >= 0 {
        MulMonotone(0, position, cfg.RowStride());
      }
    }
    position * cfg.RowStride() + cfg.channelMargin + cfg.timeBarHeight
  }

  /** Consecutive rows are one row height plus one margin apart. */
  lemma TopFromStep(cfg: Config, position: int)
    ensures TopFrom(cfg, position + 1) == TopFrom(cfg, position) + cfg.channelHeight + cfg.channelMargin
  {
  }

  /** A later row starts no earlier than the end of an earlier row and its margin. */
  lemma TopFromGap(cfg: Config, p: int, q: int)
    requires cfg.Valid() && p < q
    ensures TopFrom(cfg, p) + cfg.channelHeight + cfg.channelMargin <= TopFrom(cfg, q)
  {
    MulMonotone(p + 1, q, cfg.RowStride());
  }

  /**
   The first row to draw for the current vertical scroll: the row whose band
   (row plus the margin after it) holds the view's top edge, or row 0 when the
   top edge is above the rows.
   */
  function FirstVisibleChannel(cfg: Config, v: Viewport): (r: int)
    requires cfg.Valid()
    ensures r >= 0
    ensures v.scrollY < TopFrom(cfg, r + 1)
    ensures r > 0 ==> TopFrom(cfg, r) <= v.scrollY
  {
    var s := cfg.RowStride();
    var num := v.scrollY - cfg.channelMargin - cfg.timeBarHeight;
    var position := Quot(num, s);
    QuotBounds(num, s);
    assert (position + 1) * s == position * s + s;
    assert num < 0 ==> position <= 0 by {
      if num < 0 && position > 0 {
        MulMonotone(1, position, s);
      }
    }
    if position < 0 then 0 else position
  }

  /** Rows before the first visible one end at or above the view's top edge. */
  lemma RowsBeforeFirstAboveView(cfg: Config, v: Viewport, k: int)
    requires cfg.Valid()
    requires 0 <= k < FirstVisibleChannel(cfg, v)
    ensures TopFrom(cfg, k) + cfg.channelHeight <= v.scrollY
  {
    TopFromGap(cfg, k, FirstVisibleChannel(cfg, v));
  }

  /**
   The last row to draw: EPG.java's bottom row estimate, clamped to the
   last channel, plus one extra row when the bottom edge is below
   `position * channelHeight` and a further channel exists.
   */
  function LastVisibleChannel(cfg: Config, v: Viewport, channelCount: int): (r: int)
    requires cfg.Valid()
    ensures r <= channelCount - 1
    ensures r >= Quot(v.scrollY + v.height + cfg.timeBarHeight - cfg.channelMargin, cfg.RowStride())
         || r == channelCount - 1
    ensures r <= Quot(v.scrollY + v.height + cfg.timeBarHeight - cfg.channelMargin, cfg.RowStride()) + 1
  {
    var position := Quot(v.scrollY + v.height + cfg.timeBarHeight - cfg.channelMargin, cfg.RowStride());
    var clamped := if position > channelCount - 1 then channelCount - 1 else position;
    if v.scrollY + v.height > clamped * cfg.channelHeight && clamped < channelCount - 1 then clamped + 1 else clamped
  }

  /** Rows after the last visible one start at or below the view's bottom edge, so none of them is on screen. */
  lemma RowsAfterLastBelowView(cfg: Config, v: Viewport, channelCount: int, k: int)
    requires cfg.Valid()
    requires LastVisibleChannel(cfg, v, channelCount) < k < channelCount
    ensures TopFrom(cfg, k) >= v.scrollY + v.height
  {
    var s := cfg.RowStride();
    var num := v.scrollY + v.height + cfg.timeBarHeight - cfg.channelMargin;
    var position := Quot(num, s);
    QuotBounds(num, s);
    assert (position + 1) * s == position * s + s;
    assert TopFrom(cfg, position + 1) > v.scrollY + v.height;
    if k > position + 1 {
      TopFromGap(cfg, position + 1, k);
    }
  }

  /**
   The vertical scroll limit as written: the least non-negative offset that
   brings the bottom of row `channelCount - 2` (the second-to-last row) to the
   view's bottom edge.
   */
  function MaxVerticalScroll(cfg: Config, channelCount: int, height: int): (r: int)
    ensures r >= 0
    ensures r + height >= TopFrom(cfg, channelCount - 2) + cfg.channelHeight
    ensures r == 0 || r - 1 + height < TopFrom(cfg, channelCount - 2) + cfg.channelHeight
  {
    var maxVerticalScroll := TopFrom(cfg, channelCount - 2) + cfg.channelHeight;
    if maxVerticalScroll < height then 0 else maxVerticalScroll - height
  }

  /**
   When the rows do not fit the view, the limit stops one row short: at every
   allowed offset the last channel's row starts at or below the view's bottom
   edge and is never on screen.
   */
  lemma LastRowHiddenAtMaxScroll(cfg: Config, channelCount: int, height: int, scrollY: int)
    requires cfg.Valid()
    requires MaxVerticalScroll(cfg, channelCount, height) > 0
    requires scrollY <= MaxVerticalScroll(cfg, channelCount, height)
    ensures TopFrom(cfg, channelCount - 1) >= scrollY + height
  {
    TopFromStep(cfg, channelCount - 2);
  }

  /**
   Within the scroll limits of a non-empty guide the rows drawn form a
   non-empty range of real channel indices.
   */
  lemma VisibleRangeWithinChannels(cfg: Config, v: Viewport, channelCount: int)
    requires cfg.Valid() && channelCount >= 1 && v.height > 0
    requires 0 <= v.scrollY <= MaxVerticalScroll(cfg, channelCount, v.height)
    ensures 0 <= FirstVisibleChannel(cfg, v) <= LastVisibleChannel(cfg, v, channelCount) <= channelCount - 1
  {
    var s := cfg.RowStride();
    var y := v.scrollY;
    var top := y - cfg.channelMargin - cfg.timeBarHeight;
    var bottom := y + v.height + cfg.timeBarHeight - cfg.channelMargin;
    // The first row is a real channel.
    assert top <= (channelCount - 1) * s by {
      if MaxVerticalScroll(cfg, channelCount, v.height) > 0 {
        assert (channelCount - 2) * s + s == (channelCount - 1) * s;
      }
    }
    QuotMonotone(top, (channelCount - 1) * s, s);
    QuotOfMultiple(channelCount - 1, s);
    // The row under the bottom edge is not above the row under the top edge, and not negative.
    QuotMonotone(top, bottom, s);
    QuotBounds(bottom, s);
    if Quot(bottom, s) < 0 {
      MulMonotone(Quot(bottom, s), -1, s);
    }
  }
}
