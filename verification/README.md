# Android TV programme guide: coordinate and viewport engine

This project models the core of the `EPG` guide view in Dafny. The guide draws a grid:
channel logos run down the left, events run along a horizontal time axis, and a time
bar sits on top. The model covers:

- the time axis: milliseconds per pixel, time to pixel and back, and the visible time
  window of a frame;
- the row layout: the top of each row, the first and last visible rows, and the
  horizontal and vertical scroll limits;
- pan clamping, the touch-down that stops a running scroll, and the recalculation that
  scrolls back to the current time;
- what a frame draws: event visibility, the draw loop that stops at the first invisible
  event after a visible one, the event cells, the "now" line, the time-bar labels and
  the reset-button threshold;
- tap hit-testing: the reset square, the channel column, the event area, and the
  channel and event lookups;
- the channel-logo cache, which keeps loaded bitmaps plus one pending marker per URL;
- the map-backed data adapter (both copies) and the event record with its "is current"
  test.

Everything is a pure function over immutable records. `Geometry.Config` holds the
dimension resources. `Geometry.Viewport` holds the view size, scroll offset, time axis,
frame window, scroll limits and an opaque scroll animator. The wall clock is a `now`
parameter. Java's truncating integer division is `JavaInt.Quot`, because Dafny's `/` is
Euclidean and several numerators can be negative. A tap that would make the Java code
index a list out of range returns `HitTest.IndexError` instead of throwing.

Modules, in dependency order: `JavaInt`, `Domain`, `EpgData`, `Geometry`, `TimeAxis`,
`RowLayout`, `Scrolling`, `Rendering`, `HitTest`, `ImageCache`.

Behaviours of the code the model keeps as written:

- A failed logo load leaves its URL pending for good, so that logo is never requested
  again, not even after the cache is cleared.
- The "now" line is drawn for times in the half-open window `[lower, upper)`. Event
  visibility uses the closed window.
- A tap in the reset square fires whether or not the button is drawn. The button is
  drawn only beyond one third of the view width from the start position.
- The vertical scroll limit is computed from row `count - 2`, so the last channel row
  never scrolls into view when the rows overflow the view.
- The event-area tap resolves to the time drawn two margins to the right of the tapped
  pixel. The row bands used by the tap lookup start two margins above the drawn rows.
- The recalculation does not re-clamp the vertical offset to the new limit, and its
  scroll target is not clamped to the horizontal limit.
- Milliseconds per pixel come from the display width, not from the view width.
- The frame window spans the times of canvas pixels `scrollX` to `scrollX + width`, but
  a time is drawn AxisStart pixels (the channel column and its two margins) right of its
  pixel. The window therefore reaches AxisStart pixels past the view's right edge, and a
  "now" line near the window's upper end is placed off screen.

## Model

| member | source | states |
|---|---|---|
| Domain.NewEvent | tvepg/src/main/java/se/kmdev/epg/domain/EPGEvent.java:8-28 | the accessors return exactly the constructor arguments, and a new event is not highlighted |
| Domain.IsCurrent | tvepg/src/main/java/se/kmdev/epg/domain/EPGEvent.java:30-33 | only a well-formed event is ever current, and a well-formed event is current at its start |
| Domain.CurrentInclusiveAtBothEnds | tvepg/src/main/java/se/kmdev/epg/domain/EPGEvent.java:30-33 | both ends of a well-formed event are current instants; one millisecond outside either end is not |
| Domain.InvertedNeverCurrent | tvepg/src/main/java/se/kmdev/epg/domain/EPGEvent.java:30-33 | an event whose end precedes its start is current at no instant |
| Domain.CurrentIgnoresSelection | tvepg/src/main/java/se/kmdev/epg/domain/EPGEvent.java:30-33 | whether an event is current does not depend on its highlight flag |
| Domain.SortedPairwise | app/src/main/java/se/kmdev/tvepg/epg/misc/MockDataService.java:68-75 | in a sorted, non-overlapping event list (the data-source assumption), every earlier event ends no later than every later one starts |
| Domain.BackToBackBothCurrent | tvepg/src/main/java/se/kmdev/epg/domain/EPGEvent.java:30-33 | when one event ends exactly as the next starts, both are current at that instant |
| Domain.TwoCurrentOnlyAtBoundary | tvepg/src/main/java/se/kmdev/epg/domain/EPGEvent.java:30-33 | in a sorted, non-overlapping list, two events are current together only at their shared boundary |
| EpgData.FromMap | tvepg/src/main/java/se/kmdev/epg/misc/EPGDataImpl.java:22-25 | the constructor yields one event list per channel, and row i holds the channel and the events of map entry i |
| EpgData.StoredAsGiven | app/src/main/java/se/kmdev/tvepg/epg/misc/EPGDataImpl.java:21-24 | reading the rows back gives exactly the input entries: nothing is sorted, dropped or checked |
| EpgData.FromEntries | app/src/main/java/se/kmdev/tvepg/epg/misc/EPGDataImpl.java:21-24 | every aligned adapter is the one built from its own rows, so the constructor is onto |
| EpgData.RowsComeFromOneEntry | app/src/main/java/se/kmdev/tvepg/epg/misc/EPGDataImpl.java:21-32 | after construction, `getChannel(i)` and `getEvents(i)` return the key and value of the same map entry |
| EpgData.GetChannel | tvepg/src/main/java/se/kmdev/epg/misc/EPGDataImpl.java:27-29 | the channel of row i is the key of the adapter's entry i |
| EpgData.GetEvents | tvepg/src/main/java/se/kmdev/epg/misc/EPGDataImpl.java:31-33 | the events of row i are the value of the adapter's entry i |
| EpgData.GetEvent | tvepg/src/main/java/se/kmdev/epg/misc/EPGDataImpl.java:27-37 | for in-range indices, `getEvent(c, p)` is element p of `getEvents(c)` |
| EpgData.ChannelCount | tvepg/src/main/java/se/kmdev/epg/misc/EPGDataImpl.java:39-41 | the channel count is also the number of event lists and of entries |
| EpgData.HasData | tvepg/src/main/java/se/kmdev/epg/misc/EPGDataImpl.java:39-46 | the adapter has data exactly when its channel count is positive |
| EpgData.CountMatchesInput | app/src/main/java/se/kmdev/tvepg/epg/misc/EPGDataImpl.java:38-45 | the channel count of a built adapter is the number of map entries, and it has data iff the map is non-empty |
| EpgData.CleanSelection | tvepg/src/main/java/se/kmdev/epg/misc/EPGDataImpl.java:49-56 | afterwards no event is selected; the channels, every list length and each event's start, end and title are unchanged |
| TimeAxis.MillisPerPixel | app/src/main/java/se/kmdev/tvepg/epg/EPG.java:503-505 | the scale is the floor of two hours over the display width, and it is positive iff the display is at most 7,200,000 pixels wide |
| TimeAxis.TimeFrom | app/src/main/java/se/kmdev/tvepg/epg/EPG.java:499-501 | pixel 0 stands for the time offset, every pixel time is a whole number of pixels from it, and no pixel at or right of 0 stands for an earlier time |
| TimeAxis.TimeFromStrictlyIncreasing | app/src/main/java/se/kmdev/tvepg/epg/EPG.java:499-501 | with a positive scale, a pixel further right stands for a strictly later time |
| TimeAxis.XFrom | app/src/main/java/se/kmdev/tvepg/epg/EPG.java:488-491 | a time at or after the origin is drawn at the pixel p with TimeFrom(p) <= time < TimeFrom(p+1), and one before the origin at the pixel p with TimeFrom(p-1) < time <= TimeFrom(p), both shifted right by the channel column and its margins |
| TimeAxis.XFromMonotone | app/src/main/java/se/kmdev/tvepg/epg/EPG.java:488-491 | with a positive scale, a later time is never drawn further left |
| TimeAxis.XFromTimeFrom | app/src/main/java/se/kmdev/tvepg/epg/EPG.java:488-501 | the time of pixel x is drawn at exactly x plus the channel column and its two margins |
| TimeAxis.TimeFromXFrom | app/src/main/java/se/kmdev/tvepg/epg/EPG.java:488-501 | time to pixel and back loses less than one pixel of milliseconds; from the origin on, the pixel's span contains the time |
| TimeAxis.FrameWindow | app/src/main/java/se/kmdev/tvepg/epg/EPG.java:141-142 | the frame window is ordered, and its length is the view width times the scale |
| TimeAxis.FrameWindowAtEdges | app/src/main/java/se/kmdev/tvepg/epg/EPG.java:141-142 | the window's lower end is drawn at the event area's left edge, and its upper end AxisStart pixels past the view's right edge |
| TimeAxis.ResetBoundaries | app/src/main/java/se/kmdev/tvepg/epg/EPG.java:511-516 | pixel 0 stands for three days before now, the window spans the first view width of the canvas, and nothing else changes |
| TimeAxis.MaxHorizontalScroll | app/src/main/java/se/kmdev/tvepg/epg/EPG.java:479-481 | the limit is the number of whole pixels in the six-day range, and the `(int)` cast never truncates it |
| TimeAxis.MaxHorizontalScrollEndsRange | app/src/main/java/se/kmdev/tvepg/epg/EPG.java:479-481 | at the horizontal limit the view's left edge is the last pixel that starts inside the six-day range |
| TimeAxis.XPositionStart | app/src/main/java/se/kmdev/tvepg/epg/EPG.java:507-509 | the start position is, from the origin on, the pixel whose span holds one hour before now, and before the origin the pixel p with TimeFrom(p-1) < now - 1 h <= TimeFrom(p) |
| TimeAxis.StartPositionAfterReset | app/src/main/java/se/kmdev/tvepg/epg/EPG.java:507-516 | right after a reset the start position depends only on the scale and the layout, not on the clock |
| TimeAxis.WideDisplayScale | app/src/main/java/se/kmdev/tvepg/epg/EPG.java:488-505 | a 1200-pixel display gives 6000 ms per pixel, and the axis origin is drawn at the channel column's right margin |
| RowLayout.TopFrom | app/src/main/java/se/kmdev/tvepg/epg/EPG.java:493-497 | row 0 starts one margin below the time bar, and no row at or after it starts higher |
| RowLayout.TopFromStep | app/src/main/java/se/kmdev/tvepg/epg/EPG.java:493-497 | consecutive rows are one row height plus one margin apart |
| RowLayout.TopFromGap | app/src/main/java/se/kmdev/tvepg/epg/EPG.java:493-497 | any later row starts at or below the end of an earlier row plus its margin |
| RowLayout.FirstVisibleChannel | app/src/main/java/se/kmdev/tvepg/epg/EPG.java:452-462 | the first visible row is non-negative, and its band holds the view's top edge (or the top edge is above row 0) |
| RowLayout.RowsBeforeFirstAboveView | app/src/main/java/se/kmdev/tvepg/epg/EPG.java:452-462 | every row before the first visible one ends at or above the view's top edge |
| RowLayout.LastVisibleChannel | app/src/main/java/se/kmdev/tvepg/epg/EPG.java:464-477 | the last visible row is at most `count - 1` and at most one row past the bottom-edge quotient, and at least that quotient unless clamped to the last channel |
| RowLayout.RowsAfterLastBelowView | app/src/main/java/se/kmdev/tvepg/epg/EPG.java:464-477 | every real row after the last visible one starts at or below the view's bottom edge |
| RowLayout.MaxVerticalScroll | app/src/main/java/se/kmdev/tvepg/epg/EPG.java:483-486 | the limit is non-negative, and it is the least offset that shows the bottom of row `count - 2` |
| RowLayout.LastRowHiddenAtMaxScroll | app/src/main/java/se/kmdev/tvepg/epg/EPG.java:483-486 | when the rows overflow the view, the last channel's row starts at or below the bottom edge at every allowed offset |
| RowLayout.VisibleRangeWithinChannels | app/src/main/java/se/kmdev/tvepg/epg/EPG.java:452-486 | within the scroll limits of a non-empty guide, 0 <= first visible row <= last visible row <= count - 1 |
| Scrolling.OnScroll | app/src/main/java/se/kmdev/tvepg/epg/EPG.java:655-679 | with non-negative limits the new offset is inside them from any start; an in-range delta is applied unchanged; nothing else changes |
| Scrolling.OnScrollIsClamp | app/src/main/java/se/kmdev/tvepg/epg/EPG.java:663-677 | each coordinate of a pan equals the requested offset clamped into [0, limit] |
| Scrolling.OnScrollUndo | app/src/main/java/se/kmdev/tvepg/epg/EPG.java:663-677 | from an in-bounds offset, panning back by the applied delta restores the viewport |
| Scrolling.OnDown | app/src/main/java/se/kmdev/tvepg/epg/EPG.java:692-699 | a touch-down stops the animator without moving the offset |
| Scrolling.FinishScroll | app/src/main/java/se/kmdev/tvepg/epg/EPG.java:156-159 | the animator's last step lands on its final offset and stops, and changes no other field (scale, limits, size, window); an idle animator changes nothing |
| Scrolling.RecalculateAndRedraw | app/src/main/java/se/kmdev/tvepg/epg/EPG.java:589-602 | with data, the viewport is the reset one (scale from the display width, origin three days before now, window over the first view width) with both limits recomputed and a 600 ms or instant scroll to the start position begun, y unchanged; size and offset do not change; without data nothing changes |
| Scrolling.RecalculateThenFinish | app/src/main/java/se/kmdev/tvepg/epg/EPG.java:596-598 | when that scroll completes, one hour before now is drawn at the view's left edge and the vertical offset is kept |
| Scrolling.TouchCancelsReset | app/src/main/java/se/kmdev/tvepg/epg/EPG.java:692-699 | a touch-down right after a recalculation leaves the offset where it was before the recalculation |
| Rendering.BeginFrame | app/src/main/java/se/kmdev/tvepg/epg/EPG.java:140-142 | a frame sets the window to the frame window and changes nothing else; the window is ordered |
| Rendering.IsEventVisible | app/src/main/java/se/kmdev/tvepg/epg/EPG.java:442-446 | for a well-formed event and window, the three-way test is exactly closed-interval intersection |
| Rendering.ShouldDrawTimeLine | app/src/main/java/se/kmdev/tvepg/epg/EPG.java:438-440 | the line is drawn iff the window shows the instant and it is before the upper end (lower <= now < upper), so only in a non-empty window and never at the upper end, though an event there is visible |
| Rendering.CurrentEventVisibleUnderNowLine | app/src/main/java/se/kmdev/tvepg/epg/EPG.java:438-446 | whenever the now line is drawn, every event current at that instant is visible |
| Rendering.NowLinePlacement | app/src/main/java/se/kmdev/tvepg/epg/EPG.java:268-275 | a drawn now line lies between the event area's left edge and AxisStart pixels past the view's right edge |
| Rendering.NowLineCanFallOffScreen | app/src/main/java/se/kmdev/tvepg/epg/EPG.java:141-142 | a concrete frame whose now line passes the test yet is placed at x = 707 in a 600-pixel view |
| Rendering.VisibleContiguous | app/src/main/java/se/kmdev/tvepg/epg/EPG.java:299-310 | in a sorted, non-overlapping list, an event between two visible events is visible |
| Rendering.StopLosesNothing | app/src/main/java/se/kmdev/tvepg/epg/EPG.java:303-309 | after a visible event, the first invisible one ends the visible run, so the break drops no visible event |
| Rendering.DrawRowEvents | app/src/main/java/se/kmdev/tvepg/epg/EPG.java:299-310 | every drawn event is visible and they form a prefix's visible events; for a sorted, non-overlapping list they are exactly the visible events, in order |
| Rendering.EventCell | app/src/main/java/se/kmdev/tvepg/epg/EPG.java:344-349 | a cell sits on its row's top with the row's height and is marked current iff the event is current; from the origin on, its left edge is the pixel whose span holds the start, and its right edge plus one margin the pixel whose span holds the end; it is not inverted beyond one margin |
| Rendering.VisibleCellMeetsWindow | app/src/main/java/se/kmdev/tvepg/epg/EPG.java:304-306 | the cell of an event visible in the frame window starts no further right than the window's upper end and ends, with its margin, no further left than its lower end |
| Rendering.BackToBackCellsLeaveMargin | app/src/main/java/se/kmdev/tvepg/epg/EPG.java:344-349 | cells of back-to-back events are exactly one margin apart |
| Rendering.DrawRows | app/src/main/java/se/kmdev/tvepg/epg/EPG.java:287-313 | every cell belongs to a row in the loop's range and is the cell of a visible event of that row; with sorted rows the cells are those of the visible events, row by row |
| Rendering.DrawEvents | app/src/main/java/se/kmdev/tvepg/epg/EPG.java:283-315 | the event pass draws cells only in the visible rows, each the cell of a visible event of its row, and with sorted rows exactly the visible events of those rows |
| Rendering.TickTime | app/src/main/java/se/kmdev/tvepg/epg/EPG.java:230-234 | each label time is a multiple of 30 minutes, and for slots after the epoch the nearest one to its slot |
| Rendering.TimebarTicks | app/src/main/java/se/kmdev/tvepg/epg/EPG.java:230-234 | there are four labels, each on a half-hour boundary |
| Rendering.TicksRoundToNearest | app/src/main/java/se/kmdev/tvepg/epg/EPG.java:230-234 | for times after the epoch each label is its slot rounded to the nearest half hour, and labels are exactly 30 minutes apart |
| Rendering.ShowResetButton | app/src/main/java/se/kmdev/tvepg/epg/EPG.java:178-181 | the reset button is never drawn when the view is at the start position |
| Rendering.ResetButtonHiddenAfterReset | app/src/main/java/se/kmdev/tvepg/epg/EPG.java:178-181 | once the scroll started by a recalculation completes, the reset button is hidden |
| Rendering.PanAwayShowsResetButton | app/src/main/java/se/kmdev/tvepg/epg/EPG.java:178-181 | at the start position, an in-limits horizontal pan shows the button iff it moves more than a third of the view width |
| HitTest.ChannelsHitArea | app/src/main/java/se/kmdev/tvepg/epg/EPG.java:518-525 | a tap is in the channel column iff 0 <= x < channel width and it lies between the time bar and the bottom of the rows or of the view, whichever is smaller |
| HitTest.ProgramsHitArea | app/src/main/java/se/kmdev/tvepg/epg/EPG.java:527-534 | a tap is in the event area iff channel width <= x < view width, over the same vertical extent as the channel column |
| HitTest.ResetButtonHitArea | app/src/main/java/se/kmdev/tvepg/epg/EPG.java:536-542 | the hit area is a square of the button size, and a scrolled tap is in it iff the unscrolled tap is in the fixed on-screen square |
| HitTest.HitAreasDisjoint | app/src/main/java/se/kmdev/tvepg/epg/EPG.java:518-534 | the two areas split at x = channel width, so no point is in both |
| HitTest.ChannelPosition | app/src/main/java/se/kmdev/tvepg/epg/EPG.java:544-550 | an empty guide gives -1; otherwise, for a y at or below one margin above the time bar's bottom, row r claims the band from two margins above its top to two margins above the next row's top, and for a y at or above it the truncation rounds up: r <= 0 and TopFrom(r-1) - 2 margins < y <= TopFrom(r) - 2 margins, so row 0 also claims the stride above its band |
| HitTest.ProgramPositionFrom | app/src/main/java/se/kmdev/tvepg/epg/EPG.java:557-563 | the scan from index i returns the first later index whose event holds the time, or -1 iff none does |
| HitTest.ProgramPosition | app/src/main/java/se/kmdev/tvepg/epg/EPG.java:552-566 | the result is -1 iff no event holds the time, and otherwise the smallest index whose event holds it |
| HitTest.SharedBoundaryPicksEarlier | app/src/main/java/se/kmdev/tvepg/epg/EPG.java:557-563 | on the boundary of back-to-back events the lookup never picks the later one |
| HitTest.TapTime | app/src/main/java/se/kmdev/tvepg/epg/EPG.java:644 | a tap on the event area's left edge resolves to the frame window's lower end |
| HitTest.TapTimeDrawnRightOfTap | app/src/main/java/se/kmdev/tvepg/epg/EPG.java:644 | the tapped time is the time drawn two margins to the right of the tapped pixel |
| HitTest.OnSingleTapUp | app/src/main/java/se/kmdev/tvepg/epg/EPG.java:624-652 | no listener or no channels gives no action; reset fires iff the tap is in the reset square; otherwise a tap on a real row in the channel column clicks that channel, and a tap in the event area clicks the first event holding the tapped time, or does nothing if none holds it; a click is reported only for the area that holds the tap; a tap outside the reset square and both areas does nothing; an index error happens iff there is a listener and channels, the tap is outside the reset square but in one of the two areas, and its row is past the last channel |
| HitTest.TapNeverOutOfRange | app/src/main/java/se/kmdev/tvepg/epg/EPG.java:634-647 | within the scroll limits, and with a time bar at least one margin tall, no tap makes the lookups index out of range |
| HitTest.TapOutOfRangeWithoutTimeBar | app/src/main/java/se/kmdev/tvepg/epg/EPG.java:544-550 | with no time bar, a tap near the bottom of a one-row guide resolves to row 1 and the channel lookup fails |
| HitTest.ResetTapNotGatedByVisibility | app/src/main/java/se/kmdev/tvepg/epg/EPG.java:636-638 | at the start position the button is hidden, yet a tap in its square reports a reset |
| ImageCache.RequestImage | app/src/main/java/se/kmdev/tvepg/epg/EPG.java:378-406 | a cached URL is drawn; a load of the cell's smaller side starts iff the URL is neither cached nor pending; afterwards the URL is one or the other |
| ImageCache.OnBitmapLoaded | app/src/main/java/se/kmdev/tvepg/epg/EPG.java:388-392 | success stores the bitmap, drops the pending marker, and leaves every other URL as it was |
| ImageCache.OnBitmapFailed | app/src/main/java/se/kmdev/tvepg/epg/EPG.java:395-397 | failure changes neither the bitmaps nor the pending markers |
| ImageCache.ClearImageCache | app/src/main/java/se/kmdev/tvepg/epg/EPG.java:616-618 | clearing empties the bitmaps and keeps the pending markers |
| ImageCache.OperationsKeepConsistent | app/src/main/java/se/kmdev/tvepg/epg/EPG.java:378-406 | no operation makes a URL both cached and pending |
| ImageCache.RequestsDeduplicate | app/src/main/java/se/kmdev/tvepg/epg/EPG.java:385-406 | two requests for one URL with no completion between them start at most one load |
| ImageCache.LoadThenDraw | app/src/main/java/se/kmdev/tvepg/epg/EPG.java:378-392 | after a started load succeeds, the next request draws that bitmap |
| ImageCache.FailedUrlNeverRetried | app/src/main/java/se/kmdev/tvepg/epg/EPG.java:385-397 | after a started load fails, every later request only waits, even after a clear |
| ImageCache.ClearedUrlReloads | app/src/main/java/se/kmdev/tvepg/epg/EPG.java:616-618 | after a successful load and a clear, the next request starts a fresh load |
| ImageCache.DrawChannelColumn | app/src/main/java/se/kmdev/tvepg/epg/EPG.java:361-366 | a frame's logo pass gives one action per visible row: it draws the cached bitmap iff that row's logo is cached; a load is of that row's own logo at the load size; each URL is loaded at most once, only if neither cached nor pending; every visible row's URL ends up cached or pending |
| ImageCache.DrawLogos | app/src/main/java/se/kmdev/tvepg/epg/EPG.java:364-406 | the same, for the logo loop over any range of rows |

## Left out

- Scroller physics: fling, intermediate animation frames and the friction setting are
  float internals of the platform animator. The animator is opaque and keeps only its
  final offset and duration.
- Canvas, paint and text drawing: colours, clip rectangles, text measuring and title
  truncation, the reset icon, and the float aspect-ratio padding of channel logos. These
  are foreign rendering calls and float arithmetic. The model returns cells and actions.
- The time-bar background and bottom stroke: these are fixed rectangles with no logic.
- The wall clock and the local time zone: the clock is a `now` parameter. The time-bar
  label text, which is Joda formatting, is left out.
- The image loader, its threads and callback delivery: a started load is an
  `ImageCache.StartLoad` action, and its outcome is one of the two completion functions.
- The demo activity, the mock data generator, the data and listener interfaces and the
  channel record: they have no behaviour. Channels and listener callbacks become
  datatypes, and the mock data's contiguous schedule becomes the `Domain.SortedDisjoint`
  assumption.
- The view constructor and resource loading: the resources become a `Geometry.Config`.
  `Geometry.Config.Valid` assumes they are non-negative and that a row plus its margin
  has height.
- `epgData == null`: the model always has an adapter, and an empty one plays the role of
  the null checks.
- Float-to-int casts of touch coordinates and scroll distances: taps and pan deltas
  arrive as integers.
- EpgData.CleanSelection: EPGDataImpl.java clears the flags in place on the event objects,
  and those objects are shared with the caller's map, because the constructor copies
  only the outer lists. So the clear is seen through every other reference to them.
  The model has no object identity: it returns a new adapter whose events are unselected
  and says nothing about other holders of the same events.
- TimeAxis.XFrom: the `(int)` cast of the pixel and Java's 32-bit and 64-bit
  wrap-around are not modelled. All arithmetic is unbounded. Only the horizontal limit's
  cast is shown never to truncate.
- TimeAxis.MillisPerPixel: a scale of zero, for a display wider than two hours in
  milliseconds, would divide by zero. Later functions require a positive scale.
- Scrolling.RecalculateAndRedraw: EPG.java reads the clock twice, once for the new
  origin and once for the start position. The model uses one `now` for both.
- Rendering.DrawEvents: the model only states that the cells drawn are exactly those of
  the visible events when every row is sorted and non-overlapping. For other lists it
  states that each cell is the cell of a visible event of its row, but not which of
  them are drawn. Rendering.DrawRowEvents also states that they come from a prefix of
  the row.
- HitTest.OnSingleTapUp: an index out of range is an `IndexError` outcome rather than an
  exception, and a missing listener is a flag.
