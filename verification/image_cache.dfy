/**
 The channel-logo cache: decoded bitmaps by URL, plus the URLs whose load has
 been started and has not yet succeeded. A load is started only for a URL
 that is in neither; success stores the bitmap and forgets the pending entry;
 failure does nothing, so the URL stays pending and is never loaded again.

 The loader itself, its threads and its callbacks' delivery are outside the
 model: a started load is an action the draw pass returns, and its outcome is
 one of the two completion functions.
 */
module ImageCache {
  import opened Geometry
  import opened Domain
  import opened EpgData
  import opened RowLayout

  /** A decoded image; only its size is visible to the guide. */
  datatype Bitmap = Bitmap(width: int, height: int)

  datatype Cache = Cache(bitmaps: map<string, Bitmap>, pending: set<string>)

  /** What drawing one channel logo does: draw the cached bitmap, start a load, or wait for the load in flight. */
  datatype ImageAction = DrawImage(bitmap: Bitmap) | StartLoad(url: string, size: int) | AwaitLoad

  /** No URL is both cached and pending. */
  predicate Consistent(c: Cache) {
    forall url :: url in c.pending ==> url !in c.bitmaps
  }

  /** Loads ask for a square image the size of the channel cell's smaller side. */
  function LoadSize(cfg: Config): int {
    if cfg.channelHeight < cfg.channelWidth then cfg.channelHeight else cfg.channelWidth
  }

  /**
   The logo branch of drawing one channel row. A load starts exactly when the
   URL is neither cached nor pending; afterwards the URL is one or the other;
   the bitmaps never change here.
   */
  function RequestImage(cfg: Config, c: Cache, url: string): (res: (Cache, ImageAction))
    ensures res.0.bitmaps == c.bitmaps
    ensures res.1.StartLoad? <==> url !in c.bitmaps && url !in c.pending
    ensures res.1.StartLoad? ==> res.1.url == url && res.1.size == LoadSize(cfg) && res.0.pending == c.pending + {url}
    ensures !res.1.StartLoad? ==> res.0 == c
    ensures res.1.DrawImage? <==> url in c.bitmaps
    ensures res.1.DrawImage? ==> res.1.bitmap == c.bitmaps[url]
    ensures url in res.0.bitmaps || url in res.0.pending
  {
    if url in c.bitmaps then (c, DrawImage(c.bitmaps[url]))
    else if url !in c.pending then (c.(pending := c.pending + {url}), StartLoad(url, LoadSize(cfg)))
    else (c, AwaitLoad)
  }

  /** A successful load: the bitmap is stored under its URL and the URL stops being pending. */
  function OnBitmapLoaded(c: Cache, url: string, bitmap: Bitmap): (c': Cache)
    ensures url in c'.bitmaps && c'.bitmaps[url] == bitmap && url !in c'.pending
    ensures forall u :: u != url ==> (u in c'.bitmaps <==> u in c.bitmaps) && (u in c'.pending <==> u in c.pending)
    ensures forall u :: u != url && u in c.bitmaps ==> c'.bitmaps[u] == c.bitmaps[u]
  {
    Cache(c.bitmaps[url := bitmap], c.pending - {url})
  }

  /** A failed load changes nothing: the URL stays pending. */
  function OnBitmapFailed(c: Cache, url: string): (c': Cache)
    ensures c'.pending == c.pending && c'.bitmaps == c.bitmaps
  {
    c
  }

  /** Dropping the cached bitmaps; pending loads are kept. */
  function ClearImageCache(c: Cache): (c': Cache)
    ensures c'.bitmaps == map[] && c'.pending == c.pending
  {
    c.(bitmaps := map[])
  }

  /** Every cache operation keeps a consistent cache consistent. */
  lemma OperationsKeepConsistent(cfg: Config, c: Cache, url: string, bitmap: Bitmap)
    requires Consistent(c)
    ensures Consistent(RequestImage(cfg, c, url).0)
    ensures Consistent(OnBitmapLoaded(c, url, bitmap))
    ensures Consistent(OnBitmapFailed(c, url))
    ensures Consistent(ClearImageCache(c))
  {
  }

  /** Two requests for one URL with no completion in between start at most one load. */
  lemma RequestsDeduplicate(cfg: Config, c: Cache, url: string)
    ensures !RequestImage(cfg, RequestImage(cfg, c, url).0, url).1.StartLoad?
  {
  }

  /** After a started load succeeds, the next request draws the loaded bitmap and starts nothing. */
  lemma LoadThenDraw(cfg: Config, c: Cache, url: string, bitmap: Bitmap)
    requires RequestImage(cfg, c, url).1.StartLoad?
    ensures RequestImage(cfg, OnBitmapLoaded(RequestImage(cfg, c, url).0, url, bitmap), url).1 == DrawImage(bitmap)
  {
  }

  /**
   After a started load fails, that URL is never loaded again, not even after
   the cache is cleared: every later request only waits.
   */
  lemma FailedUrlNeverRetried(cfg: Config, c: Cache, url: string)
    requires RequestImage(cfg, c, url).1.StartLoad?
    ensures var failed := OnBitmapFailed(RequestImage(cfg, c, url).0, url);
            && RequestImage(cfg, failed, url).1 == AwaitLoad
            && RequestImage(cfg, ClearImageCache(failed), url).1 == AwaitLoad
  {
  }

  /** After a successful load and a clear, the URL is loaded afresh. */
  lemma ClearedUrlReloads(cfg: Config, c: Cache, url: string, bitmap: Bitmap)
    ensures RequestImage(cfg, ClearImageCache(OnBitmapLoaded(c, url, bitmap)), url).1 == StartLoad(url, LoadSize(cfg))
  {
  }

  /** The URLs of the loads among some actions. */
  function LoadedUrls(actions: seq<ImageAction>): set<string> {
    set a | a in actions && a.StartLoad? :: a.url
  }

  /**
   The channel column of a frame: the logo of every row from the first to the
   last visible one, in order. Each URL is loaded at most once per frame even
   when rows share a logo, only URLs neither cached nor pending are loaded,
   and afterwards every drawn row's URL is cached or pending. There is one
   action per row: a row whose logo is cached draws that bitmap, and a load is
   only ever of that row's own logo, at the load size.
   */
  method DrawChannelColumn(cfg: Config, v: Viewport, d: Data, c: Cache) returns (c': Cache, actions: seq<ImageAction>)
    requires cfg.Valid() && Aligned(d)
    ensures c'.bitmaps == c.bitmaps
    ensures c'.pending == c.pending + LoadedUrls(actions)
    ensures forall i, j :: 0 <= i < j < |actions| && actions[i].StartLoad? && actions[j].StartLoad? ==>
              actions[i].url != actions[j].url
    ensures forall a :: a in actions && a.StartLoad? ==> a.url !in c.bitmaps && a.url !in c.pending
    ensures forall pos :: FirstVisibleChannel(cfg, v) <= pos <= LastVisibleChannel(cfg, v, ChannelCount(d)) ==>
              d.channels[pos].imageUrl in c'.bitmaps || d.channels[pos].imageUrl in c'.pending
    ensures var firstPos, lastPos := FirstVisibleChannel(cfg, v), LastVisibleChannel(cfg, v, ChannelCount(d));
            && |actions| == (if firstPos <= lastPos then lastPos - firstPos + 1 else 0)
            && (forall i :: 0 <= i < |actions| ==>
                  (actions[i].DrawImage? <==> d.channels[firstPos + i].imageUrl in c.bitmaps))
            && (forall i :: 0 <= i < |actions| && actions[i].DrawImage? ==>
                  actions[i].bitmap == c.bitmaps[d.channels[firstPos + i].imageUrl])
            && (forall i :: 0 <= i < |actions| && actions[i].StartLoad? ==>
                  actions[i] == StartLoad(d.channels[firstPos + i].imageUrl, LoadSize(cfg)))
            && LoadedUrls(actions) <= set p | firstPos <= p <= lastPos :: d.channels[p].imageUrl
  {
    var firstPos := FirstVisibleChannel(cfg, v);
    var lastPos := LastVisibleChannel(cfg, v, ChannelCount(d));
    c', actions := DrawLogos(cfg, d.channels, c, firstPos, lastPos);
  }

  /** The logo loop over rows firstPos .. lastPos. */
  method DrawLogos(cfg: Config, channels: seq<Channel>, c: Cache, firstPos: int, lastPos: int)
    returns (c': Cache, actions: seq<ImageAction>)
    requires 0 <= firstPos && lastPos < |channels|
    ensures c'.bitmaps == c.bitmaps
    ensures c'.pending == c.pending + LoadedUrls(actions)
    ensures forall i, j :: 0 <= i < j < |actions| && actions[i].StartLoad? && actions[j].StartLoad? ==>
              actions[i].url != actions[j].url
    ensures forall a :: a in actions && a.StartLoad? ==> a.url !in c.bitmaps && a.url !in c.pending
    ensures forall pos :: firstPos <= pos <= lastPos ==>
              channels[pos].imageUrl in c'.bitmaps || channels[pos].imageUrl in c'.pending
    ensures |actions| == if firstPos <= lastPos then lastPos - firstPos + 1 else 0
    ensures forall i :: 0 <= i < |actions| ==>
              (actions[i].DrawImage? <==> channels[firstPos + i].imageUrl in c.bitmaps)
    ensures forall i :: 0 <= i < |actions| && actions[i].DrawImage? ==>
              actions[i].bitmap == c.bitmaps[channels[firstPos + i].imageUrl]
    ensures forall i :: 0 <= i < |actions| && actions[i].StartLoad? ==>
              actions[i] == StartLoad(channels[firstPos + i].imageUrl, LoadSize(cfg))
    ensures LoadedUrls(actions) <= set p | firstPos <= p <= lastPos :: channels[p].imageUrl
  {
    c' := c;
    actions := [];
    var pos := firstPos;
    while pos <= lastPos
      invariant firstPos <= pos
      invariant firstPos <= lastPos ==> pos <= lastPos + 1
      invariant firstPos > lastPos ==> actions == []
      invariant c'.bitmaps == c.bitmaps
      invariant c'.pending == c.pending + LoadedUrls(actions)
      invariant forall i, j :: 0 <= i < j < |actions| && actions[i].StartLoad? && actions[j].StartLoad? ==>
                  actions[i].url != actions[j].url
      invariant forall a :: a in actions && a.StartLoad? ==> a.url !in c.bitmaps && a.url !in c.pending
      invariant forall p :: firstPos <= p < pos && p <= lastPos ==>
                  channels[p].imageUrl in c'.bitmaps || channels[p].imageUrl in c'.pending
      invariant |actions| == pos - firstPos
      invariant forall i :: 0 <= i < |actions| ==>
                  (actions[i].DrawImage? <==> channels[firstPos + i].imageUrl in c.bitmaps)
      invariant forall i :: 0 <= i < |actions| && actions[i].DrawImage? ==>
                  actions[i].bitmap == c.bitmaps[channels[firstPos + i].imageUrl]
      invariant forall i :: 0 <= i < |actions| && actions[i].StartLoad? ==>
                  actions[i] == StartLoad(channels[firstPos + i].imageUrl, LoadSize(cfg))
    {
      var url := channels[pos].imageUrl;
      var step := RequestImage(cfg, c', url);
      assert LoadedUrls(actions + [step.1]) == LoadedUrls(actions) + LoadedUrls([step.1]);
      assert forall a :: a in actions && a.StartLoad? ==> a.url in c'.pending;
      c', actions := step.0, actions + [step.1];
      pos := pos + 1;
    }
    forall url | url in LoadedUrls(actions)
      ensures url in set p | firstPos <= p <= lastPos :: channels[p].imageUrl
    {
      var a :| a in actions && a.StartLoad? && a.url == url;
      var i :| 0 <= i < |actions| && actions[i] == a;
      assert channels[firstPos + i].imageUrl == url;
    }
  }
}
