/** The capture layer: normalize_coords, the region handed to BitBlt,
    capture_screen (both variants), capture_screen_clipboard, and the screen
    rectangle built from the virtual-screen metrics. */
module Capture {
  import opened Bytes
  import opened Bmp
  import opened SaveBitmap

  /** The four corner coordinates main passes around (x1, y1, x2, y2). */
  datatype Coords = Coords(x1: int, y1: int, x2: int, y2: int)

  /** What capture_screen hands to CreateCompatibleBitmap and BitBlt: the
      source corner on the screen and the width and height of the copy. */
  datatype Blit = Blit(x: int, y: int, w: int, h: int)

  function Abs(v: int): nat { if v < 0 then -v else v }

  function Min(a: int, b: int): int { if a <= b then a else b }

  /** The value normalize_coords leaves behind its four pointers: each pair
      is swapped when it is out of order, and only then. */
  function Normalized(c: Coords): (r: Coords)
    ensures r.x1 <= r.x2 && r.y1 <= r.y2
    ensures multiset{r.x1, r.x2} == multiset{c.x1, c.x2}
    ensures multiset{r.y1, r.y2} == multiset{c.y1, c.y2}
    ensures c.x1 <= c.x2 ==> r.x1 == c.x1 && r.x2 == c.x2
    ensures c.y1 <= c.y2 ==> r.y1 == c.y1 && r.y2 == c.y2
  {
    var (x1, x2) := if c.x1 > c.x2 then (c.x2, c.x1) else (c.x1, c.x2);
    var (y1, y2) := if c.y1 > c.y2 then (c.y2, c.y1) else (c.y1, c.y2);
    Coords(x1, y1, x2, y2)
  }

  /** normalize_coords: two conditional swaps through the pointers. */
  method NormalizeCoords(x: int, y: int, x2: int, y2: int)
    returns (x': int, y': int, x2': int, y2': int)
    ensures x' <= x2' && y' <= y2'
    ensures multiset{x', x2'} == multiset{x, x2} && multiset{y', y2'} == multiset{y, y2}
    ensures Coords(x', y', x2', y2') == Normalized(Coords(x, y, x2, y2))
  {
    x', y', x2', y2' := x, y, x2, y2;
    if x' > x2' {
      var tmp := x';
      x' := x2';
      x2' := tmp;
    }
    if y' > y2' {
      var tmp := y';
      y' := y2';
      y2' := tmp;
    }
  }

  /** Normalising twice is normalising once. */
  lemma NormalizedIdempotent(c: Coords)
    ensures Normalized(Normalized(c)) == Normalized(c)
  {
  }

  /** Normalized is the only ordered rearrangement of each pair: any corners
      that are ordered and keep each pair's values are the normalised ones. */
  lemma NormalizedUnique(c: Coords, r: Coords)
    requires r.x1 <= r.x2 && r.y1 <= r.y2
    requires multiset{r.x1, r.x2} == multiset{c.x1, c.x2}
    requires multiset{r.y1, r.y2} == multiset{c.y1, c.y2}
    ensures r == Normalized(c)
  {
    var n := Normalized(c);
    PairUnique(r.x1, r.x2, n.x1, n.x2);
    PairUnique(r.y1, r.y2, n.y1, n.y2);
  }

  lemma PairUnique(a: int, b: int, p: int, q: int)
    requires a <= b && p <= q
    requires multiset{a, b} == multiset{p, q}
    ensures a == p && b == q
  {
    assert a in multiset{p, q} && b in multiset{p, q};
    assert p in multiset{a, b} && q in multiset{a, b};
  }

  /** The region spanned by corners, as both capture_screen functions
      compute it: w = x2 - x and h = y2 - y, with no sign check. */
  function RegionOf(c: Coords): (b: Blit)
    ensures b.x == c.x1 && b.y == c.y1
    ensures c.x1 + b.w == c.x2 && c.y1 + b.h == c.y2
  {
    Blit(c.x1, c.y1, c.x2 - c.x1, c.y2 - c.y1)
  }

  /** After normalising, the region starts at the smaller coordinates and
      its width and height are the distances |x2 - x| and |y2 - y|. */
  lemma NormalizedRegion(c: Coords)
    ensures var b := RegionOf(Normalized(c));
      && b.x == Min(c.x1, c.x2) && b.y == Min(c.y1, c.y2)
      && b.w == Abs(c.x2 - c.x1) && b.h == Abs(c.y2 - c.y1)
      && b.w >= 0 && b.h >= 0
  {
  }

  /** The variant without normalisation agrees with the normalising one on
      ordered corners and hands BitBlt a negative width or height otherwise. */
  lemma RawRegionAgreesWhenOrdered(c: Coords)
    ensures c.x1 <= c.x2 && c.y1 <= c.y2 ==> RegionOf(c) == RegionOf(Normalized(c))
    ensures c.x1 > c.x2 ==> RegionOf(c).w < 0
    ensures c.y1 > c.y2 ==> RegionOf(c).h < 0
  {
  }

  /** The outcome of BitBlt, and then the oracle for save_bitmap_file. */
  datatype CaptureOracle = CaptureOracle(bitBlt: bool, save: SaveOracle)

  /** What a file capture leaves behind: nothing at all when BitBlt fails. */
  function EnvAfterCapture(o: CaptureOracle, filename: string, env: Env): (e: Env)
    ensures !o.bitBlt ==> e == env
  {
    if o.bitBlt then EnvAfterSave(o.save, filename, env) else env
  }

  /** capture_screen in boxcutter.cpp: normalise, copy the region, save it.
      The result is true exactly when BitBlt and every step of the save
      succeed. */
  method CaptureScreen(filename: string, x: int, y: int, x2: int, y2: int,
                       o: CaptureOracle, env: Env)
    returns (ok: bool, blit: Blit, env': Env)
    ensures blit == RegionOf(Normalized(Coords(x, y, x2, y2)))
    ensures blit.w >= 0 && blit.h >= 0
    ensures ok <==> o.bitBlt && SaveSucceeds(o.save)
    ensures env' == EnvAfterCapture(o, filename, env)
  {
    var nx, ny, nx2, ny2 := NormalizeCoords(x, y, x2, y2);
    var w := nx2 - nx;
    var h := ny2 - ny;
    blit := Blit(nx, ny, w, h);
    if !o.bitBlt {
      return false, blit, env;
    }
    ok, env' := SaveBitmapFile(o.save, filename, env);
  }

  /** capture_screen in boxcutter-fs.cpp: the same, without normalisation. */
  method CaptureScreenFs(filename: string, x: int, y: int, x2: int, y2: int,
                         o: CaptureOracle, env: Env)
    returns (ok: bool, blit: Blit, env': Env)
    ensures blit == RegionOf(Coords(x, y, x2, y2))
    ensures ok <==> o.bitBlt && SaveSucceeds(o.save)
    ensures env' == EnvAfterCapture(o, filename, env)
  {
    var w := x2 - x;
    var h := y2 - y;
    blit := Blit(x, y, w, h);
    if !o.bitBlt {
      return false, blit, env;
    }
    ok, env' := SaveBitmapFile(o.save, filename, env);
  }

  /** The outcomes of BitBlt and of the three clipboard calls that can fail. */
  datatype ClipOracle = ClipOracle(bitBlt: bool, open: bool, empty: bool, setData: bool)

  datatype ClipCall = OpenClipboard | EmptyClipboard | SetClipboardData | CloseClipboard

  /** The clipboard calls capture_screen_clipboard makes, in order. */
  function ClipCalls(o: ClipOracle): seq<ClipCall> {
    if !o.bitBlt then []
    else if !o.open then [OpenClipboard]
    else if !o.empty then [OpenClipboard, EmptyClipboard, CloseClipboard]
    else [OpenClipboard, EmptyClipboard, SetClipboardData, CloseClipboard]
  }

  predicate ClipboardSucceeds(o: ClipOracle) {
    o.bitBlt && o.open && o.empty && o.setData
  }

  /** capture_screen_clipboard: the bitmap goes to the clipboard when it
      opens and empties; CloseClipboard follows a successful open whatever
      happens after it. */
  method CaptureScreenClipboard(x: int, y: int, x2: int, y2: int, o: ClipOracle)
    returns (ok: bool, blit: Blit, calls: seq<ClipCall>)
    ensures blit == RegionOf(Normalized(Coords(x, y, x2, y2)))
    ensures ok <==> ClipboardSucceeds(o)
    ensures calls == ClipCalls(o)
  {
    var nx, ny, nx2, ny2 := NormalizeCoords(x, y, x2, y2);
    var w := nx2 - nx;
    var h := ny2 - ny;
    blit := Blit(nx, ny, w, h);
    calls := [];
    if !o.bitBlt {
      return false, blit, calls;
    }
    ok := false;
    calls := calls + [OpenClipboard];
    if o.open {
      calls := calls + [EmptyClipboard];
      if o.empty {
        calls := calls + [SetClipboardData];
        if o.setData {
          ok := true;
        }
      }
      calls := calls + [CloseClipboard];
    }
  }

  /** CloseClipboard is called exactly when OpenClipboard succeeded, and then
      it is the last call; SetClipboardData is reached only through a
      successful open and empty, and the capture succeeds only through it. */
  lemma ClipboardProtocol(o: ClipOracle)
    ensures (CloseClipboard in ClipCalls(o)) <==> o.bitBlt && o.open
    ensures CloseClipboard in ClipCalls(o) ==> ClipCalls(o)[|ClipCalls(o)| - 1] == CloseClipboard
    ensures (SetClipboardData in ClipCalls(o)) <==> o.bitBlt && o.open && o.empty
    ensures ClipboardSucceeds(o) ==> SetClipboardData in ClipCalls(o)
    ensures o.bitBlt <==> |ClipCalls(o)| > 0
    ensures |ClipCalls(o)| > 0 ==> ClipCalls(o)[0] == OpenClipboard
  {
  }

  /** The metrics GetSystemMetrics reports for the virtual screen: the
      origin (SM_XVIRTUALSCREEN, SM_YVIRTUALSCREEN) and the size
      (SM_CXVIRTUALSCREEN, SM_CYVIRTUALSCREEN). */
  datatype Metrics = Metrics(x: int, y: int, cx: int, cy: int)

  datatype Rect = Rect(left: int, top: int, right: int, bottom: int)

  function Corners(r: Rect): Coords { Coords(r.left, r.top, r.right, r.bottom) }

  /** GetScreenRect / get_screen_rect as written: the sizes are stored as the
      right and bottom edges. */
  function ScreenRect(m: Metrics): (r: Rect)
    ensures r.left == m.x && r.top == m.y && r.right == m.cx && r.bottom == m.cy
  {
    Rect(m.x, m.y, m.cx, m.cy)
  }

  /** The rectangle the virtual screen occupies: its edges are the origin plus
      the size. */
  function VirtualScreenRect(m: Metrics): (r: Rect)
    ensures r.left == m.x && r.top == m.y
    ensures r.right - r.left == m.cx && r.bottom - r.top == m.cy
  {
    Rect(m.x, m.y, m.x + m.cx, m.y + m.cy)
  }

  /** A capture of the corrected rectangle copies the whole virtual screen. */
  lemma VirtualScreenRegion(m: Metrics)
    ensures RegionOf(Corners(VirtualScreenRect(m))) == Blit(m.x, m.y, m.cx, m.cy)
  {
  }

  /** The two rectangles agree exactly when the virtual screen starts at the
      origin, that is when no monitor lies left of or above the primary one. */
  lemma ScreenRectAgreesOnlyAtOrigin(m: Metrics)
    ensures ScreenRect(m) == VirtualScreenRect(m) <==> m.x == 0 && m.y == 0
  {
  }

  /** With a second 1920-pixel monitor left of the primary one, the virtual
      screen spans x in [-1920, 1920); the rectangle as written ends at 3840
      and a capture of it copies 5760 columns, not 3840. */
  lemma ScreenRectOvershoots()
    ensures var m := Metrics(-1920, 0, 3840, 1080);
      && ScreenRect(m).right == 3840 && VirtualScreenRect(m).right == 1920
      && RegionOf(Corners(ScreenRect(m))).w == 5760
      && RegionOf(Corners(VirtualScreenRect(m))).w == 3840
  {
  }
}
