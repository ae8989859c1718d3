/** The canvas every decoded frame is drawn on: cleared, filled with the scaled picture, mirrored in
    place on request, and handed out. */
module VideoDecoder {
  import opened CanvasGeometry

  datatype Pixel = Pixel(b: int, g: int, r: int)

  const BLACK := Pixel(0, 0, 0)

  /** A decoded frame. `picture(w, h, x, y)` is the pixel at (x, y) once it is scaled to w by h. */
  datatype Frame = Frame(width: int, height: int, format: int, picture: (int, int, int, int) -> Pixel)

  type Picture = (int, int) -> Pixel

  function Scaled(f: Frame, g: Geometry): Picture {
    (x, y) => f.picture(g.scaledWidth, g.scaledHeight, x, y)
  }

  // ---- A flat buffer seen in two dimensions ----

  ghost function At(s: seq<Pixel>, width: int, height: int, x: int, y: int): Pixel
    requires 0 <= x < width && 0 <= y < height && |s| == width * height
  {
    IndexInRange(width, height, x, y);
    s[Index(width, x, y)]
  }

  predicate InRect(g: Geometry, x: int, y: int) {
    g.offsetX <= x < g.offsetX + g.scaledWidth && g.offsetY <= y < g.offsetY + g.scaledHeight
  }

  /** Two buffers that agree at every point are the same. */
  lemma SameCanvas(s: seq<Pixel>, t: seq<Pixel>, width: int, height: int)
    requires width > 0 && height > 0 && |s| == |t| == width * height
    requires forall x, y | 0 <= x < width && 0 <= y < height :: At(s, width, height, x, y) == At(t, width, height, x, y)
    ensures s == t
  {
    forall i | 0 <= i < |s|
      ensures s[i] == t[i]
    {
      var x, y := IndexOnto(width, height, i);
      assert At(s, width, height, x, y) == At(t, width, height, x, y);
    }
  }

  // ---- Mirroring ----

  /** The column that ends up at column x. */
  function MirrorX(g: Geometry, x: int): int {
    g.offsetX + (g.scaledWidth - 1 - (x - g.offsetX))
  }

  /** `t` is `s` with every row of the picture reversed and everything else untouched. */
  ghost predicate Mirrored(s: seq<Pixel>, t: seq<Pixel>, width: int, height: int, g: Geometry)
    requires Fits(g, width, height) && |s| == |t| == width * height
  {
    forall x, y | 0 <= x < width && 0 <= y < height ::
      At(t, width, height, x, y) == At(s, width, height, if InRect(g, x, y) then MirrorX(g, x) else x, y)
  }

  /** Mirroring twice gives the picture back. */
  lemma MirrorIsItsOwnInverse(s: seq<Pixel>, t: seq<Pixel>, u: seq<Pixel>, width: int, height: int, g: Geometry)
    requires Fits(g, width, height) && |s| == |t| == |u| == width * height
    requires Mirrored(s, t, width, height, g) && Mirrored(t, u, width, height, g)
    ensures u == s
  {
    forall x, y | 0 <= x < width && 0 <= y < height
      ensures At(u, width, height, x, y) == At(s, width, height, x, y)
    {
      if InRect(g, x, y) {
        assert InRect(g, MirrorX(g, x), y);
        assert At(u, width, height, x, y) == At(t, width, height, MirrorX(g, x), y);
        assert At(t, width, height, MirrorX(g, x), y) == At(s, width, height, MirrorX(g, MirrorX(g, x)), y);
      } else {
        assert At(u, width, height, x, y) == At(t, width, height, x, y);
      }
    }
    SameCanvas(u, s, width, height);
  }

  /** The middle column of an odd width stays where it is. */
  lemma MirrorKeepsMiddle(s: seq<Pixel>, t: seq<Pixel>, width: int, height: int, g: Geometry, y: int)
    requires Fits(g, width, height) && |s| == |t| == width * height && Mirrored(s, t, width, height, g)
    requires g.scaledWidth % 2 == 1 && 0 <= y < height
    ensures var middle := g.offsetX + g.scaledWidth / 2;
      At(t, width, height, middle, y) == At(s, width, height, middle, y)
  {
    assert MirrorX(g, g.offsetX + g.scaledWidth / 2) == g.offsetX + g.scaledWidth / 2;
  }

  // ---- What a delivered frame shows ----

  function Shown(g: Geometry, picture: Picture, flip: bool, x: int, y: int): Pixel {
    if InRect(g, x, y) then picture((if flip then MirrorX(g, x) else x) - g.offsetX, y - g.offsetY) else BLACK
  }

  /** Black, with only the current picture at its offset, mirrored row by row iff `flip`. */
  ghost predicate Shows(s: seq<Pixel>, width: int, height: int, g: Geometry, picture: Picture, flip: bool)
    requires |s| == width * height
  {
    forall x, y | 0 <= x < width && 0 <= y < height :: At(s, width, height, x, y) == Shown(g, picture, flip, x, y)
  }

  /** A delivered frame is determined by the current picture alone. */
  lemma ShowsIsUnique(s: seq<Pixel>, t: seq<Pixel>, width: int, height: int, g: Geometry, picture: Picture, flip: bool)
    requires width > 0 && height > 0 && |s| == |t| == width * height
    requires Shows(s, width, height, g, picture, flip) && Shows(t, width, height, g, picture, flip)
    ensures s == t
  {
    SameCanvas(s, t, width, height);
  }

  /** The delivered buffer pixel by pixel, row after row: the scaled picture inside its rectangle, with
      columns counted from the right iff `flip`, and zero bytes everywhere else. */
  lemma ShownPixel(s: seq<Pixel>, width: int, height: int, f: Frame, g: Geometry, flip: bool, x: int, y: int)
    requires |s| == width * height && Shows(s, width, height, g, Scaled(f, g), flip)
    requires 0 <= x < width && 0 <= y < height
    ensures 0 <= y * width + x < |s|
    ensures
      var column, row := x - g.offsetX, y - g.offsetY;
      s[y * width + x] ==
        if 0 <= column < g.scaledWidth && 0 <= row < g.scaledHeight
        then f.picture(g.scaledWidth, g.scaledHeight, if flip then g.scaledWidth - 1 - column else column, row)
        else Pixel(0, 0, 0)
  {
    IndexInRange(width, height, x, y);
    assert At(s, width, height, x, y) == Shown(g, Scaled(f, g), flip, x, y);
  }

  lemma MirrorOfShown(s: seq<Pixel>, t: seq<Pixel>, width: int, height: int, g: Geometry, picture: Picture)
    requires Fits(g, width, height) && |s| == |t| == width * height
    requires Shows(s, width, height, g, picture, false) && Mirrored(s, t, width, height, g)
    ensures Shows(t, width, height, g, picture, true)
  {
    forall x, y | 0 <= x < width && 0 <= y < height
      ensures At(t, width, height, x, y) == Shown(g, picture, true, x, y)
    {
      if InRect(g, x, y) {
        assert At(s, width, height, MirrorX(g, x), y) == Shown(g, picture, false, MirrorX(g, x), y);
      } else {
        assert At(s, width, height, x, y) == Shown(g, picture, false, x, y);
      }
    }
  }

  // ---- In-place operations on the buffer ----

  class Canvas {
    const width: int
    const height: int
    const pixels: array<Pixel>

    constructor (width: int, height: int)
      requires width >= 2 && height >= 2
      ensures Valid() && this.width == width && this.height == height && fresh(pixels)
    {
      this.width, this.height := width, height;
      assert width * height > 0 by { Positive(width, height); }
      pixels := new Pixel[width * height](_ => BLACK);
    }

    ghost predicate Valid() {
      width >= 2 && height >= 2 && pixels.Length == width * height
    }

    ghost function P(x: int, y: int): Pixel
      requires Valid() && 0 <= x < width && 0 <= y < height
      reads pixels
    {
      At(pixels[..], width, height, x, y)
    }

    method Get(x: int, y: int) returns (p: Pixel)
      requires Valid() && 0 <= x < width && 0 <= y < height
      ensures p == P(x, y)
    {
      IndexInRange(width, height, x, y);
      p := pixels[Index(width, x, y)];
    }

    method Set(x: int, y: int, p: Pixel)
      requires Valid() && 0 <= x < width && 0 <= y < height
      modifies pixels
      ensures P(x, y) == p
      ensures forall x', y' | 0 <= x' < width && 0 <= y' < height && (x' != x || y' != y) :: P(x', y') == old(P(x', y'))
    {
      IndexInRange(width, height, x, y);
      pixels[Index(width, x, y)] := p;
      forall x', y' | 0 <= x' < width && 0 <= y' < height && (x' != x || y' != y)
        ensures P(x', y') == old(P(x', y'))
      {
        IndexInRange(width, height, x', y');
        IndexDistinct(width, x, y, x', y');
      }
    }

    /** `std::fill` with zero. */
    method Clear()
      requires Valid()
      modifies pixels
      ensures forall x, y | 0 <= x < width && 0 <= y < height :: P(x, y) == BLACK
    {
      forall i | 0 <= i < pixels.Length {
        pixels[i] := BLACK;
      }
      forall x, y | 0 <= x < width && 0 <= y < height
        ensures P(x, y) == BLACK
      {
        IndexInRange(width, height, x, y);
      }
    }

    /** `sws_scale`: writes exactly the target rectangle. */
    method Draw(g: Geometry, picture: Picture)
      requires Valid() && Fits(g, width, height)
      modifies pixels
      ensures forall x, y | 0 <= x < width && 0 <= y < height ::
        P(x, y) == if InRect(g, x, y) then picture(x - g.offsetX, y - g.offsetY) else old(P(x, y))
    {
      var row := 0;
      while row < g.scaledHeight
        invariant 0 <= row <= g.scaledHeight
        invariant forall x, y | 0 <= x < width && 0 <= y < height ::
          P(x, y) == if InRect(g, x, y) && y < g.offsetY + row then picture(x - g.offsetX, y - g.offsetY)
                     else old(P(x, y))
      {
        DrawRow(g, picture, row);
        row := row + 1;
      }
    }

    method DrawRow(g: Geometry, picture: Picture, row: int)
      requires Valid() && Fits(g, width, height) && 0 <= row < g.scaledHeight
      modifies pixels
      ensures forall x, y | 0 <= x < width && 0 <= y < height ::
        P(x, y) == if InRect(g, x, y) && y == g.offsetY + row then picture(x - g.offsetX, y - g.offsetY)
                   else old(P(x, y))
    {
      var y0 := g.offsetY + row;
      var column := 0;
      while column < g.scaledWidth
        invariant 0 <= column <= g.scaledWidth
        invariant forall x, y | 0 <= x < width && 0 <= y < height ::
          P(x, y) == if y == y0 && g.offsetX <= x < g.offsetX + column then picture(x - g.offsetX, row)
                     else old(P(x, y))
      {
        Set(g.offsetX + column, y0, picture(column, row));
        column := column + 1;
      }
    }

    /** Mirrors the picture: in every row, swap from both ends toward the middle. */
    method Flip(g: Geometry)
      requires Valid() && Fits(g, width, height)
      modifies pixels
      ensures Mirrored(old(pixels[..]), pixels[..], width, height, g)
    {
      var row := 0;
      while row < g.scaledHeight
        invariant 0 <= row <= g.scaledHeight
        invariant forall x, y | 0 <= x < width && 0 <= y < height ::
          P(x, y) == old(P(if InRect(g, x, y) && y < g.offsetY + row then MirrorX(g, x) else x, y))
      {
        FlipRow(g, row);
        row := row + 1;
      }
    }

    method FlipRow(g: Geometry, row: int)
      requires Valid() && Fits(g, width, height) && 0 <= row < g.scaledHeight
      modifies pixels
      ensures forall x, y | 0 <= x < width && 0 <= y < height ::
        P(x, y) == old(P(if InRect(g, x, y) && y == g.offsetY + row then MirrorX(g, x) else x, y))
    {
      var y0 := g.offsetY + row;
      var i := 0;
      while i < g.scaledWidth / 2
        invariant 0 <= i <= g.scaledWidth / 2
        invariant forall x, y | 0 <= x < width && 0 <= y < height && (y != y0 || !Swapped(g, x, i)) ::
          P(x, y) == old(P(x, y))
        invariant forall x | 0 <= x < width && Swapped(g, x, i) :: P(x, y0) == old(P(MirrorX(g, x), y0))
      {
        var left, right := g.offsetX + i, g.offsetX + g.scaledWidth - 1 - i;
        SwapStep(g, i);
        SwapPixels(left, right, y0);
        i := i + 1;
      }
      SwapEnd(g);
    }

    method SwapPixels(x1: int, x2: int, y0: int)
      requires Valid() && 0 <= x1 < x2 < width && 0 <= y0 < height
      modifies pixels
      ensures P(x1, y0) == old(P(x2, y0)) && P(x2, y0) == old(P(x1, y0))
      ensures forall x, y | 0 <= x < width && 0 <= y < height && (y != y0 || (x != x1 && x != x2)) ::
        P(x, y) == old(P(x, y))
    {
      var a := Get(x1, y0);
      var b := Get(x2, y0);
      Set(x1, y0, b);
      Set(x2, y0, a);
    }
  }

  /** The columns of the picture that i swaps have dealt with, from both ends. */
  predicate Swapped(g: Geometry, x: int, i: int) {
    g.offsetX <= x < g.offsetX + i || g.offsetX + g.scaledWidth - i <= x < g.offsetX + g.scaledWidth
  }

  lemma SwapStep(g: Geometry, i: int)
    requires 0 <= i < g.scaledWidth / 2
    ensures var left, right := g.offsetX + i, g.offsetX + g.scaledWidth - 1 - i;
      && left < right && MirrorX(g, left) == right && MirrorX(g, right) == left
      && !Swapped(g, left, i) && !Swapped(g, right, i)
      && forall x :: Swapped(g, x, i + 1) <==> Swapped(g, x, i) || x == left || x == right
  {
  }

  lemma SwapEnd(g: Geometry)
    requires g.scaledWidth > 0
    ensures forall x | g.offsetX <= x < g.offsetX + g.scaledWidth ::
      Swapped(g, x, g.scaledWidth / 2) || MirrorX(g, x) == x
    ensures forall x | Swapped(g, x, g.scaledWidth / 2) :: g.offsetX <= x < g.offsetX + g.scaledWidth
  {
  }

  // ---- The decoder ----

  /** Can the scaler convert from this format and size to that size? */
  type ContextOk = (int, int, int, Geometry) -> bool

  class VideoDecoder {
    const canvas: Canvas
    const contextOk: ContextOk
    var srcWidth: int
    var srcHeight: int
    var lastFormat: int
    var geometry: Geometry
    var hasContext: bool

    /** `init` accepts any size, replacing those below 1 by 1920 and 1080. A side of 1 is left out here:
        on such a canvas some pictures do not fit (FitsEverywhereIff), and the drawing code has no check. */
    constructor (targetWidth: int, targetHeight: int, contextOk: ContextOk)
      requires targetWidth != 1 && targetHeight != 1
      ensures Valid() && fresh(canvas.pixels)
      ensures canvas.width == (if targetWidth > 0 then targetWidth else 1920)
      ensures canvas.height == (if targetHeight > 0 then targetHeight else 1080)
    {
      canvas := new Canvas(if targetWidth > 0 then targetWidth else 1920,
                           if targetHeight > 0 then targetHeight else 1080);
      this.contextOk := contextOk;
      srcWidth, srcHeight, lastFormat, geometry, hasContext := 0, 0, -1, Geometry(0, 0, 0, 0), false;
    }

    /** While the last source size is a proper one, geometry and scaler belong to it. */
    ghost predicate Valid()
      reads this
    {
      && canvas.Valid()
      && (srcWidth > 0 && srcHeight > 0 ==>
           && geometry == Fit(srcWidth, srcHeight, canvas.width, canvas.height)
           && hasContext == contextOk(srcWidth, srcHeight, lastFormat, geometry))
    }

    /** Frames the code delivers: a proper size that the scaler can convert. */
    predicate Deliverable(f: Frame) {
      && f.width > 0 && f.height > 0
      && contextOk(f.width, f.height, f.format, Fit(f.width, f.height, canvas.width, canvas.height))
    }

    /** One frame out of the decoder: new geometry if the source changed, then the conversion. What is
        delivered is a function of this frame and the flip setting; no earlier frame shows through. */
    method DecodeFrame(f: Frame, flip: bool) returns (delivered: bool)
      requires Valid()
      modifies this, canvas.pixels
      ensures Valid()
      ensures delivered <==> Deliverable(f)
      ensures delivered ==>
        var g := Fit(f.width, f.height, canvas.width, canvas.height);
        Shows(canvas.pixels[..], canvas.width, canvas.height, g, Scaled(f, g), flip)
    {
      if f.width != srcWidth || f.height != srcHeight || f.format != lastFormat {
        srcWidth, srcHeight, lastFormat := f.width, f.height, f.format;
        if srcWidth > 0 && srcHeight > 0 {
          geometry := Fit(srcWidth, srcHeight, canvas.width, canvas.height);
          hasContext := contextOk(srcWidth, srcHeight, lastFormat, geometry);
          canvas.Clear();
        }
      }
      delivered := hasContext && srcWidth > 0 && srcHeight > 0;
      if delivered {
        ConvertToRgb(f, flip);
      }
    }

    method ConvertToRgb(f: Frame, flip: bool)
      requires Valid() && srcWidth > 0 && srcHeight > 0
      modifies canvas.pixels
      ensures Shows(canvas.pixels[..], canvas.width, canvas.height, geometry, Scaled(f, geometry), flip)
    {
      FitFits(srcWidth, srcHeight, canvas.width, canvas.height);
      ClearAndDraw(f);
      if flip {
        ghost var drawn := canvas.pixels[..];
        canvas.Flip(geometry);
        MirrorOfShown(drawn, canvas.pixels[..], canvas.width, canvas.height, geometry, Scaled(f, geometry));
      }
    }

    /** The margins are cleared when there are any; then the scaler writes the picture. */
    method ClearAndDraw(f: Frame)
      requires Valid() && srcWidth > 0 && srcHeight > 0
      modifies canvas.pixels
      ensures Shows(canvas.pixels[..], canvas.width, canvas.height, geometry, Scaled(f, geometry), false)
    {
      FitFits(srcWidth, srcHeight, canvas.width, canvas.height);
      if geometry.scaledWidth < canvas.width || geometry.scaledHeight < canvas.height {
        canvas.Clear();
      }
      ShowsWhenDrawn();
      canvas.Draw(geometry, Scaled(f, geometry));
    }

    /** When the clear is skipped, the picture covers every pixel. */
    lemma ShowsWhenDrawn()
      requires Valid() && srcWidth > 0 && srcHeight > 0
      ensures geometry.scaledWidth >= canvas.width && geometry.scaledHeight >= canvas.height ==>
        forall x, y | 0 <= x < canvas.width && 0 <= y < canvas.height :: InRect(geometry, x, y)
    {
      FitFits(srcWidth, srcHeight, canvas.width, canvas.height);
    }

    /** The frames one packet yields, each with the flip setting read for it; `shown[i]` is the buffer
        as the i-th frame's callback sees it, or empty when that frame is not delivered. */
    method Decode(frames: seq<Frame>, flips: seq<bool>) returns (shown: seq<seq<Pixel>>)
      requires Valid() && |flips| == |frames|
      modifies this, canvas.pixels
      ensures Valid() && |shown| == |frames|
      ensures forall i | 0 <= i < |frames| :: ShownAs(frames[i], flips[i], shown[i])
    {
      shown := [];
      for i := 0 to |frames|
        invariant Valid() && |shown| == i
        invariant forall j | 0 <= j < i :: ShownAs(frames[j], flips[j], shown[j])
      {
        var delivered := DecodeFrame(frames[i], flips[i]);
        shown := shown + [if delivered then canvas.pixels[..] else []];
      }
    }

    ghost predicate ShownAs(f: Frame, flip: bool, shown: seq<Pixel>) {
      if Deliverable(f) then
        var g := Fit(f.width, f.height, canvas.width, canvas.height);
        && |shown| == canvas.width * canvas.height
        && Shows(shown, canvas.width, canvas.height, g, Scaled(f, g), flip)
      else shown == []
    }
  }
}
