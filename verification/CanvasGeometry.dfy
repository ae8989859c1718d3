/** Where a picture goes on the fixed canvas: aspect-preserving size and even offsets. Aspect ratios
    are exact here, not doubles. */
module CanvasGeometry {

  datatype Geometry = Geometry(scaledWidth: int, scaledHeight: int, offsetX: int, offsetY: int)

  /** `n & ~1`. */
  function Even(n: int): int {
    n - n % 2
  }

  /** C++ integer division by two, which truncates toward zero. */
  function Half(n: int): int {
    if n >= 0 then n / 2 else -((-n) / 2)
  }

  function AtLeastTwo(n: int): int {
    if n < 2 then 2 else n
  }

  /** Is the source wider than the canvas, aspect against aspect? */
  predicate Wider(srcWidth: int, srcHeight: int, width: int, height: int) {
    srcWidth * height > width * srcHeight
  }

  /** The scaled side before it is clamped to 2. */
  function EvenSide(canvasSide: int, num: int, den: int): int
    requires den > 0
  {
    Even(canvasSide * num / den)
  }

  function Fit(srcWidth: int, srcHeight: int, width: int, height: int): Geometry
    requires srcWidth > 0 && srcHeight > 0
  {
    if Wider(srcWidth, srcHeight, width, height) then
      var h := AtLeastTwo(EvenSide(width, srcHeight, srcWidth));
      Geometry(width, h, 0, Even(Half(height - h)))
    else
      var w := AtLeastTwo(EvenSide(height, srcWidth, srcHeight));
      Geometry(w, height, Even(Half(width - w)), 0)
  }

  ghost predicate Fits(g: Geometry, width: int, height: int) {
    && 0 < g.scaledWidth && 0 <= g.offsetX && g.offsetX + g.scaledWidth <= width
    && 0 < g.scaledHeight && 0 <= g.offsetY && g.offsetY + g.scaledHeight <= height
  }

  lemma Division(a: int, b: int)
    requires b > 0
    ensures a / b * b <= a < (a / b + 1) * b
  {
  }

  /** The even side is at most the exact one and less than 2 below it, and shorter than the canvas
      side the aspects were compared with. */
  lemma EvenSideBounds(canvasSide: int, num: int, den: int, limit: int)
    requires canvasSide > 0 && num > 0 && den > 0
    requires canvasSide * num <= limit * den
    ensures var s := EvenSide(canvasSide, num, den);
      0 <= s <= limit && s * den <= canvasSide * num < (s + 2) * den
  {
    var a := canvasSide * num;
    var q := a / den;
    Division(a, den);
    Positive(canvasSide, num);
    LessFromProducts(-1, q, den);
    LessFromProducts(q, limit + 1, den);
    var s := Even(q);
    MonotoneProduct(s, q, den);
    MonotoneProduct(q + 1, s + 2, den);
  }

  lemma Positive(a: int, b: int)
    requires a > 0 && b > 0
    ensures a * b > 0
  {
  }

  lemma MonotoneProduct(a: int, b: int, c: int)
    requires a <= b && c >= 0
    ensures a * c <= b * c
  {
  }

  lemma LessFromProducts(a: int, b: int, c: int)
    requires c > 0 && a * c < b * c
    ensures a < b
  {
  }

  /** On a canvas of at least 2 by 2 every picture fits, whatever its size. */
  lemma FitFits(srcWidth: int, srcHeight: int, width: int, height: int)
    requires srcWidth > 0 && srcHeight > 0 && width >= 2 && height >= 2
    ensures Fits(Fit(srcWidth, srcHeight, width, height), width, height)
  {
    if Wider(srcWidth, srcHeight, width, height) {
      assert width * srcHeight <= height * srcWidth;
      EvenSideBounds(width, srcHeight, srcWidth, height);
    } else {
      assert height * srcWidth <= width * srcHeight;
      EvenSideBounds(height, srcWidth, srcHeight, width);
    }
  }

  /** And only there: a canvas side of 1 is too narrow for the clamped side of 2. */
  lemma FitsEverywhereIff(width: int, height: int)
    requires width > 0 && height > 0
    ensures (forall w, h | w > 0 && h > 0 :: Fits(Fit(w, h, width, height), width, height))
       <==> width >= 2 && height >= 2
  {
    if width >= 2 && height >= 2 {
      forall w, h | w > 0 && h > 0
        ensures Fits(Fit(w, h, width, height), width, height)
      {
        FitFits(w, h, width, height);
      }
    } else if width == 1 {
      var tall := 2 * height;
      assert !Wider(1, tall, width, height);
      assert height * 1 / tall == 0;
      assert Fit(1, tall, width, height).scaledWidth == 2;
    } else {
      var wide := 2 * width;
      assert Wider(wide, 1, width, height);
      assert width * 1 / wide == 0;
      assert Fit(wide, 1, width, height).scaledHeight == 2;
    }
  }

  /** The picture is centred up to the even rounding: offsets are even, and opposite margins differ by
      0 to 3 pixels. */
  lemma MarginsAreBalanced(srcWidth: int, srcHeight: int, width: int, height: int)
    requires srcWidth > 0 && srcHeight > 0 && width >= 2 && height >= 2
    ensures var g := Fit(srcWidth, srcHeight, width, height);
      && 0 <= width - g.scaledWidth - g.offsetX - g.offsetX <= 3
      && 0 <= height - g.scaledHeight - g.offsetY - g.offsetY <= 3
      && g.offsetX % 2 == 0 && g.offsetY % 2 == 0
      && (g.scaledWidth == width || g.scaledHeight == height)
  {
    FitFits(srcWidth, srcHeight, width, height);
  }

  /** The aspect is kept: one side fills the canvas, the other is the exact side rounded down by less
      than 2, unless that was below 2; then it is 2. */
  lemma AspectIsKept(srcWidth: int, srcHeight: int, width: int, height: int)
    requires srcWidth > 0 && srcHeight > 0 && width >= 2 && height >= 2
    ensures var g := Fit(srcWidth, srcHeight, width, height);
      if srcWidth * height > width * srcHeight then
        && g.scaledWidth == width
        && width * srcHeight < (g.scaledHeight + 2) * srcWidth
        && (g.scaledHeight * srcWidth <= width * srcHeight || g.scaledHeight == 2)
      else
        && g.scaledHeight == height
        && height * srcWidth < (g.scaledWidth + 2) * srcHeight
        && (g.scaledWidth * srcHeight <= height * srcWidth || g.scaledWidth == 2)
  {
    if Wider(srcWidth, srcHeight, width, height) {
      assert width * srcHeight <= height * srcWidth;
      EvenSideBounds(width, srcHeight, srcWidth, height);
      var s := EvenSide(width, srcHeight, srcWidth);
      assert (s + 2) * srcWidth <= (AtLeastTwo(s) + 2) * srcWidth;
    } else {
      assert height * srcWidth <= width * srcHeight;
      EvenSideBounds(height, srcWidth, srcHeight, width);
      var s := EvenSide(height, srcWidth, srcHeight);
      assert (s + 2) * srcHeight <= (AtLeastTwo(s) + 2) * srcHeight;
    }
  }

  /** The side that does not fill the canvas is even, clamped or not. */
  lemma OtherSideIsEven(srcWidth: int, srcHeight: int, width: int, height: int)
    requires srcWidth > 0 && srcHeight > 0
    ensures var g := Fit(srcWidth, srcHeight, width, height);
      if srcWidth * height > width * srcHeight then g.scaledHeight % 2 == 0 else g.scaledWidth % 2 == 0
  {
    EvenIsEven(width * srcHeight / srcWidth);
    EvenIsEven(height * srcWidth / srcHeight);
  }

  lemma EvenIsEven(n: int)
    ensures Even(n) % 2 == 0
  {
  }

  // ---- Two dimensions in one flat buffer ----

  function Index(width: int, x: int, y: int): int {
    y * width + x
  }

  lemma IndexInRange(width: int, height: int, x: int, y: int)
    requires 0 <= x < width && 0 <= y < height
    ensures 0 <= Index(width, x, y) < width * height
  {
    assert 0 <= y * width;
    assert (y + 1) * width <= height * width;
  }

  lemma IndexDistinct(width: int, x: int, y: int, x': int, y': int)
    requires 0 <= x < width && 0 <= x' < width && (x != x' || y != y')
    ensures Index(width, x, y) != Index(width, x', y')
  {
    if y < y' {
      assert (y + 1) * width <= y' * width;
    } else if y' < y {
      assert (y' + 1) * width <= y * width;
    }
  }

  lemma IndexOnto(width: int, height: int, i: int) returns (x: int, y: int)
    requires width > 0 && 0 <= i < width * height
    ensures 0 <= x < width && 0 <= y < height && Index(width, x, y) == i
  {
    x, y := i % width, i / width;
    Division(i, width);
    LessFromProducts(-1, y, width);
    LessFromProducts(y, height, width);
  }

  /** Every byte the conversion addresses lies in the buffer of width * height * 3 bytes. */
  lemma ByteIndexInRange(srcWidth: int, srcHeight: int, width: int, height: int, column: int, row: int, channel: int)
    requires srcWidth > 0 && srcHeight > 0 && width >= 2 && height >= 2
    requires var g := Fit(srcWidth, srcHeight, width, height);
      0 <= column < g.scaledWidth && 0 <= row < g.scaledHeight && 0 <= channel < 3
    ensures var g := Fit(srcWidth, srcHeight, width, height);
      0 <= ((g.offsetY + row) * width + g.offsetX + column) * 3 + channel < width * height * 3
  {
    var g := Fit(srcWidth, srcHeight, width, height);
    FitFits(srcWidth, srcHeight, width, height);
    IndexInRange(width, height, g.offsetX + column, g.offsetY + row);
  }
}
