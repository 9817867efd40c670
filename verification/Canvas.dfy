/**
 The raster canvas of `frontend/scripts/generate-pwa-icons.py`: a byte buffer of RGBA
 pixels painted in place. The corner test is written in doubled coordinates, where the
 half-pixel offsets of the script are whole numbers.
 */
module Canvas {
  newtype byte = x: int | 0 <= x < 256

  type Rgba = s: seq<byte> | |s| == 4 witness [0, 0, 0, 0]

  // ---------------------------------------------------------------------------
  // Pixels of a buffer
  // ---------------------------------------------------------------------------

  function Index(width: nat, x: nat, y: nat): nat {
    (y * width + x) * 4
  }

  predicate Inside(width: nat, height: nat, x: int, y: int) {
    0 <= x < width && 0 <= y < height
  }

  lemma {:induction false} RowsApart(width: nat, y: nat, z: nat)
    requires y < z
    ensures y * width + width <= z * width
    decreases z
  {
    assert z * width == (z - 1) * width + width;
    if y == z - 1 {
    } else {
      RowsApart(width, y, z - 1);
    }
  }

  lemma {:induction false} IndexInside(width: nat, height: nat, x: nat, y: nat)
    requires Inside(width, height, x, y)
    ensures Index(width, x, y) + 4 <= width * height * 4
  {
    RowsApart(width, y, height);
    assert height * width == width * height;
  }

  function PixelAt(view: seq<byte>, width: nat, height: nat, x: nat, y: nat): seq<byte>
    requires |view| == width * height * 4 && Inside(width, height, x, y)
  {
    IndexInside(width, height, x, y);
    view[Index(width, x, y)..Index(width, x, y) + 4]
  }

  // ---------------------------------------------------------------------------
  // Regions
  // ---------------------------------------------------------------------------

  datatype Frame = Frame(x0: int, y0: int, x1: int, y1: int, r: nat)

  datatype Region =
    | Rect(x0: int, y0: int, x1: int, y1: int)
    /** The four pixels of one turn of the corner loop. */
    | Corner(frame: Frame, dx: nat, dy: nat)
    /** The corner pixels of all turns before (dy, dx). */
    | CornersBefore(frame: Frame, dx: nat, dy: nat)
    | RoundedRect(frame: Frame)
    | Either(a: Region, b: Region)

  function Min(a: int, b: int): int {
    if a <= b then a else b
  }

  function Max(a: int, b: int): int {
    if a >= b then a else b
  }

  /** How far inside the frame a column, or a row, lies from the nearer side. */
  function FromSide(lo: int, hi: int, v: int): int {
    Min(v - lo, hi - 1 - v)
  }

  /** The corner test: twice (r - d - 0.5), squared, against twice r, squared. */
  predicate InDisc(r: nat, dx: nat, dy: nat) {
    (2 * r - 2 * dx - 1) * (2 * r - 2 * dx - 1) + (2 * r - 2 * dy - 1) * (2 * r - 2 * dy - 1) <= 4 * r * r
  }

  /** Twice the distance from a pixel's centre to the interval [lo, hi]. */
  function Beyond(lo: int, hi: int, v: int): int {
    Max(0, Max(2 * lo - (2 * v + 1), 2 * v + 1 - 2 * hi))
  }

  /**
   A rounded rectangle is every point within r of the rectangle shrunk by r on each
   side; a pixel belongs to it when its centre does.
   */
  predicate InRounded(f: Frame, x: int, y: int) {
    var dx, dy := Beyond(f.x0 + f.r, f.x1 - f.r, x), Beyond(f.y0 + f.r, f.y1 - f.r, y);
    dx * dx + dy * dy <= 4 * f.r * f.r
  }

  /** The pixel at this offset from one of the four corners. */
  predicate OnCorner(f: Frame, dx: nat, dy: nat, x: int, y: int) {
    (x == f.x0 + dx || x == f.x1 - 1 - dx) && (y == f.y0 + dy || y == f.y1 - 1 - dy)
  }

  /** Room for the corners on every side. */
  predicate Wide(f: Frame) {
    2 * f.r <= f.x1 - f.x0 && 2 * f.r <= f.y1 - f.y0
  }

  predicate In(region: Region, x: int, y: int) {
    match region
    case Rect(x0, y0, x1, y1) => x0 <= x < x1 && y0 <= y < y1
    case Corner(f, dx, dy) => OnCorner(f, dx, dy, x, y)
    case CornersBefore(f, dx, dy) =>
      exists a, b :: 0 <= a < f.r && 0 <= b < f.r && (b < dy || (b == dy && a < dx)) &&
                     InDisc(f.r, a, b) && OnCorner(f, a, b, x, y)
    case RoundedRect(f) => InRounded(f, x, y)
    case Either(a, b) => In(a, x, y) || In(b, x, y)
  }

  /** `after` is `before` with the region painted, and nothing else changed. */
  ghost predicate Paints(after: seq<byte>, before: seq<byte>, width: nat, height: nat, region: Region, rgba: Rgba) {
    && |after| == |before| == width * height * 4
    && forall x, y :: Inside(width, height, x, y) ==>
         PixelAt(after, width, height, x, y) == if In(region, x, y) then rgba else PixelAt(before, width, height, x, y)
  }

  lemma {:induction false} PaintsTwice(
    c: seq<byte>, b: seq<byte>, a: seq<byte>, width: nat, height: nat, r: Region, s: Region, rgba: Rgba)
    requires Paints(b, a, width, height, r, rgba) && Paints(c, b, width, height, s, rgba)
    ensures Paints(c, a, width, height, Either(r, s), rgba)
  {}

  lemma {:induction false} PaintsSame(
    b: seq<byte>, a: seq<byte>, width: nat, height: nat, r: Region, s: Region, rgba: Rgba)
    requires Paints(b, a, width, height, r, rgba)
    requires forall x, y :: Inside(width, height, x, y) ==> (In(r, x, y) <==> In(s, x, y))
    ensures Paints(b, a, width, height, s, rgba)
  {}

  // ---------------------------------------------------------------------------
  // The canvas
  // ---------------------------------------------------------------------------

  class Raster {
    const width: nat
    const height: nat
    const buf: array<byte>

    ghost predicate Valid()
      reads this
    {
      buf.Length == width * height * 4
    }

    constructor (width: nat, height: nat, bg: Rgba)
      ensures Valid() && this.width == width && this.height == height && fresh(buf)
      ensures forall x, y :: Inside(width, height, x, y) ==> PixelAt(buf[..], width, height, x, y) == bg
    {
      this.width, this.height := width, height;
      buf := new byte[width * height * 4](n requires 0 <= n => bg[n % 4]);
      new;
      forall x, y | Inside(width, height, x, y) ensures PixelAt(buf[..], width, height, x, y) == bg {
        IndexInside(width, height, x, y);
        SamePixel(buf[..], Index(width, x, y), y * width + x, bg);
      }
    }

    /** Overwrites the bytes of the pixels x0..x1 of one row. */
    method PaintSpan(x0: nat, x1: nat, y: nat, rgba: Rgba)
      requires Valid() && x0 < x1 <= width && y < height
      modifies buf
      ensures Valid() && Paints(buf[..], old(buf[..]), width, height, Rect(x0, y, x1, y + 1), rgba)
    {
      IndexInside(width, height, x1 - 1, y);
      var i := Index(width, x0, y);
      var n := (x1 - x0) * 4;
      assert i + n == Index(width, x1 - 1, y) + 4;
      forall k | 0 <= k < n {
        buf[i + k] := rgba[k % 4];
      }
      forall x, z | Inside(width, height, x, z)
        ensures PixelAt(buf[..], width, height, x, z) ==
                if In(Rect(x0, y, x1, y + 1), x, z) then rgba else PixelAt(old(buf[..]), width, height, x, z)
      {
        SpanPixel(buf[..], old(buf[..]), width, height, x0, x1, y, rgba, x, z);
      }
    }

    method Put(x: int, y: int, rgba: Rgba)
      requires Valid()
      modifies buf
      ensures Valid() && Paints(buf[..], old(buf[..]), width, height, Rect(x, y, x + 1, y + 1), rgba)
    {
      if 0 <= x < width && 0 <= y < height {
        PaintSpan(x, x + 1, y, rgba);
      }
    }

    /** Clipped to the canvas, row by row. */
    method FillRect(x0: int, y0: int, x1: int, y1: int, rgba: Rgba)
      requires Valid()
      modifies buf
      ensures Valid() && Paints(buf[..], old(buf[..]), width, height, Rect(x0, y0, x1, y1), rgba)
    {
      var left, top := Max(0, x0), Max(0, y0);
      var right, bottom := Min(width, x1), Min(height, y1);
      if left >= right || top >= bottom {
        return;
      }
      var y := top;
      while y < bottom
        invariant top <= y <= bottom
        invariant Paints(buf[..], old(buf[..]), width, height, Rect(left, top, right, y), rgba)
      {
        ghost var before := buf[..];
        PaintSpan(left, right, y, rgba);
        PaintsTwice(buf[..], before, old(buf[..]), width, height,
                    Rect(left, top, right, y), Rect(left, y, right, y + 1), rgba);
        y := y + 1;
        PaintsSame(buf[..], old(buf[..]), width, height,
                   Either(Rect(left, top, right, y - 1), Rect(left, y - 1, right, y)), Rect(left, top, right, y), rgba);
      }
      PaintsSame(buf[..], old(buf[..]), width, height, Rect(left, top, right, bottom), Rect(x0, y0, x1, y1), rgba);
    }

    /** One turn of the corner loop: the same offset from each of the four corners. */
    method PutCorners(f: Frame, dx: nat, dy: nat, rgba: Rgba)
      requires Valid()
      modifies buf
      ensures Valid() && Paints(buf[..], old(buf[..]), width, height, Corner(f, dx, dy), rgba)
    {
      ghost var start := buf[..];
      Put(f.x0 + dx, f.y0 + dy, rgba);
      ghost var one := buf[..];
      Put(f.x1 - 1 - dx, f.y0 + dy, rgba);
      ghost var two := buf[..];
      Put(f.x0 + dx, f.y1 - 1 - dy, rgba);
      ghost var three := buf[..];
      Put(f.x1 - 1 - dx, f.y1 - 1 - dy, rgba);
      ghost var a, b := Pixel(f.x0 + dx, f.y0 + dy), Pixel(f.x1 - 1 - dx, f.y0 + dy);
      ghost var c, d := Pixel(f.x0 + dx, f.y1 - 1 - dy), Pixel(f.x1 - 1 - dx, f.y1 - 1 - dy);
      PaintsTwice(two, one, start, width, height, a, b, rgba);
      PaintsTwice(three, two, start, width, height, Either(a, b), c, rgba);
      PaintsTwice(buf[..], three, start, width, height, Either(Either(a, b), c), d, rgba);
      CornerIsFourPixels(f, dx, dy);
      PaintsSame(buf[..], start, width, height, Either(Either(Either(a, b), c), d), Corner(f, dx, dy), rgba);
    }

    /** The corner loops. */
    method FillCorners(f: Frame, rgba: Rgba)
      requires Valid()
      modifies buf
      ensures Valid() && Paints(buf[..], old(buf[..]), width, height, CornersBefore(f, 0, f.r), rgba)
    {
      for dy := 0 to f.r
        invariant Paints(buf[..], old(buf[..]), width, height, CornersBefore(f, 0, dy), rgba)
      {
        for dx := 0 to f.r
          invariant Paints(buf[..], old(buf[..]), width, height, CornersBefore(f, dx, dy), rgba)
        {
          ghost var before := buf[..];
          if InDisc(f.r, dx, dy) {
            PutCorners(f, dx, dy, rgba);
            PaintsTwice(
              buf[..], before, old(buf[..]), width, height, CornersBefore(f, dx, dy), Corner(f, dx, dy), rgba);
            PaintsSame(buf[..], old(buf[..]), width, height,
                       Either(CornersBefore(f, dx, dy), Corner(f, dx, dy)), CornersBefore(f, dx + 1, dy), rgba);
          } else {
            PaintsSame(buf[..], old(buf[..]), width, height,
                       CornersBefore(f, dx, dy), CornersBefore(f, dx + 1, dy), rgba);
          }
        }
        PaintsSame(buf[..], old(buf[..]), width, height, CornersBefore(f, f.r, dy), CornersBefore(f, 0, dy + 1), rgba);
      }
    }

    /**
     Three overlapping fills and the corners, clipped to the canvas: exactly the rounded
     rectangle whenever the frame has room for its corners.
     */
    method FillRoundedRect(f: Frame, rgba: Rgba)
      requires Valid()
      modifies buf
      ensures Valid() && Paints(buf[..], old(buf[..]), width, height, Strokes(f), rgba)
      ensures Wide(f) ==> Paints(buf[..], old(buf[..]), width, height, RoundedRect(f), rgba)
    {
      ghost var start := buf[..];
      FillRect(f.x0 + f.r, f.y0, f.x1 - f.r, f.y1, rgba);
      ghost var one := buf[..];
      FillRect(f.x0, f.y0 + f.r, f.x0 + f.r, f.y1 - f.r, rgba);
      ghost var two := buf[..];
      FillRect(f.x1 - f.r, f.y0 + f.r, f.x1, f.y1 - f.r, rgba);
      ghost var three := buf[..];
      FillCorners(f, rgba);
      PaintsTwice(two, one, start, width, height, Middle(f), LeftBand(f), rgba);
      PaintsTwice(three, two, start, width, height, Either(Middle(f), LeftBand(f)), RightBand(f), rgba);
      PaintsTwice(buf[..], three, start, width, height, Bands(f), CornersBefore(f, 0, f.r), rgba);
      if Wide(f) {
        forall x, y ensures In(Strokes(f), x, y) <==> In(RoundedRect(f), x, y) {
          StrokesAreTheRoundedRect(f, x, y);
        }
        PaintsSame(buf[..], start, width, height, Strokes(f), RoundedRect(f), rgba);
      }
    }
  }

  function Pixel(x: int, y: int): Region {
    Rect(x, y, x + 1, y + 1)
  }

  function Middle(f: Frame): Region {
    Rect(f.x0 + f.r, f.y0, f.x1 - f.r, f.y1)
  }

  function LeftBand(f: Frame): Region {
    Rect(f.x0, f.y0 + f.r, f.x0 + f.r, f.y1 - f.r)
  }

  function RightBand(f: Frame): Region {
    Rect(f.x1 - f.r, f.y0 + f.r, f.x1, f.y1 - f.r)
  }

  function Bands(f: Frame): Region {
    Either(Either(Middle(f), LeftBand(f)), RightBand(f))
  }

  /** Everything the four calls of a rounded rectangle paint. */
  function Strokes(f: Frame): Region {
    Either(Bands(f), CornersBefore(f, 0, f.r))
  }

  lemma {:induction false} CornerIsFourPixels(f: Frame, dx: nat, dy: nat)
    ensures forall x, y :: In(Corner(f, dx, dy), x, y) <==>
              In(Either(Either(Either(Pixel(f.x0 + dx, f.y0 + dy), Pixel(f.x1 - 1 - dx, f.y0 + dy)),
                               Pixel(f.x0 + dx, f.y1 - 1 - dy)), Pixel(f.x1 - 1 - dx, f.y1 - 1 - dy)), x, y)
  {
    var a, b := Pixel(f.x0 + dx, f.y0 + dy), Pixel(f.x1 - 1 - dx, f.y0 + dy);
    var c, d := Pixel(f.x0 + dx, f.y1 - 1 - dy), Pixel(f.x1 - 1 - dx, f.y1 - 1 - dy);
    forall x, y ensures In(Corner(f, dx, dy), x, y) <==> In(Either(Either(Either(a, b), c), d), x, y) {
      InFour(a, b, c, d, x, y);
    }
  }

  lemma {:induction false} InFour(a: Region, b: Region, c: Region, d: Region, x: int, y: int)
    ensures In(Either(Either(Either(a, b), c), d), x, y) <==> In(a, x, y) || In(b, x, y) || In(c, x, y) || In(d, x, y)
  {
    assert In(Either(a, b), x, y) <==> In(a, x, y) || In(b, x, y);
    assert In(Either(Either(a, b), c), x, y) <==> In(Either(a, b), x, y) || In(c, x, y);
  }

  /** The distance of a column to the shrunk frame, from its offset to the nearer side. */
  lemma {:induction false} BeyondFromSide(lo: int, hi: int, r: nat, v: int)
    requires 2 * r <= hi - lo
    ensures var d := FromSide(lo, hi, v);
            Beyond(lo + r, hi - r, v) == Shortfall(r, d)
  {}

  lemma {:induction false} SquareAbove(a: int, b: nat)
    requires a > b
    ensures a * a > b * b >= 0
  {
    assert a * a >= a * (b + 1) >= (b + 1) * (b + 1);
  }

  /** With room for the corners, a corner pixel is one within r of two sides whose centre is in the disc. */
  lemma {:induction false} CornersByDistance(f: Frame, x: int, y: int)
    requires Wide(f)
    ensures In(CornersBefore(f, 0, f.r), x, y) <==>
            var a, b := FromSide(f.x0, f.x1, x), FromSide(f.y0, f.y1, y);
            0 <= a < f.r && 0 <= b < f.r && InDisc(f.r, a, b)
  {
    var a, b := FromSide(f.x0, f.x1, x), FromSide(f.y0, f.y1, y);
    if 0 <= a < f.r && 0 <= b < f.r && InDisc(f.r, a, b) {
      assert OnCorner(f, a, b, x, y);
    }
  }

  /** The geometric shape, from the pixel's offsets to the nearer sides. */
  lemma {:induction false} RoundedByDistance(f: Frame, x: int, y: int)
    requires Wide(f)
    ensures InRounded(f, x, y) <==>
            var a, b := FromSide(f.x0, f.x1, x), FromSide(f.y0, f.y1, y);
            0 <= a && 0 <= b && (a >= f.r || b >= f.r || InDisc(f.r, a, b))
  {
    BeyondFromSide(f.x0, f.x1, f.r, x);
    BeyondFromSide(f.y0, f.y1, f.r, y);
    RoundedByBeyond(f.r, FromSide(f.x0, f.x1, x), FromSide(f.y0, f.y1, y));
  }

  function Shortfall(r: nat, d: int): (twice: nat) {
    if d < r then 2 * r - 2 * d - 1 else 0
  }

  lemma {:induction false} RoundedByBeyond(r: nat, a: int, b: int)
    ensures Shortfall(r, a) * Shortfall(r, a) + Shortfall(r, b) * Shortfall(r, b) <= 4 * r * r <==>
            0 <= a && 0 <= b && (a >= r || b >= r || InDisc(r, a, b))
  {
    var dx, dy := Shortfall(r, a), Shortfall(r, b);
    SquareOfTwice(r);
    if a < 0 {
      SquareAbove(dx, 2 * r);
    } else if b < 0 {
      SquareAbove(dy, 2 * r);
    } else if a >= r {
      SquareWithin(dy, 2 * r);
    } else if b >= r {
      SquareWithin(dx, 2 * r);
    }
  }

  lemma {:induction false} SquareOfTwice(r: nat)
    ensures (2 * r) * (2 * r) == 4 * r * r
  {}

  /** The loop's discs and the three fills, against the one geometric definition. */
  lemma {:induction false} StrokesAreTheRoundedRect(f: Frame, x: int, y: int)
    requires Wide(f)
    ensures In(Strokes(f), x, y) <==> InRounded(f, x, y)
  {
    RoundedByDistance(f, x, y);
    CornersByDistance(f, x, y);
    InFour(Middle(f), LeftBand(f), RightBand(f), CornersBefore(f, 0, f.r), x, y);
  }

  lemma {:induction false} StrokeInTheFrame(f: Frame, x: int, y: int)
    requires f.r <= f.x1 - f.x0 && f.r <= f.y1 - f.y0 && In(Strokes(f), x, y)
    ensures f.x0 <= x < f.x1 && f.y0 <= y < f.y1
  {
    InFour(Middle(f), LeftBand(f), RightBand(f), CornersBefore(f, 0, f.r), x, y);
  }

  /** A radius paints outside its frame exactly when it is longer than a side. */
  lemma {:induction false} StrokesStayInTheFrame(f: Frame)
    requires f.x0 <= f.x1 && f.y0 <= f.y1
    ensures (forall x, y :: In(Strokes(f), x, y) ==> f.x0 <= x < f.x1 && f.y0 <= y < f.y1) <==>
            f.r <= f.x1 - f.x0 && f.r <= f.y1 - f.y0
  {
    if f.r <= f.x1 - f.x0 && f.r <= f.y1 - f.y0 {
      forall x, y | In(Strokes(f), x, y) ensures f.x0 <= x < f.x1 && f.y0 <= y < f.y1 {
        StrokeInTheFrame(f, x, y);
      }
    } else {
      var x, y := f.x0 + f.r - 1, f.y0 + f.r - 1;
      assert OnCorner(f, f.r - 1, f.r - 1, x, y) && InDisc(f.r, f.r - 1, f.r - 1) by {
        assert f.r * f.r >= f.r;
      }
      InFour(Middle(f), LeftBand(f), RightBand(f), CornersBefore(f, 0, f.r), x, y);
      assert In(Strokes(f), x, y);
    }
  }

  lemma {:induction false} SquareWithin(a: nat, b: nat)
    requires a <= b
    ensures a * a <= b * b
  {
    assert a * a <= a * b <= b * b;
  }

  /** The shape is mirror-symmetric on both axes. */
  lemma {:induction false} RoundedRectIsSymmetric(f: Frame, x: int, y: int)
    ensures InRounded(f, x, y) <==> InRounded(f, f.x0 + f.x1 - 1 - x, y)
    ensures InRounded(f, x, y) <==> InRounded(f, x, f.y0 + f.y1 - 1 - y)
  {}

  function IconTile(size: nat): Frame {
    Frame(size / 16, size / 16, size - size / 16, size - size / 16, size / 8)
  }

  lemma {:induction false} IconTileSides(size: nat)
    ensures var f := IconTile(size);
            && Wide(f) && 0 <= f.x0 <= f.x1 <= size && 0 <= f.y0 <= f.y1 <= size
            && f.r <= f.x1 - f.x0 && f.r <= f.y1 - f.y0
  {}

  /** The tile of an icon of any size is wide enough for its corners, and no pixel of it is off the canvas. */
  lemma {:induction false} IconTileIsWide(size: nat, x: int, y: int)
    ensures Wide(IconTile(size)) && (In(Strokes(IconTile(size)), x, y) ==> Inside(size, size, x, y))
  {
    IconTileSides(size);
    if In(Strokes(IconTile(size)), x, y) {
      StrokeInTheFrame(IconTile(size), x, y);
    }
  }

  /** Two buffers that show the same pixels are the same bytes. */
  lemma {:induction false} PixelsDetermineBytes(a: seq<byte>, b: seq<byte>, width: nat, height: nat)
    requires |a| == |b| == width * height * 4
    requires forall x, y :: Inside(width, height, x, y) ==>
               PixelAt(a, width, height, x, y) == PixelAt(b, width, height, x, y)
    ensures a == b
  {
    forall n | 0 <= n < |a| ensures a[n] == b[n] {
      var y, x, k := ByteAt(width, height, n);
      IndexInside(width, height, x, y);
      assert a[n] == PixelAt(a, width, height, x, y)[k] && b[n] == PixelAt(b, width, height, x, y)[k];
    }
  }

  /** The pixel a byte belongs to. */
  lemma {:induction false} ByteAt(width: nat, height: nat, n: nat) returns (y: nat, x: nat, k: nat)
    requires n < width * height * 4
    ensures Inside(width, height, x, y) && k < 4 && n == Index(width, x, y) + k
    decreases height
  {
    assert height > 0 && width > 0;
    assert width * height * 4 == width * (height - 1) * 4 + width * 4;
    if n < width * (height - 1) * 4 {
      y, x, k := ByteAt(width, height - 1, n);
    } else {
      var m := n - width * (height - 1) * 4;
      y, x, k := height - 1, m / 4, m % 4;
      assert (height - 1) * width == width * (height - 1);
    }
  }

  /** A pixel's bytes lie wholly inside the bytes of a span, or wholly outside. */
  lemma {:induction false} SpanOrApart(width: nat, x0: nat, x1: nat, y: nat, x: nat, z: nat)
    requires x0 < x1 <= width && x < width
    ensures var i, j := Index(width, x0, y), Index(width, x, z);
            if y == z then j == i + (x - x0) * 4 else j + 4 <= i || i + (x1 - x0) * 4 <= j
  {
    if z < y {
      RowsApart(width, z, y);
    } else if y < z {
      RowsApart(width, y, z);
    }
  }

  /** One pixel after a span of bytes was overwritten. */
  lemma {:induction false} SpanPixel(
    after: seq<byte>, before: seq<byte>, width: nat, height: nat, x0: nat, x1: nat, y: nat, rgba: Rgba, x: nat, z: nat)
    requires |after| == |before| == width * height * 4 && x0 < x1 <= width && y < height && Inside(width, height, x, z)
    requires forall k :: 0 <= k < |after| ==>
               after[k] == if Index(width, x0, y) <= k < Index(width, x0, y) + (x1 - x0) * 4
                           then rgba[(k - Index(width, x0, y)) % 4] else before[k]
    ensures PixelAt(after, width, height, x, z) ==
            if In(Rect(x0, y, x1, y + 1), x, z) then rgba else PixelAt(before, width, height, x, z)
  {
    IndexInside(width, height, x, z);
    SpanOrApart(width, x0, x1, y, x, z);
    var i, j := Index(width, x0, y), Index(width, x, z);
    SpanBytes(after, before, i, x1 - x0, j, x - x0, y == z && x0 <= x < x1, rgba);
  }

  lemma {:induction false} SpanBytes(
    after: seq<byte>, before: seq<byte>, i: nat, n: nat, j: nat, d: int, inside: bool, rgba: Rgba)
    requires |after| == |before| && j + 4 <= |after|
    requires forall k :: 0 <= k < |after| ==> after[k] == if i <= k < i + n * 4 then rgba[(k - i) % 4] else before[k]
    requires if inside then 0 <= d < n && j == i + d * 4 else j + 4 <= i || i + n * 4 <= j
    ensures after[j..j + 4] == if inside then rgba else before[j..j + 4]
  {
    var want := if inside then rgba else before[j..j + 4];
    forall k | 0 <= k < 4 ensures after[j..j + 4][k] == want[k] {
      assert after[j..j + 4][k] == after[j + k];
      assert inside ==> (j + k - i) % 4 == k;
    }
  }

  lemma {:induction false} SamePixel(view: seq<byte>, i: nat, pixel: nat, rgba: Rgba)
    requires i == pixel * 4 && i + 4 <= |view|
    requires forall k :: 0 <= k < |view| ==> view[k] == rgba[k % 4]
    ensures view[i..i + 4] == rgba
  {
    forall k | 0 <= k < 4 ensures view[i..i + 4][k] == rgba[k] {
      assert view[i..i + 4][k] == view[i + k] && (i + k) % 4 == k;
    }
  }
}
