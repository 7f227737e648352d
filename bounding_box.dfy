/** The scan that locates the drawing before results are placed: a raster
    scan over the alpha channel of the canvas image, widening a running
    rectangle around every pixel that is not fully transparent. */
module BoundingBox {

  datatype Box = Box(minX: int, minY: int, maxX: int, maxY: int)

  /** Where new annotations are placed, as exact rationals. */
  datatype Position = Position(x: real, y: real)

  /** Row-major pixel `(x, y)` of a `width` by `height` image lies inside it. */
  lemma PixelIndexInRange(x: int, y: int, width: nat, height: nat)
    requires 0 <= x < width && 0 <= y < height
    ensures 0 <= y * width + x < width * height
  {
    assert y * width + x < (y + 1) * width;
    assert (y + 1) * width <= height * width by {
      assert y + 1 <= height;
    }
  }

  predicate InImage(width: nat, height: nat, x: int, y: int)
  {
    0 <= x < width && 0 <= y < height
  }

  /** The alpha value of pixel `(x, y)`. */
  function Alpha(alpha: seq<int>, width: nat, height: nat, x: int, y: int): int
    requires |alpha| == width * height && InImage(width, height, x, y)
  {
    PixelIndexInRange(x, y, width, height);
    alpha[y * width + x]
  }

  /** Pixel `(x, y)` has some ink on it. */
  predicate Inked(alpha: seq<int>, width: nat, height: nat, x: int, y: int)
    requires |alpha| == width * height
  {
    InImage(width, height, x, y) && Alpha(alpha, width, height, x, y) > 0
  }

  ghost predicate HasInk(alpha: seq<int>, width: nat, height: nat)
    requires |alpha| == width * height
  {
    exists x, y :: Inked(alpha, width, height, x, y)
  }

  /** What the scan leaves behind. With ink: the rectangle contains every
      inked pixel and each of its four sides passes through an inked pixel.
      Without ink: the running values keep their starting values. */
  ghost predicate IsBoundingBox(alpha: seq<int>, width: nat, height: nat, b: Box)
    requires |alpha| == width * height
  {
    if !HasInk(alpha, width, height) then
      b == Box(width, height, 0, 0)
    else
      (forall x, y :: Inked(alpha, width, height, x, y) ==>
         b.minX <= x <= b.maxX && b.minY <= y <= b.maxY) &&
      (exists x, y :: Inked(alpha, width, height, x, y) && x == b.minX) &&
      (exists x, y :: Inked(alpha, width, height, x, y) && y == b.minY) &&
      (exists x, y :: Inked(alpha, width, height, x, y) && x == b.maxX) &&
      (exists x, y :: Inked(alpha, width, height, x, y) && y == b.maxY)
  }

  function Min(a: int, b: int): int { if a <= b then a else b }
  function Max(a: int, b: int): int { if a >= b then a else b }

  /** The nested scan, rows outside and columns inside. */
  method Scan(alpha: array<int>, width: nat, height: nat) returns (b: Box)
    requires alpha.Length == width * height
    ensures IsBoundingBox(alpha[..], width, height, b)
    ensures 0 <= b.maxX && 0 <= b.maxY && b.minX <= width && b.minY <= height
  {
    ghost var a := alpha[..];
    var minX, minY, maxX, maxY := width, height, 0, 0;
    ghost var found := false;
    ghost var x1, y1, x2, y2, x3, y3, x4, y4 := 0, 0, 0, 0, 0, 0, 0, 0;
    var y := 0;
    while y < height
      invariant 0 <= y <= height
      invariant 0 <= maxX && 0 <= maxY && minX <= width && minY <= height
      invariant !found ==> minX == width && minY == height && maxX == 0 && maxY == 0
      invariant forall px, py :: 0 <= py < y && Inked(a, width, height, px, py) ==>
                  found && minX <= px <= maxX && minY <= py <= maxY
      invariant found ==> Inked(a, width, height, x1, y1) && x1 == minX
      invariant found ==> Inked(a, width, height, x2, y2) && y2 == minY
      invariant found ==> Inked(a, width, height, x3, y3) && x3 == maxX
      invariant found ==> Inked(a, width, height, x4, y4) && y4 == maxY
    {
      var x := 0;
      while x < width
        invariant 0 <= x <= width
        invariant 0 <= maxX && 0 <= maxY && minX <= width && minY <= height
        invariant !found ==> minX == width && minY == height && maxX == 0 && maxY == 0
        invariant forall px, py :: 0 <= py < y && Inked(a, width, height, px, py) ==>
                    found && minX <= px <= maxX && minY <= py <= maxY
        invariant forall px :: 0 <= px < x && Inked(a, width, height, px, y) ==>
                    found && minX <= px <= maxX && minY <= y <= maxY
        invariant found ==> Inked(a, width, height, x1, y1) && x1 == minX
        invariant found ==> Inked(a, width, height, x2, y2) && y2 == minY
        invariant found ==> Inked(a, width, height, x3, y3) && x3 == maxX
        invariant found ==> Inked(a, width, height, x4, y4) && y4 == maxY
      {
        PixelIndexInRange(x, y, width, height);
        if alpha[y * width + x] > 0 {
          assert Inked(a, width, height, x, y);
          minX := Min(minX, x);
          minY := Min(minY, y);
          maxX := Max(maxX, x);
          maxY := Max(maxY, y);
          if minX == x { x1, y1 := x, y; }
          if minY == y { x2, y2 := x, y; }
          if maxX == x { x3, y3 := x, y; }
          if maxY == y { x4, y4 := x, y; }
          found := true;
        }
        x := x + 1;
      }
      y := y + 1;
    }
    b := Box(minX, minY, maxX, maxY);
    if found {
      assert Inked(a, width, height, x1, y1);
    } else {
      assert !HasInk(a, width, height);
    }
  }

  /** The anchor for new annotations: the centre of the rectangle. For a
      rectangle around some ink it lies inside the rectangle. */
  function Centroid(b: Box): (p: Position)
    ensures p.x * 2.0 == (b.minX + b.maxX) as real
    ensures p.y * 2.0 == (b.minY + b.maxY) as real
    ensures b.minX <= b.maxX ==> b.minX as real <= p.x <= b.maxX as real
    ensures b.minY <= b.maxY ==> b.minY as real <= p.y <= b.maxY as real
  {
    Position((b.minX + b.maxX) as real / 2.0, (b.minY + b.maxY) as real / 2.0)
  }

  /** With ink, the rectangle is a proper one inside the image. */
  lemma InkedBoxInsideImage(alpha: seq<int>, width: nat, height: nat, b: Box)
    requires |alpha| == width * height
    requires HasInk(alpha, width, height) && IsBoundingBox(alpha, width, height, b)
    ensures 0 <= b.minX <= b.maxX < width && 0 <= b.minY <= b.maxY < height
  {
    var x1, y1 :| Inked(alpha, width, height, x1, y1) && x1 == b.minX;
    var x2, y2 :| Inked(alpha, width, height, x2, y2) && y2 == b.minY;
    var x3, y3 :| Inked(alpha, width, height, x3, y3) && x3 == b.maxX;
    var x4, y4 :| Inked(alpha, width, height, x4, y4) && y4 == b.maxY;
  }

  /** A single inked pixel at (10, 20) gives the rectangle (10, 20, 10, 20),
      centred on that pixel. */
  lemma SinglePixel(alpha: seq<int>, width: nat, height: nat, b: Box)
    requires |alpha| == width * height && 10 < width && 20 < height
    requires forall x, y :: InImage(width, height, x, y) ==>
               (Alpha(alpha, width, height, x, y) > 0 <==> x == 10 && y == 20)
    requires IsBoundingBox(alpha, width, height, b)
    ensures b == Box(10, 20, 10, 20)
    ensures Centroid(b) == Position(10.0, 20.0)
  {
    assert Inked(alpha, width, height, 10, 20);
    var x1, y1 :| Inked(alpha, width, height, x1, y1) && x1 == b.minX;
    var x2, y2 :| Inked(alpha, width, height, x2, y2) && y2 == b.minY;
    var x3, y3 :| Inked(alpha, width, height, x3, y3) && x3 == b.maxX;
    var x4, y4 :| Inked(alpha, width, height, x4, y4) && y4 == b.maxY;
  }

  /** A canvas with no ink at all yields (width, height, 0, 0): minimum
      above maximum on both axes, and a centroid at the image centre. */
  lemma NoInk(alpha: seq<int>, width: nat, height: nat, b: Box)
    requires |alpha| == width * height
    requires forall x, y :: InImage(width, height, x, y) ==> Alpha(alpha, width, height, x, y) <= 0
    requires IsBoundingBox(alpha, width, height, b)
    ensures b == Box(width, height, 0, 0)
    ensures Centroid(b) == Position(width as real / 2.0, height as real / 2.0)
  {
  }

  /** The scan's outcome is determined by the image: two rectangles that
      both satisfy the description are the same rectangle. */
  lemma BoundingBoxUnique(alpha: seq<int>, width: nat, height: nat, b: Box, c: Box)
    requires |alpha| == width * height
    requires IsBoundingBox(alpha, width, height, b) && IsBoundingBox(alpha, width, height, c)
    ensures b == c
  {
  }
}
