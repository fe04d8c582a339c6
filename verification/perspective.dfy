/** The corner points of the perspective transform: a trapezoid on the camera image (source) and
    the rectangle it is mapped onto (destination). Corners are listed bottom-left, top-left,
    top-right, bottom-right; `imageSize` is (width, height). */
module Perspective {

  datatype Point = Point(x: real, y: real)

  const XOffsetBottom: int := 200
  const XOffsetMiddle: int := 595
  const YOffset: int := 450

  /** `_createSource`: the bottom corners sit on the bottom image edge 200 px in from each side,
      the top corners on row 450, 595 px in from each side. */
  function CreateSource(imageSize: (int, int)): (q: seq<Point>)
    ensures |q| == 4
    ensures q[0].y == q[3].y == imageSize.1 as real && q[1].y == q[2].y == YOffset as real
    ensures q[0].x + q[3].x == imageSize.0 as real && q[1].x + q[2].x == imageSize.0 as real
    ensures q[0].x == XOffsetBottom as real && q[1].x == XOffsetMiddle as real
  {
    var (width, height) := imageSize;
    var bottomLeft := Point(XOffsetBottom as real, height as real);
    var bottomRight := Point((width - XOffsetBottom) as real, height as real);
    var topLeft := Point(XOffsetMiddle as real, YOffset as real);
    var topRight := Point((width - XOffsetMiddle) as real, YOffset as real);
    [bottomLeft, topLeft, topRight, bottomRight]
  }

  /** `_createDestination`: a rectangle from x = W/4 to x = W - W/4 spanning the whole height. */
  function CreateDestination(imageSize: (int, int)): (q: seq<Point>)
    ensures |q| == 4
    ensures q[0].x == q[1].x == imageSize.0 as real / 4.0
    ensures q[2].x == q[3].x == imageSize.0 as real - imageSize.0 as real / 4.0
    ensures q[1].y == q[2].y == 0.0 && q[0].y == q[3].y == imageSize.1 as real
  {
    var width := imageSize.0 as real;
    var xOffset := width / 4.0;
    var bottomLeft := Point(xOffset, imageSize.1 as real);
    var bottomRight := Point(width - xOffset, imageSize.1 as real);
    var topLeft := Point(xOffset, 0.0);
    var topRight := Point(width - xOffset, 0.0);
    [bottomLeft, topLeft, topRight, bottomRight]
  }

  /** Four corners bottom-left, top-left, top-right, bottom-right of a trapezoid whose parallel
      sides are horizontal, the top one shorter, mirror-symmetric about a vertical axis. */
  predicate IsIsoscelesTrapezoid(q: seq<Point>) {
    |q| == 4 &&
    q[0].y == q[3].y && q[1].y == q[2].y && q[1].y < q[0].y &&
    q[0].x < q[3].x && q[1].x < q[2].x &&
    q[2].x - q[1].x < q[3].x - q[0].x &&
    q[0].x + q[3].x == q[1].x + q[2].x
  }

  /** Four corners bottom-left, top-left, top-right, bottom-right of an axis-aligned rectangle. */
  predicate IsAxisAlignedRectangle(q: seq<Point>) {
    |q| == 4 &&
    q[0].x == q[1].x && q[2].x == q[3].x && q[0].x < q[3].x &&
    q[1].y == q[2].y && q[0].y == q[3].y && q[1].y < q[0].y
  }

  /** The source corners form the promised trapezoid exactly when the image is wider than
      1190 px and taller than 450 px. */
  lemma SourceIsTrapezoid(imageSize: (int, int))
    ensures IsIsoscelesTrapezoid(CreateSource(imageSize)) <==> imageSize.0 > 1190 && imageSize.1 > 450
  {
  }

  /** The destination corners form a rectangle of width W/2 exactly when W > 0 and H > 0. */
  lemma DestinationIsRectangle(imageSize: (int, int))
    ensures IsAxisAlignedRectangle(CreateDestination(imageSize)) <==> imageSize.0 > 0 && imageSize.1 > 0
    ensures CreateDestination(imageSize)[3].x - CreateDestination(imageSize)[0].x == imageSize.0 as real / 2.0
  {
  }

  /** At the 1280 x 720 size the pipeline uses, the source top edge is 90 px and the bottom
      edge 880 px wide. */
  lemma ProjectImageSize()
    ensures var q := CreateSource((1280, 720));
      q[2].x - q[1].x == 90.0 && q[3].x - q[0].x == 880.0 && IsIsoscelesTrapezoid(q)
    ensures IsAxisAlignedRectangle(CreateDestination((1280, 720)))
  {
    SourceIsTrapezoid((1280, 720));
    DestinationIsRectangle((1280, 720));
  }
}
