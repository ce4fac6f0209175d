/** Geometry the map handlers read from the DOM, taken here as inputs:
    bounding boxes in the SVG's own coordinates (`getBBox`), client
    rectangles (`getBoundingClientRect`) and the SVG-to-screen matrix
    (`getScreenCTM`) with its `matrixTransform` and `inverse`. */
module Geometry {

  datatype Point = Point(x: real, y: real)

  /** A shape's bounding box in SVG user coordinates. */
  datatype BBox = BBox(x: real, y: real, width: real, height: real)

  /** A client rectangle in screen pixels. */
  datatype Rect = Rect(left: real, top: real, width: real, height: real)

  /** An SVG matrix [a c e; b d f; 0 0 1]. */
  datatype Matrix = Matrix(a: real, b: real, c: real, d: real, e: real, f: real)

  /** `point.matrixTransform(m)`. */
  function Apply(m: Matrix, p: Point): Point {
    Point(m.a * p.x + m.c * p.y + m.e, m.b * p.x + m.d * p.y + m.f)
  }

  function Det(m: Matrix): real {
    m.a * m.d - m.b * m.c
  }

  /** `m.inverse()` of an invertible matrix: the adjugate scaled by 1/det. */
  function Inverse(m: Matrix): (inv: Matrix)
    requires Det(m) != 0.0
  {
    var r := 1.0 / Det(m);
    Matrix(m.d * r, (-m.b) * r, (-m.c) * r, m.a * r,
           (m.c * m.f - m.d * m.e) * r, (m.b * m.e - m.a * m.f) * r)
  }

  /** The polynomial identities behind the round trip through the inverse. */
  lemma CofactorIdentity(a: real, b: real, c: real, d: real, e: real, f: real, x: real, y: real)
    ensures d * (a * x + c * y + e) - c * (b * x + d * y + f) + c * f - d * e == (a * d - b * c) * x
    ensures a * (b * x + d * y + f) - b * (a * x + c * y + e) + b * e - a * f == (a * d - b * c) * y
  {
  }

  /** Scaling a linear combination term by term. */
  lemma ScaleSum(r: real, u: real, v: real, w: real, p: real, q: real)
    ensures (u * r) * p + (v * r) * q + w * r == r * (u * p + v * q + w)
  {
  }

  /** Mapping a point to the screen and back through the inverse returns it. */
  lemma InverseUndoesApply(m: Matrix, p: Point)
    requires Det(m) != 0.0
    ensures Apply(Inverse(m), Apply(m, p)) == p
  {
    var k := Det(m);
    var r := 1.0 / k;
    assert k * r == 1.0;
    var q := Apply(m, p);
    CofactorIdentity(m.a, m.b, m.c, m.d, m.e, m.f, p.x, p.y);
    ScaleSum(r, m.d, -m.c, m.c * m.f - m.d * m.e, q.x, q.y);
    ScaleSum(r, -m.b, m.a, m.b * m.e - m.a * m.f, q.x, q.y);
    assert m.d * q.x + (-m.c) * q.y + (m.c * m.f - m.d * m.e) == k * p.x;
    assert (-m.b) * q.x + m.a * q.y + (m.b * m.e - m.a * m.f) == k * p.y;
    assert r * (k * p.x) == p.x;
    assert r * (k * p.y) == p.y;
  }

  /** The polynomial identities behind the round trip the other way: the
      matrix applied to the adjugate image of a point is det times the
      point minus the translation. */
  lemma AdjugateIdentity(a: real, b: real, c: real, d: real, e: real, f: real, x: real, y: real,
                         k: real, nx: real, ny: real)
    requires k == a * d - b * c
    requires nx == d * x + (-c) * y + (c * f - d * e)
    requires ny == (-b) * x + a * y + (b * e - a * f)
    ensures a * nx + c * ny == k * x - k * e
    ensures b * nx + d * ny == k * y - k * f
  {
  }

  lemma ScalePair(r: real, s: real, t: real, u: real, v: real)
    ensures s * (r * u) + t * (r * v) == r * (s * u + t * v)
  {
  }

  lemma CancelScale(k: real, r: real, x: real, e: real)
    requires k * r == 1.0
    ensures r * (k * x - k * e) == x - e
  {
    assert r * (k * x - k * e) == (k * r) * x - (k * r) * e;
  }

  /** A screen point mapped through the inverse is its adjugate image
      scaled by 1/det. */
  lemma ApplyInverseScaled(m: Matrix, q: Point, r: real, nx: real, ny: real)
    requires Det(m) != 0.0 && r == 1.0 / Det(m)
    requires nx == m.d * q.x + (-m.c) * q.y + (m.c * m.f - m.d * m.e)
    requires ny == (-m.b) * q.x + m.a * q.y + (m.b * m.e - m.a * m.f)
    ensures Apply(Inverse(m), q) == Point(r * nx, r * ny)
  {
    ScaleSum(r, m.d, -m.c, m.c * m.f - m.d * m.e, q.x, q.y);
    ScaleSum(r, -m.b, m.a, m.b * m.e - m.a * m.f, q.x, q.y);
  }

  /** One row of the matrix applied to the scaled adjugate image gives the
      coordinate back. */
  lemma RowRoundTrip(s: real, t: real, shift: real, k: real, r: real, x: real, nx: real, ny: real)
    requires k * r == 1.0
    requires s * nx + t * ny == k * x - k * shift
    ensures s * (r * nx) + t * (r * ny) + shift == x
  {
    ScalePair(r, s, t, nx, ny);
    CancelScale(k, r, x, shift);
  }

  lemma Reciprocal(k: real)
    requires k != 0.0
    ensures k * (1.0 / k) == 1.0
  {
  }

  /** Both coordinates of the round trip, on plain numbers. */
  lemma RoundTripCoords(a: real, b: real, c: real, d: real, e: real, f: real, x: real, y: real,
                        k: real, r: real, nx: real, ny: real)
    requires k == a * d - b * c && k * r == 1.0
    requires nx == d * x + (-c) * y + (c * f - d * e)
    requires ny == (-b) * x + a * y + (b * e - a * f)
    ensures Apply(Matrix(a, b, c, d, e, f), Point(r * nx, r * ny)) == Point(x, y)
  {
    AdjugateIdentity(a, b, c, d, e, f, x, y, k, nx, ny);
    RowRoundTrip(a, c, e, k, r, x, nx, ny);
    RowRoundTrip(b, d, f, k, r, y, nx, ny);
  }

  /** Mapping a screen point into SVG coordinates and back to the screen
      returns it: the recorded click point is where the user clicked. */
  lemma ApplyUndoesInverse(m: Matrix, q: Point)
    requires Det(m) != 0.0
    ensures Apply(m, Apply(Inverse(m), q)) == q
  {
    var k := Det(m);
    var r := 1.0 / k;
    Reciprocal(k);
    var nx := m.d * q.x + (-m.c) * q.y + (m.c * m.f - m.d * m.e);
    var ny := (-m.b) * q.x + m.a * q.y + (m.b * m.e - m.a * m.f);
    ApplyInverseScaled(m, q, r, nx, ny);
    RoundTripCoords(m.a, m.b, m.c, m.d, m.e, m.f, q.x, q.y, k, r, nx, ny);
    assert m == Matrix(m.a, m.b, m.c, m.d, m.e, m.f);
  }

  /** The top-centre of a box: where a tooltip is anchored. */
  function TopCentre(b: BBox): (p: Point)
    ensures p.y == b.y
    ensures p.x - b.x == b.x + b.width - p.x
  {
    Point(b.x + b.width / 2.0, b.y)
  }

  /** The centre of a box: where a region label is placed. */
  function Centre(b: BBox): (p: Point)
    ensures p.x - b.x == b.x + b.width - p.x
    ensures p.y - b.y == b.y + b.height - p.y
    ensures b.width >= 0.0 && b.height >= 0.0 ==>
              b.x <= p.x <= b.x + b.width && b.y <= p.y <= b.y + b.height
  {
    Point(b.x + b.width / 2.0, b.y + b.height / 2.0)
  }

  /** A screen point relative to a container's top-left corner. */
  function Relative(p: Point, origin: Rect): Point {
    Point(p.x - origin.left, p.y - origin.top)
  }
}
