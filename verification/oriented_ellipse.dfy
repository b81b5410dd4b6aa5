/**
  openrndr's `OrientedEllipse`: an immutable ellipse given by its center, its two
  radii measured before rotation, and a rotation in degrees about the center.
  Every "mutator" returns a new value; the contour is recomputed on each request
  as four cubic Bézier quarter-arcs that are then rotated about the center.

  The rotation matrix for an angle, built by `rotate(Vector3.UNIT_Z, degrees)`
  in the `contour` getter, is kept abstract: the contour functions take it as a parameter
  `rotationMatrix` from degrees to a 2x2 linear map.
 */
module OrientedEllipses {
  import opened Geometry
  import opened Paths

  datatype OrientedEllipse = OrientedEllipse(center: Vector2, xRadius: real, yRadius: real, rotation: real)

  /** The primary constructor with `rotation` left at its default value. */
  function AxisAligned(center: Vector2, xRadius: real, yRadius: real): (e: OrientedEllipse)
    ensures e.rotation == 0.0
    ensures e.center == center && e.xRadius == xRadius && e.yRadius == yRadius
  {
    OrientedEllipse(center, xRadius, yRadius, 0.0)
  }

  /** The secondary constructor taking the center as two coordinates. */
  function FromCoordinates(x: real, y: real, xRadius: real, yRadius: real, rotation: real): (e: OrientedEllipse)
    ensures e.center.x == x && e.center.y == y
    ensures e.xRadius == xRadius && e.yRadius == yRadius && e.rotation == rotation
  {
    OrientedEllipse(Vector2(x, y), xRadius, yRadius, rotation)
  }

  /** `moved(offset)`: the same ellipse with its center offset by `offset`. */
  function Moved(e: OrientedEllipse, offset: Vector2): (r: OrientedEllipse)
    ensures r.center == Plus(e.center, offset)
    ensures r.xRadius == e.xRadius && r.yRadius == e.yRadius && r.rotation == e.rotation
  {
    OrientedEllipse(Plus(e.center, offset), e.xRadius, e.yRadius, e.rotation)
  }

  /** `movedTo(position)`: the same ellipse centered at `position`. */
  function MovedTo(e: OrientedEllipse, position: Vector2): (r: OrientedEllipse)
    ensures r.center == position
    ensures r.xRadius == e.xRadius && r.yRadius == e.yRadius && r.rotation == e.rotation
  {
    OrientedEllipse(position, e.xRadius, e.yRadius, e.rotation)
  }

  /** `scaled(xScale, yScale)`: both radii multiplied, center and rotation kept. */
  function Scaled(e: OrientedEllipse, xScale: real, yScale: real): (r: OrientedEllipse)
    ensures r.xRadius == e.xRadius * xScale && r.yRadius == e.yRadius * yScale
    ensures r.center == e.center && r.rotation == e.rotation
  {
    OrientedEllipse(e.center, e.xRadius * xScale, e.yRadius * yScale, e.rotation)
  }

  /** `scaled(scale)`: `yScale` defaults to `xScale`. */
  function ScaledUniformly(e: OrientedEllipse, scale: real): (r: OrientedEllipse)
    ensures r.xRadius == e.xRadius * scale && r.yRadius == e.yRadius * scale
    ensures r.center == e.center && r.rotation == e.rotation
  {
    Scaled(e, scale, scale)
  }

  /** `scaledTo(xFitRadius, yFitRadius)`: the radii set to the given values. */
  function ScaledTo(e: OrientedEllipse, xFitRadius: real, yFitRadius: real): (r: OrientedEllipse)
    ensures r.xRadius == xFitRadius && r.yRadius == yFitRadius
    ensures r.center == e.center && r.rotation == e.rotation
  {
    OrientedEllipse(e.center, xFitRadius, yFitRadius, e.rotation)
  }

  /** `scaledTo(fitRadius)`: `yFitRadius` defaults to `xFitRadius`. */
  function ScaledToRadius(e: OrientedEllipse, fitRadius: real): (r: OrientedEllipse)
    ensures r.xRadius == fitRadius && r.yRadius == fitRadius
    ensures r.center == e.center && r.rotation == e.rotation
  {
    ScaledTo(e, fitRadius, fitRadius)
  }

  // ---------------------------------------------------------------------------
  // Laws of the copy-with-change operations
  // ---------------------------------------------------------------------------

  lemma MovedByNothingIsIdentity(e: OrientedEllipse)
    ensures Moved(e, Origin) == e
  {
  }

  /** Two moves add up; in particular moving by `v` and then by `-v` is the identity. */
  lemma MovedTwice(e: OrientedEllipse, u: Vector2, v: Vector2)
    ensures Moved(Moved(e, u), v) == Moved(e, Plus(u, v))
    ensures Moved(Moved(e, v), Negated(v)) == e
  {
  }

  /** `moved` is `movedTo` the shifted center. */
  lemma MovedIsMovedTo(e: OrientedEllipse, v: Vector2)
    ensures Moved(e, v) == MovedTo(e, Plus(e.center, v))
  {
  }

  lemma MovedToIsIdempotent(e: OrientedEllipse, position: Vector2)
    ensures MovedTo(MovedTo(e, position), position) == MovedTo(e, position)
    ensures MovedTo(e, e.center) == e
  {
  }

  lemma ScaledByOneIsIdentity(e: OrientedEllipse)
    ensures Scaled(e, 1.0, 1.0) == e
    ensures ScaledUniformly(e, 1.0) == e
  {
  }

  /** Two scalings multiply. */
  lemma ScaledTwice(e: OrientedEllipse, xa: real, ya: real, xb: real, yb: real)
    ensures Scaled(Scaled(e, xa, ya), xb, yb) == Scaled(e, xa * xb, ya * yb)
  {
    assert e.xRadius * xa * xb == e.xRadius * (xa * xb);
    assert e.yRadius * ya * yb == e.yRadius * (ya * yb);
  }

  /** A relative scaling is the absolute `scaledTo` of the products. */
  lemma ScaledIsScaledTo(e: OrientedEllipse, xScale: real, yScale: real)
    ensures Scaled(e, xScale, yScale) == ScaledTo(e, e.xRadius * xScale, e.yRadius * yScale)
  {
  }

  /** `scaledTo` forgets the old radii: only center and rotation carry over. */
  lemma ScaledToIgnoresOldRadii(e: OrientedEllipse, f: OrientedEllipse, xFitRadius: real, yFitRadius: real)
    requires e.center == f.center && e.rotation == f.rotation
    ensures ScaledTo(e, xFitRadius, yFitRadius) == ScaledTo(f, xFitRadius, yFitRadius)
  {
  }

  lemma ScaledToOwnRadiiIsIdentity(e: OrientedEllipse)
    ensures ScaledTo(e, e.xRadius, e.yRadius) == e
    ensures e.xRadius == e.yRadius ==> ScaledToRadius(e, e.xRadius) == e
  {
  }

  // ---------------------------------------------------------------------------
  // The contour
  // ---------------------------------------------------------------------------

  /**
    The control-point factor of the four-arc cubic Bézier approximation of a
    quarter ellipse, the constant openrndr's `OrientedEllipse.contour` uses.
   */
  const Kappa: real := 0.5522848

  /**
    The path the `contour { }` block draws before the rotation is applied:
    start at the left middle of the bounding box, then one quarter-arc each to
    the top, right, bottom and back to the left middle, then `close()`.
   */
  function AxisAlignedContour(e: OrientedEllipse): (c: Contour)
    ensures c.closed && |c.segments| == 4
    ensures c.start == Vector2(e.center.x - e.xRadius, e.center.y)
    ensures c.segments[0].end == Vector2(e.center.x, e.center.y - e.yRadius)
    ensures c.segments[1].end == Vector2(e.center.x + e.xRadius, e.center.y)
    ensures c.segments[2].end == Vector2(e.center.x, e.center.y + e.yRadius)
    ensures c.segments[3].end == c.start
    ensures c.segments[0].control0 == Vector2(e.center.x - e.xRadius, e.center.y - Kappa * e.yRadius)
    ensures c.segments[0].control1 == Vector2(e.center.x - Kappa * e.xRadius, e.center.y - e.yRadius)
    ensures c.segments[1].control0 == Vector2(e.center.x + Kappa * e.xRadius, e.center.y - e.yRadius)
    ensures c.segments[1].control1 == Vector2(e.center.x + e.xRadius, e.center.y - Kappa * e.yRadius)
    ensures c.segments[2].control0 == Vector2(e.center.x + e.xRadius, e.center.y + Kappa * e.yRadius)
    ensures c.segments[2].control1 == Vector2(e.center.x + Kappa * e.xRadius, e.center.y + e.yRadius)
    ensures c.segments[3].control0 == Vector2(e.center.x - Kappa * e.xRadius, e.center.y + e.yRadius)
    ensures c.segments[3].control1 == Vector2(e.center.x - e.xRadius, e.center.y + Kappa * e.yRadius)
  {
    var x := e.center.x - e.xRadius;
    var y := e.center.y - e.yRadius;
    var width := e.xRadius * 2.0;
    var height := e.yRadius * 2.0;
    var ox := width / 2.0 * Kappa;
    var oy := height / 2.0 * Kappa;
    var xe := x + width;
    var ye := y + height;
    var xm := x + width / 2.0;
    var ym := y + height / 2.0;
    Contour(
      Vector2(x, ym),
      [ Cubic(Vector2(x, ym - oy), Vector2(xm - ox, y), Vector2(xm, y)),
        Cubic(Vector2(xm + ox, y), Vector2(xe, ym - oy), Vector2(xe, ym)),
        Cubic(Vector2(xe, ym + oy), Vector2(xm + ox, ye), Vector2(xm, ye)),
        Cubic(Vector2(xm - ox, ye), Vector2(x, ym + oy), Vector2(x, ym)) ],
      true)
  }

  /**
    Segment `i` of the unrotated path as multiples of the radii: its control
    points and end point sit at center + (fx * xRadius, fy * yRadius) for the
    three (fx, fy) pairs returned here.
   */
  function ArcFactors(i: nat): (real, real, real, real, real, real)
    requires i < 4
  {
    if i == 0 then (-1.0, -Kappa, -Kappa, -1.0, 0.0, -1.0)
    else if i == 1 then (Kappa, -1.0, 1.0, -Kappa, 1.0, 0.0)
    else if i == 2 then (1.0, Kappa, Kappa, 1.0, 0.0, 1.0)
    else (-Kappa, 1.0, -1.0, Kappa, -1.0, 0.0)
  }

  function AtFactors(e: OrientedEllipse, fx: real, fy: real): Vector2 {
    Vector2(e.center.x + fx * e.xRadius, e.center.y + fy * e.yRadius)
  }

  /** Every point of segment `i` of the unrotated path, as multiples of the radii. */
  lemma AxisAlignedArcFactors(e: OrientedEllipse, i: nat)
    requires i < 4
    ensures AxisAlignedContour(e).segments[i]
         == Cubic(AtFactors(e, ArcFactors(i).0, ArcFactors(i).1), AtFactors(e, ArcFactors(i).2, ArcFactors(i).3),
                  AtFactors(e, ArcFactors(i).4, ArcFactors(i).5))
  {
  }

  /** `translate(center)`, `rotate(rotation)`, `translate(-center)`: rotation about the center. */
  function RotationTransform(e: OrientedEllipse, rotationMatrix: real -> Linear2): (t: Affine2)
    ensures forall p :: Apply(t, p) == RotatedAboutCenter(e, rotationMatrix, p)
  {
    AboutPivot(e.center, rotationMatrix(e.rotation))
  }

  /** The point `p` rotated about the ellipse's center: center + R(p - center). */
  function RotatedAboutCenter(e: OrientedEllipse, rotationMatrix: real -> Linear2, p: Vector2): Vector2 {
    Plus(e.center, ApplyLinear(rotationMatrix(e.rotation), Minus(p, e.center)))
  }

  /**
    The `contour` getter: the axis-aligned path rotated about the center. Every
    point of it, start and control points included, is the matching point of the
    axis-aligned path rotated about the center. For any radii, sign or magnitude,
    and any rotation it is one closed path of exactly four cubic segments that
    ends where it starts and turns smoothly at every joint.
   */
  function ContourOf(e: OrientedEllipse, rotationMatrix: real -> Linear2): (c: Contour)
    ensures c.closed && |c.segments| == 4
    ensures c.start == RotatedAboutCenter(e, rotationMatrix, AxisAlignedContour(e).start)
    ensures forall i :: 0 <= i < 4 ==>
              var a := AxisAlignedContour(e).segments[i];
              && c.segments[i].control0 == RotatedAboutCenter(e, rotationMatrix, a.control0)
              && c.segments[i].control1 == RotatedAboutCenter(e, rotationMatrix, a.control1)
              && c.segments[i].end == RotatedAboutCenter(e, rotationMatrix, a.end)
    ensures Smooth(c)
  {
    var c := Transformed(AxisAlignedContour(e), RotationTransform(e, rotationMatrix));
    AxisAlignedContourIsSmooth(e);
    TransformedPreservesSmooth(AxisAlignedContour(e), RotationTransform(e, rotationMatrix));
    c
  }

  /** The `shape` getter: a shape made of exactly the one contour. */
  function ShapeOf(e: OrientedEllipse, rotationMatrix: real -> Linear2): (s: Shape)
    ensures |s.contours| == 1
    ensures s.contours[0] == ContourOf(e, rotationMatrix)
  {
    Shape([ContourOf(e, rotationMatrix)])
  }

  // ---------------------------------------------------------------------------
  // Laws of the contour
  // ---------------------------------------------------------------------------

  /**
    The ellipse centered at the origin with radii 10 and 5 and no rotation starts
    at (-10, 0); its first quarter-arc has control points (-10, -2.761424) and
    (-5.522848, -5) and ends at (0, -5), and the path closes back at (-10, 0).
   */
  lemma ExampleContour(rotationMatrix: real -> Linear2)
    requires rotationMatrix(0.0) == Identity
    ensures var c := ContourOf(FromCoordinates(0.0, 0.0, 10.0, 5.0, 0.0), rotationMatrix);
            && c.start == Vector2(-10.0, 0.0)
            && c.segments[0] == Cubic(Vector2(-10.0, -2.761424), Vector2(-5.522848, -5.0), Vector2(0.0, -5.0))
            && c.segments[3].end == Vector2(-10.0, 0.0)
  {
    ContourWithoutRotation(FromCoordinates(0.0, 0.0, 10.0, 5.0, 0.0), rotationMatrix);
  }

  /** The four quarter-arcs meet with matching tangents, the closing joint included. */
  lemma AxisAlignedContourIsSmooth(e: OrientedEllipse)
    ensures Smooth(AxisAlignedContour(e))
  {
    var c := AxisAlignedContour(e);
    assert JointsSmooth(c) by {
      forall i | 0 <= i < 4
        ensures Minus(SegmentStart(c, i), IncomingControl(c, i)) == Minus(c.segments[i].control0, SegmentStart(c, i))
      {
      }
    }
  }

  /** `p` lies on one of the four edges' lines of the bounding box. */
  predicate OnBoundingBoxEdge(e: OrientedEllipse, p: Vector2) {
    || p.x == e.center.x - e.xRadius || p.x == e.center.x + e.xRadius
    || p.y == e.center.y - e.yRadius || p.y == e.center.y + e.yRadius
  }

  /** `p` lies in the closed bounding box `[cx - rx, cx + rx] x [cy - ry, cy + ry]`. */
  predicate InBoundingBox(e: OrientedEllipse, p: Vector2) {
    && e.center.x - e.xRadius <= p.x <= e.center.x + e.xRadius
    && e.center.y - e.yRadius <= p.y <= e.center.y + e.yRadius
  }

  /** Every point of the unrotated path, control points included, satisfies `P`. */
  predicate EveryPoint(c: Contour, P: Vector2 -> bool) {
    && P(c.start)
    && forall i :: 0 <= i < |c.segments| ==>
         P(c.segments[i].control0) && P(c.segments[i].control1) && P(c.segments[i].end)
  }

  /**
    Before the rotation every point of the path sits on an edge of the bounding
    box, whatever the radii; with non-negative radii, since Kappa < 1, every point
    also lies inside the box.
   */
  lemma AxisAlignedContourHugsBoundingBox(e: OrientedEllipse)
    ensures EveryPoint(AxisAlignedContour(e), p => OnBoundingBoxEdge(e, p))
    ensures e.xRadius >= 0.0 && e.yRadius >= 0.0 ==> EveryPoint(AxisAlignedContour(e), p => InBoundingBox(e, p))
  {
    var c := AxisAlignedContour(e);
    forall i | 0 <= i < 4
      ensures OnBoundingBoxEdge(e, c.segments[i].control0) && OnBoundingBoxEdge(e, c.segments[i].control1)
      ensures OnBoundingBoxEdge(e, c.segments[i].end)
    {
    }
    if e.xRadius >= 0.0 && e.yRadius >= 0.0 {
      assert 0.0 <= Kappa * e.xRadius <= e.xRadius;
      assert 0.0 <= Kappa * e.yRadius <= e.yRadius;
      forall i | 0 <= i < 4
        ensures InBoundingBox(e, c.segments[i].control0) && InBoundingBox(e, c.segments[i].control1)
        ensures InBoundingBox(e, c.segments[i].end)
      {
      }
    }
  }

  /** The center is a fixed point of the contour's transform, whatever the rotation. */
  lemma CenterIsFixed(e: OrientedEllipse, rotationMatrix: real -> Linear2)
    ensures Apply(RotationTransform(e, rotationMatrix), e.center) == e.center
  {
    PivotIsFixed(e.center, rotationMatrix(e.rotation));
  }

  /** When the rotation matrix is the identity the contour is the unrotated path. */
  lemma ContourWithoutRotation(e: OrientedEllipse, rotationMatrix: real -> Linear2)
    requires rotationMatrix(e.rotation) == Identity
    ensures ContourOf(e, rotationMatrix) == AxisAlignedContour(e)
  {
    var a := AxisAlignedContour(e);
    var c := ContourOf(e, rotationMatrix);
    var t := RotationTransform(e, rotationMatrix);
    assert forall p :: Apply(t, p) == p;
    assert c.start == a.start;
    forall i | 0 <= i < 4 ensures c.segments[i] == a.segments[i] {
      assert c.segments[i] == TransformedCubic(t, a.segments[i]);
    }
  }

  /** The unrotated path of a moved ellipse is the unrotated path shifted. */
  lemma AxisAlignedContourOfMoved(e: OrientedEllipse, v: Vector2)
    ensures AxisAlignedContour(Moved(e, v)) == Shifted(AxisAlignedContour(e), v)
  {
    var lhs := AxisAlignedContour(Moved(e, v));
    var rhs := Shifted(AxisAlignedContour(e), v);
    assert lhs.start == rhs.start;
    forall i | 0 <= i < 4 ensures lhs.segments[i] == rhs.segments[i] {
    }
  }

  /** The contour of `moved(v)` is the contour with every point shifted by `v`. */
  lemma ContourOfMoved(e: OrientedEllipse, v: Vector2, rotationMatrix: real -> Linear2)
    ensures ContourOf(Moved(e, v), rotationMatrix) == Shifted(ContourOf(e, rotationMatrix), v)
  {
    var a := AxisAlignedContour(e);
    var m := rotationMatrix(e.rotation);
    var lhs := ContourOf(Moved(e, v), rotationMatrix);
    var rhs := Shifted(ContourOf(e, rotationMatrix), v);
    AxisAlignedContourOfMoved(e, v);
    assert lhs == Transformed(Shifted(a, v), AboutPivot(Plus(e.center, v), m));
    assert rhs == Transformed(Transformed(a, AboutPivot(e.center, m)), Translation(v));
    ShiftCommutesWithRotation(e.center, m, v, a.start);
    assert lhs.start == rhs.start;
    forall i | 0 <= i < 4 ensures lhs.segments[i] == rhs.segments[i] {
      var s := a.segments[i];
      ShiftCommutesWithRotation(e.center, m, v, s.control0);
      ShiftCommutesWithRotation(e.center, m, v, s.control1);
      ShiftCommutesWithRotation(e.center, m, v, s.end);
    }
  }

  lemma ShiftCommutesWithRotation(pivot: Vector2, m: Linear2, v: Vector2, p: Vector2)
    ensures Apply(AboutPivot(Plus(pivot, v), m), Apply(Translation(v), p))
         == Apply(Translation(v), Apply(AboutPivot(pivot, m), p))
  {
    AboutPivotCommutesWithTranslation(pivot, m, v, p);
  }

  /** The contour of `movedTo(p)` is the contour shifted from the old center to `p`. */
  lemma ContourOfMovedTo(e: OrientedEllipse, position: Vector2, rotationMatrix: real -> Linear2)
    ensures ContourOf(MovedTo(e, position), rotationMatrix) == Shifted(ContourOf(e, rotationMatrix), Minus(position, e.center))
  {
    MovedIsMovedTo(e, Minus(position, e.center));
    assert Plus(e.center, Minus(position, e.center)) == position;
    ContourOfMoved(e, Minus(position, e.center), rotationMatrix);
  }

  /**
    Before the rotation, the path of `scaled(sx, sy)` is the path scaled about
    the center by `sx` horizontally and `sy` vertically; in particular its
    bounding box is the old one scaled about the center.
   */
  lemma AxisAlignedContourOfScaled(e: OrientedEllipse, xScale: real, yScale: real)
    ensures AxisAlignedContour(Scaled(e, xScale, yScale))
         == Transformed(AxisAlignedContour(e), AboutPivot(e.center, Linear2(xScale, 0.0, 0.0, yScale)))
  {
    var a := AxisAlignedContour(e);
    var t := AboutPivot(e.center, Linear2(xScale, 0.0, 0.0, yScale));
    var lhs := AxisAlignedContour(Scaled(e, xScale, yScale));
    var rhs := Transformed(a, t);
    assert a.start == AtFactors(e, -1.0, 0.0);
    assert lhs.start == AtFactors(Scaled(e, xScale, yScale), -1.0, 0.0);
    ScaledPoint(e, xScale, yScale, -1.0, 0.0);
    forall i | 0 <= i < 4 ensures lhs.segments[i] == rhs.segments[i] {
      ScaledQuarterArc(e, xScale, yScale, i);
    }
  }

  lemma ScaledQuarterArc(e: OrientedEllipse, xScale: real, yScale: real, i: nat)
    requires i < 4
    ensures AxisAlignedContour(Scaled(e, xScale, yScale)).segments[i]
         == TransformedCubic(AboutPivot(e.center, Linear2(xScale, 0.0, 0.0, yScale)), AxisAlignedContour(e).segments[i])
  {
    var f := ArcFactors(i);
    AxisAlignedArcFactors(e, i);
    AxisAlignedArcFactors(Scaled(e, xScale, yScale), i);
    ScaledPoint(e, xScale, yScale, f.0, f.1);
    ScaledPoint(e, xScale, yScale, f.2, f.3);
    ScaledPoint(e, xScale, yScale, f.4, f.5);
  }

  /**
    Scaling about the center by (sx, sy) takes the point at (fx, fy) times the
    radii to the point at (fx, fy) times the scaled radii.
   */
  lemma ScaledPoint(e: OrientedEllipse, xScale: real, yScale: real, fx: real, fy: real)
    ensures Apply(AboutPivot(e.center, Linear2(xScale, 0.0, 0.0, yScale)), AtFactors(e, fx, fy))
         == AtFactors(Scaled(e, xScale, yScale), fx, fy)
  {
    assert xScale * (fx * e.xRadius) == fx * (e.xRadius * xScale);
    assert yScale * (fy * e.yRadius) == fy * (e.yRadius * yScale);
  }
}
