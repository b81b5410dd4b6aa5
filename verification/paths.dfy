/**
  The closed path a `contour { }` builder produces, reduced to its geometry: the
  `moveTo` point, the `curveTo` segments in order, and whether `close()` was
  called. openrndr's own `ShapeContour`, `Segment` and `Shape` classes are not part
  of this model; a cubic segment here carries only its two control points and its
  end point, and it starts where the previous segment (or the `moveTo`) ended.
 */
module Paths {
  import opened Geometry

  /** One `curveTo(control0, control1, end)`. */
  datatype Cubic = Cubic(control0: Vector2, control1: Vector2, end: Vector2)

  datatype Contour = Contour(start: Vector2, segments: seq<Cubic>, closed: bool)

  /** A shape is a list of contours. */
  datatype Shape = Shape(contours: seq<Contour>)

  /** The point segment `i` starts from: the `moveTo` point or the previous end point. */
  function SegmentStart(c: Contour, i: nat): Vector2
    requires i < |c.segments|
  {
    if i == 0 then c.start else c.segments[i - 1].end
  }

  /** The control point that leads into the start of segment `i`, cyclically. */
  function IncomingControl(c: Contour, i: nat): Vector2
    requires i < |c.segments|
  {
    if i == 0 then c.segments[|c.segments| - 1].control1 else c.segments[i - 1].control1
  }

  /** The path is closed and its last segment ends exactly where it started. */
  predicate ClosesOnItself(c: Contour) {
    c.closed && |c.segments| > 0 && c.segments[|c.segments| - 1].end == c.start
  }

  /**
    Tangent continuity at every joint, the closing one included: the incoming
    control point, the joint and the outgoing control point are collinear, with
    the joint halfway between them.
   */
  predicate JointsSmooth(c: Contour) {
    forall i :: 0 <= i < |c.segments| ==>
      Minus(SegmentStart(c, i), IncomingControl(c, i)) == Minus(c.segments[i].control0, SegmentStart(c, i))
  }

  /** A closed path whose every joint is smooth. */
  predicate Smooth(c: Contour) {
    ClosesOnItself(c) && JointsSmooth(c)
  }

  function TransformedCubic(t: Affine2, s: Cubic): Cubic {
    Cubic(Apply(t, s.control0), Apply(t, s.control1), Apply(t, s.end))
  }

  /** `ShapeContour.transform(t)`: every point of the path goes through `t`. */
  function Transformed(c: Contour, t: Affine2): (r: Contour)
    ensures |r.segments| == |c.segments| && r.closed == c.closed
    ensures r.start == Apply(t, c.start)
    ensures forall i :: 0 <= i < |c.segments| ==>
              && r.segments[i].control0 == Apply(t, c.segments[i].control0)
              && r.segments[i].control1 == Apply(t, c.segments[i].control1)
              && r.segments[i].end == Apply(t, c.segments[i].end)
    ensures forall i :: 0 <= i < |c.segments| ==> SegmentStart(r, i) == Apply(t, SegmentStart(c, i))
    ensures forall i :: 0 <= i < |c.segments| ==> IncomingControl(r, i) == Apply(t, IncomingControl(c, i))
  {
    Contour(Apply(t, c.start), seq(|c.segments|, i requires 0 <= i < |c.segments| => TransformedCubic(t, c.segments[i])), c.closed)
  }

  /** The same path with every point moved by `v`. */
  function Shifted(c: Contour, v: Vector2): Contour {
    Transformed(c, Translation(v))
  }

  /** An affine transform keeps a smooth closed path smooth and closed. */
  lemma TransformedPreservesSmooth(c: Contour, t: Affine2)
    requires Smooth(c)
    ensures Smooth(Transformed(c, t))
  {
    TransformedStaysClosed(c, t);
    TransformedKeepsJointsSmooth(c, t);
  }

  lemma TransformedStaysClosed(c: Contour, t: Affine2)
    requires ClosesOnItself(c)
    ensures ClosesOnItself(Transformed(c, t))
  {
    var r := Transformed(c, t);
    var last := |c.segments| - 1;
    assert r.segments[last] == TransformedCubic(t, c.segments[last]);
  }

  lemma TransformedKeepsJointsSmooth(c: Contour, t: Affine2)
    requires JointsSmooth(c)
    ensures JointsSmooth(Transformed(c, t))
  {
    var r := Transformed(c, t);
    forall i | 0 <= i < |c.segments|
      ensures Minus(SegmentStart(r, i), IncomingControl(r, i)) == Minus(r.segments[i].control0, SegmentStart(r, i))
    {
      JointStaysSmooth(t, IncomingControl(c, i), SegmentStart(c, i), c.segments[i].control0);
    }
  }

  lemma JointStaysSmooth(t: Affine2, incoming: Vector2, joint: Vector2, outgoing: Vector2)
    requires Minus(joint, incoming) == Minus(outgoing, joint)
    ensures Minus(Apply(t, joint), Apply(t, incoming)) == Minus(Apply(t, outgoing), Apply(t, joint))
  {
    AffineOfDifference(t, joint, incoming);
    AffineOfDifference(t, outgoing, joint);
  }

  /** Transforming twice is transforming once by the composed matrix. */
  lemma TransformedTwice(c: Contour, outer: Affine2, inner: Affine2)
    ensures Transformed(Transformed(c, inner), outer) == Transformed(c, Compose(outer, inner))
  {
    var lhs := Transformed(Transformed(c, inner), outer);
    var rhs := Transformed(c, Compose(outer, inner));
    forall i | 0 <= i < |c.segments| ensures lhs.segments[i] == rhs.segments[i] {
      TransformedCubicTwice(c.segments[i], outer, inner);
    }
  }

  lemma TransformedCubicTwice(s: Cubic, outer: Affine2, inner: Affine2)
    ensures TransformedCubic(outer, TransformedCubic(inner, s)) == TransformedCubic(Compose(outer, inner), s)
  {
  }
}
