/**
  Planar points and the affine transforms openrndr builds with its `transform { }`
  block. Coordinates are exact reals, so identities that hold only up to rounding
  for IEEE doubles hold exactly here. A 4x4 openrndr matrix acting on points of
  the z = 0 plane is represented by its planar part: a 2x2 linear map plus an
  offset.
 */
module Geometry {

  /** A point or an offset in the plane (openrndr's `Vector2`). */
  datatype Vector2 = Vector2(x: real, y: real)

  const Origin := Vector2(0.0, 0.0)

  function Plus(a: Vector2, b: Vector2): Vector2 {
    Vector2(a.x + b.x, a.y + b.y)
  }

  function Minus(a: Vector2, b: Vector2): Vector2 {
    Vector2(a.x - b.x, a.y - b.y)
  }

  function Negated(a: Vector2): Vector2 {
    Vector2(-a.x, -a.y)
  }

  /** The 2x2 linear map [[a, b], [c, d]]: (x, y) goes to (a x + b y, c x + d y). */
  datatype Linear2 = Linear2(a: real, b: real, c: real, d: real)

  const Identity := Linear2(1.0, 0.0, 0.0, 1.0)

  function ApplyLinear(m: Linear2, p: Vector2): Vector2 {
    Vector2(m.a * p.x + m.b * p.y, m.c * p.x + m.d * p.y)
  }

  /** The matrix product `outer * inner`: first `inner`, then `outer`. */
  function Product(outer: Linear2, inner: Linear2): (r: Linear2)
    ensures forall p :: ApplyLinear(r, p) == ApplyLinear(outer, ApplyLinear(inner, p))
  {
    var r := Linear2(outer.a * inner.a + outer.b * inner.c, outer.a * inner.b + outer.b * inner.d,
                     outer.c * inner.a + outer.d * inner.c, outer.c * inner.b + outer.d * inner.d);
    forall p ensures ApplyLinear(r, p) == ApplyLinear(outer, ApplyLinear(inner, p)) {
      ProductAppliesAt(outer, inner, p);
    }
    r
  }

  lemma ProductAppliesAt(outer: Linear2, inner: Linear2, p: Vector2)
    ensures ApplyLinear(Linear2(outer.a * inner.a + outer.b * inner.c, outer.a * inner.b + outer.b * inner.d,
                                outer.c * inner.a + outer.d * inner.c, outer.c * inner.b + outer.d * inner.d), p)
         == ApplyLinear(outer, ApplyLinear(inner, p))
  {
  }

  /** A linear map takes differences to differences. */
  lemma LinearOfDifference(m: Linear2, p: Vector2, q: Vector2)
    ensures ApplyLinear(m, Minus(p, q)) == Minus(ApplyLinear(m, p), ApplyLinear(m, q))
  {
  }

  /** The affine map p |-> linear(p) + offset. */
  datatype Affine2 = Affine2(linear: Linear2, offset: Vector2)

  function Apply(t: Affine2, p: Vector2): Vector2 {
    Plus(ApplyLinear(t.linear, p), t.offset)
  }

  /** openrndr's `translate(v)`. */
  function Translation(v: Vector2): (r: Affine2)
    ensures forall p :: Apply(r, p) == Plus(p, v)
  {
    Affine2(Identity, v)
  }

  /** A linear map that keeps the origin fixed (`rotate(Vector3.UNIT_Z, ...)` on the plane). */
  function LinearPart(m: Linear2): (r: Affine2)
    ensures forall p :: Apply(r, p) == ApplyLinear(m, p)
  {
    Affine2(m, Origin)
  }

  /**
    Matrix composition as the `transform { }` builder performs it: each call
    post-multiplies, so the transform written last is applied to a point first.
   */
  function Compose(outer: Affine2, inner: Affine2): (r: Affine2)
    ensures forall p :: Apply(r, p) == Apply(outer, Apply(inner, p))
  {
    var r := Affine2(Product(outer.linear, inner.linear),
                     Plus(ApplyLinear(outer.linear, inner.offset), outer.offset));
    forall p ensures Apply(r, p) == Apply(outer, Apply(inner, p)) {
      LinearOfSum(outer.linear, ApplyLinear(inner.linear, p), inner.offset);
    }
    r
  }

  lemma LinearOfSum(m: Linear2, p: Vector2, q: Vector2)
    ensures ApplyLinear(m, Plus(p, q)) == Plus(ApplyLinear(m, p), ApplyLinear(m, q))
  {
  }

  /**
    `transform { translate(pivot); <m>; translate(-pivot) }`: the linear map `m`
    applied about `pivot` instead of about the origin.
   */
  function AboutPivot(pivot: Vector2, m: Linear2): (r: Affine2)
    ensures forall p :: Apply(r, p) == Plus(pivot, ApplyLinear(m, Minus(p, pivot)))
  {
    var r := Affine2(m, Minus(pivot, ApplyLinear(m, pivot)));
    forall p ensures Apply(r, p) == Plus(pivot, ApplyLinear(m, Minus(p, pivot))) {
      LinearOfDifference(m, p, pivot);
    }
    r
  }

  /** `AboutPivot` is the matrix the three-step `transform { }` block builds. */
  lemma AboutPivotIsComposition(pivot: Vector2, m: Linear2, p: Vector2)
    ensures Apply(AboutPivot(pivot, m), p)
         == Apply(Compose(Translation(pivot), Compose(LinearPart(m), Translation(Negated(pivot)))), p)
  {
    assert Plus(p, Negated(pivot)) == Minus(p, pivot);
  }

  /** The pivot is a fixed point of a map applied about it, whatever the map. */
  lemma PivotIsFixed(pivot: Vector2, m: Linear2)
    ensures Apply(AboutPivot(pivot, m), pivot) == pivot
  {
    assert Minus(pivot, pivot) == Origin;
  }

  /**
    Moving the pivot and the point by the same offset moves the image by that
    offset: translation commutes with a map applied about the pivot.
   */
  lemma AboutPivotCommutesWithTranslation(pivot: Vector2, m: Linear2, v: Vector2, p: Vector2)
    ensures Apply(AboutPivot(Plus(pivot, v), m), Plus(p, v)) == Plus(Apply(AboutPivot(pivot, m), p), v)
  {
    assert Minus(Plus(p, v), Plus(pivot, v)) == Minus(p, pivot);
  }

  /** An affine map takes differences of points to their images under its linear part. */
  lemma AffineOfDifference(t: Affine2, p: Vector2, q: Vector2)
    ensures Minus(Apply(t, p), Apply(t, q)) == ApplyLinear(t.linear, Minus(p, q))
  {
    LinearOfDifference(t.linear, p, q);
  }
}
