/** The ray geometry behind picking: the screen-to-NDC mapping, the
    bounding-sphere test and the ray-to-segment distance. All of it is exact
    over the reals; a squared length stands in for every length. */
module Geometry {
  import opened Vectors
  import opened Wrappers

  const ScreenWidth: real := 1920.0
  const ScreenHeight: real := 1080.0

  /** Normalized device coordinates, x to the right and y upwards. */
  datatype Ndc = Ndc(x: real, y: real)

  /** The first step of ScreenToWorldRay: a cursor position in pixels, origin at
      the top-left corner, becomes NDC with the y axis flipped. */
  function ScreenToNdc(mouseX: real, mouseY: real): (p: Ndc)
    ensures 0.0 <= mouseX <= ScreenWidth ==> -1.0 <= p.x <= 1.0
    ensures 0.0 <= mouseY <= ScreenHeight ==> -1.0 <= p.y <= 1.0
  {
    Ndc((2.0 * mouseX) / ScreenWidth - 1.0, 1.0 - (2.0 * mouseY) / ScreenHeight)
  }

  /** The inverse mapping, from NDC back to pixels. */
  function NdcToScreen(p: Ndc): (real, real) {
    ((p.x + 1.0) * ScreenWidth / 2.0, (1.0 - p.y) * ScreenHeight / 2.0)
  }

  lemma NdcRoundTrip(mouseX: real, mouseY: real, p: Ndc)
    ensures NdcToScreen(ScreenToNdc(mouseX, mouseY)) == (mouseX, mouseY)
    ensures ScreenToNdc(NdcToScreen(p).0, NdcToScreen(p).1) == p
  {
  }

  /** Moving the cursor right moves x up; moving it down moves y down. The
      top-left pixel is (-1, 1) and the bottom-right one is (1, -1). */
  lemma ScreenToNdcOrientation(x1: real, y1: real, x2: real, y2: real)
    ensures x1 < x2 ==> ScreenToNdc(x1, y1).x < ScreenToNdc(x2, y2).x
    ensures y1 < y2 ==> ScreenToNdc(x1, y1).y > ScreenToNdc(x2, y2).y
    ensures ScreenToNdc(0.0, 0.0) == Ndc(-1.0, 1.0)
    ensures ScreenToNdc(ScreenWidth, ScreenHeight) == Ndc(1.0, -1.0)
  {
  }

  /** b^2 - 4ac for |origin + t dir - center|^2 = radiusSq, as RayIntersectsObject
      computes it. */
  function Discriminant(origin: Vec3, dir: Vec3, center: Vec3, radiusSq: real): real {
    var oc := Sub(origin, center);
    var a := Dot(dir, dir);
    var b := 2.0 * Dot(oc, dir);
    var c := Dot(oc, oc) - radiusSq;
    Sq(b) - 4.0 * a * c
  }

  /** The bounding-sphere test: a strictly positive discriminant. A tangent
      line (discriminant zero) misses, and no t >= 0 condition is imposed. */
  predicate SphereHit(origin: Vec3, dir: Vec3, center: Vec3, radiusSq: real) {
    Discriminant(origin, dir, center, radiusSq) > 0.0
  }

  lemma DiscriminantAsDistance(origin: Vec3, dir: Vec3, center: Vec3, radiusSq: real)
    ensures Discriminant(origin, dir, center, radiusSq)
         == 4.0 * (radiusSq * NormSq(dir) - NormSq(Cross(Sub(origin, center), dir)))
  {
    Lagrange(Sub(origin, center), dir);
  }

  /** Independent reading of the test: it hits exactly when the whole line
      through the ray passes strictly closer than the radius to the centre,
      |oc x dir|^2 / |dir|^2 < r^2, written without the division. A zero
      direction never hits. */
  lemma SphereHitIffLineWithinRadius(origin: Vec3, dir: Vec3, center: Vec3, radiusSq: real)
    ensures SphereHit(origin, dir, center, radiusSq)
        <==> NormSq(Cross(Sub(origin, center), dir)) < radiusSq * NormSq(dir)
  {
    DiscriminantAsDistance(origin, dir, center, radiusSq);
  }

  lemma DiscriminantScales(origin: Vec3, dir: Vec3, center: Vec3, radiusSq: real, k: real)
    ensures Discriminant(origin, ScaleBy(k, dir), center, radiusSq)
         == Sq(k) * Discriminant(origin, dir, center, radiusSq)
  {
    var oc := Sub(origin, center);
    var a, b, c := Dot(dir, dir), 2.0 * Dot(oc, dir), Dot(oc, oc) - radiusSq;
    NormSqScale(k, dir);
    DotScaleRight(k, oc, dir);
    assert 2.0 * Dot(oc, ScaleBy(k, dir)) == k * b;
    SqMul(k, b);
    calc {
      Discriminant(origin, ScaleBy(k, dir), center, radiusSq);
    ==
      Sq(k * b) - 4.0 * (Sq(k) * a) * c;
    ==
      Sq(k) * Sq(b) - 4.0 * (Sq(k) * a) * c;
    ==
      Sq(k) * (Sq(b) - 4.0 * a * c);
    }
  }

  /** Scaling the direction by any non-zero factor, including -1, gives the same
      answer: the test does not depend on normalisation, and a sphere behind the
      camera is hit as well as one in front of it. */
  lemma SphereHitIgnoresDirectionScale(origin: Vec3, dir: Vec3, center: Vec3, radiusSq: real, k: real)
    requires k != 0.0
    ensures SphereHit(origin, ScaleBy(k, dir), center, radiusSq) == SphereHit(origin, dir, center, radiusSq)
  {
    DiscriminantScales(origin, dir, center, radiusSq, k);
    SqSign(k);
    MulSign(Sq(k), Discriminant(origin, dir, center, radiusSq));
  }

  /** glm::clamp(t, 0, 1). */
  function Clamp01(t: real): (r: real)
    ensures 0.0 <= r <= 1.0
    ensures 0.0 <= t <= 1.0 ==> r == t
    ensures t < 0.0 ==> r == 0.0
    ensures t > 1.0 ==> r == 1.0
  {
    if t < 0.0 then 0.0 else if t > 1.0 then 1.0 else t
  }

  /** The point a + t (b - a); DistanceFromRayToLineSegment writes it as
      start + t * normalize(b - a) * length(b - a). */
  function PointOnSegment(a: Vec3, b: Vec3, t: real): Vec3 {
    Add(a, ScaleBy(t, Sub(b, a)))
  }

  /** The clamped parameter of DistanceFromRayToLineSegment: the ray ORIGIN is
      projected onto the line through a and b, and the parameter is clamped to
      [0, 1]. In the float code it is dot(v, n) / |b - a| with n the unit
      direction, which is dot(v, b - a) / |b - a|^2. */
  function SegmentParam(origin: Vec3, a: Vec3, b: Vec3): (t: real)
    requires a != b
    ensures 0.0 <= t <= 1.0
  {
    var line := Sub(b, a);
    NormSqPositive(line);
    Clamp01(Dot(Sub(origin, a), line) / NormSq(line))
  }

  /** DistanceFromRayToLineSegment, squared: the squared distance from the
      segment point nearest the ray origin to the line of the ray. The float
      code divides by |b - a| and by |dir|, so a degenerate segment or a zero
      direction gives NaN; that is None here. */
  function SegmentDistanceSq(origin: Vec3, dir: Vec3, a: Vec3, b: Vec3): (r: Option<real>)
    ensures r.Some? <==> a != b && dir != Zero
    ensures r.Some? ==> r.value >= 0.0
  {
    if a == b || dir == Zero then None
    else
      var closest := PointOnSegment(a, b, SegmentParam(origin, a, b));
      var cross := Cross(dir, Sub(closest, origin));
      NormSqPositive(dir);
      NormSqNonNegative(cross);
      Some(NormSq(cross) / NormSq(dir))
  }

  /** The squared distance from origin to the point of parameter u. */
  lemma SegmentPointDistance(origin: Vec3, a: Vec3, b: Vec3, u: real)
    ensures NormSq(Sub(origin, PointOnSegment(a, b, u)))
         == NormSq(Sub(origin, a)) - 2.0 * u * Dot(Sub(origin, a), Sub(b, a)) + Sq(u) * NormSq(Sub(b, a))
  {
    var v, line := Sub(origin, a), Sub(b, a);
    assert Sub(origin, PointOnSegment(a, b, u)) == Sub(v, ScaleBy(u, line));
    NormSqSub(v, ScaleBy(u, line));
    DotScaleRight(u, v, line);
    NormSqScale(u, line);
  }

  /** The clamped parameter picks the point of the segment nearest the ray
      origin: no other point of the segment is closer to it. */
  lemma SegmentParamIsNearestToOrigin(origin: Vec3, a: Vec3, b: Vec3, u: real)
    requires a != b
    requires 0.0 <= u <= 1.0
    ensures NormSq(Sub(origin, PointOnSegment(a, b, SegmentParam(origin, a, b))))
         <= NormSq(Sub(origin, PointOnSegment(a, b, u)))
  {
    var v, line := Sub(origin, a), Sub(b, a);
    NormSqPositive(line);
    SegmentPointDistance(origin, a, b, SegmentParam(origin, a, b));
    SegmentPointDistance(origin, a, b, u);
    ClampedQuadraticMinimum(NormSq(line), Dot(v, line), u);
  }

  /** On [0, 1] the quadratic n u^2 - 2 p u (n > 0) is smallest at the clamped
      vertex p / n. */
  lemma ClampedQuadraticMinimum(n: real, p: real, u: real)
    requires n > 0.0
    requires 0.0 <= u <= 1.0
    ensures var t := Clamp01(p / n); Sq(t) * n - 2.0 * t * p <= Sq(u) * n - 2.0 * u * p
  {
    var q := p / n;
    var t := Clamp01(q);
    assert p == q * n;
    if q < 0.0 {
      MulPositive(n, -q);
      QuadraticMinimumBelow(n, p, u);
      assert Sq(t) * n - 2.0 * t * p == 0.0;
    } else if q > 1.0 {
      MulPositive(n, q - 1.0);
      assert p - n == n * (q - 1.0);
      QuadraticMinimumAbove(n, p, u);
      assert Sq(t) * n - 2.0 * t * p == n - 2.0 * p;
    } else {
      QuadraticMinimumInside(n, p, u, q);
    }
  }

  /** With the vertex left of 0, the quadratic is smallest at 0. */
  lemma QuadraticMinimumBelow(n: real, p: real, u: real)
    requires n > 0.0 && p < 0.0
    requires 0.0 <= u <= 1.0
    ensures 0.0 <= Sq(u) * n - 2.0 * u * p
  {
    MulNonNegative(n, u);
    MulNonNegative(u, n * u - 2.0 * p);
    assert Sq(u) * n - 2.0 * u * p == u * (n * u - 2.0 * p);
  }

  /** With the vertex right of 1, the quadratic is smallest at 1. */
  lemma QuadraticMinimumAbove(n: real, p: real, u: real)
    requires n > 0.0 && p > n
    requires 0.0 <= u <= 1.0
    ensures n - 2.0 * p <= Sq(u) * n - 2.0 * u * p
  {
    MulNonNegative(n, 1.0 - u);
    MulNonNegative(1.0 - u, 2.0 * p - n * (u + 1.0));
    assert (Sq(u) * n - 2.0 * u * p) - (n - 2.0 * p) == (1.0 - u) * (2.0 * p - n * (u + 1.0));
  }

  /** With the vertex t = p / n inside [0, 1], the quadratic is smallest there. */
  lemma QuadraticMinimumInside(n: real, p: real, u: real, t: real)
    requires n > 0.0 && p == t * n
    ensures Sq(t) * n - 2.0 * t * p <= Sq(u) * n - 2.0 * u * p
  {
    SqSign(u - t);
    MulNonNegative(n, Sq(u - t));
    assert (Sq(u) * n - 2.0 * u * p) - (Sq(t) * n - 2.0 * t * p) == n * Sq(u - t);
  }

  /** The segment point the distance is measured to. */
  function ClosestSegmentPoint(origin: Vec3, a: Vec3, b: Vec3): Vec3
    requires a != b
  {
    PointOnSegment(a, b, SegmentParam(origin, a, b))
  }

  /** Independent reading of the value: it is the squared distance from the
      chosen segment point to the nearest point of the ray's whole line. Every
      point origin + s dir is at least that far, and the foot of the
      perpendicular, s = dir . (c - origin) / |dir|^2, is exactly that far. */
  lemma SegmentDistanceIsLineDistance(origin: Vec3, dir: Vec3, a: Vec3, b: Vec3, s: real)
    requires a != b && dir != Zero
    ensures var c := ClosestSegmentPoint(origin, a, b);
            SegmentDistanceSq(origin, dir, a, b).value <= NormSq(Sub(Add(origin, ScaleBy(s, dir)), c))
    ensures var c := ClosestSegmentPoint(origin, a, b);
            SegmentDistanceSq(origin, dir, a, b).value == NormSq(Sub(Add(origin, ScaleBy(Foot(origin, dir, c), dir)), c))
  {
    var c := ClosestSegmentPoint(origin, a, b);
    var w := Sub(c, origin);
    NormSqPositive(dir);
    var n, q := NormSq(dir), Dot(dir, w);
    Lagrange(dir, w);
    assert SegmentDistanceSq(origin, dir, a, b).value == NormSq(Cross(dir, w)) / n;
    LinePointDistance(origin, dir, c, s);
    LinePointDistance(origin, dir, c, q / n);
    PerpendicularIsShortest(n, q, NormSq(w), s);
  }

  /** The parameter of the point of the line origin + s dir nearest to c. */
  function Foot(origin: Vec3, dir: Vec3, c: Vec3): real
    requires dir != Zero
  {
    NormSqPositive(dir);
    Dot(dir, Sub(c, origin)) / NormSq(dir)
  }

  /** The squared distance from c to the line point origin + s dir. */
  lemma LinePointDistance(origin: Vec3, dir: Vec3, c: Vec3, s: real)
    ensures NormSq(Sub(Add(origin, ScaleBy(s, dir)), c))
         == Sq(s) * NormSq(dir) - 2.0 * s * Dot(dir, Sub(c, origin)) + NormSq(Sub(c, origin))
  {
    var w := Sub(c, origin);
    var sd := ScaleBy(s, dir);
    assert Sub(Add(origin, sd), c) == Sub(sd, w);
    NormSqSub(sd, w);
    NormSqScale(s, dir);
    DotScaleLeft(s, dir, w);
  }

  /** (n ww - q^2) / n is the minimum over s of n s^2 - 2 q s + ww, reached at
      s = q / n. */
  lemma PerpendicularIsShortest(n: real, q: real, ww: real, s: real)
    requires n > 0.0
    ensures (n * ww - Sq(q)) / n <= Sq(s) * n - 2.0 * s * q + ww
    ensures (n * ww - Sq(q)) / n == Sq(q / n) * n - 2.0 * (q / n) * q + ww
  {
    var m := (n * ww - Sq(q)) / n;
    assert m == ww - Sq(q) / n;
    var e := s * n - q;
    assert Sq(s) * n - 2.0 * s * q + ww - m == Sq(e) / n;
    SqSign(e);
    assert Sq(e) / n >= 0.0;
    assert Sq(q / n) * n == Sq(q) / n;
  }

  /** Multiplying the ray direction by a non-zero scalar changes nothing: the
      division by |dir| cancels its length. */
  lemma SegmentDistanceIgnoresDirectionScale(origin: Vec3, dir: Vec3, a: Vec3, b: Vec3, k: real)
    requires k != 0.0
    ensures SegmentDistanceSq(origin, ScaleBy(k, dir), a, b) == SegmentDistanceSq(origin, dir, a, b)
  {
    if a != b && dir != Zero {
      var w := Sub(ClosestSegmentPoint(origin, a, b), origin);
      var kd := ScaleBy(k, dir);
      assert kd != Zero by {
        assert kd.x != 0.0 || kd.y != 0.0 || kd.z != 0.0 by {
          assert dir.x != 0.0 || dir.y != 0.0 || dir.z != 0.0;
        }
      }
      NormSqPositive(dir);
      SqSign(k);
      assert NormSq(Cross(kd, w)) == Sq(k) * NormSq(Cross(dir, w)) by {
        CrossScaleLeft(k, dir, w);
        NormSqScale(k, Cross(dir, w));
      }
      assert NormSq(kd) == Sq(k) * NormSq(dir) by {
        NormSqScale(k, dir);
      }
      CancelFactor(Sq(k), NormSq(Cross(dir, w)), NormSq(dir), NormSq(Cross(kd, w)), NormSq(kd));
    } else if a != b {
      assert ScaleBy(k, dir) == Zero;
    }
  }

  lemma CancelFactor(k: real, x: real, y: real, kx: real, ky: real)
    requires k != 0.0 && y != 0.0
    requires kx == k * x && ky == k * y
    ensures kx / ky == x / y
  {
  }

  /** The handle-click radius of the press handler, in world units. */
  const GizmoClickRadius: real := 0.2

  /** The press handler's test against the handle along axis k: the unit segment
      from the object's position along that axis, within the click radius. The
      float code's `distance < 0.2` on a NaN distance is false, as is the None
      case here. */
  predicate HandleHit(origin: Vec3, dir: Vec3, position: Vec3, k: int)
    requires 0 <= k <= 2
    ensures HandleHit(origin, dir, position, k) ==> dir != Zero
  {
    var d := SegmentDistanceSq(origin, dir, position, Add(position, Basis(k)));
    d.Some? && d.value < Sq(GizmoClickRadius)
  }

  /** For a handle the clamped parameter is just the ray origin's offset from
      the object along the handle's axis, clamped to [0, 1]. */
  lemma HandleParamIsAxisOffset(origin: Vec3, position: Vec3, k: int)
    requires 0 <= k <= 2
    ensures Add(position, Basis(k)) != position
    ensures SegmentParam(origin, position, Add(position, Basis(k)))
         == Clamp01(Component(origin, k) - Component(position, k))
  {
    var tip := Add(position, Basis(k));
    var line := Sub(tip, position);
    var offset := Component(origin, k) - Component(position, k);
    assert line == Basis(k) by {
      if k == 0 {
      } else if k == 1 {
      } else {
      }
    }
    assert tip != position by {
      assert Component(line, k) == 1.0;
    }
    assert NormSq(line) == 1.0;
    var p := Dot(Sub(origin, position), line);
    assert p == offset;
    assert SegmentParam(origin, position, tip) == Clamp01(p / NormSq(line));
  }

  /** The handle point the press handler measures from: the point of the unit
      handle along axis k nearest the ray origin, found by clamping the
      origin's k-offset from the object to [0, 1]. From at or before the base
      it is the base; from a unit or more past the base it is the tip. */
  function HandlePoint(origin: Vec3, position: Vec3, k: int): (p: Vec3)
    requires 0 <= k <= 2
    ensures Component(origin, k) <= Component(position, k) ==> p == position
    ensures Component(origin, k) - Component(position, k) >= 1.0 ==> p == Add(position, Basis(k))
  {
    var t := Clamp01(Component(origin, k) - Component(position, k));
    assert ScaleBy(0.0, Basis(k)) == Zero;
    assert ScaleBy(1.0, Basis(k)) == Basis(k);
    Add(position, ScaleBy(t, Basis(k)))
  }

  /** With a non-zero direction the handle test needs no division: it holds
      exactly when |dir x (p - origin)|^2 < 0.04 |dir|^2 for the handle point p. */
  lemma HandleHitAsCrossNorm(origin: Vec3, dir: Vec3, position: Vec3, k: int)
    requires 0 <= k <= 2 && dir != Zero
    ensures HandleHit(origin, dir, position, k) <==>
            NormSq(Cross(dir, Sub(HandlePoint(origin, position, k), origin))) < Sq(GizmoClickRadius) * NormSq(dir)
  {
    var tip := Add(position, Basis(k));
    var t := Clamp01(Component(origin, k) - Component(position, k));
    var nearest := HandlePoint(origin, position, k);
    var crossSq := NormSq(Cross(dir, Sub(nearest, origin)));
    var dirSq := NormSq(dir);
    HandleParamIsAxisOffset(origin, position, k);
    assert Sub(tip, position) == Basis(k) by {
      if k == 0 {
      } else if k == 1 {
      } else {
      }
    }
    assert PointOnSegment(position, tip, t) == nearest;
    NormSqPositive(dir);
    assert SegmentDistanceSq(origin, dir, position, tip) == Some(crossSq / dirSq);
    DivLess(crossSq, dirSq, Sq(GizmoClickRadius));
  }

  /** From the base side of a handle the test degenerates to a point test: the
      ray hits the handle exactly when its line passes within the click radius
      of the handle's BASE, wherever the rest of the handle lies. */
  lemma HandleHitFromBaseSide(origin: Vec3, dir: Vec3, position: Vec3, k: int)
    requires 0 <= k <= 2 && dir != Zero
    requires Component(origin, k) <= Component(position, k)
    ensures HandleHit(origin, dir, position, k) <==>
            NormSq(Cross(dir, Sub(position, origin))) < Sq(GizmoClickRadius) * NormSq(dir)
  {
    HandleHitAsCrossNorm(origin, dir, position, k);
  }

  /** From one unit or more past the base, the point used is the handle's TIP. */
  lemma HandleHitFromTipSide(origin: Vec3, dir: Vec3, position: Vec3, k: int)
    requires 0 <= k <= 2 && dir != Zero
    requires Component(origin, k) - Component(position, k) >= 1.0
    ensures HandleHit(origin, dir, position, k) <==>
            NormSq(Cross(dir, Sub(Add(position, Basis(k)), origin))) < Sq(GizmoClickRadius) * NormSq(dir)
  {
    HandleHitAsCrossNorm(origin, dir, position, k);
  }

  /** A ray through the base of a handle, cast from the base side, hits it. */
  lemma RayThroughBaseHitsHandle(origin: Vec3, dir: Vec3, position: Vec3, k: int, s: real)
    requires 0 <= k <= 2 && dir != Zero
    requires Component(origin, k) <= Component(position, k)
    requires Add(origin, ScaleBy(s, dir)) == position
    ensures HandleHit(origin, dir, position, k)
  {
    HandleHitFromBaseSide(origin, dir, position, k);
    assert Sub(position, origin) == ScaleBy(s, dir);
    CrossParallel(dir, s);
    NormSqPositive(dir);
    calc {
      NormSq(Cross(dir, Sub(position, origin)));
    ==
      NormSq(Zero);
    ==
      0.0;
    <
      Sq(GizmoClickRadius) * NormSq(dir);
    }
  }

  /** A click aimed at a handle's tip from the base side is judged by the
      camera's offset from the handle's axis line, not by where the ray meets
      the handle. */
  lemma AimAtTipFromBaseSide(origin: Vec3, position: Vec3, k: int)
    requires 0 <= k <= 2 && Component(origin, k) <= Component(position, k)
    ensures HandleHit(origin, Sub(Add(position, Basis(k)), origin), position, k) <==>
            NormSq(Cross(Basis(k), Sub(position, origin))) < Sq(GizmoClickRadius) * NormSq(Sub(Add(position, Basis(k)), origin))
  {
    var dir := Sub(Add(position, Basis(k)), origin);
    assert dir == Add(Basis(k), Sub(position, origin));
    assert Component(dir, k) >= 1.0;
    assert dir != Zero;
    CrossAddSelf(Basis(k), Sub(position, origin));
    HandleHitFromBaseSide(origin, dir, position, k);
  }

  /** From a camera level with the X handle's base, a click on the handle's
      tip hits only when the camera lies within sqrt(1/24), about 0.204, of
      the handle's axis line. */
  lemma TipClickLevelWithBase(origin: Vec3, position: Vec3)
    requires origin.x == position.x
    ensures HandleHit(origin, Sub(Add(position, Basis(0)), origin), position, 0) <==>
            24.0 * (Sq(position.y - origin.y) + Sq(position.z - origin.z)) < 1.0
  {
    AimAtTipFromBaseSide(origin, position, 0);
    AxisOffsetFromX(origin, position);
    TipRayLength(origin, position);
  }

  /** The squared distance from origin to the x-axis line through position. */
  lemma AxisOffsetFromX(origin: Vec3, position: Vec3)
    ensures NormSq(Cross(Basis(0), Sub(position, origin))) == Sq(position.y - origin.y) + Sq(position.z - origin.z)
  {
  }

  lemma TipRayLength(origin: Vec3, position: Vec3)
    requires origin.x == position.x
    ensures NormSq(Sub(Add(position, Basis(0)), origin)) == 1.0 + (Sq(position.y - origin.y) + Sq(position.z - origin.z))
  {
  }

  /** From the start-up camera at (0, 0, 3), a click exactly on the tip of the
      start-up cube's X handle, whose base is at (0, 0.5, 0), misses it. */
  lemma StartCameraTipClickMisses()
    ensures !HandleHit(Vec3(0.0, 0.0, 3.0), Sub(Add(Vec3(0.0, 0.5, 0.0), Basis(0)), Vec3(0.0, 0.0, 3.0)), Vec3(0.0, 0.5, 0.0), 0)
  {
    TipClickLevelWithBase(Vec3(0.0, 0.0, 3.0), Vec3(0.0, 0.5, 0.0));
  }

  lemma DivLess(x: real, n: real, c: real)
    requires n > 0.0
    ensures x / n < c <==> x < c * n
  {
  }

  /** The handle test does not depend on the length or sign of the direction. */
  lemma HandleHitIgnoresDirectionScale(origin: Vec3, dir: Vec3, position: Vec3, k: int, s: real)
    requires 0 <= k <= 2 && s != 0.0
    ensures HandleHit(origin, ScaleBy(s, dir), position, k) == HandleHit(origin, dir, position, k)
  {
    SegmentDistanceIgnoresDirectionScale(origin, dir, position, Add(position, Basis(k)), s);
  }
}
