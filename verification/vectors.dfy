/** Exact real-valued stand-ins for the glm vector and quaternion operations
    the editor uses. Lengths never appear: every caller compares squared
    lengths, so no square root is needed. */
module Vectors {

  datatype Vec3 = Vec3(x: real, y: real, z: real)

  /** An RGBA colour. */
  datatype Vec4 = Vec4(x: real, y: real, z: real, w: real)

  /** glm's quaternion layout: scalar part w, vector part (x, y, z). */
  datatype Quat = Quat(w: real, x: real, y: real, z: real)

  const Zero: Vec3 := Vec3(0.0, 0.0, 0.0)

  function Add(a: Vec3, b: Vec3): Vec3 {
    Vec3(a.x + b.x, a.y + b.y, a.z + b.z)
  }

  function Sub(a: Vec3, b: Vec3): Vec3 {
    Vec3(a.x - b.x, a.y - b.y, a.z - b.z)
  }

  function ScaleBy(k: real, v: Vec3): Vec3 {
    Vec3(k * v.x, k * v.y, k * v.z)
  }

  function Dot(a: Vec3, b: Vec3): real {
    a.x * b.x + a.y * b.y + a.z * b.z
  }

  function Cross(a: Vec3, b: Vec3): Vec3 {
    Vec3(a.y * b.z - a.z * b.y, a.z * b.x - a.x * b.z, a.x * b.y - a.y * b.x)
  }

  /** The squared Euclidean length, glm::length(v) squared. */
  function NormSq(v: Vec3): real {
    Dot(v, v)
  }

  /** Coordinate k of v: 0 is x, 1 is y, 2 is z. */
  function Component(v: Vec3, k: int): real
    requires 0 <= k <= 2
  {
    if k == 0 then v.x else if k == 1 then v.y else v.z
  }

  /** The unit vector along axis k, as the gizmo code spells out with
      glm::vec3(1,0,0), glm::vec3(0,1,0) and glm::vec3(0,0,1). */
  function Basis(k: int): (e: Vec3)
    requires 0 <= k <= 2
    ensures Component(e, k) == 1.0
    ensures forall j :: 0 <= j <= 2 && j != k ==> Component(e, j) == 0.0
  {
    if k == 0 then Vec3(1.0, 0.0, 0.0)
    else if k == 1 then Vec3(0.0, 1.0, 0.0)
    else Vec3(0.0, 0.0, 1.0)
  }

  function MaxReal(a: real, b: real): (m: real)
    ensures m >= a && m >= b
    ensures m == a || m == b
  {
    if a < b then b else a
  }

  /** glm::max(v, glm::vec3(floor)): the componentwise maximum. Every component
      ends at least `floor`, and a component already at least `floor` is kept. */
  function MaxWith(v: Vec3, floor: real): (r: Vec3)
    ensures r.x >= floor && r.y >= floor && r.z >= floor
    ensures (v.x >= floor ==> r.x == v.x) && (v.y >= floor ==> r.y == v.y) && (v.z >= floor ==> r.z == v.z)
    ensures (v.x < floor ==> r.x == floor) && (v.y < floor ==> r.y == floor) && (v.z < floor ==> r.z == floor)
  {
    Vec3(MaxReal(v.x, floor), MaxReal(v.y, floor), MaxReal(v.z, floor))
  }

  /** glm's `q * v`: v + 2 (w (u x v) + u x (u x v)) with u the vector part of q.
      Whatever the quaternion, the zero vector stays zero; a quaternion with a
      zero vector part, the identity rotation among them, leaves v unchanged. */
  function QuatRotate(q: Quat, v: Vec3): (r: Vec3)
    ensures v == Zero ==> r == Zero
    ensures q.x == 0.0 && q.y == 0.0 && q.z == 0.0 ==> r == v
  {
    var u := Vec3(q.x, q.y, q.z);
    var uv := Cross(u, v);
    var uuv := Cross(u, uv);
    Add(v, ScaleBy(2.0, Add(ScaleBy(q.w, uv), uuv)))
  }

  function Sq(a: real): real {
    a * a
  }

  // Sign facts about squares are stated on `Sq(a)` rather than on `a * a`.

  lemma SqSign(a: real)
    ensures Sq(a) >= 0.0
    ensures a != 0.0 ==> Sq(a) > 0.0
  {
    calc {
      Sq(a);
    ==
      a * a;
    >=
      0.0;
    }
    if a != 0.0 {
      calc {
        Sq(a);
      ==
        a * a;
      >
        0.0;
      }
    }
  }

  lemma NormSqAsSquares(v: Vec3)
    ensures NormSq(v) == Sq(v.x) + Sq(v.y) + Sq(v.z)
  {
  }

  lemma NormSqNonNegative(v: Vec3)
    ensures NormSq(v) >= 0.0
  {
    SqSign(v.x);
    SqSign(v.y);
    SqSign(v.z);
    NormSqAsSquares(v);
  }

  /** Only the zero vector has squared length zero. */
  lemma NormSqPositive(v: Vec3)
    requires v != Zero
    ensures NormSq(v) > 0.0
  {
    assert v.x != 0.0 || v.y != 0.0 || v.z != 0.0;
    SqSign(v.x);
    SqSign(v.y);
    SqSign(v.z);
    NormSqAsSquares(v);
  }

  lemma MulPositive(a: real, b: real)
    requires a > 0.0 && b > 0.0
    ensures a * b > 0.0
  {
  }

  lemma MulNonNegative(a: real, b: real)
    requires a >= 0.0 && b >= 0.0
    ensures a * b >= 0.0
  {
  }

  /** Multiplying by a positive factor keeps the sign. */
  lemma MulSign(a: real, b: real)
    requires a > 0.0
    ensures b > 0.0 <==> a * b > 0.0
  {
    if b > 0.0 {
      MulPositive(a, b);
    } else if b < 0.0 {
      MulPositive(a, -b);
      assert a * (-b) == -(a * b);
    } else {
      assert a * b == 0.0;
    }
  }

  /** Lagrange's identity: |a x b|^2 = |a|^2 |b|^2 - (a . b)^2. */
  lemma Lagrange(a: Vec3, b: Vec3)
    ensures NormSq(Cross(a, b)) == NormSq(a) * NormSq(b) - Sq(Dot(a, b))
  {
  }

  lemma NormSqScale(k: real, v: Vec3)
    ensures NormSq(ScaleBy(k, v)) == Sq(k) * NormSq(v)
  {
  }

  lemma DotScaleRight(k: real, a: Vec3, b: Vec3)
    ensures Dot(a, ScaleBy(k, b)) == k * Dot(a, b)
  {
  }

  lemma DotScaleLeft(k: real, a: Vec3, b: Vec3)
    ensures Dot(ScaleBy(k, a), b) == k * Dot(a, b)
  {
  }

  lemma SqMul(a: real, b: real)
    ensures Sq(a * b) == Sq(a) * Sq(b)
  {
  }

  lemma NormSqSub(v: Vec3, w: Vec3)
    ensures NormSq(Sub(v, w)) == NormSq(v) - 2.0 * Dot(v, w) + NormSq(w)
  {
  }

  lemma CrossScaleLeft(k: real, a: Vec3, b: Vec3)
    ensures Cross(ScaleBy(k, a), b) == ScaleBy(k, Cross(a, b))
  {
    var l, r := Cross(ScaleBy(k, a), b), ScaleBy(k, Cross(a, b));
    assert l.x == r.x by {
      assert (k * a.y) * b.z - (k * a.z) * b.y == k * (a.y * b.z - a.z * b.y);
    }
    assert l.y == r.y by {
      assert (k * a.z) * b.x - (k * a.x) * b.z == k * (a.z * b.x - a.x * b.z);
    }
    assert l.z == r.z by {
      assert (k * a.x) * b.y - (k * a.y) * b.x == k * (a.x * b.y - a.y * b.x);
    }
  }

  /** A vector is parallel to any multiple of itself. */
  lemma CrossParallel(v: Vec3, k: real)
    ensures Cross(v, ScaleBy(k, v)) == Zero
  {
  }

  lemma CrossAddSelf(a: Vec3, b: Vec3)
    ensures Cross(Add(a, b), b) == Cross(a, b)
  {
  }
}
