/** The scene's objects and the object-selection scan of the press handler. */
module Scene {
  import opened Vectors
  import opened Geometry

  /** The source's `unsigned int` texture handle; 0 means "no texture". */
  type TextureId = x: int | 0 <= x < 0x1_0000_0000

  /** A placed primitive. Objects are identified by their index in the scene. */
  datatype Object = Object(
    position: Vec3,
    scale: Vec3,
    color: Vec4,
    isCube: bool,
    textureID: TextureId)

  /** The colour every new object gets: opaque white. */
  const White: Vec4 := Vec4(1.0, 1.0, 1.0, 1.0)

  /** The bounding radius is 0.5 * length(scale), for cubes and spheres alike;
      its square needs no square root. */
  function BoundingRadiusSq(obj: Object): real {
    0.25 * NormSq(obj.scale)
  }

  /** The squared radius is never negative, and it is positive for any
      non-zero scale. */
  lemma BoundingRadiusSqSign(obj: Object)
    ensures BoundingRadiusSq(obj) >= 0.0
    ensures obj.scale != Zero ==> BoundingRadiusSq(obj) > 0.0
  {
    NormSqNonNegative(obj.scale);
    if obj.scale != Zero {
      NormSqPositive(obj.scale);
    }
  }

  /** RayIntersectsObject: the bounding-sphere test. */
  predicate RayHitsObject(origin: Vec3, dir: Vec3, obj: Object) {
    SphereHit(origin, dir, obj.position, BoundingRadiusSq(obj))
  }

  /** The scan loop of the press handler from index `from` on: the first index
      whose object the ray hits, or -1 when none is hit. */
  function FirstHitFrom(objects: seq<Object>, origin: Vec3, dir: Vec3, from: nat): (r: int)
    requires from <= |objects|
    ensures r == -1 || from <= r < |objects|
    ensures r == -1 <==> forall i :: from <= i < |objects| ==> !RayHitsObject(origin, dir, objects[i])
    ensures r != -1 ==> RayHitsObject(origin, dir, objects[r])
    ensures r != -1 ==> forall i :: from <= i < r ==> !RayHitsObject(origin, dir, objects[i])
    decreases |objects| - from
  {
    if from == |objects| then -1
    else if RayHitsObject(origin, dir, objects[from]) then from
    else FirstHitFrom(objects, origin, dir, from + 1)
  }

  /** The object the press handler selects: the LOWEST index hit, not the
      nearest object along the ray; -1 when the ray hits nothing. */
  function FirstHit(objects: seq<Object>, origin: Vec3, dir: Vec3): (r: int)
    ensures -1 <= r < |objects|
    ensures r == -1 <==> forall i :: 0 <= i < |objects| ==> !RayHitsObject(origin, dir, objects[i])
    ensures r != -1 ==> RayHitsObject(origin, dir, objects[r])
    ensures r != -1 ==> forall i :: 0 <= i < r ==> !RayHitsObject(origin, dir, objects[i])
  {
    FirstHitFrom(objects, origin, dir, 0)
  }

  /** A line through an object's centre hits it, whatever its non-zero scale. */
  lemma RayThroughCentreHitsObject(origin: Vec3, dir: Vec3, obj: Object, s: real)
    requires dir != Zero && obj.scale != Zero
    requires Add(origin, ScaleBy(s, dir)) == obj.position
    ensures RayHitsObject(origin, dir, obj)
  {
    SphereHitIffLineWithinRadius(origin, dir, obj.position, BoundingRadiusSq(obj));
    assert Sub(origin, obj.position) == ScaleBy(-s, dir);
    CrossScaleLeft(-s, dir, dir);
    assert Cross(Sub(origin, obj.position), dir) == Zero;
    NormSqPositive(dir);
    BoundingRadiusSqSign(obj);
    MulPositive(BoundingRadiusSq(obj), NormSq(dir));
    calc {
      NormSq(Cross(Sub(origin, obj.position), dir));
    ==
      NormSq(Zero);
    ==
      0.0;
    <
      BoundingRadiusSq(obj) * NormSq(dir);
    }
  }

  /** An untextured white cube, the look every object is created with. */
  function WhiteCube(position: Vec3, scale: Vec3): Object {
    Object(position, scale, White, true, 0)
  }

  /** A line tangent to the bounding sphere misses: an object at the origin with
      scale (4/3, 4/3, 2/3) has bounding radius 1, and the line x = 1, y = 0
      touches that sphere at one point. */
  lemma TangentRayMisses()
    ensures !RayHitsObject(Vec3(1.0, 0.0, 5.0), Vec3(0.0, 0.0, -1.0), WhiteCube(Zero, Vec3(4.0 / 3.0, 4.0 / 3.0, 2.0 / 3.0)))
    ensures RayHitsObject(Vec3(0.99, 0.0, 5.0), Vec3(0.0, 0.0, -1.0), WhiteCube(Zero, Vec3(4.0 / 3.0, 4.0 / 3.0, 2.0 / 3.0)))
  {
  }

  /** A unit-scale object has bounding radius sqrt(3)/2, not 0.5: a line passing
      0.5 from its centre still hits it. */
  lemma UnitObjectRadiusExceedsHalf()
    ensures RayHitsObject(Vec3(0.5, 0.0, 5.0), Vec3(0.0, 0.0, -1.0), WhiteCube(Zero, Vec3(1.0, 1.0, 1.0)))
    ensures RayHitsObject(Vec3(0.8, 0.0, 5.0), Vec3(0.0, 0.0, -1.0), WhiteCube(Zero, Vec3(1.0, 1.0, 1.0)))
    ensures !RayHitsObject(Vec3(0.9, 0.0, 5.0), Vec3(0.0, 0.0, -1.0), WhiteCube(Zero, Vec3(1.0, 1.0, 1.0)))
  {
  }

  /** First hit, not nearest hit: with a far object at index 0 and a near one
      at index 1 on the same line of sight, the far one is selected. So is an
      object behind the camera. */
  lemma FirstHitIsNotNearest()
    ensures FirstHit([WhiteCube(Vec3(0.0, 0.0, -10.0), Vec3(1.0, 1.0, 1.0)), WhiteCube(Zero, Vec3(1.0, 1.0, 1.0))],
                     Vec3(0.0, 0.0, 5.0), Vec3(0.0, 0.0, -1.0)) == 0
    ensures FirstHit([WhiteCube(Vec3(0.0, 0.0, 10.0), Vec3(1.0, 1.0, 1.0))],
                     Vec3(0.0, 0.0, 5.0), Vec3(0.0, 0.0, -1.0)) == 0
  {
    var objects := [WhiteCube(Vec3(0.0, 0.0, -10.0), Vec3(1.0, 1.0, 1.0)), WhiteCube(Zero, Vec3(1.0, 1.0, 1.0))];
    assert RayHitsObject(Vec3(0.0, 0.0, 5.0), Vec3(0.0, 0.0, -1.0), objects[0]);
    assert RayHitsObject(Vec3(0.0, 0.0, 5.0), Vec3(0.0, 0.0, -1.0), WhiteCube(Vec3(0.0, 0.0, 10.0), Vec3(1.0, 1.0, 1.0)));
  }
}
