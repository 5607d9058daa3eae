/** Real-valued 3D vector arithmetic used by the deformation gizmos
    (the float3 helpers of the renderer, with exact reals instead of floats). */
module Geometry {

  datatype Vec3 = Vec3(x: real, y: real, z: real)

  const Zero: Vec3 := Vec3(0.0, 0.0, 0.0)

  function Add(a: Vec3, b: Vec3): Vec3 {
    Vec3(a.x + b.x, a.y + b.y, a.z + b.z)
  }

  function Sub(a: Vec3, b: Vec3): Vec3 {
    Vec3(a.x - b.x, a.y - b.y, a.z - b.z)
  }

  function Scale(a: Vec3, s: real): Vec3 {
    Vec3(a.x * s, a.y * s, a.z * s)
  }

  function Dot(a: Vec3, b: Vec3): real {
    a.x * b.x + a.y * b.y + a.z * b.z
  }

  function Cross(a: Vec3, b: Vec3): Vec3 {
    Vec3(a.y * b.z - a.z * b.y, a.z * b.x - a.x * b.z, a.x * b.y - a.y * b.x)
  }

  /** Squared Euclidean distance (distanceSquared); zero between equal points, never negative. */
  function DistanceSquared(a: Vec3, b: Vec3): (d: real)
    ensures d >= 0.0
    ensures a == b ==> d == 0.0
  {
    var dx := a.x - b.x;
    var dy := a.y - b.y;
    var dz := a.z - b.z;
    SquareNonNegative(dx);
    SquareNonNegative(dy);
    SquareNonNegative(dz);
    dx * dx + dy * dy + dz * dz
  }

  lemma SquareNonNegative(t: real)
    ensures t * t >= 0.0
  {
    if t < 0.0 {
      assert t * t == (-t) * (-t);
    }
  }

  /** If a square is below r*r then the value lies strictly between -r and r. */
  lemma SquareBelow(t: real, r: real)
    requires r > 0.0 && t * t < r * r
    ensures -r < t < r
  {
  }

  /** Within squared distance r*r, every coordinate differs by less than r. */
  lemma AxisGapBelowRadius(a: Vec3, b: Vec3, r: real)
    requires r > 0.0 && DistanceSquared(a, b) < r * r
    ensures -r < a.x - b.x < r
    ensures -r < a.y - b.y < r
    ensures -r < a.z - b.z < r
  {
    var dx, dy, dz := a.x - b.x, a.y - b.y, a.z - b.z;
    SquareNonNegative(dx);
    SquareNonNegative(dy);
    SquareNonNegative(dz);
    assert DistanceSquared(a, b) == dx * dx + dy * dy + dz * dz;
    assert dx * dx < r * r && dy * dy < r * r && dz * dz < r * r;
    SquareBelow(dx, r);
    SquareBelow(dy, r);
    SquareBelow(dz, r);
  }

  /** 0 < r <= s makes r*r <= s*s. */
  lemma SquareMonotone(r: real, s: real)
    requires 0.0 < r <= s
    ensures r * r <= s * s
  {
    assert r * r <= r * s <= s * s;
  }

  /** Signed volume of a tetrahedron (one sixth of the scalar triple product),
      as signedVolumeOfTet computes it. */
  function SignedVolumeOfTet(p1: Vec3, p2: Vec3, p3: Vec3, p4: Vec3): real {
    Dot(Cross(Sub(p2, p1), Sub(p3, p1)), Sub(p4, p1)) / 6.0
  }

  /** Exchanging two corners reverses the orientation, so the signed volume flips sign;
      a tetrahedron whose last corner repeats the first is flat. */
  lemma SignedVolumeOrientation(p1: Vec3, p2: Vec3, p3: Vec3, p4: Vec3)
    ensures SignedVolumeOfTet(p1, p3, p2, p4) == -SignedVolumeOfTet(p1, p2, p3, p4)
    ensures SignedVolumeOfTet(p1, p2, p3, p1) == 0.0
  {
    var a, b, c := Sub(p2, p1), Sub(p3, p1), Sub(p4, p1);
    assert Cross(b, a) == Scale(Cross(a, b), -1.0);
    assert Dot(Scale(Cross(a, b), -1.0), c) == -Dot(Cross(a, b), c);
  }

  // ---------------------------------------------------------------- vector algebra

  lemma ScaleScale(v: Vec3, s: real, t: real)
    ensures Scale(Scale(v, s), t) == Scale(v, s * t)
  {
    assert v.x * s * t == v.x * (s * t);
    assert v.y * s * t == v.y * (s * t);
    assert v.z * s * t == v.z * (s * t);
  }

  /** (a - b) x (c - b) expanded over the cross products of a, b and c. */
  lemma CrossOfDifferences(a: Vec3, b: Vec3, c: Vec3)
    ensures Cross(Sub(a, b), Sub(c, b)) == Sub(Sub(Cross(a, c), Cross(a, b)), Cross(b, c))
  {
    CrossSubLeft(a, b, Sub(c, b));
    CrossSubRight(a, c, b);
    CrossSubRight(b, c, b);
    CrossSelf(b);
  }

  lemma CrossSubLeft(a: Vec3, b: Vec3, c: Vec3)
    ensures Cross(Sub(a, b), c) == Sub(Cross(a, c), Cross(b, c))
  {
  }

  lemma CrossSubRight(a: Vec3, b: Vec3, c: Vec3)
    ensures Cross(a, Sub(b, c)) == Sub(Cross(a, b), Cross(a, c))
  {
  }

  lemma CrossSelf(a: Vec3)
    ensures Cross(a, a) == Zero
  {
  }

  /** The scalar triple product is invariant under cyclic shifts. */
  lemma TripleCyclic(a: Vec3, b: Vec3, c: Vec3)
    ensures Dot(Cross(a, b), c) == Dot(Cross(b, c), a)
  {
  }

  lemma CrossAddRight(a: Vec3, b: Vec3, d: Vec3)
    ensures Cross(a, Add(b, d)) == Add(Cross(a, b), Cross(a, d))
  {
  }

  lemma CrossAddLeft(a: Vec3, b: Vec3, d: Vec3)
    ensures Cross(Add(a, d), b) == Add(Cross(a, b), Cross(d, b))
  {
  }

  lemma DotAddRight(a: Vec3, b: Vec3, d: Vec3)
    ensures Dot(a, Add(b, d)) == Dot(a, b) + Dot(a, d)
  {
  }

  lemma DotAddLeft(a: Vec3, b: Vec3, d: Vec3)
    ensures Dot(Add(a, d), b) == Dot(a, b) + Dot(d, b)
  {
  }

  lemma DotScaleLeft(a: Vec3, b: Vec3, s: real)
    ensures Dot(Scale(a, s), b) == Dot(a, b) * s
  {
  }
}
