/** The particles, constraints and per-constraint projections of the XPBD deformation
    gizmo (PBDMove.hpp), with exact reals for floats and the Euclidean length (`length`,
    a square root) passed in as an uninterpreted `norm`. */
module PbdSolve {
  import opened Geometry

  /** One simulated vertex: its global id, committed and predicted positions, velocity
      and inverse mass (0 for pinned particles). */
  datatype Particle = Particle(globalIndex: nat, position: Vec3, predicted: Vec3, velocity: Vec3, inverseMass: real)

  /** An edge spring between two local particle indices, with its rest length and compliance. */
  datatype DistanceConstraint = DistanceConstraint(p1: nat, p2: nat, restLength: real, alpha: real)

  /** The volume of the tetrahedron on four local particle indices, to be kept at its rest value. */
  datatype VolumeConstraint = VolumeConstraint(p1: nat, p2: nat, p3: nat, p4: nat, restVolume: real)

  /** The early-return thresholds of the projections (1e-6 and 1e-9). */
  const MinLength: real := 0.000001
  const MinWeight: real := 0.000001
  const MinGradient: real := 0.000000001

  function Max(a: real, b: real): real {
    if a >= b then a else b
  }

  // ---------------------------------------------------------------- stiffness

  /** stiffness_kernel: 0.1 x^2 + 0.01, floored at 1e-10. The floor never applies:
      the kernel is at least 0.01 and grows with |x|. */
  function StiffnessKernel(x: real): (k: real)
    ensures k >= 0.0000000001
    ensures k >= 0.01
    ensures x == 0.0 ==> k == 0.01
  {
    SquareNonNegative(x);
    Max(0.1 * (x * x) + 0.01, 0.0000000001)
  }

  lemma StiffnessMonotone(x: real, y: real)
    requires 0.0 <= x <= y
    ensures StiffnessKernel(x) <= StiffnessKernel(y)
  {
    assert x * x <= y * y by {
      if x > 0.0 {
        SquareMonotone(x, y);
      } else {
        SquareNonNegative(y);
      }
    }
  }

  /** The compliance initPBD gives an edge from its mean distance to the nearest handle:
      stiff near the handles, softer elsewhere. */
  function Compliance(kx: real): real {
    if kx < 0.05 then 0.0001 else 0.01
  }

  /** The mean distance of the two edge endpoints u, v to a handle at h. */
  function Mean(u: Vec3, v: Vec3, h: Vec3, norm: Vec3 -> real): real {
    0.5 * (norm(Sub(u, h)) + norm(Sub(v, h)))
  }

  /** k_x of initPBD: starting from 9999, the least mean distance over the handles. It is
      the minimum of 9999 and every handle's mean, attained by one of them. */
  function NearestMean(u: Vec3, v: Vec3, handles: seq<nat>, positions: seq<Vec3>, norm: Vec3 -> real): (k: real)
    requires forall j :: 0 <= j < |handles| ==> handles[j] < |positions|
    ensures k <= 9999.0
    ensures forall j :: 0 <= j < |handles| ==> k <= Mean(u, v, positions[handles[j]], norm)
    ensures k == 9999.0 || exists j :: 0 <= j < |handles| && k == Mean(u, v, positions[handles[j]], norm)
    decreases |handles|
  {
    if handles == [] then 9999.0
    else
      var n := |handles| - 1;
      var rest := NearestMean(u, v, handles[..n], positions, norm);
      var m := Mean(u, v, positions[handles[n]], norm);
      if m < rest then m else rest
  }

  /** An edge gets the stiff compliance exactly when some handle's mean distance to it is
      below 0.05. */
  lemma StiffNearHandles(u: Vec3, v: Vec3, handles: seq<nat>, positions: seq<Vec3>, norm: Vec3 -> real)
    requires forall j :: 0 <= j < |handles| ==> handles[j] < |positions|
    ensures Compliance(NearestMean(u, v, handles, positions, norm)) == 0.0001 <==>
      exists j :: 0 <= j < |handles| && Mean(u, v, positions[handles[j]], norm) < 0.05
    ensures Compliance(NearestMean(u, v, handles, positions, norm)) in {0.0001, 0.01}
  {
    var k := NearestMean(u, v, handles, positions, norm);
    if exists j :: 0 <= j < |handles| && Mean(u, v, positions[handles[j]], norm) < 0.05 {
      var j :| 0 <= j < |handles| && Mean(u, v, positions[handles[j]], norm) < 0.05;
      assert k <= Mean(u, v, positions[handles[j]], norm);
    }
  }

  // ---------------------------------------------------------------- distance projection

  /** solveDistanceConstraint on the particle list: the XPBD correction of one edge.
      Nothing happens when the endpoints (almost) coincide or are both pinned; otherwise
      the correction along the edge direction is subtracted from the first endpoint and
      added to the second, each scaled by its own inverse mass. The two endpoints are
      references into the same list, so when they are the same particle the second write
      sees the first. */
  function ProjectDistance(ps: seq<Particle>, c: DistanceConstraint, dt: real, norm: Vec3 -> real): (r: seq<Particle>)
    requires c.p1 < |ps| && c.p2 < |ps|
    requires c.alpha >= 0.0 && dt != 0.0
    ensures |r| == |ps|
  {
    var a, b := ps[c.p1], ps[c.p2];
    var delta := Sub(b.predicted, a.predicted);
    var len := norm(delta);
    var w := a.inverseMass + b.inverseMass;
    if len < MinLength || w < MinWeight then ps
    else
      var corr := Correction(delta, len, w, c.restLength, c.alpha, dt);
      var ps1 := ps[c.p1 := a.(predicted := Sub(a.predicted, Scale(corr, a.inverseMass)))];
      var b1 := ps1[c.p2];
      ps1[c.p2 := b1.(predicted := Add(b1.predicted, Scale(corr, b1.inverseMass)))]
  }

  /** The correction vector: the unit edge direction times lambda. */
  function Correction(delta: Vec3, len: real, w: real, rest: real, alpha: real, dt: real): Vec3
    requires len >= MinLength && w >= MinWeight && alpha >= 0.0 && dt != 0.0
  {
    Scale(Scale(delta, 1.0 / len), Lambda(len, w, rest, alpha, dt))
  }

  /** lambda: minus the length error over the inverse-mass sum plus the compliance
      scaled by the squared time step (alpha tilde). */
  function Lambda(len: real, w: real, rest: real, alpha: real, dt: real): real
    requires w >= MinWeight && alpha >= 0.0 && dt != 0.0
  {
    AlphaTildeNonNegative(alpha, dt);
    var alphaTilde := alpha / (dt * dt);
    -(len - rest) / (w + alphaTilde)
  }

  lemma AlphaTildeNonNegative(alpha: real, dt: real)
    requires alpha >= 0.0 && dt != 0.0
    ensures dt * dt > 0.0 && alpha / (dt * dt) >= 0.0
  {
    SquarePositive(dt);
    DivByProduct(alpha, dt, dt);
  }

  lemma DivByProduct(a: real, s: real, t: real)
    requires a >= 0.0 && s * t > 0.0
    ensures a / (s * t) >= 0.0
  {
    DivNonNegative(a, s * t);
  }

  lemma SquarePositive(t: real)
    requires t != 0.0
    ensures t * t > 0.0
  {
    if t < 0.0 {
      var m := -t;
      MulPositive(m, m);
      assert m * m == t * t;
    } else {
      MulPositive(t, t);
    }
  }

  lemma DivNonNegative(a: real, q: real)
    requires a >= 0.0 && q > 0.0
    ensures a / q >= 0.0
  {
    var t := a / q;
    assert t * q == a;
    if t < 0.0 {
      MulPositive(-t, q);
    }
  }

  lemma MulPositive(a: real, b: real)
    requires a > 0.0 && b > 0.0
    ensures a * b > 0.0
  {
  }

  /** Only predicted positions change, only those of the two endpoints, and a particle with
      zero inverse mass keeps even its predicted position. */
  ghost predicate PredictedOnly(ps: seq<Particle>, r: seq<Particle>) {
    && |r| == |ps|
    && (forall l :: 0 <= l < |ps| ==> r[l] == ps[l].(predicted := r[l].predicted))
    && (forall l :: 0 <= l < |ps| && ps[l].inverseMass == 0.0 ==> r[l] == ps[l])
  }

  lemma ProjectDistanceFrame(ps: seq<Particle>, c: DistanceConstraint, dt: real, norm: Vec3 -> real)
    requires c.p1 < |ps| && c.p2 < |ps|
    requires c.alpha >= 0.0 && dt != 0.0
    ensures PredictedOnly(ps, ProjectDistance(ps, c, dt, norm))
    ensures forall l :: 0 <= l < |ps| && l != c.p1 && l != c.p2 ==> ProjectDistance(ps, c, dt, norm)[l] == ps[l]
  {
    var r := ProjectDistance(ps, c, dt, norm);
    forall v: Vec3, corr: Vec3 ensures Sub(v, Scale(corr, 0.0)) == v && Add(v, Scale(corr, 0.0)) == v {
    }
  }

  /** The early returns: a degenerate edge or two pinned endpoints leave everything as is. */
  lemma ProjectDistanceSkips(ps: seq<Particle>, c: DistanceConstraint, dt: real, norm: Vec3 -> real)
    requires c.p1 < |ps| && c.p2 < |ps|
    requires c.alpha >= 0.0 && dt != 0.0
    requires norm(Sub(ps[c.p2].predicted, ps[c.p1].predicted)) < MinLength
          || ps[c.p1].inverseMass + ps[c.p2].inverseMass < MinWeight
    ensures ProjectDistance(ps, c, dt, norm) == ps
  {
  }

  /** Where the two endpoints end up when the projection does not return early. */
  lemma ProjectDistanceMoves(ps: seq<Particle>, c: DistanceConstraint, dt: real, norm: Vec3 -> real)
    requires c.p1 < |ps| && c.p2 < |ps| && c.p1 != c.p2
    requires c.alpha >= 0.0 && dt != 0.0
    requires norm(Sub(ps[c.p2].predicted, ps[c.p1].predicted)) >= MinLength
    requires ps[c.p1].inverseMass + ps[c.p2].inverseMass >= MinWeight
    ensures var a, b := ps[c.p1], ps[c.p2];
      var delta := Sub(b.predicted, a.predicted);
      var corr := Correction(delta, norm(delta), a.inverseMass + b.inverseMass, c.restLength, c.alpha, dt);
      var r := ProjectDistance(ps, c, dt, norm);
      && r[c.p1].predicted == Sub(a.predicted, Scale(corr, a.inverseMass))
      && r[c.p2].predicted == Add(b.predicted, Scale(corr, b.inverseMass))
  {
  }

  /** The two corrections are balanced by the inverse masses: w2 * (move of p1) +
      w1 * (move of p2) is zero, so with positive masses the mass-weighted centre of the
      pair stays where it was. */
  lemma ProjectDistanceBalanced(ps: seq<Particle>, c: DistanceConstraint, dt: real, norm: Vec3 -> real)
    requires c.p1 < |ps| && c.p2 < |ps| && c.p1 != c.p2
    requires c.alpha >= 0.0 && dt != 0.0
    ensures var r := ProjectDistance(ps, c, dt, norm);
      var w1, w2 := ps[c.p1].inverseMass, ps[c.p2].inverseMass;
      Add(Scale(Sub(r[c.p1].predicted, ps[c.p1].predicted), w2),
          Scale(Sub(r[c.p2].predicted, ps[c.p2].predicted), w1)) == Zero
  {
    var a, b := ps[c.p1], ps[c.p2];
    var delta := Sub(b.predicted, a.predicted);
    var len := norm(delta);
    var w := a.inverseMass + b.inverseMass;
    if len >= MinLength && w >= MinWeight {
      ProjectDistanceMoves(ps, c, dt, norm);
      var corr := Correction(delta, len, w, c.restLength, c.alpha, dt);
      Balance(a.predicted, b.predicted, corr, a.inverseMass, b.inverseMass);
    }
  }

  lemma Balance(pa: Vec3, pb: Vec3, corr: Vec3, w1: real, w2: real)
    ensures Add(Scale(Sub(Sub(pa, Scale(corr, w1)), pa), w2), Scale(Sub(Add(pb, Scale(corr, w2)), pb), w1)) == Zero
  {
    assert (pa.x - corr.x * w1 - pa.x) * w2 + (pb.x + corr.x * w2 - pb.x) * w1 == 0.0;
    assert (pa.y - corr.y * w1 - pa.y) * w2 + (pb.y + corr.y * w2 - pb.y) * w1 == 0.0;
    assert (pa.z - corr.z * w1 - pa.z) * w2 + (pb.z + corr.z * w2 - pb.z) * w1 == 0.0;
  }

  /** After a projection that does not return early, the new separation of the endpoints
      is the old one plus the correction scaled by the inverse-mass sum. */
  lemma ProjectDistanceSeparation(ps: seq<Particle>, c: DistanceConstraint, dt: real, norm: Vec3 -> real)
    requires c.p1 < |ps| && c.p2 < |ps| && c.p1 != c.p2
    requires c.alpha >= 0.0 && dt != 0.0
    requires norm(Sub(ps[c.p2].predicted, ps[c.p1].predicted)) >= MinLength
    requires ps[c.p1].inverseMass + ps[c.p2].inverseMass >= MinWeight
    ensures var r := ProjectDistance(ps, c, dt, norm);
      var delta := Sub(ps[c.p2].predicted, ps[c.p1].predicted);
      var w := ps[c.p1].inverseMass + ps[c.p2].inverseMass;
      Sub(r[c.p2].predicted, r[c.p1].predicted)
        == Add(delta, Scale(Correction(delta, norm(delta), w, c.restLength, c.alpha, dt), w))
  {
    var a, b := ps[c.p1], ps[c.p2];
    var delta := Sub(b.predicted, a.predicted);
    ProjectDistanceMoves(ps, c, dt, norm);
    Spread(a.predicted, b.predicted,
      Correction(delta, norm(delta), a.inverseMass + b.inverseMass, c.restLength, c.alpha, dt),
      a.inverseMass, b.inverseMass);
  }

  lemma Spread(pa: Vec3, pb: Vec3, corr: Vec3, w1: real, w2: real)
    ensures Sub(Add(pb, Scale(corr, w2)), Sub(pa, Scale(corr, w1)))
      == Add(Sub(pb, pa), Scale(corr, w1 + w2))
  {
  }

  /** With zero compliance one projection is exact: the new separation of the endpoints is
      the old one rescaled by rest / length, i.e. along the same direction with the rest
      length (for a norm that scales with its argument). */
  lemma ZeroComplianceReachesRest(ps: seq<Particle>, c: DistanceConstraint, dt: real, norm: Vec3 -> real)
    requires c.p1 < |ps| && c.p2 < |ps| && c.p1 != c.p2
    requires c.alpha == 0.0 && dt != 0.0
    requires norm(Sub(ps[c.p2].predicted, ps[c.p1].predicted)) >= MinLength
    requires ps[c.p1].inverseMass + ps[c.p2].inverseMass >= MinWeight
    ensures var r := ProjectDistance(ps, c, dt, norm);
      var delta := Sub(ps[c.p2].predicted, ps[c.p1].predicted);
      Sub(r[c.p2].predicted, r[c.p1].predicted) == Scale(delta, c.restLength / norm(delta))
  {
    var delta := Sub(ps[c.p2].predicted, ps[c.p1].predicted);
    var w := ps[c.p1].inverseMass + ps[c.p2].inverseMass;
    ProjectDistanceSeparation(ps, c, dt, norm);
    ExactCorrection(delta, norm(delta), w, c.restLength, dt);
  }

  /** Without compliance the correction cancels the length error exactly. */
  lemma ExactCorrection(delta: Vec3, len: real, w: real, rest: real, dt: real)
    requires len >= MinLength && w >= MinWeight && dt != 0.0
    ensures Add(delta, Scale(Correction(delta, len, w, rest, 0.0, dt), w)) == Scale(delta, rest / len)
  {
    var lam := Lambda(len, w, rest, 0.0, dt);
    ExactFactor(len, w, rest, dt);
    ScaleScale(delta, 1.0 / len, lam);
    Grow(delta, Correction(delta, len, w, rest, 0.0, dt), 1.0 / len * lam, w, rest / len);
  }

  lemma Grow(delta: Vec3, corr: Vec3, s: real, w: real, k: real)
    requires corr == Scale(delta, s) && 1.0 + s * w == k
    ensures Add(delta, Scale(corr, w)) == Scale(delta, k)
  {
    ScaleScale(delta, s, w);
  }

  /** Without compliance lambda * w is exactly minus the length error, so the separation
      factor is rest / length. */
  lemma ExactFactor(len: real, w: real, rest: real, dt: real)
    requires len >= MinLength && w >= MinWeight && dt != 0.0
    ensures 1.0 + 1.0 / len * Lambda(len, w, rest, 0.0, dt) * w == rest / len
  {
    AlphaTildeNonNegative(0.0, dt);
    ZeroOverProduct(dt, dt);
    assert Lambda(len, w, rest, 0.0, dt) == -(len - rest) / w;
    FactorOf(len, w, rest, -(len - rest) / w);
  }

  lemma FactorOf(len: real, w: real, rest: real, lam: real)
    requires len >= MinLength && w >= MinWeight
    requires lam == -(len - rest) / w
    ensures 1.0 + 1.0 / len * lam * w == rest / len
  {
    DivTimes(-(len - rest), w);
    assert 1.0 / len * lam * w == 1.0 / len * (lam * w);
    assert 1.0 / len * (rest - len) == rest / len - 1.0;
  }

  lemma DivTimes(a: real, w: real)
    requires w > 0.0
    ensures a / w * w == a
  {
  }

  lemma ZeroOverProduct(s: real, t: real)
    requires s * t > 0.0
    ensures 0.0 / (s * t) == 0.0
  {
  }

  // ---------------------------------------------------------------- volume projection

  /** The four constraint gradients of solveVolumeConstraint, one sixth of a cross product each. */
  function Gradients(p1: Vec3, p2: Vec3, p3: Vec3, p4: Vec3): (Vec3, Vec3, Vec3, Vec3) {
    (Scale(Cross(Sub(p2, p3), Sub(p4, p3)), 1.0 / 6.0),
     Scale(Cross(Sub(p3, p1), Sub(p4, p1)), 1.0 / 6.0),
     Scale(Cross(Sub(p4, p1), Sub(p2, p1)), 1.0 / 6.0),
     Scale(Cross(Sub(p2, p1), Sub(p3, p1)), 1.0 / 6.0))
  }

  /** The inverse-mass weighted sum of squared gradient lengths. */
  function WeightedGradients(p: (Particle, Particle, Particle, Particle)): real {
    var (g1, g2, g3, g4) := Gradients(p.0.predicted, p.1.predicted, p.2.predicted, p.3.predicted);
    Dot(g1, g1) * p.0.inverseMass + Dot(g2, g2) * p.1.inverseMass
      + Dot(g3, g3) * p.2.inverseMass + Dot(g4, g4) * p.3.inverseMass
  }

  /** solveVolumeConstraint on four distinct particles: nothing happens when the weighted
      gradient sum is below 1e-9; otherwise every corner moves along its gradient by
      lam times its inverse mass, lam being minus the volume error over that sum. */
  function SolveVolume(p: (Particle, Particle, Particle, Particle), restVolume: real)
    : (r: (Particle, Particle, Particle, Particle))
    ensures p.0.inverseMass == 0.0 ==> r.0 == p.0
    ensures p.1.inverseMass == 0.0 ==> r.1 == p.1
    ensures p.2.inverseMass == 0.0 ==> r.2 == p.2
    ensures p.3.inverseMass == 0.0 ==> r.3 == p.3
  {
    var (q1, q2, q3, q4) := (p.0.predicted, p.1.predicted, p.2.predicted, p.3.predicted);
    var error := SignedVolumeOfTet(q1, q2, q3, q4) - restVolume;
    var (g1, g2, g3, g4) := Gradients(q1, q2, q3, q4);
    var sum := WeightedGradients(p);
    if sum < MinGradient then p
    else
      var lam := -error / sum;
      (p.0.(predicted := Add(q1, Scale(Scale(g1, lam), p.0.inverseMass))),
       p.1.(predicted := Add(q2, Scale(Scale(g2, lam), p.1.inverseMass))),
       p.2.(predicted := Add(q3, Scale(Scale(g3, lam), p.2.inverseMass))),
       p.3.(predicted := Add(q4, Scale(Scale(g4, lam), p.3.inverseMass))))
  }

  /** A particle keeps everything but its predicted position, and a pinned one keeps that too. */
  ghost predicate MovesAsParticle(p: Particle, r: Particle) {
    r == p.(predicted := r.predicted) && (p.inverseMass == 0.0 ==> r == p)
  }

  lemma SolveVolumeFrame(p: (Particle, Particle, Particle, Particle), restVolume: real)
    ensures var r := SolveVolume(p, restVolume);
      MovesAsParticle(p.0, r.0) && MovesAsParticle(p.1, r.1) && MovesAsParticle(p.2, r.2) && MovesAsParticle(p.3, r.3)
    ensures WeightedGradients(p) < MinGradient ==> SolveVolume(p, restVolume) == p
  {
    var (q1, q2, q3, q4) := (p.0.predicted, p.1.predicted, p.2.predicted, p.3.predicted);
    var (g1, g2, g3, g4) := Gradients(q1, q2, q3, q4);
    var sum := WeightedGradients(p);
    if sum >= MinGradient {
      var lam := -(SignedVolumeOfTet(q1, q2, q3, q4) - restVolume) / sum;
      ScaleByZero(q1, Scale(g1, lam));
      ScaleByZero(q2, Scale(g2, lam));
      ScaleByZero(q3, Scale(g3, lam));
      ScaleByZero(q4, Scale(g4, lam));
    }
  }

  lemma ScaleByZero(v: Vec3, g: Vec3)
    ensures Add(v, Scale(g, 0.0)) == v
  {
  }

  /** The gradients sum to zero: moving all four corners by the same vector does not change
      the volume, and the gradient field reflects that. */
  lemma GradientsSumToZero(p1: Vec3, p2: Vec3, p3: Vec3, p4: Vec3)
    ensures var (g1, g2, g3, g4) := Gradients(p1, p2, p3, p4);
      Add(Add(g1, g2), Add(g3, g4)) == Zero
  {
    var a, b, c := Sub(p2, p1), Sub(p3, p1), Sub(p4, p1);
    // every cross product is taken over the edge vectors from p1
    assert Sub(p2, p3) == Sub(a, b) && Sub(p4, p3) == Sub(c, b);
    CrossOfDifferences(a, b, c);
    var ab, ac, bc := Cross(a, b), Cross(a, c), Cross(b, c);
    assert Cross(c, a) == Scale(ac, -1.0);
    var sixth := 1.0 / 6.0;
    assert Add(Add(Scale(Sub(Sub(ac, ab), bc), sixth), Scale(bc, sixth)),
               Add(Scale(Scale(ac, -1.0), sixth), Scale(ab, sixth))) == Zero;
  }

  /** Each gradient is the exact rate of change of the signed volume when only its corner
      moves (the volume is affine in each corner separately). */
  lemma GradientsAreExact(p1: Vec3, p2: Vec3, p3: Vec3, p4: Vec3, d: Vec3)
    ensures var (g1, g2, g3, g4) := Gradients(p1, p2, p3, p4);
      var v := SignedVolumeOfTet(p1, p2, p3, p4);
      && SignedVolumeOfTet(p1, p2, p3, Add(p4, d)) == v + Dot(g4, d)
      && SignedVolumeOfTet(p1, p2, Add(p3, d), p4) == v + Dot(g3, d)
      && SignedVolumeOfTet(p1, Add(p2, d), p3, p4) == v + Dot(g2, d)
      && SignedVolumeOfTet(Add(p1, d), p2, p3, p4) == v + Dot(g1, d)
  {
    FirstGradientIsExact(p1, p2, p3, p4, d);
    var a, b, c := Sub(p2, p1), Sub(p3, p1), Sub(p4, p1);
    var sixth := 1.0 / 6.0;
    // the fourth corner
    assert Sub(Add(p4, d), p1) == Add(c, d);
    DotAddRight(Cross(a, b), c, d);
    DotScaleLeft(Cross(a, b), d, sixth);
    // the third corner
    assert Sub(Add(p3, d), p1) == Add(b, d);
    CrossAddRight(a, b, d);
    DotAddLeft(Cross(a, b), c, Cross(a, d));
    TripleCyclic(a, d, c);
    TripleCyclic(d, c, a);
    DotScaleLeft(Cross(c, a), d, sixth);
    // the second corner
    assert Sub(Add(p2, d), p1) == Add(a, d);
    CrossAddLeft(a, b, d);
    DotAddLeft(Cross(a, b), c, Cross(d, b));
    TripleCyclic(d, b, c);
    DotScaleLeft(Cross(b, c), d, sixth);
  }

  /** The first corner's gradient is exact too: moving p1 by d changes the signed volume by
      the dot product of d with g1. */
  lemma FirstGradientIsExact(p1: Vec3, p2: Vec3, p3: Vec3, p4: Vec3, d: Vec3)
    ensures SignedVolumeOfTet(Add(p1, d), p2, p3, p4)
      == SignedVolumeOfTet(p1, p2, p3, p4) + Dot(Gradients(p1, p2, p3, p4).0, d)
  {
    var a, b, c := Sub(p2, p1), Sub(p3, p1), Sub(p4, p1);
    // every edge from the moved corner loses d
    assert Sub(p2, Add(p1, d)) == Sub(a, d) && Sub(p3, Add(p1, d)) == Sub(b, d)
      && Sub(p4, Add(p1, d)) == Sub(c, d);
    CrossOfDifferences(a, d, b);
    var ab, ad, db := Cross(a, b), Cross(a, d), Cross(d, b);
    assert Dot(Sub(Sub(ab, ad), db), Sub(c, d))
      == Dot(ab, c) - Dot(ad, c) - Dot(db, c) - Dot(ab, d) + Dot(ad, d) + Dot(db, d);
    // the triple products with d twice vanish
    TripleCyclic(a, d, d);
    TripleCyclic(d, b, d);
    TripleCyclic(b, d, d);
    CrossSelf(d);
    // the gradient of the first corner, over the edges from p1
    assert Sub(p2, p3) == Sub(a, b) && Sub(p4, p3) == Sub(c, b);
    CrossOfDifferences(a, b, c);
    var ac, bc := Cross(a, c), Cross(b, c);
    DotScaleLeft(Sub(Sub(ac, ab), bc), d, 1.0 / 6.0);
    assert Dot(Sub(Sub(ac, ab), bc), d) == Dot(ac, d) - Dot(ab, d) - Dot(bc, d);
    // the remaining triple products, turned to the gradient's order
    TripleCyclic(a, d, c);
    TripleCyclic(d, c, a);
    assert Cross(c, a) == Scale(ac, -1.0);
    assert Dot(Scale(ac, -1.0), d) == -Dot(ac, d);
    TripleCyclic(d, b, c);
  }

  /** With equal inverse masses a volume projection keeps the centroid of the four
      predicted positions. */
  lemma SolveVolumeKeepsCentroid(p: (Particle, Particle, Particle, Particle), restVolume: real)
    requires p.0.inverseMass == p.1.inverseMass == p.2.inverseMass == p.3.inverseMass
    ensures var r := SolveVolume(p, restVolume);
      Add(Add(r.0.predicted, r.1.predicted), Add(r.2.predicted, r.3.predicted))
        == Add(Add(p.0.predicted, p.1.predicted), Add(p.2.predicted, p.3.predicted))
  {
    var (q1, q2, q3, q4) := (p.0.predicted, p.1.predicted, p.2.predicted, p.3.predicted);
    GradientsSumToZero(q1, q2, q3, q4);
    var sum := WeightedGradients(p);
    if sum >= MinGradient {
      var lam := -(SignedVolumeOfTet(q1, q2, q3, q4) - restVolume) / sum;
      var (g1, g2, g3, g4) := Gradients(q1, q2, q3, q4);
      var w := p.0.inverseMass;
      ScaleScale(g1, lam, w);
      ScaleScale(g2, lam, w);
      ScaleScale(g3, lam, w);
      ScaleScale(g4, lam, w);
      ScaledSum(g1, g2, g3, g4, lam * w);
    }
  }

  lemma ScaledSum(g1: Vec3, g2: Vec3, g3: Vec3, g4: Vec3, k: real)
    requires Add(Add(g1, g2), Add(g3, g4)) == Zero
    ensures Add(Add(Scale(g1, k), Scale(g2, k)), Add(Scale(g3, k), Scale(g4, k))) == Zero
  {
    assert g1.x * k + g2.x * k + g3.x * k + g4.x * k == (g1.x + g2.x + g3.x + g4.x) * k;
    assert g1.y * k + g2.y * k + g3.y * k + g4.y * k == (g1.y + g2.y + g3.y + g4.y) * k;
    assert g1.z * k + g2.z * k + g3.z * k + g4.z * k == (g1.z + g2.z + g3.z + g4.z) * k;
  }
}
