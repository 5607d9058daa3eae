/** The generators of the test meshes: `gen_tets` lays out separate unit corner
    tetrahedra along the x axis, `gen_tets_sphere` splits every cell of an (N0, N1)
    grid in spherical coordinates into two tetrahedra sharing a face. Both append to
    three lists: vertex positions, one RGBA+density colour per tetrahedron, and four
    vertex indices per tetrahedron. */
module TestPly {
  import opened Geometry

  /** Vertex j (0..3) of the t-th gen_tets tetrahedron: the corner (2t, 0, 0) and the
      three points one unit away from it along x, y and z. */
  function Corner(t: nat, j: nat): Vec3 {
    var x := 2.0 * t as real;
    if j == 1 then Vec3(x + 1.0, 0.0, 0.0)
    else if j == 2 then Vec3(x, 1.0, 0.0)
    else if j == 3 then Vec3(x, 0.0, 1.0)
    else Vec3(x, 0.0, 0.0)
  }

  /** `v[axis] += 1.0` on a three-component point. */
  function Bump(v: Vec3, axis: nat): (r: Vec3)
    requires axis < 3
    ensures Sub(r, v) == (if axis == 0 then Vec3(1.0, 0.0, 0.0) else if axis == 1 then Vec3(0.0, 1.0, 0.0) else Vec3(0.0, 0.0, 1.0))
  {
    if axis == 0 then v.(x := v.x + 1.0)
    else if axis == 1 then v.(y := v.y + 1.0)
    else v.(z := v.z + 1.0)
  }

  /** The colour of the t-th gen_tets tetrahedron: channel t mod 3 at full intensity,
      the other two colour channels at half, density 40. */
  predicate GenTetsColour(c: seq<real>, t: nat) {
    && |c| == 4
    && c[t % 3] == 1.0
    && c[3] == 40.0
    && forall k :: 0 <= k < 3 && k != t % 3 ==> c[k] == 0.5
  }

  /** Every tetrahedron has four corners, each naming one of `n` vertices. */
  predicate ValidIndices(tets: seq<seq<int>>, n: nat) {
    forall t :: 0 <= t < |tets| ==> |tets[t]| == 4 && forall k :: 0 <= k < 4 ==> 0 <= tets[t][k] < n
  }

  /** gen_tets(N): 4N vertices, N colours and N tetrahedra; tetrahedron t is
      [4t, 4t+1, 4t+2, 4t+3], so no vertex is shared by two tetrahedra. */
  method GenTets(n: nat) returns (verts: seq<Vec3>, cols: seq<seq<real>>, tets: seq<seq<int>>)
    ensures |verts| == 4 * n && |cols| == n && |tets| == n
    ensures forall t, j :: 0 <= t < n && 0 <= j < 4 ==> verts[4 * t + j] == Corner(t, j)
    ensures forall t :: 0 <= t < n ==> GenTetsColour(cols[t], t)
    ensures forall t :: 0 <= t < n ==> tets[t] == [4 * t, 4 * t + 1, 4 * t + 2, 4 * t + 3]
    ensures ValidIndices(tets, |verts|)
    ensures forall t, u, k, l :: 0 <= t < u < n && 0 <= k < 4 && 0 <= l < 4 ==> tets[t][k] != tets[u][l]
  {
    verts, cols, tets := [], [], [];
    var i := 0;
    while i < n
      invariant 0 <= i <= n
      invariant |verts| == 4 * i && |cols| == i && |tets| == i
      invariant forall t, j :: 0 <= t < i && 0 <= j < 4 ==> verts[4 * t + j] == Corner(t, j)
      invariant forall t :: 0 <= t < i ==> GenTetsColour(cols[t], t)
      invariant forall t :: 0 <= t < i ==> tets[t] == [4 * t, 4 * t + 1, 4 * t + 2, 4 * t + 3]
    {
      var j := 0;
      while j < 4
        invariant 0 <= j <= 4
        invariant |verts| == 4 * i + j
        invariant forall t, k :: 0 <= t < i && 0 <= k < 4 ==> verts[4 * t + k] == Corner(t, k)
        invariant forall k :: 0 <= k < j ==> verts[4 * i + k] == Corner(i, k)
      {
        var v := Vec3(i as real * 2.0, 0.0, 0.0);
        if j > 0 {
          v := Bump(v, j - 1);
        }
        verts := verts + [v];
        j := j + 1;
      }
      var c := [0.5, 0.5, 0.5, 40.0];
      c := c[i % 3 := 1.0];
      cols := cols + [c];
      tets := tets + [[i * 4 + 0, i * 4 + 1, i * 4 + 2, i * 4 + 3]];
      i := i + 1;
    }
  }

  /** Every gen_tets tetrahedron is the positively oriented unit corner, of volume 1/6. */
  lemma GenTetsVolume(t: nat)
    ensures SignedVolumeOfTet(Corner(t, 0), Corner(t, 1), Corner(t, 2), Corner(t, 3)) == 1.0 / 6.0
  {
    var o := Corner(t, 0);
    assert Sub(Corner(t, 1), o) == Vec3(1.0, 0.0, 0.0);
    assert Sub(Corner(t, 2), o) == Vec3(0.0, 1.0, 0.0);
    assert Sub(Corner(t, 3), o) == Vec3(0.0, 0.0, 1.0);
  }

  /** One component of `invShape`, `1 / n`. A zero dimension leaves the loops empty,
      so its component is never used; it is 0 here. */
  function Inverse(n: nat): (r: real)
    ensures n > 0 ==> r * n as real == 1.0
  {
    if n == 0 then 0.0 else 1.0 / n as real
  }

  /** The (u, v, radius) point of a grid position: `[a, b, h] * invShape`. */
  function Uv(a: real, b: real, h: real, inv0: real, inv1: real): Vec3 {
    Vec3(a * inv0, b * inv1, h)
  }

  /** Cell (i, j) of gen_tets_sphere, numbered row by row, owns the five vertices from
      5(i N1 + j): the four grid corners on the sphere and a centre point at 3/4 of the
      radius; its two tetrahedra share the face (v0+1, v0+2, v0+4) through the centre,
      and its two colours hold the cell's and the centre's (u, v). */
  predicate SphereCell(verts: seq<Vec3>, cols: seq<seq<real>>, tets: seq<seq<int>>,
                       i: nat, j: nat, n1: nat, inv0: real, inv1: real, toCartesian: Vec3 -> Vec3)
  {
    var c := i * n1 + j;
    var v0 := 5 * c;
    && v0 + 5 <= |verts| && 2 * c + 2 <= |cols| && 2 * c + 2 <= |tets|
    && verts[v0] == toCartesian(Uv(i as real, j as real, 1.0, inv0, inv1))
    && verts[v0 + 1] == toCartesian(Uv(i as real + 1.0, j as real, 1.0, inv0, inv1))
    && verts[v0 + 2] == toCartesian(Uv(i as real, j as real + 1.0, 1.0, inv0, inv1))
    && verts[v0 + 3] == toCartesian(Uv(i as real + 1.0, j as real + 1.0, 1.0, inv0, inv1))
    && verts[v0 + 4] == toCartesian(Uv(i as real + 0.5, j as real + 0.5, 0.75, inv0, inv1))
    && cols[2 * c] == [i as real * inv0, j as real * inv1, 0.5, 40.0]
    && cols[2 * c + 1] == [(i as real + 0.5) * inv0, (j as real + 0.5) * inv1, 0.5, 40.0]
    && tets[2 * c] == [v0, v0 + 1, v0 + 2, v0 + 4]
    && tets[2 * c + 1] == [v0 + 1, v0 + 3, v0 + 2, v0 + 4]
  }

  /** Every index of tetrahedron t lies in the block of five vertices of its cell t / 2. */
  predicate InOwnCell(tets: seq<seq<int>>, t: nat)
    requires t < |tets|
  {
    |tets[t]| == 4 && forall k :: 0 <= k < 4 ==> 5 * (t / 2) <= tets[t][k] < 5 * (t / 2) + 5
  }

  /** Tetrahedra of different cells share no vertex. */
  lemma DifferentCellsDisjoint(tets: seq<seq<int>>, t: nat, u: nat, k: nat, l: nat)
    requires t < |tets| && u < |tets| && InOwnCell(tets, t) && InOwnCell(tets, u)
    requires t / 2 != u / 2 && k < 4 && l < 4
    ensures tets[t][k] != tets[u][l]
  {
  }

  /** gen_tets_sphere((N0, N1)): 5 N0 N1 vertices, 2 N0 N1 colours and tetrahedra, laid
      out cell by cell; every index names a vertex of the tetrahedron's own cell, so
      tetrahedra of different cells share no vertex. The spherical-to-Cartesian map
      (the trigonometry and the radius r) is the parameter `toCartesian`. */
  method GenTetsSphere(n0: nat, n1: nat, toCartesian: Vec3 -> Vec3)
    returns (verts: seq<Vec3>, cols: seq<seq<real>>, tets: seq<seq<int>>)
    ensures |verts| == 5 * (n0 * n1) && |cols| == 2 * (n0 * n1) && |tets| == 2 * (n0 * n1)
    ensures forall i, j :: 0 <= i < n0 && 0 <= j < n1 ==>
      SphereCell(verts, cols, tets, i, j, n1, Inverse(n0), Inverse(n1), toCartesian)
    ensures forall t :: 0 <= t < |tets| ==> InOwnCell(tets, t)
    ensures ValidIndices(tets, |verts|)
  {
    verts, cols, tets := [], [], [];
    var inv0, inv1 := Inverse(n0), Inverse(n1);
    var i := 0;
    while i < n0
      invariant 0 <= i <= n0
      invariant |verts| == 5 * (i * n1) && |cols| == 2 * (i * n1) && |tets| == 2 * (i * n1)
      invariant forall a, b :: 0 <= a < i && 0 <= b < n1 ==>
        SphereCell(verts, cols, tets, a, b, n1, inv0, inv1, toCartesian)
      invariant forall t :: 0 <= t < |tets| ==> InOwnCell(tets, t)
    {
      ghost var (verts0, cols0, tets0) := (verts, cols, tets);
      verts, cols, tets := AddRow(verts, cols, tets, i, n1, inv0, inv1, toCartesian);
      forall a, b | 0 <= a < i && 0 <= b < n1
        ensures SphereCell(verts, cols, tets, a, b, n1, inv0, inv1, toCartesian)
      {
        SphereCellGrows(verts0, cols0, tets0, verts, cols, tets, a, b, n1, inv0, inv1, toCartesian);
      }
      i := i + 1;
    }
    forall t | 0 <= t < |tets|
      ensures |tets[t]| == 4 && forall k :: 0 <= k < 4 ==> 0 <= tets[t][k] < |verts|
    {
      assert InOwnCell(tets, t);
    }
  }

  /** The inner loop: the cells (i, 0) .. (i, N1-1) of row i are appended. */
  method AddRow(verts: seq<Vec3>, cols: seq<seq<real>>, tets: seq<seq<int>>,
                i: nat, n1: nat, inv0: real, inv1: real, toCartesian: Vec3 -> Vec3)
    returns (verts': seq<Vec3>, cols': seq<seq<real>>, tets': seq<seq<int>>)
    requires |verts| == 5 * (i * n1) && |cols| == 2 * (i * n1) && |tets| == 2 * (i * n1)
    requires forall t :: 0 <= t < |tets| ==> InOwnCell(tets, t)
    ensures verts <= verts' && |verts'| == 5 * ((i + 1) * n1)
    ensures cols <= cols' && |cols'| == 2 * ((i + 1) * n1)
    ensures tets <= tets' && |tets'| == 2 * ((i + 1) * n1)
    ensures forall b :: 0 <= b < n1 ==> SphereCell(verts', cols', tets', i, b, n1, inv0, inv1, toCartesian)
    ensures forall t :: 0 <= t < |tets'| ==> InOwnCell(tets', t)
  {
    verts', cols', tets' := verts, cols, tets;
    var j := 0;
    while j < n1
      invariant 0 <= j <= n1
      invariant verts <= verts' && cols <= cols' && tets <= tets'
      invariant |verts'| == 5 * (i * n1 + j) && |cols'| == 2 * (i * n1 + j) && |tets'| == 2 * (i * n1 + j)
      invariant forall b :: 0 <= b < j ==> SphereCell(verts', cols', tets', i, b, n1, inv0, inv1, toCartesian)
      invariant forall t :: 0 <= t < |tets'| ==> InOwnCell(tets', t)
    {
      ghost var (verts0, cols0, tets0) := (verts', cols', tets');
      verts', cols', tets' := AddCell(verts', cols', tets', i, j, n1, inv0, inv1, toCartesian);
      forall b | 0 <= b < j
        ensures SphereCell(verts', cols', tets', i, b, n1, inv0, inv1, toCartesian)
      {
        SphereCellGrows(verts0, cols0, tets0, verts', cols', tets', i, b, n1, inv0, inv1, toCartesian);
      }
      j := j + 1;
    }
    assert i * n1 + n1 == (i + 1) * n1;
  }

  /** One pass of the inner loop: the five vertices, two colours and two tetrahedra of
      cell (i, j) are appended. */
  method AddCell(verts: seq<Vec3>, cols: seq<seq<real>>, tets: seq<seq<int>>,
                 i: nat, j: nat, n1: nat, inv0: real, inv1: real, toCartesian: Vec3 -> Vec3)
    returns (verts': seq<Vec3>, cols': seq<seq<real>>, tets': seq<seq<int>>)
    requires |verts| == 5 * (i * n1 + j) && |cols| == 2 * (i * n1 + j) && |tets| == 2 * (i * n1 + j)
    requires forall t :: 0 <= t < |tets| ==> InOwnCell(tets, t)
    ensures verts <= verts' && |verts'| == |verts| + 5
    ensures cols <= cols' && |cols'| == |cols| + 2
    ensures tets <= tets' && |tets'| == |tets| + 2
    ensures SphereCell(verts', cols', tets', i, j, n1, inv0, inv1, toCartesian)
    ensures forall t :: 0 <= t < |tets'| ==> InOwnCell(tets', t)
  {
    var p00 := toCartesian(Uv(i as real, j as real, 1.0, inv0, inv1));
    var p10 := toCartesian(Uv(i as real + 1.0, j as real, 1.0, inv0, inv1));
    var p01 := toCartesian(Uv(i as real, j as real + 1.0, 1.0, inv0, inv1));
    var p11 := toCartesian(Uv(i as real + 1.0, j as real + 1.0, 1.0, inv0, inv1));
    var pc := toCartesian(Uv(i as real + 0.5, j as real + 0.5, 0.75, inv0, inv1));
    var v0 := |verts|;
    verts' := verts + [p00, p10, p01, p11, pc];
    cols' := cols + [[i as real * inv0, j as real * inv1, 0.5, 40.0]];
    tets' := tets + [[v0 + 0, v0 + 1, v0 + 2, v0 + 4]];
    cols' := cols' + [[(i as real + 0.5) * inv0, (j as real + 0.5) * inv1, 0.5, 40.0]];
    tets' := tets' + [[v0 + 1, v0 + 3, v0 + 2, v0 + 4]];
    forall t | 0 <= t < |tets'|
      ensures InOwnCell(tets', t)
    {
      if t < |tets| {
        assert tets'[t] == tets[t];
        assert InOwnCell(tets, t);
      }
    }
  }

  /** A cell laid out in the lists stays laid out when more is appended. */
  lemma SphereCellGrows(verts: seq<Vec3>, cols: seq<seq<real>>, tets: seq<seq<int>>,
                        verts': seq<Vec3>, cols': seq<seq<real>>, tets': seq<seq<int>>,
                        i: nat, j: nat, n1: nat, inv0: real, inv1: real, toCartesian: Vec3 -> Vec3)
    requires SphereCell(verts, cols, tets, i, j, n1, inv0, inv1, toCartesian)
    requires verts <= verts'
    requires cols <= cols'
    requires tets <= tets'
    ensures SphereCell(verts', cols', tets', i, j, n1, inv0, inv1, toCartesian)
  {
    var c := i * n1 + j;
    assert verts'[5 * c..5 * c + 5] == verts[5 * c..5 * c + 5];
    assert cols'[2 * c..2 * c + 2] == cols[2 * c..2 * c + 2];
    assert tets'[2 * c..2 * c + 2] == tets[2 * c..2 * c + 2];
  }
}
