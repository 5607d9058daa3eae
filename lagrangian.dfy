/** The Laplacian deformation gizmo (initLa / updateLa): after region discovery, the
    active and boundary vertices get dense local indices, a sparse system with identity
    rows for pinned vertices and graph-Laplacian rows for free vertices is assembled and
    handed to a factorising solver; each update builds the right-hand sides from the
    handle targets and boundary rest positions, solves, and maps the solution back to
    global vertex ids. The factorisation and the solves are the Eigen library's and are
    passed in as an uninterpreted `solve`. */
module Lagrangian {
  import opened Geometry
  import opened Mesh
  import opened HandleGrid
  import opened Region
  import opened OrderedSet

  /** One (row, column, value) entry handed to the sparse-matrix builder. */
  datatype Triplet = Triplet(row: nat, col: nat, value: real)

  /** A boundary vertex and its rest position. */
  type Pin = (nat, Vec3)

  /** Ascending active vertices followed by ascending boundary vertices repeat no vertex,
      and list exactly the vertices of the two sets. */
  lemma ProblemVerticesDistinct(active: set<nat>, boundary: set<nat>)
    requires active !! boundary
    ensures Distinct(Ascending(active) + Ascending(boundary))
    ensures forall g :: g in Ascending(active) + Ascending(boundary) <==> g in active || g in boundary
    ensures |Ascending(active) + Ascending(boundary)| == |active| + |boundary|
  {
    AscendingSpec(active);
    AscendingSpec(boundary);
    var a, b := Ascending(active), Ascending(boundary);
    forall i, j | 0 <= i < j < |a + b| ensures (a + b)[i] != (a + b)[j] {
      if j < |a| {
        assert a[i] < a[j];
      } else if i >= |a| {
        assert b[i - |a|] < b[j - |a|];
      } else {
        assert (a + b)[i] == a[i] && a[i] in active;
        assert (a + b)[j] == b[j - |a|] && b[j - |a|] in boundary;
      }
    }
  }

  // ---------------------------------------------------------------- the system

  /** The -1 entries of a free row: one for every listed neighbour in the sub-problem. */
  function NeighbourEntries(i: nat, nbrs: seq<nat>, local: map<nat, nat>): seq<Triplet>
    decreases |nbrs|
  {
    if nbrs == [] then []
    else
      var rest := NeighbourEntries(i, nbrs[..|nbrs| - 1], local);
      var g := nbrs[|nbrs| - 1];
      if g in local then rest + [Triplet(i, local[g], -1.0)] else rest
  }

  /** The number of listed neighbours that are part of the sub-problem. */
  function Degree(nbrs: seq<nat>, local: map<nat, nat>): nat
    decreases |nbrs|
  {
    if nbrs == [] then 0
    else Degree(nbrs[..|nbrs| - 1], local) + (if nbrs[|nbrs| - 1] in local then 1 else 0)
  }

  /** The triplets of local row i for global vertex g: a lone 1 on the diagonal for a
      handle or boundary vertex, the unweighted Laplacian row otherwise. */
  function Row(i: nat, g: nat, handleSet: set<nat>, boundary: set<nat>,
               adjacency: seq<seq<nat>>, local: map<nat, nat>): seq<Triplet>
    requires g < |adjacency|
  {
    if g in handleSet || g in boundary then [Triplet(i, i, 1.0)]
    else NeighbourEntries(i, adjacency[g], local) + [Triplet(i, i, Degree(adjacency[g], local) as real)]
  }

  /** The triplet list of the whole sub-problem, row by row in local order. */
  function Assemble(pv: seq<nat>, handleSet: set<nat>, boundary: set<nat>,
                    adjacency: seq<seq<nat>>, local: map<nat, nat>): (r: seq<Triplet>)
    requires forall k :: 0 <= k < |pv| ==> pv[k] < |adjacency|
    ensures |r| >= |pv|
    decreases |pv|
  {
    if pv == [] then []
    else
      var k := |pv| - 1;
      Assemble(pv[..k], handleSet, boundary, adjacency, local) + Row(k, pv[k], handleSet, boundary, adjacency, local)
  }

  /** The entries of row i, in the order they were emitted. */
  function RowOf(ts: seq<Triplet>, i: nat): seq<Triplet>
    decreases |ts|
  {
    if ts == [] then []
    else RowOf(ts[..|ts| - 1], i) + (if ts[|ts| - 1].row == i then [ts[|ts| - 1]] else [])
  }

  /** The sum of the values of a list of entries (setFromTriplets sums duplicates). */
  function ValueSum(ts: seq<Triplet>): real
    decreases |ts|
  {
    if ts == [] then 0.0 else ValueSum(ts[..|ts| - 1]) + ts[|ts| - 1].value
  }

  lemma {:induction false} ValueSumAppend(a: seq<Triplet>, b: seq<Triplet>)
    ensures ValueSum(a + b) == ValueSum(a) + ValueSum(b)
    decreases |b|
  {
    if b != [] {
      assert (a + b)[..|a + b| - 1] == a + b[..|b| - 1];
      ValueSumAppend(a, b[..|b| - 1]);
    } else {
      assert a + b == a;
    }
  }

  lemma {:induction false} RowOfAppend(a: seq<Triplet>, b: seq<Triplet>, i: nat)
    ensures RowOf(a + b, i) == RowOf(a, i) + RowOf(b, i)
    decreases |b|
  {
    if b != [] {
      assert (a + b)[..|a + b| - 1] == a + b[..|b| - 1];
      RowOfAppend(a, b[..|b| - 1], i);
    } else {
      assert a + b == a;
    }
  }

  /** The -1 entries of a free row sum to minus its diagonal. */
  lemma {:induction false} NeighbourEntriesSum(i: nat, nbrs: seq<nat>, local: map<nat, nat>)
    ensures ValueSum(NeighbourEntries(i, nbrs, local)) == -(Degree(nbrs, local) as real)
    decreases |nbrs|
  {
    if nbrs != [] {
      var init := nbrs[..|nbrs| - 1];
      NeighbourEntriesSum(i, init, local);
      if nbrs[|nbrs| - 1] in local {
        ValueSumAppend(NeighbourEntries(i, init, local), [Triplet(i, local[nbrs[|nbrs| - 1]], -1.0)]);
      }
    }
  }

  /** Every entry of a free row is on row i; its columns are the local indices of the
      row vertex's neighbours that belong to the sub-problem. */
  lemma {:induction false} NeighbourEntriesShape(i: nat, nbrs: seq<nat>, local: map<nat, nat>)
    ensures forall t :: t in NeighbourEntries(i, nbrs, local) ==>
      t.row == i && t.value == -1.0 && exists u :: u in nbrs && u in local && local[u] == t.col
    ensures |NeighbourEntries(i, nbrs, local)| == Degree(nbrs, local)
    decreases |nbrs|
  {
    if nbrs != [] {
      var init := nbrs[..|nbrs| - 1];
      NeighbourEntriesShape(i, init, local);
      forall t | t in NeighbourEntries(i, nbrs, local)
        ensures t.row == i && t.value == -1.0 && exists u :: u in nbrs && u in local && local[u] == t.col
      {
        if t in NeighbourEntries(i, init, local) {
          var u :| u in init && u in local && local[u] == t.col;
          assert u in nbrs;
        } else {
          assert nbrs[|nbrs| - 1] in nbrs;
        }
      }
    }
  }

  /** Row structure: a pinned row is a lone 1.0 on the diagonal; every entry of a free row
      is on its row, the off-diagonal ones are -1 at in-sub-problem neighbours, the
      diagonal is their count, and the row sums to zero. */
  lemma RowShape(i: nat, g: nat, handleSet: set<nat>, boundary: set<nat>,
                 adjacency: seq<seq<nat>>, local: map<nat, nat>)
    requires g < |adjacency|
    ensures var r := Row(i, g, handleSet, boundary, adjacency, local);
      && (forall t :: t in r ==> t.row == i)
      && ((g in handleSet || g in boundary) ==> r == [Triplet(i, i, 1.0)])
      && (g !in handleSet && g !in boundary ==>
            && ValueSum(r) == 0.0
            && r[|r| - 1] == Triplet(i, i, Degree(adjacency[g], local) as real)
            && |r| == Degree(adjacency[g], local) + 1
            && (forall k :: 0 <= k < |r| - 1 ==>
                  r[k].value == -1.0 && exists u :: u in adjacency[g] && u in local && local[u] == r[k].col))
  {
    if g !in handleSet && g !in boundary {
      var ne := NeighbourEntries(i, adjacency[g], local);
      var d := Triplet(i, i, Degree(adjacency[g], local) as real);
      NeighbourEntriesSum(i, adjacency[g], local);
      NeighbourEntriesShape(i, adjacency[g], local);
      ValueSumAppend(ne, [d]);
      var r := ne + [d];
      forall k | 0 <= k < |r| - 1
        ensures r[k].value == -1.0 && exists u :: u in adjacency[g] && u in local && local[u] == r[k].col
      {
        assert r[k] == ne[k] && ne[k] in ne;
      }
    }
  }

  lemma {:induction false} AssembleRowsBelow(pv: seq<nat>, handleSet: set<nat>, boundary: set<nat>,
                                             adjacency: seq<seq<nat>>, local: map<nat, nat>)
    requires forall k :: 0 <= k < |pv| ==> pv[k] < |adjacency|
    ensures forall t :: t in Assemble(pv, handleSet, boundary, adjacency, local) ==> t.row < |pv|
    decreases |pv|
  {
    if pv != [] {
      var k := |pv| - 1;
      AssembleRowsBelow(pv[..k], handleSet, boundary, adjacency, local);
      RowShape(k, pv[k], handleSet, boundary, adjacency, local);
    }
  }

  lemma {:induction false} RowOfOtherRows(ts: seq<Triplet>, i: nat)
    requires forall t :: t in ts ==> t.row != i
    ensures RowOf(ts, i) == []
    decreases |ts|
  {
    if ts != [] {
      assert ts[|ts| - 1] in ts;
      RowOfOtherRows(ts[..|ts| - 1], i);
    }
  }

  lemma {:induction false} RowOfOwnRow(ts: seq<Triplet>, i: nat)
    requires forall t :: t in ts ==> t.row == i
    ensures RowOf(ts, i) == ts
    decreases |ts|
  {
    if ts != [] {
      assert ts[|ts| - 1] in ts;
      RowOfOwnRow(ts[..|ts| - 1], i);
      assert ts[..|ts| - 1] + [ts[|ts| - 1]] == ts;
    }
  }

  /** The assembled matrix holds, in row i, exactly the entries Row builds for the i-th
      problem vertex: rows never mix. */
  lemma {:induction false} AssembledRow(pv: seq<nat>, handleSet: set<nat>, boundary: set<nat>,
                                        adjacency: seq<seq<nat>>, local: map<nat, nat>, i: nat)
    requires forall k :: 0 <= k < |pv| ==> pv[k] < |adjacency|
    requires i < |pv|
    ensures RowOf(Assemble(pv, handleSet, boundary, adjacency, local), i)
         == Row(i, pv[i], handleSet, boundary, adjacency, local)
    decreases |pv|
  {
    var k := |pv| - 1;
    var before := Assemble(pv[..k], handleSet, boundary, adjacency, local);
    var last := Row(k, pv[k], handleSet, boundary, adjacency, local);
    RowOfAppend(before, last, i);
    RowShape(k, pv[k], handleSet, boundary, adjacency, local);
    if i == k {
      AssembleRowsBelow(pv[..k], handleSet, boundary, adjacency, local);
      RowOfOtherRows(before, i);
      RowOfOwnRow(last, i);
    } else {
      AssembledRow(pv[..k], handleSet, boundary, adjacency, local, i);
      RowOfOtherRows(last, i);
    }
  }

  // ---------------------------------------------------------------- boundary pins

  /** boundary_constraints: the boundary vertices of `pv` with their rest positions. */
  function BoundaryPins(pv: seq<nat>, boundary: set<nat>, positions: seq<Vec3>): seq<Pin>
    requires forall k :: 0 <= k < |pv| ==> pv[k] < |positions|
    decreases |pv|
  {
    if pv == [] then []
    else
      var k := |pv| - 1;
      BoundaryPins(pv[..k], boundary, positions) + (if pv[k] in boundary then [(pv[k], positions[pv[k]])] else [])
  }

  lemma {:induction false} NoPinsOutsideBoundary(sa: seq<nat>, boundary: set<nat>, positions: seq<Vec3>)
    requires forall k :: 0 <= k < |sa| ==> sa[k] < |positions| && sa[k] !in boundary
    ensures BoundaryPins(sa, boundary, positions) == []
    decreases |sa|
  {
    if sa != [] {
      NoPinsOutsideBoundary(sa[..|sa| - 1], boundary, positions);
    }
  }

  /** `pins` pins the vertices of `sb`, in order, each at its position. */
  ghost predicate PinnedAt(pins: seq<Pin>, sb: seq<nat>, positions: seq<Vec3>) {
    && |pins| == |sb|
    && forall k :: 0 <= k < |sb| ==> sb[k] < |positions| && pins[k] == (sb[k], positions[sb[k]])
  }

  /** With the active vertices first, the pins are exactly the boundary vertices in local
      order, each with its rest position. */
  lemma {:induction false} PinsAreBoundary(sa: seq<nat>, sb: seq<nat>, boundary: set<nat>, positions: seq<Vec3>)
    requires forall k :: 0 <= k < |sa| ==> sa[k] < |positions| && sa[k] !in boundary
    requires forall k :: 0 <= k < |sb| ==> sb[k] < |positions| && sb[k] in boundary
    ensures PinnedAt(BoundaryPins(sa + sb, boundary, positions), sb, positions)
    decreases |sb|
  {
    if sb == [] {
      assert sa + sb == sa;
      NoPinsOutsideBoundary(sa, boundary, positions);
    } else {
      var k := |sb| - 1;
      assert (sa + sb)[..|sa + sb| - 1] == sa + sb[..k];
      PinsAreBoundary(sa, sb[..k], boundary, positions);
    }
  }

  // ---------------------------------------------------------------- right-hand sides

  function Coord(p: Vec3, axis: nat): real {
    if axis == 0 then p.x else if axis == 1 then p.y else p.z
  }

  /** The local entries the handle loop writes (a later target for the same local index
      wins; ids outside the sub-problem are skipped). */
  function HandleWrites(local: map<nat, nat>, targets: seq<Update>, axis: nat): map<nat, real>
    decreases |targets|
  {
    if targets == [] then map[]
    else
      var m := HandleWrites(local, targets[..|targets| - 1], axis);
      var (g, p) := targets[|targets| - 1];
      if g in local then m[local[g] := Coord(p, axis)] else m
  }

  /** The local entries the boundary loop writes. */
  function PinWrites(local: map<nat, nat>, pins: seq<Pin>, axis: nat): map<nat, real>
    requires forall k :: 0 <= k < |pins| ==> pins[k].0 in local
    decreases |pins|
  {
    if pins == [] then map[]
    else
      var m := PinWrites(local, pins[..|pins| - 1], axis);
      var (g, p) := pins[|pins| - 1];
      m[local[g] := Coord(p, axis)]
  }

  /** `b` with the entries of `m` written over it. */
  function Layer(b: seq<real>, m: map<nat, real>): (r: seq<real>)
    ensures |r| == |b|
  {
    seq(|b|, l requires 0 <= l < |b| => if l in m then m[l] else b[l])
  }

  /** One right-hand side of the system: zero, then the handle targets, then the
      boundary rest positions written over them. */
  function Rhs(n: nat, local: map<nat, nat>, targets: seq<Update>, pins: seq<Pin>, axis: nat): (r: seq<real>)
    requires forall k :: 0 <= k < |pins| ==> pins[k].0 in local
    ensures |r| == n
  {
    Layer(Layer(seq(n, _ => 0.0), HandleWrites(local, targets, axis)), PinWrites(local, pins, axis))
  }

  /** A target lands on a local index exactly when its vertex is in the sub-problem, and
      carries the last target given for that vertex. */
  lemma {:induction false} HandleWritesMeaning(local: map<nat, nat>, targets: seq<Update>, axis: nat, l: nat)
    ensures l in HandleWrites(local, targets, axis) <==>
      exists k :: 0 <= k < |targets| && targets[k].0 in local && local[targets[k].0] == l
    ensures l in HandleWrites(local, targets, axis) ==>
      exists k :: 0 <= k < |targets| && targets[k].0 in local && local[targets[k].0] == l
        && HandleWrites(local, targets, axis)[l] == Coord(targets[k].1, axis)
        && forall k' :: k < k' < |targets| && targets[k'].0 in local ==> local[targets[k'].0] != l
    decreases |targets|
  {
    if targets != [] {
      var n := |targets| - 1;
      var init := targets[..n];
      HandleWritesMeaning(local, init, axis, l);
      var (g, p) := targets[n];
      if g in local && local[g] == l {
      } else {
        if l in HandleWrites(local, init, axis) {
          var k :| 0 <= k < |init| && init[k].0 in local && local[init[k].0] == l
            && HandleWrites(local, init, axis)[l] == Coord(init[k].1, axis)
            && forall k' :: k < k' < |init| && init[k'].0 in local ==> local[init[k'].0] != l;
          assert targets[k] == init[k];
        }
        if exists k :: 0 <= k < |targets| && targets[k].0 in local && local[targets[k].0] == l {
          var k :| 0 <= k < |targets| && targets[k].0 in local && local[targets[k].0] == l;
          assert k < n && targets[k] == init[k];
        }
      }
    }
  }

  /** With the pins of an InitLa result, the boundary loop writes exactly the local indices
      of the boundary vertices, each with its rest position. */
  lemma {:induction false} PinWritesMeaning(local: map<nat, nat>, sa: seq<nat>, sb: seq<nat>,
                                            pins: seq<Pin>, positions: seq<Vec3>, axis: nat)
    requires IndexesOf(local, sa + sb)
    requires |pins| <= |sb|
    requires forall k :: 0 <= k < |pins| ==> sb[k] < |positions| && pins[k] == (sb[k], positions[sb[k]])
    ensures forall k :: 0 <= k < |sb| ==> sb[k] in local && local[sb[k]] == |sa| + k
    ensures forall l :: l in PinWrites(local, pins, axis) <==> |sa| <= l < |sa| + |pins|
    ensures forall l :: |sa| <= l < |sa| + |pins| ==> PinWrites(local, pins, axis)[l] == Coord(positions[sb[l - |sa|]], axis)
    decreases |pins|
  {
    assert forall k :: 0 <= k < |sb| ==> (sa + sb)[|sa| + k] == sb[k];
    if pins != [] {
      var j := |pins| - 1;
      PinWritesMeaning(local, sa, sb, pins[..j], positions, axis);
      assert local[sb[j]] == |sa| + j;
    }
  }

  // ---------------------------------------------------------------- the context

  /** The state kept between a grab and its updates. `system` is the matrix the
      factorising solver is built from, as its triplet list. */
  class DeformationContext {
    var globalToLocal: map<nat, nat>
    var problemVertices: seq<nat>
    var boundaryConstraints: seq<Pin>
    var system: seq<Triplet>
    ghost var active: set<nat>
    ghost var boundary: set<nat>

    /** The local/global bijection and the pins it needs. */
    ghost predicate Valid()
      reads this
    {
      && IndexesOf(globalToLocal, problemVertices)
      && (forall k :: 0 <= k < |boundaryConstraints| ==> boundaryConstraints[k].0 in globalToLocal)
    }

    constructor ()
      ensures Valid()
      ensures globalToLocal == map[] && problemVertices == [] && boundaryConstraints == [] && system == []
    {
      globalToLocal, problemVertices, boundaryConstraints, system := map[], [], [], [];
      active, boundary := {}, {};
    }

    /** initLa: with no handles nothing changes; otherwise the region is discovered, the
        problem vertices are the ascending active vertices followed by the ascending
        boundary vertices, every problem vertex gets its position as local index, the
        boundary vertices are pinned at their rest positions, and the system is the
        row-by-row assembly. */
    method InitLa(radius: real, mesh: Mesh, handles: seq<nat>)
      modifies this
      requires Valid()
      requires mesh.Valid() && radius > 0.0
      requires forall h :: h in handles ==> h < |mesh.positions|
      ensures Valid()
      ensures handles == [] ==> unchanged(this)
      ensures handles != [] ==>
        Prepared(mesh, handles, radius, active, boundary, problemVertices, globalToLocal, system, boundaryConstraints)
    {
      if handles == [] {
        return;
      }
      active, boundary, problemVertices, globalToLocal, system, boundaryConstraints := Prepare(mesh, handles, radius);
    }

    /** updateLa: nothing for an empty problem; otherwise one (global id, solved position)
        pair per problem vertex, in local order, the solution of each axis being the
        solver applied to that axis's right-hand side. */
    method UpdateLa(targets: seq<Update>, solve: (seq<Triplet>, seq<real>) -> seq<real>)
      returns (updates: seq<Update>)
      requires Valid()
      requires forall ts, b :: |solve(ts, b)| == |b|
      ensures problemVertices == [] ==> updates == []
      ensures |updates| == |problemVertices|
      ensures forall l :: 0 <= l < |updates| ==>
        var xs := solve(system, Rhs(|problemVertices|, globalToLocal, targets, boundaryConstraints, 0));
        var ys := solve(system, Rhs(|problemVertices|, globalToLocal, targets, boundaryConstraints, 1));
        var zs := solve(system, Rhs(|problemVertices|, globalToLocal, targets, boundaryConstraints, 2));
        updates[l] == (problemVertices[l], Vec3(xs[l], ys[l], zs[l]))
    {
      if problemVertices == [] {
        return [];
      }
      var n := |problemVertices|;
      var rx := BuildRhs(targets, 0);
      var ry := BuildRhs(targets, 1);
      var rz := BuildRhs(targets, 2);
      var xs, ys, zs := solve(system, rx), solve(system, ry), solve(system, rz);
      updates := [];
      var l := 0;
      while l < n
        invariant 0 <= l <= n
        invariant |updates| == l
        invariant forall k :: 0 <= k < l ==> updates[k] == (problemVertices[k], Vec3(xs[k], ys[k], zs[k]))
      {
        updates := updates + [(problemVertices[l], Vec3(xs[l], ys[l], zs[l]))];
        l := l + 1;
      }
    }

    /** The right-hand side for one axis, written entry by entry as updateLa does. */
    method BuildRhs(targets: seq<Update>, axis: nat) returns (b: seq<real>)
      requires Valid()
      ensures b == Rhs(|problemVertices|, globalToLocal, targets, boundaryConstraints, axis)
    {
      var n := |problemVertices|;
      b := seq(n, _ => 0.0);
      ghost var zeros := b;
      var i := 0;
      while i < |targets|
        invariant 0 <= i <= |targets|
        invariant b == Layer(zeros, HandleWrites(globalToLocal, targets[..i], axis))
      {
        var (g, p) := targets[i];
        assert targets[..i + 1][..i] == targets[..i];
        if g in globalToLocal {
          var l := globalToLocal[g];
          b := b[l := Coord(p, axis)];
        }
        i := i + 1;
      }
      assert targets[..i] == targets;
      ghost var handled := b;
      var j := 0;
      while j < |boundaryConstraints|
        invariant 0 <= j <= |boundaryConstraints|
        invariant b == Layer(handled, PinWrites(globalToLocal, boundaryConstraints[..j], axis))
      {
        var (g, p) := boundaryConstraints[j];
        assert boundaryConstraints[..j + 1][..j] == boundaryConstraints[..j];
        var l := globalToLocal[g];
        b := b[l := Coord(p, axis)];
        j := j + 1;
      }
      assert boundaryConstraints[..j] == boundaryConstraints;
    }
  }

  /** The sub-problem initLa builds for a classified region: the problem vertices are the
      ascending active vertices followed by the ascending boundary vertices, the boundary
      vertices are pinned at their rest positions, and the system is the row-by-row
      assembly. */
  ghost predicate Assembled(mesh: Mesh, handleSet: set<nat>, active: set<nat>, boundary: set<nat>,
                            pv: seq<nat>, local: map<nat, nat>, triplets: seq<Triplet>, pins: seq<Pin>)
  {
    && |mesh.adjacency| == |mesh.positions|
    && active !! boundary
    && (forall v :: v in active || v in boundary ==> v < |mesh.positions|)
    && pv == Ascending(active) + Ascending(boundary)
    && (forall k :: 0 <= k < |pv| ==> pv[k] < |mesh.positions|)
    && pins == BoundaryPins(pv, boundary, mesh.positions)
    && triplets == Assemble(pv, handleSet, boundary, mesh.adjacency, local)
  }

  /** What initLa leaves behind: the region of the handles and its assembled sub-problem. */
  ghost predicate Prepared(mesh: Mesh, handles: seq<nat>, radius: real, active: set<nat>, boundary: set<nat>,
                           pv: seq<nat>, local: map<nat, nat>, triplets: seq<Triplet>, pins: seq<Pin>)
  {
    && (exists order :: IsRegion(mesh, handles, radius, active, boundary, order))
    && Assembled(mesh, HandleSet(handles), active, boundary, pv, local, triplets, pins)
  }

  method Prepare(mesh: Mesh, handles: seq<nat>, radius: real)
    returns (active: set<nat>, boundary: set<nat>, pv: seq<nat>, local: map<nat, nat>, triplets: seq<Triplet>, pins: seq<Pin>)
    requires mesh.Valid() && radius > 0.0
    requires forall h :: h in handles ==> h < |mesh.positions|
    ensures Prepared(mesh, handles, radius, active, boundary, pv, local, triplets, pins)
    ensures IndexesOf(local, pv)
    ensures forall k :: 0 <= k < |pins| ==> pins[k].0 in local
  {
    ghost var order;
    active, boundary, order := Discover(mesh, handles, radius);
    RegionInRange(mesh, handles, radius, active, boundary, order);
    pv, local, triplets, pins := BuildProblem(mesh, HandleSet(handles), active, boundary);
  }

  lemma RegionInRange(mesh: Mesh, handles: seq<nat>, radius: real, active: set<nat>, boundary: set<nat>, order: seq<nat>)
    requires IsRegion(mesh, handles, radius, active, boundary, order)
    ensures mesh.Valid() && active !! boundary
    ensures forall v :: v in active || v in boundary ==> v < |mesh.positions|
  {
  }

  /** Steps 3-5 of initLa once the region is known: the problem vertices, their local
      indices, the system's triplets and the boundary pins. */
  method BuildProblem(mesh: Mesh, handleSet: set<nat>, active: set<nat>, boundary: set<nat>)
    returns (pv: seq<nat>, local: map<nat, nat>, triplets: seq<Triplet>, pins: seq<Pin>)
    requires mesh.Valid() && active !! boundary
    requires forall v :: v in active || v in boundary ==> v < |mesh.positions|
    ensures Assembled(mesh, handleSet, active, boundary, pv, local, triplets, pins)
    ensures IndexesOf(local, pv)
    ensures forall k :: 0 <= k < |pins| ==> pins[k].0 in local
  {
    var sa := ToAscending(active);
    var sb := ToAscending(boundary);
    ProblemVerticesDistinct(active, boundary);
    pv := sa + sb;
    assert forall k :: 0 <= k < |pv| ==> pv[k] < |mesh.positions| by {
      forall k | 0 <= k < |pv| ensures pv[k] < |mesh.positions| {
        assert pv[k] in pv;
      }
    }
    local := IndexMap(pv);
    triplets, pins := AssembleSystem(pv, handleSet, boundary, mesh, local);
  }

  /** The row loop of initLa: the triplets of every local row and the boundary pins. */
  method AssembleSystem(pv: seq<nat>, handleSet: set<nat>, boundary: set<nat>, mesh: Mesh, local: map<nat, nat>)
    returns (triplets: seq<Triplet>, pins: seq<Pin>)
    requires mesh.Valid()
    requires forall k :: 0 <= k < |pv| ==> pv[k] < |mesh.positions|
    requires IndexesOf(local, pv)
    ensures triplets == Assemble(pv, handleSet, boundary, mesh.adjacency, local)
    ensures pins == BoundaryPins(pv, boundary, mesh.positions)
    ensures forall k :: 0 <= k < |pins| ==> pins[k].0 in local
  {
    triplets, pins := [], [];
    var l := 0;
    while l < |pv|
      invariant 0 <= l <= |pv|
      invariant triplets == Assemble(pv[..l], handleSet, boundary, mesh.adjacency, local)
      invariant pins == BoundaryPins(pv[..l], boundary, mesh.positions)
      invariant forall k :: 0 <= k < |pins| ==> pins[k].0 in local
    {
      var g := pv[l];
      assert pv[..l + 1][..l] == pv[..l];
      if g in handleSet || g in boundary {
        triplets := triplets + [Triplet(l, l, 1.0)];
        if g in boundary {
          pins := pins + [(g, mesh.positions[g])];
        }
      } else {
        var entries, degree := LaplacianRow(l, mesh.adjacency[g], local);
        triplets := triplets + (entries + [Triplet(l, l, degree as real)]);
      }
      l := l + 1;
    }
    assert pv[..l] == pv;
  }

  /** The inner loop of initLa for a free vertex: its in-sub-problem neighbours' -1
      entries and their count. */
  method LaplacianRow(i: nat, nbrs: seq<nat>, local: map<nat, nat>) returns (entries: seq<Triplet>, degree: nat)
    ensures entries == NeighbourEntries(i, nbrs, local)
    ensures degree == Degree(nbrs, local)
  {
    entries, degree := [], 0;
    var k := 0;
    while k < |nbrs|
      invariant 0 <= k <= |nbrs|
      invariant entries == NeighbourEntries(i, nbrs[..k], local)
      invariant degree == Degree(nbrs[..k], local)
    {
      assert nbrs[..k + 1][..k] == nbrs[..k];
      var g := nbrs[k];
      if g in local {
        entries := entries + [Triplet(i, local[g], -1.0)];
        degree := degree + 1;
      }
      k := k + 1;
    }
    assert nbrs[..k] == nbrs;
  }

  /** The right-hand side of an InitLa result: a boundary vertex's entry is its rest
      position, a handle's entry its last target, and every other entry (free vertex, or
      handle without a target) is 0. */
  lemma RhsEntries(sa: seq<nat>, sb: seq<nat>, local: map<nat, nat>, pins: seq<Pin>, positions: seq<Vec3>,
                   targets: seq<Update>, axis: nat, l: nat)
    requires IndexesOf(local, sa + sb)
    requires PinnedAt(pins, sb, positions)
    requires l < |sa| + |sb|
    ensures forall k :: 0 <= k < |pins| ==> pins[k].0 in local
    ensures var b := Rhs(|sa| + |sb|, local, targets, pins, axis);
      && (l >= |sa| ==> b[l] == Coord(positions[(sa + sb)[l]], axis))
      && (l < |sa| && (exists k :: 0 <= k < |targets| && targets[k].0 == sa[l]) ==>
            exists k :: 0 <= k < |targets| && targets[k].0 == sa[l] && b[l] == Coord(targets[k].1, axis)
              && forall k' :: k < k' < |targets| ==> targets[k'].0 != sa[l])
      && (l < |sa| && (forall k :: 0 <= k < |targets| ==> targets[k].0 != sa[l]) ==> b[l] == 0.0)
  {
    var pv := sa + sb;
    PinWritesMeaning(local, sa, sb, pins, positions, axis);
    HandleWritesMeaning(local, targets, axis, l);
    if l < |sa| {
      assert pv[l] == sa[l];
      assert sa[l] in local && local[sa[l]] == l;
      forall k | 0 <= k < |targets| && targets[k].0 in local && local[targets[k].0] == l
        ensures targets[k].0 == sa[l]
      {
        assert pv[local[targets[k].0]] == targets[k].0;
      }
    } else {
      assert pv[l] == sb[l - |sa|];
    }
  }

  /** After initLa, the pins are exactly the boundary vertices in ascending order, each at
      its rest position. */
  lemma AssembledPins(positions: seq<Vec3>, active: set<nat>, boundary: set<nat>, pv: seq<nat>, pins: seq<Pin>)
    requires active !! boundary
    requires forall v :: v in active || v in boundary ==> v < |positions|
    requires pv == Ascending(active) + Ascending(boundary)
    requires forall k :: 0 <= k < |pv| ==> pv[k] < |positions|
    requires pins == BoundaryPins(pv, boundary, positions)
    ensures |pins| == |boundary|
    ensures PinnedAt(pins, Ascending(boundary), positions)
  {
    var sa, sb := Ascending(active), Ascending(boundary);
    AscendingSpec(active);
    AscendingSpec(boundary);
    forall k | 0 <= k < |sa| ensures sa[k] < |positions| && sa[k] !in boundary {
      assert sa[k] in active;
    }
    forall k | 0 <= k < |sb| ensures sb[k] < |positions| && sb[k] in boundary {
      assert sb[k] in sb;
    }
    PinsAreBoundary(sa, sb, boundary, positions);
  }
}
