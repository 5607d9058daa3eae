/** The host's tetrahedral mesh as the gizmos see it: vertex positions, per-vertex
    neighbour lists, tetrahedron corner indices and the vertex-to-tetrahedra incidence,
    plus the host's vertex-update call. */
module Mesh {
  import opened Geometry

  /** The four corner vertex ids of a tetrahedron (a uint4 in the scene). */
  datatype Tet = Tet(a: nat, b: nat, c: nat, d: nat) {
    function Corner(i: nat): nat
      requires i < 4
    {
      if i == 0 then a else if i == 1 then b else if i == 2 then c else d
    }
  }

  datatype Mesh = Mesh(
    positions: seq<Vec3>,          // vertices_cpu
    adjacency: seq<seq<nat>>,      // adjacency
    tets: seq<Tet>,                // indices_cpu
    vertexToTets: seq<seq<nat>>)   // vertex_to_tets
  {
    function VertexCount(): nat {
      |positions|
    }

    /** Every stored id refers to an existing vertex or tetrahedron. The incidence list
        may be shorter than the vertex list (initPBD checks its size before indexing it). */
    ghost predicate Valid() {
      && |adjacency| == |positions|
      && (forall v, u :: 0 <= v < |adjacency| && u in adjacency[v] ==> u < |positions|)
      && (forall t :: 0 <= t < |tets| ==> TetInRange(tets[t]))
      && (forall g, t :: 0 <= g < |vertexToTets| && t in vertexToTets[g] ==> t < |tets|)
    }

    ghost predicate TetInRange(t: Tet) {
      t.a < |positions| && t.b < |positions| && t.c < |positions| && t.d < |positions|
    }
  }

  /** One (vertex id, new position) write as passed to UpdateVertices. */
  type Update = (nat, Vec3)

  /** The positions after the writes of `updates`, applied in order (a later write to
      the same id wins; ids outside the vertex range are ignored). */
  function Applied(p: seq<Vec3>, updates: seq<Update>): (q: seq<Vec3>)
    ensures |q| == |p|
    decreases |updates|
  {
    if updates == [] then p
    else
      var q := Applied(p, updates[..|updates| - 1]);
      var (id, v) := updates[|updates| - 1];
      if id < |q| then q[id := v] else q
  }

  /** The id-to-position map that a list of writes leaves behind (last write wins). */
  function WrittenMap(updates: seq<Update>): map<nat, Vec3>
    decreases |updates|
  {
    if updates == [] then map[]
    else WrittenMap(updates[..|updates| - 1])[updates[|updates| - 1].0 := updates[|updates| - 1].1]
  }

  /** Write k is the last write to id g. */
  ghost predicate LastWriteAt(updates: seq<Update>, k: nat, g: nat) {
    && k < |updates| && updates[k].0 == g
    && forall k' :: k < k' < |updates| ==> updates[k'].0 != g
  }

  /** An id is in the written map exactly when some write names it, and then it maps
      to the position of the last write naming it. */
  lemma {:induction false} WrittenMapMeaning(updates: seq<Update>, g: nat)
    ensures g in WrittenMap(updates) <==> exists k :: 0 <= k < |updates| && updates[k].0 == g
    ensures g in WrittenMap(updates) ==>
      exists k: nat :: LastWriteAt(updates, k, g) && WrittenMap(updates)[g] == updates[k].1
    decreases |updates|
  {
    if updates != [] {
      var n := |updates| - 1;
      var init := updates[..n];
      WrittenMapMeaning(init, g);
      if updates[n].0 == g {
        assert LastWriteAt(updates, n, g);
      } else {
        if exists k :: 0 <= k < |updates| && updates[k].0 == g {
          var k :| 0 <= k < |updates| && updates[k].0 == g;
          assert init[k].0 == g;
        }
        if g in WrittenMap(init) {
          var k: nat :| LastWriteAt(init, k, g) && WrittenMap(init)[g] == init[k].1;
          assert LastWriteAt(updates, k, g);
        }
      }
    }
  }

  /** `p` with every id of `m` that is a vertex replaced by its mapped position. */
  function Overwrite(p: seq<Vec3>, m: map<nat, Vec3>): (q: seq<Vec3>)
    ensures |q| == |p|
  {
    seq(|p|, i requires 0 <= i < |p| => if i in m then m[i] else p[i])
  }

  /** Applying a list of writes is overwriting with the map it leaves behind, so only the
      final write to each id matters, whatever the order of the list. */
  lemma {:induction false} AppliedIsOverwrite(p: seq<Vec3>, updates: seq<Update>)
    ensures Applied(p, updates) == Overwrite(p, WrittenMap(updates))
    decreases |updates|
  {
    if updates != [] {
      var init := updates[..|updates| - 1];
      AppliedIsOverwrite(p, init);
    }
  }

  /** Host-side vertex storage; UpdateVertices writes the given positions in order
      (its GPU-side refresh is not part of this model). */
  class Scene {
    var positions: seq<Vec3>

    constructor (initial: seq<Vec3>)
      ensures positions == initial
    {
      positions := initial;
    }

    method UpdateVertices(updates: seq<Update>)
      modifies this
      ensures positions == Applied(old(positions), updates)
    {
      var i := 0;
      while i < |updates|
        invariant 0 <= i <= |updates|
        invariant positions == Applied(old(positions), updates[..i])
      {
        assert updates[..i + 1][..i] == updates[..i];
        var (id, v) := updates[i];
        if id < |positions| {
          positions := positions[id := v];
        }
        i := i + 1;
      }
      assert updates[..i] == updates;
    }
  }
}
