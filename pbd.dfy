/** initPBD and updatePBD (PBDMove.hpp): the simulation island around the handles, one
    particle per island vertex, one volume constraint per contained tetrahedron and one
    distance constraint per distinct edge, and the step that writes the handle targets,
    predicts, projects the distance constraints and commits the free particles. */
module Pbd {
  import opened Geometry
  import opened Mesh
  import opened Region
  import opened OrderedSet
  import opened PbdSolve

  /** The context's time step (context.dt, about 60 frames a second) and its number of
      solver rounds per update (context.solver_iterations); initPBD never changes them. */
  const Dt: real := 0.016
  const SolverIterations: nat := 16

  // ---------------------------------------------------------------- particles

  /** The particle initPBD creates for island vertex g at rest position pos: predicted
      where it is, at rest, and pinned (inverse mass 0) or free (inverse mass 1). */
  function Initial(g: nat, pos: Vec3, pinned: bool): Particle {
    Particle(g, pos, pos, Zero, if pinned then 0.0 else 1.0)
  }

  /** `local` maps every particle's global id to the particle's index, and nothing else. */
  ghost predicate IndexedBy(local: map<nat, nat>, ps: seq<Particle>) {
    && (forall l :: 0 <= l < |ps| ==> ps[l].globalIndex in local && local[ps[l].globalIndex] == l)
    && (forall g :: g in local ==> local[g] < |ps| && ps[local[g]].globalIndex == g)
  }

  /** The particle loop of initPBD: one particle per island vertex, in island order, and
      the global-to-local map filled alongside. */
  method MakeParticles(island: seq<nat>, pinned: set<nat>, positions: seq<Vec3>)
    returns (ps: seq<Particle>, local: map<nat, nat>)
    requires Distinct(island)
    requires forall k :: 0 <= k < |island| ==> island[k] < |positions|
    ensures |ps| == |island|
    ensures forall l :: 0 <= l < |ps| ==> ps[l] == Initial(island[l], positions[island[l]], island[l] in pinned)
    ensures IndexesOf(local, island) && IndexedBy(local, ps)
  {
    ps, local := [], map[];
    var l := 0;
    while l < |island|
      invariant 0 <= l <= |island| && |ps| == l
      invariant forall k :: 0 <= k < l ==> ps[k] == Initial(island[k], positions[island[k]], island[k] in pinned)
      invariant IndexesOf(local, island[..l])
    {
      var g := island[l];
      assert island[..l + 1] == island[..l] + [g];
      assert g !in local;
      local := local[g := l];
      ps := ps + [Initial(g, positions[g], g in pinned)];
      l := l + 1;
    }
    assert island[..l] == island;
  }

  // ---------------------------------------------------------------- constraints

  /** What the constraint loops of initPBD read: the mesh, the island's global-to-local
      map, the handles and the length function. */
  datatype Scope = Scope(mesh: Mesh, local: map<nat, nat>, handles: seq<nat>, norm: Vec3 -> real)
  {
    ghost predicate Ok() {
      && (forall g, t :: 0 <= g < |mesh.vertexToTets| && t in mesh.vertexToTets[g] ==> t < |mesh.tets|)
      && (forall j :: 0 <= j < |handles| ==> handles[j] < |mesh.positions|)
      && (forall g :: g in local ==> g < |mesh.positions|)
      && (forall g1, g2 :: g1 in local && g2 in local && local[g1] == local[g2] ==> g1 == g2)
    }
  }

  /** The state of the constraint loops: processed_tets, existing_edges and the two
      constraint lists. */
  datatype Build = Build(processed: set<nat>, edges: set<(nat, nat)>,
                         distance: seq<DistanceConstraint>, volume: seq<VolumeConstraint>)

  const NoConstraints: Build := Build({}, {}, [], [])

  /** An edge with its endpoints swapped into ascending order. */
  function Ordered(u: nat, v: nat): (e: (nat, nat))
    ensures e.0 <= e.1 && (e == (u, v) || e == (v, u))
  {
    if u > v then (v, u) else (u, v)
  }

  /** The distance constraint of the normalised edge e: between the endpoints' particles,
      at the rest-pose length, with the compliance of its mean distance to the nearest
      handle. */
  function EdgeConstraint(sc: Scope, e: (nat, nat)): DistanceConstraint
    requires sc.Ok() && e.0 in sc.local && e.1 in sc.local
  {
    var pos := sc.mesh.positions;
    DistanceConstraint(sc.local[e.0], sc.local[e.1], sc.norm(Sub(pos[e.0], pos[e.1])),
      Compliance(NearestMean(pos[e.0], pos[e.1], sc.handles, pos, sc.norm)))
  }

  /** All four corners of t are island vertices. */
  predicate AllIn(t: Tet, local: map<nat, nat>) {
    t.a in local && t.b in local && t.c in local && t.d in local
  }

  /** The volume constraint of a contained tetrahedron: its corners' particles, in corner
      order, at the rest-pose signed volume. */
  function TetVolume(sc: Scope, t: Tet): VolumeConstraint
    requires sc.Ok() && AllIn(t, sc.local)
  {
    var pos := sc.mesh.positions;
    VolumeConstraint(sc.local[t.a], sc.local[t.b], sc.local[t.c], sc.local[t.d],
      SignedVolumeOfTet(pos[t.a], pos[t.b], pos[t.c], pos[t.d]))
  }

  lemma CornersIn(t: Tet, local: map<nat, nat>)
    requires AllIn(t, local)
    ensures forall i :: 0 <= i < 4 ==> t.Corner(i) in local
  {
  }

  /** One edge of the inner loop: a new normalised edge gets its constraint and is
      recorded; a known one is skipped. */
  function AddEdge(sc: Scope, b: Build, u: nat, v: nat): Build
    requires sc.Ok() && u in sc.local && v in sc.local
  {
    var e := Ordered(u, v);
    if e in b.edges then b
    else b.(distance := b.distance + [EdgeConstraint(sc, e)], edges := b.edges + {e})
  }

  // ---------------------------------------------------------------- what the loops keep

  function Endpoints(c: DistanceConstraint): (nat, nat) {
    (c.p1, c.p2)
  }

  /** Distance constraint k was built from the recorded normalised edge edgeOf[k]
      between two island vertices. */
  ghost predicate EdgeEntry(sc: Scope, b: Build, edgeOf: seq<(nat, nat)>, k: int)
    requires sc.Ok()
  {
    && 0 <= k < |edgeOf| && k < |b.distance|
    && edgeOf[k] in b.edges && edgeOf[k].0 <= edgeOf[k].1
    && edgeOf[k].0 in sc.local && edgeOf[k].1 in sc.local
    && b.distance[k] == EdgeConstraint(sc, edgeOf[k])
  }

  /** A recorded edge has its constraint. */
  ghost predicate EdgeListed(edges: set<(nat, nat)>, edgeOf: seq<(nat, nat)>, e: (nat, nat)) {
    e in edges ==> e in edgeOf
  }

  /** Positions i and j of s hold different values. */
  ghost predicate Apart<T>(s: seq<T>, i: int, j: int) {
    0 <= i < j < |s| ==> s[i] != s[j]
  }

  /** The edge bookkeeping, with edgeOf[k] the normalised edge distance constraint k was
      built from: existing_edges holds exactly these edges, each once, all between island
      vertices. */
  ghost predicate EdgesSound(sc: Scope, b: Build, edgeOf: seq<(nat, nat)>)
    requires sc.Ok()
  {
    && |edgeOf| == |b.distance|
    && (forall k :: 0 <= k < |edgeOf| ==> EdgeEntry(sc, b, edgeOf, k))
    && (forall e :: EdgeListed(b.edges, edgeOf, e))
    && (forall i, j :: Apart(edgeOf, i, j))
  }

  /** All six edges of t are recorded. */
  ghost predicate EdgesIn(t: Tet, edges: set<(nat, nat)>) {
    forall i, j :: 0 <= i < j < 4 ==> Ordered(t.Corner(i), t.Corner(j)) in edges
  }

  /** Volume constraint k was built from tetOf[k], a processed tetrahedron contained in
      the island. */
  ghost predicate TetEntry(sc: Scope, b: Build, tetOf: seq<nat>, k: int)
    requires sc.Ok()
  {
    && 0 <= k < |tetOf| && k < |b.volume|
    && tetOf[k] in b.processed && tetOf[k] < |sc.mesh.tets| && AllIn(sc.mesh.tets[tetOf[k]], sc.local)
    && b.volume[k] == TetVolume(sc, sc.mesh.tets[tetOf[k]])
  }

  /** A processed tetrahedron has its volume constraint and all six edges recorded. */
  ghost predicate TetListed(sc: Scope, b: Build, tetOf: seq<nat>, ti: nat) {
    ti in b.processed ==> ti in tetOf && ti < |sc.mesh.tets| && EdgesIn(sc.mesh.tets[ti], b.edges)
  }

  /** The tetrahedron bookkeeping, with tetOf[k] the tetrahedron volume constraint k was
      built from: processed_tets holds exactly these, each once, each contained in the
      island and with all six edges recorded. */
  ghost predicate TetsSound(sc: Scope, b: Build, tetOf: seq<nat>)
    requires sc.Ok()
  {
    && |tetOf| == |b.volume|
    && (forall k :: 0 <= k < |tetOf| ==> TetEntry(sc, b, tetOf, k))
    && (forall ti :: TetListed(sc, b, tetOf, ti))
    && (forall i, j :: Apart(tetOf, i, j))
  }

  ghost predicate Sound(sc: Scope, b: Build, edgeOf: seq<(nat, nat)>, tetOf: seq<nat>)
    requires sc.Ok()
  {
    EdgesSound(sc, b, edgeOf) && TetsSound(sc, b, tetOf)
  }

  /** Every contained tetrahedron incident to g (when the incidence list reaches g) is
      processed. */
  ghost predicate Covered(sc: Scope, g: nat, processed: set<nat>)
    requires sc.Ok()
  {
    g < |sc.mesh.vertexToTets| ==>
      forall ti :: ti in sc.mesh.vertexToTets[g] && ti < |sc.mesh.tets| && AllIn(sc.mesh.tets[ti], sc.local) ==>
        ti in processed
  }

  /** Adding one edge keeps the edge bookkeeping, with the new edge appended to edgeOf
      exactly when it was not yet recorded. */
  lemma AddEdgeSound(sc: Scope, b: Build, edgeOf: seq<(nat, nat)>, u: nat, v: nat)
    requires sc.Ok() && u in sc.local && v in sc.local && EdgesSound(sc, b, edgeOf)
    ensures var r := AddEdge(sc, b, u, v);
      && EdgesSound(sc, r, if Ordered(u, v) in b.edges then edgeOf else edgeOf + [Ordered(u, v)])
      && Ordered(u, v) in r.edges && b.edges <= r.edges
      && r.processed == b.processed && r.volume == b.volume
  {
    var e := Ordered(u, v);
    if e in b.edges {
      assert EdgeListed(b.edges, edgeOf, e);
    } else {
      var r := AddEdge(sc, b, u, v);
      var eo := edgeOf + [e];
      forall k | 0 <= k < |eo| ensures EdgeEntry(sc, r, eo, k) {
        if k < |edgeOf| {
          assert EdgeEntry(sc, b, edgeOf, k);
        }
      }
      forall e' ensures EdgeListed(r.edges, eo, e') {
        assert EdgeListed(b.edges, edgeOf, e');
        if e' in b.edges {
          var k :| 0 <= k < |edgeOf| && edgeOf[k] == e';
          assert eo[k] == e';
        } else {
          assert eo[|edgeOf|] == e;
        }
      }
      forall i, j ensures Apart(eo, i, j) {
        assert Apart(edgeOf, i, j);
        if 0 <= i < j == |edgeOf| {
          assert eo[i] == edgeOf[i];
          assert EdgeEntry(sc, b, edgeOf, i);
        }
      }
    }
  }

  /** The edge bookkeeping reads only the edges and the distance constraints. */
  lemma EdgesSoundFrame(sc: Scope, b: Build, b1: Build, edgeOf: seq<(nat, nat)>)
    requires sc.Ok() && EdgesSound(sc, b, edgeOf) && b1.edges == b.edges && b1.distance == b.distance
    ensures EdgesSound(sc, b1, edgeOf)
  {
    forall k | 0 <= k < |edgeOf| ensures EdgeEntry(sc, b1, edgeOf, k) {
      assert EdgeEntry(sc, b, edgeOf, k);
    }
    forall e ensures EdgeListed(b1.edges, edgeOf, e) {
      assert EdgeListed(b.edges, edgeOf, e);
    }
  }

  /** No two distance constraints join the same two particles, in either order: their
      normalised edges differ and the island's indices are one-to-one. */
  lemma EndpointsDistinct(sc: Scope, b: Build, edgeOf: seq<(nat, nat)>)
    requires sc.Ok() && EdgesSound(sc, b, edgeOf)
    ensures forall i, j :: 0 <= i < j < |b.distance| ==>
      && Endpoints(b.distance[i]) != Endpoints(b.distance[j])
      && Endpoints(b.distance[i]) != (b.distance[j].p2, b.distance[j].p1)
  {
    forall i, j | 0 <= i < j < |b.distance|
      ensures Endpoints(b.distance[i]) != Endpoints(b.distance[j])
      ensures Endpoints(b.distance[i]) != (b.distance[j].p2, b.distance[j].p1)
    {
      assert EdgeEntry(sc, b, edgeOf, i) && EdgeEntry(sc, b, edgeOf, j);
      assert Apart(edgeOf, i, j);
    }
  }

  lemma EdgesInGrows(t: Tet, e1: set<(nat, nat)>, e2: set<(nat, nat)>)
    requires EdgesIn(t, e1) && e1 <= e2
    ensures EdgesIn(t, e2)
  {
  }

  /** The last step of processing a contained tetrahedron: with its volume constraint
      appended and its edges recorded, marking it processed restores the bookkeeping. */
  lemma TetMarked(sc: Scope, b: Build, tetOf: seq<nat>, b1: Build, ti: nat)
    requires sc.Ok() && ti < |sc.mesh.tets| && TetsSound(sc, b, tetOf)
    requires ti !in b.processed && AllIn(sc.mesh.tets[ti], sc.local)
    requires b1.volume == b.volume + [TetVolume(sc, sc.mesh.tets[ti])] && b1.processed == b.processed
    requires b.edges <= b1.edges && EdgesIn(sc.mesh.tets[ti], b1.edges)
    ensures TetsSound(sc, b1.(processed := b1.processed + {ti}), tetOf + [ti])
  {
    var r := b1.(processed := b1.processed + {ti});
    var to := tetOf + [ti];
    forall k | 0 <= k < |to| ensures TetEntry(sc, r, to, k) {
      if k < |tetOf| {
        assert TetEntry(sc, b, tetOf, k);
      }
    }
    forall ti': nat ensures TetListed(sc, r, to, ti') {
      assert TetListed(sc, b, tetOf, ti');
      if ti' in b.processed {
        var k :| 0 <= k < |tetOf| && tetOf[k] == ti';
        assert to[k] == ti';
        EdgesInGrows(sc.mesh.tets[ti'], b.edges, r.edges);
      } else if ti' == ti {
        assert to[|tetOf|] == ti;
      }
    }
    forall i, j ensures Apart(to, i, j) {
      assert Apart(tetOf, i, j);
      if 0 <= i < j == |tetOf| {
        assert to[i] == tetOf[i];
        assert TetEntry(sc, b, tetOf, i);
      }
    }
  }

  lemma CoveredGrows(sc: Scope, g: nat, p1: set<nat>, p2: set<nat>)
    requires sc.Ok() && Covered(sc, g, p1) && p1 <= p2
    ensures Covered(sc, g, p2)
  {
  }

  // ---------------------------------------------------------------- the constraint loops

  /** The handle loop: k_x, the least mean distance to a handle, starting from 9999. */
  method NearestHandleMean(u: Vec3, v: Vec3, handles: seq<nat>, positions: seq<Vec3>, norm: Vec3 -> real)
    returns (k: real)
    requires forall j :: 0 <= j < |handles| ==> handles[j] < |positions|
    ensures k == NearestMean(u, v, handles, positions, norm)
  {
    k := 9999.0;
    var j := 0;
    while j < |handles|
      invariant 0 <= j <= |handles|
      invariant k == NearestMean(u, v, handles[..j], positions, norm)
    {
      assert handles[..j + 1][..j] == handles[..j];
      var m := Mean(u, v, positions[handles[j]], norm);
      k := if m < k then m else k;
      j := j + 1;
    }
    assert handles[..j] == handles;
  }

  /** The inner edge step of initPBD: normalise the edge, skip it when recorded, else
      compute k_x and the compliance and append the constraint. */
  method InsertEdge(sc: Scope, b: Build, u0: nat, v0: nat) returns (r: Build)
    requires sc.Ok() && u0 in sc.local && v0 in sc.local
    ensures r == AddEdge(sc, b, u0, v0)
  {
    var u, v := u0, v0;
    if u > v {
      u, v := v, u;
    }
    assert Ordered(u0, v0) == (u, v);
    if (u, v) in b.edges {
      return b;
    }
    var pos := sc.mesh.positions;
    var kx := NearestHandleMean(pos[u], pos[v], sc.handles, pos, sc.norm);
    var alpha := 0.01;
    if kx < 0.05 {
      alpha := 0.0001;
    }
    var c := DistanceConstraint(sc.local[u], sc.local[v], sc.norm(Sub(pos[u], pos[v])), alpha);
    r := b.(distance := b.distance + [c], edges := b.edges + {(u, v)});
  }

  /** One incident tetrahedron: skipped when already processed or not contained in the
      island; otherwise its volume constraint and its new edges are added and it is
      marked processed. */
  method ProcessTet(sc: Scope, b: Build, ghost edgeOf: seq<(nat, nat)>, ghost tetOf: seq<nat>, ti: nat)
    returns (r: Build, ghost edgeOf': seq<(nat, nat)>, ghost tetOf': seq<nat>)
    requires sc.Ok() && ti < |sc.mesh.tets| && Sound(sc, b, edgeOf, tetOf)
    ensures Sound(sc, r, edgeOf', tetOf') && b.processed <= r.processed
    ensures ti in b.processed || !AllIn(sc.mesh.tets[ti], sc.local) ==> r == b
    ensures r.processed == if AllIn(sc.mesh.tets[ti], sc.local) then b.processed + {ti} else b.processed
  {
    if ti in b.processed {
      assert b.processed + {ti} == b.processed;
      return b, edgeOf, tetOf;
    }
    var t := sc.mesh.tets[ti];
    if !AllIn(t, sc.local) {
      return b, edgeOf, tetOf;
    }
    CornersIn(t, sc.local);
    var pos := sc.mesh.positions;
    var vc := VolumeConstraint(sc.local[t.a], sc.local[t.b], sc.local[t.c], sc.local[t.d],
      SignedVolumeOfTet(pos[t.a], pos[t.b], pos[t.c], pos[t.d]));
    assert vc == TetVolume(sc, t);
    r := b.(volume := b.volume + [vc]);
    EdgesSoundFrame(sc, b, r, edgeOf);
    edgeOf' := edgeOf;
    var i := 0;
    while i < 4
      invariant 0 <= i <= 4
      invariant EdgesSound(sc, r, edgeOf') && b.edges <= r.edges
      invariant r.processed == b.processed && r.volume == b.volume + [vc]
      invariant forall i', j' :: 0 <= i' < i && i' < j' < 4 ==> Ordered(t.Corner(i'), t.Corner(j')) in r.edges
    {
      var j := i + 1;
      while j < 4
        invariant i < j <= 4
        invariant EdgesSound(sc, r, edgeOf') && b.edges <= r.edges
        invariant r.processed == b.processed && r.volume == b.volume + [vc]
        invariant forall i', j' :: 0 <= i' < i && i' < j' < 4 ==> Ordered(t.Corner(i'), t.Corner(j')) in r.edges
        invariant forall j' :: i < j' < j ==> Ordered(t.Corner(i), t.Corner(j')) in r.edges
      {
        AddEdgeSound(sc, r, edgeOf', t.Corner(i), t.Corner(j));
        if Ordered(t.Corner(i), t.Corner(j)) !in r.edges {
          edgeOf' := edgeOf' + [Ordered(t.Corner(i), t.Corner(j))];
        }
        r := InsertEdge(sc, r, t.Corner(i), t.Corner(j));
        j := j + 1;
      }
      i := i + 1;
    }
    TetMarked(sc, b, tetOf, r, ti);
    EdgesSoundFrame(sc, r, r.(processed := r.processed + {ti}), edgeOf');
    r := r.(processed := r.processed + {ti});
    tetOf' := tetOf + [ti];
  }

  /** The loop over one island vertex's incident tetrahedra: afterwards every contained
      one is processed, and nothing outside the list has been. */
  method VisitTets(sc: Scope, b: Build, ghost edgeOf: seq<(nat, nat)>, ghost tetOf: seq<nat>, ts: seq<nat>)
    returns (r: Build, ghost edgeOf': seq<(nat, nat)>, ghost tetOf': seq<nat>)
    requires sc.Ok() && (forall k :: 0 <= k < |ts| ==> ts[k] < |sc.mesh.tets|) && Sound(sc, b, edgeOf, tetOf)
    ensures Sound(sc, r, edgeOf', tetOf') && b.processed <= r.processed
    ensures forall k :: 0 <= k < |ts| && AllIn(sc.mesh.tets[ts[k]], sc.local) ==> ts[k] in r.processed
    ensures forall ti :: ti in r.processed ==> ti in b.processed || ti in ts
  {
    r, edgeOf', tetOf' := b, edgeOf, tetOf;
    var k := 0;
    while k < |ts|
      invariant 0 <= k <= |ts|
      invariant Sound(sc, r, edgeOf', tetOf') && b.processed <= r.processed
      invariant forall j :: 0 <= j < k && AllIn(sc.mesh.tets[ts[j]], sc.local) ==> ts[j] in r.processed
      invariant forall ti :: ti in r.processed ==> ti in b.processed || ti in ts[..k]
    {
      assert ts[..k + 1] == ts[..k] + [ts[k]];
      r, edgeOf', tetOf' := ProcessTet(sc, r, edgeOf', tetOf', ts[k]);
      k := k + 1;
    }
    assert ts[..k] == ts;
  }

  /** Island vertex k's incidence list lists tetrahedron ti. */
  ghost predicate IncidentTo(sc: Scope, island: seq<nat>, ti: nat) {
    exists k :: 0 <= k < |island| && island[k] < |sc.mesh.vertexToTets| && ti in sc.mesh.vertexToTets[island[k]]
  }

  /** Step 3 of initPBD: the constraints of the island. Afterwards the bookkeeping is
      sound, every contained tetrahedron incident to an island vertex is processed, and
      only such tetrahedra are. */
  method BuildConstraints(sc: Scope, island: seq<nat>)
    returns (r: Build, ghost edgeOf: seq<(nat, nat)>, ghost tetOf: seq<nat>)
    requires sc.Ok()
    ensures Sound(sc, r, edgeOf, tetOf)
    ensures forall k :: 0 <= k < |island| ==> Covered(sc, island[k], r.processed)
    ensures forall ti :: ti in r.processed ==> IncidentTo(sc, island, ti)
  {
    r, edgeOf, tetOf := NoConstraints, [], [];
    var k := 0;
    while k < |island|
      invariant 0 <= k <= |island|
      invariant Sound(sc, r, edgeOf, tetOf)
      invariant forall j :: 0 <= j < k ==> Covered(sc, island[j], r.processed)
      invariant forall ti :: ti in r.processed ==> IncidentTo(sc, island[..k], ti)
    {
      var g := island[k];
      ghost var before := r.processed;
      if g < |sc.mesh.vertexToTets| {
        var ts := sc.mesh.vertexToTets[g];
        assert forall j :: 0 <= j < |ts| ==> ts[j] < |sc.mesh.tets| by {
          forall j | 0 <= j < |ts| ensures ts[j] < |sc.mesh.tets| {
            assert ts[j] in sc.mesh.vertexToTets[g];
          }
        }
        r, edgeOf, tetOf := VisitTets(sc, r, edgeOf, tetOf, ts);
        forall ti | ti in ts && ti < |sc.mesh.tets| && AllIn(sc.mesh.tets[ti], sc.local) ensures ti in r.processed {
          var j :| 0 <= j < |ts| && ts[j] == ti;
        }
      }
      forall j | 0 <= j < k ensures Covered(sc, island[j], r.processed) {
        CoveredGrows(sc, island[j], before, r.processed);
      }
      forall ti | ti in r.processed ensures IncidentTo(sc, island[..k + 1], ti) {
        if ti in before {
          var j :| 0 <= j < k && island[..k][j] < |sc.mesh.vertexToTets| && ti in sc.mesh.vertexToTets[island[..k][j]];
          assert island[..k + 1][j] == island[..k][j];
        } else {
          assert island[..k + 1][k] == g;
        }
      }
      k := k + 1;
    }
    assert island[..k] == island;
  }

  /** The constraints reach only particles 0..n-1, and every compliance is non-negative. */
  ghost predicate Projectable(cs: seq<DistanceConstraint>, n: nat) {
    forall k :: 0 <= k < |cs| ==> cs[k].p1 < n && cs[k].p2 < n && cs[k].alpha >= 0.0
  }

  ghost predicate VolumesIn(vs: seq<VolumeConstraint>, n: nat) {
    forall k :: 0 <= k < |vs| ==> vs[k].p1 < n && vs[k].p2 < n && vs[k].p3 < n && vs[k].p4 < n
  }

  /** Sound bookkeeping over a one-to-one numbering below n yields constraints that stay
      within the n particles, with the compliances 0.0001 and 0.01. */
  lemma ConstraintsInRange(sc: Scope, b: Build, edgeOf: seq<(nat, nat)>, tetOf: seq<nat>, n: nat)
    requires sc.Ok() && Sound(sc, b, edgeOf, tetOf)
    requires forall g :: g in sc.local ==> sc.local[g] < n
    ensures Projectable(b.distance, n) && VolumesIn(b.volume, n)
    ensures forall k :: 0 <= k < |b.distance| ==> b.distance[k].alpha == 0.0001 || b.distance[k].alpha == 0.01
  {
    forall k | 0 <= k < |b.distance|
      ensures b.distance[k].p1 < n && b.distance[k].p2 < n
      ensures b.distance[k].alpha == 0.0001 || b.distance[k].alpha == 0.01
    {
      assert EdgeEntry(sc, b, edgeOf, k);
    }
    forall k | 0 <= k < |b.volume|
      ensures b.volume[k].p1 < n && b.volume[k].p2 < n && b.volume[k].p3 < n && b.volume[k].p4 < n
    {
      assert TetEntry(sc, b, tetOf, k);
    }
  }

  // ---------------------------------------------------------------- initPBD

  /** The particles and the map of initPBD for the island: particle l is island vertex
      l at its rest position, pinned exactly when it is a handle or a boundary vertex. */
  ghost predicate Populated(positions: seq<Vec3>, pinned: set<nat>, island: seq<nat>, ps: seq<Particle>, local: map<nat, nat>)
  {
    && (forall k :: 0 <= k < |island| ==> island[k] < |positions|)
    && |ps| == |island|
    && (forall l :: 0 <= l < |ps| ==> ps[l] == Initial(island[l], positions[island[l]], island[l] in pinned))
    && IndexesOf(local, island)
  }

  /** The constraints of initPBD for the island: sound bookkeeping that covers every
      contained tetrahedron incident to the island, and nothing else. */
  ghost predicate Constrained(sc: Scope, island: seq<nat>, b: Build, edgeOf: seq<(nat, nat)>, tetOf: seq<nat>)
  {
    && sc.Ok()
    && Sound(sc, b, edgeOf, tetOf)
    && (forall k :: 0 <= k < |island| ==> Covered(sc, island[k], b.processed))
    && (forall ti :: ti in b.processed ==> IncidentTo(sc, island, ti))
  }

  /** The ghost record initPBD leaves behind: the region of the search with its search
      order, and the constraint bookkeeping with its witness lists. */
  datatype Setup = Setup(active: set<nat>, boundary: set<nat>, order: seq<nat>, build: Build,
                         edgeOf: seq<(nat, nat)>, tetOf: seq<nat>)

  /** What initPBD leaves behind for non-empty handles: the region of the search, and
      the island (its active and boundary vertices, handles included, ascending) as
      particles and constraints. */
  ghost predicate Prepared(mesh: Mesh, handles: seq<nat>, radius: real, norm: Vec3 -> real,
                           s: Setup, ps: seq<Particle>, local: map<nat, nat>)
  {
    && IsRegion(mesh, handles, radius, s.active, s.boundary, s.order)
    && Populated(mesh.positions, HandleSet(handles) + s.boundary, Ascending(s.active + s.boundary), ps, local)
    && Constrained(Scope(mesh, local, handles, norm), Ascending(s.active + s.boundary), s.build, s.edgeOf, s.tetOf)
  }

  /** Steps 2 and 3 of initPBD once the island is known. */
  method Populate(mesh: Mesh, handles: seq<nat>, norm: Vec3 -> real, pinned: set<nat>, island: seq<nat>)
    returns (ps: seq<Particle>, local: map<nat, nat>, b: Build, ghost edgeOf: seq<(nat, nat)>, ghost tetOf: seq<nat>)
    requires forall g, t :: 0 <= g < |mesh.vertexToTets| && t in mesh.vertexToTets[g] ==> t < |mesh.tets|
    requires forall j :: 0 <= j < |handles| ==> handles[j] < |mesh.positions|
    requires Distinct(island) && forall k :: 0 <= k < |island| ==> island[k] < |mesh.positions|
    ensures Populated(mesh.positions, pinned, island, ps, local)
    ensures Constrained(Scope(mesh, local, handles, norm), island, b, edgeOf, tetOf)
    ensures IndexedBy(local, ps) && Projectable(b.distance, |ps|) && VolumesIn(b.volume, |ps|)
  {
    ps, local := MakeParticles(island, pinned, mesh.positions);
    var sc := Scope(mesh, local, handles, norm);
    b, edgeOf, tetOf := BuildConstraints(sc, island);
    ConstraintsInRange(sc, b, edgeOf, tetOf, |ps|);
  }

  /** Steps 1-3 of initPBD for non-empty handles. */
  method Prepare(mesh: Mesh, handles: seq<nat>, radius: real, norm: Vec3 -> real)
    returns (ghost s: Setup, ps: seq<Particle>, local: map<nat, nat>, b: Build)
    requires mesh.Valid() && radius > 0.0
    requires forall h :: h in handles ==> h < |mesh.positions|
    ensures Prepared(mesh, handles, radius, norm, s, ps, local) && s.build == b
    ensures IndexedBy(local, ps) && Projectable(b.distance, |ps|) && VolumesIn(b.volume, |ps|)
  {
    var active, boundary, order := Discover(mesh, handles, radius);
    var island := ToAscending(active + boundary);
    IslandInRange(active + boundary, |mesh.positions|);
    HandlesInRange(mesh.positions, handles);
    ghost var edgeOf, tetOf;
    ps, local, b, edgeOf, tetOf := Populate(mesh, handles, norm, HandleSet(handles) + boundary, island);
    s := Setup(active, boundary, order, b, edgeOf, tetOf);
  }

  /** The island lists distinct vertices of the mesh. */
  lemma IslandInRange(island: set<nat>, n: nat)
    requires forall v :: v in island ==> v < n
    ensures Distinct(Ascending(island))
    ensures forall k :: 0 <= k < |Ascending(island)| ==> Ascending(island)[k] < n
  {
    AscendingSpec(island);
    forall k | 0 <= k < |Ascending(island)| ensures Ascending(island)[k] < n {
      assert Ascending(island)[k] in Ascending(island);
    }
  }

  lemma HandlesInRange(positions: seq<Vec3>, handles: seq<nat>)
    requires forall h :: h in handles ==> h < |positions|
    ensures forall j :: 0 <= j < |handles| ==> handles[j] < |positions|
  {
    forall j | 0 <= j < |handles| ensures handles[j] < |positions| {
      assert handles[j] in handles;
    }
  }

  // ---------------------------------------------------------------- updatePBD

  /** Step 1 of updatePBD, the handle targets written in order: a target for a vertex of
      the island moves its particle, any other target is ignored. */
  function WriteHandles(ps: seq<Particle>, local: map<nat, nat>, targets: seq<Update>): (r: seq<Particle>)
    ensures |r| == |ps|
    decreases |targets|
  {
    if targets == [] then ps
    else
      var r := WriteHandles(ps, local, targets[..|targets| - 1]);
      var (g, p) := targets[|targets| - 1];
      if g in local && local[g] < |r| then r[local[g] := r[local[g]].(position := p)] else r
  }

  /** Where particle p starts the step: at the last target written for its vertex, or
      where it was. */
  function Start(p: Particle, targets: seq<Update>): Vec3 {
    var m := WrittenMap(targets);
    if p.globalIndex in m then m[p.globalIndex] else p.position
  }

  /** Step 2 for one particle: a free particle predicts along its velocity over the
      context's time step, a pinned one predicts where it is. */
  function Predict(p: Particle): Particle {
    if p.inverseMass > 0.0 then p.(predicted := Add(p.position, Scale(p.velocity, Dt)))
    else p.(predicted := p.position)
  }

  function PredictAll(ps: seq<Particle>): (r: seq<Particle>)
    ensures |r| == |ps|
  {
    seq(|ps|, l requires 0 <= l < |ps| => Predict(ps[l]))
  }

  /** One solver round: every distance constraint projected once, in list order. */
  function ProjectAll(ps: seq<Particle>, cs: seq<DistanceConstraint>, dt: real, norm: Vec3 -> real): (r: seq<Particle>)
    requires Projectable(cs, |ps|) && dt != 0.0
    ensures |r| == |ps|
    decreases |cs|
  {
    if cs == [] then ps
    else ProjectDistance(ProjectAll(ps, cs[..|cs| - 1], dt, norm), cs[|cs| - 1], dt, norm)
  }

  /** Step 3: `rounds` solver rounds. */
  function Iterate(ps: seq<Particle>, cs: seq<DistanceConstraint>, rounds: nat, dt: real, norm: Vec3 -> real): (r: seq<Particle>)
    requires Projectable(cs, |ps|) && dt != 0.0
    ensures |r| == |ps|
  {
    if rounds == 0 then ps else ProjectAll(Iterate(ps, cs, rounds - 1, dt, norm), cs, dt, norm)
  }

  /** Step 4 for one particle: a free particle moves to its prediction and takes the
      displacement over the time step as its velocity; a pinned one is left as it is. */
  function Commit(p: Particle): Particle {
    if p.inverseMass > 0.0 then p.(velocity := Scale(Sub(p.predicted, p.position), 1.0 / Dt), position := p.predicted)
    else p
  }

  function CommitAll(ps: seq<Particle>): (r: seq<Particle>)
    ensures |r| == |ps|
  {
    seq(|ps|, l requires 0 <= l < |ps| => Commit(ps[l]))
  }

  /** The particles after one updatePBD. */
  function Step(ps: seq<Particle>, local: map<nat, nat>, cs: seq<DistanceConstraint>, targets: seq<Update>,
                dt: real, norm: Vec3 -> real): (r: seq<Particle>)
    requires Projectable(cs, |ps|) && dt != 0.0
    ensures |r| == |ps|
  {
    CommitAll(Iterate(PredictAll(WriteHandles(ps, local, targets)), cs, SolverIterations, dt, norm))
  }

  /** Writing the targets changes only positions, and each particle ends up at its
      vertex's last target, or where it was when none was written. */
  lemma {:induction false} WriteHandlesMeaning(ps: seq<Particle>, local: map<nat, nat>, targets: seq<Update>)
    requires IndexedBy(local, ps)
    ensures var r := WriteHandles(ps, local, targets);
      forall l :: 0 <= l < |ps| ==> r[l] == ps[l].(position := Start(ps[l], targets))
    decreases |targets|
  {
    if targets != [] {
      var n := |targets| - 1;
      WriteHandlesMeaning(ps, local, targets[..n]);
      var (g, p) := targets[n];
      assert WrittenMap(targets) == WrittenMap(targets[..n])[g := p];
      var r := WriteHandles(ps, local, targets);
      forall l | 0 <= l < |ps| ensures r[l] == ps[l].(position := Start(ps[l], targets)) {
        if ps[l].globalIndex == g {
          assert local[g] == l;
        } else if g in local {
          assert ps[local[g]].globalIndex == g;
        }
      }
    }
  }

  lemma PredictedOnlyTrans(a: seq<Particle>, b: seq<Particle>, c: seq<Particle>)
    requires PredictedOnly(a, b) && PredictedOnly(b, c)
    ensures PredictedOnly(a, c)
  {
    forall l | 0 <= l < |a| ensures c[l] == a[l].(predicted := c[l].predicted) {
      assert b[l] == a[l].(predicted := b[l].predicted);
    }
  }

  /** A solver round changes only predicted positions, and none of a pinned particle. */
  lemma {:induction false} ProjectAllFrame(ps: seq<Particle>, cs: seq<DistanceConstraint>, dt: real, norm: Vec3 -> real)
    requires Projectable(cs, |ps|) && dt != 0.0
    ensures PredictedOnly(ps, ProjectAll(ps, cs, dt, norm))
    decreases |cs|
  {
    if cs != [] {
      var n := |cs| - 1;
      var q := ProjectAll(ps, cs[..n], dt, norm);
      ProjectAllFrame(ps, cs[..n], dt, norm);
      ProjectDistanceFrame(q, cs[n], dt, norm);
      PredictedOnlyTrans(ps, q, ProjectAll(ps, cs, dt, norm));
    }
  }

  lemma {:induction false} IterateFrame(ps: seq<Particle>, cs: seq<DistanceConstraint>, rounds: nat, dt: real, norm: Vec3 -> real)
    requires Projectable(cs, |ps|) && dt != 0.0
    ensures PredictedOnly(ps, Iterate(ps, cs, rounds, dt, norm))
  {
    if rounds > 0 {
      var q := Iterate(ps, cs, rounds - 1, dt, norm);
      IterateFrame(ps, cs, rounds - 1, dt, norm);
      ProjectAllFrame(q, cs, dt, norm);
      PredictedOnlyTrans(ps, q, Iterate(ps, cs, rounds, dt, norm));
    }
  }

  /** With no constraints the solver rounds change nothing. */
  lemma {:induction false} IterateNothing(ps: seq<Particle>, rounds: nat, dt: real, norm: Vec3 -> real)
    requires dt != 0.0
    ensures Iterate(ps, [], rounds, dt, norm) == ps
  {
    if rounds > 0 {
      IterateNothing(ps, rounds - 1, dt, norm);
    }
  }

  /** An update keeps every particle's vertex and inverse mass, so the numbering stays
      valid. */
  lemma StepKeepsBodies(ps: seq<Particle>, local: map<nat, nat>, cs: seq<DistanceConstraint>, targets: seq<Update>,
                        dt: real, norm: Vec3 -> real)
    requires IndexedBy(local, ps) && Projectable(cs, |ps|) && dt != 0.0
    ensures var r := Step(ps, local, cs, targets, dt, norm);
      forall l :: 0 <= l < |ps| ==> r[l].globalIndex == ps[l].globalIndex && r[l].inverseMass == ps[l].inverseMass
    ensures IndexedBy(local, Step(ps, local, cs, targets, dt, norm))
  {
    var w := PredictAll(WriteHandles(ps, local, targets));
    WriteHandlesMeaning(ps, local, targets);
    IterateFrame(w, cs, SolverIterations, dt, norm);
  }

  /** A pinned particle (handle or boundary vertex) ends the update at its vertex's last
      target, or where it was, with its velocity untouched and its prediction there too. */
  lemma StepPinned(ps: seq<Particle>, local: map<nat, nat>, cs: seq<DistanceConstraint>, targets: seq<Update>,
                   dt: real, norm: Vec3 -> real, l: nat)
    requires IndexedBy(local, ps) && Projectable(cs, |ps|) && dt != 0.0
    requires l < |ps| && ps[l].inverseMass == 0.0
    ensures var r := Step(ps, local, cs, targets, dt, norm);
      r[l] == ps[l].(position := Start(ps[l], targets), predicted := Start(ps[l], targets))
  {
    var w := PredictAll(WriteHandles(ps, local, targets));
    WriteHandlesMeaning(ps, local, targets);
    IterateFrame(w, cs, SolverIterations, dt, norm);
  }

  /** A free particle ends the update at its solved prediction, and its new velocity is
      its displacement from where the step started, over the time step. */
  lemma StepFree(ps: seq<Particle>, local: map<nat, nat>, cs: seq<DistanceConstraint>, targets: seq<Update>,
                 dt: real, norm: Vec3 -> real, l: nat)
    requires IndexedBy(local, ps) && Projectable(cs, |ps|) && dt != 0.0
    requires l < |ps| && ps[l].inverseMass > 0.0
    ensures var r := Step(ps, local, cs, targets, dt, norm);
      && r[l].position == r[l].predicted
      && r[l].velocity == Scale(Sub(r[l].position, Start(ps[l], targets)), 1.0 / Dt)
  {
    var w := PredictAll(WriteHandles(ps, local, targets));
    WriteHandlesMeaning(ps, local, targets);
    IterateFrame(w, cs, SolverIterations, dt, norm);
  }

  /** Without constraints a free particle moves inertially: from its start by its
      velocity times the time step. */
  lemma StepInertial(ps: seq<Particle>, local: map<nat, nat>, targets: seq<Update>, dt: real, norm: Vec3 -> real, l: nat)
    requires IndexedBy(local, ps) && dt != 0.0
    requires l < |ps| && ps[l].inverseMass > 0.0
    ensures Step(ps, local, [], targets, dt, norm)[l].position == Add(Start(ps[l], targets), Scale(ps[l].velocity, Dt))
  {
    var w := PredictAll(WriteHandles(ps, local, targets));
    WriteHandlesMeaning(ps, local, targets);
    IterateNothing(w, SolverIterations, dt, norm);
  }

  /** Several updatePBD calls in a row, one target list per call. */
  function Run(ps: seq<Particle>, local: map<nat, nat>, cs: seq<DistanceConstraint>, frames: seq<seq<Update>>,
               dt: real, norm: Vec3 -> real): (r: seq<Particle>)
    requires Projectable(cs, |ps|) && dt != 0.0
    ensures |r| == |ps|
    decreases |frames|
  {
    if frames == [] then ps
    else Step(Run(ps, local, cs, frames[..|frames| - 1], dt, norm), local, cs, frames[|frames| - 1], dt, norm)
  }

  /** A pinned particle whose vertex no call targets (a boundary vertex, or a handle the
      caller leaves alone) stays where it is across any number of updates. */
  lemma {:induction false} RunKeepsUntargeted(ps: seq<Particle>, local: map<nat, nat>, cs: seq<DistanceConstraint>,
                                              frames: seq<seq<Update>>, dt: real, norm: Vec3 -> real, l: nat)
    requires IndexedBy(local, ps) && Projectable(cs, |ps|) && dt != 0.0
    requires l < |ps| && ps[l].inverseMass == 0.0
    requires forall f, k :: 0 <= f < |frames| && 0 <= k < |frames[f]| ==> frames[f][k].0 != ps[l].globalIndex
    ensures var r := Run(ps, local, cs, frames, dt, norm);
      IndexedBy(local, r) && r[l].globalIndex == ps[l].globalIndex && r[l].inverseMass == 0.0
      && r[l].position == ps[l].position
    decreases |frames|
  {
    if frames != [] {
      var n := |frames| - 1;
      var q := Run(ps, local, cs, frames[..n], dt, norm);
      RunKeepsUntargeted(ps, local, cs, frames[..n], dt, norm, l);
      StepKeepsBodies(q, local, cs, frames[n], dt, norm);
      StepPinned(q, local, cs, frames[n], dt, norm, l);
      WrittenMapMeaning(frames[n], q[l].globalIndex);
    }
  }

  /** The loop of step 1. */
  method WriteTargets(ps: seq<Particle>, local: map<nat, nat>, targets: seq<Update>) returns (r: seq<Particle>)
    requires IndexedBy(local, ps)
    ensures r == WriteHandles(ps, local, targets)
  {
    r := ps;
    var k := 0;
    while k < |targets|
      invariant 0 <= k <= |targets|
      invariant r == WriteHandles(ps, local, targets[..k])
    {
      assert targets[..k + 1][..k] == targets[..k];
      var (g, p) := targets[k];
      if g in local {
        var l := local[g];
        r := r[l := r[l].(position := p)];
      }
      k := k + 1;
    }
    assert targets[..k] == targets;
  }

  /** The loop of step 2. */
  method PredictParticles(ps: seq<Particle>) returns (r: seq<Particle>)
    ensures r == PredictAll(ps)
  {
    r := ps;
    var l := 0;
    while l < |r|
      invariant 0 <= l <= |r| == |ps|
      invariant forall k :: 0 <= k < l ==> r[k] == Predict(ps[k])
      invariant forall k :: l <= k < |r| ==> r[k] == ps[k]
    {
      var p := r[l];
      if p.inverseMass > 0.0 {
        p := p.(predicted := Add(p.position, Scale(p.velocity, Dt)));
      } else {
        p := p.(predicted := p.position);
      }
      r := r[l := p];
      l := l + 1;
    }
  }

  /** The loops of step 3: SolverIterations rounds over the distance constraints. */
  method Solve(ps: seq<Particle>, cs: seq<DistanceConstraint>, dt: real, norm: Vec3 -> real) returns (r: seq<Particle>)
    requires Projectable(cs, |ps|) && dt != 0.0
    ensures r == Iterate(ps, cs, SolverIterations, dt, norm)
  {
    r := ps;
    var i := 0;
    while i < SolverIterations
      invariant 0 <= i <= SolverIterations
      invariant r == Iterate(ps, cs, i, dt, norm)
    {
      ghost var start := r;
      var k := 0;
      while k < |cs|
        invariant 0 <= k <= |cs| && |r| == |ps|
        invariant r == ProjectAll(start, cs[..k], dt, norm)
      {
        assert cs[..k + 1][..k] == cs[..k];
        r := ProjectDistance(r, cs[k], dt, norm);
        k := k + 1;
      }
      assert cs[..k] == cs;
      i := i + 1;
    }
  }

  /** The loop of step 4, which also collects each particle's (vertex, position). */
  method CommitParticles(ps: seq<Particle>) returns (r: seq<Particle>, updates: seq<Update>)
    ensures r == CommitAll(ps)
    ensures |updates| == |r| && forall l :: 0 <= l < |r| ==> updates[l] == (r[l].globalIndex, r[l].position)
  {
    r, updates := ps, [];
    var l := 0;
    while l < |r|
      invariant 0 <= l <= |r| == |ps| && |updates| == l
      invariant forall k :: 0 <= k < l ==> r[k] == Commit(ps[k]) && updates[k] == (r[k].globalIndex, r[k].position)
      invariant forall k :: l <= k < |r| ==> r[k] == ps[k]
    {
      var p := r[l];
      if p.inverseMass > 0.0 {
        p := p.(velocity := Scale(Sub(p.predicted, p.position), 1.0 / Dt), position := p.predicted);
      }
      r := r[l := p];
      updates := updates + [(p.globalIndex, p.position)];
      l := l + 1;
    }
  }

  // ---------------------------------------------------------------- the context

  /** PBDContext: the particles of the island, the global-to-local map and the two
      constraint lists. */
  class PBDContext {
    var particles: seq<Particle>
    var globalToLocal: map<nat, nat>
    var distanceConstraints: seq<DistanceConstraint>
    var volumeConstraints: seq<VolumeConstraint>
    ghost var setup: Setup

    /** The map numbers the particles, and the constraints stay within them. */
    ghost predicate Valid()
      reads this
    {
      && IndexedBy(globalToLocal, particles)
      && Projectable(distanceConstraints, |particles|)
      && VolumesIn(volumeConstraints, |particles|)
    }

    constructor ()
      ensures Valid()
      ensures particles == [] && globalToLocal == map[] && distanceConstraints == [] && volumeConstraints == []
    {
      particles, globalToLocal, distanceConstraints, volumeConstraints := [], map[], [], [];
      setup := Setup({}, {}, [], NoConstraints, [], []);
    }

    /** initPBD: with no handles the context is cleared; otherwise it holds the island's
        particles and constraints. */
    method InitPBD(radius: real, mesh: Mesh, handles: seq<nat>, norm: Vec3 -> real)
      modifies this
      requires mesh.Valid() && radius > 0.0
      requires forall h :: h in handles ==> h < |mesh.positions|
      ensures Valid()
      ensures handles == [] ==>
        particles == [] && globalToLocal == map[] && distanceConstraints == [] && volumeConstraints == []
      ensures handles != [] ==>
        && setup.build.distance == distanceConstraints && setup.build.volume == volumeConstraints
        && Prepared(mesh, handles, radius, norm, setup, particles, globalToLocal)
    {
      if handles == [] {
        particles, globalToLocal, distanceConstraints, volumeConstraints := [], map[], [], [];
        return;
      }
      var ps, local, b;
      ghost var s;
      s, ps, local, b := Prepare(mesh, handles, radius, norm);
      particles, globalToLocal, distanceConstraints, volumeConstraints := ps, local, b.distance, b.volume;
      setup := s;
    }
    /** updatePBD: write the handle targets, predict, run the solver rounds with the
        caller's dt, commit, and report every particle's (vertex, position). */
    method UpdatePBD(targets: seq<Update>, dt: real, norm: Vec3 -> real) returns (updates: seq<Update>)
      modifies this
      requires Valid() && dt != 0.0
      ensures Valid()
      ensures globalToLocal == old(globalToLocal) && distanceConstraints == old(distanceConstraints)
      ensures volumeConstraints == old(volumeConstraints)
      ensures particles == Step(old(particles), globalToLocal, distanceConstraints, targets, dt, norm)
      ensures |updates| == |particles|
      ensures forall l :: 0 <= l < |updates| ==> updates[l] == (particles[l].globalIndex, particles[l].position)
    {
      var ps := WriteTargets(particles, globalToLocal, targets);
      ps := PredictParticles(ps);
      ps := Solve(ps, distanceConstraints, dt, norm);
      ps, updates := CommitParticles(ps);
      StepKeepsBodies(particles, globalToLocal, distanceConstraints, targets, dt, norm);
      particles := ps;
    }
  }
}
