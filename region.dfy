/** Region discovery shared by initLa and initPBD: a breadth-first search over the vertex
    adjacency, seeded with the handles, that classifies each newly reached neighbour as
    active (strictly within the radius of some handle; expanded further) or boundary
    (outside; pinned and never expanded). */
module Region {
  import opened Geometry
  import opened Mesh
  import opened HandleGrid

  /** Vertex v lies strictly within the radius of some handle. */
  ghost predicate Near(mesh: Mesh, handles: seq<nat>, radius: real, v: nat) {
    v < |mesh.positions| && NearSomeHandle(mesh.positions[v], mesh.positions, handles, radius)
  }

  /** What the search produces. `order` is the order in which active vertices were
      enqueued; it witnesses that every active vertex is reached from a handle through
      active vertices. */
  ghost predicate IsRegion(mesh: Mesh, handles: seq<nat>, radius: real,
                           active: set<nat>, boundary: set<nat>, order: seq<nat>)
  {
    && mesh.Valid()
    // only real vertices are classified
    && (forall v :: v in active ==> v < |mesh.positions|)
    && (forall v :: v in boundary ==> v < |mesh.positions|)
    // every handle is active; nothing is both active and boundary
    && (forall h :: h in handles ==> h in active)
    && active !! boundary
    // the radius test decides the class of every non-handle vertex
    && (forall v :: v in active && v !in handles ==> Near(mesh, handles, radius, v))
    && (forall v :: v in boundary ==> !Near(mesh, handles, radius, v))
    // closure: every neighbour of an active vertex is classified
    && (forall v, u :: v in active && u in mesh.adjacency[v] ==> u in active || u in boundary)
    // a boundary vertex is a neighbour of an active one
    && (forall u :: u in boundary ==> exists v :: v in active && u in mesh.adjacency[v])
    // reachability: each active vertex is a handle or a neighbour of an earlier active one
    && (forall i :: 0 <= i < |order| ==> order[i] in active)
    && (forall v :: v in active ==> v in order)
    && (forall i :: 0 <= i < |order| ==> Reachable(mesh, handles, order, i))
  }

  /** order[i] is a handle or a neighbour of a vertex discovered before it. */
  ghost predicate Reachable(mesh: Mesh, handles: seq<nat>, order: seq<nat>, i: nat)
    requires i < |order|
  {
    order[i] in handles
    || exists j :: 0 <= j < i && order[j] < |mesh.adjacency| && order[i] in mesh.adjacency[order[j]]
  }

  /** The handle ids as a set (the handle_set of initLa and initPBD). */
  function HandleSet(handles: seq<nat>): set<nat> {
    set h | h in handles
  }

  function Unvisited(n: nat, visited: set<nat>): set<nat> {
    set v | 0 <= v < n && v !in visited
  }

  /** The classification facts that hold throughout the search. */
  ghost predicate Classified(mesh: Mesh, handles: seq<nat>, radius: real, active: set<nat>, boundary: set<nat>)
  {
    && mesh.Valid()
    && (forall v :: v in active ==> v < |mesh.positions|)
    && (forall v :: v in boundary ==> v < |mesh.positions|)
    && (forall h :: h in handles ==> h in active)
    && active !! boundary
    && (forall v {:trigger Near(mesh, handles, radius, v)} :: v in active && v !in handles ==> Near(mesh, handles, radius, v))
    && (forall v {:trigger Near(mesh, handles, radius, v)} :: v in boundary ==> !Near(mesh, handles, radius, v))
  }

  /** The ghost record of a search run: `order` is the order in which vertices became
      active, `parent[i]` the position in it of the vertex from which order[i] was
      reached, and `attach[u]` an active vertex next to the boundary vertex u. */
  datatype Trace = Trace(order: seq<nat>, parent: seq<nat>, attach: map<nat, nat>)

  /** The reachability facts of IsRegion with their witnesses made explicit. */
  ghost predicate Reached(mesh: Mesh, handles: seq<nat>, active: set<nat>, boundary: set<nat>, t: Trace)
  {
    && |t.parent| == |t.order|
    && (forall i :: 0 <= i < |t.order| ==> t.order[i] in active)
    && (forall v :: v in active ==> v in t.order)
    && (forall i {:trigger t.parent[i]} :: 0 <= i < |t.order| && t.order[i] !in handles ==>
          && t.parent[i] < i
          && t.order[t.parent[i]] < |mesh.adjacency|
          && t.order[i] in mesh.adjacency[t.order[t.parent[i]]])
    && t.attach.Keys == boundary
    && (forall u :: u in t.attach ==>
          t.attach[u] in active && t.attach[u] < |mesh.adjacency| && u in mesh.adjacency[t.attach[u]])
  }

  /** The search state with the witnesses dropped is the result, once it is closed. */
  lemma ReachedIsRegion(mesh: Mesh, handles: seq<nat>, radius: real, active: set<nat>, boundary: set<nat>, t: Trace)
    requires Classified(mesh, handles, radius, active, boundary)
    requires Reached(mesh, handles, active, boundary, t)
    requires forall v, u :: v in active && u in mesh.adjacency[v] ==> u in active || u in boundary
    ensures IsRegion(mesh, handles, radius, active, boundary, t.order)
  {
    forall u | u in boundary ensures exists v :: v in active && u in mesh.adjacency[v] {
      assert t.attach[u] in active && u in mesh.adjacency[t.attach[u]];
    }
    forall i | 0 <= i < |t.order| ensures Reachable(mesh, handles, t.order, i) {
      if t.order[i] !in handles {
        assert t.order[i] in mesh.adjacency[t.order[t.parent[i]]];
      }
    }
  }

  /** The state of the search between two dequeues: everything classified so far is
      consistent, every queued vertex is active, and the neighbours of every active vertex
      that has left the queue are classified. */
  ghost predicate Searching(mesh: Mesh, handles: seq<nat>, radius: real,
                            active: set<nat>, boundary: set<nat>, q: seq<nat>, t: Trace)
  {
    && Classified(mesh, handles, radius, active, boundary)
    && Reached(mesh, handles, active, boundary, t)
    && (forall v :: v in q ==> v in active)
    && (forall v, u :: v in active && v !in q && u in mesh.adjacency[v] ==> u in active || u in boundary)
  }

  /** The breadth-first search of initLa (steps 1-2) and initPBD (step 1). The visited
      flags of the search are the membership of active + boundary. */
  method Discover(mesh: Mesh, handles: seq<nat>, radius: real)
    returns (active: set<nat>, boundary: set<nat>, ghost order: seq<nat>)
    requires mesh.Valid()
    requires radius > 0.0
    requires forall h :: h in handles ==> h < |mesh.positions|
    ensures Classified(mesh, handles, radius, active, boundary)
    ensures forall v, u :: v in active && u in mesh.adjacency[v] ==> u in active || u in boundary
    ensures IsRegion(mesh, handles, radius, active, boundary, order)
  {
    var n := |mesh.positions|;
    var grid := BuildGrid(mesh.positions, handles, radius);
    var q: seq<nat>;
    ghost var t: Trace;
    active, boundary, q, t := Seed(mesh, handles, radius);
    while q != []
      invariant Searching(mesh, handles, radius, active, boundary, q, t)
      decreases Unvisited(n, active + boundary), |q|
    {
      active, boundary, q, t := Dequeue(mesh, grid, handles, radius, active, boundary, q, t);
    }
    ReachedIsRegion(mesh, handles, radius, active, boundary, t);
    order := t.order;
  }

  /** One round of the search loop: the front of the queue is removed and its neighbours
      are visited. Either some vertex is newly visited, or nothing changes but the queue
      gets shorter, so the search terminates. */
  method Dequeue(mesh: Mesh, grid: Grid, handles: seq<nat>, radius: real,
                 active0: set<nat>, boundary0: set<nat>, q0: seq<nat>, ghost t0: Trace)
    returns (active: set<nat>, boundary: set<nat>, q: seq<nat>, ghost t: Trace)
    requires radius > 0.0
    requires IsGridOf(grid, mesh.positions, handles, radius)
    requires Searching(mesh, handles, radius, active0, boundary0, q0, t0)
    requires q0 != []
    ensures Searching(mesh, handles, radius, active, boundary, q, t)
    ensures var n := |mesh.positions|;
      || Unvisited(n, active + boundary) < Unvisited(n, active0 + boundary0)
      || (Unvisited(n, active + boundary) == Unvisited(n, active0 + boundary0) && |q| < |q0|)
  {
    var n := |mesh.positions|;
    var v := q0[0];
    ghost var grew: bool;
    active, boundary, q, t, grew := VisitNeighbours(mesh, grid, handles, radius, v, active0, boundary0, q0[1..], t0);
    if grew {
      var u :| u in active + boundary && u !in active0 + boundary0;
      assert u in Unvisited(n, active0 + boundary0) - Unvisited(n, active + boundary);
    }
    forall w, u | w in active && w !in q && u in mesh.adjacency[w] ensures u in active || u in boundary {
      if w != v {
        assert w !in q0;
      }
    }
  }

  /** The first loop of the search: every handle is marked visited, active and enqueued. */
  method Seed(mesh: Mesh, handles: seq<nat>, radius: real)
    returns (active: set<nat>, boundary: set<nat>, q: seq<nat>, ghost t: Trace)
    requires mesh.Valid()
    requires forall h :: h in handles ==> h < |mesh.positions|
    ensures q == handles && boundary == {}
    ensures forall v :: v in active ==> v in q
    ensures Classified(mesh, handles, radius, active, boundary)
    ensures Reached(mesh, handles, active, boundary, t)
  {
    active, boundary, q := {}, {}, [];
    t := Trace([], [], map[]);
    var i := 0;
    while i < |handles|
      invariant 0 <= i <= |handles|
      invariant q == handles[..i]
      invariant active == set h | h in handles[..i]
      invariant Reached(mesh, handles, active, boundary, t)
    {
      var h := handles[i];
      q := q + [h];
      if h !in active {
        t := t.(order := t.order + [h], parent := t.parent + [0]);
        active := active + {h};
      }
      assert handles[..i + 1] == handles[..i] + [h];
      i := i + 1;
    }
    assert handles[..i] == handles;
  }

  /** The body of the search loop for one dequeued vertex v: every unvisited neighbour is
      marked visited and classified by the grid query; active ones are enqueued. `grew`
      tells whether anything was newly visited. */
  method VisitNeighbours(mesh: Mesh, grid: Grid, handles: seq<nat>, radius: real, v: nat,
                         active0: set<nat>, boundary0: set<nat>, q0: seq<nat>, ghost t0: Trace)
    returns (active: set<nat>, boundary: set<nat>, q: seq<nat>, ghost t: Trace, ghost grew: bool)
    requires radius > 0.0
    requires IsGridOf(grid, mesh.positions, handles, radius)
    requires Classified(mesh, handles, radius, active0, boundary0)
    requires Reached(mesh, handles, active0, boundary0, t0)
    requires v in active0
    ensures Classified(mesh, handles, radius, active, boundary)
    ensures Reached(mesh, handles, active, boundary, t)
    ensures active0 <= active && boundary0 <= boundary
    ensures forall w :: w in q ==> w in q0 || w in active
    ensures forall w :: w in q0 ==> w in q
    ensures forall w :: w in active && w !in active0 ==> w in q
    ensures forall u :: u in mesh.adjacency[v] ==> u in active || u in boundary
    ensures grew ==> exists u :: u in active + boundary && u !in active0 + boundary0
    ensures !grew ==> active == active0 && boundary == boundary0 && q == q0
  {
    active, boundary, q, t, grew := active0, boundary0, q0, t0, false;
    ghost var added: nat := 0;
    ghost var done: set<nat> := {};
    var nbrs := mesh.adjacency[v];
    var k := 0;
    while k < |nbrs|
      invariant 0 <= k <= |nbrs|
      invariant Classified(mesh, handles, radius, active, boundary)
      invariant Reached(mesh, handles, active, boundary, t)
      invariant active0 <= active && boundary0 <= boundary
      invariant forall w :: w in q ==> w in q0 || w in active
      invariant forall w :: w in q0 ==> w in q
      invariant forall w :: w in active && w !in active0 ==> w in q
      invariant forall j :: 0 <= j < k ==> nbrs[j] in done
      invariant done <= active + boundary
      invariant grew ==> added in active + boundary && added !in active0 + boundary0
      invariant !grew ==> active == active0 && boundary == boundary0 && q == q0
    {
      var u := nbrs[k];
      assert u in mesh.adjacency[v];
      if u !in active && u !in boundary {
        var inside: bool;
        active, boundary, t, inside := Classify(mesh, grid, handles, radius, v, u, active, boundary, t);
        if inside {
          q := q + [u];
        }
        grew, added := true, u;
      }
      done := done + {u};
      k := k + 1;
    }
  }

  /** The classification of one unvisited neighbour u of the dequeued vertex v: active
      when the grid query finds a handle strictly within the radius, boundary otherwise. */
  method Classify(mesh: Mesh, grid: Grid, handles: seq<nat>, radius: real, v: nat, u: nat,
                  active0: set<nat>, boundary0: set<nat>, ghost t0: Trace)
    returns (active: set<nat>, boundary: set<nat>, ghost t: Trace, inside: bool)
    requires radius > 0.0
    requires IsGridOf(grid, mesh.positions, handles, radius)
    requires Classified(mesh, handles, radius, active0, boundary0)
    requires Reached(mesh, handles, active0, boundary0, t0)
    requires v in active0 && u in mesh.adjacency[v] && u !in active0 && u !in boundary0
    ensures Classified(mesh, handles, radius, active, boundary)
    ensures Reached(mesh, handles, active, boundary, t)
    ensures inside ==> active == active0 + {u} && boundary == boundary0
    ensures !inside ==> active == active0 && boundary == boundary0 + {u}
  {
    inside := Query(grid, mesh.positions[u], mesh.positions, handles, radius);
    if inside {
      t := AddActive(mesh, handles, radius, active0, boundary0, t0, v, u);
      active, boundary := active0 + {u}, boundary0;
    } else {
      t := AddBoundary(mesh, handles, radius, active0, boundary0, t0, v, u);
      active, boundary := active0, boundary0 + {u};
    }
  }

  /** Classifying an unvisited neighbour of an active vertex as active keeps the search state. */
  lemma AddActive(mesh: Mesh, handles: seq<nat>, radius: real, active: set<nat>, boundary: set<nat>,
                  t: Trace, v: nat, u: nat)
    returns (t': Trace)
    requires Classified(mesh, handles, radius, active, boundary)
    requires Reached(mesh, handles, active, boundary, t)
    requires v in active && u in mesh.adjacency[v] && u !in active && u !in boundary
    requires Near(mesh, handles, radius, u)
    ensures t'.order == t.order + [u]
    ensures Classified(mesh, handles, radius, active + {u}, boundary)
    ensures Reached(mesh, handles, active + {u}, boundary, t')
  {
    var n := |t.order|;
    var j :| 0 <= j < n && t.order[j] == v;
    t' := t.(order := t.order + [u], parent := t.parent + [j]);
    assert t'.order[n] in mesh.adjacency[t'.order[t'.parent[n]]];
  }

  /** Classifying an unvisited neighbour of an active vertex as boundary keeps the search state. */
  lemma AddBoundary(mesh: Mesh, handles: seq<nat>, radius: real, active: set<nat>, boundary: set<nat>,
                    t: Trace, v: nat, u: nat)
    returns (t': Trace)
    requires Classified(mesh, handles, radius, active, boundary)
    requires Reached(mesh, handles, active, boundary, t)
    requires v in active && u in mesh.adjacency[v] && u !in active && u !in boundary
    requires !Near(mesh, handles, radius, u)
    ensures t'.order == t.order
    ensures Classified(mesh, handles, radius, active, boundary + {u})
    ensures Reached(mesh, handles, active, boundary + {u}, t')
  {
    t' := t.(attach := t.attach[u := v]);
  }

  /** A larger radius keeps every vertex that was near a handle near it. */
  lemma NearMonotone(mesh: Mesh, handles: seq<nat>, r: real, r2: real, v: nat)
    requires 0.0 < r <= r2 && Near(mesh, handles, r, v)
    ensures Near(mesh, handles, r2, v)
  {
    var h :| h in handles && h < |mesh.positions| && DistanceSquared(mesh.positions[v], mesh.positions[h]) < r * r;
    SquareMonotone(r, r2);
  }

  /** Every vertex in the discovery order of a search with radius r is active in any
      search result for a radius r2 >= r. */
  lemma {:induction false} OrderedWithin(mesh: Mesh, handles: seq<nat>,
                                         r: real, active: set<nat>, boundary: set<nat>, order: seq<nat>,
                                         r2: real, active2: set<nat>, boundary2: set<nat>, order2: seq<nat>,
                                         i: nat)
    requires IsRegion(mesh, handles, r, active, boundary, order)
    requires IsRegion(mesh, handles, r2, active2, boundary2, order2)
    requires 0.0 < r <= r2
    requires i < |order|
    ensures order[i] in active2
    decreases i
  {
    var v := order[i];
    if v !in handles {
      assert Reachable(mesh, handles, order, i);
      var j :| 0 <= j < i && order[j] < |mesh.adjacency| && v in mesh.adjacency[order[j]];
      OrderedWithin(mesh, handles, r, active, boundary, order, r2, active2, boundary2, order2, j);
      assert v in active2 || v in boundary2;
      NearMonotone(mesh, handles, r, r2, v);
    }
  }

  /** Radius monotonicity: growing the radius (same handles, same mesh) never shrinks the
      active set nor the set of vertices the sub-problem touches. */
  lemma RegionMonotoneInRadius(mesh: Mesh, handles: seq<nat>,
                               r: real, active: set<nat>, boundary: set<nat>, order: seq<nat>,
                               r2: real, active2: set<nat>, boundary2: set<nat>, order2: seq<nat>)
    requires IsRegion(mesh, handles, r, active, boundary, order)
    requires IsRegion(mesh, handles, r2, active2, boundary2, order2)
    requires 0.0 < r <= r2
    ensures active <= active2
    ensures active + boundary <= active2 + boundary2
  {
    forall v | v in active ensures v in active2 {
      var i :| 0 <= i < |order| && order[i] == v;
      OrderedWithin(mesh, handles, r, active, boundary, order, r2, active2, boundary2, order2, i);
    }
    forall u | u in boundary ensures u in active2 + boundary2 {
      var v :| v in active && u in mesh.adjacency[v];
      assert v in active2;
    }
  }

  /** The classification does not depend on the order in which the search visits
      neighbours: any two results for the same handles and radius coincide. */
  lemma RegionUnique(mesh: Mesh, handles: seq<nat>, r: real,
                     active: set<nat>, boundary: set<nat>, order: seq<nat>,
                     active2: set<nat>, boundary2: set<nat>, order2: seq<nat>)
    requires r > 0.0
    requires IsRegion(mesh, handles, r, active, boundary, order)
    requires IsRegion(mesh, handles, r, active2, boundary2, order2)
    ensures active == active2 && boundary == boundary2
  {
    RegionMonotoneInRadius(mesh, handles, r, active, boundary, order, r, active2, boundary2, order2);
    RegionMonotoneInRadius(mesh, handles, r, active2, boundary2, order2, r, active, boundary, order);
  }
}
