/** The vertex selection and grab tool (VertexHighlightRenderer): a committed selection,
    a depth-ordered list of candidates under the mouse with a cursor, and a grab mode
    that records the selected vertices' positions, moves them rigidly and either keeps
    or reverts the move. Matrix products are passed in as functions: `clip` is the
    view-projection applied to a point (with w = 1) and `unproject` its inverse applied
    to a normalized-device point (with w = 1). */
module VertexSelection {
  import opened Geometry
  import opened Mesh

  datatype SelectionState = Idle | Grabbing

  /** A point after the view-projection, before the perspective divide. */
  datatype Clip = Clip(x: real, y: real, z: real, w: real)

  /** A vertex under the mouse and its clip-space depth (SelectionCandidate). */
  datatype Candidate = Candidate(id: nat, depth: real)

  // ---------------------------------------------------------------- writes to the scene

  /** The vertex ids a list of writes touches. */
  function Ids(updates: seq<Update>): set<nat> {
    set k | 0 <= k < |updates| :: updates[k].0
  }

  lemma IdsSnoc(updates: seq<Update>, u: Update)
    ensures Ids(updates + [u]) == Ids(updates) + {u.0}
  {
    var r := updates + [u];
    assert forall k :: 0 <= k < |updates| ==> r[k] == updates[k];
    assert r[|updates|] == u;
  }

  /** The writes putting every vertex of `keys` at its value in `target`, in an order
      left open (the source walks an unordered map). */
  method WritesFor(keys: set<nat>, target: map<nat, Vec3>) returns (updates: seq<Update>)
    requires keys <= target.Keys
    ensures Ids(updates) == keys
    ensures forall k :: 0 <= k < |updates| ==> updates[k].0 in target && updates[k].1 == target[updates[k].0]
  {
    updates := [];
    var rest := keys;
    while rest != {}
      invariant rest <= keys
      invariant forall k :: 0 <= k < |updates| ==> updates[k].0 in target && updates[k].1 == target[updates[k].0]
      invariant Ids(updates) == keys - rest
      decreases |rest|
    {
      var v :| v in rest;
      IdsSnoc(updates, (v, target[v]));
      updates := updates + [(v, target[v])];
      rest := rest - {v};
    }
  }

  /** Writes that each put a vertex at its value in `target` leave every touched vertex
      at that value and every other one where it was. */
  lemma {:induction false} AppliedFrom(p: seq<Vec3>, updates: seq<Update>, target: map<nat, Vec3>)
    requires forall k :: 0 <= k < |updates| ==> updates[k].0 in target && updates[k].1 == target[updates[k].0]
    ensures forall v :: 0 <= v < |p| ==> Applied(p, updates)[v] == if v in Ids(updates) then target[v] else p[v]
    decreases |updates|
  {
    if updates != [] {
      var n := |updates| - 1;
      AppliedFrom(p, updates[..n], target);
      forall v | 0 <= v < |p|
        ensures Applied(p, updates)[v] == if v in Ids(updates) then target[v] else p[v]
      {
        if v in Ids(updates) && v != updates[n].0 {
          var k :| 0 <= k < |updates| && updates[k].0 == v;
          assert updates[..n][k].0 == v;
        }
        if v in Ids(updates[..n]) {
          var k :| 0 <= k < n && updates[..n][k].0 == v;
          assert updates[k].0 == v;
        }
      }
    }
  }

  // ---------------------------------------------------------------- candidates

  /** The source's screen-space test for vertex i: in front of the camera and strictly
      within `radius` pixels of the mouse. */
  predicate Hit(c: Clip, mouseX: real, mouseY: real, width: real, height: real, radius: real) {
    c.w > 0.0 &&
    var sx := (c.x / c.w + 1.0) * 0.5 * width;
    var sy := (c.y / c.w + 1.0) * 0.5 * height;
    var dx := sx - mouseX;
    var dy := sy - mouseY;
    dx * dx + dy * dy < radius * radius
  }

  /** The normalized-device depth BeginGrab keeps for the anchor (0 when w is 0). */
  function NdcDepth(c: Clip): (r: real)
    ensures c.w != 0.0 ==> r * c.w == c.z
    ensures c.w == 0.0 ==> r == 0.0
  {
    if c.w != 0.0 then c.z / c.w else 0.0
  }

  /** The perspective divide of UpdateGrab, skipped when w is 0. */
  function Divided(c: Clip): Vec3 {
    if c.w != 0.0 then Vec3(c.x / c.w, c.y / c.w, c.z / c.w) else Vec3(c.x, c.y, c.z)
  }

  /** The world point under the mouse at normalized-device depth `depth`. */
  function UnderMouse(unproject: Vec3 -> Clip, mouseX: real, mouseY: real, width: real, height: real, depth: real): (r: Vec3)
    requires width != 0.0 && height != 0.0
    ensures var c := unproject(Vec3(mouseX / width * 2.0 - 1.0, mouseY / height * 2.0 - 1.0, depth));
      c.w != 0.0 ==> r.x * c.w == c.x && r.y * c.w == c.y && r.z * c.w == c.z
  {
    Divided(unproject(Vec3(mouseX / width * 2.0 - 1.0, mouseY / height * 2.0 - 1.0, depth)))
  }

  /** The candidates of UpdateCandidates' first loop, in vertex order. */
  function Hits(vertices: seq<Vec3>, clip: Vec3 -> Clip, mouseX: real, mouseY: real,
                width: real, height: real, radius: real): (r: seq<Candidate>)
    ensures |r| <= |vertices|
    ensures forall k :: 0 <= k < |r| ==> r[k].id < |vertices|
    decreases |vertices|
  {
    if vertices == [] then []
    else
      var n := |vertices| - 1;
      var c := clip(vertices[n]);
      Hits(vertices[..n], clip, mouseX, mouseY, width, height, radius)
        + if Hit(c, mouseX, mouseY, width, height, radius) then [Candidate(n, c.z)] else []
  }

  /** The candidates are exactly the vertices passing the screen test, each once and in
      increasing id order, with their clip-space depth. */
  lemma HitsMeaning(vertices: seq<Vec3>, clip: Vec3 -> Clip, mouseX: real, mouseY: real,
                    width: real, height: real, radius: real)
    ensures var r := Hits(vertices, clip, mouseX, mouseY, width, height, radius);
      && (forall k :: 0 <= k < |r| ==> r[k].id < |vertices| && r[k].depth == clip(vertices[r[k].id]).z)
      && (forall i, j :: 0 <= i < j < |r| ==> r[i].id < r[j].id)
      && (forall v :: 0 <= v < |vertices| ==>
            (Hit(clip(vertices[v]), mouseX, mouseY, width, height, radius) <==> exists k :: 0 <= k < |r| && r[k].id == v))
  {
    HitsDepth(vertices, clip, mouseX, mouseY, width, height, radius);
    HitsIncreasing(vertices, clip, mouseX, mouseY, width, height, radius);
    HitsExactly(vertices, clip, mouseX, mouseY, width, height, radius);
  }

  /** Each candidate carries the clip-space depth of its own vertex. */
  ghost predicate DepthsOf(r: seq<Candidate>, vertices: seq<Vec3>, clip: Vec3 -> Clip) {
    forall k :: 0 <= k < |r| ==> r[k].id < |vertices| && r[k].depth == clip(vertices[r[k].id]).z
  }

  /** The candidates come in strictly increasing vertex order. */
  ghost predicate IdsIncreasing(r: seq<Candidate>) {
    forall i, j :: 0 <= i < j < |r| ==> r[i].id < r[j].id
  }

  /** A vertex is among the candidates exactly when it passes the screen test. */
  ghost predicate ExactlyHits(r: seq<Candidate>, vertices: seq<Vec3>, clip: Vec3 -> Clip, mouseX: real,
                              mouseY: real, width: real, height: real, radius: real) {
    forall v :: 0 <= v < |vertices| ==>
      (Hit(clip(vertices[v]), mouseX, mouseY, width, height, radius) <==> exists k :: 0 <= k < |r| && r[k].id == v)
  }

  lemma {:induction false} HitsDepth(vertices: seq<Vec3>, clip: Vec3 -> Clip, mouseX: real, mouseY: real,
                                     width: real, height: real, radius: real)
    ensures DepthsOf(Hits(vertices, clip, mouseX, mouseY, width, height, radius), vertices, clip)
    decreases |vertices|
  {
    if vertices != [] {
      var n := |vertices| - 1;
      var pre := vertices[..n];
      HitsDepth(pre, clip, mouseX, mouseY, width, height, radius);
      var q := Hits(pre, clip, mouseX, mouseY, width, height, radius);
      var r := Hits(vertices, clip, mouseX, mouseY, width, height, radius);
      forall k | 0 <= k < |r|
        ensures r[k].id < |vertices| && r[k].depth == clip(vertices[r[k].id]).z
      {
        if k < |q| {
          assert r[k] == q[k];
          assert vertices[q[k].id] == pre[q[k].id];
        }
      }
    }
  }

  lemma {:induction false} HitsIncreasing(vertices: seq<Vec3>, clip: Vec3 -> Clip, mouseX: real, mouseY: real,
                                          width: real, height: real, radius: real)
    ensures IdsIncreasing(Hits(vertices, clip, mouseX, mouseY, width, height, radius))
    decreases |vertices|
  {
    if vertices != [] {
      var n := |vertices| - 1;
      var pre := vertices[..n];
      HitsIncreasing(pre, clip, mouseX, mouseY, width, height, radius);
      var q := Hits(pre, clip, mouseX, mouseY, width, height, radius);
      var r := Hits(vertices, clip, mouseX, mouseY, width, height, radius);
      forall i, j | 0 <= i < j < |r|
        ensures r[i].id < r[j].id
      {
        assert r[i] == q[i];
        if j < |q| {
          assert r[j] == q[j];
        } else {
          assert r[j].id == n;
        }
      }
    }
  }

  lemma {:induction false} HitsExactly(vertices: seq<Vec3>, clip: Vec3 -> Clip, mouseX: real, mouseY: real,
                                       width: real, height: real, radius: real)
    ensures ExactlyHits(Hits(vertices, clip, mouseX, mouseY, width, height, radius), vertices, clip, mouseX, mouseY, width, height, radius)
    decreases |vertices|
  {
    if vertices != [] {
      var n := |vertices| - 1;
      var pre := vertices[..n];
      HitsExactly(pre, clip, mouseX, mouseY, width, height, radius);
      var q := Hits(pre, clip, mouseX, mouseY, width, height, radius);
      var r := Hits(vertices, clip, mouseX, mouseY, width, height, radius);
      forall v | 0 <= v < |vertices|
        ensures Hit(clip(vertices[v]), mouseX, mouseY, width, height, radius) <==> exists k :: 0 <= k < |r| && r[k].id == v
      {
        if v < n {
          assert vertices[v] == pre[v];
          if exists k :: 0 <= k < |q| && q[k].id == v {
            var k :| 0 <= k < |q| && q[k].id == v;
            assert r[k] == q[k];
          }
          if exists k :: 0 <= k < |r| && r[k].id == v {
            var k :| 0 <= k < |r| && r[k].id == v;
            assert k < |q| && r[k] == q[k];
          }
        } else if Hit(clip(vertices[v]), mouseX, mouseY, width, height, radius) {
          assert r[|q|].id == v;
        } else {
          assert r == q;
        }
      }
    }
  }

  ghost predicate ByDepth(cs: seq<Candidate>) {
    forall i, j :: 0 <= i < j < |cs| ==> cs[i].depth <= cs[j].depth
  }

  /** `ids` lists the candidates of `hits`, reordered by non-decreasing depth, as `ranked`. */
  ghost predicate Ranks(ranked: seq<Candidate>, ids: seq<nat>, hits: seq<Candidate>) {
    && ByDepth(ranked) && multiset(ranked) == multiset(hits)
    && |ids| == |ranked| && (forall k :: 0 <= k < |ranked| ==> ids[k] == ranked[k].id)
  }

  /** One insertion step: c goes before the first strictly deeper candidate. */
  method InsertByDepth(r: seq<Candidate>, c: Candidate) returns (s: seq<Candidate>)
    requires ByDepth(r)
    ensures ByDepth(s) && multiset(s) == multiset(r) + multiset{c}
  {
    var i := 0;
    while i < |r| && r[i].depth <= c.depth
      invariant 0 <= i <= |r|
      invariant forall j :: 0 <= j < i ==> r[j].depth <= c.depth
    {
      i := i + 1;
    }
    s := r[..i] + [c] + r[i..];
    assert r == r[..i] + r[i..];
  }

  /** The std::sort of UpdateCandidates: the same candidates, by non-decreasing depth
      (the order of equal depths is left open, as std::sort leaves it). */
  method SortByDepth(cs: seq<Candidate>) returns (r: seq<Candidate>)
    ensures ByDepth(r) && multiset(r) == multiset(cs)
  {
    r := [];
    var k := 0;
    while k < |cs|
      invariant 0 <= k <= |cs|
      invariant ByDepth(r) && multiset(r) == multiset(cs[..k])
    {
      assert cs[..k + 1] == cs[..k] + [cs[k]];
      r := InsertByDepth(r, cs[k]);
      k := k + 1;
    }
    assert cs[..k] == cs;
  }

  /** The first loop of UpdateCandidates: the screen test for every vertex, in order. */
  method CollectCandidates(mouseX: real, mouseY: real, clip: Vec3 -> Clip, width: real, height: real,
                           vertices: seq<Vec3>, radius: real) returns (candidates: seq<Candidate>)
    ensures candidates == Hits(vertices, clip, mouseX, mouseY, width, height, radius)
  {
    candidates := [];
    var i := 0;
    while i < |vertices|
      invariant 0 <= i <= |vertices|
      invariant candidates == Hits(vertices[..i], clip, mouseX, mouseY, width, height, radius)
    {
      assert vertices[..i + 1][..i] == vertices[..i];
      var c := clip(vertices[i]);
      if c.w > 0.0 {
        var sx := (c.x / c.w + 1.0) * 0.5 * width;
        var sy := (c.y / c.w + 1.0) * 0.5 * height;
        var dx := sx - mouseX;
        var dy := sy - mouseY;
        if dx * dx + dy * dy < radius * radius {
          candidates := candidates + [Candidate(i, c.z)];
        }
      }
      i := i + 1;
    }
    assert vertices[..i] == vertices;
  }

  /** The id-extraction loop of UpdateCandidates. */
  method IdsOf(cs: seq<Candidate>) returns (ids: seq<nat>)
    ensures |ids| == |cs| && forall k :: 0 <= k < |cs| ==> ids[k] == cs[k].id
  {
    ids := [];
    var k := 0;
    while k < |cs|
      invariant 0 <= k <= |cs| && |ids| == k
      invariant forall j :: 0 <= j < k ==> ids[j] == cs[j].id
    {
      ids := ids + [cs[k].id];
      k := k + 1;
    }
  }

  /** The candidates under the mouse, ranked by depth, and their ids. */
  method Rank(mouseX: real, mouseY: real, clip: Vec3 -> Clip, width: real, height: real,
              vertices: seq<Vec3>, radius: real) returns (ranked: seq<Candidate>, ids: seq<nat>)
    ensures Ranks(ranked, ids, Hits(vertices, clip, mouseX, mouseY, width, height, radius))
  {
    var candidates := CollectCandidates(mouseX, mouseY, clip, width, height, vertices, radius);
    ranked := SortByDepth(candidates);
    ids := IdsOf(ranked);
  }

  /** What BeginGrab records: each vertex of `order` once, its position at the time,
      and the mean of those positions as the anchor. */
  ghost predicate Recorded(positions: seq<Vec3>, initial: map<nat, Vec3>, order: seq<nat>, anchor: Vec3) {
    && order != [] && Lists(order, initial.Keys)
    && (forall k :: 0 <= k < |order| ==> order[k] < |positions|)
    && (forall v :: v in initial ==> v < |positions| && initial[v] == positions[v])
    && anchor == Mean(positions, order)
  }

  ghost predicate Member(r: seq<nat>, s: set<nat>, v: nat) {
    v in r <==> v in s
  }

  /** `r` lists the members of `s`, each once. */
  ghost predicate Lists(r: seq<nat>, s: set<nat>) {
    && (forall v: nat :: Member(r, s, v))
    && (forall i, j :: 0 <= i < j < |r| ==> r[i] != r[j])
  }

  /** The recording loop of BeginGrab over the selected vertices. */
  method Record(positions: seq<Vec3>, sel: seq<nat>, ghost chosen: set<nat>) returns (initial: map<nat, Vec3>, anchor: Vec3)
    requires sel != [] && Lists(sel, chosen)
    requires forall v :: v in chosen ==> v < |positions|
    ensures Recorded(positions, initial, sel, anchor)
  {
    assert forall k :: 0 <= k < |sel| ==> Member(sel, chosen, sel[k]);
    initial := map[];
    var sum := Zero;
    var k := 0;
    while k < |sel|
      invariant 0 <= k <= |sel|
      invariant forall v :: v in initial <==> v in sel[..k]
      invariant forall v :: v in initial ==> v < |positions| && initial[v] == positions[v]
      invariant sum == Sum(positions, sel[..k])
    {
      assert sel[..k + 1][..k] == sel[..k];
      initial := initial[sel[k] := positions[sel[k]]];
      sum := Add(sum, positions[sel[k]]);
      k := k + 1;
    }
    assert sel[..k] == sel;
    anchor := Scale(sum, 1.0 / (|sel| as real));
  }

  /** The clamped cursor of CycleSelection. */
  function Clamp(i: int, lo: int, hi: int): (r: int)
    requires lo <= hi
    ensures lo <= r <= hi
    ensures lo <= i <= hi ==> r == i
    ensures i < lo ==> r == lo
    ensures i > hi ==> r == hi
  {
    if i < lo then lo else if i > hi then hi else i
  }

  /** The sum of the listed positions. */
  function Sum(ps: seq<Vec3>, ids: seq<nat>): Vec3
    requires forall k :: 0 <= k < |ids| ==> ids[k] < |ps|
  {
    if ids == [] then Zero else Add(Sum(ps, ids[..|ids| - 1]), ps[ids[|ids| - 1]])
  }

  /** The mean of the listed positions (the grab anchor). */
  function Mean(ps: seq<Vec3>, ids: seq<nat>): Vec3
    requires ids != [] && forall k :: 0 <= k < |ids| ==> ids[k] < |ps|
  {
    Scale(Sum(ps, ids), 1.0 / (|ids| as real))
  }

  // ---------------------------------------------------------------- the tool

  class VertexHighlightRenderer {
    var selection: set<nat>
    var sortedCandidates: seq<nat>
    var currentIndex: int
    var selectionRadius: real
    var state: SelectionState
    var grabAnchor: Vec3
    var grabAnchorDepth: real
    var initialPositions: map<nat, Vec3>
    /** The candidates with their depths, in the order of sortedCandidates. */
    ghost var ranked: seq<Candidate>
    /** The order BeginGrab visited the grabbed vertices in. */
    ghost var grabOrder: seq<nat>

    /** The cursor is -1 exactly when there are no candidates, and otherwise points at one. */
    ghost predicate Valid()
      reads this
    {
      && (sortedCandidates == [] <==> currentIndex == -1)
      && -1 <= currentIndex < |sortedCandidates|
    }

    /** The vertex under the cursor, if any. */
    function Current(): (r: set<nat>)
      reads this
      requires Valid()
      ensures |r| <= 1
      ensures sortedCandidates != [] <==> r != {}
    {
      if currentIndex >= 0 && sortedCandidates != [] then {sortedCandidates[currentIndex]} else {}
    }

    /** What GetSelection reports: the committed selection and the vertex under the cursor. */
    function Selected(): set<nat>
      reads this
      requires Valid()
    {
      selection + Current()
    }

    constructor ()
      ensures Valid()
      ensures selection == {} && sortedCandidates == [] && currentIndex == -1
      ensures selectionRadius == 10.0 && state == Idle && initialPositions == map[]
    {
      selection, sortedCandidates, currentIndex := {}, [], -1;
      selectionRadius, state := 10.0, Idle;
      grabAnchor, grabAnchorDepth, initialPositions := Zero, 0.0, map[];
      ranked, grabOrder := [], [];
    }

    /** GetSelection: every selected vertex once, in an order the source leaves open
        (it copies an unordered set). */
    method GetSelection() returns (r: seq<nat>)
      requires Valid()
      ensures Lists(r, Selected()) && |r| == |Selected()|
    {
      var rest := selection;
      if currentIndex >= 0 && sortedCandidates != [] {
        rest := rest + {sortedCandidates[currentIndex]};
      }
      r := [];
      while rest != {}
        invariant rest !! set v | v in r
        invariant forall v :: v in Selected() <==> v in r || v in rest
        invariant forall i, j :: 0 <= i < j < |r| ==> r[i] != r[j]
        decreases |rest|
      {
        var v :| v in rest;
        r := r + [v];
        rest := rest - {v};
      }
      CardOfDistinct(r, Selected());
    }

    /** ExtendSelection: the vertex under the cursor joins the committed selection;
        without one nothing changes. */
    method ExtendSelection()
      modifies this
      requires Valid()
      ensures Valid()
      ensures selection == old(Selected())
      ensures sortedCandidates == old(sortedCandidates) && currentIndex == old(currentIndex)
      ensures state == old(state) && initialPositions == old(initialPositions) && ranked == old(ranked)
      ensures selectionRadius == old(selectionRadius) && grabAnchor == old(grabAnchor) && grabAnchorDepth == old(grabAnchorDepth)
    {
      if currentIndex >= 0 && sortedCandidates != [] {
        selection := selection + {sortedCandidates[currentIndex]};
      }
    }

    /** ClearSelection: the committed selection is emptied; the cursor stays. */
    method ClearSelection()
      modifies this
      requires Valid()
      ensures Valid()
      ensures selection == {} && Selected() == old(Current())
      ensures sortedCandidates == old(sortedCandidates) && currentIndex == old(currentIndex)
      ensures state == old(state) && initialPositions == old(initialPositions) && ranked == old(ranked)
      ensures selectionRadius == old(selectionRadius) && grabAnchor == old(grabAnchor) && grabAnchorDepth == old(grabAnchorDepth)
    {
      selection := {};
    }

    /** MoveSelection: every selected vertex moves by `vector`, nothing else moves. */
    method MoveSelection(scene: Scene, vector: Vec3)
      modifies scene
      requires Valid()
      requires forall v :: v in Selected() ==> v < |scene.positions|
      ensures |scene.positions| == |old(scene.positions)|
      ensures forall v :: 0 <= v < |scene.positions| ==>
        scene.positions[v] == if v in Selected() then Add(vector, old(scene.positions[v])) else old(scene.positions[v])
    {
      var sel := Selected();
      var target := map v | v in sel :: Add(vector, scene.positions[v]);
      var updates := WritesFor(sel, target);
      AppliedFrom(scene.positions, updates, target);
      scene.UpdateVertices(updates);
    }

    /** BeginGrab: with nothing selected nothing happens; otherwise the tool grabs,
        records the position of exactly the selected vertices, and anchors at their mean
        and its projected depth. */
    method BeginGrab(scene: Scene, clip: Vec3 -> Clip)
      modifies this
      requires Valid()
      requires forall v :: v in Selected() ==> v < |scene.positions|
      ensures Valid()
      ensures old(Selected()) == {} ==> state == old(state) && initialPositions == old(initialPositions)
      ensures old(Selected()) != {} ==>
        && state == Grabbing && Lists(grabOrder, old(Selected()))
        && Recorded(scene.positions, initialPositions, grabOrder, grabAnchor)
        && grabAnchorDepth == NdcDepth(clip(grabAnchor))
      ensures selection == old(selection) && sortedCandidates == old(sortedCandidates)
      ensures currentIndex == old(currentIndex) && ranked == old(ranked)
      ensures selectionRadius == old(selectionRadius)
      ensures old(Selected()) == {} ==> grabAnchor == old(grabAnchor) && grabAnchorDepth == old(grabAnchorDepth) && grabOrder == old(grabOrder)
    {
      var sel := GetSelection();
      if |sel| == 0 {
        return;
      }
      var initial, anchor := Record(scene.positions, sel, Selected());
      state, initialPositions, grabOrder, grabAnchor := Grabbing, initial, sel, anchor;
      var c := clip(anchor);
      grabAnchorDepth := if c.w != 0.0 then c.z / c.w else 0.0;
    }

    /** UpdateGrab: every recorded vertex is put at its recorded position plus the same
        move, from the anchor to the world point under the mouse at the anchor's depth. */
    method UpdateGrab(scene: Scene, mouseX: real, mouseY: real, width: real, height: real, unproject: Vec3 -> Clip)
      modifies scene
      requires width != 0.0 && height != 0.0
      ensures |scene.positions| == |old(scene.positions)|
      ensures forall v :: 0 <= v < |scene.positions| ==>
        scene.positions[v] == if v in initialPositions
          then Add(initialPositions[v], Sub(UnderMouse(unproject, mouseX, mouseY, width, height, grabAnchorDepth), grabAnchor))
          else old(scene.positions[v])
    {
      var ndcX := mouseX / width * 2.0 - 1.0;
      var ndcY := mouseY / height * 2.0 - 1.0;
      var world := unproject(Vec3(ndcX, ndcY, grabAnchorDepth));
      if world.w != 0.0 {
        world := Clip(world.x / world.w, world.y / world.w, world.z / world.w, 1.0);
      }
      var move := Sub(Vec3(world.x, world.y, world.z), grabAnchor);
      var target := map v | v in initialPositions :: Add(initialPositions[v], move);
      var updates := WritesFor(initialPositions.Keys, target);
      AppliedFrom(scene.positions, updates, target);
      scene.UpdateVertices(updates);
    }

    /** ConfirmGrab: back to idle, keeping the moved positions; the scene is not touched. */
    method ConfirmGrab()
      modifies this
      requires Valid()
      ensures Valid()
      ensures state == Idle && initialPositions == map[]
      ensures selection == old(selection) && sortedCandidates == old(sortedCandidates)
      ensures currentIndex == old(currentIndex) && ranked == old(ranked)
      ensures selectionRadius == old(selectionRadius) && grabAnchor == old(grabAnchor) && grabAnchorDepth == old(grabAnchorDepth)
    {
      state := Idle;
      initialPositions := map[];
    }

    /** CancelGrab: back to idle, every recorded vertex put back at its recorded position. */
    method CancelGrab(scene: Scene)
      modifies this, scene
      requires Valid()
      ensures Valid()
      ensures state == Idle && initialPositions == map[]
      ensures |scene.positions| == |old(scene.positions)|
      ensures forall v :: 0 <= v < |scene.positions| ==>
        scene.positions[v] == if v in old(initialPositions) then old(initialPositions)[v] else old(scene.positions[v])
      ensures selection == old(selection) && sortedCandidates == old(sortedCandidates)
      ensures currentIndex == old(currentIndex) && ranked == old(ranked)
      ensures selectionRadius == old(selectionRadius) && grabAnchor == old(grabAnchor) && grabAnchorDepth == old(grabAnchorDepth)
    {
      state := Idle;
      var updates := WritesFor(initialPositions.Keys, initialPositions);
      AppliedFrom(scene.positions, updates, initialPositions);
      scene.UpdateVertices(updates);
      initialPositions := map[];
    }

    /** UpdateCandidates: the vertices passing the screen test, ordered by depth, with
        the cursor on the nearest one, or -1 when there is none. */
    method UpdateCandidates(mouseX: real, mouseY: real, clip: Vec3 -> Clip, width: real, height: real,
                            vertices: seq<Vec3>)
      modifies this
      ensures Valid()
      ensures Ranks(ranked, sortedCandidates, Hits(vertices, clip, mouseX, mouseY, width, height, selectionRadius))
      ensures currentIndex == if sortedCandidates == [] then -1 else 0
      ensures selection == old(selection) && state == old(state) && initialPositions == old(initialPositions)
      ensures selectionRadius == old(selectionRadius)
      ensures grabAnchor == old(grabAnchor) && grabAnchorDepth == old(grabAnchorDepth)
    {
      var radius := selectionRadius;
      var sorted, ids := Rank(mouseX, mouseY, clip, width, height, vertices, radius);
      ghost var hits := Hits(vertices, clip, mouseX, mouseY, width, height, radius);
      assert Ranks(sorted, ids, hits);
      sortedCandidates, ranked, currentIndex := ids, sorted, if ids == [] then -1 else 0;
      assert selectionRadius == radius;
    }

    /** CycleSelection: without candidates nothing changes; otherwise the cursor moves
        by delta, clamped to the list. */
    method CycleSelection(delta: int)
      modifies this
      requires Valid()
      ensures Valid()
      ensures sortedCandidates == [] ==> currentIndex == old(currentIndex)
      ensures sortedCandidates != [] ==> currentIndex == Clamp(old(currentIndex) + delta, 0, |sortedCandidates| - 1)
      ensures sortedCandidates == old(sortedCandidates) && selection == old(selection)
      ensures state == old(state) && initialPositions == old(initialPositions) && ranked == old(ranked)
      ensures selectionRadius == old(selectionRadius) && grabAnchor == old(grabAnchor) && grabAnchorDepth == old(grabAnchorDepth)
    {
      if sortedCandidates == [] {
        return;
      }
      var lowered := if currentIndex + delta > 0 then currentIndex + delta else 0;
      currentIndex := if lowered < |sortedCandidates| - 1 then lowered else |sortedCandidates| - 1;
    }
  }

  lemma AddShift(s: Vec3, p: Vec3, move: Vec3, n: real)
    ensures Add(Add(s, Scale(move, n)), Add(p, move)) == Add(Add(s, p), Scale(move, n + 1.0))
  {
    assert move.x * (n + 1.0) == move.x * n + move.x;
    assert move.y * (n + 1.0) == move.y * n + move.y;
    assert move.z * (n + 1.0) == move.z * n + move.z;
  }

  lemma MeanShift(s: Vec3, move: Vec3, n: real)
    requires n > 0.0
    ensures Scale(Add(s, Scale(move, n)), 1.0 / n) == Add(Scale(s, 1.0 / n), move)
  {
    assert n * (1.0 / n) == 1.0;
    assert move.x * n * (1.0 / n) == move.x * (n * (1.0 / n));
    assert move.y * n * (1.0 / n) == move.y * (n * (1.0 / n));
    assert move.z * n * (1.0 / n) == move.z * (n * (1.0 / n));
  }

  /** Moving every listed position by `move` moves their sum by |order| times `move`. */
  lemma {:induction false} SumShifted(ps: seq<Vec3>, qs: seq<Vec3>, order: seq<nat>, move: Vec3)
    requires forall k :: 0 <= k < |order| ==> order[k] < |ps| && order[k] < |qs| && qs[order[k]] == Add(ps[order[k]], move)
    ensures Sum(qs, order) == Add(Sum(ps, order), Scale(move, |order| as real))
    decreases |order|
  {
    if order == [] {
      assert Scale(move, 0.0) == Zero;
    } else {
      var n := |order| - 1;
      var pre := order[..n];
      SumShifted(ps, qs, pre, move);
      assert Sum(qs, order) == Add(Sum(qs, pre), qs[order[n]]);
      assert Sum(ps, order) == Add(Sum(ps, pre), ps[order[n]]);
      AddShift(Sum(ps, pre), ps[order[n]], move, n as real);
    }
  }

  /** Moving every listed position by `move` moves their mean by `move`: after UpdateGrab
      the grabbed vertices' centroid is the anchor moved by the grab's move vector. */
  lemma CentroidFollows(before: seq<Vec3>, after: seq<Vec3>, order: seq<nat>, move: Vec3)
    requires order != []
    requires forall k :: 0 <= k < |order| ==> order[k] < |before| && order[k] < |after| && after[order[k]] == Add(before[order[k]], move)
    ensures Mean(after, order) == Add(Mean(before, order), move)
  {
    SumShifted(before, after, order, move);
    MeanShift(Sum(before, order), move, |order| as real);
  }

  /** A repetition-free list has as many entries as the set it lists. */
  lemma {:induction false} CardOfDistinct(s: seq<nat>, keys: set<nat>)
    requires forall v :: v in s <==> v in keys
    requires forall i, j :: 0 <= i < j < |s| ==> s[i] != s[j]
    ensures |keys| == |s|
    decreases |s|
  {
    if s != [] {
      var n := |s| - 1;
      assert forall v :: v in keys - {s[n]} <==> v in s[..n];
      CardOfDistinct(s[..n], keys - {s[n]});
    }
  }

  /** Begin, any number of updates, then cancel: every vertex is back where it was
      before the grab. */
  method GrabThenCancel(tool: VertexHighlightRenderer, scene: Scene, clip: Vec3 -> Clip, unproject: Vec3 -> Clip,
                        width: real, height: real, mice: seq<(real, real)>)
    modifies tool, scene
    requires tool.Valid()
    requires tool.state == Idle && tool.initialPositions == map[]
    requires width != 0.0 && height != 0.0
    requires forall v :: v in tool.Selected() ==> v < |scene.positions|
    ensures scene.positions == old(scene.positions)
  {
    ghost var original := scene.positions;
    tool.BeginGrab(scene, clip);
    var k := 0;
    while k < |mice|
      invariant 0 <= k <= |mice| && |scene.positions| == |original|
      invariant tool.Valid()
      invariant forall v :: v in tool.initialPositions ==> v < |original| && tool.initialPositions[v] == original[v]
      invariant forall v :: 0 <= v < |original| && v !in tool.initialPositions ==> scene.positions[v] == original[v]
    {
      tool.UpdateGrab(scene, mice[k].0, mice[k].1, width, height, unproject);
      k := k + 1;
    }
    tool.CancelGrab(scene);
    assert scene.positions == original by {
      forall v | 0 <= v < |original| ensures scene.positions[v] == original[v] {
      }
    }
  }
}
