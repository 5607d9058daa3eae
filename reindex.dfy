/** The main block of the Morton sorting script: the vertices of a tetrahedral mesh
    are reordered with the permutation argsort returns for their Morton codes, and
    every tetrahedron corner index is rewritten to follow its vertex.

    The vertex rows are elements of an array of any type `V`; the tetrahedra are an
    array of four-column rows of indices; the permutation (`index_map`) is an input
    with the properties argsort guarantees. */
module Reindex {
  /** `m` lists every index below `n` exactly once. */
  predicate IsPermutation(m: seq<int>, n: nat) {
    && |m| == n
    && (forall i :: 0 <= i < n ==> 0 <= m[i] < n)
    && (forall i, j :: 0 <= i < j < n ==> m[i] != m[j])
    && (forall v :: 0 <= v < n ==> Covers(m, v))
  }

  predicate Covers(m: seq<int>, v: int) {
    exists k :: 0 <= k < |m| && m[k] == v
  }

  /** Unsigned order on codes, named so that the solver matches it as written. */
  predicate NotAbove(a: bv64, b: bv64) {
    a <= b
  }

  predicate Sorted(s: seq<bv64>) {
    forall i, j :: 0 <= i <= j < |s| ==> NotAbove(s[i], s[j])
  }

  /** What argsort returns for `codes`: a permutation listing the indices by ascending
      code (compared as unsigned 64-bit integers). */
  predicate Argsorted(codes: seq<bv64>, m: seq<int>) {
    && IsPermutation(m, |codes|)
    && (forall i, j :: 0 <= i <= j < |m| ==> NotAbove(codes[m[i]], codes[m[j]]))
  }

  /** The code of every vertex, in vertex order. */
  function Codes<V>(verts: seq<V>, code: V -> bv64): (r: seq<bv64>)
    ensures |r| == |verts|
    ensures forall i :: 0 <= i < |verts| ==> r[i] == code(verts[i])
  {
    seq(|verts|, i requires 0 <= i < |verts| => code(verts[i]))
  }

  /** Every corner of every tetrahedron indexes one of `n` vertices. */
  predicate ValidTets(tets: array2<int>, n: nat)
    reads tets
  {
    && tets.Length1 == 4
    && forall t, c :: 0 <= t < tets.Length0 && 0 <= c < 4 ==> 0 <= tets[t, c] < n
  }

  /** `tmp = np.copy(verts); verts[index_map] = tmp`: row i moves to position
      index_map[i]. */
  method Scatter<V>(a: array<V>, m: seq<int>)
    requires IsPermutation(m, a.Length)
    modifies a
    ensures forall i :: 0 <= i < a.Length ==> a[m[i]] == old(a[i])
  {
    var tmp := a[..];
    var i := 0;
    while i < a.Length
      invariant 0 <= i <= a.Length
      invariant forall j :: 0 <= j < i ==> a[m[j]] == tmp[j]
    {
      a[m[i]] := tmp[i];
      i := i + 1;
    }
  }

  /** The other way round: position k receives row index_map[k]. */
  method Gather<V>(a: array<V>, m: seq<int>)
    requires IsPermutation(m, a.Length)
    modifies a
    ensures forall k :: 0 <= k < a.Length ==> a[k] == old(a[m[k]])
  {
    var tmp := a[..];
    var k := 0;
    while k < a.Length
      invariant 0 <= k <= a.Length
      invariant forall j :: 0 <= j < k ==> a[j] == tmp[m[j]]
    {
      a[k] := tmp[m[k]];
      k := k + 1;
    }
  }

  /** The loop over tetrahedra: each of the four corners v of every row becomes
      relabel[v]. */
  method RemapTets(tets: array2<int>, relabel: seq<int>)
    requires ValidTets(tets, |relabel|)
    modifies tets
    ensures forall t, c :: 0 <= t < tets.Length0 && 0 <= c < 4 ==>
      tets[t, c] == relabel[old(tets[t, c])]
  {
    var t := 0;
    while t < tets.Length0
      invariant 0 <= t <= tets.Length0
      invariant forall r, c :: 0 <= r < t && 0 <= c < 4 ==>
        tets[r, c] == relabel[old(tets[r, c])]
      invariant forall r, c :: t <= r < tets.Length0 && 0 <= c < 4 ==>
        tets[r, c] == old(tets[r, c])
    {
      tets[t, 0] := relabel[tets[t, 0]];
      tets[t, 1] := relabel[tets[t, 1]];
      tets[t, 2] := relabel[tets[t, 2]];
      tets[t, 3] := relabel[tets[t, 3]];
      t := t + 1;
    }
  }

  /** The inverse permutation: rank[v] is the position of v in `m`. */
  method Invert(m: seq<int>) returns (rank: seq<int>)
    requires IsPermutation(m, |m|)
    ensures |rank| == |m|
    ensures forall k :: 0 <= k < |m| ==> rank[m[k]] == k
    ensures forall v :: 0 <= v < |m| ==> 0 <= rank[v] < |m| && m[rank[v]] == v
  {
    rank := seq(|m|, _ => 0);
    var k := 0;
    while k < |m|
      invariant 0 <= k <= |m| && |rank| == |m|
      invariant forall v :: 0 <= v < |m| ==> 0 <= rank[v] < |m|
      invariant forall j :: 0 <= j < k ==> rank[m[j]] == j
    {
      rank := rank[m[k] := k];
      k := k + 1;
    }
    forall v | 0 <= v < |m|
      ensures m[rank[v]] == v
    {
      assert Covers(m, v);
      var j :| 0 <= j < |m| && m[j] == v;
    }
  }

  /** The script as written: the vertices are scattered by index_map and each corner v
      is relabelled index_map[v]. Every corner still names the vertex it named before,
      but vertex i of the output is not the i-th smallest code (see ScatterDoesNotSort). */
  method ReorderAsWritten<V>(verts: array<V>, tets: array2<int>, indexMap: seq<int>)
    requires IsPermutation(indexMap, verts.Length)
    requires ValidTets(tets, verts.Length)
    modifies verts, tets
    ensures forall i :: 0 <= i < verts.Length ==> verts[indexMap[i]] == old(verts[i])
    ensures ValidTets(tets, verts.Length)
    ensures forall t, c :: 0 <= t < tets.Length0 && 0 <= c < 4 ==> tets[t, c] == indexMap[old(tets[t, c])]
    ensures forall t, c :: 0 <= t < tets.Length0 && 0 <= c < 4 ==>
      verts[tets[t, c]] == old(verts[tets[t, c]])
  {
    Scatter(verts, indexMap);
    RemapTets(tets, indexMap);
  }

  /** The reordering the script is meant to perform: vertex k of the output is the
      vertex with the k-th smallest code, and each corner v is relabelled with the new
      position of v. The output is sorted by code and every corner still names the
      vertex it named before. */
  method Reorder<V>(verts: array<V>, tets: array2<int>, code: V -> bv64, indexMap: seq<int>)
    requires Argsorted(Codes(verts[..], code), indexMap)
    requires ValidTets(tets, verts.Length)
    modifies verts, tets
    ensures forall k :: 0 <= k < verts.Length ==> verts[k] == old(verts[indexMap[k]])
    ensures Sorted(Codes(verts[..], code))
    ensures ValidTets(tets, verts.Length)
    ensures forall t, c :: 0 <= t < tets.Length0 && 0 <= c < 4 ==> indexMap[tets[t, c]] == old(tets[t, c])
    ensures forall t, c :: 0 <= t < tets.Length0 && 0 <= c < 4 ==>
      verts[tets[t, c]] == old(verts[tets[t, c]])
  {
    ghost var codes := Codes(verts[..], code);
    Gather(verts, indexMap);
    GatherSorts(codes, Codes(verts[..], code), indexMap);
    var rank := Invert(indexMap);
    RemapTets(tets, rank);
  }

  /** Taking the rows in argsort order sorts them by code. */
  lemma GatherSorts(codes: seq<bv64>, gathered: seq<bv64>, m: seq<int>)
    requires Argsorted(codes, m)
    requires |gathered| == |m|
    requires forall k :: 0 <= k < |m| ==> gathered[k] == codes[m[k]]
    ensures Sorted(gathered)
  {
  }

  /** Codes 2, 0, 1 have argsort [1, 2, 0]; scattering puts their vertices in the order
      of codes 1, 2, 0, which is not sorted. */
  lemma ScatterDoesNotSort(s: seq<bv64>)
    requires |s| == 3
    requires forall i :: 0 <= i < 3 ==> s[[1, 2, 0][i]] == [2, 0, 1][i]
    ensures Argsorted([2, 0, 1], [1, 2, 0])
    ensures s == [1, 2, 0] && !Sorted(s)
  {
    ArgsortExample();
    assert s[1] == 2 && s[2] == 0 && s[0] == 1 by {
      assert [1, 2, 0][0] == 1 && [1, 2, 0][1] == 2 && [1, 2, 0][2] == 0;
    }
    assert !NotAbove(s[1], s[2]);
  }

  lemma ArgsortExample()
    ensures Argsorted([2, 0, 1], [1, 2, 0])
  {
    var codes: seq<bv64>, m := [2, 0, 1], [1, 2, 0];
    assert Covers(m, 0) && Covers(m, 1) && Covers(m, 2) by {
      assert m[2] == 0 && m[0] == 1 && m[1] == 2;
    }
    assert codes[m[0]] == 0 && codes[m[1]] == 1 && codes[m[2]] == 2;
  }
}
