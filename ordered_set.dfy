/** Sets of vertex ids as the C++ iterates them (std::set<uint32_t>, ascending), and
    the dense local numbering both gizmos give to a list of distinct vertex ids. */
module OrderedSet {
  ghost predicate StrictlyIncreasing(s: seq<nat>) {
    forall i, j :: 0 <= i < j < |s| ==> s[i] < s[j]
  }

  lemma LeastExists(s: set<nat>)
    requires s != {}
    ensures exists m :: m in s && forall x :: x in s ==> m <= x
  {
    var y :| y in s;
    LeastBelow(s, y);
  }

  lemma {:induction false} LeastBelow(s: set<nat>, y: nat)
    requires y in s
    ensures exists m :: m in s && forall x :: x in s ==> m <= x
    decreases y
  {
    if exists z :: z in s && z < y {
      var z :| z in s && z < y;
      LeastBelow(s, z);
    } else {
      assert forall x :: x in s ==> y <= x;
    }
  }

  ghost function Least(s: set<nat>): (m: nat)
    requires s != {}
    ensures m in s && forall x :: x in s ==> m <= x
  {
    LeastExists(s);
    var m :| m in s && forall x :: x in s ==> m <= x; m
  }

  /** The elements of a std::set<uint32_t> in its iteration order. */
  ghost function Ascending(s: set<nat>): seq<nat>
    decreases s
  {
    if s == {} then [] else [Least(s)] + Ascending(s - {Least(s)})
  }

  /** Iterating a set visits each of its elements once, in strictly increasing order. */
  lemma {:induction false} AscendingSpec(s: set<nat>)
    ensures StrictlyIncreasing(Ascending(s))
    ensures forall x :: x in Ascending(s) <==> x in s
    ensures |Ascending(s)| == |s|
    decreases s
  {
    if s != {} {
      var m := Least(s);
      AscendingSpec(s - {m});
      var r := Ascending(s - {m});
      assert Ascending(s) == [m] + r;
      forall i, j | 0 <= i < j < |[m] + r| ensures ([m] + r)[i] < ([m] + r)[j] {
        if i == 0 {
          assert ([m] + r)[j] == r[j - 1] && r[j - 1] in s - {m};
        } else {
          assert ([m] + r)[i] == r[i - 1] && ([m] + r)[j] == r[j - 1];
        }
      }
    }
  }

  /** Copies a set into a vector in iteration order (vector::assign over a std::set). */
  method ToAscending(s: set<nat>) returns (r: seq<nat>)
    ensures r == Ascending(s)
  {
    r := [];
    var rest := s;
    while rest != {}
      invariant r + Ascending(rest) == Ascending(s)
      decreases |rest|
    {
      LeastExists(rest);
      var m :| m in rest && forall x :: x in rest ==> m <= x;
      assert m == Least(rest);
      assert Ascending(rest) == [m] + Ascending(rest - {m});
      r := r + [m];
      rest := rest - {m};
    }
  }


  /** `local` maps the vertices of `pv` to their positions in it, and nothing else. */
  ghost predicate IndexesOf(local: map<nat, nat>, pv: seq<nat>) {
    && (forall i :: 0 <= i < |pv| ==> pv[i] in local && local[pv[i]] == i)
    && (forall g :: g in local ==> local[g] < |pv| && pv[local[g]] == g)
  }

  ghost predicate Distinct(s: seq<nat>) {
    forall i, j :: 0 <= i < j < |s| ==> s[i] != s[j]
  }

  /** The global-to-local map of initLa / initPBD: each listed vertex maps to its position. */
  method IndexMap(pv: seq<nat>) returns (local: map<nat, nat>)
    requires Distinct(pv)
    ensures IndexesOf(local, pv)
  {
    local := map[];
    var i := 0;
    while i < |pv|
      invariant 0 <= i <= |pv|
      invariant IndexesOf(local, pv[..i])
    {
      assert pv[..i + 1] == pv[..i] + [pv[i]];
      assert pv[i] !in local;
      local := local[pv[i] := i];
      i := i + 1;
    }
    assert pv[..i] == pv;
  }
}
