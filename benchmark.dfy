/** The benchmark driver: the loaded cameras are listed in name order, every
    llffHold-th of them is kept, and a per-frame state machine renders each kept camera
    for half a second at a reduced resolution and records one frames-per-second figure
    per camera. */
module Benchmark {
  import opened Endian
  import opened Colmap

  /** Default command-line values (--llff_hold, --downsample) and the time spent on each
      camera, in seconds. */
  const DefaultLlffHold := 8
  const DefaultDownsample := 4
  const BenchmarkDuration := 0.5

  // ---------------------------------------------------------------------------------
  // Name order of the camera map

  /** The order of std::string keys: the first differing byte decides, compared as
      unsigned; a proper prefix comes first. */
  predicate LexLess(a: seq<Byte>, b: seq<Byte>)
    ensures |a| < |b| && a == b[..|a|] ==> LexLess(a, b)
    ensures LexLess(a, b) ==> a != b
    decreases |a|
  {
    if a == [] then b != []
    else b != [] && (a[0] < b[0] || (a[0] == b[0] && LexLess(a[1..], b[1..])))
  }

  lemma {:induction false} LexIrreflexive(a: seq<Byte>)
    ensures !LexLess(a, a)
    decreases |a|
  {
    if a != [] {
      LexIrreflexive(a[1..]);
    }
  }

  lemma {:induction false} LexTransitive(a: seq<Byte>, b: seq<Byte>, c: seq<Byte>)
    requires LexLess(a, b) && LexLess(b, c)
    ensures LexLess(a, c)
    decreases |a|
  {
    if a != [] && a[0] == b[0] && b[0] == c[0] {
      LexTransitive(a[1..], b[1..], c[1..]);
    }
  }

  lemma {:induction false} LexTotal(a: seq<Byte>, b: seq<Byte>)
    requires a != b
    ensures LexLess(a, b) || LexLess(b, a)
    decreases |a|
  {
    if a != [] && b != [] && a[0] == b[0] {
      LexTotal(a[1..], b[1..]);
    }
  }

  /** `m` comes before every other key of `s`. */
  predicate Least(m: seq<Byte>, s: set<seq<Byte>>) {
    m in s && forall k :: k in s && k != m ==> LexLess(m, k)
  }

  /** A finite non-empty set of names has a first one. */
  lemma {:induction false} HasLeast(s: set<seq<Byte>>)
    requires s != {}
    ensures exists m :: Least(m, s)
    decreases |s|
  {
    var x :| x in s;
    var t := s - {x};
    if t == {} {
      assert s == {x};
      assert Least(x, s);
    } else {
      HasLeast(t);
      var m :| Least(m, t);
      if LexLess(x, m) {
        forall k | k in s && k != x
          ensures LexLess(x, k)
        {
          if k != m {
            LexTransitive(x, m, k);
          }
        }
        assert Least(x, s);
      } else {
        LexTotal(x, m);
        assert Least(m, s);
      }
    }
  }

  /** `keys` is strictly increasing in name order. */
  predicate Increasing(keys: seq<seq<Byte>>) {
    forall i, j :: 0 <= i < j < |keys| ==> LexLess(keys[i], keys[j])
  }

  /** The range-for over the std::map: the values in ascending order of their names,
      each name once. */
  method MapToVector<V>(m: map<seq<Byte>, V>) returns (r: seq<V>, ghost keys: seq<seq<Byte>>)
    ensures |r| == |m|
    ensures |keys| == |m|
    ensures Increasing(keys)
    ensures forall i :: 0 <= i < |keys| ==> keys[i] in m && r[i] == m[keys[i]]
    ensures forall k :: k in m ==> k in keys
  {
    var rest := m.Keys;
    r, keys := [], [];
    while rest != {}
      invariant |r| == |keys| && |keys| + |rest| == |m|
      invariant rest <= m.Keys
      invariant Increasing(keys)
      invariant forall i :: 0 <= i < |keys| ==> keys[i] in m && keys[i] !in rest && r[i] == m[keys[i]]
      invariant forall i, k :: 0 <= i < |keys| && k in rest ==> LexLess(keys[i], k)
      invariant forall k :: k in m ==> k in rest || k in keys
      decreases |rest|
    {
      HasLeast(rest);
      var k :| Least(k, rest);
      forall i | 0 <= i < |keys|
        ensures LexLess(keys[i], k)
      {
      }
      r, keys := r + [m[k]], keys + [k];
      rest := rest - {k};
    }
  }

  // ---------------------------------------------------------------------------------
  // The llffHold filter

  lemma MulMono(a: int, b: int, h: int)
    requires a <= b && h >= 0
    ensures a * h <= b * h
  {
  }

  /** Two multiples of h in a window shorter than h are the same multiple. */
  lemma SameMultiple(a: int, b: int, h: int, lo: int)
    requires h > 0
    requires lo <= a * h < lo + h && lo <= b * h < lo + h
    ensures a == b
  {
    if a < b {
      MulMono(a + 1, b, h);
    } else if b < a {
      MulMono(b + 1, a, h);
    }
  }

  /** Position i is a kept one exactly when the next kept position n h is i itself. */
  lemma KeptPosition(i: nat, n: nat, h: int)
    requires h > 0 && i <= n * h < i + h
    ensures i % h == 0 <==> n * h == i
  {
    var q, r := i / h, i % h;
    assert i == q * h + r && 0 <= r < h;
    if r == 0 {
      SameMultiple(n, q, h, i);
    } else if n * h == i {
      SameMultiple(n, q, h, q * h);
    }
  }

  /** The number of kept positions: n <= c h < n + h makes c the ceiling of n / h. */
  lemma CeilCount(n: nat, c: nat, h: int)
    requires h > 0 && n <= c * h < n + h
    ensures c == (n + h - 1) / h
  {
    var q := (n + h - 1) / h;
    assert n + h - 1 == q * h + (n + h - 1) % h;
    SameMultiple(c, q, h, n);
  }

  /** A multiple i of h below n <= c h is the position of kept element i / h. */
  lemma KeptIndex(i: nat, c: nat, h: int, n: nat)
    requires h > 0 && i < n <= c * h && i % h == 0
    ensures i / h < c && (i / h) * h == i
  {
    assert i == (i / h) * h + i % h;
    if i / h >= c {
      MulMono(c, i / h, h);
    }
  }

  /** The llffHold filter: with a positive hold, the elements at positions 0, h, 2h, ...,
      ceil(n / h) of them; with a hold of zero or less, every element. */
  method LlffFilter<V>(all: seq<V>, hold: int) returns (r: seq<V>)
    ensures hold > 0 ==> |r| == (|all| + hold - 1) / hold
    ensures hold > 0 ==> forall k :: 0 <= k < |r| ==> k * hold < |all| && r[k] == all[k * hold]
    ensures hold > 0 ==> forall i :: 0 <= i < |all| && i % hold == 0 ==> i / hold < |r| && r[i / hold] == all[i]
    ensures hold <= 0 ==> r == all
  {
    if hold > 0 {
      r := KeepEvery(all, hold);
      CeilCount(|all|, |r|, hold);
      forall i | 0 <= i < |all| && i % hold == 0
        ensures i / hold < |r| && r[i / hold] == all[i]
      {
        KeptIndex(i, |r|, hold, |all|);
      }
    } else {
      r := all;
    }
  }

  /** The filter loop for a positive hold: position i is kept when i % hold == 0. */
  method KeepEvery<V>(all: seq<V>, hold: int) returns (r: seq<V>)
    requires hold > 0
    ensures |all| <= |r| * hold < |all| + hold
    ensures forall k :: 0 <= k < |r| ==> k * hold < |all| && r[k] == all[k * hold]
  {
    r := [];
    var i := 0;
    while i < |all|
      invariant 0 <= i <= |all|
      invariant i <= |r| * hold < i + hold
      invariant forall k :: 0 <= k < |r| ==> k * hold < i && r[k] == all[k * hold]
    {
      KeptPosition(i, |r|, hold);
      if i % hold == 0 {
        r := r + [all[i]];
      }
      i := i + 1;
    }
  }

  /** The cameras benchmarked: the loaded map in name order, thinned by the hold. */
  method BenchmarkCameras(allCameras: map<seq<Byte>, ColmapCamera>, hold: int)
    returns (r: seq<ColmapCamera>, ghost names: seq<seq<Byte>>)
    ensures Increasing(names) && |names| == |allCameras|
    ensures forall k :: k in allCameras ==> k in names
    ensures hold > 0 ==> |r| == (|allCameras| + hold - 1) / hold
    ensures hold > 0 ==> forall k :: 0 <= k < |r| ==>
      k * hold < |names| && names[k * hold] in allCameras && r[k] == allCameras[names[k * hold]]
    ensures hold <= 0 ==> |r| == |names| && forall k :: 0 <= k < |r| ==>
      names[k] in allCameras && r[k] == allCameras[names[k]]
  {
    var all;
    all, names := MapToVector(allCameras);
    r := LlffFilter(all, hold);
    if hold > 0 {
      forall k | 0 <= k < |r|
        ensures k * hold < |names| && names[k * hold] in allCameras && r[k] == allCameras[names[k * hold]]
      {
        assert k * hold < |all| && r[k] == all[k * hold];
      }
    } else {
      assert r == all;
    }
  }

  // ---------------------------------------------------------------------------------
  // The per-frame benchmark state

  /** `(uint)v`: the two's-complement value modulo 2^32. */
  function AsUint(v: int): (r: nat)
    ensures r < 0x1_0000_0000
    ensures 0 <= v < 0x1_0000_0000 ==> r == v
  {
    v % 0x1_0000_0000
  }

  /** `dimensions / (uint)downsampleFactor`, component by component. */
  function Downsample(d: Dims, factor: int): (r: Dims)
    requires AsUint(factor) != 0
    ensures r.x * AsUint(factor) <= d.x < (r.x + 1) * AsUint(factor)
    ensures r.y * AsUint(factor) <= d.y < (r.y + 1) * AsUint(factor)
  {
    Dims(UintDiv(d.x, AsUint(factor)), UintDiv(d.y, AsUint(factor)))
  }

  /** Unsigned division, rounding down. */
  function UintDiv(a: nat, b: nat): nat
    requires b > 0
  {
    a / b
  }

  /** The variables the Viewport widget keeps between frames, and the parts of the render
      context it sets: the camera and the resolution override. */
  class BenchmarkSession {
    const cameras: seq<ColmapCamera>
    const downsampleFactor: int
    var isBenchmarking: bool
    var currentCameraIndex: int
    var frameCount: int
    var fpsResults: seq<real>
    var camera: ViewportCamera
    var overrideResolution: Option<Dims>

    /** One result per camera finished so far, every result positive; while running,
        the current camera is applied at the reduced resolution; otherwise no override. */
    ghost predicate Valid()
      reads this
    {
      && AsUint(downsampleFactor) != 0
      && 0 <= currentCameraIndex <= |cameras|
      && frameCount >= 0
      && |fpsResults| == currentCameraIndex
      && (forall k :: 0 <= k < |fpsResults| ==> fpsResults[k] > 0.0)
      && (isBenchmarking ==>
            && currentCameraIndex < |cameras|
            && camera == cameras[currentCameraIndex].camera
            && overrideResolution == Some(Downsample(cameras[currentCameraIndex].dimensions, downsampleFactor)))
      && (!isBenchmarking ==> overrideResolution == None)
    }

    /** The state before the first frame; the render camera is the interactive one. */
    constructor(benchmarkCameras: seq<ColmapCamera>, downsample: int, initialCamera: ViewportCamera)
      requires AsUint(downsample) != 0
      ensures Valid()
      ensures cameras == benchmarkCameras && downsampleFactor == downsample
      ensures !isBenchmarking && currentCameraIndex == 0 && frameCount == 0 && fpsResults == []
      ensures camera == initialCamera && overrideResolution == None
    {
      cameras := benchmarkCameras;
      downsampleFactor := downsample;
      isBenchmarking := false;
      currentCameraIndex := 0;
      frameCount := 0;
      fpsResults := [];
      camera := initialCamera;
      overrideResolution := None;
    }

    /** Ctrl+O starts a run unless one is running; with no cameras nothing changes.
        A run starts at camera 0 with no frames and no results. */
    method TryStart(keyOPressed: bool, ctrlDown: bool)
      requires Valid()
      modifies this
      ensures Valid()
      ensures if keyOPressed && ctrlDown && !old(isBenchmarking) && |cameras| > 0 then
          && isBenchmarking && currentCameraIndex == 0 && frameCount == 0 && fpsResults == []
          && camera == cameras[0].camera
          && overrideResolution == Some(Downsample(cameras[0].dimensions, downsampleFactor))
        else
          && isBenchmarking == old(isBenchmarking) && currentCameraIndex == old(currentCameraIndex)
          && frameCount == old(frameCount) && fpsResults == old(fpsResults)
          && camera == old(camera) && overrideResolution == old(overrideResolution)
    {
      if keyOPressed && ctrlDown && !isBenchmarking {
        if |cameras| > 0 {
          isBenchmarking := true;
          currentCameraIndex := 0;
          frameCount := 0;
          fpsResults := [];
          camera := cameras[currentCameraIndex].camera;
          overrideResolution := Some(Downsample(cameras[currentCameraIndex].dimensions, downsampleFactor));
        }
      }
    }

    /** One frame of a run; `elapsed` is the time since the current camera started. The
        frame is counted; once the window is over, its rate is recorded and the next
        camera is applied, or, after the last one, the run ends with one result per
        camera and the override cleared. */
    method Step(elapsed: real)
      requires Valid() && elapsed >= 0.0
      modifies this
      ensures Valid()
      ensures !old(isBenchmarking) ==>
        && !isBenchmarking && currentCameraIndex == old(currentCameraIndex)
        && frameCount == old(frameCount) && fpsResults == old(fpsResults)
        && camera == old(camera) && overrideResolution == old(overrideResolution)
      ensures old(isBenchmarking) && elapsed < BenchmarkDuration ==>
        && isBenchmarking && currentCameraIndex == old(currentCameraIndex)
        && frameCount == old(frameCount) + 1 && fpsResults == old(fpsResults)
        && camera == old(camera) && overrideResolution == old(overrideResolution)
      ensures old(isBenchmarking) && elapsed >= BenchmarkDuration ==>
        && fpsResults == old(fpsResults) + [(old(frameCount) + 1) as real / elapsed]
        && currentCameraIndex == old(currentCameraIndex) + 1
        && (isBenchmarking <==> currentCameraIndex < |cameras|)
        && (isBenchmarking ==> frameCount == 0)
        && (!isBenchmarking ==> |fpsResults| == |cameras| && frameCount == old(frameCount) + 1 && camera == old(camera))
    {
      if isBenchmarking {
        frameCount := frameCount + 1;
        if elapsed >= BenchmarkDuration {
          var fps := frameCount as real / elapsed;
          fpsResults := fpsResults + [fps];
          currentCameraIndex := currentCameraIndex + 1;
          if currentCameraIndex < |cameras| {
            frameCount := 0;
            camera := cameras[currentCameraIndex].camera;
            overrideResolution := Some(Downsample(cameras[currentCameraIndex].dimensions, downsampleFactor));
          } else {
            isBenchmarking := false;
            overrideResolution := None;
          }
        }
      }
    }

    /** The Viewport widget body: the start trigger, then the frame of the run. */
    method Frame(keyOPressed: bool, ctrlDown: bool, elapsed: real)
      requires Valid() && elapsed >= 0.0
      modifies this
      ensures Valid()
      ensures old(isBenchmarking) && !isBenchmarking ==> |fpsResults| == |cameras|
    {
      TryStart(keyOPressed, ctrlDown);
      Step(elapsed);
    }
  }
}
