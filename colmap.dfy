/** The reader of a COLMAP sparse reconstruction in binary form (cameras.bin and
    images.bin) that builds one camera per registered image, keyed by the image name.

    A file is its sequence of bytes and a read position is an index into it. Every
    number is stored little-endian; how a read turns file bytes into a native value on
    either kind of host is modelled in the Endian module, and the reader here uses the
    value that read produces. The view a camera is built from (rotation, position and
    fields of view, computed in floating point) is kept as the inputs it is computed
    from. A read that runs past the end of a file makes the whole load `Truncated`. */
module Colmap {
  import opened Endian

  datatype Option<T> = None | Some(value: T)

  /** id (4 bytes), model (4), width (8), height (8), fx, fy, dx, dy (4 doubles). */
  const CameraRecordSize: nat := 56
  /** image id (4 bytes), quaternion and translation (7 doubles), camera id (4). */
  const ImageHeaderSize: nat := 64
  /** One 2D point: x and y (2 doubles) and the id of its 3D point (8 bytes). */
  const PointSize: nat := 24

  /** The intrinsics kept per camera id: the two dimensions and the 32 bytes of the
      four doubles fx, fy, dx, dy. */
  datatype CameraParams = CameraParams(width: nat, height: nat, intrinsics: seq<Byte>)

  /** The inputs the viewport camera is computed from: the 56 bytes of the image pose,
      the intrinsics of its camera, the near plane, and whether both fields of view are
      given (fovXfovYFlag != 0) or only the vertical one. */
  datatype ViewportCamera = ViewportCamera(pose: seq<Byte>, params: CameraParams, zNear: real, fovXY: bool)

  /** A 32-bit unsigned pair. */
  datatype Dims = Dims(x: nat, y: nat)

  datatype ColmapCamera = ColmapCamera(camera: ViewportCamera, dimensions: Dims)

  /** The result of a load: the cameras by image name, or the report that a read ran
      past the end of one of the files. */
  datatype Outcome = Loaded(cameras: map<seq<Byte>, ColmapCamera>) | Truncated

  /** Both dimensions of a stored camera are 32-bit values (the uint2 narrowing). */
  predicate Narrow(c: ColmapCamera) {
    c.dimensions.x < 0x1_0000_0000 && c.dimensions.y < 0x1_0000_0000
  }

  predicate AllNarrow(m: map<seq<Byte>, ColmapCamera>) {
    forall k :: k in m ==> Narrow(m[k])
  }

  /** What the image loop does after an image whose camera id has no intrinsics. */
  datatype UnknownCamera =
    | StopAfterName // as written: `continue` right after the name
    | SkipPoints    // also read the point count and skip the points

  /** The n-byte little-endian number at `pos`. */
  function U(data: seq<Byte>, pos: nat, n: nat): nat
    requires pos + n <= |data|
  {
    LittleEndianAt(data, pos, pos + n)
  }

  /** The little-endian number held by the bytes from `lo` up to `hi`. */
  function LittleEndianAt(data: seq<Byte>, lo: nat, hi: nat): nat
    requires lo <= hi <= |data|
    decreases hi - lo
  {
    if lo == hi then 0 else data[lo] + 256 * LittleEndianAt(data, lo + 1, hi)
  }

  /** U is the little-endian value of the n bytes at `pos`. */
  lemma {:induction false} ULittleEndian(data: seq<Byte>, pos: nat, n: nat)
    requires pos + n <= |data|
    ensures U(data, pos, n) == LittleEndian(data[pos..pos + n])
    decreases n
  {
    if n > 0 {
      ULittleEndian(data, pos + 1, n - 1);
      assert data[pos..pos + n][1..] == data[pos + 1..pos + n];
    }
  }

  /** ReadBinaryLittleEndian on a stream over `data` positioned at `pos`: the n bytes
      are read into memory, put in native order, and taken as a native value. */
  method ReadBinaryLittleEndian(bigEndianBuild: bool, data: seq<Byte>, pos: nat, n: nat)
    returns (r: Option<nat>)
    ensures pos + n <= |data| ==> r == Some(U(data, pos, n))
    ensures pos + n > |data| ==> r == None
  {
    if pos + n > |data| {
      return None;
    }
    var memory := data[pos..pos + n];
    if !IsLittleEndian(bigEndianBuild) {
      memory := ReverseBytes(memory);
    }
    ReadIsLittleEndian(bigEndianBuild, data[pos..pos + n]);
    ULittleEndian(data, pos, n);
    r := Some(NativeValue(bigEndianBuild, memory));
  }

  // ---------------------------------------------------------------- cameras.bin

  /** The id and the intrinsics of the camera record at `pos`; the model id is read
      and not used. */
  function CameraAt(data: seq<Byte>, pos: nat): (nat, CameraParams)
    requires pos + CameraRecordSize <= |data|
  {
    (U(data, pos, 4), CameraParams(U(data, pos + 8, 8), U(data, pos + 16, 8), data[pos + 24..pos + 56]))
  }

  /** The camera loop from `pos` with `count` records still to read; a later record
      with the same id replaces an earlier one. */
  function ReadCameras(data: seq<Byte>, pos: nat, count: nat, acc: map<nat, CameraParams>)
    : (r: Option<map<nat, CameraParams>>)
    ensures r.Some? ==> acc.Keys <= r.value.Keys
    ensures r.Some? && count > 0 ==> pos + CameraRecordSize * count <= |data|
    decreases count
  {
    if count == 0 then Some(acc)
    else if pos + CameraRecordSize > |data| then None
    else
      var (id, params) := CameraAt(data, pos);
      ReadCameras(data, pos + CameraRecordSize, count - 1, acc[id := params])
  }

  /** cameras.bin: an 8-byte count, then that many camera records; a successful parse
      means the file holds every record the count announces. */
  function ParseCameras(data: seq<Byte>): (r: Option<map<nat, CameraParams>>)
    ensures r.Some? ==> |data| >= 8 && 8 + CameraRecordSize * U(data, 0, 8) <= |data|
  {
    if |data| < 8 then None else ReadCameras(data, 8, U(data, 0, 8), map[])
  }

  // ---------------------------------------------------------------- images.bin

  /** The index of the first NUL byte at or after `p`, if there is one. */
  function NameEnd(data: seq<Byte>, p: nat): (r: Option<nat>)
    ensures r.Some? ==> p <= r.value < |data|
    decreases |data| - p
  {
    if p >= |data| then None
    else if data[p] == 0 then Some(p)
    else NameEnd(data, p + 1)
  }

  /** The camera stored for an image: the viewport camera and the dimensions, each
      64-bit dimension narrowed to 32 bits by the uint2 constructor. */
  function Entry(pose: seq<Byte>, params: CameraParams, zNear: real, fovXY: bool): (r: ColmapCamera)
    ensures Narrow(r)
    ensures params.width < 0x1_0000_0000 ==> r.dimensions.x == params.width
    ensures params.height < 0x1_0000_0000 ==> r.dimensions.y == params.height
    ensures r.camera.pose == pose && r.camera.params == params
  {
    ColmapCamera(ViewportCamera(pose, params, zNear, fovXY),
                 Dims(params.width % 0x1_0000_0000, params.height % 0x1_0000_0000))
  }

  /** One pass of the image loop at `pos`: the next read position and the cameras so
      far, or None when a read runs past the end. The cursor always moves forward, no
      name is forgotten, and every stored dimension is a 32-bit value. */
  function ImageStep(data: seq<Byte>, pos: nat, cams: map<nat, CameraParams>, zNear: real,
                     fovXY: bool, mode: UnknownCamera, acc: map<seq<Byte>, ColmapCamera>)
    : (r: Option<(nat, map<seq<Byte>, ColmapCamera>)>)
    ensures r.Some? ==> r.value.0 > pos + ImageHeaderSize && acc.Keys <= r.value.1.Keys
    ensures r.Some? && AllNarrow(acc) ==> AllNarrow(r.value.1)
  {
    if pos + ImageHeaderSize > |data| then None
    else match NameEnd(data, pos + ImageHeaderSize)
      case None => None
      case Some(e) =>
        var cameraId := U(data, pos + 60, 4);
        if cameraId !in cams && mode == StopAfterName then Some((e + 1, acc))
        else if e + 9 > |data| then None
        else
          var next := e + 9 + PointSize * U(data, e + 1, 8);
          if cameraId !in cams then Some((next, acc))
          else Some((next, acc[data[pos + ImageHeaderSize..e] := Entry(data[pos + 4..pos + 60], cams[cameraId], zNear, fovXY)]))
  }

  /** The image loop from `pos` with `count` images still to read. */
  function ReadImages(data: seq<Byte>, pos: nat, count: nat, cams: map<nat, CameraParams>, zNear: real,
                      fovXY: bool, mode: UnknownCamera, acc: map<seq<Byte>, ColmapCamera>)
    : (r: Option<map<seq<Byte>, ColmapCamera>>)
    ensures r.Some? ==> acc.Keys <= r.value.Keys
    ensures r.Some? && AllNarrow(acc) ==> AllNarrow(r.value)
    decreases count
  {
    if count == 0 then Some(acc)
    else
      var step := ImageStep(data, pos, cams, zNear, fovXY, mode, acc);
      if step.None? then None
      else ReadImages(data, step.value.0, count - 1, cams, zNear, fovXY, mode, step.value.1)
  }

  /** images.bin: an 8-byte count, then that many image records. */
  function ParseImages(data: seq<Byte>, cams: map<nat, CameraParams>, zNear: real, fovXY: bool,
                       mode: UnknownCamera): (r: Option<map<seq<Byte>, ColmapCamera>>)
    ensures r.Some? ==> |data| >= 8 && AllNarrow(r.value)
  {
    if |data| < 8 then None else ReadImages(data, 8, U(data, 0, 8), cams, zNear, fovXY, mode, map[])
  }

  /** loadColmapBin: no cameras when either file cannot be opened. A load that succeeds
      on two files parsed both of them completely, and every dimension it reports fits
      in 32 bits. */
  function Load(camerasFile: Option<seq<Byte>>, imagesFile: Option<seq<Byte>>, zNear: real,
                fovXY: bool, mode: UnknownCamera): (r: Outcome)
    ensures r.Loaded? ==> AllNarrow(r.cameras)
    ensures r.Loaded? && camerasFile.Some? && imagesFile.Some? ==>
      ParseCameras(camerasFile.value).Some? && ParseImages(imagesFile.value, ParseCameras(camerasFile.value).value, zNear, fovXY, mode).Some?
  {
    if camerasFile.None? || imagesFile.None? then Loaded(map[])
    else match ParseCameras(camerasFile.value)
      case None => Truncated
      case Some(cams) =>
        match ParseImages(imagesFile.value, cams, zNear, fovXY, mode)
          case None => Truncated
          case Some(cameras) => Loaded(cameras)
  }

  // ---------------------------------------------------------------- the loader

  /** loadColmapBin, with the image loop skipping the points of every image. */
  method LoadColmapBin(camerasFile: Option<seq<Byte>>, imagesFile: Option<seq<Byte>>, zNear: real,
                       fovXfovYFlag: int, bigEndianBuild: bool) returns (r: Outcome)
    ensures r == Load(camerasFile, imagesFile, zNear, fovXfovYFlag != 0, SkipPoints)
  {
    if camerasFile.None? || imagesFile.None? {
      return Loaded(map[]);
    }
    var cams := ReadCameraParameters(bigEndianBuild, camerasFile.value);
    if cams.None? {
      return Truncated;
    }
    var cameras := ReadImageRecords(bigEndianBuild, imagesFile.value, cams.value, zNear, fovXfovYFlag != 0);
    if cameras.None? {
      return Truncated;
    }
    return Loaded(cameras.value);
  }

  /** The camera loop of loadColmapBin over cameras.bin: the 8-byte count, then the loop. */
  method ReadCameraParameters(bigEndianBuild: bool, data: seq<Byte>) returns (r: Option<map<nat, CameraParams>>)
    ensures r == ParseCameras(data)
  {
    var numCameras := ReadBinaryLittleEndian(bigEndianBuild, data, 0, 8);
    if numCameras.None? {
      return None;
    }
    r := CameraLoop(bigEndianBuild, data, numCameras.value);
  }

  /** The loop itself: `numCameras` records starting right after the count. */
  method CameraLoop(bigEndianBuild: bool, data: seq<Byte>, numCameras: nat) returns (r: Option<map<nat, CameraParams>>)
    ensures r == ReadCameras(data, 8, numCameras, map[])
  {
    var cameraParameters: map<nat, CameraParams> := map[];
    var pos: nat := 8;
    var i := 0;
    while i < numCameras
      invariant 0 <= i <= numCameras
      invariant ReadCameras(data, pos, numCameras - i, cameraParameters) == ReadCameras(data, 8, numCameras, map[])
    {
      if pos + CameraRecordSize > |data| {
        return None;
      }
      var record := ReadCameraRecord(bigEndianBuild, data, pos);
      cameraParameters := cameraParameters[record.0 := record.1];
      pos := pos + CameraRecordSize;
      i := i + 1;
    }
    return Some(cameraParameters);
  }

  /** One camera record: its id, its model id (not kept), its width and height, and
      the four doubles. */
  method ReadCameraRecord(bigEndianBuild: bool, data: seq<Byte>, pos: nat) returns (r: (nat, CameraParams))
    requires pos + CameraRecordSize <= |data|
    ensures r == CameraAt(data, pos)
  {
    var id := ReadBinaryLittleEndian(bigEndianBuild, data, pos, 4);
    var width := ReadBinaryLittleEndian(bigEndianBuild, data, pos + 8, 8);
    var height := ReadBinaryLittleEndian(bigEndianBuild, data, pos + 16, 8);
    r := (id.value, CameraParams(width.value, height.value, data[pos + 24..pos + 56]));
  }

  /** The do-while that reads an image name one byte at a time up to its NUL: the name
      and the position after the NUL, or None when the file ends first. */
  method ReadName(data: seq<Byte>, p: nat) returns (r: Option<(seq<Byte>, nat)>)
    ensures NameEnd(data, p).None? ==> r == None
    ensures NameEnd(data, p).Some? ==>
      r == Some((data[p..NameEnd(data, p).value], NameEnd(data, p).value + 1))
  {
    var name: seq<Byte> := [];
    var q := p;
    while true
      invariant p <= q
      invariant q <= |data| || q == p
      invariant q > p ==> name == data[p..q]
      invariant q == p ==> name == []
      invariant forall k :: p <= k < q ==> data[k] != 0
      decreases |data| - q
    {
      if q >= |data| {
        NoNameEnd(data, p);
        return None;
      }
      var nameChar := data[q];
      q := q + 1;
      if nameChar == 0 {
        FirstNul(data, p, q - 1);
        return Some((name, q));
      }
      name := name + [nameChar];
    }
  }

  /** Where the name ends is the first NUL at or after `p`, and there is none when the
      name runs to the end of the file. */
  lemma {:induction false} NameEndIsFirstNul(data: seq<Byte>, p: nat)
    ensures NameEnd(data, p).Some? ==>
      data[NameEnd(data, p).value] == 0 && forall k :: p <= k < NameEnd(data, p).value ==> data[k] != 0
    ensures NameEnd(data, p).None? ==> forall k :: p <= k < |data| ==> data[k] != 0
    decreases |data| - p
  {
    if p < |data| && data[p] != 0 {
      NameEndIsFirstNul(data, p + 1);
    }
  }

  /** A NUL with no NUL between `p` and it is where the name ends. */
  lemma {:induction false} FirstNul(data: seq<Byte>, p: nat, e: nat)
    requires p <= e < |data| && data[e] == 0
    requires forall k :: p <= k < e ==> data[k] != 0
    ensures NameEnd(data, p) == Some(e)
    decreases e - p
  {
    if p < e {
      FirstNul(data, p + 1, e);
    }
  }

  lemma {:induction false} NoNameEnd(data: seq<Byte>, p: nat)
    requires forall k :: p <= k < |data| ==> data[k] != 0
    ensures NameEnd(data, p) == None
    decreases |data| - p
  {
    if p < |data| {
      NoNameEnd(data, p + 1);
    }
  }

  /** The name loop as written, run for at most `fuel` rounds: a read at the end of the
      file stores nothing, so the character keeps its previous value `prev` (for the
      first round, whatever the uninitialised variable held). None means the loop has
      not exited within the fuel. */
  function NameLoopAsWritten(data: seq<Byte>, q: nat, prev: Byte, name: seq<Byte>, fuel: nat): Option<(seq<Byte>, nat)>
    decreases fuel
  {
    if fuel == 0 then None
    else
      var c := if q < |data| then data[q] else prev;
      var next := if q < |data| then q + 1 else q;
      if c == 0 then Some((name, next)) else NameLoopAsWritten(data, next, c, name + [c], fuel - 1)
  }

  /** Without a NUL before the end of the file the loop as written never exits, however
      many rounds it runs; ReadName reports the name as truncated instead. */
  lemma {:induction false} NameLoopHangs(data: seq<Byte>, q: nat, prev: Byte, name: seq<Byte>, fuel: nat)
    requires forall k :: q <= k < |data| ==> data[k] != 0
    requires q < |data| || prev != 0
    ensures NameLoopAsWritten(data, q, prev, name, fuel) == None
    decreases fuel
  {
    if fuel > 0 {
      var c := if q < |data| then data[q] else prev;
      var next := if q < |data| then q + 1 else q;
      NameLoopHangs(data, next, c, name + [c], fuel - 1);
    }
  }

  /** Where the name does end, the loop as written exits at the first NUL with the
      same name and cursor as ReadName. */
  lemma {:induction false} NameLoopAgrees(data: seq<Byte>, p: nat, q: nat, prev: Byte, e: nat)
    requires p <= q && NameEnd(data, q) == Some(e)
    ensures NameLoopAsWritten(data, q, prev, data[p..q], e - q + 1) == Some((data[p..e], e + 1))
    decreases e - q
  {
    if data[q] != 0 {
      assert NameEnd(data, q + 1) == Some(e);
      assert data[p..q] + [data[q]] == data[p..q + 1];
      NameLoopAgrees(data, p, q + 1, data[q], e);
    }
  }

  /** The image loop of loadColmapBin over images.bin: the 8-byte count, then the loop. */
  method ReadImageRecords(bigEndianBuild: bool, data: seq<Byte>, cams: map<nat, CameraParams>, zNear: real,
                          fovXY: bool) returns (r: Option<map<seq<Byte>, ColmapCamera>>)
    ensures r == ParseImages(data, cams, zNear, fovXY, SkipPoints)
  {
    var numRegImages := ReadBinaryLittleEndian(bigEndianBuild, data, 0, 8);
    if numRegImages.None? {
      return None;
    }
    r := ImageLoop(bigEndianBuild, data, numRegImages.value, cams, zNear, fovXY);
  }

  /** The loop itself: `numRegImages` passes starting right after the count. */
  method ImageLoop(bigEndianBuild: bool, data: seq<Byte>, numRegImages: nat, cams: map<nat, CameraParams>,
                   zNear: real, fovXY: bool) returns (r: Option<map<seq<Byte>, ColmapCamera>>)
    ensures r == ReadImages(data, 8, numRegImages, cams, zNear, fovXY, SkipPoints, map[])
  {
    var cameras: map<seq<Byte>, ColmapCamera> := map[];
    var pos: nat := 8;
    var i := 0;
    while i < numRegImages
      invariant 0 <= i <= numRegImages
      invariant ReadImages(data, pos, numRegImages - i, cams, zNear, fovXY, SkipPoints, cameras)
             == ReadImages(data, 8, numRegImages, cams, zNear, fovXY, SkipPoints, map[])
    {
      var step := ReadImage(bigEndianBuild, data, pos, cams, zNear, fovXY, cameras);
      if step.None? {
        return None;
      }
      pos, cameras := step.value.0, step.value.1;
      i := i + 1;
    }
    return Some(cameras);
  }

  /** One pass of the image loop: the image id, pose and camera id, the name, then the
      camera for the name when its camera id has intrinsics, and the skip past the
      points. */
  method ReadImage(bigEndianBuild: bool, data: seq<Byte>, pos: nat, cams: map<nat, CameraParams>, zNear: real,
                   fovXY: bool, cameras: map<seq<Byte>, ColmapCamera>)
    returns (r: Option<(nat, map<seq<Byte>, ColmapCamera>)>)
    ensures r == ImageStep(data, pos, cams, zNear, fovXY, SkipPoints, cameras)
  {
    var cameraId := ReadBinaryLittleEndian(bigEndianBuild, data, pos + 60, 4);
    if cameraId.None? {
      return None;
    }
    var name := ReadName(data, pos + ImageHeaderSize);
    if name.None? {
      return None;
    }
    var (imageName, afterName) := name.value;
    var cameras' := cameras;
    if cameraId.value in cams {
      cameras' := cameras[imageName := Entry(data[pos + 4..pos + 60], cams[cameraId.value], zNear, fovXY)];
    }
    var numPoints2D := ReadBinaryLittleEndian(bigEndianBuild, data, afterName, 8);
    if numPoints2D.None? {
      return None;
    }
    return Some((afterName + 8 + PointSize * numPoints2D.value, cameras'));
  }
}
