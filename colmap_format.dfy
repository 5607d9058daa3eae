/** What the COLMAP reader gets out of well-formed files: the record layouts it reads,
    written out as encoders, and the results of reading them back. */
module ColmapFormat {
  import opened Endian
  import opened Colmap

  // ---------------------------------------------------------------- keyed inserts

  /** Inserting the pairs in order: a later pair with the same key replaces an earlier
      one (both loops store into a map by key this way). */
  function Insert<K, V>(acc: map<K, V>, pairs: seq<(K, V)>): map<K, V>
    decreases |pairs|
  {
    if pairs == [] then acc else Insert(acc[pairs[0].0 := pairs[0].1], pairs[1..])
  }

  predicate HasKey<K(==), V>(pairs: seq<(K, V)>, key: K) {
    exists k :: 0 <= k < |pairs| && pairs[k].0 == key
  }

  /** Pair k is the last one with its key. */
  predicate LastWithKey<K(==), V>(pairs: seq<(K, V)>, k: int) {
    && 0 <= k < |pairs|
    && forall j :: k < j < |pairs| ==> pairs[j].0 != pairs[k].0
  }

  /** The keys after the inserts are the earlier keys and the keys of the pairs. */
  lemma {:induction false} InsertKeys<K, V>(acc: map<K, V>, pairs: seq<(K, V)>, key: K)
    ensures key in Insert(acc, pairs) <==> key in acc || HasKey(pairs, key)
    decreases |pairs|
  {
    if pairs != [] {
      InsertKeys(acc[pairs[0].0 := pairs[0].1], pairs[1..], key);
      if HasKey(pairs, key) && pairs[0].0 != key {
        var k :| 0 <= k < |pairs| && pairs[k].0 == key;
        assert pairs[1..][k - 1].0 == key;
      }
      if HasKey(pairs[1..], key) {
        var k :| 0 <= k < |pairs[1..]| && pairs[1..][k].0 == key;
        assert pairs[k + 1].0 == key;
      }
    }
  }

  /** A key no pair has keeps its earlier value. */
  lemma {:induction false} InsertKeeps<K, V>(acc: map<K, V>, pairs: seq<(K, V)>, key: K)
    requires key in acc && !HasKey(pairs, key)
    ensures key in Insert(acc, pairs) && Insert(acc, pairs)[key] == acc[key]
    decreases |pairs|
  {
    if pairs != [] {
      assert pairs[0].0 != key;
      InsertKeeps(acc[pairs[0].0 := pairs[0].1], pairs[1..], key);
    }
  }

  /** The value of a key is the value of the last pair with that key. */
  lemma {:induction false} InsertLastWins<K, V>(acc: map<K, V>, pairs: seq<(K, V)>, k: int)
    requires LastWithKey(pairs, k)
    ensures pairs[k].0 in Insert(acc, pairs) && Insert(acc, pairs)[pairs[k].0] == pairs[k].1
    decreases |pairs|
  {
    var acc' := acc[pairs[0].0 := pairs[0].1];
    if k == 0 {
      InsertKeeps(acc', pairs[1..], pairs[0].0);
    } else {
      assert LastWithKey(pairs[1..], k - 1) by {
        forall j | k - 1 < j < |pairs[1..]|
          ensures pairs[1..][j].0 != pairs[1..][k - 1].0
        {
          assert pairs[1..][j] == pairs[j + 1];
        }
      }
      InsertLastWins(acc', pairs[1..], k - 1);
    }
  }

  // ---------------------------------------------------------------- placement

  /** The bytes `x` occur in `data` starting at `pos`, checked from byte `k` of `x` on
      (stated byte by byte, so that the solver only looks inside when a lemma below asks
      it to). */
  predicate AtFrom(data: seq<Byte>, pos: nat, x: seq<Byte>, k: nat)
    decreases |x| - k
  {
    if k >= |x| then pos + |x| <= |data|
    else pos + k < |data| && data[pos + k] == x[k] && AtFrom(data, pos, x, k + 1)
  }

  predicate At(data: seq<Byte>, pos: nat, x: seq<Byte>) {
    AtFrom(data, pos, x, 0)
  }

  /** AtFrom is the byte-by-byte comparison from k on. */
  lemma {:induction false} AtFromBytes(data: seq<Byte>, pos: nat, x: seq<Byte>, k: nat)
    requires k <= |x|
    ensures AtFrom(data, pos, x, k)
        <==> pos + |x| <= |data| && forall j :: k <= j < |x| ==> data[pos + j] == x[j]
    decreases |x| - k
  {
    if k < |x| {
      AtFromBytes(data, pos, x, k + 1);
    }
  }

  lemma AtBytes(data: seq<Byte>, pos: nat, x: seq<Byte>)
    ensures At(data, pos, x) <==> pos + |x| <= |data| && forall j :: 0 <= j < |x| ==> data[pos + j] == x[j]
  {
    AtFromBytes(data, pos, x, 0);
  }

  lemma AtSlice(data: seq<Byte>, pos: nat, x: seq<Byte>)
    requires At(data, pos, x)
    ensures pos + |x| <= |data| && data[pos..pos + |x|] == x
  {
    AtBytes(data, pos, x);
  }

  /** Where two runs occur back to back, each occurs in its place. */
  lemma AtSplit(data: seq<Byte>, pos: nat, x: seq<Byte>, y: seq<Byte>)
    requires At(data, pos, x + y)
    ensures At(data, pos, x) && At(data, pos + |x|, y)
  {
    AtBytes(data, pos, x + y);
    AtBytes(data, pos, x);
    AtBytes(data, pos + |x|, y);
    forall j | 0 <= j < |x| ensures data[pos + j] == x[j] {
      assert (x + y)[j] == x[j];
    }
    forall j | 0 <= j < |y| ensures data[pos + |x| + j] == y[j] {
      assert (x + y)[|x| + j] == y[j];
    }
  }

  lemma AtStart(x: seq<Byte>, s: seq<Byte>)
    ensures At(x + s, 0, x)
  {
    AtBytes(x + s, 0, x);
  }

  /** Reading n bytes where a little-endian encoding of v occurs gives v back. */
  lemma ReadBack(data: seq<Byte>, pos: nat, v: nat, n: nat)
    requires v < Pow256(n) && At(data, pos, ToLittleEndian(v, n))
    ensures pos + n <= |data| && U(data, pos, n) == v
  {
    AtSlice(data, pos, ToLittleEndian(v, n));
    ULittleEndian(data, pos, n);
    LittleEndianRoundTrip(v, n);
  }

  // ---------------------------------------------------------------- cameras.bin

  /** A camera record as cameras.bin holds it; `model` and `intrinsics` are the raw
      bytes of the model id and of the four doubles. */
  datatype CameraRecord = CameraRecord(id: nat, model: seq<Byte>, width: nat, height: nat, intrinsics: seq<Byte>)

  predicate ValidCamera(c: CameraRecord) {
    && c.id < Pow256(4) && |c.model| == 4
    && c.width < Pow256(8) && c.height < Pow256(8) && |c.intrinsics| == 32
  }

  function EncodeCamera(c: CameraRecord): (r: seq<Byte>)
    ensures ValidCamera(c) ==> |r| == CameraRecordSize
  {
    ToLittleEndian(c.id, 4) + (c.model + (ToLittleEndian(c.width, 8) + (ToLittleEndian(c.height, 8) + c.intrinsics)))
  }

  function EncodeCameras(cs: seq<CameraRecord>): seq<Byte> {
    if cs == [] then [] else EncodeCamera(cs[0]) + EncodeCameras(cs[1..])
  }

  /** What the camera loop keeps of each record: its id and its intrinsics. */
  function CameraPairs(cs: seq<CameraRecord>): (r: seq<(nat, CameraParams)>)
    ensures |r| == |cs|
    ensures forall k :: 0 <= k < |cs| ==>
      r[k] == (cs[k].id, CameraParams(cs[k].width, cs[k].height, cs[k].intrinsics))
  {
    seq(|cs|, k requires 0 <= k < |cs| => (cs[k].id, CameraParams(cs[k].width, cs[k].height, cs[k].intrinsics)))
  }

  predicate AllValidCameras(cs: seq<CameraRecord>) {
    forall k :: 0 <= k < |cs| ==> ValidCamera(cs[k])
  }

  /** A record is read back field by field. */
  lemma CameraAtDecodes(data: seq<Byte>, pos: nat, c: CameraRecord)
    requires ValidCamera(c) && At(data, pos, EncodeCamera(c))
    ensures pos + CameraRecordSize <= |data|
    ensures CameraAt(data, pos) == (c.id, CameraParams(c.width, c.height, c.intrinsics))
  {
    var w := ToLittleEndian(c.width, 8);
    var h := ToLittleEndian(c.height, 8);
    AtSplit(data, pos, ToLittleEndian(c.id, 4), c.model + (w + (h + c.intrinsics)));
    ReadBack(data, pos, c.id, 4);
    AtSplit(data, pos + 4, c.model, w + (h + c.intrinsics));
    AtSplit(data, pos + 8, w, h + c.intrinsics);
    ReadBack(data, pos + 8, c.width, 8);
    AtSplit(data, pos + 16, h, c.intrinsics);
    ReadBack(data, pos + 16, c.height, 8);
    AtSlice(data, pos + 24, c.intrinsics);
  }

  /** The camera loop reads back every record of a well-formed listing. */
  lemma {:induction false} ReadCamerasDecodes(data: seq<Byte>, pos: nat, cs: seq<CameraRecord>,
                                             acc: map<nat, CameraParams>)
    requires AllValidCameras(cs) && At(data, pos, EncodeCameras(cs))
    ensures ReadCameras(data, pos, |cs|, acc) == Some(Insert(acc, CameraPairs(cs)))
    decreases |cs|
  {
    if cs != [] {
      AtSplit(data, pos, EncodeCamera(cs[0]), EncodeCameras(cs[1..]));
      CameraAtDecodes(data, pos, cs[0]);
      assert AllValidCameras(cs[1..]) by {
        forall k | 0 <= k < |cs[1..]| ensures ValidCamera(cs[1..][k]) {
          assert cs[1..][k] == cs[k + 1];
        }
      }
      ReadCamerasDecodes(data, pos + CameraRecordSize, cs[1..], acc[cs[0].id := CameraPairs(cs)[0].1]);
      assert CameraPairs(cs)[1..] == CameraPairs(cs[1..]);
    }
  }

  /** cameras.bin holding the count and the records reads back as the intrinsics of
      every id, the last record with an id winning. */
  lemma ParseCamerasDecodes(data: seq<Byte>, cs: seq<CameraRecord>)
    requires AllValidCameras(cs) && |cs| < Pow256(8)
    requires At(data, 0, ToLittleEndian(|cs|, 8) + EncodeCameras(cs))
    ensures ParseCameras(data) == Some(Insert(map[], CameraPairs(cs)))
  {
    AtSplit(data, 0, ToLittleEndian(|cs|, 8), EncodeCameras(cs));
    ReadBack(data, 0, |cs|, 8);
    ReadCamerasDecodes(data, 8, cs, map[]);
  }

  /** cameras.bin round trip: the count, the records and any trailing bytes. */
  lemma CamerasRoundTrip(cs: seq<CameraRecord>, s: seq<Byte>)
    requires AllValidCameras(cs) && |cs| < Pow256(8)
    ensures ParseCameras(ToLittleEndian(|cs|, 8) + EncodeCameras(cs) + s) == Some(Insert(map[], CameraPairs(cs)))
  {
    AtStart(ToLittleEndian(|cs|, 8) + EncodeCameras(cs), s);
    ParseCamerasDecodes(ToLittleEndian(|cs|, 8) + EncodeCameras(cs) + s, cs);
  }

  // ---------------------------------------------------------------- images.bin

  /** An image record as images.bin holds it; `pose` is the raw bytes of the quaternion
      and translation, `points` of the numPoints 2D points. */
  datatype ImageRecord = ImageRecord(imageId: nat, pose: seq<Byte>, cameraId: nat, name: seq<Byte>,
                                     numPoints: nat, points: seq<Byte>)

  predicate ValidImage(m: ImageRecord) {
    && m.imageId < Pow256(4) && |m.pose| == 56 && m.cameraId < Pow256(4)
    && (forall k :: 0 <= k < |m.name| ==> m.name[k] != 0)
    && m.numPoints < Pow256(8) && |m.points| == PointSize * m.numPoints
  }

  /** The fixed 64 bytes, the name and its NUL, the point count and the points. */
  function EncodeImage(m: ImageRecord): seq<Byte> {
    ImageHeader(m) + ((m.name + [0]) + (ToLittleEndian(m.numPoints, 8) + m.points))
  }

  function ImageHeader(m: ImageRecord): seq<Byte> {
    ToLittleEndian(m.imageId, 4) + (m.pose + ToLittleEndian(m.cameraId, 4))
  }

  function EncodeImages(ms: seq<ImageRecord>): seq<Byte> {
    if ms == [] then [] else EncodeImage(ms[0]) + EncodeImages(ms[1..])
  }

  predicate AllValidImages(ms: seq<ImageRecord>) {
    forall k :: 0 <= k < |ms| ==> ValidImage(ms[k])
  }

  predicate AllCamerasKnown(ms: seq<ImageRecord>, cams: map<nat, CameraParams>) {
    forall k :: 0 <= k < |ms| ==> ms[k].cameraId in cams
  }

  /** The length of an encoded image record. */
  function ImageSize(m: ImageRecord): nat {
    ImageHeaderSize + |m.name| + 9 + |m.points|
  }

  /** What the image loop reads at `pos` when the record `m` is there: where the name
      ends, the camera id, the pose, the name and the point count. */
  predicate Decodes(data: seq<Byte>, pos: nat, m: ImageRecord) {
    var e := pos + ImageHeaderSize + |m.name|;
    && |m.pose| == 56 && m.cameraId < Pow256(4) && m.numPoints < Pow256(8)
    && |m.points| == PointSize * m.numPoints
    && At(data, pos + 4, m.pose)
    && At(data, pos + 60, ToLittleEndian(m.cameraId, 4))
    && NameEnd(data, pos + ImageHeaderSize) == Some(e)
    && At(data, pos + ImageHeaderSize, m.name)
    && At(data, e + 1, ToLittleEndian(m.numPoints, 8))
  }

  /** What the image loop stores: for each image whose camera has intrinsics, in file
      order, its name and its camera. */
  function ImagePairs(ms: seq<ImageRecord>, cams: map<nat, CameraParams>, zNear: real, fovXY: bool)
    : seq<(seq<Byte>, ColmapCamera)>
  {
    if ms == [] then []
    else ImagePair(ms[0], cams, zNear, fovXY) + ImagePairs(ms[1..], cams, zNear, fovXY)
  }

  function ImagePair(m: ImageRecord, cams: map<nat, CameraParams>, zNear: real, fovXY: bool)
    : seq<(seq<Byte>, ColmapCamera)>
  {
    if m.cameraId in cams then [(m.name, Entry(m.pose, cams[m.cameraId], zNear, fovXY))] else []
  }

  /** A name followed by its NUL ends at the NUL. */
  lemma NameFields(data: seq<Byte>, q: nat, name: seq<Byte>)
    requires (forall k :: 0 <= k < |name| ==> name[k] != 0) && At(data, q, name + [0])
    ensures NameEnd(data, q) == Some(q + |name|) && At(data, q, name)
  {
    AtSplit(data, q, name, [0]);
    AtBytes(data, q, name);
    AtBytes(data, q + |name|, [0]);
    forall k | q <= k < q + |name|
      ensures data[k] != 0
    {
      assert data[q + (k - q)] == name[k - q];
    }
    FirstNul(data, q, q + |name|);
  }

  /** The fields of a well-formed image record are where the image loop reads them. */
  lemma ImageFields(data: seq<Byte>, pos: nat, m: ImageRecord)
    requires ValidImage(m) && At(data, pos, EncodeImage(m))
    ensures Decodes(data, pos, m)
  {
    var n := ToLittleEndian(m.numPoints, 8);
    var e := pos + ImageHeaderSize + |m.name|;
    AtSplit(data, pos, ImageHeader(m), (m.name + [0]) + (n + m.points));
    AtSplit(data, pos, ToLittleEndian(m.imageId, 4), m.pose + ToLittleEndian(m.cameraId, 4));
    AtSplit(data, pos + 4, m.pose, ToLittleEndian(m.cameraId, 4));
    AtSplit(data, pos + ImageHeaderSize, m.name + [0], n + m.points);
    NameFields(data, pos + ImageHeaderSize, m.name);
    AtSplit(data, e + 1, n, m.points);
  }

  /** One pass over a well-formed image record lands on the next record and stores the
      image's camera when its camera id has intrinsics; as written, only when it has. */
  lemma ImageStepDecodes(data: seq<Byte>, pos: nat, m: ImageRecord, cams: map<nat, CameraParams>,
                         zNear: real, fovXY: bool, mode: UnknownCamera, acc: map<seq<Byte>, ColmapCamera>)
    requires Decodes(data, pos, m)
    requires mode == SkipPoints || m.cameraId in cams
    ensures ImageStep(data, pos, cams, zNear, fovXY, mode, acc)
         == Some((pos + ImageSize(m), Insert(acc, ImagePair(m, cams, zNear, fovXY))))
  {
    var e := pos + ImageHeaderSize + |m.name|;
    AtSlice(data, pos + 4, m.pose);
    AtSlice(data, pos + ImageHeaderSize, m.name);
    ReadBack(data, pos + 60, m.cameraId, 4);
    ReadBack(data, e + 1, m.numPoints, 8);
  }

  /** The as-written pass over an image whose camera id has no intrinsics stops right
      after the name: the next pass starts at the point count, 8 + 24 * numPoints bytes
      before the next record, and reads it as an image id and the start of a pose. */
  lemma UnknownCameraDesyncs(data: seq<Byte>, pos: nat, m: ImageRecord, cams: map<nat, CameraParams>,
                             zNear: real, fovXY: bool, acc: map<seq<Byte>, ColmapCamera>)
    requires ValidImage(m) && At(data, pos, EncodeImage(m)) && m.cameraId !in cams
    ensures var q := pos + ImageSize(m) - 8 - PointSize * m.numPoints;
      && ImageStep(data, pos, cams, zNear, fovXY, StopAfterName, acc) == Some((q, acc))
      && At(data, q, ToLittleEndian(m.numPoints, 8))
  {
    ImageFields(data, pos, m);
    ReadBack(data, pos + 60, m.cameraId, 4);
  }

  /** One pass over each record of `ms` in turn, whatever the cameras stored so far,
      lands on the next record and stores that record's camera when its camera id has
      intrinsics. */
  ghost predicate Steps(data: seq<Byte>, pos: nat, ms: seq<ImageRecord>, cams: map<nat, CameraParams>, zNear: real,
                  fovXY: bool, mode: UnknownCamera)
    decreases |ms|
  {
    ms == [] ||
    (&& (forall acc :: ImageStep(data, pos, cams, zNear, fovXY, mode, acc)
                     == Some((pos + ImageSize(ms[0]), Insert(acc, ImagePair(ms[0], cams, zNear, fovXY)))))
     && Steps(data, pos + ImageSize(ms[0]), ms[1..], cams, zNear, fovXY, mode))
  }

  /** A well-formed record is read in one pass, whatever the cameras stored so far. */
  lemma EncodedStep(data: seq<Byte>, pos: nat, m: ImageRecord, cams: map<nat, CameraParams>,
                    zNear: real, fovXY: bool, mode: UnknownCamera)
    requires ValidImage(m) && At(data, pos, EncodeImage(m))
    requires mode == SkipPoints || m.cameraId in cams
    ensures forall acc :: ImageStep(data, pos, cams, zNear, fovXY, mode, acc)
                       == Some((pos + ImageSize(m), Insert(acc, ImagePair(m, cams, zNear, fovXY))))
  {
    ImageFields(data, pos, m);
    forall acc
      ensures ImageStep(data, pos, cams, zNear, fovXY, mode, acc)
           == Some((pos + ImageSize(m), Insert(acc, ImagePair(m, cams, zNear, fovXY))))
    {
      ImageStepDecodes(data, pos, m, cams, zNear, fovXY, mode, acc);
    }
  }

  /** Well-formed records back to back are read one pass each; as written, only when
      every camera id has intrinsics. */
  lemma {:induction false} EncodedSteps(data: seq<Byte>, pos: nat, ms: seq<ImageRecord>, cams: map<nat, CameraParams>,
                                       zNear: real, fovXY: bool, mode: UnknownCamera)
    requires AllValidImages(ms) && At(data, pos, EncodeImages(ms))
    requires mode == SkipPoints || AllCamerasKnown(ms, cams)
    ensures Steps(data, pos, ms, cams, zNear, fovXY, mode)
    decreases |ms|
  {
    if ms != [] {
      AtSplit(data, pos, EncodeImage(ms[0]), EncodeImages(ms[1..]));
      EncodedStep(data, pos, ms[0], cams, zNear, fovXY, mode);
      assert AllValidImages(ms[1..]) && (mode == SkipPoints || AllCamerasKnown(ms[1..], cams)) by {
        forall k | 0 <= k < |ms[1..]| ensures ms[1..][k] == ms[k + 1] { }
      }
      EncodedSteps(data, pos + |EncodeImage(ms[0])|, ms[1..], cams, zNear, fovXY, mode);
    }
  }

  /** The image loop reads back every record it reads one pass each. */
  lemma {:induction false} ReadImagesDecodes(data: seq<Byte>, pos: nat, ms: seq<ImageRecord>, count: nat,
                                            cams: map<nat, CameraParams>, zNear: real, fovXY: bool,
                                            mode: UnknownCamera, acc: map<seq<Byte>, ColmapCamera>)
    requires Steps(data, pos, ms, cams, zNear, fovXY, mode) && count == |ms|
    ensures ReadImages(data, pos, count, cams, zNear, fovXY, mode, acc)
         == Some(Insert(acc, ImagePairs(ms, cams, zNear, fovXY)))
    decreases count
  {
    if count > 0 {
      var pair := ImagePair(ms[0], cams, zNear, fovXY);
      assert ImageStep(data, pos, cams, zNear, fovXY, mode, acc) == Some((pos + ImageSize(ms[0]), Insert(acc, pair)));
      ReadImagesDecodes(data, pos + ImageSize(ms[0]), ms[1..], count - 1, cams, zNear, fovXY, mode, Insert(acc, pair));
      InsertAppend(acc, pair, ImagePairs(ms[1..], cams, zNear, fovXY));
    } else {
      assert ImagePairs(ms, cams, zNear, fovXY) == [];
    }
  }

  /** Inserting two runs of pairs is inserting the first, then the second. */
  lemma {:induction false} InsertAppend<K, V>(acc: map<K, V>, a: seq<(K, V)>, b: seq<(K, V)>)
    ensures Insert(acc, a + b) == Insert(Insert(acc, a), b)
    decreases |a|
  {
    if a != [] {
      assert (a + b)[0] == a[0] && (a + b)[1..] == a[1..] + b;
      InsertAppend(acc[a[0].0 := a[0].1], a[1..], b);
    } else {
      assert a + b == b;
    }
  }

  /** images.bin holding the count and the records reads back (with the points of every
      image skipped) as the camera of every image whose camera id has intrinsics, the
      last image with a name winning. */
  lemma ParseImagesDecodes(data: seq<Byte>, ms: seq<ImageRecord>, cams: map<nat, CameraParams>, zNear: real,
                           fovXY: bool)
    requires AllValidImages(ms) && |ms| < Pow256(8)
    requires At(data, 0, ToLittleEndian(|ms|, 8) + EncodeImages(ms))
    ensures ParseImages(data, cams, zNear, fovXY, SkipPoints) == Some(Insert(map[], ImagePairs(ms, cams, zNear, fovXY)))
  {
    AtSplit(data, 0, ToLittleEndian(|ms|, 8), EncodeImages(ms));
    ReadBack(data, 0, |ms|, 8);
    EncodedSteps(data, 8, ms, cams, zNear, fovXY, SkipPoints);
    ReadImagesDecodes(data, 8, ms, |ms|, cams, zNear, fovXY, SkipPoints, map[]);
  }

  /** images.bin round trip: the count, the records and any trailing bytes. */
  lemma ImagesRoundTrip(ms: seq<ImageRecord>, s: seq<Byte>, cams: map<nat, CameraParams>, zNear: real, fovXY: bool)
    requires AllValidImages(ms) && |ms| < Pow256(8)
    ensures ParseImages(ToLittleEndian(|ms|, 8) + EncodeImages(ms) + s, cams, zNear, fovXY, SkipPoints)
         == Some(Insert(map[], ImagePairs(ms, cams, zNear, fovXY)))
  {
    AtStart(ToLittleEndian(|ms|, 8) + EncodeImages(ms), s);
    ParseImagesDecodes(ToLittleEndian(|ms|, 8) + EncodeImages(ms) + s, ms, cams, zNear, fovXY);
  }

  /** loadColmapBin on two well-formed files: the camera of every image whose camera id
      is listed in cameras.bin, with that id's last intrinsics. */
  lemma LoadRoundTrip(cs: seq<CameraRecord>, cs': seq<Byte>, ms: seq<ImageRecord>, ms': seq<Byte>,
                      zNear: real, fovXY: bool)
    requires AllValidCameras(cs) && |cs| < Pow256(8)
    requires AllValidImages(ms) && |ms| < Pow256(8)
    ensures Load(Some(ToLittleEndian(|cs|, 8) + EncodeCameras(cs) + cs'),
                 Some(ToLittleEndian(|ms|, 8) + EncodeImages(ms) + ms'), zNear, fovXY, SkipPoints)
         == Loaded(Insert(map[], ImagePairs(ms, Insert(map[], CameraPairs(cs)), zNear, fovXY)))
  {
    CamerasRoundTrip(cs, cs');
    ImagesRoundTrip(ms, ms', Insert(map[], CameraPairs(cs)), zNear, fovXY);
  }
}
