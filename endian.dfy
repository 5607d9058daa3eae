/** Bytes, little-endian values and the byte reversal used to read COLMAP's binary
    files on either kind of host. A value of an n-byte type is the sequence of its n
    bytes as laid out in memory. */
module Endian {
  type Byte = b: int | 0 <= b < 256

  function Pow256(n: nat): (r: nat)
    ensures r > 0
  {
    if n == 0 then 1 else 256 * Pow256(n - 1)
  }

  /** The number whose base-256 digits are `bs`, least significant first. */
  function LittleEndian(bs: seq<Byte>): (r: nat)
    ensures r < Pow256(|bs|)
  {
    if bs == [] then 0 else bs[0] + 256 * LittleEndian(bs[1..])
  }

  /** The n bytes of `v`, least significant first (how a little-endian file holds it). */
  function ToLittleEndian(v: nat, n: nat): (r: seq<Byte>)
    ensures |r| == n
  {
    if n == 0 then [] else [v % 256] + ToLittleEndian(v / 256, n - 1)
  }

  /** Writing n bytes and reading them back gives the value, if it fits in n bytes. */
  lemma {:induction false} LittleEndianRoundTrip(v: nat, n: nat)
    requires v < Pow256(n)
    ensures LittleEndian(ToLittleEndian(v, n)) == v
  {
    if n > 0 {
      var bs := ToLittleEndian(v, n);
      assert bs[1..] == ToLittleEndian(v / 256, n - 1);
      assert v / 256 < Pow256(n - 1) by {
        DivBound(v, Pow256(n - 1));
      }
      LittleEndianRoundTrip(v / 256, n - 1);
    }
  }

  lemma DivBound(v: nat, p: nat)
    requires v < 256 * p
    ensures v / 256 < p
  {
  }

  /** The bytes in the opposite order. */
  function Reversed(s: seq<Byte>): (r: seq<Byte>)
    ensures |r| == |s|
  {
    if s == [] then [] else Reversed(s[1..]) + [s[0]]
  }

  /** Byte i of the reversal is byte n-1-i of the input. */
  lemma {:induction false} ReversedAt(s: seq<Byte>, i: nat)
    requires i < |s|
    ensures Reversed(s)[i] == s[|s| - 1 - i]
  {
    if i < |s| - 1 {
      ReversedAt(s[1..], i);
    }
  }

  /** Reversing twice gives back the input. */
  lemma ReversedTwice(s: seq<Byte>)
    ensures Reversed(Reversed(s)) == s
  {
    forall i | 0 <= i < |s|
      ensures Reversed(Reversed(s))[i] == s[i]
    {
      ReversedAt(Reversed(s), i);
      ReversedAt(s, |s| - 1 - i);
    }
  }

  /** ReverseBytes: byte i of the result is written from byte n-1-i of the input. */
  method ReverseBytes(x: seq<Byte>) returns (r: seq<Byte>)
    ensures r == Reversed(x)
  {
    var dst := new Byte[|x|];
    var i := 0;
    while i < |x|
      invariant 0 <= i <= |x|
      invariant forall j :: 0 <= j < i ==> dst[j] == x[|x| - 1 - j]
    {
      dst[i] := x[|x| - 1 - i];
      i := i + 1;
    }
    r := dst[..];
    forall j | 0 <= j < |x|
      ensures r[j] == Reversed(x)[j]
    {
      ReversedAt(x, j);
    }
  }

  /** IsLittleEndian: false exactly when the build defines BOOST_BIG_ENDIAN. */
  function IsLittleEndian(bigEndianBuild: bool): (r: bool)
    ensures r <==> !bigEndianBuild
  {
    !bigEndianBuild
  }

  /** The number the bytes of an n-byte value in memory stand for on the host. */
  function NativeValue(bigEndianBuild: bool, memory: seq<Byte>): nat {
    if IsLittleEndian(bigEndianBuild) then LittleEndian(memory)
    else LittleEndian(Reversed(memory))
  }

  /** LittleEndianToNative: the identity on a little-endian host, ReverseBytes on a
      big-endian one. */
  function LittleEndianToNative(bigEndianBuild: bool, x: seq<Byte>): (r: seq<Byte>)
    ensures |r| == |x|
    ensures IsLittleEndian(bigEndianBuild) ==> r == x
    ensures !IsLittleEndian(bigEndianBuild) ==> forall i :: 0 <= i < |x| ==> r[i] == x[|x| - 1 - i]
  {
    if IsLittleEndian(bigEndianBuild) then x
    else
      var r := Reversed(x);
      assert forall i :: 0 <= i < |x| ==> r[i] == x[|x| - 1 - i] by {
        forall i | 0 <= i < |x| {
          ReversedAt(x, i);
        }
      }
      r
  }

  /** ReadBinaryLittleEndian: the n bytes read from the file, converted to native order,
      stand for the little-endian value of the file bytes on either host. */
  lemma ReadIsLittleEndian(bigEndianBuild: bool, fileBytes: seq<Byte>)
    ensures NativeValue(bigEndianBuild, LittleEndianToNative(bigEndianBuild, fileBytes))
         == LittleEndian(fileBytes)
  {
    if !IsLittleEndian(bigEndianBuild) {
      ReversedTwice(fileBytes);
    }
  }
}
