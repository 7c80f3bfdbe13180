/**
 * The audio codec: reading and writing signed 16-bit little-endian samples
 * (Node's `Buffer.readInt16LE`/`writeInt16LE`) and the stereo-to-mono
 * downmix that keeps the left channel of every interleaved sample pair.
 */
module Pcm {
  import opened Wrappers

  type byte = x: int | 0 <= x < 256

  /** The exception Node raises when a read or write runs past the end of a buffer. */
  datatype CodecError = RangeError

  /** `buf.readInt16LE(off)`: the two bytes at `off` as a signed 16-bit value. */
  function ReadInt16LE(s: seq<byte>, off: nat): (v: int)
    requires off + 2 <= |s|
    ensures -32768 <= v <= 32767
    ensures v % 65536 == (s[off] as int + 256 * s[off + 1] as int) % 65536
  {
    var u := s[off] as int + 256 * s[off + 1] as int;
    if u >= 32768 then u - 65536 else u
  }

  /** `buf.writeInt16LE(v, off)` seen as the two bytes it stores. */
  function WriteInt16LE(v: int): (r: seq<byte>)
    requires -32768 <= v <= 32767
    ensures |r| == 2
    ensures ReadInt16LE(r, 0) == v
  {
    var u := if v < 0 then v + 65536 else v;
    [u % 256, u / 256]
  }

  /** Reading a sample and writing it back reproduces the very same two bytes. */
  lemma WriteReadsBack(s: seq<byte>, off: nat)
    requires off + 2 <= |s|
    ensures WriteInt16LE(ReadInt16LE(s, off)) == s[off..off + 2]
  {
  }

  /** The left-channel sample of stereo frame `i` (bytes 4i and 4i+1). */
  function LeftSample(stereo: seq<byte>, i: nat): int
    requires 4 * i + 4 <= |stereo|
  {
    ReadInt16LE(stereo, 4 * i)
  }

  /** Sample `i` of a mono buffer (bytes 2i and 2i+1). */
  function MonoSample(mono: seq<byte>, i: nat): int
    requires 2 * i + 2 <= |mono|
  {
    ReadInt16LE(mono, 2 * i)
  }

  /**
   * The loop body of the downmix, run over every stereo pair: read the left
   * sample, write it to the next mono slot. The result holds one sample per
   * stereo pair, and mono sample i is left sample i.
   */
  function LeftChannel(stereo: seq<byte>): (mono: seq<byte>)
    requires |stereo| % 4 == 0
    ensures |mono| == |stereo| / 2
    ensures forall i :: 0 <= i < |stereo| / 4 ==> MonoSample(mono, i) == LeftSample(stereo, i)
    decreases |stereo|
  {
    if |stereo| == 0 then []
    else
      var head := WriteInt16LE(ReadInt16LE(stereo, 0));
      var rest := LeftChannel(stereo[4..]);
      var mono := head + rest;
      assert forall i :: 1 <= i < |stereo| / 4 ==>
        MonoSample(mono, i) == MonoSample(rest, i - 1) && LeftSample(stereo, i) == LeftSample(stereo[4..], i - 1);
      mono
  }

  /** Two stereo buffers of the same length whose left channels agree. */
  predicate SameLeftChannel(a: seq<byte>, b: seq<byte>) {
    && |a| == |b|
    && forall i :: 0 <= i < |a| / 4 ==> a[4 * i] == b[4 * i] && a[4 * i + 1] == b[4 * i + 1]
  }

  /** The right channel never influences the downmix. */
  lemma {:induction false} RightChannelIgnored(a: seq<byte>, b: seq<byte>)
    requires |a| % 4 == 0 && SameLeftChannel(a, b)
    ensures LeftChannel(a) == LeftChannel(b)
    decreases |a|
  {
    if |a| > 0 {
      assert a[0] == b[0] && a[1] == b[1] by { assert a[4 * 0] == b[4 * 0]; }
      assert SameLeftChannel(a[4..], b[4..]) by {
        forall i | 0 <= i < |a[4..]| / 4
          ensures a[4..][4 * i] == b[4..][4 * i] && a[4..][4 * i + 1] == b[4..][4 * i + 1]
        {
          assert a[4 * (i + 1)] == b[4 * (i + 1)] && a[4 * (i + 1) + 1] == b[4 * (i + 1) + 1];
        }
      }
      RightChannelIgnored(a[4..], b[4..]);
    }
  }

  /** Byte view of the downmix: mono bytes 2i, 2i+1 are stereo bytes 4i, 4i+1. */
  lemma {:induction false} LeftChannelBytes(stereo: seq<byte>, i: nat)
    requires |stereo| % 4 == 0 && i < |stereo| / 4
    ensures LeftChannel(stereo)[2 * i] == stereo[4 * i]
    ensures LeftChannel(stereo)[2 * i + 1] == stereo[4 * i + 1]
    decreases i
  {
    if i == 0 {
      WriteReadsBack(stereo, 0);
    } else {
      LeftChannelBytes(stereo[4..], i - 1);
      assert LeftChannel(stereo)[2 * i] == LeftChannel(stereo[4..])[2 * (i - 1)];
      assert LeftChannel(stereo)[2 * i + 1] == LeftChannel(stereo[4..])[2 * (i - 1) + 1];
    }
  }

  /** Downmixing splits over concatenation at a stereo-pair boundary. */
  lemma {:induction false} LeftChannelAppend(a: seq<byte>, b: seq<byte>)
    requires |a| % 4 == 0 && |b| % 4 == 0
    ensures LeftChannel(a + b) == LeftChannel(a) + LeftChannel(b)
    decreases |a|
  {
    if |a| > 0 {
      assert (a + b)[4..] == a[4..] + b;
      assert ReadInt16LE(a + b, 0) == ReadInt16LE(a, 0);
      LeftChannelAppend(a[4..], b);
    } else {
      assert a + b == b;
    }
  }

  /**
   * `convertStereoToMono(buf)`. With a length divisible by four it is the
   * left-channel downmix; otherwise the loop reads or writes past the end of
   * a buffer and Node throws.
   */
  function ConvertStereoToMono(stereo: seq<byte>): (r: Result<seq<byte>, CodecError>)
    ensures r.Success? <==> |stereo| % 4 == 0
    ensures r.Success? ==> |r.value| == |stereo| / 2
    ensures r.Success? ==> forall i :: 0 <= i < |stereo| / 4 ==> MonoSample(r.value, i) == LeftSample(stereo, i)
  {
    if |stereo| % 4 == 0 then Success(LeftChannel(stereo)) else Failure(RangeError)
  }
}
