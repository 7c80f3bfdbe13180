/**
 * The capture process's stdout handler: incoming bytes are appended to an
 * accumulation buffer that is cut into fixed-size frames of 100 ms of 24 kHz,
 * 16-bit stereo audio; whatever is left stays buffered for the next event,
 * with a one-second cap on what may be retained.
 */
module Framing {
  import opened Pcm

  const SampleRate: nat := 24000
  /** 100 ms of 16-bit stereo capture audio: `SAMPLE_RATE * BYTES_PER_SAMPLE * CHANNELS * 0.1`, 9600 bytes. */
  const ChunkSize: nat := 9600
  /** One second of 16-bit mono audio, `SAMPLE_RATE * BYTES_PER_SAMPLE * 1`: the retention cap, 48000. */
  const MaxBufferSize: nat := 48000

  /** The frames of a data event put back end to end. */
  function Flatten(frames: seq<seq<byte>>): seq<byte>
  {
    if frames == [] then [] else frames[0] + Flatten(frames[1..])
  }

  lemma {:induction false} FlattenAppend(a: seq<seq<byte>>, b: seq<seq<byte>>)
    ensures Flatten(a + b) == Flatten(a) + Flatten(b)
  {
    if a != [] {
      assert (a + b)[1..] == a[1..] + b;
      FlattenAppend(a[1..], b);
    } else {
      assert a + b == b;
    }
  }

  /** Every frame has exactly the chunk size. */
  predicate AllFullFrames(frames: seq<seq<byte>>) {
    forall k :: 0 <= k < |frames| ==> |frames[k]| == ChunkSize
  }

  /** What one data event produces: the frames cut off and the bytes kept. */
  datatype Cut = Cut(frames: seq<seq<byte>>, rest: seq<byte>)

  /**
   * The `while (audioBuffer.length >= CHUNK_SIZE)` loop: cut whole frames
   * off the front of the buffer, in order, until less than a frame is left.
   */
  function Slice(buf: seq<byte>): (c: Cut)
    ensures AllFullFrames(c.frames)
    ensures Flatten(c.frames) + c.rest == buf
    ensures |c.rest| < ChunkSize
    decreases |buf|
  {
    if |buf| < ChunkSize then Cut([], buf)
    else
      var head := buf[..ChunkSize];
      var tail := Slice(buf[ChunkSize..]);
      ConsFrame(head, tail.frames, tail.rest);
      assert buf == head + buf[ChunkSize..];
      Cut([head] + tail.frames, tail.rest)
  }

  /** Putting one more full frame in front of a run of full frames. */
  lemma ConsFrame(head: seq<byte>, frames: seq<seq<byte>>, rest: seq<byte>)
    requires |head| == ChunkSize && AllFullFrames(frames)
    ensures AllFullFrames([head] + frames)
    ensures Flatten([head] + frames) + rest == head + (Flatten(frames) + rest)
  {
    assert ([head] + frames)[1..] == frames;
  }

  /** The `i`-th 9600-byte window of `buf`, for each window that fits whole. */
  function Window(buf: seq<byte>, i: nat): (w: seq<byte>)
    requires i < |buf| / ChunkSize
    ensures |w| == ChunkSize
  {
    buf[i * ChunkSize..(i + 1) * ChunkSize]
  }

  /** The frames the loop cuts are the consecutive 9600-byte windows of the buffer, as many as fit. */
  lemma {:induction false} SliceFrames(buf: seq<byte>)
    ensures |Slice(buf).frames| == |buf| / ChunkSize
    ensures forall i :: 0 <= i < |Slice(buf).frames| ==> Slice(buf).frames[i] == Window(buf, i)
    decreases |buf|
  {
    if |buf| >= ChunkSize {
      var tail := buf[ChunkSize..];
      SliceFrames(tail);
      var frames := Slice(buf).frames;
      assert frames == [buf[..ChunkSize]] + Slice(tail).frames;
      forall i | 0 <= i < |frames|
        ensures frames[i] == Window(buf, i)
      {
        if i > 0 {
          assert frames[i] == Slice(tail).frames[i - 1];
          assert Window(tail, i - 1) == Window(buf, i);
        }
      }
    }
  }

  /** `buf.slice(-cap)` when the buffer is longer than `cap`: keep only its last `cap` bytes. */
  function KeepTail(buf: seq<byte>, cap: nat): (r: seq<byte>)
    ensures |r| <= cap
    ensures |buf| <= cap ==> r == buf
    ensures |buf| > cap ==> r == buf[|buf| - cap..]
  {
    if |buf| > cap then buf[|buf| - cap..] else buf
  }

  /**
   * The whole stdout data handler: append the event's bytes, cut frames, and
   * keep at most the last `MaxBufferSize` bytes. Every emitted frame is full,
   * nothing is lost or reordered, and what is kept is less than one frame, so
   * the tail trim never removes anything.
   */
  function Feed(buffer: seq<byte>, data: seq<byte>): (c: Cut)
    ensures AllFullFrames(c.frames)
    ensures Flatten(c.frames) + c.rest == buffer + data
    ensures |c.rest| < ChunkSize <= MaxBufferSize
    ensures c == Slice(buffer + data)
  {
    var sliced := Slice(buffer + data);
    Cut(sliced.frames, KeepTail(sliced.rest, MaxBufferSize))
  }

  /** Slicing is the only way to cut `buf` into full frames and a short rest. */
  lemma {:induction false} SliceUnique(buf: seq<byte>, frames: seq<seq<byte>>, rest: seq<byte>)
    requires AllFullFrames(frames)
    requires Flatten(frames) + rest == buf
    requires |rest| < ChunkSize
    ensures Slice(buf) == Cut(frames, rest)
    decreases |buf|
  {
    if frames == [] {
      assert buf == rest;
    } else {
      assert buf == frames[0] + (Flatten(frames[1..]) + rest);
      assert buf[..ChunkSize] == frames[0];
      assert buf[ChunkSize..] == Flatten(frames[1..]) + rest;
      SliceUnique(buf[ChunkSize..], frames[1..], rest);
      assert [frames[0]] + frames[1..] == frames;
    }
  }

  /**
   * Data-event boundaries do not matter: two consecutive events produce the
   * same frames, and leave the same bytes buffered, as one event carrying
   * both payloads.
   */
  lemma FeedSplit(buffer: seq<byte>, d1: seq<byte>, d2: seq<byte>)
    ensures var first := Feed(buffer, d1);
            var second := Feed(first.rest, d2);
            Feed(buffer, d1 + d2) == Cut(first.frames + second.frames, second.rest)
  {
    var first := Feed(buffer, d1);
    var second := Feed(first.rest, d2);
    CutsJoin(buffer, d1, d2, first.frames, first.rest, second.frames, second.rest);
    SliceUnique(buffer + (d1 + d2), first.frames + second.frames, second.rest);
  }

  /** The frames of two consecutive cuts, and the rest after them, give back all the bytes. */
  lemma CutsJoin(buffer: seq<byte>, d1: seq<byte>, d2: seq<byte>,
                 frames1: seq<seq<byte>>, rest1: seq<byte>, frames2: seq<seq<byte>>, rest2: seq<byte>)
    requires AllFullFrames(frames1) && AllFullFrames(frames2)
    requires Flatten(frames1) + rest1 == buffer + d1
    requires Flatten(frames2) + rest2 == rest1 + d2
    ensures AllFullFrames(frames1 + frames2)
    ensures Flatten(frames1 + frames2) + rest2 == buffer + (d1 + d2)
  {
    FlattenAppend(frames1, frames2);
    calc {
      Flatten(frames1 + frames2) + rest2;
      Flatten(frames1) + (Flatten(frames2) + rest2);
      Flatten(frames1) + (rest1 + d2);
      (Flatten(frames1) + rest1) + d2;
      (buffer + d1) + d2;
      buffer + (d1 + d2);
    }
  }

  /** The frames of a data event downmixed one by one. */
  function MonoFrames(frames: seq<seq<byte>>): (mono: seq<seq<byte>>)
    requires AllFullFrames(frames)
    ensures |mono| == |frames|
    ensures forall k :: 0 <= k < |frames| ==> mono[k] == LeftChannel(frames[k])
  {
    if frames == [] then [] else [LeftChannel(frames[0])] + MonoFrames(frames[1..])
  }

  /** Full frames put back together hold whole stereo pairs. */
  lemma {:induction false} FlattenAligned(frames: seq<seq<byte>>)
    requires AllFullFrames(frames)
    ensures |Flatten(frames)| % 4 == 0
  {
    if frames != [] {
      FlattenAligned(frames[1..]);
      assert |Flatten(frames)| == ChunkSize + |Flatten(frames[1..])|;
    }
  }

  /** Downmixing frame by frame equals downmixing the consumed bytes as one buffer. */
  lemma {:induction false} MonoFramesFlatten(frames: seq<seq<byte>>)
    requires AllFullFrames(frames)
    ensures |Flatten(frames)| % 4 == 0
    ensures Flatten(MonoFrames(frames)) == LeftChannel(Flatten(frames))
  {
    FlattenAligned(frames);
    if frames != [] {
      var head := frames[0];
      var tail := frames[1..];
      MonoFramesFlatten(tail);
      assert Flatten(frames) == head + Flatten(tail);
      var mono := MonoFrames(frames);
      assert mono[1..] == MonoFrames(tail);
      assert Flatten(mono) == LeftChannel(head) + Flatten(MonoFrames(tail));
      LeftChannelAppend(head, Flatten(tail));
    }
  }
}
