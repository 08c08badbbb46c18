/**
 Docker's multiplexed stream framing: [stream(1)][0(3)][size(4), big endian] and then the payload
 ("Stream format" of "Attach to a container", Docker Engine API v1.44).
 */
module Stdcopy {
  import opened Bytes
  import opened Sinks

  const STDIN: byte := 0
  const STDOUT: byte := 1
  const STDERR: byte := 2
  const SYSTEMERR: byte := 3

  const FRAME_HEADER_LEN := 8
  const FRAME_STREAM_INDEX := 0
  const FRAME_SIZE_INDEX := 4
  const MAX_WRITE_CHUNK := 0x10_0000
  const DEFAULT_MAX_FRAME_LEN := 0x200_0000

  datatype Frame = Frame(stream: byte, data: seq<byte>)

  // ---------------------------------------------------------------------------------------------
  // The wire format
  // ---------------------------------------------------------------------------------------------

  type uint32 = x: int | 0 <= x < 0x1_0000_0000

  /** The last n base-256 digits of a number, the most significant first. */
  function Digits(v: nat, n: nat): (s: seq<byte>)
    ensures |s| == n
  {
    if n == 0 then [] else Digits(v / 256, n - 1) + [v % 256]
  }

  function FromDigits(s: seq<byte>): nat {
    if s == [] then 0 else FromDigits(s[..|s| - 1]) * 256 + s[|s| - 1]
  }

  /** How many numbers n digits can write. */
  function Range(n: nat): nat {
    if n == 0 then 1 else 256 * Range(n - 1)
  }

  lemma {:induction false} DigitsRoundTrip(v: nat, n: nat)
    requires v < Range(n)
    ensures FromDigits(Digits(v, n)) == v
  {
    if n > 0 {
      DigitsRoundTrip(v / 256, n - 1);
      var s := Digits(v, n);
      assert s[..|s| - 1] == Digits(v / 256, n - 1);
    }
  }

  /** The size field holds the length truncated to 32 bits, big endian. */
  ghost function EncodeFrame(f: Frame): seq<byte> {
    [f.stream, 0, 0, 0] + Digits(|f.data|, FRAME_HEADER_LEN - FRAME_SIZE_INDEX) + f.data
  }

  /** A frame byte by byte: the stream, three zeros, the length with its most significant byte first, the payload. */
  lemma FrameLayout(f: Frame)
    requires |f.data| < 0x1_0000_0000
    ensures EncodeFrame(f)[..4] == [f.stream, 0, 0, 0]
    ensures EncodeFrame(f)[4..8]
         == [|f.data| / 256 / 256 / 256, |f.data| / 256 / 256 % 256, |f.data| / 256 % 256, |f.data| % 256]
    ensures EncodeFrame(f)[8..] == f.data
  {
    var size := |f.data|;
    FourDigits(size);
    TopDigit(size);
    assert EncodeFrame(f)[..4] == [f.stream, 0, 0, 0];
    assert EncodeFrame(f)[4..8] == Digits(size, 4);
    assert EncodeFrame(f)[8..] == f.data;
  }

  lemma TopDigit(size: uint32)
    ensures size / 256 / 256 / 256 % 256 == size / 256 / 256 / 256
  {
    assert size / 256 < 0x100_0000;
    assert size / 256 / 256 < 0x1_0000;
    assert size / 256 / 256 / 256 < 0x100;
  }

  /** An empty payload is a single empty frame. */
  lemma EmptyMessage(stream: byte)
    ensures Message(stream, []) == [stream, 0, 0, 0, 0, 0, 0, 0]
  {
    MessageStep(stream, []);
    FrameLayout(Frame(stream, []));
    var frame := EncodeFrame(Frame(stream, []));
    assert frame == frame[..4] + frame[4..8] + frame[8..];
  }

  /** The frames a demultiplexer accepts: a size under the cap. */
  ghost predicate Fits(f: Frame) {
    |f.data| <= DEFAULT_MAX_FRAME_LEN
  }

  /** Frames carrying container output, as opposed to Systemerr or an unknown stream. */
  ghost predicate Ordinary(f: Frame) {
    Fits(f) && f.stream in {STDIN, STDOUT, STDERR}
  }

  ghost function EncodeFrames(fs: seq<Frame>): seq<byte> {
    if fs == [] then [] else EncodeFrame(fs[0]) + EncodeFrames(fs[1..])
  }

  lemma {:induction false} EncodeFramesAppend(a: seq<Frame>, b: seq<Frame>)
    ensures EncodeFrames(a + b) == EncodeFrames(a) + EncodeFrames(b)
  {
    if a == [] {
      assert a + b == b;
    } else {
      assert (a + b)[1..] == a[1..] + b;
      EncodeFramesAppend(a[1..], b);
    }
  }

  /** How Writer.Write cuts one payload: full chunks of 1 MiB and then the remainder. */
  ghost function Chunks(stream: byte, p: seq<byte>): (fs: seq<Frame>)
    ensures |fs| > 0
    decreases |p|
  {
    if |p| <= MAX_WRITE_CHUNK then [Frame(stream, p)]
    else [Frame(stream, p[..MAX_WRITE_CHUNK])] + Chunks(stream, p[MAX_WRITE_CHUNK..])
  }

  /** The payload carried by a list of frames. */
  ghost function Data(fs: seq<Frame>): seq<byte> {
    if fs == [] then [] else fs[0].data + Data(fs[1..])
  }

  /** Chunking loses and reorders nothing. */
  lemma {:induction false} ChunksKeepPayload(stream: byte, p: seq<byte>)
    ensures Data(Chunks(stream, p)) == p
    decreases |p|
  {
    var fs := Chunks(stream, p);
    if |p| <= MAX_WRITE_CHUNK {
      assert fs[1..] == [];
      assert Data(fs) == fs[0].data + Data([]);
    } else {
      ChunksKeepPayload(stream, p[MAX_WRITE_CHUNK..]);
      assert fs[1..] == Chunks(stream, p[MAX_WRITE_CHUNK..]);
      assert p == p[..MAX_WRITE_CHUNK] + p[MAX_WRITE_CHUNK..];
    }
  }

  // ---------------------------------------------------------------------------------------------
  // Writing
  // ---------------------------------------------------------------------------------------------

  datatype WriteError = WriterUninitialized | ShortWrite | SinkFailed

  /** What a non-nil payload looks like on the wire. */
  ghost function Message(stream: byte, p: seq<byte>): seq<byte> {
    EncodeFrames(Chunks(stream, p))
  }

  /** What is still to be sent when `rest` is left of a payload. */
  ghost function Unsent(stream: byte, rest: seq<byte>): seq<byte> {
    if rest == [] then [] else Message(stream, rest)
  }

  ghost function FirstChunk(p: seq<byte>): seq<byte> {
    if |p| > MAX_WRITE_CHUNK then p[..MAX_WRITE_CHUNK] else p
  }

  lemma MessageStep(stream: byte, p: seq<byte>)
    ensures Message(stream, p)
         == EncodeFrame(Frame(stream, FirstChunk(p))) + Unsent(stream, p[|FirstChunk(p)|..])
  {
    var fs := Chunks(stream, p);
    assert EncodeFrames(fs) == EncodeFrame(fs[0]) + EncodeFrames(fs[1..]);
    if |p| <= MAX_WRITE_CHUNK {
      assert fs[1..] == [];
    } else {
      assert fs[1..] == Chunks(stream, p[MAX_WRITE_CHUNK..]);
    }
  }

  const FULL_FRAME := FRAME_HEADER_LEN + MAX_WRITE_CHUNK

  /** How many payload bytes lie in the first `k` bytes of a message. */
  function Carried(k: nat): nat {
    if k <= FULL_FRAME then Max(0, k - FRAME_HEADER_LEN) else MAX_WRITE_CHUNK + Carried(k - FULL_FRAME)
  }

  /** Whether `k` is a whole number of full frames. */
  ghost predicate Aligned(k: nat) {
    k == 0 || (k >= FULL_FRAME && Aligned(k - FULL_FRAME))
  }

  lemma {:induction false} CarriedStep(k: nat, cut: nat)
    requires Aligned(k) && cut <= FULL_FRAME
    ensures Carried(k + cut) == Carried(k) + Max(0, cut - FRAME_HEADER_LEN)
    ensures Aligned(k + FULL_FRAME)
  {
    if k > 0 {
      CarriedStep(k - FULL_FRAME, cut);
    }
  }

  /**
   What a partial count means: the first `k` bytes of the message of `p` are whole frames of it followed
   by a prefix of the next frame, and they carry exactly the first Carried(k) bytes of `p`.
   */
  lemma {:induction false} PartialMessage(stream: byte, p: seq<byte>, k: nat)
      returns (done: seq<Frame>, next: Frame, cut: nat)
    requires k <= |Message(stream, p)|
    ensures done + [next] <= Chunks(stream, p) && cut <= |EncodeFrame(next)|
    ensures Message(stream, p)[..k] == EncodeFrames(done) + EncodeFrame(next)[..cut]
    ensures Carried(k) <= |p| && p[..Carried(k)] == Data(done) + next.data[..Max(0, cut - FRAME_HEADER_LEN)]
    decreases |p|
  {
    var first := Frame(stream, FirstChunk(p));
    MessageStep(stream, p);
    if k <= FRAME_HEADER_LEN + |first.data| {
      done, next, cut := [], first, k;
    } else {
      var rest := p[MAX_WRITE_CHUNK..];
      var k' := k - FULL_FRAME;
      done, next, cut := PartialMessage(stream, rest, k');
      PartialMessageCons(stream, p, k, done, next, cut);
      done := [first] + done;
    }
  }

  lemma PartialMessageCons(stream: byte, p: seq<byte>, k: nat, done: seq<Frame>, next: Frame, cut: nat)
    requires |p| > MAX_WRITE_CHUNK && FULL_FRAME < k <= |Message(stream, p)|
    requires var rest := p[MAX_WRITE_CHUNK..];
      var k' := k - FULL_FRAME;
      && k' <= |Message(stream, rest)|
      && done + [next] <= Chunks(stream, rest) && cut <= |EncodeFrame(next)|
      && Message(stream, rest)[..k'] == EncodeFrames(done) + EncodeFrame(next)[..cut]
      && Carried(k') <= |rest|
      && rest[..Carried(k')] == Data(done) + next.data[..Max(0, cut - FRAME_HEADER_LEN)]
    ensures var done' := [Frame(stream, p[..MAX_WRITE_CHUNK])] + done;
      && done' + [next] <= Chunks(stream, p)
      && Message(stream, p)[..k] == EncodeFrames(done') + EncodeFrame(next)[..cut]
      && Carried(k) <= |p| && p[..Carried(k)] == Data(done') + next.data[..Max(0, cut - FRAME_HEADER_LEN)]
  {
    var head := Frame(stream, p[..MAX_WRITE_CHUNK]);
    var rest := p[MAX_WRITE_CHUNK..];
    var k' := k - FULL_FRAME;
    MessageStep(stream, p);
    TakeConcat(EncodeFrame(head), Message(stream, rest), k);
    TakeConcat(head.data, rest, Carried(k));
    assert p == head.data + rest;
    assert ([head] + done)[1..] == done;
    Assoc(EncodeFrame(head), EncodeFrames(done), EncodeFrame(next)[..cut]);
    Assoc(head.data, Data(done), next.data[..Max(0, cut - FRAME_HEADER_LEN)]);
    Assoc([head], done, [next]);
  }

  /** What arrives of a frame is a prefix of all that was to be sent. */
  lemma CutPrefix(before: seq<byte>, frame: seq<byte>, later: seq<byte>, cut: nat)
    requires cut <= |frame|
    ensures before + frame[..cut] <= before + (frame + later)
  {
  }

  lemma FourDigits(v: nat)
    ensures Digits(v, 4) == [v / 256 / 256 / 256 % 256, v / 256 / 256 % 256, v / 256 % 256, v % 256]
  {
    var a := v / 256;
    var b := a / 256;
    var c := b / 256;
    assert Digits(c, 1) == Digits(c / 256, 0) + [c % 256] == [c % 256];
    assert Digits(b, 2) == [c % 256, b % 256];
    assert Digits(a, 3) == [c % 256, b % 256, a % 256];
  }

  method PutUint32(buf: array<byte>, at: nat, v: uint32)
    requires at + 4 <= buf.Length
    modifies buf
    ensures buf[at..at + 4] == Digits(v, 4)
    ensures forall i | 0 <= i < buf.Length && !(at <= i < at + 4) :: buf[i] == old(buf[i])
  {
    FourDigits(v);
    buf[at] := v / 256 / 256 / 256 % 256;
    buf[at + 1] := v / 256 / 256 % 256;
    buf[at + 2] := v / 256 % 256;
    buf[at + 3] := v % 256;
  }

  /** Writes one stream of a multiplexed destination. */
  class Writer {
    const sink: Sink?
    const stream: byte

    constructor (sink: Sink?, stream: byte)
      ensures this.sink == sink && this.stream == stream
    {
      this.sink := sink;
      this.stream := stream;
    }

    /** The wire form of a payload: a nil slice has none, an empty one is a single empty frame. */
    ghost function Wire(p: Option<seq<byte>>): seq<byte> {
      if p.None? then [] else Message(stream, p.value)
    }

    /** Lays out one frame in a fresh buffer. */
    method FrameBuffer(p: seq<byte>) returns (buf: array<byte>)
      requires |p| <= MAX_WRITE_CHUNK
      ensures fresh(buf) && buf[..] == EncodeFrame(Frame(stream, p))
    {
      buf := new byte[FRAME_HEADER_LEN + |p|](_ => 0);
      PutHeader(buf, |p|);
      CopyPayload(buf, p);
      assert buf[..] == buf[..FRAME_HEADER_LEN] + buf[FRAME_HEADER_LEN..];
    }

    method PutHeader(buf: array<byte>, size: uint32)
      requires buf.Length >= FRAME_HEADER_LEN
      requires forall i | 0 <= i < FRAME_HEADER_LEN :: buf[i] == 0
      modifies buf
      ensures buf[..FRAME_HEADER_LEN] == [stream, 0, 0, 0] + Digits(size, 4)
    {
      buf[FRAME_STREAM_INDEX] := stream;
      PutUint32(buf, FRAME_SIZE_INDEX, size);
      ghost var header := buf[..FRAME_HEADER_LEN];
      assert buf[0] == stream && buf[1] == 0 && buf[2] == 0 && buf[3] == 0;
      assert header[..FRAME_SIZE_INDEX] == [stream, 0, 0, 0];
      assert header[FRAME_SIZE_INDEX..] == buf[FRAME_SIZE_INDEX..FRAME_HEADER_LEN];
      assert header == header[..FRAME_SIZE_INDEX] + header[FRAME_SIZE_INDEX..];
    }

    method CopyPayload(buf: array<byte>, p: seq<byte>)
      requires buf.Length == FRAME_HEADER_LEN + |p|
      modifies buf
      ensures buf[..FRAME_HEADER_LEN] == old(buf[..FRAME_HEADER_LEN]) && buf[FRAME_HEADER_LEN..] == p
    {
      forall i | 0 <= i < |p| {
        buf[FRAME_HEADER_LEN + i] := p[i];
      }
    }

    /** Sends one frame; `cut` bytes of it arrive. */
    method WriteChunk(p: seq<byte>) returns (n: nat, err: Option<WriteError>, ghost cut: nat)
      requires sink != null && |p| <= MAX_WRITE_CHUNK
      modifies sink
      ensures cut <= |EncodeFrame(Frame(stream, p))|
      ensures sink.contents == old(sink.contents) + EncodeFrame(Frame(stream, p))[..cut]
      ensures n == Max(0, cut - FRAME_HEADER_LEN) <= |p|
      ensures err.Some? ==> err.value in {ShortWrite, SinkFailed}
      ensures old(sink.Honest()) ==> sink.Honest() && err != Some(ShortWrite)
      ensures old(sink.Silent()) ==> sink.Silent() && err != Some(SinkFailed)
      ensures err.None? ==>
                && sink.contents == old(sink.contents) + EncodeFrame(Frame(stream, p))
                && n == |p| && cut == FRAME_HEADER_LEN + |p|
      ensures old(sink.Reliable()) ==> sink.Reliable() && err.None?
    {
      var buf := FrameBuffer(p);
      assert buf.Length == FRAME_HEADER_LEN + |p| by {
        assert |buf[..]| == FRAME_HEADER_LEN + |p|;
      }
      var accepted, failed := sink.Write(buf[..]);
      cut := accepted;
      if !failed && accepted == buf.Length {
        n, err := |p|, None;
      } else if !failed && accepted < FRAME_HEADER_LEN {
        n, err := 0, Some(ShortWrite);
      } else if !failed {
        n, err := accepted - FRAME_HEADER_LEN, Some(ShortWrite);
      } else if accepted < FRAME_HEADER_LEN {
        n, err := 0, Some(SinkFailed);
      } else if accepted - FRAME_HEADER_LEN < |p| {
        n, err := accepted - FRAME_HEADER_LEN, Some(SinkFailed);
      } else {
        n, err := |p|, Some(SinkFailed);
      }
    }

    /** Sends the first chunk of what is left. */
    method WriteNext(rest: seq<byte>, ghost sent: nat) returns (m: nat, err: Option<WriteError>, ghost cut: nat)
      requires sink != null && rest != [] && Aligned(sent)
      modifies sink
      ensures old(sink.contents) <= sink.contents <= old(sink.contents) + Message(stream, rest)
      ensures |sink.contents| == |old(sink.contents)| + cut
      ensures err.Some? ==> err.value in {ShortWrite, SinkFailed}
      ensures old(sink.Honest()) ==> sink.Honest() && err != Some(ShortWrite)
      ensures old(sink.Silent()) ==> sink.Silent() && err != Some(SinkFailed)
      ensures m <= |rest| && Carried(sent + cut) == Carried(sent) + m
      ensures err.None? ==>
                && sink.contents + Unsent(stream, rest[m..]) == old(sink.contents) + Message(stream, rest)
                && m > 0 && (m < |rest| ==> Aligned(sent + cut))
      ensures old(sink.Reliable()) ==> sink.Reliable() && err.None?
    {
      var chunk := if |rest| > MAX_WRITE_CHUNK then rest[..MAX_WRITE_CHUNK] else rest;
      MessageStep(stream, rest);
      ghost var frame, later := EncodeFrame(Frame(stream, chunk)), rest[|chunk|..];
      Assoc(sink.contents, frame, Unsent(stream, later));
      m, err, cut := WriteChunk(chunk);
      CarriedStep(sent, cut);
      CutPrefix(old(sink.contents), frame, Unsent(stream, later), cut);
    }

    /** Sends a non-empty payload chunk by chunk until it is all sent or a chunk fails. */
    method WriteChunks(p: seq<byte>) returns (n: nat, err: Option<WriteError>)
      requires sink != null && p != []
      modifies sink
      ensures old(sink.contents) <= sink.contents <= old(sink.contents) + Message(stream, p)
      ensures err.Some? ==> err.value in {ShortWrite, SinkFailed}
      ensures old(sink.Honest()) ==> sink.Honest() && err != Some(ShortWrite)
      ensures old(sink.Silent()) ==> sink.Silent() && err != Some(SinkFailed)
      ensures n == Carried(|sink.contents| - |old(sink.contents)|) <= |p|
      ensures err.None? ==> sink.contents == old(sink.contents) + Message(stream, p) && n == |p|
      ensures old(sink.Reliable()) ==> sink.Reliable() && err.None?
    {
      n, err := 0, None;
      var rest := p;
      ghost var all := sink.contents + Message(stream, p);
      ghost var sent := 0;
      while |rest| > 0
        invariant err.None? && n + |rest| == |p|
        invariant old(sink.contents) <= sink.contents && |sink.contents| == |old(sink.contents)| + sent
        invariant sink.contents + Unsent(stream, rest) == all
        invariant n == Carried(sent) && (|rest| > 0 ==> Aligned(sent))
        invariant old(sink.Reliable()) ==> sink.Reliable()
        invariant old(sink.Honest()) ==> sink.Honest()
        invariant old(sink.Silent()) ==> sink.Silent()
        decreases |rest|
      {
        var m;
        ghost var cut;
        m, err, cut := WriteNext(rest, sent);
        n := n + m;
        rest := rest[m..];
        sent := sent + cut;
        if err.Some? {
          return;
        }
      }
    }

    /**
     However the destination behaves, it receives a prefix of the wire form of `p`, and the returned count
     is exactly the number of payload bytes in that prefix.
     */
    method Write(p: Option<seq<byte>>) returns (n: nat, err: Option<WriteError>)
      modifies sink
      ensures sink == null ==> n == 0 && err == Some(WriterUninitialized)
      ensures sink != null ==>
                && old(sink.contents) <= sink.contents <= old(sink.contents) + Wire(p)
                && n == Carried(|sink.contents| - |old(sink.contents)|)
                && n <= (if p.None? then 0 else |p.value|)
                && (err.None? ==> sink.contents == old(sink.contents) + Wire(p))
                && err != Some(WriterUninitialized)
                && (p.None? ==> sink.contents == old(sink.contents) && n == 0 && err.None?)
                && (p == Some([]) && err.None? ==> sink.contents == old(sink.contents) + [stream, 0, 0, 0, 0, 0, 0, 0])
                && (old(sink.Honest()) ==> sink.Honest() && err != Some(ShortWrite))
                && (old(sink.Silent()) ==> sink.Silent() && err != Some(SinkFailed))
                && (err.None? && p.Some? ==> n == |p.value|)
                && (old(sink.Reliable()) ==> sink.Reliable() && err.None?)
    {
      n, err := 0, None;
      if sink == null {
        err := Some(WriterUninitialized);
      } else if p.None? {
      } else if |p.value| == 0 {
        MessageStep(stream, []);
        EmptyMessage(stream);
        ghost var cut;
        n, err, cut := WriteChunk([]);
        CarriedStep(0, cut);
      } else {
        n, err := WriteChunks(p.value);
      }
    }
  }
}
