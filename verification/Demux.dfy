/** The demultiplexer: reading Docker's framed stream back into stdout and stderr. */
module Demultiplexing {
  import opened Bytes
  import opened Sinks
  import opened Stdcopy

  datatype ReadError =
    | EOF
    | UnexpectedEOF
    | UnknownStream(id: byte)
    | FrameTooLarge(size: nat)
    | SourceFailed

  datatype DemuxError =
    | Unreadable(error: ReadError)
    | DaemonError(message: seq<byte>)
    | DestinationFailed
    | DestinationShort

  datatype ReadResult = Read(frame: Frame) | Stopped(error: ReadError)

  // ---------------------------------------------------------------------------------------------
  // What a wire means
  // ---------------------------------------------------------------------------------------------

  /** The error of a full read that finds only `available` bytes: io.EOF exactly when there were none. */
  function ShortRead(available: nat, failing: bool): ReadError {
    if failing then SourceFailed else if available == 0 then EOF else UnexpectedEOF
  }

  function HeaderSize(wire: seq<byte>): nat
    requires |wire| >= FRAME_HEADER_LEN
  {
    FromDigits(wire[FRAME_SIZE_INDEX..FRAME_HEADER_LEN])
  }

  /** The first frame of a wire that ends, after its last byte, in EOF or in a source failure. */
  ghost function ParseFrame(wire: seq<byte>, failing: bool): ReadResult {
    if |wire| < FRAME_HEADER_LEN then Stopped(ShortRead(|wire|, failing))
    else if wire[FRAME_STREAM_INDEX] > SYSTEMERR then Stopped(UnknownStream(wire[FRAME_STREAM_INDEX]))
    else
      var size := HeaderSize(wire);
      if size > DEFAULT_MAX_FRAME_LEN then Stopped(FrameTooLarge(size))
      else if |wire| - FRAME_HEADER_LEN < size then Stopped(ShortRead(|wire| - FRAME_HEADER_LEN, failing))
      else Read(Frame(wire[FRAME_STREAM_INDEX], wire[FRAME_HEADER_LEN..FRAME_HEADER_LEN + size]))
  }

  /** The bytes after the first frame. */
  ghost function AfterFrame(wire: seq<byte>, f: Frame): seq<byte> {
    if FRAME_HEADER_LEN + |f.data| <= |wire| then wire[FRAME_HEADER_LEN + |f.data|..] else []
  }

  datatype Decoded = Decoded(frames: seq<Frame>, end: Option<DemuxError>)

  /** All the frames to deliver, and how the stream ends; a truncated trailing frame is an ordinary end. */
  ghost function Decode(wire: seq<byte>, failing: bool): Decoded
    decreases |wire|
  {
    match ParseFrame(wire, failing)
    case Stopped(EOF) => Decoded([], None)
    case Stopped(UnexpectedEOF) => Decoded([], None)
    case Stopped(e) => Decoded([], Some(Unreadable(e)))
    case Read(f) =>
      if f.stream == SYSTEMERR then Decoded([], Some(DaemonError(f.data)))
      else
        var later := Decode(AfterFrame(wire, f), failing);
        Decoded([f] + later.frames, later.end)
  }

  /** What one frame gives a destination that takes everything but stderr, stderr only, or both. */
  ghost function Share(f: Frame, out: bool, err: bool): seq<byte> {
    if (if f.stream == STDERR then err else out) then f.data else []
  }

  ghost function Routed(fs: seq<Frame>, out: bool, err: bool): seq<byte> {
    if fs == [] then [] else Share(fs[0], out, err) + Routed(fs[1..], out, err)
  }

  // ---------------------------------------------------------------------------------------------
  // The round trip
  // ---------------------------------------------------------------------------------------------

  /** Every 32-bit size reads back. */
  lemma BigEndianRoundTrip(v: uint32)
    ensures FromDigits(Digits(v, 4)) == v
  {
    assert Range(4) == 256 * (256 * (256 * (256 * Range(0))));
    DigitsRoundTrip(v, 4);
  }

  /** Every frame that fits starts with a header naming its stream and its size. */
  lemma FrameHeader(f: Frame) returns (header: seq<byte>)
    requires Fits(f)
    ensures |header| == FRAME_HEADER_LEN && header[FRAME_STREAM_INDEX] == f.stream && HeaderSize(header) == |f.data|
    ensures EncodeFrame(f) == header + f.data
  {
    BigEndianRoundTrip(|f.data|);
    header := [f.stream, 0, 0, 0] + Digits(|f.data|, 4);
    assert header[FRAME_SIZE_INDEX..FRAME_HEADER_LEN] == Digits(|f.data|, 4);
  }

  /** A header that names a stream and the size of what follows. */
  lemma ParseHeader(header: seq<byte>, f: Frame, rest: seq<byte>, failing: bool)
    requires |header| == FRAME_HEADER_LEN && header[FRAME_STREAM_INDEX] == f.stream <= SYSTEMERR
    requires HeaderSize(header) == |f.data| && Fits(f)
    ensures ParseFrame(header + f.data + rest, failing) == Read(f)
    ensures AfterFrame(header + f.data + rest, f) == rest
  {
    var wire := header + f.data + rest;
    assert wire[FRAME_STREAM_INDEX] == header[FRAME_STREAM_INDEX];
    assert wire[FRAME_SIZE_INDEX..FRAME_HEADER_LEN] == header[FRAME_SIZE_INDEX..FRAME_HEADER_LEN];
    assert wire[FRAME_HEADER_LEN..FRAME_HEADER_LEN + |f.data|] == f.data;
    assert wire[FRAME_HEADER_LEN + |f.data|..] == rest;
  }

  /** Parsing undoes encoding, whatever follows the frame. */
  lemma ParseEncoded(f: Frame, rest: seq<byte>, failing: bool)
    requires Fits(f) && f.stream <= SYSTEMERR
    ensures ParseFrame(EncodeFrame(f) + rest, failing) == Read(f)
    ensures AfterFrame(EncodeFrame(f) + rest, f) == rest
  {
    var header := FrameHeader(f);
    ParseHeader(header, f, rest, failing);
  }

  /** Ordinary frames decode to themselves, followed by whatever the rest of the wire decodes to. */
  lemma {:induction false} DecodeFrames(fs: seq<Frame>, rest: seq<byte>, failing: bool)
    requires forall i | 0 <= i < |fs| :: Ordinary(fs[i])
    ensures Decode(EncodeFrames(fs) + rest, failing)
         == Decoded(fs + Decode(rest, failing).frames, Decode(rest, failing).end)
  {
    if fs == [] {
      assert EncodeFrames(fs) + rest == rest;
      assert fs + Decode(rest, failing).frames == Decode(rest, failing).frames;
    } else {
      var later := EncodeFrames(fs[1..]) + rest;
      DecodeFrames(fs[1..], rest, failing);
      assert Ordinary(fs[0]);
      ParseEncoded(fs[0], later, failing);
      Assoc(EncodeFrame(fs[0]), EncodeFrames(fs[1..]), rest);
      Assoc([fs[0]], fs[1..], Decode(rest, failing).frames);
      assert [fs[0]] + fs[1..] == fs;
    }
  }

  /** One Write call on a stdout or stderr writer sharing the destination. */
  datatype StreamWrite = StreamWrite(stream: byte, data: seq<byte>)

  /** The shared destination's bytes after a sequence of writes, in order. */
  ghost function WireOf(ws: seq<StreamWrite>): seq<byte> {
    if ws == [] then [] else Message(ws[0].stream, ws[0].data) + WireOf(ws[1..])
  }

  ghost function FramesOf(ws: seq<StreamWrite>): seq<Frame> {
    if ws == [] then [] else Chunks(ws[0].stream, ws[0].data) + FramesOf(ws[1..])
  }

  /** The concatenation of the payloads of the selected streams. */
  ghost function PayloadOf(ws: seq<StreamWrite>, out: bool, err: bool): seq<byte> {
    if ws == [] then []
    else (if (if ws[0].stream == STDERR then err else out) then ws[0].data else []) + PayloadOf(ws[1..], out, err)
  }

  lemma {:induction false} ChunksAreSmall(stream: byte, p: seq<byte>)
    ensures forall i | 0 <= i < |Chunks(stream, p)| ::
              Chunks(stream, p)[i].stream == stream && |Chunks(stream, p)[i].data| <= MAX_WRITE_CHUNK
    decreases |p|
  {
    if |p| > MAX_WRITE_CHUNK {
      ChunksAreSmall(stream, p[MAX_WRITE_CHUNK..]);
    }
  }

  /** The frames on the wire, none of them over 1 MiB. */
  lemma {:induction false} WireIsFrames(ws: seq<StreamWrite>)
    requires forall i | 0 <= i < |ws| :: ws[i].stream in {STDIN, STDOUT, STDERR}
    ensures WireOf(ws) == EncodeFrames(FramesOf(ws))
    ensures forall i | 0 <= i < |FramesOf(ws)| ::
              Ordinary(FramesOf(ws)[i]) && |FramesOf(ws)[i].data| <= MAX_WRITE_CHUNK == 1048576
  {
    if ws != [] {
      WireIsFrames(ws[1..]);
      ChunksAreSmall(ws[0].stream, ws[0].data);
      EncodeFramesAppend(Chunks(ws[0].stream, ws[0].data), FramesOf(ws[1..]));
    }
  }

  lemma {:induction false} RoutedAppend(a: seq<Frame>, b: seq<Frame>, out: bool, err: bool)
    ensures Routed(a + b, out, err) == Routed(a, out, err) + Routed(b, out, err)
  {
    if a == [] {
      assert a + b == b;
    } else {
      assert (a + b)[1..] == a[1..] + b;
      RoutedAppend(a[1..], b, out, err);
    }
  }

  lemma {:induction false} RoutedChunks(stream: byte, p: seq<byte>, out: bool, err: bool)
    ensures Routed(Chunks(stream, p), out, err) == if (if stream == STDERR then err else out) then p else []
    decreases |p|
  {
    var fs := Chunks(stream, p);
    if |p| <= MAX_WRITE_CHUNK {
      assert fs[1..] == [];
    } else {
      RoutedChunks(stream, p[MAX_WRITE_CHUNK..], out, err);
      assert fs[1..] == Chunks(stream, p[MAX_WRITE_CHUNK..]);
      assert p == p[..MAX_WRITE_CHUNK] + p[MAX_WRITE_CHUNK..];
    }
  }

  lemma {:induction false} RoutedFrames(ws: seq<StreamWrite>, out: bool, err: bool)
    ensures Routed(FramesOf(ws), out, err) == PayloadOf(ws, out, err)
  {
    if ws != [] {
      RoutedFrames(ws[1..], out, err);
      RoutedChunks(ws[0].stream, ws[0].data, out, err);
      RoutedAppend(Chunks(ws[0].stream, ws[0].data), FramesOf(ws[1..]), out, err);
    }
  }

  /** All the payload, in order. */
  lemma {:induction false} RoutedAll(fs: seq<Frame>)
    ensures Routed(fs, true, true) == Data(fs)
  {
    if fs != [] {
      RoutedAll(fs[1..]);
    }
  }

  /**
   Multiplexing round trip: for writes of any length on any mix of streams, the demultiplexer meets no
   error and gives every destination the exact concatenation of its writes.
   */
  lemma MuxRoundTrip(ws: seq<StreamWrite>, out: bool, err: bool)
    requires forall i | 0 <= i < |ws| :: ws[i].stream in {STDIN, STDOUT, STDERR}
    ensures Decode(WireOf(ws), false).end == None
    ensures Routed(Decode(WireOf(ws), false).frames, out, err) == PayloadOf(ws, out, err)
    ensures |Data(Decode(WireOf(ws), false).frames)| == |PayloadOf(ws, true, true)|
  {
    WireIsFrames(ws);
    DecodeFrames(FramesOf(ws), [], false);
    assert EncodeFrames(FramesOf(ws)) + [] == WireOf(ws);
    assert FramesOf(ws) + [] == FramesOf(ws);
    RoutedFrames(ws, out, err);
    RoutedFrames(ws, true, true);
    RoutedAll(FramesOf(ws));
  }

  // ---------------------------------------------------------------------------------------------
  // Truncation
  // ---------------------------------------------------------------------------------------------

  /** How many frames lie wholly inside the first `k` bytes. */
  ghost function FramesWithin(fs: seq<Frame>, k: nat): (m: nat)
    ensures m <= |fs|
  {
    if fs == [] || k < |EncodeFrame(fs[0])| then 0 else 1 + FramesWithin(fs[1..], k - |EncodeFrame(fs[0])|)
  }

  /** FramesWithin is the largest number of leading frames that fit. */
  lemma {:induction false} FramesWithinIsLargest(fs: seq<Frame>, k: nat)
    ensures var m := FramesWithin(fs, k);
      && |EncodeFrames(fs[..m])| <= k
      && (m < |fs| ==> k < |EncodeFrames(fs[..m + 1])|)
  {
    if fs != [] {
      var size := |EncodeFrame(fs[0])|;
      if k < size {
        assert fs[..1][1..] == [];
      } else {
        FramesWithinIsLargest(fs[1..], k - size);
        var m := FramesWithin(fs[1..], k - size);
        assert fs[..m + 1][1..] == fs[1..][..m];
        if m + 1 < |fs| {
          assert fs[..m + 2][1..] == fs[1..][..m + 1];
        }
      }
    }
  }

  /** A proper prefix of a frame, cut in the header, right after it or in the payload, holds no frame. */
  lemma CutFrame(f: Frame, k: nat)
    requires Ordinary(f) && k < |EncodeFrame(f)|
    ensures Decode(EncodeFrame(f)[..k], false) == Decoded([], None)
  {
    if k >= FRAME_HEADER_LEN {
      var header := FrameHeader(f);
      var wire := EncodeFrame(f)[..k];
      TakeConcat(header, f.data, k);
      assert wire[FRAME_STREAM_INDEX] == header[FRAME_STREAM_INDEX];
      assert wire[FRAME_SIZE_INDEX..FRAME_HEADER_LEN] == header[FRAME_SIZE_INDEX..FRAME_HEADER_LEN];
    }
  }

  lemma FramesWithinCons(fs: seq<Frame>, k: nat, left: nat)
    requires fs != [] && k == |EncodeFrame(fs[0])| + left
    ensures fs[..FramesWithin(fs, k)] == [fs[0]] + fs[1..][..FramesWithin(fs[1..], left)]
  {
  }

  lemma DecodeCons(f: Frame, rest: seq<byte>)
    requires Ordinary(f)
    ensures Decode(EncodeFrame(f) + rest, false) == Decoded([f] + Decode(rest, false).frames, Decode(rest, false).end)
  {
    ParseEncoded(f, rest, false);
  }

  /** What ends a stream after ordinary frames is what the rest of the wire starts with. */
  lemma EndAfterFrames(fs: seq<Frame>, rest: seq<byte>, failing: bool, e: DemuxError)
    requires forall i | 0 <= i < |fs| :: Ordinary(fs[i])
    requires Decode(rest, failing) == Decoded([], Some(e))
    ensures Decode(EncodeFrames(fs) + rest, failing) == Decoded(fs, Some(e))
  {
    DecodeFrames(fs, rest, failing);
    assert fs + [] == fs;
  }

  /** The daemon's own error, on stream 3, ends the stream after the frames before it and is reported as sent. */
  lemma DaemonErrorEnds(fs: seq<Frame>, message: seq<byte>, rest: seq<byte>, failing: bool)
    requires forall i | 0 <= i < |fs| :: Ordinary(fs[i])
    requires |message| <= 33554432
    ensures Decode(EncodeFrames(fs) + (EncodeFrame(Frame(3, message)) + rest), failing)
         == Decoded(fs, Some(DaemonError(message)))
  {
    ParseEncoded(Frame(3, message), rest, failing);
    EndAfterFrames(fs, EncodeFrame(Frame(3, message)) + rest, failing, DaemonError(message));
  }

  /** So does a header with an unknown stream. */
  lemma UnknownStreamEnds(fs: seq<Frame>, header: seq<byte>, rest: seq<byte>, failing: bool)
    requires forall i | 0 <= i < |fs| :: Ordinary(fs[i])
    requires |header| == 8 && header[0] !in {0, 1, 2, 3}
    ensures Decode(EncodeFrames(fs) + (header + rest), failing)
         == Decoded(fs, Some(Unreadable(UnknownStream(header[0]))))
  {
    assert (header + rest)[0] == header[0];
    EndAfterFrames(fs, header + rest, failing, Unreadable(UnknownStream(header[0])));
  }

  /** And one of a known stream that announces more than 32 MiB, whatever follows. */
  lemma TooLargeEnds(fs: seq<Frame>, stream: byte, size: uint32, rest: seq<byte>, failing: bool)
    requires forall i | 0 <= i < |fs| :: Ordinary(fs[i])
    requires stream in {0, 1, 2, 3} && size > 33554432
    ensures Decode(EncodeFrames(fs) + ([stream, 0, 0, 0] + Digits(size, 4) + rest), failing)
         == Decoded(fs, Some(Unreadable(FrameTooLarge(size))))
  {
    var header := [stream, 0, 0, 0] + Digits(size, 4);
    BigEndianRoundTrip(size);
    assert header[FRAME_SIZE_INDEX..FRAME_HEADER_LEN] == Digits(size, 4);
    HeaderPrefix(header, rest);
    EndAfterFrames(fs, header + rest, failing, Unreadable(FrameTooLarge(size)));
  }

  lemma HeaderPrefix(header: seq<byte>, rest: seq<byte>)
    requires |header| == FRAME_HEADER_LEN
    ensures HeaderSize(header + rest) == HeaderSize(header) && (header + rest)[0] == header[0]
  {
    assert (header + rest)[FRAME_SIZE_INDEX..FRAME_HEADER_LEN] == header[FRAME_SIZE_INDEX..FRAME_HEADER_LEN];
  }

  /** A source that fails before another whole frame arrived is reported as failing, after the frames before. */
  lemma SourceFailureEnds(fs: seq<Frame>, f: Frame, k: nat)
    requires forall i | 0 <= i < |fs| :: Ordinary(fs[i])
    requires Ordinary(f) && k < |EncodeFrame(f)|
    ensures Decode(EncodeFrames(fs) + EncodeFrame(f)[..k], true) == Decoded(fs, Some(Unreadable(SourceFailed)))
  {
    CutEnd(f, k, true);
    EndAfterFrames(fs, EncodeFrame(f)[..k], true, Unreadable(SourceFailed));
  }

  /** How reading a cut frame ends: EOF with nothing of the header or of the payload, UnexpectedEOF inside either. */
  lemma CutEnd(f: Frame, k: nat, failing: bool)
    requires Ordinary(f) && k < |EncodeFrame(f)|
    ensures ParseFrame(EncodeFrame(f)[..k], failing)
         == Stopped(if failing then SourceFailed else if k == 0 || k == 8 then EOF else UnexpectedEOF)
  {
    if k >= FRAME_HEADER_LEN {
      var header := FrameHeader(f);
      TakeConcat(header, f.data, k);
      HeaderPrefix(header, f.data[..k - FRAME_HEADER_LEN]);
    }
  }

  /** Every prefix of a wire of ordinary frames delivers the frames wholly inside it, without an error. */
  lemma {:induction false} TruncationTolerance(fs: seq<Frame>, k: nat)
    requires forall i | 0 <= i < |fs| :: Ordinary(fs[i])
    requires k <= |EncodeFrames(fs)|
    ensures Decode(EncodeFrames(fs)[..k], false) == Decoded(fs[..FramesWithin(fs, k)], None)
  {
    if fs == [] {
      TruncationNone(k);
    } else {
      assert Ordinary(fs[0]);
      var size := |EncodeFrame(fs[0])|;
      if k < size {
        TruncationCut(fs, k);
        assert FramesWithin(fs, k) == 0 && fs[..0] == [];
      } else {
        assert EncodeFrames(fs) == EncodeFrame(fs[0]) + EncodeFrames(fs[1..]);
        TruncationTolerance(fs[1..], k - size);
        TruncationCons(fs, k, k - size);
      }
    }
  }

  lemma TruncationNone(k: nat)
    requires k <= |EncodeFrames([])|
    ensures Decode(EncodeFrames([])[..k], false) == Decoded([], None)
  {
    assert EncodeFrames([])[..k] == [];
  }

  lemma TruncationCut(fs: seq<Frame>, k: nat)
    requires fs != [] && Ordinary(fs[0]) && k < |EncodeFrame(fs[0])|
    ensures k <= |EncodeFrames(fs)| && Decode(EncodeFrames(fs)[..k], false) == Decoded([], None)
  {
    CutFrame(fs[0], k);
    assert EncodeFrames(fs)[..k] == EncodeFrame(fs[0])[..k];
  }

  lemma TruncationCons(fs: seq<Frame>, k: nat, left: nat)
    requires fs != [] && Ordinary(fs[0]) && k == |EncodeFrame(fs[0])| + left && left <= |EncodeFrames(fs[1..])|
    requires Decode(EncodeFrames(fs[1..])[..left], false) == Decoded(fs[1..][..FramesWithin(fs[1..], left)], None)
    ensures Decode(EncodeFrames(fs)[..k], false) == Decoded(fs[..FramesWithin(fs, k)], None)
  {
    var later := EncodeFrames(fs[1..]);
    TakeConcat(EncodeFrame(fs[0]), later, k);
    DecodeCons(fs[0], later[..left]);
    FramesWithinCons(fs, k, left);
  }

  // ---------------------------------------------------------------------------------------------
  // Reading and demultiplexing
  // ---------------------------------------------------------------------------------------------

  /** The bytes still to be read, followed by EOF or, when `failing`, by an error of the source. */
  class Source {
    var rest: seq<byte>
    const failing: bool

    constructor (wire: seq<byte>, failing: bool)
      ensures rest == wire && this.failing == failing
    {
      rest := wire;
      this.failing := failing;
    }

    /** io.ReadFull: fills the buffer, or reports how the source ended. */
    method ReadFull(buf: array<byte>) returns (err: Option<ReadError>)
      modifies this, buf
      ensures buf.Length <= |old(rest)| ==>
                err == None && buf[..] == old(rest)[..buf.Length] && rest == old(rest)[buf.Length..]
      ensures buf.Length > |old(rest)| ==> err == Some(ShortRead(|old(rest)|, failing)) && rest == []
    {
      var n := Min(buf.Length, |rest|);
      forall i | 0 <= i < n {
        buf[i] := rest[i];
      }
      err := if n < buf.Length then Some(ShortRead(|rest|, failing)) else None;
      rest := rest[n..];
    }
  }

  /** Reads one frame at a time, reusing its header buffer. */
  class Reader {
    const src: Source
    const header: array<byte>

    constructor (src: Source)
      ensures this.src == src && fresh(header) && header.Length == FRAME_HEADER_LEN
    {
      this.src := src;
      header := new byte[FRAME_HEADER_LEN](_ => 0);
    }

    method ReadFrame() returns (r: ReadResult)
      requires header.Length == FRAME_HEADER_LEN
      modifies src, header
      ensures r == ParseFrame(old(src.rest), src.failing)
      ensures r.Read? ==> src.rest == AfterFrame(old(src.rest), r.frame)
    {
      ghost var wire := src.rest;
      var err := src.ReadFull(header);
      if err.Some? {
        return Stopped(err.value);
      }
      var head := header[..];
      var stream, size := head[FRAME_STREAM_INDEX], HeaderSize(head);
      assert stream == wire[FRAME_STREAM_INDEX];
      assert head[FRAME_SIZE_INDEX..FRAME_HEADER_LEN] == wire[FRAME_SIZE_INDEX..FRAME_HEADER_LEN];
      if stream > SYSTEMERR {
        r := Stopped(UnknownStream(stream));
      } else if size > DEFAULT_MAX_FRAME_LEN {
        r := Stopped(FrameTooLarge(size));
      } else {
        r := ReadPayload(stream, size, wire);
      }
    }

    /** The next frame to deliver, or the end of the stream with the error Demux returns for it. */
    method NextFrame() returns (next: Option<Frame>, err: Option<DemuxError>)
      requires header.Length == FRAME_HEADER_LEN
      modifies src, header
      ensures next.None? ==> Decode(old(src.rest), src.failing) == Decoded([], err)
      ensures next.Some? ==>
                && Decode(old(src.rest), src.failing).frames == [next.value] + Decode(src.rest, src.failing).frames
                && Decode(old(src.rest), src.failing).end == Decode(src.rest, src.failing).end
                && |src.rest| < |old(src.rest)|
      ensures err !in {Some(DestinationFailed), Some(DestinationShort)}
    {
      var r := ReadFrame();
      if r.Stopped? {
        next := None;
        err := if r.error == EOF || r.error == UnexpectedEOF then None else Some(Unreadable(r.error));
      } else if r.frame.stream == SYSTEMERR {
        next, err := None, Some(DaemonError(r.frame.data));
      } else {
        next, err := Some(r.frame), None;
      }
    }

    method ReadPayload(stream: byte, size: nat, ghost wire: seq<byte>) returns (r: ReadResult)
      requires |wire| >= FRAME_HEADER_LEN && src.rest == wire[FRAME_HEADER_LEN..]
      modifies src
      ensures r == if |wire| - FRAME_HEADER_LEN < size
                   then Stopped(ShortRead(|wire| - FRAME_HEADER_LEN, src.failing))
                   else Read(Frame(stream, wire[FRAME_HEADER_LEN..FRAME_HEADER_LEN + size]))
      ensures r.Read? ==> src.rest == AfterFrame(wire, r.frame)
    {
      var data := new byte[size](_ => 0);
      var err := src.ReadFull(data);
      r := if err.Some? then Stopped(err.value) else Read(Frame(stream, data[..]));
    }
  }

  ghost function Growth(before: seq<byte>, now: seq<byte>): int {
    |now| - |before|
  }

  /**
   Delivers the frames of `src`. The two destinations may be the same object, which then receives both
   streams. Whatever they do, each holds a prefix of what it is meant to receive and the count is the
   number of bytes they took; if neither fails they hold all of it and the stream's own end is returned.
   */
  method Demux(dstOut: Sink, dstErr: Sink, src: Source) returns (written: int, err: Option<DemuxError>)
    modifies dstOut, dstErr, src
    ensures var all, same := Decode(old(src.rest), src.failing), dstOut == dstErr;
      && old(dstOut.contents) <= dstOut.contents <= old(dstOut.contents) + Routed(all.frames, true, same)
      && old(dstErr.contents) <= dstErr.contents <= old(dstErr.contents) + Routed(all.frames, same, true)
      && written == Growth(old(dstOut.contents), dstOut.contents)
                    + (if same then 0 else Growth(old(dstErr.contents), dstErr.contents))
      && (old(dstOut.Honest() && dstErr.Honest()) ==> err != Some(DestinationShort))
      && (old(dstOut.Silent() && dstErr.Silent()) ==> err != Some(DestinationFailed))
      && (err !in {Some(DestinationFailed), Some(DestinationShort)} ==>
            && err == all.end
            && dstOut.contents == old(dstOut.contents) + Routed(all.frames, true, same)
            && dstErr.contents == old(dstErr.contents) + Routed(all.frames, same, true)
            && written == |Data(all.frames)|)
    ensures old(dstOut.Reliable()) && old(dstErr.Reliable()) ==> err == Decode(old(src.rest), src.failing).end
  {
    var r := new Reader(src);
    written, err := 0, None;
    ghost var same := dstOut == dstErr;
    ghost var honest, silent := dstOut.Honest() && dstErr.Honest(), dstOut.Silent() && dstErr.Silent();
    ghost var all := Decode(src.rest, src.failing);
    ghost var left := all;
    ghost var outAll := dstOut.contents + Routed(all.frames, true, same);
    ghost var errAll := dstErr.contents + Routed(all.frames, same, true);
    var more := true;
    while more
      invariant r.header.Length == FRAME_HEADER_LEN && r.src == src && fresh(r.header)
      invariant more ==> err.None? && left == Decode(src.rest, src.failing) && left.end == all.end
      invariant err !in {Some(DestinationFailed), Some(DestinationShort)} ==>
                  && dstOut.contents + Routed(left.frames, true, same) == outAll
                  && dstErr.contents + Routed(left.frames, same, true) == errAll
                  && written + |Data(left.frames)| == |Data(all.frames)|
                  && (!more ==> left.frames == [] && err == all.end)
      invariant old(dstOut.contents) <= dstOut.contents <= outAll && old(dstErr.contents) <= dstErr.contents <= errAll
      invariant written == Growth(old(dstOut.contents), dstOut.contents)
                           + (if same then 0 else Growth(old(dstErr.contents), dstErr.contents))
      invariant old(dstOut.Reliable()) && old(dstErr.Reliable()) ==>
                  dstOut.Reliable() && dstErr.Reliable() && err !in {Some(DestinationFailed), Some(DestinationShort)}
      invariant honest ==> dstOut.Honest() && dstErr.Honest() && err != Some(DestinationShort)
      invariant silent ==> dstOut.Silent() && dstErr.Silent() && err != Some(DestinationFailed)
      decreases more, |src.rest|
    {
      var n;
      n, err, more, left := DeliverNext(dstOut, dstErr, r, left);
      written := written + n;
    }
  }

  /** One turn of the loop: the next frame is delivered, or the stream or a destination ends it. */
  method DeliverNext(dstOut: Sink, dstErr: Sink, r: Reader, ghost all: Decoded)
    returns (n: nat, err: Option<DemuxError>, more: bool, ghost left: Decoded)
    requires r.header.Length == FRAME_HEADER_LEN && all == Decode(r.src.rest, r.src.failing)
    modifies dstOut, dstErr, r.src, r.header
    ensures var same := dstOut == dstErr;
      && old(dstOut.contents) <= dstOut.contents <= old(dstOut.contents) + Routed(all.frames, true, same)
      && old(dstErr.contents) <= dstErr.contents <= old(dstErr.contents) + Routed(all.frames, same, true)
      && n == Growth(old(dstOut.contents), dstOut.contents)
              + (if same then 0 else Growth(old(dstErr.contents), dstErr.contents))
      && (err !in {Some(DestinationFailed), Some(DestinationShort)} ==>
            && dstOut.contents + Routed(left.frames, true, same) == old(dstOut.contents) + Routed(all.frames, true, same)
            && dstErr.contents + Routed(left.frames, same, true) == old(dstErr.contents) + Routed(all.frames, same, true)
            && n + |Data(left.frames)| == |Data(all.frames)|
            && (!more ==> left.frames == [] && err == all.end))
      && (more ==>
            && err.None? && left == Decode(r.src.rest, r.src.failing) && left.end == all.end
            && |r.src.rest| < |old(r.src.rest)|)
    ensures old(dstOut.Reliable()) && old(dstErr.Reliable()) ==>
              dstOut.Reliable() && dstErr.Reliable() && err !in {Some(DestinationFailed), Some(DestinationShort)}
    ensures old(dstOut.Honest() && dstErr.Honest()) ==>
              dstOut.Honest() && dstErr.Honest() && err != Some(DestinationShort)
    ensures old(dstOut.Silent() && dstErr.Silent()) ==>
              dstOut.Silent() && dstErr.Silent() && err != Some(DestinationFailed)
  {
    n, more, left := 0, false, Decoded([], None);
    var next;
    next, err := r.NextFrame();
    if next.Some? {
      left := Decode(r.src.rest, r.src.failing);
      RoutedCons(dstOut.contents, next.value, left.frames, true, dstOut == dstErr);
      RoutedCons(dstErr.contents, next.value, left.frames, dstOut == dstErr, true);
      n, err := Deliver(dstOut, dstErr, next.value);
      more := err.None?;
    }
  }

  lemma RoutedCons(before: seq<byte>, f: Frame, fs: seq<Frame>, out: bool, err: bool)
    ensures before + Routed([f] + fs, out, err) == before + Share(f, out, err) + Routed(fs, out, err)
    ensures Data([f] + fs) == f.data + Data(fs)
  {
    assert ([f] + fs)[1..] == fs;
  }

  /** Writes one frame to its destination; a destination that is not chosen is untouched. */
  method Deliver(dstOut: Sink, dstErr: Sink, frame: Frame) returns (n: nat, err: Option<DemuxError>)
    modifies dstOut, dstErr
    ensures var same := dstOut == dstErr;
      && old(dstOut.contents) <= dstOut.contents <= old(dstOut.contents) + Share(frame, true, same)
      && old(dstErr.contents) <= dstErr.contents <= old(dstErr.contents) + Share(frame, same, true)
      && n == Growth(old(dstOut.contents), dstOut.contents)
              + (if same then 0 else Growth(old(dstErr.contents), dstErr.contents))
      && (err.None? ==>
            && dstOut.contents == old(dstOut.contents) + Share(frame, true, same)
            && dstErr.contents == old(dstErr.contents) + Share(frame, same, true)
            && n == |frame.data|)
    ensures err in {None, Some(DestinationFailed), Some(DestinationShort)}
    ensures old(dstOut.Honest() && dstErr.Honest()) ==>
              dstOut.Honest() && dstErr.Honest() && err != Some(DestinationShort)
    ensures old(dstOut.Silent() && dstErr.Silent()) ==>
              dstOut.Silent() && dstErr.Silent() && err != Some(DestinationFailed)
    ensures old(dstOut.Reliable()) && old(dstErr.Reliable()) ==>
              err.None? && dstOut.Reliable() && dstErr.Reliable()
  {
    var dst := if frame.stream == STDERR then dstErr else dstOut;
    var failed;
    n, failed := dst.Write(frame.data);
    err := if failed then Some(DestinationFailed)
           else if n != |frame.data| then Some(DestinationShort)
           else None;
  }
}
