/** End to end: container output to log file, log file to framed response, response back to output. */
module LogPipeline {
  import opened Bytes
  import opened Sinks
  import opened Stdcopy
  import opened Demultiplexing
  import opened LogTail
  import opened LogLines
  import opened LogFollow
  import opened LogReading
  import opened CriLog

  /** One line in the log file. Each line is written by a single append, so streams interleave by lines. */
  datatype LogLine = LogLine(stream: LogStream, time: Time, content: seq<byte>)

  ghost function Rendering(codec: Codec, l: LogLine): seq<byte> {
    RenderLine(codec, l.time, l.stream, l.content)
  }

  ghost function FileOf(codec: Codec, lines: seq<LogLine>): seq<byte> {
    if lines == [] then [] else Rendering(codec, lines[0]) + FileOf(codec, lines[1..])
  }

  /** The contents of the lines of one stream, in file order. */
  ghost function ContentsOf(lines: seq<LogLine>, stream: LogStream): seq<seq<byte>> {
    if lines == [] then []
    else (if lines[0].stream == stream then [lines[0].content] else []) + ContentsOf(lines[1..], stream)
  }

  /** The line contents of a sequence of writes of one stream. */
  ghost function LinesOf(writes: seq<seq<byte>>): seq<seq<byte>> {
    if writes == [] then [] else SplitWrite(writes[0]) + LinesOf(writes[1..])
  }

  /** The file's lines are those of the writes, each stream in its own order, interleaved in any way. */
  ghost predicate Interleaves(lines: seq<LogLine>, outWrites: seq<seq<byte>>, errWrites: seq<seq<byte>>) {
    ContentsOf(lines, Out) == LinesOf(outWrites) && ContentsOf(lines, Err) == LinesOf(errWrites)
  }

  /** A non-empty write that does not end a line gains one newline. */
  ghost function Terminated(w: seq<byte>): seq<byte> {
    if w == [] || w[|w| - 1] == NEWLINE then w else w + [NEWLINE]
  }

  ghost function TerminatedAll(writes: seq<seq<byte>>): seq<byte> {
    if writes == [] then [] else Terminated(writes[0]) + TerminatedAll(writes[1..])
  }

  /** The text of lines, each with its newline. */
  ghost function Text(contents: seq<seq<byte>>): seq<byte> {
    if contents == [] then [] else contents[0] + [NEWLINE] + Text(contents[1..])
  }

  // ---------------------------------------------------------------------------------------------
  // Splitting a write and joining its lines
  // ---------------------------------------------------------------------------------------------

  lemma {:induction false} TextOfSplit(w: seq<byte>)
    ensures Text(SplitWrite(w)) == Terminated(w)
    decreases |w|
  {
    if w != [] {
      var i := IndexOf(w, NEWLINE);
      if i < 0 {
        assert w[|w| - 1] != NEWLINE;
        TextCons(w, []);
        assert SplitWrite(w) == [w] + [];
      } else {
        var rest := w[i + 1..];
        TextOfSplit(rest);
        TextCons(w[..i], SplitWrite(rest));
        TerminatedCons(w, i);
      }
    }
  }

  lemma TextCons(line: seq<byte>, lines: seq<seq<byte>>)
    ensures Text([line] + lines) == line + [NEWLINE] + Text(lines)
    ensures Text([]) == [] && line + [NEWLINE] + [] == line + [NEWLINE]
  {
    assert ([line] + lines)[1..] == lines;
  }

  lemma TerminatedCons(w: seq<byte>, i: nat)
    requires i < |w| && w[i] == NEWLINE
    ensures Terminated(w) == w[..i] + [NEWLINE] + Terminated(w[i + 1..])
  {
    var rest := w[i + 1..];
    assert w == w[..i] + [NEWLINE] + rest;
    if rest != [] {
      assert rest[|rest| - 1] == w[|w| - 1];
      Assoc(w[..i] + [NEWLINE], rest, [NEWLINE]);
    }
  }

  lemma {:induction false} TextAppend(a: seq<seq<byte>>, b: seq<seq<byte>>)
    ensures Text(a + b) == Text(a) + Text(b)
  {
    if a == [] {
      assert a + b == b;
    } else {
      assert (a + b)[0] == a[0] && (a + b)[1..] == a[1..] + b;
      TextAppend(a[1..], b);
      Assoc(a[0] + [NEWLINE], Text(a[1..]), Text(b));
    }
  }

  lemma {:induction false} TextOfLines(writes: seq<seq<byte>>)
    ensures Text(LinesOf(writes)) == TerminatedAll(writes)
  {
    if writes != [] {
      TextOfSplit(writes[0]);
      TextOfLines(writes[1..]);
      TextAppend(SplitWrite(writes[0]), LinesOf(writes[1..]));
    }
  }

  lemma {:induction false} SplitHasNoNewline(w: seq<byte>, j: nat)
    requires j < |SplitWrite(w)|
    ensures NEWLINE !in SplitWrite(w)[j]
    decreases |w|
  {
    var i := IndexOf(w, NEWLINE);
    if i >= 0 && j > 0 {
      SplitHasNoNewline(w[i + 1..], j - 1);
    }
  }

  lemma {:induction false} LinesHaveNoNewline(writes: seq<seq<byte>>, j: nat)
    requires j < |LinesOf(writes)|
    ensures NEWLINE !in LinesOf(writes)[j]
  {
    var first := |SplitWrite(writes[0])|;
    if j < first {
      SplitHasNoNewline(writes[0], j);
    } else {
      LinesHaveNoNewline(writes[1..], j - first);
    }
  }

  lemma {:induction false} ContentIndex(lines: seq<LogLine>, i: nat) returns (j: nat)
    requires i < |lines|
    ensures j < |ContentsOf(lines, lines[i].stream)| && ContentsOf(lines, lines[i].stream)[j] == lines[i].content
  {
    if i == 0 {
      j := 0;
    } else {
      j := ContentIndex(lines[1..], i - 1);
      if lines[0].stream == lines[i].stream {
        j := j + 1;
      }
    }
  }

  lemma InterleavedHaveNoNewline(lines: seq<LogLine>, outWrites: seq<seq<byte>>, errWrites: seq<seq<byte>>)
    requires Interleaves(lines, outWrites, errWrites)
    ensures forall i | 0 <= i < |lines| :: NEWLINE !in lines[i].content
  {
    forall i | 0 <= i < |lines|
      ensures NEWLINE !in lines[i].content
    {
      var j := ContentIndex(lines, i);
      LinesHaveNoNewline(if lines[i].stream == Out then outWrites else errWrites, j);
    }
  }

  // ---------------------------------------------------------------------------------------------
  // Writing the file
  // ---------------------------------------------------------------------------------------------

  /** The log lines of one write. */
  ghost function Stamped(stream: LogStream, contents: seq<seq<byte>>, now: nat -> Time, k: nat): seq<LogLine>
    decreases |contents|
  {
    if contents == [] then []
    else [LogLine(stream, now(k), contents[0])] + Stamped(stream, contents[1..], now, k + 1)
  }

  lemma {:induction false} FileAppend(codec: Codec, a: seq<LogLine>, b: seq<LogLine>)
    ensures FileOf(codec, a + b) == FileOf(codec, a) + FileOf(codec, b)
    ensures forall stream :: ContentsOf(a + b, stream) == ContentsOf(a, stream) + ContentsOf(b, stream)
  {
    if a == [] {
      assert a + b == b;
    } else {
      assert (a + b)[0] == a[0] && (a + b)[1..] == a[1..] + b;
      FileAppend(codec, a[1..], b);
    }
  }

  lemma {:induction false} FileOfStamped(codec: Codec, stream: LogStream, contents: seq<seq<byte>>, now: nat -> Time,
                                         k: nat)
    ensures FileOf(codec, Stamped(stream, contents, now, k)) == RenderAll(codec, stream, contents, now, k)
    ensures ContentsOf(Stamped(stream, contents, now, k), stream) == contents
    ensures forall other | other != stream :: ContentsOf(Stamped(stream, contents, now, k), other) == []
    decreases |contents|
  {
    if contents != [] {
      FileOfStamped(codec, stream, contents[1..], now, k + 1);
      assert Stamped(stream, contents, now, k)[1..] == Stamped(stream, contents[1..], now, k + 1);
    }
  }

  lemma {:induction false} LinesOfSnoc(writes: seq<seq<byte>>, p: seq<byte>)
    ensures LinesOf(writes + [p]) == LinesOf(writes) + SplitWrite(p)
  {
    if writes == [] {
      assert [p][1..] == [] && LinesOf([p]) == SplitWrite(p) + [];
      assert writes + [p] == [p];
    } else {
      assert (writes + [p])[0] == writes[0] && (writes + [p])[1..] == writes[1..] + [p];
      LinesOfSnoc(writes[1..], p);
      Assoc(SplitWrite(writes[0]), LinesOf(writes[1..]), SplitWrite(p));
    }
  }

  /** A successful write by a stream's log writer extends the file by the lines of that write. */
  lemma WriteExtendsFile(codec: Codec, lines: seq<LogLine>, outWrites: seq<seq<byte>>, errWrites: seq<seq<byte>>,
                         stream: LogStream, p: seq<byte>, now: nat -> Time)
    requires Interleaves(lines, outWrites, errWrites)
    ensures var more := lines + Stamped(stream, SplitWrite(p), now, 0);
      && FileOf(codec, lines) + RenderAll(codec, stream, SplitWrite(p), now, 0) == FileOf(codec, more)
      && Interleaves(more, if stream == Out then outWrites + [p] else outWrites,
                     if stream == Err then errWrites + [p] else errWrites)
  {
    FileOfStamped(codec, stream, SplitWrite(p), now, 0);
    FileAppend(codec, lines, Stamped(stream, SplitWrite(p), now, 0));
    LinesOfSnoc(if stream == Out then outWrites else errWrites, p);
    var other := if stream == Out then Err else Out;
    assert ContentsOf(lines, other) + [] == ContentsOf(lines, other);
  }

  // ---------------------------------------------------------------------------------------------
  // Reading the file back
  // ---------------------------------------------------------------------------------------------

  ghost function Renderings(codec: Codec, lines: seq<LogLine>): seq<seq<byte>> {
    if lines == [] then [] else [Rendering(codec, lines[0])] + Renderings(codec, lines[1..])
  }

  /** A rendered line is one line: its only newline is its last byte. */
  lemma RenderingIsLine(codec: Codec, l: LogLine, rest: seq<byte>)
    requires Lawful(codec) && NEWLINE !in l.content
    ensures IndexOf(Rendering(codec, l) + rest, NEWLINE) == |Rendering(codec, l)| - 1
  {
    var body := codec.format(l.time) + [SPACE]
                + (StreamName(l.stream) + [SPACE] + (FULL_TAG + [SPACE] + l.content));
    assert Rendering(codec, l) == body + [NEWLINE];
    IndexOfAfterPrefix(body, NEWLINE, rest);
  }

  lemma {:induction false} FileLines(codec: Codec, lines: seq<LogLine>)
    requires Lawful(codec) && forall i | 0 <= i < |lines| :: NEWLINE !in lines[i].content
    ensures CompleteLines(FileOf(codec, lines)) == Renderings(codec, lines)
    ensures Boundary(FileOf(codec, lines), |FileOf(codec, lines)|)
  {
    if lines != [] {
      var first, rest := Rendering(codec, lines[0]), FileOf(codec, lines[1..]);
      FileLines(codec, lines[1..]);
      RenderingIsLine(codec, lines[0], rest);
      var s := first + rest;
      assert s[..|first|] == first && s[|first|..] == rest;
      assert s[|first| - 1] == NEWLINE;
    }
  }

  /** Options that decode CRI lines and drop nothing. */
  ghost predicate Unfiltered(opts: Options) {
    && opts.format == Cri && !opts.timestamps && opts.tail <= 0
    && opts.since == ZERO_TIME && opts.until == ZERO_TIME
  }

  ghost function PlainWrites(lines: seq<LogLine>): seq<StreamWrite> {
    if lines == [] then []
    else [StreamWrite(StreamId(lines[0].stream), lines[0].content + [NEWLINE])] + PlainWrites(lines[1..])
  }

  /** Reading one rendered line writes its content, with the newline, to its stream. */
  lemma ReadLineBack(codec: Codec, l: LogLine, opts: Options)
    requires Lawful(codec) && Unfiltered(opts)
    ensures !Stops(Rendering(codec, l), opts, codec)
    ensures LineWrites(Rendering(codec, l), opts, codec)
         == [StreamWrite(StreamId(l.stream), l.content + [NEWLINE])]
  {
    ParseRendered(codec, l.time, l.stream, l.content);
  }

  lemma {:induction false} ReadBack(codec: Codec, lines: seq<LogLine>, opts: Options)
    requires Lawful(codec) && Unfiltered(opts)
    ensures WritesUpTo(Renderings(codec, lines), opts, codec) == PlainWrites(lines)
  {
    if lines != [] {
      ReadLineBack(codec, lines[0], opts);
      ReadBack(codec, lines[1..], opts);
      assert Renderings(codec, lines)[1..] == Renderings(codec, lines[1..]);
    }
  }

  lemma {:induction false} PlainPayload(lines: seq<LogLine>)
    ensures PayloadOf(PlainWrites(lines), true, false) == Text(ContentsOf(lines, Out))
    ensures PayloadOf(PlainWrites(lines), false, true) == Text(ContentsOf(lines, Err))
    ensures |PayloadOf(PlainWrites(lines), true, true)|
         == |Text(ContentsOf(lines, Out))| + |Text(ContentsOf(lines, Err))|
    ensures forall i | 0 <= i < |PlainWrites(lines)| :: PlainWrites(lines)[i].stream in {STDIN, STDOUT, STDERR}
  {
    if lines != [] {
      PlainPayload(lines[1..]);
      assert PlainWrites(lines)[1..] == PlainWrites(lines[1..]);
      var other := if lines[0].stream == Out then Err else Out;
      assert ContentsOf(lines, lines[0].stream)[1..] == ContentsOf(lines[1..], lines[0].stream);
      assert ContentsOf(lines, other) == ContentsOf(lines[1..], other);
    }
  }

  // ---------------------------------------------------------------------------------------------
  // The theorems
  // ---------------------------------------------------------------------------------------------

  /** The demultiplexed response is the containers' output, stream by stream. */
  ghost predicate Faithful(ws: seq<StreamWrite>, outWrites: seq<seq<byte>>, errWrites: seq<seq<byte>>) {
    var d := Decode(Rendered(true, ws), false);
    && d.end == None
    && Routed(d.frames, true, false) == TerminatedAll(outWrites)
    && Routed(d.frames, false, true) == TerminatedAll(errWrites)
    && |Data(d.frames)| == |TerminatedAll(outWrites)| + |TerminatedAll(errWrites)|
  }

  lemma PlainIsFaithful(lines: seq<LogLine>, outWrites: seq<seq<byte>>, errWrites: seq<seq<byte>>)
    requires Interleaves(lines, outWrites, errWrites)
    ensures Faithful(PlainWrites(lines), outWrites, errWrites)
  {
    PlainPayload(lines);
    TextOfLines(outWrites);
    TextOfLines(errWrites);
    MuxRoundTrip(PlainWrites(lines), true, false);
    MuxRoundTrip(PlainWrites(lines), false, true);
  }

  /**
   Log fidelity for a single read: any interleaving of stdout and stderr writes, encoded as CRI lines, read
   with the CRI format and no filters, framed and demultiplexed, gives back every stream's writes in order,
   each non-empty write without a final newline having gained exactly one.
   */
  lemma ReadIsFaithful(codec: Codec, lines: seq<LogLine>, outWrites: seq<seq<byte>>, errWrites: seq<seq<byte>>,
                       polls: seq<Poll>, opts: Options)
    requires Lawful(codec) && Unfiltered(opts) && !opts.follow
    requires Interleaves(lines, outWrites, errWrites)
    requires polls != [] && polls[0].Opened? && polls[0].view.data == FileOf(codec, lines)
    ensures Faithful(Run(INITIAL, polls, opts, codec).writes, outWrites, errWrites)
  {
    var file := FileOf(codec, lines);
    InterleavedHaveNoNewline(lines, outWrites, errWrites);
    FileLines(codec, lines);
    PassIsLinewise(file, 0, opts, codec);
    assert file[0..] == file;
    ReadBack(codec, lines, opts);
    SingleRead(polls, opts, codec);
    PlainIsFaithful(lines, outWrites, errWrites);
  }

  /** Log fidelity for following: the same, whatever the polls saw of the growing file along the way. */
  lemma FollowIsFaithful(codec: Codec, lines: seq<LogLine>, outWrites: seq<seq<byte>>, errWrites: seq<seq<byte>>,
                         id: int, polls: seq<Poll>, opts: Options)
    requires Lawful(codec) && Unfiltered(opts) && opts.follow
    requires Interleaves(lines, outWrites, errWrites)
    requires AppendOnly(id, [], INITIAL, polls, opts, codec) && Opens(polls)
    requires FinalData([], INITIAL, polls, opts, codec) == FileOf(codec, lines)
    ensures Faithful(Run(INITIAL, polls, opts, codec).writes, outWrites, errWrites)
  {
    var file := FileOf(codec, lines);
    InterleavedHaveNoNewline(lines, outWrites, errWrites);
    FileLines(codec, lines);
    ExactlyOnce(id, polls, opts, codec);
    WholeFile(polls, opts);
    assert file[0..] == file;
    ReadBack(codec, lines, opts);
    PlainIsFaithful(lines, outWrites, errWrites);
  }

  lemma {:induction false} WholeFile(polls: seq<Poll>, opts: Options)
    requires opts.tail <= 0
    ensures FirstStart(polls, opts) == 0
  {
    if polls != [] {
      WholeFile(polls[1..], opts);
    }
  }

  /** A log request and its client: reads the log into a framed response and demultiplexes that response. */
  method FetchLogs(codec: Codec, polls: seq<Poll>, opts: Options) returns (stdout: Sink, stderr: Sink, count: int)
    requires INT64_MIN <= opts.tail <= INT64_MAX
    requires forall i | 0 <= i < |polls| :: polls[i].Opened? ==> |polls[i].view.scan| <= INT64_MAX
    ensures fresh(stdout) && fresh(stderr)
    ensures var d := Decode(Rendered(true, Run(INITIAL, polls, opts, codec).writes), false);
      d.end == None ==>
        stdout.contents == Routed(d.frames, true, false) && stderr.contents == Routed(d.frames, false, true)
    ensures forall outWrites, errWrites | Faithful(Run(INITIAL, polls, opts, codec).writes, outWrites, errWrites) ::
              && stdout.contents == TerminatedAll(outWrites) && stderr.contents == TerminatedAll(errWrites)
              && count == |TerminatedAll(outWrites)| + |TerminatedAll(errWrites)|
  {
    var response := new Sink([]);
    var out := new LogOutput(response, true);
    var status, failed := ReadLogs(polls, opts, codec, out);
    var src := new Source(response.contents, false);
    stdout := new Sink([]);
    stderr := new Sink([]);
    var err;
    count, err := Demux(stdout, stderr, src);
    ghost var wire := Rendered(true, Run(INITIAL, polls, opts, codec).writes);
    assert [] + wire == wire;
    assert [] + Routed(Decode(wire, false).frames, true, false) == Routed(Decode(wire, false).frames, true, false);
    assert [] + Routed(Decode(wire, false).frames, false, true) == Routed(Decode(wire, false).frames, false, true);
    assert err == Decode(wire, false).end;
  }
}
