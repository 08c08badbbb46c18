/** What a log read returns under every option: format, tail, Since, Until, timestamps, rotation. */
module LogSelection {
  import opened Bytes
  import opened Stdcopy
  import opened Demultiplexing
  import opened LogTail
  import opened LogLines
  import opened LogFollow
  import opened LogReading
  import opened CriLog
  import opened LogPipeline

  // ---------------------------------------------------------------------------------------------
  // One line
  // ---------------------------------------------------------------------------------------------

  /** A text without a space, and what follows the first space after it. */
  ghost predicate IsCut(line: seq<byte>, token: seq<byte>, rest: seq<byte>) {
    SPACE !in token && line == token + [SPACE] + rest
  }

  lemma CutMeaning(line: seq<byte>, token: seq<byte>, rest: seq<byte>)
    ensures CutToken(line) == Some(Cut(token, rest)) <==> IsCut(line, token, rest)
    ensures CutToken(line).None? <==> SPACE !in line
  {
    var i := IndexOf(line, SPACE);
    if i >= 0 {
      assert line == line[..i] + [SPACE] + line[i + 1..];
    }
    if IsCut(line, token, rest) {
      CutAfter(token, rest);
    }
  }

  /** "P", alone or before a colon, marks a partial line. */
  lemma PartialMeaning(tag: seq<byte>)
    ensures IsPartialTag(tag) <==> tag == [80] || [80, 58] <= tag
  {
    var i := IndexOf(tag, COLON);
    if [80, 58] <= tag {
      assert tag == [80] + [58] + tag[2..];
      IndexOfAfterPrefix([80], COLON, tag[2..]);
    }
  }

  /** The three tokens of a CRI line and its content. */
  ghost predicate IsCriLine(line: seq<byte>, stamp: seq<byte>, stream: seq<byte>, tag: seq<byte>, content: seq<byte>) {
    && SPACE !in stamp && SPACE !in stream && SPACE !in tag
    && line == stamp + [SPACE] + (stream + [SPACE] + (tag + [SPACE] + content))
  }

  const STDOUT_TEXT: seq<byte> := [115, 116, 100, 111, 117, 116]
  const STDERR_TEXT: seq<byte> := [115, 116, 100, 101, 114, 114]

  /** A line parses exactly if it has the CRI shape, and the entry is what the shape says. */
  lemma CriMeaning(line: seq<byte>, codec: Codec, stamp: seq<byte>, stream: seq<byte>, tag: seq<byte>, content: seq<byte>)
    requires IsCriLine(line, stamp, stream, tag, content)
    ensures ParseCRIEntry(line, codec)
         == if codec.parse(stamp).None? then Malformed(BadTimestamp)
            else if stream == STDOUT_TEXT then
              Entry(LogEntry(codec.parse(stamp).value, Out, tag == [80] || [80, 58] <= tag, content))
            else if stream == STDERR_TEXT then
              Entry(LogEntry(codec.parse(stamp).value, Err, tag == [80] || [80, 58] <= tag, content))
            else Malformed(BadStream)
  {
    CutAfter(stamp, stream + [SPACE] + (tag + [SPACE] + content));
    CutAfter(stream, tag + [SPACE] + content);
    CutAfter(tag, content);
    PartialMeaning(tag);
  }

  /** Only lines of the CRI shape parse. */
  lemma ParsedShape(line: seq<byte>, codec: Codec)
    returns (stamp: seq<byte>, stream: seq<byte>, tag: seq<byte>, content: seq<byte>)
    requires ParseCRIEntry(line, codec).Entry?
    ensures IsCriLine(line, stamp, stream, tag, content)
  {
    var a := CutToken(line).value;
    var b := CutToken(a.rest).value;
    var c := CutToken(b.rest).value;
    CutMeaning(line, a.token, a.rest);
    CutMeaning(a.rest, b.token, b.rest);
    CutMeaning(b.rest, c.token, c.rest);
    stamp, stream, tag, content := a.token, b.token, c.token, c.rest;
  }

  /** What the three formats make of a line: the entry, the bare line on stdout, or nothing. */
  lemma FormatMeaning(line: seq<byte>, codec: Codec)
    ensures DecodeLogLine(line, Raw, codec) == Some(LogEntry(ZERO_TIME, Out, false, line))
    ensures ParseCRIEntry(line, codec).Entry? ==>
              && DecodeLogLine(line, Cri, codec) == Some(ParseCRIEntry(line, codec).entry)
              && DecodeLogLine(line, Auto, codec) == Some(ParseCRIEntry(line, codec).entry)
    ensures ParseCRIEntry(line, codec).Malformed? ==>
              && DecodeLogLine(line, Cri, codec) == None
              && DecodeLogLine(line, Auto, codec) == Some(LogEntry(ZERO_TIME, Out, false, line))
  {
  }

  /** Lines without a timestamp pass every range and are never stamped. */
  lemma BareLine(line: seq<byte>, opts: Options, codec: Codec)
    requires opts.format == Raw || (opts.format == Auto && ParseCRIEntry(line, codec).Malformed?)
    ensures !Stops(line, opts, codec) && LineWrites(line, opts, codec) == [StreamWrite(1, line)]
  {
    FormatMeaning(line, codec);
  }

  // ---------------------------------------------------------------------------------------------
  // Reading the log writer's lines under any options
  // ---------------------------------------------------------------------------------------------

  /** The lines to return: up to the first newer than Until, without those older than Since; a zero time passes. */
  ghost function Selected(lines: seq<LogLine>, since: Time, until: Time): seq<LogLine> {
    if lines == [] || (until != 0 && lines[0].time != 0 && lines[0].time > until) then []
    else
      (if since == 0 || lines[0].time == 0 || lines[0].time >= since then [lines[0]] else [])
      + Selected(lines[1..], since, until)
  }

  /** The text a line returns: its time and a space, if asked for and known, then its content and a newline. */
  ghost function Shown(l: LogLine, timestamps: bool, codec: Codec): seq<byte> {
    (if timestamps && l.time != 0 then codec.format(l.time) + [32] else []) + l.content + [10]
  }

  /** The text of the lines of one stream. */
  ghost function TextFor(lines: seq<LogLine>, stream: LogStream, timestamps: bool, codec: Codec): seq<byte> {
    if lines == [] then []
    else
      (if lines[0].stream == stream then Shown(lines[0], timestamps, codec) else [])
      + TextFor(lines[1..], stream, timestamps, codec)
  }

  /** The writes for one line: stdout is stream 1 and stderr stream 2. */
  ghost function WritesOf(l: LogLine, timestamps: bool, codec: Codec): seq<StreamWrite> {
    var id := if l.stream == Out then 1 else 2;
    (if timestamps && l.time != 0 then [StreamWrite(id, codec.format(l.time) + [32])] else [])
    + [StreamWrite(id, l.content + [10])]
  }

  ghost function WritesFor(lines: seq<LogLine>, timestamps: bool, codec: Codec): seq<StreamWrite> {
    if lines == [] then [] else WritesOf(lines[0], timestamps, codec) + WritesFor(lines[1..], timestamps, codec)
  }

  /** One rendered line under any CRI-aware options. */
  lemma LineSelected(codec: Codec, l: LogLine, opts: Options)
    requires Lawful(codec) && opts.format != Raw
    ensures Stops(Rendering(codec, l), opts, codec) <==> opts.until != 0 && l.time != 0 && l.time > opts.until
    ensures LineWrites(Rendering(codec, l), opts, codec)
         == if opts.since != 0 && l.time != 0 && l.time < opts.since then [] else WritesOf(l, opts.timestamps, codec)
  {
    ParseRendered(codec, l.time, l.stream, l.content);
    FormatMeaning(Rendering(codec, l), codec);
  }

  /** Reading rendered lines returns exactly the selected ones, in order, under every Since, Until and timestamp option. */
  lemma {:induction false} ReadSelected(codec: Codec, lines: seq<LogLine>, opts: Options)
    requires Lawful(codec) && opts.format != Raw
    ensures WritesUpTo(Renderings(codec, lines), opts, codec)
         == WritesFor(Selected(lines, opts.since, opts.until), opts.timestamps, codec)
  {
    if lines != [] {
      var l, later := lines[0], Selected(lines[1..], opts.since, opts.until);
      LineSelected(codec, l, opts);
      ReadSelected(codec, lines[1..], opts);
      WritesUpToCons(Rendering(codec, l), Renderings(codec, lines[1..]), opts, codec);
      WritesForCons(l, later, opts.timestamps, codec);
      assert [] + later == later && [] + WritesFor(later, opts.timestamps, codec) == WritesFor(later, opts.timestamps, codec);
    }
  }

  lemma WritesForCons(l: LogLine, lines: seq<LogLine>, timestamps: bool, codec: Codec)
    ensures WritesFor([l] + lines, timestamps, codec)
         == WritesOf(l, timestamps, codec) + WritesFor(lines, timestamps, codec)
  {
    assert ([l] + lines)[1..] == lines;
  }

  /** What the writes carry for each stream. */
  lemma {:induction false} WritesCarry(lines: seq<LogLine>, timestamps: bool, codec: Codec)
    ensures var ws := WritesFor(lines, timestamps, codec);
      && PayloadOf(ws, true, false) == TextFor(lines, Out, timestamps, codec)
      && PayloadOf(ws, false, true) == TextFor(lines, Err, timestamps, codec)
      && forall i | 0 <= i < |ws| :: ws[i].stream in {STDIN, STDOUT, STDERR}
  {
    if lines != [] {
      WritesCarry(lines[1..], timestamps, codec);
      var first, rest := WritesOf(lines[0], timestamps, codec), WritesFor(lines[1..], timestamps, codec);
      PayloadAppend(first, rest, true, false);
      PayloadAppend(first, rest, false, true);
      LineCarries(lines[0], timestamps, codec);
    }
  }

  lemma LineCarries(l: LogLine, timestamps: bool, codec: Codec)
    ensures var ws := WritesOf(l, timestamps, codec);
      && PayloadOf(ws, true, false) == (if l.stream == Out then Shown(l, timestamps, codec) else [])
      && PayloadOf(ws, false, true) == (if l.stream == Err then Shown(l, timestamps, codec) else [])
      && forall i | 0 <= i < |ws| :: ws[i].stream in {STDIN, STDOUT, STDERR}
  {
    var body := StreamWrite(if l.stream == Out then 1 else 2, l.content + [10]);
    PayloadOne(body, true, false);
    PayloadOne(body, false, true);
    if timestamps && l.time != 0 {
      var stamp := StreamWrite(body.stream, codec.format(l.time) + [32]);
      PayloadOne(stamp, true, false);
      PayloadOne(stamp, false, true);
      PayloadAppend([stamp], [body], true, false);
      PayloadAppend([stamp], [body], false, true);
      Assoc(stamp.data, l.content, [10]);
    } else {
      assert [] + [body] == [body] && [] + l.content + [10] == l.content + [10];
    }
  }

  lemma PayloadOne(w: StreamWrite, out: bool, err: bool)
    ensures PayloadOf([w], out, err) == if (if w.stream == STDERR then err else out) then w.data else []
  {
    assert [w][1..] == [];
  }

  lemma {:induction false} PayloadAppend(a: seq<StreamWrite>, b: seq<StreamWrite>, out: bool, err: bool)
    ensures PayloadOf(a + b, out, err) == PayloadOf(a, out, err) + PayloadOf(b, out, err)
  {
    if a == [] {
      assert a + b == b;
    } else {
      assert (a + b)[0] == a[0] && (a + b)[1..] == a[1..] + b;
      PayloadAppend(a[1..], b, out, err);
      Assoc(if (if a[0].stream == STDERR then err else out) then a[0].data else [], PayloadOf(a[1..], out, err),
            PayloadOf(b, out, err));
    }
  }

  /** The demultiplexed response holds exactly the text of these lines on each stream. */
  ghost predicate Delivers(ws: seq<StreamWrite>, lines: seq<LogLine>, opts: Options, codec: Codec) {
    var d := Decode(Rendered(true, ws), false);
    && d.end == None
    && Routed(d.frames, true, false) == TextFor(lines, Out, opts.timestamps, codec)
    && Routed(d.frames, false, true) == TextFor(lines, Err, opts.timestamps, codec)
  }

  lemma WritesDeliver(lines: seq<LogLine>, opts: Options, codec: Codec)
    ensures Delivers(WritesFor(lines, opts.timestamps, codec), lines, opts, codec)
  {
    var ws := WritesFor(lines, opts.timestamps, codec);
    WritesCarry(lines, opts.timestamps, codec);
    MuxRoundTrip(ws, true, false);
    MuxRoundTrip(ws, false, true);
  }

  // ---------------------------------------------------------------------------------------------
  // The tail
  // ---------------------------------------------------------------------------------------------

  /** The last n lines, or all of them for n <= 0. */
  ghost function LastLines(lines: seq<LogLine>, n: int): seq<LogLine> {
    if n <= 0 || n >= |lines| then lines else lines[|lines| - n..]
  }

  lemma {:induction false} NewlinesCount(codec: Codec, lines: seq<LogLine>)
    requires Lawful(codec) && forall i | 0 <= i < |lines| :: NEWLINE !in lines[i].content
    ensures Count(FileOf(codec, lines), NEWLINE) == |lines|
  {
    if lines != [] {
      NewlinesCount(codec, lines[1..]);
      CountAppend(Rendering(codec, lines[0]), FileOf(codec, lines[1..]), NEWLINE);
      OneNewline(codec, lines[0]);
    }
  }

  lemma OneNewline(codec: Codec, l: LogLine)
    requires Lawful(codec) && NEWLINE !in l.content
    ensures Count(Rendering(codec, l), NEWLINE) == 1
  {
    var s := Rendering(codec, l);
    RenderingIsLine(codec, l, []);
    assert s + [] == s;
    assert NEWLINE !in s[..|s| - 1];
    NoneCounted(s[..|s| - 1]);
  }

  lemma {:induction false} NoneCounted(s: seq<byte>)
    requires NEWLINE !in s
    ensures Count(s, NEWLINE) == 0
  {
    if s != [] {
      NoneCounted(s[..|s| - 1]);
    }
  }

  /** A boundary after which exactly the wanted lines remain is where the tail starts. */
  lemma TailSplit(a: seq<byte>, b: seq<byte>, before: nat, after: nat, n: nat)
    requires n > 0 && Boundary(a, |a|) && Count(a, NEWLINE) == before && Count(b, NEWLINE) == after
    requires after == Min(n, before + after)
    ensures TailStart(a + b, n) == |a| && (a + b)[|a|..] == b
  {
    CountAppend(a, b, NEWLINE);
    assert (a + b)[|a|..] == b;
    assert |a| > 0 ==> (a + b)[|a| - 1] == a[|a| - 1];
    TailStartMeaning(a + b, n, |a|);
  }

  lemma TailOfParts(codec: Codec, first: seq<LogLine>, last: seq<LogLine>, n: nat)
    requires Lawful(codec) && n > 0 && |last| == Min(n, |first| + |last|)
    requires forall i | 0 <= i < |first| :: NEWLINE !in first[i].content
    requires forall i | 0 <= i < |last| :: NEWLINE !in last[i].content
    ensures var file := FileOf(codec, first + last);
      file[TailStart(file, n)..] == FileOf(codec, last)
  {
    FileConcat(codec, first, last);
    NewlinesCount(codec, first);
    NewlinesCount(codec, last);
    FileEndsLine(codec, first);
    TailSplit(FileOf(codec, first), FileOf(codec, last), |first|, |last|, n);
  }

  lemma FileConcat(codec: Codec, a: seq<LogLine>, b: seq<LogLine>)
    ensures FileOf(codec, a + b) == FileOf(codec, a) + FileOf(codec, b)
  {
    FileAppend(codec, a, b);
  }

  lemma FileEndsLine(codec: Codec, lines: seq<LogLine>)
    requires Lawful(codec) && forall i | 0 <= i < |lines| :: NEWLINE !in lines[i].content
    ensures Boundary(FileOf(codec, lines), |FileOf(codec, lines)|)
  {
    FileLines(codec, lines);
  }

  /** The tail of a log file starts where its last n lines do. */
  lemma TailOfFile(codec: Codec, lines: seq<LogLine>, n: int)
    requires Lawful(codec) && forall i | 0 <= i < |lines| :: NEWLINE !in lines[i].content
    ensures var file := FileOf(codec, lines);
      file[TailStart(file, n)..] == FileOf(codec, LastLines(lines, n))
  {
    var last := LastLines(lines, n);
    if n <= 0 {
      var file := FileOf(codec, lines);
      assert TailStart(file, n) == 0 && file[0..] == file;
    } else {
      var first := lines[..|lines| - |last|];
      assert lines == first + last;
      TailOfParts(codec, first, last, n);
    }
  }

  // ---------------------------------------------------------------------------------------------
  // The theorems
  // ---------------------------------------------------------------------------------------------

  /**
   A single read under any options but the raw format: the demultiplexed response holds, on each stream, the
   lines of that stream among the last n that Since and Until select, in order and stamped if asked for.
   */
  lemma ReadReturnsSelected(codec: Codec, lines: seq<LogLine>, polls: seq<Poll>, opts: Options)
    requires Lawful(codec) && opts.format != Raw && !opts.follow
    requires forall i | 0 <= i < |lines| :: NEWLINE !in lines[i].content
    requires polls != [] && polls[0].Opened?
    requires polls[0].view.data == polls[0].view.scan == FileOf(codec, lines)
    ensures Delivers(Run(INITIAL, polls, opts, codec).writes, Selected(LastLines(lines, opts.tail), opts.since, opts.until),
                     opts, codec)
  {
    var file, last := FileOf(codec, lines), LastLines(lines, opts.tail);
    var start := TailStart(file, opts.tail);
    SingleRead(polls, opts, codec);
    TailOfFile(codec, lines, opts.tail);
    FileLines(codec, lines);
    FileLines(codec, last);
    PassIsLinewise(file, start, opts, codec);
    ReadSelected(codec, last, opts);
    WritesDeliver(Selected(last, opts.since, opts.until), opts, codec);
  }

  /**
   Following under any options but the raw format, whatever the polls saw along the way: the lines read are
   those after the first open's tail offset, which is a line boundary of the final file.
   */
  lemma FollowReturnsSelected(codec: Codec, before: seq<LogLine>, lines: seq<LogLine>, id: int, polls: seq<Poll>,
                              opts: Options)
    requires Lawful(codec) && opts.format != Raw && opts.follow
    requires forall i | 0 <= i < |lines| :: NEWLINE !in lines[i].content
    requires AppendOnly(id, [], INITIAL, polls, opts, codec) && Opens(polls)
    requires FinalData([], INITIAL, polls, opts, codec) == FileOf(codec, before + lines)
    requires FirstStart(polls, opts) == |FileOf(codec, before)|
    ensures Delivers(Run(INITIAL, polls, opts, codec).writes, Selected(lines, opts.since, opts.until), opts, codec)
  {
    var start := FirstStart(polls, opts);
    ExactlyOnce(id, polls, opts, codec);
    FileConcat(codec, before, lines);
    assert FileOf(codec, before + lines)[start..] == FileOf(codec, lines);
    FileLines(codec, lines);
    ReadSelected(codec, lines, opts);
    WritesDeliver(Selected(lines, opts.since, opts.until), opts, codec);
  }

  /** A read in the raw format returns the complete lines as they stand, all on stdout. */
  lemma {:induction false} RawReturnsAll(lines: seq<seq<byte>>, opts: Options, codec: Codec)
    requires opts.format == Raw
    ensures WritesUpTo(lines, opts, codec) == seq(|lines|, i requires 0 <= i < |lines| => StreamWrite(1, lines[i]))
  {
    if lines != [] {
      BareLine(lines[0], opts, codec);
      RawReturnsAll(lines[1..], opts, codec);
    }
  }

  // ---------------------------------------------------------------------------------------------
  // Rotation, and how a read ends
  // ---------------------------------------------------------------------------------------------

  /** After the file was replaced or truncated, the next poll of a follow reads it from its beginning. */
  lemma RotationRestarts(st: ReadState, v: View, opts: Options, codec: Codec)
    requires opts.follow && st.started && (st.lastId != Some(v.id) || v.size < st.offset)
    ensures PollOnce(st, Opened(v, false, None), opts, codec).writes
         == WritesUpTo(CompleteLines(v.data), opts, codec)
  {
    PassIsLinewise(v.data, 0, opts, codec);
    assert v.data[0..] == v.data;
  }

  /** A final flush that finds the file shorter than the saved offset reads it from its beginning too. */
  lemma TruncationFlushes(st: ReadState, last: View, opts: Options, codec: Codec)
    requires opts.follow && st.started && last.size < st.offset
    ensures PollOnce(st, Cancelled(Some(last)), opts, codec).writes
         == WritesUpTo(CompleteLines(last.data), opts, codec)
  {
    PassIsLinewise(last.data, 0, opts, codec);
    assert last.data[0..] == last.data;
  }

  /** Otherwise both read on from the saved offset. */
  lemma SameFileContinues(st: ReadState, v: View, opts: Options, codec: Codec)
    requires opts.follow && st.started && st.lastId == Some(v.id) && st.offset <= v.size <= |v.data|
    ensures PollOnce(st, Opened(v, false, None), opts, codec).writes
         == WritesUpTo(CompleteLines(v.data[st.offset..]), opts, codec)
    ensures PollOnce(st, Cancelled(Some(v)), opts, codec).writes
         == WritesUpTo(CompleteLines(v.data[st.offset..]), opts, codec)
  {
    PassIsLinewise(v.data, st.offset, opts, codec);
  }

  /**
   How a poll leaves the read: a missing file is an error without follow, and awaited with it until the
   context ends; an opened file ends the read without follow, on cancellation, and at a line newer than Until.
   */
  lemma PollOutcome(st: ReadState, poll: Poll, opts: Options, codec: Codec)
    ensures var status := PollOnce(st, poll, opts, codec).status;
      && (poll.Cancelled? ==> status == Finished)
      && (poll.Missing? && !opts.follow ==> status == MissingFile)
      && (poll.Missing? && opts.follow ==> status == if poll.cancelled then Finished else Following)
      && (poll.Opened? && (!opts.follow || poll.cancelled) ==> status == Finished)
      && (poll.Opened? && opts.follow && !poll.cancelled ==>
            (status == Finished <==> Pass(poll.view.data, Tracked(st, poll.view, opts).offset, opts, codec).done))
  {
  }

  /** A pass is done exactly if one of the lines it reaches is newer than Until. */
  lemma {:induction false} DoneMeaning(s: seq<byte>, off: nat, opts: Options, codec: Codec)
    requires opts.follow && off <= |s|
    ensures Pass(s, off, opts, codec).done <==>
              exists line <- CompleteLines(s[off..]) :: Stops(line, opts, codec)
    decreases |s| - off
  {
    if off < |s| {
      var e := LineEnd(s, off);
      FirstLine(s, off);
      if s[e - 1] == NEWLINE {
        DoneMeaning(s, e, opts, codec);
        StopsCons(s[off..e], CompleteLines(s[e..]), opts, codec);
      }
    } else {
      assert s[off..] == [];
    }
  }

  lemma StopsCons(line: seq<byte>, lines: seq<seq<byte>>, opts: Options, codec: Codec)
    ensures (exists l <- [line] + lines :: Stops(l, opts, codec)) <==>
              Stops(line, opts, codec) || exists l <- lines :: Stops(l, opts, codec)
  {
    if Stops(line, opts, codec) {
      assert ([line] + lines)[0] == line;
    }
    if l :| l in lines && Stops(l, opts, codec) {
      assert l in [line] + lines;
    }
  }

  /** A line stops the read exactly if it decodes to an entry with a time, newer than an Until that is set. */
  lemma StopsMeaning(line: seq<byte>, opts: Options, codec: Codec)
    ensures Stops(line, opts, codec) <==>
              && DecodeLogLine(line, opts.format, codec).Some? && opts.until != 0
              && DecodeLogLine(line, opts.format, codec).value.timestamp != 0
              && DecodeLogLine(line, opts.format, codec).value.timestamp > opts.until
  {
  }

  /** The bytes of one rendered line: "<time> stdout F <content>" and a newline. */
  lemma RenderedBytes(codec: Codec, t: Time, stream: LogStream, content: seq<byte>)
    ensures RenderLine(codec, t, stream, content)
         == codec.format(t) + [32]
            + (if stream == Out then [115, 116, 100, 111, 117, 116] else [115, 116, 100, 101, 114, 114])
            + [32, 70, 32] + content + [10]
  {
  }
}
