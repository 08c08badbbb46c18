/** CRI log lines ("<RFC 3339 time> <stdout|stderr> <tag> <content>"): decoding, filtering and one pass over a file. */
module LogLines {
  import opened Bytes
  import opened Stdcopy
  import opened Demultiplexing
  import opened LogTail

  /** An instant; 0 stands for the zero time, which marks an entry without a timestamp. */
  type Time = int

  const ZERO_TIME: Time := 0

  /** The RFC 3339 timestamp notation (section 5.6 of RFC 3339), kept abstract. */
  datatype Codec = Codec(format: Time -> seq<byte>, parse: seq<byte> -> Option<Time>)

  /** What the notation guarantees: formatted instants parse back and hold neither a space nor a newline. */
  ghost predicate Lawful(c: Codec) {
    forall t: Time {:trigger c.format(t)} ::
      c.parse(c.format(t)) == Some(t) && SPACE !in c.format(t) && NEWLINE !in c.format(t)
  }

  /** Such notations exist: a sign and as many strokes as the instant counts. */
  lemma LawfulCodecExists() returns (c: Codec)
    ensures Lawful(c)
  {
    var format := (t: Time) => if t >= 0 then [43] + seq(t, _ => 49) else [45] + seq(-t, _ => 49);
    var parse := (s: seq<byte>) =>
      if s == [] then None else if s[0] == 43 then Some(|s| - 1) else Some(1 - |s|);
    c := Codec(format, parse);
  }

  datatype LogStream = Out | Err

  datatype LogFormat = Auto | Cri | Raw

  datatype Options = Options(
    follow: bool,
    tail: int,
    since: Time,
    until: Time,
    timestamps: bool,
    format: LogFormat)

  datatype LogEntry = LogEntry(timestamp: Time, stream: LogStream, partial: bool, content: seq<byte>)

  datatype CriProblem = MissingTimestamp | BadTimestamp | MissingStream | BadStream | MissingTag

  datatype CriResult = Entry(entry: LogEntry) | Malformed(problem: CriProblem)

  // ---------------------------------------------------------------------------------------------
  // Decoding one line
  // ---------------------------------------------------------------------------------------------

  const STDOUT_NAME: seq<byte> := [115, 116, 100, 111, 117, 116]
  const STDERR_NAME: seq<byte> := [115, 116, 100, 101, 114, 114]
  const COLON: byte := 58
  const FULL_TAG: seq<byte> := [70]
  const PARTIAL_TAG: seq<byte> := [80]

  function StreamName(s: LogStream): seq<byte> {
    if s == Out then STDOUT_NAME else STDERR_NAME
  }

  datatype Cut = Cut(token: seq<byte>, rest: seq<byte>)

  /** Splits at the first space. */
  function CutToken(line: seq<byte>): Option<Cut> {
    var i := IndexOf(line, SPACE);
    if i < 0 then None else Some(Cut(line[..i], line[i + 1..]))
  }

  predicate IsPartialTag(tag: seq<byte>) {
    var i := IndexOf(tag, COLON);
    (if i < 0 then tag else tag[..i]) == PARTIAL_TAG
  }

  function ParseCRIEntry(line: seq<byte>, codec: Codec): CriResult {
    var stamp := CutToken(line);
    if stamp.None? then Malformed(MissingTimestamp)
    else
      var time := codec.parse(stamp.value.token);
      if time.None? then Malformed(BadTimestamp)
      else
        var stream := CutToken(stamp.value.rest);
        if stream.None? then Malformed(MissingStream)
        else if stream.value.token != STDOUT_NAME && stream.value.token != STDERR_NAME then Malformed(BadStream)
        else
          var tag := CutToken(stream.value.rest);
          if tag.None? then Malformed(MissingTag)
          else
            Entry(LogEntry(time.value,
                           if stream.value.token == STDOUT_NAME then Out else Err,
                           IsPartialTag(tag.value.token),
                           tag.value.rest))
  }

  /** The entry of a line, or None for a line the format skips. */
  function DecodeLogLine(line: seq<byte>, format: LogFormat, codec: Codec): Option<LogEntry> {
    var raw := LogEntry(ZERO_TIME, Out, false, line);
    match format
    case Raw => Some(raw)
    case Cri =>
      (match ParseCRIEntry(line, codec)
       case Entry(e) => Some(e)
       case Malformed(_) => None)
    case Auto =>
      (match ParseCRIEntry(line, codec)
       case Entry(e) => Some(e)
       case Malformed(_) => Some(raw))
  }

  /** How the log writer renders one line of container output. */
  function RenderLine(codec: Codec, t: Time, stream: LogStream, content: seq<byte>): seq<byte> {
    codec.format(t) + [SPACE] + (StreamName(stream) + [SPACE] + (FULL_TAG + [SPACE] + (content + [NEWLINE])))
  }

  lemma CutAfter(token: seq<byte>, rest: seq<byte>)
    requires SPACE !in token
    ensures CutToken(token + [SPACE] + rest) == Some(Cut(token, rest))
  {
    IndexOfAfterPrefix(token, SPACE, rest);
    var line := token + [SPACE] + rest;
    assert line[..|token|] == token && line[|token| + 1..] == rest;
  }

  lemma FullTagIsWhole()
    ensures !IsPartialTag(FULL_TAG)
  {
  }

  /** Parsing undoes rendering: any content, spaces included, comes back with its newline. */
  lemma ParseRendered(codec: Codec, t: Time, stream: LogStream, content: seq<byte>)
    requires Lawful(codec)
    ensures ParseCRIEntry(RenderLine(codec, t, stream, content), codec)
         == Entry(LogEntry(t, stream, false, content + [NEWLINE]))
  {
    var afterTag := content + [NEWLINE];
    var afterStream := FULL_TAG + [SPACE] + afterTag;
    var afterStamp := StreamName(stream) + [SPACE] + afterStream;
    CutAfter(codec.format(t), afterStamp);
    CutAfter(StreamName(stream), afterStream);
    CutAfter(FULL_TAG, afterTag);
    FullTagIsWhole();
  }

  // ---------------------------------------------------------------------------------------------
  // Filtering
  // ---------------------------------------------------------------------------------------------

  predicate EntryTooOld(e: LogEntry, opts: Options) {
    opts.since != ZERO_TIME && e.timestamp != ZERO_TIME && e.timestamp < opts.since
  }

  predicate EntryOutOfRange(e: LogEntry, opts: Options) {
    opts.until != ZERO_TIME && e.timestamp != ZERO_TIME && e.timestamp > opts.until
  }

  function StreamId(s: LogStream): byte {
    if s == Out then STDOUT else STDERR
  }

  /** The Write calls one entry causes. */
  function EntryWrites(e: LogEntry, opts: Options, codec: Codec): seq<StreamWrite> {
    (if opts.timestamps && e.timestamp != ZERO_TIME
     then [StreamWrite(StreamId(e.stream), codec.format(e.timestamp) + [SPACE])] else [])
    + [StreamWrite(StreamId(e.stream), e.content)]
  }

  /** Whether a line ends the read, being newer than Until. */
  predicate Stops(line: seq<byte>, opts: Options, codec: Codec) {
    var e := DecodeLogLine(line, opts.format, codec);
    e.Some? && EntryOutOfRange(e.value, opts)
  }

  function LineWrites(line: seq<byte>, opts: Options, codec: Codec): seq<StreamWrite> {
    var e := DecodeLogLine(line, opts.format, codec);
    if e.None? || EntryTooOld(e.value, opts) then [] else EntryWrites(e.value, opts, codec)
  }

  /** The simple meaning of a read: the writes of the lines, in order, up to the first that stops it. */
  ghost function WritesUpTo(lines: seq<seq<byte>>, opts: Options, codec: Codec): seq<StreamWrite> {
    if lines == [] || Stops(lines[0], opts, codec) then []
    else LineWrites(lines[0], opts, codec) + WritesUpTo(lines[1..], opts, codec)
  }

  /** The newline-terminated lines of a text, in order; an incomplete last line is not one. */
  ghost function CompleteLines(s: seq<byte>): seq<seq<byte>>
    decreases |s|
  {
    var i := IndexOf(s, NEWLINE);
    if i < 0 then [] else [s[..i + 1]] + CompleteLines(s[i + 1..])
  }

  // ---------------------------------------------------------------------------------------------
  // One pass over a file
  // ---------------------------------------------------------------------------------------------

  /** The end of the line that starts at `off`. */
  function LineEnd(s: seq<byte>, off: nat): (e: nat)
    requires off < |s|
    ensures off < e <= |s|
  {
    var i := IndexOf(s[off..], NEWLINE);
    if i < 0 then |s| else off + i + 1
  }

  datatype PassResult = PassResult(writes: seq<StreamWrite>, next: nat, done: bool)

  /** What reading `s` from `off` to its end writes, where it stops, and whether Until ended it. */
  ghost function Pass(s: seq<byte>, off: nat, opts: Options, codec: Codec): PassResult
    decreases |s| - off
  {
    if off >= |s| then PassResult([], off, false)
    else
      var e := LineEnd(s, off);
      if opts.follow && s[e - 1] != NEWLINE then PassResult([], off, false)
      else if Stops(s[off..e], opts, codec) then PassResult([], off, true)
      else
        var rest := Pass(s, e, opts, codec);
        PassResult(LineWrites(s[off..e], opts, codec) + rest.writes, rest.next, rest.done)
  }

  /** A complete line of a file is the same line after the file grew. */
  lemma LineEndExtends(s: seq<byte>, s': seq<byte>, off: nat)
    requires off < |s| && s <= s' && s[LineEnd(s, off) - 1] == NEWLINE
    ensures LineEnd(s', off) == LineEnd(s, off)
    ensures s'[off..LineEnd(s, off)] == s[off..LineEnd(s, off)]
  {
    var i := IndexOf(s[off..], NEWLINE);
    var e := LineEnd(s, off);
    assert s[off..][e - 1 - off] == s[e - 1];
    var line := s[off..][..i];
    assert s'[off..] == line + [NEWLINE] + s'[off..][i + 1..];
    IndexOfAfterPrefix(line, NEWLINE, s'[off..][i + 1..]);
  }

  /** A follow pass ends on a line boundary, whatever Since and Until are. */
  lemma {:induction false} PassBoundary(s: seq<byte>, off: nat, opts: Options, codec: Codec)
    requires opts.follow && Boundary(s, off)
    ensures Boundary(s, Pass(s, off, opts, codec).next) && off <= Pass(s, off, opts, codec).next
    decreases |s| - off
  {
    if off < |s| && s[LineEnd(s, off) - 1] == NEWLINE {
      var e := LineEnd(s, off);
      PassBoundary(s, e, opts, codec);
      PassNext(s, off, e, opts, codec);
    }
  }

  lemma PassNext(s: seq<byte>, off: nat, e: nat, opts: Options, codec: Codec)
    requires off < |s| && e == LineEnd(s, off)
    ensures Pass(s, off, opts, codec).next in {off, Pass(s, e, opts, codec).next}
  {
  }

  /**
   Reading a file and, after it grew, reading on from where the first read stopped is the same as reading
   the grown file once; a read that Until ended is not changed by growth.
   */
  lemma {:induction false} PassExtends(s: seq<byte>, s': seq<byte>, off: nat, opts: Options, codec: Codec)
    requires opts.follow && s <= s'
    ensures var p, p' := Pass(s, off, opts, codec), Pass(s', off, opts, codec);
      if p.done then p' == p
      else
        var q := Pass(s', p.next, opts, codec);
        p' == PassResult(p.writes + q.writes, q.next, q.done)
    decreases |s| - off
  {
    var p := Pass(s, off, opts, codec);
    if off >= |s| || s[LineEnd(s, off) - 1] != NEWLINE {
      assert p.writes + Pass(s', off, opts, codec).writes == Pass(s', off, opts, codec).writes;
    } else {
      var e := LineEnd(s, off);
      LineEndExtends(s, s', off);
      assert s'[e - 1] == NEWLINE;
      if !Stops(s[off..e], opts, codec) {
        PassExtends(s, s', e, opts, codec);
        if !p.done {
          Assoc(LineWrites(s[off..e], opts, codec), Pass(s, e, opts, codec).writes,
                Pass(s', p.next, opts, codec).writes);
        }
      }
    }
  }

  /**
   A pass that follows, or that reads a file without an incomplete last line, writes exactly the complete
   lines from its offset, each once and in order.
   */
  lemma {:induction false} PassIsLinewise(s: seq<byte>, off: nat, opts: Options, codec: Codec)
    requires (opts.follow || Boundary(s, |s|)) && off <= |s|
    ensures Pass(s, off, opts, codec).writes == WritesUpTo(CompleteLines(s[off..]), opts, codec)
    decreases |s| - off
  {
    if off < |s| {
      var e := LineEnd(s, off);
      FirstLine(s, off);
      if s[e - 1] == NEWLINE {
        PassIsLinewise(s, e, opts, codec);
        WritesUpToCons(s[off..e], CompleteLines(s[e..]), opts, codec);
      } else {
        assert e == |s| && opts.follow;
        assert Pass(s, off, opts, codec).writes == [];
      }
    } else {
      assert s[off..] == [];
    }
  }

  lemma WritesUpToCons(line: seq<byte>, lines: seq<seq<byte>>, opts: Options, codec: Codec)
    ensures WritesUpTo([line] + lines, opts, codec)
         == if Stops(line, opts, codec) then [] else LineWrites(line, opts, codec) + WritesUpTo(lines, opts, codec)
  {
    assert ([line] + lines)[1..] == lines;
  }

  /** The complete lines from an offset start with the line there, if it is complete. */
  lemma FirstLine(s: seq<byte>, off: nat)
    requires off < |s|
    ensures var e := LineEnd(s, off);
      CompleteLines(s[off..]) == if s[e - 1] == NEWLINE then [s[off..e]] + CompleteLines(s[e..]) else []
  {
    var rest := s[off..];
    var i := IndexOf(rest, NEWLINE);
    var e := LineEnd(s, off);
    assert s[e - 1] == rest[e - 1 - off];
    if i >= 0 {
      assert rest[..i + 1] == s[off..e] && rest[i + 1..] == s[e..];
    }
  }
}
