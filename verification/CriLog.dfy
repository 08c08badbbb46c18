/** Re-encoding container output as CRI log lines. */
module CriLog {
  import opened Bytes
  import opened Sinks
  import opened LogTail
  import opened LogLines

  /** The line contents of one write: cut at each newline, an unterminated rest being a line too. */
  ghost function SplitWrite(p: seq<byte>): seq<seq<byte>>
    decreases |p|
  {
    if p == [] then []
    else
      var i := IndexOf(p, NEWLINE);
      if i < 0 then [p] else [p[..i]] + SplitWrite(p[i + 1..])
  }

  /** The CRI lines for these contents, the k-th stamped with the time of its own write. */
  ghost function RenderAll(codec: Codec, stream: LogStream, lines: seq<seq<byte>>, now: nat -> Time, k: nat): seq<byte>
    decreases |lines|
  {
    if lines == [] then []
    else RenderLine(codec, now(k), stream, lines[0]) + RenderAll(codec, stream, lines[1..], now, k + 1)
  }

  /** The first line of a write, without its newline. */
  function FirstLineOf(p: seq<byte>): seq<byte> {
    if IndexOf(p, NEWLINE) < 0 then p else p[..IndexOf(p, NEWLINE)]
  }

  /** The bytes the first line takes, with its newline if it has one. */
  function Taken(p: seq<byte>): (n: nat)
    ensures n <= |p| && (p != [] ==> n > 0)
  {
    if IndexOf(p, NEWLINE) < 0 then |p| else IndexOf(p, NEWLINE) + 1
  }

  /** Splitting a write at the end of one of its lines. */
  lemma {:induction false} SplitAppend(a: seq<byte>, b: seq<byte>)
    requires Boundary(a, |a|)
    ensures SplitWrite(a + b) == SplitWrite(a) + SplitWrite(b)
    decreases |a|
  {
    if a == [] {
      assert a + b == b;
    } else {
      var i := IndexOf(a, NEWLINE);
      var rest := a[i + 1..];
      assert rest != [] ==> rest[|rest| - 1] == a[|a| - 1];
      SplitAppend(rest, b);
      SplitHead(a, b, i);
      Assoc([a[..i]], SplitWrite(rest), SplitWrite(b));
    }
  }

  /** Text added after the first line leaves that line alone. */
  lemma SplitHead(a: seq<byte>, b: seq<byte>, i: nat)
    requires i < |a| && i == IndexOf(a, NEWLINE)
    ensures SplitWrite(a) == [a[..i]] + SplitWrite(a[i + 1..])
    ensures SplitWrite(a + b) == [a[..i]] + SplitWrite(a[i + 1..] + b)
  {
    var line, rest := a[..i], a[i + 1..];
    var s := a + b;
    assert s == line + [NEWLINE] + (rest + b);
    IndexOfAfterPrefix(line, NEWLINE, rest + b);
    assert s[..i] == line && s[i + 1..] == rest + b;
  }

  lemma {:induction false} RenderSnoc(codec: Codec, stream: LogStream, lines: seq<seq<byte>>, line: seq<byte>,
                                      now: nat -> Time, k: nat)
    ensures RenderAll(codec, stream, lines + [line], now, k)
         == RenderAll(codec, stream, lines, now, k) + RenderLine(codec, now(k + |lines|), stream, line)
    decreases |lines|
  {
    if lines == [] {
      assert lines + [line] == [line] && [line][1..] == [];
    } else {
      assert (lines + [line])[0] == lines[0] && (lines + [line])[1..] == lines[1..] + [line];
      RenderSnoc(codec, stream, lines[1..], line, now, k + 1);
      Assoc(RenderLine(codec, now(k), stream, lines[0]), RenderAll(codec, stream, lines[1..], now, k + 1),
            RenderLine(codec, now(k + |lines|), stream, line));
    }
  }

  lemma SplitFirst(p: seq<byte>)
    requires p != []
    ensures SplitWrite(p[..Taken(p)]) == [FirstLineOf(p)]
  {
    var i := IndexOf(p, NEWLINE);
    if i < 0 {
      assert p[..|p|] == p;
    } else {
      var head := p[..i + 1];
      assert head == p[..i] + [NEWLINE] + [];
      IndexOfAfterPrefix(p[..i], NEWLINE, []);
      assert head[..i] == p[..i] && head[i + 1..] == [];
    }
  }

  /** After the next line: where the rest starts, and the lines so far. */
  lemma NextLine(p: seq<byte>, consumed: nat, taken: nat)
    requires consumed < |p| && Boundary(p, consumed) && taken == Taken(p[consumed..])
    ensures p[consumed..][taken..] == p[consumed + taken..]
    ensures consumed + taken < |p| ==> Boundary(p, consumed + taken)
    ensures SplitWrite(p[..consumed + taken]) == SplitWrite(p[..consumed]) + [FirstLineOf(p[consumed..])]
  {
    var done, rest := p[..consumed], p[consumed..];
    DropDrop(p, consumed, taken);
    assert rest[taken - 1] == p[consumed + taken - 1];
    assert consumed > 0 ==> done[consumed - 1] == p[consumed - 1];
    assert p[..consumed + taken] == done + rest[..taken];
    SplitAppend(done, rest[..taken]);
    SplitFirst(rest);
  }

  /** One more line adds its CRI line. */
  lemma RenderMore(codec: Codec, stream: LogStream, lines: seq<seq<byte>>, line: seq<byte>, now: nat -> Time,
                   before: seq<byte>)
    ensures before + RenderAll(codec, stream, lines + [line], now, 0)
         == before + RenderAll(codec, stream, lines, now, 0) + RenderLine(codec, now(|lines|), stream, line)
  {
    RenderSnoc(codec, stream, lines, line, now, 0);
    Assoc(before, RenderAll(codec, stream, lines, now, 0), RenderLine(codec, now(|lines|), stream, line));
  }

  /**
   The state between two lines of a write: the lines so far are those of the bytes consumed, the file holds
   their CRI lines, and those of the rest are still to come.
   */
  ghost predicate OnTrack(codec: Codec, stream: LogStream, now: nat -> Time, p: seq<byte>, before: seq<byte>,
                          consumed: nat, rest: seq<byte>, lines: seq<seq<byte>>, contents: seq<byte>)
  {
    && consumed <= |p| && rest == p[consumed..] && (rest != [] ==> Boundary(p, consumed))
    && lines == SplitWrite(p[..consumed])
    && contents == before + RenderAll(codec, stream, lines, now, 0)
    && contents + RenderAll(codec, stream, SplitWrite(rest), now, |lines|)
       == before + RenderAll(codec, stream, SplitWrite(p), now, 0)
  }

  lemma StartOnTrack(codec: Codec, stream: LogStream, now: nat -> Time, p: seq<byte>, before: seq<byte>)
    ensures OnTrack(codec, stream, now, p, before, 0, p, [], before)
  {
    assert p[0..] == p && p[..0] == [];
    assert before + [] == before;
  }

  lemma TrackMore(codec: Codec, stream: LogStream, now: nat -> Time, p: seq<byte>, before: seq<byte>, consumed: nat,
                  rest: seq<byte>, lines: seq<seq<byte>>, contents: seq<byte>, contents': seq<byte>)
    requires OnTrack(codec, stream, now, p, before, consumed, rest, lines, contents) && |rest| > 0
    requires contents' == contents + RenderLine(codec, now(|lines|), stream, FirstLineOf(rest))
    requires contents' + RenderAll(codec, stream, SplitWrite(rest[Taken(rest)..]), now, |lines| + 1)
          == before + RenderAll(codec, stream, SplitWrite(p), now, 0)
    ensures OnTrack(codec, stream, now, p, before, consumed + Taken(rest), rest[Taken(rest)..],
                    lines + [FirstLineOf(rest)], contents')
  {
    NextLine(p, consumed, Taken(rest));
    RenderMore(codec, stream, lines, FirstLineOf(rest), now, before);
  }

  /** The state after a failed line: whole lines for the bytes consumed, and a prefix of the next. */
  ghost predicate Broken(codec: Codec, stream: LogStream, now: nat -> Time, p: seq<byte>, before: seq<byte>,
                         consumed: nat, contents: seq<byte>)
  {
    && consumed < |p| && Boundary(p, consumed)
    && var lines := SplitWrite(p[..consumed]);
       var done := before + RenderAll(codec, stream, lines, now, 0);
       done <= contents <= done + RenderLine(codec, now(|lines|), stream, FirstLineOf(p[consumed..]))
  }

  lemma TrackBroken(codec: Codec, stream: LogStream, now: nat -> Time, p: seq<byte>, before: seq<byte>, consumed: nat,
                    rest: seq<byte>, lines: seq<seq<byte>>, contents: seq<byte>, contents': seq<byte>)
    requires OnTrack(codec, stream, now, p, before, consumed, rest, lines, contents) && |rest| > 0
    requires contents <= contents' <= contents + RenderLine(codec, now(|lines|), stream, FirstLineOf(rest))
    ensures Broken(codec, stream, now, p, before, consumed, contents') && before <= contents'
  {
  }

  lemma AllOnTrack(codec: Codec, stream: LogStream, now: nat -> Time, p: seq<byte>, before: seq<byte>, consumed: nat,
                   rest: seq<byte>, lines: seq<seq<byte>>, contents: seq<byte>)
    requires OnTrack(codec, stream, now, p, before, consumed, rest, lines, contents) && |rest| == 0
    ensures consumed == |p| && contents == before + RenderAll(codec, stream, SplitWrite(p), now, 0)
  {
    assert p[..consumed] == p;
  }

  /** The CRI lines of what is left of a write start with its first line. */
  lemma RenderStep(codec: Codec, stream: LogStream, rest: seq<byte>, line: seq<byte>, now: nat -> Time, k: nat)
    requires rest != []
    requires line == if IndexOf(rest, NEWLINE) < 0 then rest else rest[..IndexOf(rest, NEWLINE)]
    ensures RenderAll(codec, stream, SplitWrite(rest), now, k)
         == RenderLine(codec, now(k), stream, line)
            + RenderAll(codec, stream, SplitWrite(rest[Min(|rest|, |line| + 1)..]), now, k + 1)
  {
    var lines := SplitWrite(rest);
    var later := SplitWrite(rest[Min(|rest|, |line| + 1)..]);
    assert lines == [line] + later;
    assert lines[1..] == later;
  }

  /** The writer of one container stream into the shared log file. */
  class CriLogWriter {
    const dst: Sink
    const stream: LogStream

    constructor (dst: Sink, stream: LogStream)
      ensures this.dst == dst && this.stream == stream
    {
      this.dst := dst;
      this.stream := stream;
    }

    /**
     The file receives a prefix of the CRI lines of `p`, and all of them unless a write fails. On a failure it
     holds the CRI lines of exactly the bytes counted, which end a line of `p`, followed by a prefix of the next.
     */
    method Write(p: seq<byte>, now: nat -> Time, codec: Codec) returns (consumed: nat, failed: bool)
      requires dst.Honest()
      modifies dst
      ensures dst.Honest()
      ensures old(dst.contents) <= dst.contents
              <= old(dst.contents) + RenderAll(codec, stream, SplitWrite(p), now, 0)
      ensures !failed ==>
                && consumed == |p|
                && dst.contents == old(dst.contents) + RenderAll(codec, stream, SplitWrite(p), now, 0)
      ensures failed ==>
                && consumed < |p| && Boundary(p, consumed)
                && var lines := SplitWrite(p[..consumed]);
                   var done := old(dst.contents) + RenderAll(codec, stream, lines, now, 0);
                   done <= dst.contents <= done + RenderLine(codec, now(|lines|), stream, FirstLineOf(p[consumed..]))
      ensures old(dst.Reliable()) ==> dst.Reliable() && !failed
    {
      consumed, failed := 0, false;
      var rest, k := p, 0;
      ghost var before, lines := dst.contents, [];
      StartOnTrack(codec, stream, now, p, before);
      while |rest| > 0
        invariant dst.Honest() && !failed && k == |lines|
        invariant OnTrack(codec, stream, now, p, before, consumed, rest, lines, dst.contents)
        invariant old(dst.Reliable()) ==> dst.Reliable()
        decreases |rest|
      {
        rest, consumed, failed, lines := Advance(rest, consumed, now, k, codec, p, before, lines);
        if failed {
          return;
        }
        k := k + 1;
      }
      AllOnTrack(codec, stream, now, p, before, consumed, rest, lines, dst.contents);
    }

    /** One turn of the loop. */
    method Advance(rest: seq<byte>, consumed: nat, now: nat -> Time, k: nat, codec: Codec, ghost p: seq<byte>,
                   ghost before: seq<byte>, ghost lines: seq<seq<byte>>)
      returns (rest': seq<byte>, consumed': nat, failed: bool, ghost lines': seq<seq<byte>>)
      requires dst.Honest() && |rest| > 0 && k == |lines|
      requires OnTrack(codec, stream, now, p, before, consumed, rest, lines, dst.contents)
      modifies dst
      ensures dst.Honest()
      ensures failed ==>
                && before <= dst.contents <= before + RenderAll(codec, stream, SplitWrite(p), now, 0)
                && consumed' == consumed && Broken(codec, stream, now, p, before, consumed, dst.contents)
      ensures !failed ==>
                && |rest'| < |rest| && |lines'| == k + 1
                && OnTrack(codec, stream, now, p, before, consumed', rest', lines', dst.contents)
      ensures old(dst.Reliable()) ==> dst.Reliable() && !failed
    {
      var taken;
      taken, failed := WriteFirst(rest, now, k, codec, before + RenderAll(codec, stream, SplitWrite(p), now, 0));
      rest', consumed', lines' := rest, consumed, lines;
      if !failed {
        TrackMore(codec, stream, now, p, before, consumed, rest, lines, old(dst.contents), dst.contents);
        rest', consumed', lines' := rest[taken..], consumed + taken, lines + [FirstLineOf(rest)];
      } else {
        TrackBroken(codec, stream, now, p, before, consumed, rest, lines, old(dst.contents), dst.contents);
      }
    }

    /** Writes the first line of what is left, taking its newline too if it has one. */
    method WriteFirst(rest: seq<byte>, now: nat -> Time, k: nat, codec: Codec, ghost all: seq<byte>)
      returns (taken: nat, failed: bool)
      requires dst.Honest() && rest != []
      requires dst.contents + RenderAll(codec, stream, SplitWrite(rest), now, k) == all
      modifies dst
      ensures dst.Honest()
      ensures old(dst.contents) <= dst.contents <= all
      ensures dst.contents <= old(dst.contents) + RenderLine(codec, now(k), stream, FirstLineOf(rest))
      ensures !failed ==>
                && taken == Taken(rest) && (taken == |rest| || rest[taken - 1] == NEWLINE)
                && dst.contents == old(dst.contents) + RenderLine(codec, now(k), stream, FirstLineOf(rest))
                && dst.contents + RenderAll(codec, stream, SplitWrite(rest[taken..]), now, k + 1) == all
      ensures old(dst.Reliable()) ==> dst.Reliable() && !failed
    {
      var index := IndexOf(rest, NEWLINE);
      var line := if index >= 0 then rest[..index] else rest;
      taken := if index >= 0 then index + 1 else |rest|;
      RenderStep(codec, stream, rest, line, now, k);
      Assoc(dst.contents, RenderLine(codec, now(k), stream, line),
            RenderAll(codec, stream, SplitWrite(rest[taken..]), now, k + 1));
      failed := WriteLine(line, now(k), codec);
    }

    /** One formatted line is one write to the file. */
    method WriteLine(line: seq<byte>, t: Time, codec: Codec) returns (failed: bool)
      requires dst.Honest()
      modifies dst
      ensures dst.Honest()
      ensures old(dst.contents) <= dst.contents <= old(dst.contents) + RenderLine(codec, t, stream, line)
      ensures !failed ==> dst.contents == old(dst.contents) + RenderLine(codec, t, stream, line)
      ensures old(dst.Reliable()) ==> dst.Reliable() && !failed
    {
      var n;
      n, failed := dst.Write(RenderLine(codec, t, stream, line));
    }
  }
}
