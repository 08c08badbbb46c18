/** The log reader as it runs: decoding lines from a file and writing them to the response stream. */
module LogReading {
  import opened Bytes
  import opened Sinks
  import opened Stdcopy
  import opened Demultiplexing
  import opened LogTail
  import opened LogLines
  import opened LogFollow

  const TAIL_READ_BLOCK_SIZE := 32 * 1024

  /** The bytes a sequence of writes puts on the response: frames, or the bare payload for a TTY. */
  ghost function Rendered(framed: bool, ws: seq<StreamWrite>): seq<byte> {
    if framed then WireOf(ws) else PayloadOf(ws, true, true)
  }

  lemma {:induction false} RenderedAppend(framed: bool, a: seq<StreamWrite>, b: seq<StreamWrite>)
    ensures Rendered(framed, a + b) == Rendered(framed, a) + Rendered(framed, b)
  {
    if a == [] {
      assert a + b == b;
    } else {
      assert (a + b)[1..] == a[1..] + b;
      RenderedAppend(framed, a[1..], b);
    }
  }

  lemma RenderedOne(framed: bool, w: StreamWrite)
    ensures Rendered(framed, [w]) == if framed then Message(w.stream, w.data) else w.data
  {
    assert [w][1..] == [];
    assert WireOf([w]) == Message(w.stream, w.data) + [] && PayloadOf([w], true, true) == w.data + [];
  }

  /** The pair of io.Writers a log response is written to, both ending in one sink. */
  class LogOutput {
    const sink: Sink
    const framed: bool

    constructor (sink: Sink, framed: bool)
      ensures this.sink == sink && this.framed == framed
    {
      this.sink := sink;
      this.framed := framed;
    }

    /** The framed writers notice short writes; the bare sink must report them itself. */
    ghost predicate Ready()
      reads this, sink
    {
      framed || sink.Honest()
    }

    method Write(w: StreamWrite) returns (failed: bool)
      requires Ready()
      modifies sink
      ensures Ready()
      ensures old(sink.contents) <= sink.contents <= old(sink.contents) + Rendered(framed, [w])
      ensures !failed ==> sink.contents == old(sink.contents) + Rendered(framed, [w])
      ensures old(sink.Reliable()) ==> sink.Reliable() && !failed
    {
      RenderedOne(framed, w);
      if framed {
        var writer := new Writer(sink, w.stream);
        var n, err := writer.Write(Some(w.data));
        failed := err.Some?;
      } else {
        var n;
        n, failed := sink.Write(w.data);
      }
    }

    /** The Write calls of one entry: the timestamp, if asked for, and then the content. */
    method WriteEntry(e: LogEntry, opts: Options, codec: Codec) returns (failed: bool)
      requires Ready()
      modifies sink
      ensures Ready()
      ensures old(sink.contents) <= sink.contents
              <= old(sink.contents) + Rendered(framed, EntryWrites(e, opts, codec))
      ensures !failed ==> sink.contents == old(sink.contents) + Rendered(framed, EntryWrites(e, opts, codec))
      ensures old(sink.Reliable()) ==> sink.Reliable() && !failed
    {
      var id := StreamId(e.stream);
      var content := StreamWrite(id, e.content);
      if opts.timestamps && e.timestamp != ZERO_TIME {
        var stamp := StreamWrite(id, codec.format(e.timestamp) + [SPACE]);
        assert EntryWrites(e, opts, codec) == [stamp] + [content];
        failed := WriteBoth(stamp, content);
      } else {
        assert EntryWrites(e, opts, codec) == [content];
        failed := Write(content);
      }
    }

    method WriteBoth(a: StreamWrite, b: StreamWrite) returns (failed: bool)
      requires Ready()
      modifies sink
      ensures Ready()
      ensures old(sink.contents) <= sink.contents <= old(sink.contents) + Rendered(framed, [a] + [b])
      ensures !failed ==> sink.contents == old(sink.contents) + Rendered(framed, [a] + [b])
      ensures old(sink.Reliable()) ==> sink.Reliable() && !failed
    {
      RenderedAppend(framed, [a], [b]);
      Assoc(sink.contents, Rendered(framed, [a]), Rendered(framed, [b]));
      failed := Write(a);
      if !failed {
        failed := Write(b);
      }
    }
  }

  /** Emits the lines of `file` from `start`, stopping at an incomplete line in follow mode and at Until. */
  method EmitLogLines(file: seq<byte>, start: nat, opts: Options, codec: Codec, out: LogOutput)
    returns (next: nat, done: bool, failed: bool)
    requires out.Ready()
    modifies out.sink
    ensures out.Ready()
    ensures var p := Pass(file, start, opts, codec);
      && old(out.sink.contents) <= out.sink.contents
         <= old(out.sink.contents) + Rendered(out.framed, p.writes)
      && (!failed ==>
            && out.sink.contents == old(out.sink.contents) + Rendered(out.framed, p.writes)
            && next == p.next && done == p.done)
    ensures old(out.sink.Reliable()) ==> out.sink.Reliable() && !failed
  {
    next, done, failed := start, false, false;
    ghost var p := Pass(file, start, opts, codec);
    ghost var all := out.sink.contents + Rendered(out.framed, p.writes);
    ghost var left := p;
    while next < |file|
      invariant !done && !failed && out.Ready()
      invariant left == Pass(file, next, opts, codec) && left.next == p.next && left.done == p.done
      invariant old(out.sink.contents) <= out.sink.contents
      invariant out.sink.contents + Rendered(out.framed, left.writes) == all
      invariant old(out.sink.Reliable()) ==> out.sink.Reliable()
      decreases |file| - next
    {
      var stop;
      next, stop, done, failed, left := EmitNext(file, next, opts, codec, out, left);
      if stop {
        break;
      }
    }
  }

  /** One turn of the loop: the next line, unless it is incomplete, newer than Until, or cannot be written. */
  method EmitNext(file: seq<byte>, off: nat, opts: Options, codec: Codec, out: LogOutput, ghost left: PassResult)
    returns (next: nat, stop: bool, done: bool, failed: bool, ghost left': PassResult)
    requires out.Ready() && off < |file| && left == Pass(file, off, opts, codec)
    modifies out.sink
    ensures out.Ready()
    ensures old(out.sink.contents) <= out.sink.contents <= old(out.sink.contents) + Rendered(out.framed, left.writes)
    ensures !failed ==>
              && out.sink.contents + Rendered(out.framed, left'.writes)
                 == old(out.sink.contents) + Rendered(out.framed, left.writes)
              && left' == Pass(file, next, opts, codec) && left'.next == left.next && left'.done == left.done
    ensures !stop ==> !done && !failed && off < next <= |file|
    ensures stop && !failed ==> left'.writes == [] && next == left.next && done == left.done
    ensures old(out.sink.Reliable()) ==> out.sink.Reliable() && !failed
  {
    next, stop, done, failed, left' := off, true, false, false, left;
    var e := LineEnd(file, off);
    var line := file[off..e];
    if file[e - 1] != NEWLINE && opts.follow {
      return;
    }
    if Stops(line, opts, codec) {
      done := true;
      return;
    }
    PassStep(file, off, opts, codec, out.framed, out.sink.contents);
    failed := EmitLine(line, opts, codec, out);
    if !failed {
      next, stop, left' := e, false, Pass(file, e, opts, codec);
    }
  }

  /** What is left to render after a line that is not the last of the pass. */
  lemma PassStep(file: seq<byte>, off: nat, opts: Options, codec: Codec, framed: bool, sent: seq<byte>)
    requires off < |file|
    requires var e := LineEnd(file, off);
      !(opts.follow && file[e - 1] != NEWLINE) && !Stops(file[off..e], opts, codec)
    ensures var e := LineEnd(file, off);
      var line, left := Rendered(framed, LineWrites(file[off..e], opts, codec)), Pass(file, e, opts, codec);
      && sent + Rendered(framed, Pass(file, off, opts, codec).writes) == sent + line + Rendered(framed, left.writes)
      && sent + line <= sent + Rendered(framed, Pass(file, off, opts, codec).writes)
  {
    var e := LineEnd(file, off);
    var writes, left := LineWrites(file[off..e], opts, codec), Pass(file, e, opts, codec).writes;
    RenderedAppend(framed, writes, left);
    Assoc(sent, Rendered(framed, writes), Rendered(framed, left));
  }

  method EmitLine(line: seq<byte>, opts: Options, codec: Codec, out: LogOutput) returns (failed: bool)
    requires out.Ready()
    modifies out.sink
    ensures out.Ready()
    ensures old(out.sink.contents) <= out.sink.contents
            <= old(out.sink.contents) + Rendered(out.framed, LineWrites(line, opts, codec))
    ensures !failed ==>
              out.sink.contents == old(out.sink.contents) + Rendered(out.framed, LineWrites(line, opts, codec))
    ensures old(out.sink.Reliable()) ==> out.sink.Reliable() && !failed
  {
    failed := false;
    var entry := DecodeLogLine(line, opts.format, codec);
    if entry.Some? && !EntryTooOld(entry.value, opts) {
      failed := out.WriteEntry(entry.value, opts, codec);
    }
  }

  /** Follow-mode progress across polling iterations. */
  class LogReadState {
    var started: bool
    var offset: nat
    var lastId: Option<int>

    constructor ()
      ensures View() == INITIAL
    {
      started, offset, lastId := false, 0, None;
    }

    ghost function View(): ReadState
      reads this
    {
      ReadState(started, offset, lastId)
    }

    method Track(v: View, opts: Options)
      requires |v.scan| <= INT64_MAX && INT64_MIN <= opts.tail <= INT64_MAX
      modifies this
      ensures View() == Tracked(old(View()), v, opts)
    {
      if !started {
        offset := FindTailStart(v.scan, opts.tail, TAIL_READ_BLOCK_SIZE);
        started := true;
      } else if lastId != Some(v.id) || v.size < offset {
        offset := 0;
      }
      lastId := Some(v.id);
    }

    method Flush(last: Option<View>, opts: Options, codec: Codec, out: LogOutput) returns (failed: bool)
      requires out.Ready()
      modifies this, out.sink
      ensures out.Ready()
      ensures var f := Flushed(old(View()), last, opts, codec);
        && old(out.sink.contents) <= out.sink.contents
           <= old(out.sink.contents) + Rendered(out.framed, f.writes)
        && (!failed ==>
              && out.sink.contents == old(out.sink.contents) + Rendered(out.framed, f.writes)
              && View() == old(View()).(offset := f.next))
      ensures old(out.sink.Reliable()) ==> out.sink.Reliable() && !failed
    {
      failed := false;
      if started && last.Some? {
        var from := if last.value.size < offset then 0 else offset;
        var done;
        offset, done, failed := EmitLogLines(last.value.data, from, opts, codec, out);
      } else {
        assert Rendered(out.framed, []) == [];
      }
    }

    /** One polling iteration. */
    method ReadLogsOnce(poll: Poll, opts: Options, codec: Codec, out: LogOutput)
      returns (status: Status, failed: bool)
      requires out.Ready()
      requires INT64_MIN <= opts.tail <= INT64_MAX && (poll.Opened? ==> |poll.view.scan| <= INT64_MAX)
      modifies this, out.sink
      ensures out.Ready()
      ensures var step := PollOnce(old(View()), poll, opts, codec);
        && old(out.sink.contents) <= out.sink.contents
           <= old(out.sink.contents) + Rendered(out.framed, step.writes)
        && (!failed ==>
              && out.sink.contents == old(out.sink.contents) + Rendered(out.framed, step.writes)
              && View() == step.state && status == step.status)
      ensures old(out.sink.Reliable()) ==> out.sink.Reliable() && !failed
    {
      match poll {
        case Cancelled(last) =>
          status := Finished;
          failed := Flush(last, opts, codec, out);
        case Missing(cancelled) =>
          status := if !opts.follow then MissingFile else if cancelled then Finished else Following;
          failed := false;
          assert Rendered(out.framed, []) == [];
        case Opened(view, cancelled, last) =>
          status, failed := ReadOpened(view, cancelled, last, opts, codec, out);
      }
    }

    method ReadOpened(view: View, cancelled: bool, last: Option<View>, opts: Options, codec: Codec, out: LogOutput)
      returns (status: Status, failed: bool)
      requires out.Ready()
      requires INT64_MIN <= opts.tail <= INT64_MAX && |view.scan| <= INT64_MAX
      modifies this, out.sink
      ensures out.Ready()
      ensures var step := PollOnce(old(View()), Opened(view, cancelled, last), opts, codec);
        && old(out.sink.contents) <= out.sink.contents
           <= old(out.sink.contents) + Rendered(out.framed, step.writes)
        && (!failed ==>
              && out.sink.contents == old(out.sink.contents) + Rendered(out.framed, step.writes)
              && View() == step.state && status == step.status)
      ensures old(out.sink.Reliable()) ==> out.sink.Reliable() && !failed
    {
      Track(view, opts);
      ghost var tracked := View();
      ghost var p := Pass(view.data, offset, opts, codec);
      status := Following;
      var done;
      offset, done, failed := EmitLogLines(view.data, offset, opts, codec, out);
      if failed {
        EarlyPrefix(tracked, p, cancelled, last, opts, codec, out.framed);
      } else if done || !opts.follow {
        status := Finished;
      } else if cancelled {
        ghost var f := Flushed(tracked.(offset := p.next), last, opts, codec);
        RenderedAppend(out.framed, p.writes, f.writes);
        Assoc(old(out.sink.contents), Rendered(out.framed, p.writes), Rendered(out.framed, f.writes));
        status := Finished;
        failed := Flush(last, opts, codec, out);
      }
    }

    /** What is written before a failure is also a prefix of the writes of a poll that would go on to flush. */
    static lemma EarlyPrefix(tracked: ReadState, p: PassResult, cancelled: bool, last: Option<View>, opts: Options,
                             codec: Codec, framed: bool)
      ensures var f := Flushed(tracked.(offset := p.next), last, opts, codec);
        Rendered(framed, p.writes) <= Rendered(framed, p.writes + f.writes)
    {
      RenderedAppend(framed, p.writes, Flushed(tracked.(offset := p.next), last, opts, codec).writes);
    }
  }

  /**
   ReadLogs: polls until the read ends, a write fails or the schedule is used up. The response holds a
   prefix of what Run says, and all of it unless a write failed.
   */
  method ReadLogs(polls: seq<Poll>, opts: Options, codec: Codec, out: LogOutput)
    returns (status: Status, failed: bool)
    requires out.Ready()
    requires INT64_MIN <= opts.tail <= INT64_MAX
    requires forall i | 0 <= i < |polls| :: polls[i].Opened? ==> |polls[i].view.scan| <= INT64_MAX
    modifies out.sink
    ensures var run := Run(INITIAL, polls, opts, codec);
      && old(out.sink.contents) <= out.sink.contents
         <= old(out.sink.contents) + Rendered(out.framed, run.writes)
      && (!failed ==>
            && out.sink.contents == old(out.sink.contents) + Rendered(out.framed, run.writes)
            && status == run.status)
    ensures old(out.sink.Reliable()) ==> out.sink.Reliable() && !failed
  {
    var state := new LogReadState();
    status, failed := Following, false;
    ghost var run := Run(INITIAL, polls, opts, codec);
    ghost var all := out.sink.contents + Rendered(out.framed, run.writes);
    ghost var left := run;
    var i := 0;
    assert polls[0..] == polls;
    while i < |polls|
      invariant 0 <= i <= |polls| && status == Following && !failed && out.Ready()
      invariant left == Run(state.View(), polls[i..], opts, codec) && left.status == run.status
      invariant old(out.sink.contents) <= out.sink.contents
      invariant out.sink.contents + Rendered(out.framed, left.writes) == all
      invariant old(out.sink.Reliable()) ==> out.sink.Reliable()
      decreases |polls| - i
    {
      ghost var step := PollOnce(state.View(), polls[i], opts, codec);
      assert polls[i..][1..] == polls[i + 1..];
      ghost var later := if step.status == Following then Run(step.state, polls[i + 1..], opts, codec)
                         else Step(step.state, [], step.status);
      assert left.writes == step.writes + later.writes;
      RenderedAppend(out.framed, step.writes, later.writes);
      Assoc(out.sink.contents, Rendered(out.framed, step.writes), Rendered(out.framed, later.writes));
      status, failed := state.ReadLogsOnce(polls[i], opts, codec, out);
      left := later;
      if failed || status != Following {
        assert Rendered(out.framed, []) == [];
        break;
      }
      i := i + 1;
    }
  }
}
