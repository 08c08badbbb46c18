/** The polling log reader: opening, tailing, following, and the final flush on cancellation. */
module LogFollow {
  import opened Bytes
  import opened LogTail
  import opened LogLines
  import opened Demultiplexing

  /**
   What one open of the log file shows: the file's identity and its size when it was examined, the bytes a
   tail scan finds and, later, the bytes the read reaches.
   */
  datatype View = View(id: int, size: nat, scan: seq<byte>, data: seq<byte>)

  /** What the surroundings do during one polling iteration. */
  datatype Poll =
    | Cancelled(last: Option<View>)
    | Missing(cancelled: bool)
    | Opened(view: View, cancelled: bool, last: Option<View>)

  datatype ReadState = ReadState(started: bool, offset: nat, lastId: Option<int>)

  datatype Status = Following | Finished | MissingFile

  datatype Step = Step(state: ReadState, writes: seq<StreamWrite>, status: Status)

  const INITIAL := ReadState(false, 0, None)

  /** The offset for a freshly opened file: the tail limit at first, later a reset on rotation or truncation. */
  ghost function Tracked(st: ReadState, v: View, opts: Options): ReadState {
    if !st.started then ReadState(true, TailStart(v.scan, opts.tail), Some(v.id))
    else if st.lastId != Some(v.id) || v.size < st.offset then ReadState(true, 0, Some(v.id))
    else ReadState(true, st.offset, Some(v.id))
  }

  /** The pass made when the context is cancelled; nothing if the file was never open or is gone. */
  ghost function Flushed(st: ReadState, last: Option<View>, opts: Options, codec: Codec): PassResult {
    if !st.started || last.None? then PassResult([], st.offset, false)
    else Pass(last.value.data, if last.value.size < st.offset then 0 else st.offset, opts, codec)
  }

  ghost function PollOnce(st: ReadState, poll: Poll, opts: Options, codec: Codec): Step {
    match poll
    case Cancelled(last) =>
      var f := Flushed(st, last, opts, codec);
      Step(st.(offset := f.next), f.writes, Finished)
    case Missing(cancelled) =>
      Step(st, [], if !opts.follow then MissingFile else if cancelled then Finished else Following)
    case Opened(view, cancelled, last) =>
      var tracked := Tracked(st, view, opts);
      var p := Pass(view.data, tracked.offset, opts, codec);
      var st' := tracked.(offset := p.next);
      if p.done || !opts.follow then Step(st', p.writes, Finished)
      else if !cancelled then Step(st', p.writes, Following)
      else
        var f := Flushed(st', last, opts, codec);
        Step(st'.(offset := f.next), p.writes + f.writes, Finished)
  }

  /** A whole read: polls until one ends it. */
  ghost function Run(st: ReadState, polls: seq<Poll>, opts: Options, codec: Codec): Step
    decreases |polls|
  {
    if polls == [] then Step(st, [], Following)
    else
      var first := PollOnce(st, polls[0], opts, codec);
      if first.status != Following then first
      else
        var rest := Run(first.state, polls[1..], opts, codec);
        Step(rest.state, first.writes + rest.writes, rest.status)
  }

  // ---------------------------------------------------------------------------------------------
  // Append-only histories
  // ---------------------------------------------------------------------------------------------

  /** A view of file `id`, of which `seen` had been read before and to which bytes were only added. */
  ghost predicate Grown(id: int, seen: seq<byte>, v: View) {
    v.id == id && |seen| <= v.size <= |v.scan| && seen <= v.scan <= v.data
  }

  ghost function Seen(seen: seq<byte>, poll: Poll, opts: Options, codec: Codec, st: ReadState): seq<byte> {
    match poll
    case Cancelled(last) => if st.started && last.Some? then last.value.data else seen
    case Missing(_) => seen
    case Opened(view, cancelled, last) =>
      if cancelled && last.Some? && PollOnce(st, Opened(view, false, last), opts, codec).status == Following
      then last.value.data else view.data
  }

  ghost predicate GrownPoll(id: int, seen: seq<byte>, poll: Poll) {
    match poll
    case Cancelled(last) => last.Some? ==> Grown(id, seen, last.value)
    case Missing(_) => true
    case Opened(view, _, last) =>
      Grown(id, seen, view) && (last.Some? ==> Grown(id, view.data, last.value))
  }

  /** Every open shows the same file, grown by appending only. */
  ghost predicate AppendOnly(id: int, seen: seq<byte>, st: ReadState, polls: seq<Poll>, opts: Options, codec: Codec)
    decreases |polls|
  {
    polls == [] ||
    (&& GrownPoll(id, seen, polls[0])
     && var first := PollOnce(st, polls[0], opts, codec);
        first.status == Following ==>
          AppendOnly(id, Seen(seen, polls[0], opts, codec, st), first.state, polls[1..], opts, codec))
  }

  /** The bytes of the file at the last read of the run. */
  ghost function FinalData(seen: seq<byte>, st: ReadState, polls: seq<Poll>, opts: Options, codec: Codec): seq<byte>
    decreases |polls|
  {
    if polls == [] then seen
    else
      var first := PollOnce(st, polls[0], opts, codec);
      var now := Seen(seen, polls[0], opts, codec, st);
      if first.status != Following then now else FinalData(now, first.state, polls[1..], opts, codec)
  }

  /** What a run has done so far is one pass over `seen` from `start`, and the state remembers where it got. */
  ghost predicate UpToDate(id: int, seen: seq<byte>, start: nat, st: ReadState, opts: Options, codec: Codec) {
    && st.started && st.lastId == Some(id) && Boundary(seen, start)
    && Pass(seen, start, opts, codec).next == st.offset
    && !Pass(seen, start, opts, codec).done
  }

  lemma UpToDateBoundary(id: int, seen: seq<byte>, start: nat, st: ReadState, opts: Options, codec: Codec)
    requires opts.follow && UpToDate(id, seen, start, st, opts, codec)
    ensures Boundary(seen, st.offset)
  {
    PassBoundary(seen, start, opts, codec);
  }

  /** Reading a grown view on from the saved offset continues the one pass. */
  lemma Continue(id: int, seen: seq<byte>, start: nat, st: ReadState, v: View, opts: Options, codec: Codec)
    requires opts.follow && UpToDate(id, seen, start, st, opts, codec) && Grown(id, seen, v)
    ensures Boundary(v.data, start) && st.offset <= v.size
    ensures var more, all := Pass(v.data, st.offset, opts, codec), Pass(v.data, start, opts, codec);
      && all.writes == Pass(seen, start, opts, codec).writes + more.writes
      && all.next == more.next && all.done == more.done
  {
    PassBoundary(seen, start, opts, codec);
    PassExtends(seen, v.data, start, opts, codec);
    assert seen <= v.data;
  }

  /** One poll of a started run: the pass over the file as now seen, and a state that stays up to date. */
  lemma PollContinues(id: int, seen: seq<byte>, start: nat, st: ReadState, poll: Poll, opts: Options, codec: Codec)
    requires opts.follow && UpToDate(id, seen, start, st, opts, codec) && GrownPoll(id, seen, poll)
    ensures var step := PollOnce(st, poll, opts, codec);
      var now := Seen(seen, poll, opts, codec, st);
      && Boundary(now, start)
      && Pass(now, start, opts, codec).writes == Pass(seen, start, opts, codec).writes + step.writes
      && Pass(now, start, opts, codec).next == step.state.offset
      && (step.status == Following ==> UpToDate(id, now, start, step.state, opts, codec))
  {
    var before := Pass(seen, start, opts, codec).writes;
    match poll {
      case Cancelled(last) =>
        if last.Some? {
          Continue(id, seen, start, st, last.value, opts, codec);
        } else {
          assert before + [] == before;
        }
      case Missing(_) =>
        assert before + [] == before;
      case Opened(view, cancelled, last) =>
        OpenContinues(id, seen, start, st, view, cancelled, last, opts, codec);
    }
  }

  lemma OpenContinues(id: int, seen: seq<byte>, start: nat, st: ReadState, view: View, cancelled: bool,
                      last: Option<View>, opts: Options, codec: Codec)
    requires opts.follow && UpToDate(id, seen, start, st, opts, codec)
    requires GrownPoll(id, seen, Opened(view, cancelled, last))
    ensures var poll := Opened(view, cancelled, last);
      var step := PollOnce(st, poll, opts, codec);
      var now := Seen(seen, poll, opts, codec, st);
      && Boundary(now, start)
      && Pass(now, start, opts, codec).writes == Pass(seen, start, opts, codec).writes + step.writes
      && Pass(now, start, opts, codec).next == step.state.offset
      && (step.status == Following ==> UpToDate(id, now, start, step.state, opts, codec))
  {
    var before := Pass(seen, start, opts, codec).writes;
    Continue(id, seen, start, st, view, opts, codec);
    assert Tracked(st, view, opts) == st;
    var p := Pass(view.data, st.offset, opts, codec);
    var st' := st.(offset := p.next);
    if cancelled && !p.done {
      if last.Some? {
        Continue(id, view.data, start, st', last.value, opts, codec);
        Assoc(before, p.writes, Pass(last.value.data, st'.offset, opts, codec).writes);
      } else {
        assert p.writes + [] == p.writes;
      }
    }
  }

  /** A started run, to its end. */
  lemma {:induction false} RunContinues(id: int, seen: seq<byte>, start: nat, st: ReadState, polls: seq<Poll>,
                                        opts: Options, codec: Codec)
    requires opts.follow && UpToDate(id, seen, start, st, opts, codec)
    requires AppendOnly(id, seen, st, polls, opts, codec)
    ensures var run := Run(st, polls, opts, codec);
      var final := FinalData(seen, st, polls, opts, codec);
      && Boundary(final, start)
      && Pass(final, start, opts, codec).writes == Pass(seen, start, opts, codec).writes + run.writes
      && Pass(final, start, opts, codec).next == run.state.offset
    decreases |polls|
  {
    var before := Pass(seen, start, opts, codec).writes;
    if polls == [] {
      assert before + [] == before;
    } else {
      PollContinues(id, seen, start, st, polls[0], opts, codec);
      var first := PollOnce(st, polls[0], opts, codec);
      if first.status == Following {
        var now := Seen(seen, polls[0], opts, codec, st);
        RunContinues(id, now, start, first.state, polls[1..], opts, codec);
        Assoc(before, first.writes, Run(first.state, polls[1..], opts, codec).writes);
      }
    }
  }

  /** Where the run starts reading: the tail of the file as the first open finds it. */
  ghost function FirstStart(polls: seq<Poll>, opts: Options): nat {
    if polls == [] then 0
    else if polls[0].Opened? then TailStart(polls[0].view.scan, opts.tail)
    else FirstStart(polls[1..], opts)
  }

  /** Whether the run ever opens the file. */
  ghost predicate Opens(polls: seq<Poll>) {
    polls != [] && (polls[0].Opened? || (polls[0] == Missing(false) && Opens(polls[1..])))
  }

  lemma FirstOpen(id: int, poll: Poll, opts: Options, codec: Codec)
    requires opts.follow && poll.Opened? && GrownPoll(id, [], poll)
    ensures var start := TailStart(poll.view.scan, opts.tail);
      var step := PollOnce(INITIAL, poll, opts, codec);
      var now := Seen([], poll, opts, codec, INITIAL);
      && Boundary(now, start)
      && Pass(now, start, opts, codec).writes == step.writes
      && Pass(now, start, opts, codec).next == step.state.offset
      && (step.status == Following ==> UpToDate(id, now, start, step.state, opts, codec))
  {
    var view := poll.view;
    var start := TailStart(view.scan, opts.tail);
    if opts.tail > 0 {
      TailStartMeaning(view.scan, opts.tail, start);
    }
    assert Boundary(view.data, start);
    var p := Pass(view.data, start, opts, codec);
    var st := ReadState(true, p.next, Some(id));
    if poll.cancelled && !p.done {
      if poll.last.Some? {
        Continue(id, view.data, start, st, poll.last.value, opts, codec);
      } else {
        assert p.writes + [] == p.writes;
      }
    }
  }

  /**
   Follow mode is exactly-once. For every append-only growth of the log and every schedule of polls, missed
   opens and cancellation, the run's total output is the complete lines of the final file from the tail
   offset of the first open: none lost, repeated or reordered, up to the first line newer than Until. The
   saved offset is a line boundary.
   */
  lemma {:induction false} ExactlyOnce(id: int, polls: seq<Poll>, opts: Options, codec: Codec)
    requires opts.follow && AppendOnly(id, [], INITIAL, polls, opts, codec)
    ensures var run := Run(INITIAL, polls, opts, codec);
      var final := FinalData([], INITIAL, polls, opts, codec);
      var start := FirstStart(polls, opts);
      if Opens(polls) then
        && Boundary(final, start) && Boundary(final, run.state.offset)
        && run.writes == WritesUpTo(CompleteLines(final[start..]), opts, codec)
      else run.writes == []
    decreases |polls|
  {
    if polls != [] {
      var first := PollOnce(INITIAL, polls[0], opts, codec);
      match polls[0] {
        case Cancelled(_) =>
        case Missing(_) =>
          if first.status == Following {
            ExactlyOnce(id, polls[1..], opts, codec);
            assert first.writes + Run(first.state, polls[1..], opts, codec).writes
                == Run(first.state, polls[1..], opts, codec).writes;
          }
        case Opened(view, _, _) =>
          var start := FirstStart(polls, opts);
          FirstOpen(id, polls[0], opts, codec);
          if first.status == Following {
            RunContinues(id, Seen([], polls[0], opts, codec, INITIAL), start, first.state, polls[1..], opts, codec);
          }
          var final := FinalData([], INITIAL, polls, opts, codec);
          PassIsLinewise(final, start, opts, codec);
          PassBoundary(final, start, opts, codec);
      }
    }
  }

  /** Without follow, the first open is read once from its tail, an incomplete last line included. */
  lemma SingleRead(polls: seq<Poll>, opts: Options, codec: Codec)
    requires !opts.follow && polls != [] && polls[0].Opened?
    ensures var v := polls[0].view;
      var run := Run(INITIAL, polls, opts, codec);
      && run.status == Finished
      && run.writes == Pass(v.data, TailStart(v.scan, opts.tail), opts, codec).writes
  {
  }
}
