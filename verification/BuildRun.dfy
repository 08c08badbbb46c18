/** A whole build: the translator as it runs, and how a failed build is reported. */
module BuildRun {
  import opened Bytes
  import opened BuildProgress
  import opened BuildReports

  /** Docker's JSON message stream; `plan` says which of the next writes fail, later ones succeed. */
  class ProgressWriter {
    var messages: seq<Event>
    var plan: seq<bool>

    constructor (plan: seq<bool>)
      ensures messages == [] && this.plan == plan
    {
      messages := [];
      this.plan := plan;
    }

    method Write(e: Event) returns (failed: bool)
      modifies this
      ensures messages == if failed then old(messages) else old(messages) + [e]
      ensures old(plan) == [] ==> !failed && plan == []
    {
      failed := plan != [] && plan[0];
      if plan != [] {
        plan := plan[1..];
      }
      if !failed {
        messages := messages + [e];
      }
    }
  }

  /**
   How writing `events` after `before` can go: all arrive, or the first `|now| - |before|` arrive and the
   next one fails. A failing translator has already noted the error it was about to report.
   */
  ghost predicate Wrote(before: seq<Event>, events: seq<Event>, now: seq<Event>, failed: bool) {
    && before <= now <= before + events
    && (failed <==> now != before + events)
  }

  /** The events tried: those that arrived and, on a failure, the one that did not. */
  ghost function Tried(before: seq<Event>, events: seq<Event>, now: seq<Event>): seq<Event>
    requires before <= now <= before + events
  {
    var k := |now| - |before|;
    if k < |events| then events[..k + 1] else events
  }

  /** What is tried after `done` adds to it. */
  lemma TriedMore(before: seq<Event>, done: seq<Event>, events: seq<Event>, later: seq<Event>, now: seq<Event>)
    requires before + done <= now <= before + done + events
    ensures before <= now <= before + (done + (events + later))
    ensures now != before + done + events ==>
              && Tried(before, done + (events + later), now) == done + Tried(before + done, events, now)
              && now != before + (done + (events + later))
    ensures now == before + done + events ==> Tried(before + done, events, now) == events
  {
    Assoc(before, done, events);
    Assoc(before, done + events, later);
    Assoc(done, events, later);
    var k := |now| - |before + done|;
    if k < |events| {
      assert (done + (events + later))[..|done| + k + 1] == done + events[..k + 1];
    }
  }

  /** The error flag after trying to write `events`. */
  ghost predicate Noted(before: Progress, now: Progress, events: seq<Event>) {
    now.sawError <==> before.sawError || HasError(events)
  }

  /** The flag goes with the message. */
  lemma OneNoted(render: Render, p: Progress, item: Item, v: Vertex)
    ensures v.digest in p.steps ==> Noted(p, Complete(p, v).state, Complete(p, v).events)
    ensures v.digest in p.steps ==> Noted(p, Announce(p, v).state, Announce(p, v).events)
    ensures !item.VertexItem? ==> Noted(p, ItemOut(render, p, item).state, ItemOut(render, p, item).events)
  {
    if v.digest in p.steps && Complete(p, v).events != [] {
      assert HasError(Complete(p, v).events) <==> Complete(p, v).events[0].VertexFailed?;
    }
  }

  /** Translates status batches, numbering steps and dropping repeated updates. */
  class Translator {
    const writer: ProgressWriter
    const render: Render
    var state: Progress

    constructor (writer: ProgressWriter, render: Render)
      ensures this.writer == writer && this.render == render && state == START
    {
      this.writer := writer;
      this.render := render;
      state := START;
    }

    /** Records a step of the translation and writes its message, if it has one. */
    method Emit(o: Out) returns (failed: bool)
      requires |o.events| <= 1
      modifies this, writer
      ensures state == o.state
      ensures Wrote(old(writer.messages), o.events, writer.messages, failed)
      ensures old(writer.plan) == [] ==> !failed && writer.plan == []
    {
      state := o.state;
      failed := false;
      if |o.events| == 1 {
        assert o.events == [o.events[0]];
        failed := writer.Write(o.events[0]);
      } else {
        assert writer.messages + o.events == writer.messages;
      }
    }

    method Item(item: Item) returns (failed: bool)
      modifies this, writer
      ensures var o := ItemOut(render, old(state), item);
        && Wrote(old(writer.messages), o.events, writer.messages, failed)
        && (!failed ==> state == o.state)
        && Noted(old(state), state, Tried(old(writer.messages), o.events, writer.messages))
      ensures old(writer.plan) == [] ==> !failed && writer.plan == []
    {
      OneNoted(render, state, item, Vertex("", "", false, false, false, ""));
      match item {
        case VertexItem(v) => failed := TranslateVertex(v);
        case StatusItem(s) => failed := Emit(StatusOut(render, state, s));
        case LogItem(_) => failed := Emit(ItemOut(render, state, item));
        case WarningItem(_) => failed := Emit(ItemOut(render, state, item));
      }
    }

    /** One status batch, in order, until a write fails. */
    method Translate(batch: Option<SolveStatus>) returns (failed: bool)
      modifies this, writer
      ensures var o := ItemsOut(render, old(state), if batch.Some? then Items(batch.value) else []);
        && Wrote(old(writer.messages), o.events, writer.messages, failed)
        && (!failed ==> state == o.state)
        && Noted(old(state), state, Tried(old(writer.messages), o.events, writer.messages))
      ensures old(writer.plan) == [] ==> !failed && writer.plan == []
    {
      failed := false;
      if batch.None? {
        assert writer.messages + [] == writer.messages;
        return;
      }
      var items := Items(batch.value);
      ghost var all := ItemsOut(render, state, items);
      ghost var before, done := writer.messages, [];
      var i := 0;
      assert items[0..] == items;
      assert before + [] == before && [] + all.events == all.events;
      while i < |items|
        invariant 0 <= i <= |items| && !failed
        invariant writer.messages == before + done
        invariant done + ItemsOut(render, state, items[i..]).events == all.events
        invariant ItemsOut(render, state, items[i..]).state == all.state
        invariant Noted(old(state), state, done)
        invariant old(writer.plan) == [] ==> writer.plan == []
      {
        assert items[i..][1..] == items[i + 1..];
        ghost var first := ItemOut(render, state, items[i]);
        ghost var later := ItemsOut(render, first.state, items[i + 1..]).events;
        Assoc(done, first.events, later);
        failed := Item(items[i]);
        TriedMore(before, done, first.events, later, writer.messages);
        HasErrorAppend(done, Tried(before + done, first.events, writer.messages));
        if failed {
          return;
        }
        Assoc(before, done, first.events);
        done := done + first.events;
        i := i + 1;
      }
      assert items[i..] == [];
      assert done + [] == done;
    }

    /** Numbers the vertex, announces it, and reports its end, each at most once. */
    method TranslateVertex(v: Vertex) returns (failed: bool)
      modifies this, writer
      ensures var o := VertexOut(old(state), v);
        && Wrote(old(writer.messages), o.events, writer.messages, failed)
        && (!failed ==> state == o.state)
        && Noted(old(state), state, Tried(old(writer.messages), o.events, writer.messages))
      ensures old(writer.plan) == [] ==> !failed && writer.plan == []
    {
      ghost var before := writer.messages;
      var p := Numbered(state, v);
      state := p;
      var a := Announce(p, v);
      var c := Complete(a.state, v);
      Assoc(before, a.events, c.events);
      OneNoted(render, p, VertexItem(v), v);
      OneNoted(render, a.state, VertexItem(v), v);
      HasErrorAppend(a.events, c.events);
      failed := Emit(a);
      if failed {
        assert a.events == [a.events[0]] && writer.messages == before;
        assert Tried(before, a.events + c.events, writer.messages) == a.events;
        return;
      }
      failed := Emit(c);
      if failed {
        assert c.events == [c.events[0]] && writer.messages == before + a.events;
        assert Tried(before, a.events + c.events, writer.messages) == a.events + c.events;
      }
    }
  }

  lemma {:induction false} ItemsAppend(render: Render, p: Progress, a: seq<Item>, b: seq<Item>)
    ensures var x := ItemsOut(render, p, a);
      var y := ItemsOut(render, x.state, b);
      ItemsOut(render, p, a + b) == Out(y.state, x.events + y.events)
    decreases |a|
  {
    if a == [] {
      assert a + b == b;
    } else {
      assert (a + b)[0] == a[0] && (a + b)[1..] == a[1..] + b;
      var first := ItemOut(render, p, a[0]);
      ItemsAppend(render, first.state, a[1..], b);
      var x := ItemsOut(render, first.state, a[1..]);
      Assoc(first.events, x.events, ItemsOut(render, x.state, b).events);
    }
  }

  lemma HasErrorAppend(a: seq<Event>, b: seq<Event>)
    ensures HasError(a + b) <==> HasError(a) || HasError(b)
  {
    if HasError(a) {
      var i :| 0 <= i < |a| && a[i].VertexFailed?;
      assert (a + b)[i].VertexFailed?;
    }
    if HasError(b) {
      var i :| 0 <= i < |b| && b[i].VertexFailed?;
      assert (a + b)[|a| + i].VertexFailed?;
    }
  }

  // ---------------------------------------------------------------------------------------------
  // How a failed build is reported
  // ---------------------------------------------------------------------------------------------

  ghost predicate IsErrorDetail(e: Event) {
    e.VertexFailed? || e.BuildFailed?
  }

  ghost function ErrorDetails(h: seq<Event>): nat {
    if h == [] then 0
    else ErrorDetails(h[..|h| - 1]) + if IsErrorDetail(h[|h| - 1]) then 1 else 0
  }

  /** The whole stream of a build with a working writer; the final error is left out if one was written. */
  ghost function BuildStream(render: Render, batches: seq<Option<SolveStatus>>, solveError: Option<string>): seq<Event> {
    var o := ItemsOut(render, START, AllItems(batches));
    o.events + if solveError.Some? && !o.state.sawError then [BuildFailed(solveError.value)] else []
  }

  ghost predicate Faulty(item: Item) {
    item.VertexItem? && item.v.error != ""
  }

  /** All errors reported are about one vertex. */
  ghost predicate AtMostOneFaulty(items: seq<Item>) {
    forall i, j | 0 <= i < |items| && 0 <= j < |items| && Faulty(items[i]) && Faulty(items[j]) ::
      items[i].v.digest == items[j].v.digest
  }

  ghost predicate HasErrorDetail(h: seq<Event>) {
    exists i | 0 <= i < |h| :: IsErrorDetail(h[i])
  }

  lemma {:induction false} SomeErrorDetail(h: seq<Event>)
    ensures HasErrorDetail(h) <==> ErrorDetails(h) >= 1
  {
    if h != [] {
      var n := |h| - 1;
      var init := h[..n];
      SomeErrorDetail(init);
      if HasErrorDetail(init) {
        var i :| 0 <= i < n && IsErrorDetail(init[i]);
        assert IsErrorDetail(h[i]);
      }
      if HasErrorDetail(h) && !IsErrorDetail(h[n]) {
        var i :| 0 <= i < |h| && IsErrorDetail(h[i]);
        assert IsErrorDetail(init[i]);
      }
    }
  }

  lemma {:induction false} FewErrorDetails(h: seq<Event>)
    requires forall i, j | 0 <= i < j < |h| :: !(IsErrorDetail(h[i]) && IsErrorDetail(h[j]))
    ensures ErrorDetails(h) <= 1
  {
    if h != [] {
      var n := |h| - 1;
      var init := h[..n];
      FewErrorDetails(init);
      SomeErrorDetail(init);
      if HasErrorDetail(init) {
        var i :| 0 <= i < n && IsErrorDetail(init[i]);
        assert IsErrorDetail(h[i]);
      }
    }
  }

  /** The translator says it emitted an error exactly when its stream holds an errorDetail. */
  lemma SawErrorMeaning(render: Render, batches: seq<Option<SolveStatus>>)
    ensures var o := ItemsOut(render, START, AllItems(batches));
      o.state.sawError <==> HasErrorDetail(o.events)
  {
    var items := AllItems(batches);
    var o := ItemsOut(render, START, items);
    NotedIsWritten(render, items, o);
    forall k | 0 <= k < |o.events|
      ensures !o.events[k].BuildFailed?
    {
      EventsHaveSource(render, START, items, o, k);
    }
    VertexErrorsOnly(o.events);
  }

  lemma NotedIsWritten(render: Render, items: seq<Item>, o: Out)
    requires o == ItemsOut(render, START, items)
    ensures o.state.sawError <==> HasError(o.events)
  {
    ItemsAreSafe(render, items, o);
  }

  lemma VertexErrorsOnly(h: seq<Event>)
    requires forall k | 0 <= k < |h| :: !h[k].BuildFailed?
    ensures HasErrorDetail(h) <==> HasError(h)
  {
    if HasError(h) {
      var i :| 0 <= i < |h| && h[i].VertexFailed?;
      assert IsErrorDetail(h[i]);
    }
  }

  /**
   Error reporting: a build whose solve fails has at least one errorDetail in its stream, and exactly one
   when at most one vertex reports an error.
   */
  lemma FailedBuildIsReported(render: Render, batches: seq<Option<SolveStatus>>, message: string)
    ensures ErrorDetails(BuildStream(render, batches, Some(message))) >= 1
    ensures AtMostOneFaulty(AllItems(batches)) ==>
              ErrorDetails(BuildStream(render, batches, Some(message))) == 1
  {
    var items := AllItems(batches);
    var o := ItemsOut(render, START, items);
    SawErrorMeaning(render, batches);
    SomeErrorDetail(o.events);
    var h := BuildStream(render, batches, Some(message));
    if o.state.sawError {
      assert h == o.events + [] == o.events;
      if AtMostOneFaulty(items) {
        OneErrorAtMost(render, batches);
      }
    } else {
      assert h[..|h| - 1] == o.events;
    }
  }

  lemma OneErrorAtMost(render: Render, batches: seq<Option<SolveStatus>>)
    requires AtMostOneFaulty(AllItems(batches))
    ensures ErrorDetails(ItemsOut(render, START, AllItems(batches)).events) <= 1
  {
    TranslationIsSafe(render, batches);
    AtMostOneError(render, AllItems(batches), ItemsOut(render, START, AllItems(batches)).state.steps);
  }

  /**
   Runs the translator over the solver's status batches, stopping at a failed write, and reports a failed
   build. With a writer that works, the build's whole stream is written.
   */
  method SolveBuild(batches: seq<Option<SolveStatus>>, solveError: Option<string>, writer: ProgressWriter, render: Render)
    returns (failed: bool)
    modifies writer
    ensures old(writer.messages) <= writer.messages
    ensures solveError.Some? ==> failed
    ensures old(writer.plan) == [] ==>
              && writer.messages == old(writer.messages) + BuildStream(render, batches, solveError)
              && (failed <==> solveError.Some?)
  {
    var t := new Translator(writer, render);
    ghost var before, done := writer.messages, [];
    var i, broken := 0, false;
    assert AllItems(batches[..0]) == [] && before + [] == before;
    while i < |batches| && !broken
      invariant 0 <= i <= |batches| && t.writer == writer && t.render == render && before <= writer.messages
      invariant !broken ==>
                  && writer.messages == before + done
                  && Out(t.state, done) == ItemsOut(render, START, AllItems(batches[..i]))
      invariant old(writer.plan) == [] ==> !broken && writer.plan == []
    {
      ghost var o := ItemsOut(render, t.state, if batches[i].Some? then Items(batches[i].value) else []);
      BatchStep(render, batches, i, t.state, done, o);
      Assoc(before, done, o.events);
      broken := t.Translate(batches[i]);
      done := done + o.events;
      i := i + 1;
    }
    assert !broken ==> batches[..i] == batches;
    failed := solveError.Some? || broken;
    if failed {
      ReportFailure(t, writer, if solveError.Some? then solveError.value else "write progress message");
    }
    assert done + [] == done;
    Assoc(before, done, if solveError.Some? then [BuildFailed(solveError.value)] else []);
  }

  /** The final error of a failed build, unless the translator already reported one. */
  method ReportFailure(t: Translator, writer: ProgressWriter, message: string)
    modifies writer
    ensures old(writer.messages) <= writer.messages
    ensures old(writer.plan) == [] ==>
              writer.messages == old(writer.messages) + if t.state.sawError then [] else [BuildFailed(message)]
  {
    if !t.state.sawError {
      var lost := writer.Write(BuildFailed(message));
    } else {
      assert writer.messages + [] == writer.messages;
    }
  }

  lemma BatchStep(render: Render, batches: seq<Option<SolveStatus>>, i: nat, state: Progress, done: seq<Event>, o: Out)
    requires i < |batches| && Out(state, done) == ItemsOut(render, START, AllItems(batches[..i]))
    requires o == ItemsOut(render, state, if batches[i].Some? then Items(batches[i].value) else [])
    ensures Out(o.state, done + o.events) == ItemsOut(render, START, AllItems(batches[..i + 1]))
  {
    AllItemsSnoc(batches, i);
    ItemsAppend(render, START, AllItems(batches[..i]), if batches[i].Some? then Items(batches[i].value) else []);
  }

  lemma {:induction false} AllItemsSnoc(batches: seq<Option<SolveStatus>>, i: nat)
    requires i < |batches|
    ensures AllItems(batches[..i + 1])
         == AllItems(batches[..i]) + if batches[i].Some? then Items(batches[i].value) else []
  {
    if i == 0 {
      assert batches[..1][1..] == [];
    } else {
      AllItemsSnoc(batches[1..], i - 1);
      assert batches[..i + 1][1..] == batches[1..][..i];
      assert batches[..i][1..] == batches[1..][..i - 1];
      Assoc(if batches[0].Some? then Items(batches[0].value) else [], AllItems(batches[1..][..i - 1]),
            if batches[i].Some? then Items(batches[i].value) else []);
    }
  }

  lemma NoTwoErrors(render: Render, items: seq<Item>, steps: map<Digest, BuildStep>, o: Out, i: nat, j: nat)
    requires AtMostOneFaulty(items) && o == ItemsOut(render, START, items) && WellFormed(steps, o.events)
    requires i < j < |o.events|
    ensures !(IsErrorDetail(o.events[i]) && IsErrorDetail(o.events[j]))
  {
    var h := o.events;
    EventsHaveSource(render, START, items, o, i);
    EventsHaveSource(render, START, items, o, j);
    if h[i].VertexFailed? && h[j].VertexFailed? {
      WellFormedMeaning(steps, h, i, j);
      assert Ends(h[i], h[i].digest) && Ends(h[j], h[i].digest);
    }
  }

  lemma AtMostOneError(render: Render, items: seq<Item>, steps: map<Digest, BuildStep>)
    requires AtMostOneFaulty(items) && WellFormed(steps, ItemsOut(render, START, items).events)
    ensures ErrorDetails(ItemsOut(render, START, items).events) <= 1
  {
    var o := ItemsOut(render, START, items);
    var h := o.events;
    forall i, j | 0 <= i < j < |h|
      ensures !(IsErrorDetail(h[i]) && IsErrorDetail(h[j]))
    {
      NoTwoErrors(render, items, steps, o, i, j);
    }
    FewErrorDetails(h);
  }
}
