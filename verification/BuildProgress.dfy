/** Translating BuildKit solve status into Docker build messages. */
module BuildProgress {
  import opened Bytes

  type Digest = string

  datatype Vertex = Vertex(digest: Digest, name: string, started: bool, completed: bool, cached: bool, error: string)

  datatype VertexStatus = VertexStatus(
    id: string,
    name: string,
    vertex: Digest,
    current: int,
    total: int,
    completed: bool)

  datatype VertexWarning = VertexWarning(short: string, detail: string)

  datatype SolveStatus = SolveStatus(
    vertexes: seq<Vertex>,
    statuses: seq<VertexStatus>,
    logs: seq<string>,
    warnings: seq<VertexWarning>)

  /** A message, with the vertex or status it is about. */
  datatype Event =
    | Announced(digest: Digest, number: nat, name: string)
    | Finished(digest: Digest, number: nat, cached: bool)
    | VertexFailed(digest: Digest, message: string)
    | StatusLine(id: string, name: string, progress: string, current: int, total: int)
    | LogLine(text: string)
    | WarningLine(text: string)
    | BuildFailed(message: string)

  datatype BuildStep = BuildStep(number: nat, name: string)

  datatype Progress = Progress(
    steps: map<Digest, BuildStep>,
    announced: set<Digest>,
    completed: set<Digest>,
    statuses: map<string, string>,
    sawError: bool)

  const START := Progress(map[], {}, {}, map[], false)

  /** What one input item does to the translator and what it writes. */
  datatype Out = Out(state: Progress, events: seq<Event>)

  /** How sizes and percentages are rendered. */
  type Render = (int, int) -> string

  function FormatProgress(render: Render, current: int, total: int): string {
    if total <= 0 && current <= 0 then "" else render(current, total)
  }

  /** The text after the digest's algorithm, at most 12 characters of it. */
  function ShorthandDigest(d: Digest): string {
    var text := Encoded(d);
    if |text| <= 12 then text else text[..12]
  }

  function Encoded(d: Digest): string {
    if ':' !in d then d else if d[0] == ':' then d[1..] else Encoded(d[1..])
  }

  function Terminate(text: string): string {
    if text != "" && text[|text| - 1] == '\n' then text else text + "\n"
  }

  /** The text after a digest's algorithm, cut after 12 characters. */
  lemma {:induction false} ShorthandMeaning(algorithm: string, text: string)
    requires ':' !in algorithm
    ensures ShorthandDigest(algorithm + ":" + text) == if |text| > 12 then text[..12] else text
  {
    var d := algorithm + ":" + text;
    assert d[|algorithm|] == ':';
    if algorithm == "" {
      assert d[1..] == text;
    } else {
      ShorthandMeaning(algorithm[1..], text);
      EncodedStep(algorithm, text);
    }
  }

  lemma EncodedStep(algorithm: string, text: string)
    requires algorithm != "" && ':' !in algorithm
    ensures Encoded(algorithm + ":" + text) == Encoded(algorithm[1..] + ":" + text)
  {
    var d := algorithm + ":" + text;
    assert d[|algorithm|] == ':' && d[0] == algorithm[0];
    assert d[1..] == algorithm[1..] + ":" + text;
  }

  // ---------------------------------------------------------------------------------------------
  // One item
  // ---------------------------------------------------------------------------------------------

  function StepFor(p: Progress, v: Vertex): BuildStep {
    if v.digest in p.steps then p.steps[v.digest]
    else BuildStep(|p.steps| + 1, if v.name == "" then ShorthandDigest(v.digest) else v.name)
  }

  /** Numbering a vertex seen for the first time. */
  function Numbered(p: Progress, v: Vertex): Progress {
    p.(steps := p.steps[v.digest := StepFor(p, v)])
  }

  predicate ShouldAnnounce(v: Vertex) {
    !v.cached && (v.started || v.completed)
  }

  function Announce(p: Progress, v: Vertex): Out
    requires v.digest in p.steps
  {
    if v.digest in p.announced || !ShouldAnnounce(v) then Out(p, [])
    else Out(p.(announced := p.announced + {v.digest}),
             [Announced(v.digest, p.steps[v.digest].number, p.steps[v.digest].name)])
  }

  /** Reporting the end of a vertex, once. */
  function Complete(p: Progress, v: Vertex): Out
    requires v.digest in p.steps
  {
    if v.digest in p.completed || (v.error == "" && !v.completed) then Out(p, [])
    else if v.error != "" then
      Out(p.(completed := p.completed + {v.digest}, sawError := true), [VertexFailed(v.digest, v.error)])
    else
      Out(p.(completed := p.completed + {v.digest}), [Finished(v.digest, p.steps[v.digest].number, v.cached)])
  }

  function VertexOut(p: Progress, v: Vertex): Out {
    var announced := Announce(Numbered(p, v), v);
    var completed := Complete(announced.state, v);
    Out(completed.state, announced.events + completed.events)
  }

  function Shown(p: Progress, id: string): string {
    if id in p.statuses then p.statuses[id] else ""
  }

  function StatusName(s: VertexStatus): string {
    if s.name != "" then s.name else if s.id != "" then s.id else ShorthandDigest(s.vertex)
  }

  function StatusProgress(render: Render, s: VertexStatus): string {
    var progress := FormatProgress(render, s.current, s.total);
    if progress == "" && s.completed then "done" else progress
  }

  function StatusOut(render: Render, p: Progress, s: VertexStatus): Out {
    var progress := StatusProgress(render, s);
    if Shown(p, s.id) == progress then Out(p, [])
    else Out(p.(statuses := p.statuses[s.id := progress]),
             [StatusLine(s.id, StatusName(s), progress, s.current, s.total)])
  }

  function WarningText(w: VertexWarning): string {
    w.short + if w.detail != "" then ": " + w.detail else ""
  }

  datatype Item = VertexItem(v: Vertex) | StatusItem(s: VertexStatus) | LogItem(data: string) | WarningItem(w: VertexWarning)

  function ItemOut(render: Render, p: Progress, item: Item): Out {
    match item
    case VertexItem(v) => VertexOut(p, v)
    case StatusItem(s) => StatusOut(render, p, s)
    case LogItem(data) => Out(p, if data == "" then [] else [LogLine(Terminate(data))])
    case WarningItem(w) => Out(p, if WarningText(w) == "" then [] else [WarningLine("WARNING: " + Terminate(WarningText(w)))])
  }

  ghost function ItemsOut(render: Render, p: Progress, items: seq<Item>): Out
    decreases |items|
  {
    if items == [] then Out(p, [])
    else
      var first := ItemOut(render, p, items[0]);
      var rest := ItemsOut(render, first.state, items[1..]);
      Out(rest.state, first.events + rest.events)
  }

  /** A batch in the order it is translated. */
  function Items(b: SolveStatus): seq<Item> {
    seq(|b.vertexes|, i requires 0 <= i < |b.vertexes| => VertexItem(b.vertexes[i]))
    + seq(|b.statuses|, i requires 0 <= i < |b.statuses| => StatusItem(b.statuses[i]))
    + seq(|b.logs|, i requires 0 <= i < |b.logs| => LogItem(b.logs[i]))
    + seq(|b.warnings|, i requires 0 <= i < |b.warnings| => WarningItem(b.warnings[i]))
  }

  /** The items of a whole build, a nil status having none. */
  ghost function AllItems(batches: seq<Option<SolveStatus>>): seq<Item> {
    if batches == [] then []
    else (if batches[0].Some? then Items(batches[0].value) else []) + AllItems(batches[1..])
  }

  // ---------------------------------------------------------------------------------------------
  // What a message stream must look like
  // ---------------------------------------------------------------------------------------------

  ghost predicate WasAnnounced(h: seq<Event>, d: Digest) {
    exists i | 0 <= i < |h| :: h[i].Announced? && h[i].digest == d
  }

  ghost predicate Ends(e: Event, d: Digest) {
    (e.Finished? || e.VertexFailed?) && e.digest == d
  }

  ghost predicate WasCompleted(h: seq<Event>, d: Digest) {
    exists i | 0 <= i < |h| :: Ends(h[i], d)
  }

  ghost predicate HasError(h: seq<Event>) {
    exists i | 0 <= i < |h| :: h[i].VertexFailed?
  }

  /** The progress text last shown for a status. */
  ghost function LastProgress(h: seq<Event>, id: string): string {
    if h == [] then ""
    else
      var last := h[|h| - 1];
      if last.StatusLine? && last.id == id then last.progress else LastProgress(h[..|h| - 1], id)
  }

  /** What may follow `h`, given the step numbers. */
  ghost predicate MayFollow(steps: map<Digest, BuildStep>, h: seq<Event>, e: Event) {
    match e
    case Announced(d, n, name) => !WasAnnounced(h, d) && d in steps && steps[d] == BuildStep(n, name)
    case Finished(d, n, cached) =>
      !WasCompleted(h, d) && (!cached ==> WasAnnounced(h, d)) && d in steps && steps[d].number == n
    case VertexFailed(d, _) => !WasCompleted(h, d)
    case StatusLine(id, _, progress, _, _) => progress != LastProgress(h, id)
    case BuildFailed(_) => false
    case _ => true
  }

  /** Every message was allowed where it stands. */
  ghost predicate WellFormed(steps: map<Digest, BuildStep>, h: seq<Event>) {
    forall i | 0 <= i < |h| :: MayFollow(steps, h[..i], h[i])
  }

  /** The translator's state says what the stream so far holds. */
  ghost predicate Tracks(p: Progress, h: seq<Event>) {
    && (forall d :: d in p.announced <==> WasAnnounced(h, d))
    && (forall d :: d in p.completed <==> WasCompleted(h, d))
    && (forall id :: Shown(p, id) == LastProgress(h, id))
    && (p.sawError <==> HasError(h))
    && p.announced <= p.steps.Keys && p.completed <= p.steps.Keys
  }

  /** The distinct digests in order of first appearance. */
  ghost function FirstSeen(items: seq<Item>): seq<Digest> {
    if items == [] then []
    else
      var n := |items| - 1;
      var before := FirstSeen(items[..n]);
      if items[n].VertexItem? && items[n].v.digest !in before then before + [items[n].v.digest] else before
  }

  /** Steps are numbered 1 to k in order of first appearance. */
  ghost predicate NumbersFollow(p: Progress, order: seq<Digest>) {
    && |p.steps| == |order|
    && (forall i | 0 <= i < |order| :: order[i] in p.steps && p.steps[order[i]].number == i + 1)
    && (forall d <- p.steps :: d in order)
  }

  // ---------------------------------------------------------------------------------------------
  // Safety
  // ---------------------------------------------------------------------------------------------

  lemma Snoc(h: seq<Event>, e: Event)
    ensures forall d :: WasAnnounced(h + [e], d) <==> WasAnnounced(h, d) || (e.Announced? && e.digest == d)
    ensures forall d :: WasCompleted(h + [e], d) <==> WasCompleted(h, d) || Ends(e, d)
    ensures forall id :: LastProgress(h + [e], id)
                      == if e.StatusLine? && e.id == id then e.progress else LastProgress(h, id)
    ensures HasError(h + [e]) <==> HasError(h) || e.VertexFailed?
  {
    var g := h + [e];
    assert g[..|h|] == h && g[|h|] == e;
    assert forall i | 0 <= i < |h| :: g[i] == h[i];
  }

  lemma WellFormedSnoc(steps: map<Digest, BuildStep>, h: seq<Event>, e: Event)
    requires WellFormed(steps, h) && MayFollow(steps, h, e)
    ensures WellFormed(steps, h + [e])
  {
    var g := h + [e];
    forall i | 0 <= i < |g|
      ensures MayFollow(steps, g[..i], g[i])
    {
      if i < |h| {
        assert g[..i] == h[..i] && g[i] == h[i];
      } else {
        assert g[..i] == h;
      }
    }
  }

  lemma WellFormedMore(steps: map<Digest, BuildStep>, more: map<Digest, BuildStep>, h: seq<Event>)
    requires WellFormed(steps, h)
    requires forall d <- steps :: d in more && more[d] == steps[d]
    ensures WellFormed(more, h)
  {
    forall i | 0 <= i < |h|
      ensures MayFollow(more, h[..i], h[i])
    {
      assert MayFollow(steps, h[..i], h[i]);
    }
  }

  /** The translator in a good state after the stream `h`. */
  ghost predicate Good(p: Progress, h: seq<Event>) {
    WellFormed(p.steps, h) && Tracks(p, h)
  }

  /** At most one event, and the state that goes with it. */
  lemma EmitKeeps(p: Progress, h: seq<Event>, o: Out)
    requires Good(p, h) && o.state.steps == p.steps
    requires |o.events| <= 1 && (o.events == [] ==> o.state == p)
    requires o.events != [] ==> MayFollow(p.steps, h, o.events[0]) && Tracks(o.state, h + o.events)
    ensures Good(o.state, h + o.events)
  {
    if o.events == [] {
      assert h + o.events == h;
    } else {
      assert o.events == [o.events[0]];
      WellFormedSnoc(p.steps, h, o.events[0]);
    }
  }

  lemma AnnounceKeeps(p: Progress, h: seq<Event>, v: Vertex)
    requires Good(p, h) && v.digest in p.steps
    ensures var o := Announce(p, v);
      && Good(o.state, h + o.events) && o.state.steps == p.steps
      && (ShouldAnnounce(v) ==> v.digest in o.state.announced)
  {
    var o := Announce(p, v);
    if o.events != [] {
      Snoc(h, o.events[0]);
      assert o.events == [o.events[0]];
    }
    EmitKeeps(p, h, o);
  }

  lemma CompleteKeeps(p: Progress, h: seq<Event>, v: Vertex)
    requires Good(p, h) && v.digest in p.steps
    requires ShouldAnnounce(v) ==> v.digest in p.announced
    ensures var o := Complete(p, v);
      Good(o.state, h + o.events) && o.state.steps == p.steps
  {
    var o := Complete(p, v);
    if o.events != [] {
      Snoc(h, o.events[0]);
      assert o.events == [o.events[0]];
    }
    EmitKeeps(p, h, o);
  }

  lemma StatusKeeps(render: Render, p: Progress, h: seq<Event>, s: VertexStatus)
    requires Good(p, h)
    ensures var o := StatusOut(render, p, s);
      Good(o.state, h + o.events) && o.state.steps == p.steps
  {
    var o := StatusOut(render, p, s);
    if o.events != [] {
      Snoc(h, o.events[0]);
      assert o.events == [o.events[0]];
    }
    EmitKeeps(p, h, o);
  }

  lemma TextKeeps(p: Progress, h: seq<Event>, events: seq<Event>)
    requires Good(p, h) && |events| <= 1 && (events != [] ==> events[0].LogLine? || events[0].WarningLine?)
    ensures Good(p, h + events)
  {
    if events != [] {
      Snoc(h, events[0]);
      assert events == [events[0]];
    }
    EmitKeeps(p, h, Out(p, events));
  }

  lemma VertexKeeps(p: Progress, h: seq<Event>, v: Vertex)
    requires Good(p, h)
    ensures var o := VertexOut(p, v);
      Good(o.state, h + o.events) && o.state.steps == Numbered(p, v).steps
  {
    var p1 := Numbered(p, v);
    WellFormedMore(p.steps, p1.steps, h);
    AnnounceKeeps(p1, h, v);
    var a := Announce(p1, v);
    CompleteKeeps(a.state, h + a.events, v);
    Assoc(h, a.events, Complete(a.state, v).events);
  }

  lemma ItemKeeps(render: Render, p: Progress, h: seq<Event>, item: Item)
    requires Good(p, h)
    ensures var o := ItemOut(render, p, item);
      && Good(o.state, h + o.events)
      && o.state.steps == if item.VertexItem? then Numbered(p, item.v).steps else p.steps
  {
    match item {
      case VertexItem(v) => VertexKeeps(p, h, v);
      case StatusItem(s) => StatusKeeps(render, p, h, s);
      case LogItem(_) => TextKeeps(p, h, ItemOut(render, p, item).events);
      case WarningItem(_) => TextKeeps(p, h, ItemOut(render, p, item).events);
    }
  }

  lemma {:induction false} ItemsKeep(render: Render, p: Progress, h: seq<Event>, items: seq<Item>)
    requires Good(p, h)
    ensures var o := ItemsOut(render, p, items);
      Good(o.state, h + o.events)
    decreases |items|
  {
    if items == [] {
      assert h + [] == h;
    } else {
      var first := ItemOut(render, p, items[0]);
      ItemKeeps(render, p, h, items[0]);
      ItemsKeep(render, first.state, h + first.events, items[1..]);
      Assoc(h, first.events, ItemsOut(render, first.state, items[1..]).events);
    }
  }

  // ---------------------------------------------------------------------------------------------
  // Numbering
  // ---------------------------------------------------------------------------------------------

  lemma NumberedFollows(p: Progress, order: seq<Digest>, v: Vertex)
    requires NumbersFollow(p, order)
    ensures NumbersFollow(Numbered(p, v), if v.digest in order then order else order + [v.digest])
  {
    if v.digest in order {
      assert Numbered(p, v).steps == p.steps;
    } else {
      assert v.digest !in p.steps;
      var order' := order + [v.digest];
      var p' := Numbered(p, v);
      assert |p'.steps| == |p.steps| + 1;
      assert forall i | 0 <= i < |order| :: order'[i] == order[i] && order[i] in order;
    }
  }

  /** Only vertexes number steps. */
  lemma ItemSteps(render: Render, p: Progress, item: Item)
    ensures ItemOut(render, p, item).state.steps == if item.VertexItem? then Numbered(p, item.v).steps else p.steps
  {
    match item {
      case VertexItem(v) =>
        var a := Announce(Numbered(p, v), v);
        assert a.state.steps == Numbered(p, v).steps && Complete(a.state, v).state.steps == a.state.steps;
      case _ =>
    }
  }

  lemma {:induction false} ItemsNumber(render: Render, before: seq<Item>, p: Progress, items: seq<Item>, o: Out)
    requires NumbersFollow(p, FirstSeen(before)) && o == ItemsOut(render, p, items)
    ensures NumbersFollow(o.state, FirstSeen(before + items))
    decreases |items|
  {
    if items == [] {
      assert before + items == before;
    } else {
      var q := ItemOut(render, p, items[0]).state;
      ItemSteps(render, p, items[0]);
      ItemNumbers(before, p, items[0], q);
      var rest := ItemsOut(render, q, items[1..]);
      ItemsNumber(render, before + [items[0]], q, items[1..], rest);
      Regroup(before, items);
    }
  }

  lemma Regroup<T>(a: seq<T>, b: seq<T>)
    requires b != []
    ensures a + [b[0]] + b[1..] == a + b
  {
  }

  lemma ItemNumbers(before: seq<Item>, p: Progress, item: Item, q: Progress)
    requires NumbersFollow(p, FirstSeen(before))
    requires q.steps == if item.VertexItem? then Numbered(p, item.v).steps else p.steps
    ensures NumbersFollow(q, FirstSeen(before + [item]))
  {
    FirstSeenSnoc(before, item);
    if item.VertexItem? {
      NumberedFollows(p, FirstSeen(before), item.v);
      SameNumbers(Numbered(p, item.v), q, FirstSeen(before + [item]));
    } else {
      SameNumbers(p, q, FirstSeen(before));
    }
  }

  lemma FirstSeenSnoc(before: seq<Item>, item: Item)
    ensures FirstSeen(before + [item])
         == if item.VertexItem? && item.v.digest !in FirstSeen(before)
            then FirstSeen(before) + [item.v.digest] else FirstSeen(before)
  {
    var now := before + [item];
    assert now[..|now| - 1] == before && now[|now| - 1] == item;
  }

  lemma SameNumbers(p: Progress, q: Progress, order: seq<Digest>)
    requires NumbersFollow(p, order) && q.steps == p.steps
    ensures NumbersFollow(q, order)
  {
  }

  /**
   Build-progress safety over all sequences of batches: steps are numbered 1 to k in order of first
   appearance, and every message is allowed where it stands.
   */
  lemma TranslationIsSafe(render: Render, batches: seq<Option<SolveStatus>>)
    ensures var o := ItemsOut(render, START, AllItems(batches));
      && WellFormed(o.state.steps, o.events) && Tracks(o.state, o.events)
      && NumbersFollow(o.state, FirstSeen(AllItems(batches)))
  {
    ItemsAreSafe(render, AllItems(batches), ItemsOut(render, START, AllItems(batches)));
  }

  lemma ItemsAreSafe(render: Render, items: seq<Item>, o: Out)
    requires o == ItemsOut(render, START, items)
    ensures Good(o.state, o.events) && NumbersFollow(o.state, FirstSeen(items))
  {
    StartIsGood();
    ItemsKeep(render, START, [], items);
    ItemsNumber(render, [], START, items, o);
    assert [] + o.events == o.events;
    assert [] + items == items;
  }

  lemma StartIsGood()
    ensures Good(START, []) && NumbersFollow(START, FirstSeen([]))
  {
  }

  /** Numbers already given never change. */
  lemma {:induction false} NumbersAreStable(render: Render, p: Progress, items: seq<Item>)
    ensures forall d <- p.steps :: d in ItemsOut(render, p, items).state.steps
                                 && ItemsOut(render, p, items).state.steps[d] == p.steps[d]
    decreases |items|
  {
    if items != [] {
      ItemSteps(render, p, items[0]);
      NumbersAreStable(render, ItemOut(render, p, items[0]).state, items[1..]);
    }
  }

  /** What a well-formed stream means: announcements and endings are unique, and DONE follows its announcement. */
  lemma WellFormedMeaning(steps: map<Digest, BuildStep>, h: seq<Event>, i: nat, j: nat)
    requires WellFormed(steps, h) && i < j < |h|
    ensures h[i].Announced? && h[j].Announced? ==> h[i].digest != h[j].digest
    ensures forall d :: !(Ends(h[i], d) && Ends(h[j], d))
    ensures h[j].Finished? && !h[j].cached ==>
              exists k | 0 <= k < j :: h[k].Announced? && h[k].digest == h[j].digest && h[k].number == h[j].number
  {
    assert MayFollow(steps, h[..j], h[j]);
    assert h[..j][i] == h[i];
    if h[j].Finished? && !h[j].cached {
      var k :| 0 <= k < j && h[..j][k].Announced? && h[..j][k].digest == h[j].digest;
      assert MayFollow(steps, h[..k], h[k]);
    }
  }

  /** Consecutive messages for one status differ in their progress text; the first is not empty. */
  lemma StatusesDiffer(steps: map<Digest, BuildStep>, h: seq<Event>, j: nat)
    requires WellFormed(steps, h) && j < |h| && h[j].StatusLine?
    ensures forall i | 0 <= i < j && h[i].StatusLine? && h[i].id == h[j].id
              && (forall k | i < k < j :: !(h[k].StatusLine? && h[k].id == h[j].id)) :: h[i].progress != h[j].progress
    ensures (forall i | 0 <= i < j :: !(h[i].StatusLine? && h[i].id == h[j].id)) ==> h[j].progress != ""
  {
    assert MayFollow(steps, h[..j], h[j]);
    LastProgressMeaning(h[..j], h[j].id);
  }

  lemma LastProgressMeaning(h: seq<Event>, id: string)
    ensures (forall i | 0 <= i < |h| :: !(h[i].StatusLine? && h[i].id == id)) ==> LastProgress(h, id) == ""
    ensures forall i | 0 <= i < |h| && h[i].StatusLine? && h[i].id == id
              && (forall k | i < k < |h| :: !(h[k].StatusLine? && h[k].id == id)) :: LastProgress(h, id) == h[i].progress
  {
    if forall i | 0 <= i < |h| :: !(h[i].StatusLine? && h[i].id == id) {
      NoProgress(h, id);
    }
    forall i | 0 <= i < |h| && h[i].StatusLine? && h[i].id == id
        && (forall k | i < k < |h| :: !(h[k].StatusLine? && h[k].id == id))
      ensures LastProgress(h, id) == h[i].progress
    {
      LastProgressAt(h, id, i);
    }
  }

  lemma {:induction false} NoProgress(h: seq<Event>, id: string)
    requires forall i | 0 <= i < |h| :: !(h[i].StatusLine? && h[i].id == id)
    ensures LastProgress(h, id) == ""
  {
    if h != [] {
      NoProgress(h[..|h| - 1], id);
    }
  }

  lemma {:induction false} LastProgressAt(h: seq<Event>, id: string, i: nat)
    requires i < |h| && h[i].StatusLine? && h[i].id == id
    requires forall k | i < k < |h| :: !(h[k].StatusLine? && h[k].id == id)
    ensures LastProgress(h, id) == h[i].progress
  {
    if i < |h| - 1 {
      var init := h[..|h| - 1];
      assert init[i] == h[i];
      LastProgressAt(init, id, i);
    }
  }
}
