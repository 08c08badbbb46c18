/** What the build messages say: every message has its source, and nothing a caller needs is dropped. */
module BuildReports {
  import opened Bytes
  import opened BuildProgress

  /** A text as a line of its own. */
  ghost predicate IsLineOf(line: string, text: string) {
    if text != "" && text[|text| - 1] == '\n' then line == text else line == text + "\n"
  }

  /** The input item a message reports, and what the message says of it. */
  ghost predicate Reports(render: Render, item: Item, e: Event) {
    match e
    case Announced(d, _, _) =>
      item.VertexItem? && item.v.digest == d && !item.v.cached && (item.v.started || item.v.completed)
    case Finished(d, _, cached) =>
      && item.VertexItem? && item.v.digest == d
      && item.v.completed && item.v.error == "" && item.v.cached == cached
    case VertexFailed(d, message) => item.VertexItem? && item.v.digest == d && item.v.error == message != ""
    case StatusLine(id, name, progress, current, total) =>
      && item.StatusItem? && item.s.id == id && item.s.current == current && item.s.total == total
      && name == (if item.s.name != "" then item.s.name else if id != "" then id else ShorthandDigest(item.s.vertex))
      && var size := if current <= 0 && total <= 0 then "" else render(current, total);
         progress == if size == "" && item.s.completed then "done" else size
    case LogLine(text) => item.LogItem? && item.data != "" && IsLineOf(text, item.data)
    case WarningLine(text) =>
      && item.WarningItem? && |text| >= 9 && text[..9] == "WARNING: "
      && var said := item.w.short + if item.w.detail != "" then ": " + item.w.detail else "";
         said != "" && IsLineOf(text[9..], said)
    case BuildFailed(_) => false
  }

  ghost predicate HasSource(render: Render, items: seq<Item>, e: Event) {
    exists i | 0 <= i < |items| :: Reports(render, items[i], e)
  }

  /** Every message the translator writes reports an item of the input. */
  lemma {:induction false} EventsHaveSource(render: Render, p: Progress, items: seq<Item>, o: Out, k: nat)
    requires o == ItemsOut(render, p, items) && k < |o.events|
    ensures HasSource(render, items, o.events[k])
    decreases |items|
  {
    var first := ItemOut(render, p, items[0]);
    var rest := ItemsOut(render, first.state, items[1..]);
    assert o.events == first.events + rest.events;
    if k < |first.events| {
      ItemReports(render, p, items[0], k);
    } else {
      EventsHaveSource(render, first.state, items[1..], rest, k - |first.events|);
      SourceCons(render, items, o.events[k]);
    }
  }

  lemma SourceCons(render: Render, items: seq<Item>, e: Event)
    requires items != [] && HasSource(render, items[1..], e)
    ensures HasSource(render, items, e)
  {
    var i :| 0 <= i < |items[1..]| && Reports(render, items[1..][i], e);
    assert items[i + 1] == items[1..][i];
  }

  lemma ItemReports(render: Render, p: Progress, item: Item, k: nat)
    requires k < |ItemOut(render, p, item).events|
    ensures Reports(render, item, ItemOut(render, p, item).events[k])
  {
    if item.VertexItem? {
      var a := Announce(Numbered(p, item.v), item.v);
      if k < |a.events| {
        assert (a.events + Complete(a.state, item.v).events)[k] == a.events[k];
      }
    }
  }

  // ---------------------------------------------------------------------------------------------
  // Names
  // ---------------------------------------------------------------------------------------------

  /** The name a digest's step gets: that of the first vertex with the digest, or the short digest if it has none. */
  ghost function NameOf(items: seq<Item>, d: Digest): Option<string> {
    if items == [] then None
    else
      var n := |items| - 1;
      var before := NameOf(items[..n], d);
      if before.Some? then before
      else if items[n].VertexItem? && items[n].v.digest == d
      then Some(if items[n].v.name != "" then items[n].v.name else ShorthandDigest(d))
      else None
  }

  ghost predicate IsVertexOf(item: Item, d: Digest) {
    item.VertexItem? && item.v.digest == d
  }

  ghost predicate FirstVertex(items: seq<Item>, d: Digest, i: nat) {
    i < |items| && IsVertexOf(items[i], d) && forall j | 0 <= j < i :: !IsVertexOf(items[j], d)
  }

  lemma {:induction false} NameOfMeaning(items: seq<Item>, d: Digest)
    ensures NameOf(items, d).Some? ==>
              exists i: nat :: FirstVertex(items, d, i)
                && NameOf(items, d).value == if items[i].v.name != "" then items[i].v.name else ShorthandDigest(d)
    ensures NameOf(items, d).None? ==> forall i | 0 <= i < |items| :: !IsVertexOf(items[i], d)
  {
    if items != [] {
      var n := |items| - 1;
      var init := items[..n];
      NameOfMeaning(init, d);
      if NameOf(init, d).Some? {
        var i: nat :| FirstVertex(init, d, i)
          && NameOf(init, d).value == if init[i].v.name != "" then init[i].v.name else ShorthandDigest(d);
        assert FirstVertex(items, d, i) && items[i] == init[i];
      } else {
        assert forall i | 0 <= i < n :: items[i] == init[i];
        if IsVertexOf(items[n], d) {
          assert FirstVertex(items, d, n);
        }
      }
    }
  }

  /** The steps are named after the items seen so far. */
  ghost predicate NamesFollow(p: Progress, seen: seq<Item>) {
    && (forall d <- p.steps :: NameOf(seen, d) == Some(p.steps[d].name))
    && (forall d :: NameOf(seen, d).Some? ==> d in p.steps)
  }

  lemma NameOfSnoc(seen: seq<Item>, item: Item, d: Digest)
    ensures NameOf(seen + [item], d)
         == if NameOf(seen, d).Some? then NameOf(seen, d)
            else if IsVertexOf(item, d) then Some(if item.v.name != "" then item.v.name else ShorthandDigest(d))
            else None
  {
    assert (seen + [item])[..|seen|] == seen;
  }

  lemma ItemNames(render: Render, seen: seq<Item>, p: Progress, item: Item, q: Progress)
    requires NamesFollow(p, seen) && q == ItemOut(render, p, item).state
    ensures NamesFollow(q, seen + [item])
  {
    ItemSteps(render, p, item);
    StepsName(seen, p, item, q.steps, q);
  }

  lemma StepsName(seen: seq<Item>, p: Progress, item: Item, steps: map<Digest, BuildStep>, q: Progress)
    requires NamesFollow(p, seen) && q.steps == steps
    requires steps == if item.VertexItem? then p.steps[item.v.digest := StepFor(p, item.v)] else p.steps
    ensures NamesFollow(q, seen + [item])
  {
    forall d
      ensures d in steps ==> NameOf(seen + [item], d) == Some(steps[d].name)
      ensures NameOf(seen + [item], d).Some? ==> d in steps
    {
      NameOfSnoc(seen, item, d);
    }
  }

  lemma {:induction false} ItemsName(render: Render, seen: seq<Item>, p: Progress, items: seq<Item>, o: Out)
    requires NamesFollow(p, seen) && o == ItemsOut(render, p, items)
    ensures NamesFollow(o.state, seen + items)
    decreases |items|
  {
    if items == [] {
      assert seen + items == seen;
    } else {
      var q := ItemOut(render, p, items[0]).state;
      ItemNames(render, seen, p, items[0], q);
      ItemsName(render, seen + [items[0]], q, items[1..], ItemsOut(render, q, items[1..]));
      Regroup(seen, items);
    }
  }

  /** Every announcement carries the name of the first vertex with its digest, or the short digest if it has none. */
  lemma AnnouncedNames(render: Render, batches: seq<Option<SolveStatus>>, k: nat)
    requires k < |ItemsOut(render, START, AllItems(batches)).events|
    requires ItemsOut(render, START, AllItems(batches)).events[k].Announced?
    ensures var items, e := AllItems(batches), ItemsOut(render, START, AllItems(batches)).events[k];
      exists i: nat :: FirstVertex(items, e.digest, i)
        && e.name == if items[i].v.name != "" then items[i].v.name else ShorthandDigest(e.digest)
  {
    var items := AllItems(batches);
    var o := ItemsOut(render, START, items);
    ItemsAreSafe(render, items, o);
    ItemsName(render, [], START, items, o);
    assert [] + items == items;
    assert MayFollow(o.state.steps, o.events[..k], o.events[k]);
    NameOfMeaning(items, o.events[k].digest);
  }

  /** A batch is translated vertexes first, then statuses, logs and warnings, each in order. */
  lemma BatchOrder(b: SolveStatus, i: nat)
    requires i < |Items(b)|
    ensures var v, s, l := |b.vertexes|, |b.statuses|, |b.logs|;
      && |Items(b)| == v + s + l + |b.warnings|
      && Items(b)[i] == if i < v then VertexItem(b.vertexes[i])
                        else if i < v + s then StatusItem(b.statuses[i - v])
                        else if i < v + s + l then LogItem(b.logs[i - v - s])
                        else WarningItem(b.warnings[i - v - s - l])
  {
  }

  // ---------------------------------------------------------------------------------------------
  // Nothing is dropped
  // ---------------------------------------------------------------------------------------------

  /** What has been announced or completed stays so. */
  lemma {:induction false} SetsGrow(render: Render, p: Progress, items: seq<Item>)
    ensures var q := ItemsOut(render, p, items).state;
      p.announced <= q.announced && p.completed <= q.completed
    decreases |items|
  {
    if items != [] {
      SetsGrow(render, ItemOut(render, p, items[0]).state, items[1..]);
    }
  }

  lemma {:induction false} VertexIsNoted(render: Render, p: Progress, items: seq<Item>, i: nat)
    requires i < |items| && items[i].VertexItem?
    ensures var q, v := ItemsOut(render, p, items).state, items[i].v;
      && (ShouldAnnounce(v) ==> v.digest in q.announced)
      && (v.completed || v.error != "" ==> v.digest in q.completed)
    decreases |items|
  {
    var first := ItemOut(render, p, items[0]);
    if i == 0 {
      SetsGrow(render, first.state, items[1..]);
    } else {
      VertexIsNoted(render, first.state, items[1..], i - 1);
    }
  }

  /** The progress text of the last update of a status. */
  ghost function LastUpdate(render: Render, items: seq<Item>, id: string, before: string): string
    decreases |items|
  {
    if items == [] then before
    else
      var now := if items[0].StatusItem? && items[0].s.id == id then StatusProgress(render, items[0].s) else before;
      LastUpdate(render, items[1..], id, now)
  }

  lemma {:induction false} LastIsShown(render: Render, p: Progress, items: seq<Item>, id: string)
    ensures Shown(ItemsOut(render, p, items).state, id) == LastUpdate(render, items, id, Shown(p, id))
    decreases |items|
  {
    if items != [] {
      ItemShows(render, p, items[0], id);
      LastIsShown(render, ItemOut(render, p, items[0]).state, items[1..], id);
    }
  }

  lemma ItemShows(render: Render, p: Progress, item: Item, id: string)
    ensures Shown(ItemOut(render, p, item).state, id)
         == if item.StatusItem? && item.s.id == id then StatusProgress(render, item.s) else Shown(p, id)
  {
    match item {
      case VertexItem(v) =>
        var a := Announce(Numbered(p, v), v);
        assert a.state.statuses == p.statuses && Complete(a.state, v).state.statuses == p.statuses;
      case _ =>
    }
  }

  /** The log and warning messages of a stream, in order. */
  ghost function TextEvents(h: seq<Event>): seq<Event> {
    if h == [] then []
    else (if h[0].LogLine? || h[0].WarningLine? then [h[0]] else []) + TextEvents(h[1..])
  }

  /** The messages the input's logs and warnings call for, in order. */
  ghost function TextsOf(items: seq<Item>): seq<Event> {
    if items == [] then []
    else
      (match items[0]
       case LogItem(data) => if data == "" then [] else [LogLine(Terminate(data))]
       case WarningItem(w) => if WarningText(w) == "" then [] else [WarningLine("WARNING: " + Terminate(WarningText(w)))]
       case _ => [])
      + TextsOf(items[1..])
  }

  lemma {:induction false} TextEventsAppend(a: seq<Event>, b: seq<Event>)
    ensures TextEvents(a + b) == TextEvents(a) + TextEvents(b)
  {
    if a == [] {
      assert a + b == b;
    } else {
      assert (a + b)[0] == a[0] && (a + b)[1..] == a[1..] + b;
      TextEventsAppend(a[1..], b);
      Assoc(if a[0].LogLine? || a[0].WarningLine? then [a[0]] else [], TextEvents(a[1..]), TextEvents(b));
    }
  }

  /** Logs and warnings come through in order. */
  lemma {:induction false} TextsComeThrough(render: Render, p: Progress, items: seq<Item>)
    ensures TextEvents(ItemsOut(render, p, items).events) == TextsOf(items)
    decreases |items|
  {
    if items != [] {
      var first := ItemOut(render, p, items[0]);
      TextsComeThrough(render, first.state, items[1..]);
      TextEventsAppend(first.events, ItemsOut(render, first.state, items[1..]).events);
      ItemTexts(render, p, items[0]);
    }
  }

  lemma ItemTexts(render: Render, p: Progress, item: Item)
    ensures TextEvents(ItemOut(render, p, item).events) == TextsOf([item])
  {
    var events := ItemOut(render, p, item).events;
    assert [item][1..] == [];
    if item.VertexItem? {
      var a := Announce(Numbered(p, item.v), item.v);
      TextEventsAppend(a.events, Complete(a.state, item.v).events);
    }
    assert |events| == 1 ==> events[1..] == [];
  }

  /**
   Completeness over all sequences of batches: a vertex that starts or completes is announced, one that ends
   has its end reported, the text last shown for a status is that of its last update, and logs and warnings
   come through in order.
   */
  lemma NothingIsDropped(render: Render, batches: seq<Option<SolveStatus>>)
    ensures var items := AllItems(batches);
      var h := ItemsOut(render, START, items).events;
      && (forall i | 0 <= i < |items| && items[i].VertexItem? ::
            && (!items[i].v.cached && (items[i].v.started || items[i].v.completed) ==>
                  WasAnnounced(h, items[i].v.digest))
            && (items[i].v.completed || items[i].v.error != "" ==> WasCompleted(h, items[i].v.digest)))
      && (forall id :: LastProgress(h, id) == LastUpdate(render, items, id, ""))
      && TextEvents(h) == TextsOf(items)
  {
    var items := AllItems(batches);
    var o := ItemsOut(render, START, items);
    TranslationIsSafe(render, batches);
    TextsComeThrough(render, START, items);
    forall i | 0 <= i < |items| && items[i].VertexItem?
      ensures !items[i].v.cached && (items[i].v.started || items[i].v.completed) ==>
                WasAnnounced(o.events, items[i].v.digest)
      ensures items[i].v.completed || items[i].v.error != "" ==> WasCompleted(o.events, items[i].v.digest)
    {
      VertexIsNoted(render, START, items, i);
    }
    forall id
      ensures LastProgress(o.events, id) == LastUpdate(render, items, id, "")
    {
      LastIsShown(render, START, items, id);
    }
  }
}
