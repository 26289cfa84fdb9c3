/**
 Text refinement: a client that appends the text of a text event, or replaces what it
 has when the event says so, holds the latest text of every part it is shown, after
 every poll; and the events of one part form a gapless chain of revisions.
 */
module OpencodeTexts {
  import opened Common
  import opened OpencodeModel
  import opened OpencodeWeaving
  import opened OpencodeRuns

  // ---------------------------------------------------------------- the client

  function ApplyEvent(client: map<string, string>, ev: Event): map<string, string> {
    if !ev.TextEvent? then client
    else if ev.replace || ev.partId !in client then client[ev.partId := ev.text]
    else client[ev.partId := client[ev.partId] + ev.text]
  }

  function ApplyEvents(client: map<string, string>, events: seq<Event>): map<string, string> {
    if events == [] then client
    else ApplyEvent(ApplyEvents(client, events[..|events| - 1]), events[|events| - 1])
  }

  lemma {:induction false} ApplyConcat(client: map<string, string>, a: seq<Event>, b: seq<Event>)
    ensures ApplyEvents(client, a + b) == ApplyEvents(ApplyEvents(client, a), b)
  {
    if b == [] {
      assert a + b == a;
    } else {
      var n := |b| - 1;
      assert (a + b)[..|a + b| - 1] == a + b[..n];
      ApplyConcat(client, a, b[..n]);
    }
  }

  lemma {:induction false} ApplyStripped(client: map<string, string>, events: seq<Event>)
    ensures ApplyEvents(client, Strip(events)) == ApplyEvents(client, events)
  {
    if events != [] {
      var n := |events| - 1;
      ApplyStripped(client, events[..n]);
      if !events[n].TurnEvent? {
        ApplyConcat(client, Strip(events[..n]), [events[n]]);
        assert ApplyEvents(ApplyEvents(client, Strip(events[..n])), [events[n]])
            == ApplyEvent(ApplyEvents(client, Strip(events[..n])), events[n]);
      } else {
        assert Strip(events) == Strip(events[..n]);
      }
    }
  }

  // ---------------------------------------------------------------- the texts of the snapshots

  predicate ShowsText(item: Item) {
    && item.PartItem? && (item.part.body.TextBody? || item.part.body.ReasoningBody?)
    && TrimSpace(item.part.body.text) != "" && item.part.id != ""
  }

  /** The last text each part had that was not blank. */
  function LatestTexts(latest: map<string, string>, items: seq<Item>): map<string, string> {
    if items == [] then latest
    else
      var n := |items| - 1;
      var before := LatestTexts(latest, items[..n]);
      if ShowsText(items[n]) then before[items[n].part.id := items[n].part.body.text] else before
  }

  function LatestOfRun(polls: seq<Poll>): map<string, string> {
    if polls == [] then map[]
    else LatestTexts(LatestOfRun(polls[..|polls| - 1]), Items(SortByCreated(polls[|polls| - 1].msgs)))
  }

  // ---------------------------------------------------------------- the chain of a part

  function EventsOf(log: seq<Event>, id: string): seq<Event> {
    if log == [] then []
    else
      var n := |log| - 1;
      EventsOf(log[..n], id) + (if log[n].TextEvent? && log[n].partId == id then [log[n]] else [])
  }

  lemma {:induction false} EventsConcat(a: seq<Event>, b: seq<Event>, id: string)
    ensures EventsOf(a + b, id) == EventsOf(a, id) + EventsOf(b, id)
  {
    if b == [] {
      assert a + b == a;
    } else {
      var n := |b| - 1;
      assert (a + b)[..|a + b| - 1] == a + b[..n];
      EventsConcat(a, b[..n], id);
    }
  }

  lemma {:induction false} EventsStripped(log: seq<Event>, id: string)
    ensures EventsOf(Strip(log), id) == EventsOf(log, id)
  {
    if log != [] {
      var n := |log| - 1;
      EventsStripped(log[..n], id);
      if !log[n].TurnEvent? {
        EventsConcat(Strip(log[..n]), [log[n]], id);
        EventsOne(log[n], id);
      } else {
        assert Strip(log) == Strip(log[..n]);
        assert EventsOf(log, id) == EventsOf(log[..n], id);
      }
    }
  }

  lemma EventsOne(ev: Event, id: string)
    ensures EventsOf([ev], id) == if ev.TextEvent? && ev.partId == id then [ev] else []
  {
    assert [ev][..0] == [];
  }

  function TailId(events: seq<Event>): EventId {
    if events != [] && events[|events| - 1].TextEvent? then events[|events| - 1].eventId else NoId
  }

  /** Revisions count from one, and every event names the one before it. */
  ghost predicate Chained(events: seq<Event>) {
    events == [] ||
    (var n := |events| - 1;
     && Chained(events[..n])
     && events[n].TextEvent? && events[n].revision == n + 1 && events[n].previous == TailId(events[..n]))
  }

  lemma ChainGrows(events: seq<Event>, ev: Event)
    requires Chained(events) && ev.TextEvent? && ev.revision == |events| + 1 && ev.previous == TailId(events)
    ensures Chained(events + [ev])
  {
    assert (events + [ev])[..|events|] == events;
  }

  // ---------------------------------------------------------------- one item

  /** The differ remembers of a part what the client holds and how its chain ends. */
  ghost predicate InStep(texts: map<string, TextState>, client: map<string, string>, events: seq<Event>, id: string) {
    && Chained(events)
    && if id in texts then
         && id in client && client[id] == texts[id].text
         && events != [] && texts[id].revision == |events| && texts[id].eventId == TailId(events)
       else id !in client && events == []
  }

  /** The item is text of this part that the client is not shown. */
  predicate Hides(item: Item, id: string, emitUser: bool) {
    item.PartItem? && item.part.id == id && item.role.User? && !emitUser
  }

  lemma TextStep(texts: map<string, TextState>, item: Item, client: map<string, string>, events: seq<Event>, id: string)
    requires item.PartItem? && IsText(item.part.body) && InStep(texts, client, events, id)
    ensures var (texts', ev) := DiffText(texts, item);
            if ev.None? then InStep(texts', client, events, id)
            else
              && ev.value.TextEvent? && ev.value.partId == item.part.id
              && InStep(texts', ApplyEvent(client, ev.value),
                        if item.part.id == id then events + [ev.value] else events, id)
  {
    var (texts', ev) := DiffText(texts, item);
    if ev.Some? && item.part.id == id {
      ChainGrows(events, ev.value);
      if id in texts && !ev.value.replace {
        assert texts[id].text + ev.value.text == item.part.body.text;
      }
    }
  }

  lemma LogGrows(client: map<string, string>, log: seq<Event>, ev: Event, id: string)
    ensures ApplyEvents(client, [ev]) == ApplyEvent(client, ev)
    ensures EventsOf(log + [ev], id) == EventsOf(log, id) + if ev.TextEvent? && ev.partId == id then [ev] else []
  {
    assert (log + [ev])[..|log|] == log;
    assert [ev][..0] == [];
  }

  lemma TextItemStep(mem: Memory, item: Item, emitUser: bool, client: map<string, string>, log: seq<Event>, id: string)
    requires item.PartItem? && IsText(item.part.body)
    requires InStep(mem.texts, client, EventsOf(log, id), id) && !Hides(item, id, emitUser)
    ensures var (mem', events) := DiffItem(mem, item, emitUser);
            InStep(mem'.texts, ApplyEvents(client, events), EventsOf(log + events, id), id)
  {
    var (texts', ev) := DiffText(mem.texts, item);
    TextStep(mem.texts, item, client, EventsOf(log, id), id);
    var events := DiffItem(mem, item, emitUser).1;
    if events == [] {
      assert log + events == log;
    } else {
      LogGrows(client, log, ev.value, id);
      assert events == [ev.value];
      assert EventsOf(log, id) + [] == EventsOf(log, id);
    }
  }

  lemma OtherItemStep(mem: Memory, item: Item, emitUser: bool, client: map<string, string>, log: seq<Event>, id: string)
    requires !(item.PartItem? && IsText(item.part.body))
    ensures var (mem', events) := DiffItem(mem, item, emitUser);
            && mem'.texts == mem.texts && ApplyEvents(client, events) == client
            && EventsOf(log + events, id) == EventsOf(log, id)
  {
    var events := DiffItem(mem, item, emitUser).1;
    if events == [] {
      assert log + events == log;
    } else {
      LogGrows(client, log, events[0], id);
      assert events == [events[0]];
      assert EventsOf(log, id) + [] == EventsOf(log, id);
    }
  }

  lemma ItemStep(mem: Memory, item: Item, emitUser: bool, client: map<string, string>, log: seq<Event>, id: string)
    requires InStep(mem.texts, client, EventsOf(log, id), id) && !Hides(item, id, emitUser)
    ensures var (mem', events) := DiffItem(mem, item, emitUser);
            InStep(mem'.texts, ApplyEvents(client, events), EventsOf(log + events, id), id)
  {
    if item.PartItem? && IsText(item.part.body) {
      TextItemStep(mem, item, emitUser, client, log, id);
    } else {
      OtherItemStep(mem, item, emitUser, client, log, id);
    }
  }

  lemma {:induction false} ItemsStep(mem: Memory, items: seq<Item>, emitUser: bool, client: map<string, string>,
      log: seq<Event>, id: string)
    requires InStep(mem.texts, client, EventsOf(log, id), id)
    requires forall i | 0 <= i < |items| :: !Hides(items[i], id, emitUser)
    ensures var (mem', events) := DiffItems(mem, items, emitUser);
            InStep(mem'.texts, ApplyEvents(client, events), EventsOf(log + events, id), id)
  {
    if items == [] {
      assert log + [] == log;
    } else {
      var n := |items| - 1;
      var (mem', events) := DiffItems(mem, items[..n], emitUser);
      ItemsStep(mem, items[..n], emitUser, client, log, id);
      ItemStep(mem', items[n], emitUser, ApplyEvents(client, events), log + events, id);
      InStepTogether(DiffItem(mem', items[n], emitUser).0.texts, client, log, events,
        DiffItem(mem', items[n], emitUser).1, id);
    }
  }

  lemma InStepTogether(texts: map<string, TextState>, client: map<string, string>, log: seq<Event>, events: seq<Event>,
      more: seq<Event>, id: string)
    requires InStep(texts, ApplyEvents(ApplyEvents(client, events), more), EventsOf(log + events + more, id), id)
    ensures InStep(texts, ApplyEvents(client, events + more), EventsOf(log + (events + more), id), id)
  {
    hide *;
    assert log + events + more == log + (events + more);
    ApplyConcat(client, events, more);
  }

  /** Shown or not, the differ remembers the latest text of every part. */
  lemma {:induction false} ItemsLatest(mem: Memory, items: seq<Item>, emitUser: bool, latest: map<string, string>)
    requires mem.texts.Keys == latest.Keys && forall id | id in latest :: mem.texts[id].text == latest[id]
    ensures var texts := DiffItems(mem, items, emitUser).0.texts;
            var latest' := LatestTexts(latest, items);
            texts.Keys == latest'.Keys && forall id | id in latest' :: texts[id].text == latest'[id]
  {
    if items != [] {
      ItemsLatest(mem, items[..|items| - 1], emitUser, latest);
    }
  }

  // ---------------------------------------------------------------- runs

  /** The snapshots never show this part to someone it is hidden from. */
  ghost predicate NeverHidden(polls: seq<Poll>, emitUser: bool, id: string) {
    forall n | 0 <= n < |polls| :: ShownBy(Items(SortByCreated(polls[n].msgs)), emitUser, id)
  }

  ghost predicate ShownBy(items: seq<Item>, emitUser: bool, id: string) {
    forall i | 0 <= i < |items| :: !Hides(items[i], id, emitUser)
  }

  function ClientOfRun(polls: seq<Poll>, emitUser: bool): map<string, string> {
    ApplyEvents(map[], Run(polls, emitUser).1)
  }

  lemma {:induction false} RunInStep(polls: seq<Poll>, emitUser: bool, id: string)
    requires NeverHidden(polls, emitUser, id)
    ensures InStep(Run(polls, emitUser).0.memory.texts, ClientOfRun(polls, emitUser),
      EventsOf(Run(polls, emitUser).1, id), id)
  {
    if polls != [] {
      var n := |polls| - 1;
      var (s, log) := Run(polls[..n], emitUser);
      RunInStep(polls[..n], emitUser, id);
      var ordered, lifecycle, content, status := PollParts(s, polls[n], emitUser);
      assert ShownBy(Items(ordered), emitUser, id);
      ItemsStep(s.memory, Items(ordered), emitUser, ClientOfRun(polls[..n], emitUser), log, id);
      PollForClient(content, lifecycle, status, ClientOfRun(polls[..n], emitUser), log, id);
      ApplyConcat(map[], log, Weave(content, lifecycle) + status);
    }
  }

  /** To a client the turn and status events of a poll are invisible. */
  lemma PollForClient(content: seq<Event>, lifecycle: seq<Event>, status: seq<Event>, client: map<string, string>,
      log: seq<Event>, id: string)
    requires IsLifecycle(lifecycle) && forall i | 0 <= i < |content| :: IsContent(content[i])
    requires |status| <= 1 && forall i | 0 <= i < |status| :: status[i].StatusEvent?
    ensures ApplyEvents(client, Weave(content, lifecycle) + status) == ApplyEvents(client, content)
    ensures EventsOf(log + (Weave(content, lifecycle) + status), id) == EventsOf(log + content, id)
  {
    hide *;
    var woven := Weave(content, lifecycle);
    WeavePreservesContent(content, lifecycle);
    ApplyStripped(client, woven);
    ApplyConcat(client, woven, status);
    EventsStripped(woven, id);
    EventsConcat(log, content, id);
    EventsConcat(log, woven + status, id);
    EventsConcat(woven, status, id);
    StatusIsInvisible(ApplyEvents(client, woven), status, id);
  }

  lemma StatusIsInvisible(client: map<string, string>, status: seq<Event>, id: string)
    requires |status| <= 1 && forall i | 0 <= i < |status| :: status[i].StatusEvent?
    ensures ApplyEvents(client, status) == client && EventsOf(status, id) == []
  {
    if status != [] {
      assert status[..0] == [];
    }
  }

  lemma {:induction false} RunLatest(polls: seq<Poll>, emitUser: bool)
    ensures var texts, latest := Run(polls, emitUser).0.memory.texts, LatestOfRun(polls);
            texts.Keys == latest.Keys && forall id | id in latest :: texts[id].text == latest[id]
  {
    if polls != [] {
      var n := |polls| - 1;
      RunLatest(polls[..n], emitUser);
      ItemsLatest(Run(polls[..n], emitUser).0.memory, Items(SortByCreated(polls[n].msgs)), emitUser,
        LatestOfRun(polls[..n]));
    }
  }

  /** Refinement: after any polls the client holds exactly the latest non-blank text of every
      part it is shown, and the part's events are chained by revision and identity. */
  lemma TextRefinement(polls: seq<Poll>, emitUser: bool, id: string)
    requires NeverHidden(polls, emitUser, id)
    ensures id in ClientOfRun(polls, emitUser) <==> id in LatestOfRun(polls)
    ensures id in LatestOfRun(polls) ==> ClientOfRun(polls, emitUser)[id] == LatestOfRun(polls)[id]
    ensures Chained(EventsOf(Run(polls, emitUser).1, id))
  {
    RunInStep(polls, emitUser, id);
    RunLatest(polls, emitUser);
  }

  /** With user texts shown nothing is hidden: client and snapshots agree on every part. */
  lemma WholeTextRefinement(polls: seq<Poll>)
    ensures ClientOfRun(polls, true) == LatestOfRun(polls)
  {
    forall id: string
      ensures id in ClientOfRun(polls, true) <==> id in LatestOfRun(polls)
      ensures id in LatestOfRun(polls) ==> ClientOfRun(polls, true)[id] == LatestOfRun(polls)[id]
    {
      TextRefinement(polls, true, id);
    }
  }

  // ---------------------------------------------------------------- parts that are hidden

  /** Every snapshot attributes this part to the user. */
  ghost predicate OnlyUser(items: seq<Item>, id: string) {
    forall i | 0 <= i < |items| && items[i].PartItem? && items[i].part.id == id :: items[i].role.User?
  }

  lemma {:induction false} HiddenItems(mem: Memory, items: seq<Item>, id: string)
    requires OnlyUser(items, id)
    ensures EventsOf(DiffItems(mem, items, false).1, id) == []
  {
    if items != [] {
      var n := |items| - 1;
      var (mem', events) := DiffItems(mem, items[..n], false);
      HiddenItems(mem, items[..n], id);
      HiddenItem(mem', items[n], id);
      EventsConcat(events, DiffItem(mem', items[n], false).1, id);
    }
  }

  lemma HiddenItem(mem: Memory, item: Item, id: string)
    requires item.PartItem? && item.part.id == id ==> item.role.User?
    ensures EventsOf(DiffItem(mem, item, false).1, id) == []
  {
    var more := DiffItem(mem, item, false).1;
    if more != [] {
      EventsOne(more[0], id);
      assert more == [more[0]];
    }
  }

  lemma {:induction false} NoEventsNoText(client: map<string, string>, log: seq<Event>, id: string)
    requires EventsOf(log, id) == [] && id !in client
    ensures id !in ApplyEvents(client, log)
  {
    if log != [] {
      NoEventsNoText(client, log[..|log| - 1], id);
    }
  }

  lemma {:induction false} HiddenRun(polls: seq<Poll>, id: string)
    requires forall n | 0 <= n < |polls| :: OnlyUser(Items(SortByCreated(polls[n].msgs)), id)
    ensures EventsOf(Run(polls, false).1, id) == []
  {
    if polls != [] {
      var n := |polls| - 1;
      var (s, log) := Run(polls[..n], false);
      HiddenRun(polls[..n], id);
      var ordered, lifecycle, content, status := PollParts(s, polls[n], false);
      assert OnlyUser(Items(ordered), id);
      HiddenItems(s.memory, Items(ordered), id);
      PollForClient(content, lifecycle, status, map[], log, id);
      EventsConcat(log, content, id);
    }
  }

  /** With user texts off, a part of the user's never reaches the client at all. */
  lemma UserTextStaysHidden(polls: seq<Poll>, id: string)
    requires forall n | 0 <= n < |polls| :: OnlyUser(Items(SortByCreated(polls[n].msgs)), id)
    ensures EventsOf(Run(polls, false).1, id) == [] && id !in ClientOfRun(polls, false)
  {
    HiddenRun(polls, id);
    NoEventsNoText(map[], Run(polls, false).1, id);
  }
}
