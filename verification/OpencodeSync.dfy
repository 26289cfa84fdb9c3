/**
 The differ object: its maps, and the loops that update them.  `DiffWithNativeStatus` is
 proved to compute `OpencodeModel.Diff`, about which the other modules speak.
 */
module OpencodeSync {
  import opened Common
  import opened OpencodeModel
  import opened OpencodeWeaving
  import opened OpencodeRuns

  /** A map of turn events with the order of its keys stands for a list of turn events. */
  ghost predicate Represents(events: map<string, Event>, order: seq<string>, lifecycle: seq<Event>) {
    && |order| == |lifecycle|
    && (forall i | 0 <= i < |order| ::
          lifecycle[i].TurnEvent? && order[i] == lifecycle[i].turn && order[i] in events
            && events[order[i]] == lifecycle[i])
    && (forall a | a in events :: a in order)
  }

  lemma RepresentsLookup(events: map<string, Event>, order: seq<string>, lifecycle: seq<Event>, anchor: string)
    requires Represents(events, order, lifecycle) && IsLifecycle(lifecycle)
    ensures LifecycleOf(lifecycle, anchor) == if anchor in events then Some(events[anchor]) else None
  {
    if anchor in events {
      var i :| 0 <= i < |order| && order[i] == anchor;
      LifecycleFound(lifecycle, i);
    } else {
      LifecycleAbsent(lifecycle, anchor);
    }
  }

  lemma ItemAppended(mem: Memory, items: seq<Item>, item: Item, emitUser: bool)
    ensures var (mem', events) := DiffItems(mem, items, emitUser);
            var (mem'', more) := DiffItem(mem', item, emitUser);
            DiffItems(mem, items + [item], emitUser) == (mem'', events + more)
  {
    assert (items + [item])[..|items|] == items;
  }

  /** The index finds every collected turn. */
  ghost predicate Indexes(index: map<string, nat>, turns: seq<Turn>) {
    && (forall a :: a in index <==> TurnIndex(turns, a) < |turns|)
    && (forall a | a in index :: index[a] == TurnIndex(turns, a))
  }

  /** The turn of an anchor, created if it is new. */
  method FindTurn(turns: seq<Turn>, index: map<string, nat>, anchor: string, startedAt: int)
    returns (turns': seq<Turn>, index': map<string, nat>)
    requires Indexes(index, turns)
    ensures Indexes(index', turns') && anchor in index' && index'[anchor] == TurnIndex(turns, anchor)
    ensures turns' == if TurnIndex(turns, anchor) < |turns| then turns
      else turns + [Turn(anchor, startedAt, false, false, false)]
  {
    turns', index' := turns, index;
    if anchor !in index {
      AppendedIndex(turns, Turn(anchor, startedAt, false, false, false));
      index' := index[anchor := |turns|];
      turns' := turns + [Turn(anchor, startedAt, false, false, false)];
    }
  }

  method AddEvidence(turns: seq<Turn>, ghost index: map<string, nat>, k: nat, m: Message) returns (turns': seq<Turn>)
    requires k < |turns| && Indexes(index, turns)
    ensures turns' == turns[k := Evidence(turns[k], m)] && Indexes(index, turns')
  {
    UpdatedIndex(turns, k, Evidence(turns[k], m));
    turns' := turns;
    if m.role.Assistant? {
      if m.error != "" {
        turns' := turns[k := turns[k].(failed := true)];
      } else if m.completed > 0 {
        turns' := turns[k := turns[k].(completed := true)];
      } else {
        turns' := turns[k := turns[k].(running := true)];
      }
    }
  }

  /** Collect the turns of a sorted snapshot, with an index from anchors to turns. */
  method CollectTurns(ordered: seq<Message>) returns (turns: seq<Turn>)
    ensures turns == WalkTurns(ordered).turns
  {
    turns := [];
    var index: map<string, nat> := map[];
    var currentAnchor, currentStartedAt := "", 0;
    for i := 0 to |ordered|
      invariant Walk(turns, currentAnchor, currentStartedAt) == WalkTurns(ordered[..i])
      invariant Indexes(index, turns)
    {
      var m := ordered[i];
      assert ordered[..i + 1][..i] == ordered[..i];
      if m.role.User? && m.id != "" {
        currentAnchor := m.id;
        currentStartedAt := m.created;
      }
      var anchor := if m.role.User? then m.id else currentAnchor;
      if anchor != "" {
        turns, index := FindTurn(turns, index, anchor, currentStartedAt);
        turns := AddEvidence(turns, index, index[anchor], m);
      }
    }
    assert ordered[..|ordered|] == ordered;
  }

  lemma AppendedIndex(turns: seq<Turn>, t: Turn)
    requires TurnIndex(turns, t.anchor) == |turns|
    ensures forall a ::
      TurnIndex(turns + [t], a) == if a == t.anchor then |turns|
        else if TurnIndex(turns, a) < |turns| then TurnIndex(turns, a) else |turns| + 1
  {
    forall a ensures TurnIndex(turns + [t], a) == if a == t.anchor then |turns|
      else if TurnIndex(turns, a) < |turns| then TurnIndex(turns, a) else |turns| + 1 {
      AppendedIndexAt(turns, t, a);
    }
  }

  lemma {:induction false} AppendedIndexAt(turns: seq<Turn>, t: Turn, a: string)
    ensures TurnIndex(turns + [t], a)
         == if TurnIndex(turns, a) < |turns| then TurnIndex(turns, a) else if a == t.anchor then |turns|
           else |turns| + 1
  {
    if turns != [] {
      assert (turns + [t])[1..] == turns[1..] + [t];
      AppendedIndexAt(turns[1..], t, a);
    }
  }

  lemma UpdatedIndex(turns: seq<Turn>, k: nat, t: Turn)
    requires k < |turns| && t.anchor == turns[k].anchor
    ensures forall a :: TurnIndex(turns[k := t], a) == TurnIndex(turns, a)
  {
    forall a ensures TurnIndex(turns[k := t], a) == TurnIndex(turns, a) {
      SameAnchorsSameIndex(turns, turns[k := t], a);
    }
  }

  lemma {:induction false} SameAnchorsSameIndex(turns: seq<Turn>, turns': seq<Turn>, a: string)
    requires |turns| == |turns'| && forall i | 0 <= i < |turns| :: turns[i].anchor == turns'[i].anchor
    ensures TurnIndex(turns, a) == TurnIndex(turns', a)
  {
    if turns != [] {
      SameAnchorsSameIndex(turns[1..], turns'[1..], a);
    }
  }

  /** Each turn's first and last content event. */
  ghost predicate Extents(content: seq<Event>, n: nat, first: map<string, nat>, last: map<string, nat>)
    requires n <= |content|
  {
    && first.Keys == last.Keys
    && (forall a | a in first ::
      a != "" && first[a] <= last[a] < n && AnchorOf(content[first[a]]) == AnchorOf(content[last[a]]) == a)
    && (forall j | 0 <= j < n && AnchorOf(content[j]) != "" ::
          AnchorOf(content[j]) in first && first[AnchorOf(content[j])] <= j <= last[AnchorOf(content[j])])
  }

  method FindExtents(content: seq<Event>) returns (first: map<string, nat>, last: map<string, nat>)
    ensures Extents(content, |content|, first, last)
  {
    first, last := map[], map[];
    for i := 0 to |content|
      invariant Extents(content, i, first, last)
    {
      var anchor := AnchorOf(content[i]);
      ExtentsGrow(content, i, first, last);
      if anchor != "" {
        if anchor !in first {
          first := first[anchor := i];
        }
        last := last[anchor := i];
      }
    }
  }

  lemma ExtentsGrow(content: seq<Event>, i: nat, first: map<string, nat>, last: map<string, nat>)
    requires i < |content| && Extents(content, i, first, last)
    ensures var a := AnchorOf(content[i]);
            if a == "" then Extents(content, i + 1, first, last)
            else Extents(content, i + 1, if a in first then first else first[a := i], last[a := i])
  {
  }

  lemma ExtentsMeanFirstAndLast(content: seq<Event>, first: map<string, nat>, last: map<string, nat>, i: nat)
    requires Extents(content, |content|, first, last) && i < |content| && AnchorOf(content[i]) != ""
    ensures AnchorOf(content[i]) in first
    ensures IsFirst(content, i) <==> first[AnchorOf(content[i])] == i
    ensures IsLast(content, i) <==> last[AnchorOf(content[i])] == i
  {
    var a := AnchorOf(content[i]);
    assert AnchorOf(content[first[a]]) == a && AnchorOf(content[last[a]]) == a;
  }

  /** A content event with the turn event it brings, and whether it brought one. */
  method WeaveOne(
    content: seq<Event>, i: nat, events: map<string, Event>, first: map<string, nat>, last: map<string, nat>,
    ghost order: seq<string>, ghost lifecycle: seq<Event>)
    returns (block: seq<Event>, brought: bool)
    requires i < |content| && Extents(content, |content|, first, last)
    requires Represents(events, order, lifecycle) && IsLifecycle(lifecycle)
    ensures block == Around(content, lifecycle, i)
    ensures var a := AnchorOf(content[i]);
            brought <==>
              a in events && a in first && (if IsTerminal(events[a].state) then last[a] == i else first[a] == i)
  {
    var anchor := AnchorOf(content[i]);
    RepresentsLookup(events, order, lifecycle, anchor);
    block, brought := [], false;
    if anchor in events {
      ExtentsMeanFirstAndLast(content, first, last, i);
      if !IsTerminal(events[anchor].state) && first[anchor] == i {
        block, brought := block + [events[anchor]], true;
      }
    }
    block := block + [content[i]];
    if anchor in events && IsTerminal(events[anchor].state) && last[anchor] == i {
      block, brought := block + [events[anchor]], true;
    }
  }

  /** The turn events whose content has gone by. */
  ghost predicate Brought(
    content: seq<Event>, events: map<string, Event>, first: map<string, nat>, last: map<string, nat>,
    n: nat, emitted: set<string>)
    requires Extents(content, |content|, first, last)
    requires forall a | a in events :: events[a].TurnEvent?
  {
    forall a ::
      a in emitted <==>
        a in events && a in first && (if IsTerminal(events[a].state) then last[a] < n else first[a] < n)
  }

  method WeaveContent(
    content: seq<Event>, events: map<string, Event>, first: map<string, nat>, last: map<string, nat>,
    ghost order: seq<string>, ghost lifecycle: seq<Event>)
    returns (woven: seq<Event>, emitted: set<string>)
    requires Extents(content, |content|, first, last)
    requires Represents(events, order, lifecycle) && IsLifecycle(lifecycle)
    requires forall a | a in events :: events[a].TurnEvent?
    ensures woven == Flatten(Blocks(content, lifecycle))
    ensures Brought(content, events, first, last, |content|, emitted)
  {
    ghost var blocks := Blocks(content, lifecycle);
    woven, emitted := [], {};
    for i := 0 to |content|
      invariant woven == Flatten(blocks[..i])
      invariant Brought(content, events, first, last, i, emitted)
    {
      var block, brought := WeaveOne(content, i, events, first, last, order, lifecycle);
      FlattenGrows(blocks, i);
      woven := woven + block;
      BroughtNext(content, events, first, last, i, emitted, brought);
      if brought {
        emitted := emitted + {AnchorOf(content[i])};
      }
    }
    assert blocks[..|content|] == blocks;
  }

  lemma BroughtNext(
    content: seq<Event>, events: map<string, Event>, first: map<string, nat>, last: map<string, nat>, i: nat,
    emitted: set<string>, brought: bool)
    requires i < |content| && Extents(content, |content|, first, last)
    requires forall a | a in events :: events[a].TurnEvent?
    requires Brought(content, events, first, last, i, emitted)
    requires var a := AnchorOf(content[i]);
             brought <==>
               a in events && a in first && (if IsTerminal(events[a].state) then last[a] == i else first[a] == i)
    ensures Brought(content, events, first, last, i + 1, if brought then emitted + {AnchorOf(content[i])} else emitted)
  {
    var emitted' := if brought then emitted + {AnchorOf(content[i])} else emitted;
    forall a
      ensures a in emitted' <==>
        a in events && a in first && (if IsTerminal(events[a].state) then last[a] < i + 1 else first[a] < i + 1)
    {
      if a in first && (first[a] == i || last[a] == i) {
        assert AnchorOf(content[i]) == a;
      }
    }
  }

  lemma FlattenGrows(blocks: seq<seq<Event>>, i: nat)
    requires i < |blocks|
    ensures Flatten(blocks[..i + 1]) == Flatten(blocks[..i]) + blocks[i]
  {
    assert blocks[..i + 1][..i] == blocks[..i];
  }

  /** Weave with the positions of each turn's first and last content event. */
  method WeaveEvents(content: seq<Event>, events: map<string, Event>, order: seq<string>, ghost lifecycle: seq<Event>)
    returns (woven: seq<Event>)
    requires Represents(events, order, lifecycle) && IsLifecycle(lifecycle)
    ensures woven == Weave(content, lifecycle)
  {
    RepresentsTurns(events, order, lifecycle);
    var first, last := FindExtents(content);
    var emitted;
    woven, emitted := WeaveContent(content, events, first, last, order, lifecycle);
    forall a | a in events ensures a in emitted <==> HasContent(content, a) {
      ExtentsMeanContent(content, first, last, a);
    }
    var rest := AppendLeftover(content, events, order, emitted, lifecycle);
    woven := woven + rest;
  }

  lemma RepresentsTurns(events: map<string, Event>, order: seq<string>, lifecycle: seq<Event>)
    requires Represents(events, order, lifecycle) && IsLifecycle(lifecycle)
    ensures forall a | a in events :: a != "" && events[a].TurnEvent?
  {
    forall a | a in events ensures a != "" && events[a].TurnEvent? {
      var i :| 0 <= i < |order| && order[i] == a;
    }
  }

  lemma ExtentsMeanContent(content: seq<Event>, first: map<string, nat>, last: map<string, nat>, a: string)
    requires Extents(content, |content|, first, last) && a != ""
    ensures a in first <==> HasContent(content, a)
  {
    if HasContent(content, a) {
      var j :| 0 <= j < |content| && AnchorOf(content[j]) == a;
    }
  }

  /** The turn events nothing has brought, in order. */
  method AppendLeftover(content: seq<Event>, events: map<string, Event>, order: seq<string>, emitted: set<string>,
      ghost lifecycle: seq<Event>)
    returns (rest: seq<Event>)
    requires Represents(events, order, lifecycle)
    requires forall a | a in events :: a in emitted <==> HasContent(content, a)
    ensures rest == Leftover(content, lifecycle)
  {
    rest := [];
    for k := 0 to |order|
      invariant rest == Leftover(content, lifecycle[..k])
    {
      assert lifecycle[..k + 1][..k] == lifecycle[..k];
      if order[k] !in emitted {
        rest := rest + [events[order[k]]];
      }
    }
    assert lifecycle[..|order|] == lifecycle;
  }

  lemma NoItems(mem: Memory, emitUser: bool)
    ensures DiffItems(mem, [], emitUser) == (mem, [])
  {
  }

  lemma {:induction false} DiffItemsConcat(mem: Memory, a: seq<Item>, b: seq<Item>, emitUser: bool)
    ensures var (mem', events) := DiffItems(mem, a, emitUser);
            var (mem'', more) := DiffItems(mem', b, emitUser);
            DiffItems(mem, a + b, emitUser) == (mem'', events + more)
  {
    hide DiffItems, DiffItem;
    if b == [] {
      NoItems(DiffItems(mem, a, emitUser).0, emitUser);
      assert a + b == a;
      assert DiffItems(mem, a, emitUser).1 + [] == DiffItems(mem, a, emitUser).1;
    } else {
      var n := |b| - 1;
      DiffItemsConcat(mem, a, b[..n], emitUser);
      assert a + b == (a + b[..n]) + [b[n]];
      ItemAppended(mem, a + b[..n], b[n], emitUser);
      var (mem', events) := DiffItems(mem, a, emitUser);
      ItemAppended(mem', b[..n], b[n], emitUser);
      assert b[..n] + [b[n]] == b;
      var (mem'', more) := DiffItems(mem', b[..n], emitUser);
      var last := DiffItem(mem'', b[n], emitUser).1;
      assert events + more + last == events + (more + last);
    }
  }

  lemma ItemsGrow(ordered: seq<Message>, i: nat)
    requires i < |ordered|
    ensures LastAnchor(ordered[..i + 1]) == MessageAnchor(LastAnchor(ordered[..i]), ordered[i])
    ensures Items(ordered[..i + 1]) == Items(ordered[..i]) + MessageItems(ordered[i], LastAnchor(ordered[..i + 1]))
  {
    assert ordered[..i + 1][..i] == ordered[..i];
    assert ordered[..i + 1][..i + 1] == ordered[..i + 1];
  }

  /** The latest time an assistant message completed, 0 if none has. */
  method LatestCompletedAssistant(ordered: seq<Message>) returns (latest: int)
    ensures latest == LatestCompleted(ordered)
    ensures forall i | 0 <= i < |ordered| && ordered[i].role.Assistant? :: ordered[i].completed <= latest
    ensures latest == 0 || exists i | 0 <= i < |ordered| ::
      ordered[i].role.Assistant? && ordered[i].completed == latest > 0
  {
    latest := 0;
    for i := 0 to |ordered|
      invariant latest == LatestCompleted(ordered[..i])
      invariant forall j | 0 <= j < i && ordered[j].role.Assistant? :: ordered[j].completed <= latest
      invariant latest == 0 || exists j | 0 <= j < i :: ordered[j].role.Assistant? && ordered[j].completed == latest > 0
    {
      assert ordered[..i + 1][..i] == ordered[..i];
      if ordered[i].role.Assistant? && ordered[i].completed > latest {
        latest := ordered[i].completed;
      }
    }
    assert ordered[..|ordered|] == ordered;
  }

  class Sync {
    const emitUser: bool
    var textState: map<string, TextState>
    var partState: map<string, PartState>
    var messageErrors: map<string, string>
    var turnEmitted: map<string, TurnState>
    var lastStatus: Option<Status>
    var lastCompletedAt: int
    var seededCompletion: bool

    ghost function MemoryView(): Memory
      reads this
    {
      Memory(textState, partState, messageErrors)
    }

    ghost function View(): State
      reads this
    {
      State(MemoryView(), turnEmitted, lastStatus, lastCompletedAt, seededCompletion)
    }

    constructor (emitUser: bool)
      ensures View() == FRESH && this.emitUser == emitUser
    {
      this.emitUser := emitUser;
      textState, partState, messageErrors, turnEmitted := map[], map[], map[], map[];
      lastStatus, lastCompletedAt, seededCompletion := None, 0, false;
    }

    method DiffTextPart(item: Item) returns (ev: Option<Event>)
      requires item.PartItem? && IsText(item.part.body)
      modifies this`textState
      ensures (textState, ev) == DiffText(old(textState), item)
    {
      var id, text := item.part.id, item.part.body.text;
      if TrimSpace(text) == "" || id == "" {
        return None;
      }
      var seen := id in textState;
      var state := if seen then textState[id] else TextState("", 0, false, NoId);
      if seen && state.text == text && (!item.final || state.finalized) {
        return None;
      }
      var kind := if item.role.User? then UserText else if item.part.body.ReasoningBody? then AgentReasoning
        else AgentText;
      var eventId := TextEventId(item);
      var delta, replace := text, false;
      if seen {
        if item.final || !(state.text <= text) {
          replace := true;
        } else {
          delta := text[|state.text|..];
        }
      }
      ev := Some(TextEvent(kind, id, item.part.messageId, item.model, delta, text,
        item.role.Assistant? && !item.final, replace, state.revision + 1, eventId, state.eventId, item.anchor));
      textState := textState[id := TextState(text, state.revision + 1, item.final, eventId)];
    }

    /** Remember and report what is new about one item. */
    method DiffOne(item: Item) returns (events: seq<Event>)
      modifies this`textState, this`partState, this`messageErrors
      ensures (MemoryView(), events) == DiffItem(old(MemoryView()), item, emitUser)
    {
      events := [];
      match item
      case ErrorItem(id, error, anchor) =>
        if !(id in messageErrors && messageErrors[id] == error) {
          messageErrors := messageErrors[id := error];
          events := [ErrorEvent(id, error, anchor)];
        }
      case PartItem(part, role, model, final, anchor) =>
        if IsText(part.body) {
          var ev := DiffTextPart(item);
          if ev.Some? && (!ev.value.kind.UserText? || emitUser) {
            events := [ev.value];
          }
        } else if !(part.id in partState && partState[part.id].marker == part) {
          var previous := if part.id in partState then partState[part.id].eventId else NoId;
          var payloads := Convert(part.body);
          var emittedEventId := NoId;
          if payloads != [] {
            emittedEventId := PartEventId(part, payloads[0]);
            events := [PartEvent(part.id, payloads[0], emittedEventId, previous, anchor)];
          }
          partState := partState[part.id := PartState(part, emittedEventId)];
        }
    }

    /** One message of the content pass: its error, then its parts. */
    method MessagePass(m: Message, anchor: string) returns (out: seq<Event>)
      modifies this`textState, this`partState, this`messageErrors
      ensures (MemoryView(), out) == DiffItems(old(MemoryView()), MessageItems(m, anchor), emitUser)
    {
      hide DiffItems, DiffItem;
      out := [];
      NoItems(old(MemoryView()), emitUser);
      ghost var done: seq<Item> := [];
      if m.role.Assistant? && m.error != "" {
        ItemAppended(old(MemoryView()), [], ErrorItem(m.id, m.error, anchor), emitUser);
        out := DiffOne(ErrorItem(m.id, m.error, anchor));
        done := [ErrorItem(m.id, m.error, anchor)];
        assert [] + done == done;
        assert [] + out == out;
      }
      assert done + PartItems(m, anchor, m.parts[..0]) == done;
      for j := 0 to |m.parts|
        invariant (MemoryView(), out)
          == DiffItems(old(MemoryView()), done + PartItems(m, anchor, m.parts[..j]), emitUser)
      {
        ghost var before := done + PartItems(m, anchor, m.parts[..j]);
        var item := ItemOf(m, anchor, m.parts[j]);
        ItemAppended(old(MemoryView()), before, item, emitUser);
        var events := DiffOne(item);
        out := out + events;
        assert m.parts[..j + 1][..j] == m.parts[..j];
        assert before + [item] == done + PartItems(m, anchor, m.parts[..j + 1]);
      }
      assert m.parts[..|m.parts|] == m.parts;
    }

    method ContentPass(ordered: seq<Message>) returns (out: seq<Event>)
      modifies this`textState, this`partState, this`messageErrors
      ensures (MemoryView(), out) == DiffItems(old(MemoryView()), Items(ordered), emitUser)
    {
      out := [];
      var currentAnchor := "";
      for i := 0 to |ordered|
        invariant currentAnchor == LastAnchor(ordered[..i])
        invariant (MemoryView(), out) == DiffItems(old(MemoryView()), Items(ordered[..i]), emitUser)
      {
        var m := ordered[i];
        ItemsGrow(ordered, i);
        if m.role.User? && m.id != "" {
          currentAnchor := m.id;
        }
        DiffItemsConcat(old(MemoryView()), Items(ordered[..i]), MessageItems(m, currentAnchor), emitUser);
        var events := MessagePass(m, currentAnchor);
        out := out + events;
      }
      assert ordered[..|ordered|] == ordered;
    }

    method AnnounceTurns(turns: seq<Turn>)
        returns (events: map<string, Event>, order: seq<string>, ghost lifecycle: seq<Event>)
      requires GoodTurns(turns)
      modifies this`turnEmitted
      ensures (turnEmitted, lifecycle) == Announce(old(turnEmitted), turns)
      ensures Represents(events, order, lifecycle) && IsLifecycle(lifecycle)
    {
      events, order, lifecycle := map[], [], [];
      for i := 0 to |turns|
        invariant (turnEmitted, lifecycle) == Announce(old(turnEmitted), turns[..i])
        invariant Represents(events, order, lifecycle)
        invariant forall a | a in order :: exists j | 0 <= j < i :: turns[j].anchor == a
      {
        assert turns[..i + 1][..i] == turns[..i];
        var turn := turns[i];
        var state := StateOf(turn);
        if !(turn.anchor in turnEmitted
          && (turnEmitted[turn.anchor] == state || IsTerminal(turnEmitted[turn.anchor]))) {
          assert turn.anchor !in order;
          turnEmitted := turnEmitted[turn.anchor := state];
          events := events[turn.anchor := TurnEventOf(turn)];
          order := order + [turn.anchor];
          lifecycle := lifecycle + [TurnEventOf(turn)];
        }
      }
      assert turns[..|turns|] == turns;
      AnnounceOne(old(turnEmitted), turns, "");
    }

    /** Report the session's status if it changed, or a turn completed between two polls. */
    method ReportStatus(ordered: seq<Message>, native: Option<Native>) returns (out: seq<Event>)
      modifies this`lastStatus, this`lastCompletedAt, this`seededCompletion
      ensures var status, completedAt := CurrentStatus(ordered, native), LatestCompleted(ordered);
              var reports := ReportsStatus(old(View()), status, completedAt);
              && out == (if reports then [StatusEvent(status.value)] else [])
              && lastStatus == (if reports then status else old(lastStatus))
              && lastCompletedAt == (if completedAt > old(lastCompletedAt) then completedAt else old(lastCompletedAt))
              && seededCompletion
    {
      var status := CurrentStatus(ordered, native);
      var completedAt := LatestCompletedAssistant(ordered);
      out := [];
      if status.Some? && lastStatus != status {
        lastStatus := status;
        out := [StatusEvent(status.value)];
      } else if seededCompletion && completedAt > lastCompletedAt && status.Some? && IsIdle(status.value) {
        lastStatus := status;
        out := [StatusEvent(status.value)];
      }
      if completedAt > lastCompletedAt {
        lastCompletedAt := completedAt;
      }
      seededCompletion := true;
    }

    /** One poll: everything new or changed since the last snapshot. */
    method DiffWithNativeStatus(msgs: seq<Message>, native: Option<Native>) returns (out: seq<Event>)
      modifies this
      ensures (View(), out) == Diff(old(View()), msgs, native, emitUser)
    {
      hide DiffItems, WalkTurns, Announce, Weave, Items, SortByCreated, LatestCompleted, GoodTurns;
      var ordered := SortByCreated(msgs);
      var turns := CollectTurns(ordered);
      WalkIsGood(ordered);
      var events, order, lifecycle := AnnounceTurns(turns);
      var content := ContentPass(ordered);
      var woven := WeaveEvents(content, events, order, lifecycle);
      var status := ReportStatus(ordered, native);
      out := woven + status;
    }
  }
}
