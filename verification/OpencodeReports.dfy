/**
 What a client sees of tools, errors and the session's status, and where every event of a poll
 comes from.

 A client that keeps, of every part, the last thing it was shown, of every message the last
 error, and of the session the last status, holds after every poll what the snapshots show.
 */
module OpencodeReports {
  import opened Common
  import opened OpencodeModel
  import opened OpencodeWeaving
  import opened OpencodeRuns
  import opened OpencodeTurns

  // ---------------------------------------------------------------- what the snapshots show

  /** What a part that is not text shows: a tool call while it runs, its output or error when it
      is done, the tokens of a finished step, a structured part as it is, and nothing else. */
  predicate ShowsPart(body: Body, p: Payload) {
    match p
    case ToolCall(callId, tool, input) =>
      && body.ToolBody? && body.callId == callId && body.tool == tool && body.state.Some?
      && body.state.value.status != "completed" && body.state.value.status != "error"
      && body.state.value.input == input
    case ToolResult(callId, output, error) =>
      && body.ToolBody? && body.callId == callId && body.state.Some?
      && if body.state.value.status == "completed" then output == body.state.value.output && error == ""
         else
           && body.state.value.status == "error" && error == body.state.value.error
           && output == if body.state.value.output != "" then body.state.value.output else error
    case Usage(tokens) => body == StepFinish(Some(tokens))
    case Surfaced(kind, payload) => body == Structured(kind, payload)
  }

  lemma ConvertShows(body: Body)
    ensures |Convert(body)| <= 1
    ensures forall p :: ShowsPart(body, p) <==> Convert(body) == [p]
  {
  }

  /** What a client keeps. */
  datatype Kept = Kept(parts: map<string, Payload>, errors: map<string, string>, status: Option<Status>)

  const NOTHING := Kept(map[], map[], None)

  function Keep(kept: Kept, ev: Event): Kept {
    match ev
    case PartEvent(id, payload, _, _, _) => kept.(parts := kept.parts[id := payload])
    case ErrorEvent(id, error, _) => kept.(errors := kept.errors[id := error])
    case StatusEvent(status) => kept.(status := Some(status))
    case _ => kept
  }

  function KeepAll(kept: Kept, events: seq<Event>): Kept {
    if events == [] then kept else Keep(KeepAll(kept, events[..|events| - 1]), events[|events| - 1])
  }

  lemma {:induction false} KeepConcat(kept: Kept, a: seq<Event>, b: seq<Event>)
    ensures KeepAll(kept, a + b) == KeepAll(KeepAll(kept, a), b)
  {
    hide Keep;
    if b == [] {
      assert a + b == a;
    } else {
      var n := |b| - 1;
      assert (a + b)[..|a + b| - 1] == a + b[..n];
      KeepConcat(kept, a, b[..n]);
    }
  }

  lemma KeepOne(kept: Kept, ev: Event)
    ensures KeepAll(kept, [ev]) == Keep(kept, ev)
  {
    assert [ev][..0] == [];
  }

  lemma {:induction false} KeepStripped(kept: Kept, events: seq<Event>)
    ensures KeepAll(kept, Strip(events)) == KeepAll(kept, events)
  {
    if events != [] {
      var n := |events| - 1;
      KeepStripped(kept, events[..n]);
      if !events[n].TurnEvent? {
        KeepConcat(kept, Strip(events[..n]), [events[n]]);
        KeepOne(KeepAll(kept, Strip(events[..n])), events[n]);
      } else {
        assert Strip(events) == Strip(events[..n]);
      }
    }
  }

  /** The latest of everything the content of the snapshots showed. */
  function LatestItem(kept: Kept, item: Item): Kept {
    match item
    case ErrorItem(id, error, _) => kept.(errors := kept.errors[id := error])
    case PartItem(part, _, _, _, _) =>
      if IsText(part.body) || Convert(part.body) == [] then kept
      else kept.(parts := kept.parts[part.id := Convert(part.body)[0]])
  }

  function LatestItems(kept: Kept, items: seq<Item>): Kept {
    if items == [] then kept else LatestItem(LatestItems(kept, items[..|items| - 1]), items[|items| - 1])
  }

  // ---------------------------------------------------------------- one item

  /** The client has what the differ remembers to have shown. */
  ghost predicate Agrees(mem: Memory, kept: Kept) {
    && kept.errors == mem.errors
    && forall id | id in mem.parts && Convert(mem.parts[id].marker.body) != [] ::
         id in kept.parts && kept.parts[id] == Convert(mem.parts[id].marker.body)[0]
  }

  lemma ItemKeeps(mem: Memory, item: Item, emitUser: bool, kept: Kept)
    requires Agrees(mem, kept)
    ensures var (mem', events) := DiffItem(mem, item, emitUser);
            KeepAll(kept, events) == LatestItem(kept, item) && Agrees(mem', LatestItem(kept, item))
  {
    hide DiffText, Convert;
    var (mem', events) := DiffItem(mem, item, emitUser);
    if |events| == 1 {
      assert events == [events[0]];
      KeepOne(kept, events[0]);
    }
    TextIsText(mem, item);
    if item.ErrorItem? {
      assert item.messageId in mem.errors && mem.errors[item.messageId] == item.error ==>
        mem.errors[item.messageId := item.error] == mem.errors;
    } else if !IsText(item.part.body) {
      PartKeeps(mem.parts, item, kept.parts);
    }
  }

  lemma TextIsText(mem: Memory, item: Item)
    ensures item.PartItem? && IsText(item.part.body) && DiffText(mem.texts, item).1.Some? ==>
      DiffText(mem.texts, item).1.value.TextEvent?
  {
  }

  lemma PartKeeps(parts: map<string, PartState>, item: Item, shown: map<string, Payload>)
    requires item.PartItem? && !IsText(item.part.body)
    requires forall id | id in parts && Convert(parts[id].marker.body) != [] ::
      id in shown && shown[id] == Convert(parts[id].marker.body)[0]
    ensures var (parts', events) := DiffPart(parts, item);
            var id := item.part.id;
            && |events| <= 1
            && (events == [] && Convert(item.part.body) != [] ==>
                  id in shown && shown[id] == Convert(item.part.body)[0])
            && (events != [] ==> Convert(item.part.body) != [] && events[0].PartEvent?
                                 && events[0].partId == id && events[0].payload == Convert(item.part.body)[0])
            && (forall d | d in parts' && d != id :: d in parts && parts'[d] == parts[d])
            && id in parts' && parts'[id].marker == item.part
  {
    hide Convert;
  }

  lemma {:induction false} ItemsKeep(mem: Memory, items: seq<Item>, emitUser: bool, kept: Kept)
    requires Agrees(mem, kept)
    ensures var (mem', events) := DiffItems(mem, items, emitUser);
            KeepAll(kept, events) == LatestItems(kept, items) && Agrees(mem', LatestItems(kept, items))
  {
    hide DiffItem, LatestItem, Agrees;
    if items != [] {
      var n := |items| - 1;
      var (mem', events) := DiffItems(mem, items[..n], emitUser);
      ItemsKeep(mem, items[..n], emitUser, kept);
      ItemKeeps(mem', items[n], emitUser, LatestItems(kept, items[..n]));
      KeepConcat(kept, events, DiffItem(mem', items[n], emitUser).1);
    }
  }

  // ---------------------------------------------------------------- the status

  /** The message created last; of several, the last one in the snapshot. */
  ghost predicate IsLatest(msgs: seq<Message>, k: nat) {
    && k < |msgs|
    && (forall j | 0 <= j < k :: msgs[j].created <= msgs[k].created)
    && (forall j | k < j < |msgs| :: msgs[j].created < msgs[k].created)
  }

  /** The status a poll shows: the native one if there is one that is known; otherwise running if
      the latest message is an assistant's that is not complete, idle if it is another, and
      none without messages. */
  ghost predicate ShowsStatus(poll: Poll, status: Option<Status>) {
    if poll.native.Some? && !poll.native.value.kind.NativeOther? then status == Some(StatusNative(poll.native.value))
    else if poll.msgs == [] then status == None
    else exists k: nat :: IsLatest(poll.msgs, k) && status == Some(MessageStatus(poll.msgs[k]))
  }

  function MessageStatus(m: Message): Status {
    if m.role.Assistant? && m.completed == 0 then StatusRunning else StatusIdle
  }

  lemma {:induction false} InsertLast(sorted: seq<Message>, m: Message)
    ensures |Insert(sorted, m)| == |sorted| + 1
    ensures Insert(sorted, m)[|sorted|] ==
      if sorted == [] || sorted[|sorted| - 1].created <= m.created then m else sorted[|sorted| - 1]
  {
    if sorted != [] && sorted[|sorted| - 1].created > m.created {
      InsertLast(sorted[..|sorted| - 1], m);
    }
  }

  lemma {:induction false} LastIsLatest(msgs: seq<Message>) returns (k: nat)
    requires msgs != []
    ensures IsLatest(msgs, k) && |SortByCreated(msgs)| == |msgs| && SortByCreated(msgs)[|msgs| - 1] == msgs[k]
  {
    hide Insert;
    var n := |msgs| - 1;
    var front := msgs[..n];
    InsertLast(SortByCreated(front), msgs[n]);
    if n == 0 {
      assert SortByCreated(front) == [];
      k := 0;
    } else {
      var j := LastIsLatest(front);
      k := if front[j].created <= msgs[n].created then n else j;
    }
  }

  lemma StatusIsShown(poll: Poll)
    ensures ShowsStatus(poll, CurrentStatus(SortByCreated(poll.msgs), poll.native))
  {
    hide SortByCreated;
    if poll.msgs != [] {
      var k := LastIsLatest(poll.msgs);
    } else {
      NothingSorted();
    }
  }

  lemma NothingSorted()
    ensures SortByCreated([]) == []
  {
  }

  /** The latest status the polls showed, if any showed one. */
  function LatestStatus(polls: seq<Poll>): Option<Status> {
    if polls == [] then None
    else
      var poll := polls[|polls| - 1];
      var status := CurrentStatus(SortByCreated(poll.msgs), poll.native);
      if status.Some? then status else LatestStatus(polls[..|polls| - 1])
  }

  // ---------------------------------------------------------------- runs

  /** The latest of everything the polls showed. */
  function LatestOf(polls: seq<Poll>): Kept {
    if polls == [] then NOTHING
    else
      var n := |polls| - 1;
      LatestItems(LatestOf(polls[..n]), Items(SortByCreated(polls[n].msgs))).(status := LatestStatus(polls))
  }

  lemma {:induction false} StatusAside(kept: Kept, items: seq<Item>, status: Option<Status>)
    ensures LatestItems(kept.(status := status), items) == LatestItems(kept, items).(status := status)
    ensures LatestItems(kept, items).status == kept.status
  {
    hide Convert;
    if items != [] {
      StatusAside(kept, items[..|items| - 1], status);
    }
  }

  lemma PollKeeps(content: seq<Event>, lifecycle: seq<Event>, status: seq<Event>, kept: Kept)
    requires IsLifecycle(lifecycle) && forall i | 0 <= i < |content| :: IsContent(content[i])
    ensures KeepAll(kept, Weave(content, lifecycle) + status) == KeepAll(KeepAll(kept, content), status)
  {
    hide *;
    WeavePreservesContent(content, lifecycle);
    KeepStripped(kept, Weave(content, lifecycle));
    KeepConcat(kept, Weave(content, lifecycle), status);
  }

  lemma StatusStep(s: State, poll: Poll, emitUser: bool, kept: Kept)
    requires kept.status == s.lastStatus
    ensures var status := CurrentStatus(SortByCreated(poll.msgs), poll.native);
            var reports := ReportsStatus(s, status, LatestCompleted(SortByCreated(poll.msgs)));
            var s' := Diff(s, poll.msgs, poll.native, emitUser).0;
            && s'.lastStatus == (if status.Some? then status else s.lastStatus)
            && KeepAll(kept, if reports then [StatusEvent(status.value)] else []) == kept.(status := s'.lastStatus)
  {
    hide Announce, WalkTurns, DiffItems, Items, SortByCreated, LatestCompleted, CurrentStatus, Weave;
    var status := CurrentStatus(SortByCreated(poll.msgs), poll.native);
    if status.Some? {
      KeepOne(kept, StatusEvent(status.value));
    }
    assert KeepAll(kept, []) == kept;
  }

  lemma PollStep(s: State, poll: Poll, emitUser: bool, kept: Kept)
    requires Agrees(s.memory, kept) && kept.status == s.lastStatus
    ensures var (s', events) := Diff(s, poll.msgs, poll.native, emitUser);
            var ordered := SortByCreated(poll.msgs);
            var status := CurrentStatus(ordered, poll.native);
            var kept' := LatestItems(kept, Items(ordered)).(status := if status.Some? then status else kept.status);
            KeepAll(kept, events) == kept' && Agrees(s'.memory, kept') && kept'.status == s'.lastStatus
  {
    hide Announce, WalkTurns, DiffItems, Items, SortByCreated, LatestCompleted, CurrentStatus, Weave, KeepAll,
      LatestItems, IsLifecycle, Convert;
    var ordered := SortByCreated(poll.msgs);
    var items := Items(ordered);
    var content := DiffItems(s.memory, items, emitUser).1;
    var lifecycle := Announce(s.turns, WalkTurns(ordered).turns).1;
    var o, l, c, st := PollParts(s, poll, emitUser);
    ItemsKeep(s.memory, items, emitUser, kept);
    StatusAside(kept, items, None);
    StatusStep(s, poll, emitUser, LatestItems(kept, items));
    var status := CurrentStatus(ordered, poll.native);
    var reports := ReportsStatus(s, status, LatestCompleted(ordered));
    PollKeeps(content, lifecycle, if reports then [StatusEvent(status.value)] else [], kept);
  }

  lemma {:induction false} RunKeeps(polls: seq<Poll>, emitUser: bool)
    ensures KeepAll(NOTHING, Run(polls, emitUser).1) == LatestOf(polls)
    ensures Agrees(Run(polls, emitUser).0.memory, LatestOf(polls))
    ensures LatestOf(polls).status == Run(polls, emitUser).0.lastStatus == LatestStatus(polls)
  {
    hide Diff, Items, SortByCreated, CurrentStatus, LatestItems, Keep;
    if polls == [] {
      NothingKept(emitUser);
    } else {
      var n := |polls| - 1;
      var (s, log) := Run(polls[..n], emitUser);
      RunKeeps(polls[..n], emitUser);
      PollStep(s, polls[n], emitUser, LatestOf(polls[..n]));
      KeepConcat(NOTHING, log, Diff(s, polls[n].msgs, polls[n].native, emitUser).1);
    }
  }

  lemma NothingKept(emitUser: bool)
    ensures KeepAll(NOTHING, Run([], emitUser).1) == NOTHING && Agrees(Run([], emitUser).0.memory, NOTHING)
    ensures Run([], emitUser).0.lastStatus == None
  {
  }

  /** After any polls the client holds exactly the latest that the snapshots showed of every
      tool and other part, the latest error of every assistant message, and the latest status. */
  lemma ReportsRefinement(polls: seq<Poll>, emitUser: bool)
    ensures KeepAll(NOTHING, Run(polls, emitUser).1) == LatestOf(polls)
    ensures polls != [] ==>
      var poll := polls[|polls| - 1];
      && ShowsStatus(poll, CurrentStatus(SortByCreated(poll.msgs), poll.native))
      && (CurrentStatus(SortByCreated(poll.msgs), poll.native).Some? ==>
            KeepAll(NOTHING, Run(polls, emitUser).1).status == CurrentStatus(SortByCreated(poll.msgs), poll.native))
  {
    hide Run, SortByCreated, CurrentStatus, KeepAll, ShowsStatus, LatestItems, Items;
    RunKeeps(polls, emitUser);
    if polls != [] {
      StatusIsShown(polls[|polls| - 1]);
    }
  }

  // ---------------------------------------------------------------- when a status is repeated

  predicate Idle(status: Status) {
    status == StatusIdle || (status.StatusNative? && status.native.kind.NativeIdle?)
  }

  lemma {:induction false} CompletedIsGreatest(ordered: seq<Message>)
    ensures LatestCompleted(ordered) >= 0
    ensures forall i | 0 <= i < |ordered| && ordered[i].role.Assistant? ::
      ordered[i].completed <= LatestCompleted(ordered)
    ensures LatestCompleted(ordered) == 0 || exists i :: 0 <= i < |ordered| && ordered[i].role.Assistant?
                                                         && ordered[i].completed == LatestCompleted(ordered)
  {
    if ordered != [] {
      var n := |ordered| - 1;
      CompletedIsGreatest(ordered[..n]);
      if LatestCompleted(ordered[..n]) != 0 {
        var i :| 0 <= i < n && ordered[..n][i].role.Assistant?
          && ordered[..n][i].completed == LatestCompleted(ordered[..n]);
        assert ordered[i].completed == LatestCompleted(ordered[..n]);
      }
    }
  }

  /** The greatest completion time of an assistant message in any snapshot so far. */
  function CompletedSoFar(polls: seq<Poll>): int {
    if polls == [] then 0
    else
      var before, now := CompletedSoFar(polls[..|polls| - 1]), LatestCompleted(SortByCreated(polls[|polls| - 1].msgs));
      if now > before then now else before
  }

  lemma {:induction false} CompletedIsRemembered(polls: seq<Poll>, emitUser: bool)
    ensures Run(polls, emitUser).0.lastCompletedAt == CompletedSoFar(polls) >= 0
    ensures Run(polls, emitUser).0.seeded <==> polls != []
  {
    hide Announce, WalkTurns, DiffItems, Items, SortByCreated, LatestCompleted, CurrentStatus, Weave, ReportsStatus;
    if polls != [] {
      CompletedIsRemembered(polls[..|polls| - 1], emitUser);
    }
  }

  lemma {:induction false} StatusesIn(events: seq<Event>, status: seq<Event>)
    requires forall i | 0 <= i < |events| :: !events[i].StatusEvent?
    ensures forall st :: StatusEvent(st) in events + status <==> StatusEvent(st) in status
  {
  }

  /** A poll reports a status exactly if it differs from the last one, or is idle and some
      assistant message has completed since the polls before; never before a first status. */
  lemma StatusReportedIff(polls: seq<Poll>, poll: Poll, emitUser: bool, status: Status)
    ensures var s := Run(polls, emitUser).0;
            var events := Diff(s, poll.msgs, poll.native, emitUser).1;
            var ordered := SortByCreated(poll.msgs);
            StatusEvent(status) in events <==>
              && CurrentStatus(ordered, poll.native) == Some(status)
              && (|| LatestStatus(polls) != Some(status)
                  || (polls != [] && Idle(status)
                      && exists i :: 0 <= i < |ordered| && ordered[i].role.Assistant?
                                     && ordered[i].completed > CompletedSoFar(polls)))
  {
    hide Announce, WalkTurns, DiffItems, Items, SortByCreated, LatestCompleted, CurrentStatus, Weave, KeepAll, LatestOf,
      LatestStatus, CompletedSoFar, Run;
    var s, ordered := Run(polls, emitUser).0, SortByCreated(poll.msgs);
    RunKeeps(polls, emitUser);
    CompletedIsRemembered(polls, emitUser);
    CompletedIsGreatest(ordered);
    var content := DiffItems(s.memory, Items(ordered), emitUser).1;
    var lifecycle := Announce(s.turns, WalkTurns(ordered).turns).1;
    var o, l, c, st := PollParts(s, poll, emitUser);
    WeaveHasNoStatus(content, lifecycle);
    var current := CurrentStatus(ordered, poll.native);
    StatusesIn(Weave(content, lifecycle),
      if ReportsStatus(s, current, LatestCompleted(ordered)) then [StatusEvent(current.value)] else []);
  }

  lemma WeaveHasNoStatus(content: seq<Event>, lifecycle: seq<Event>)
    requires IsLifecycle(lifecycle) && forall i | 0 <= i < |content| :: IsContent(content[i])
    ensures forall y | 0 <= y < |Weave(content, lifecycle)| :: !Weave(content, lifecycle)[y].StatusEvent?
  {
    hide Weave;
    forall y | 0 <= y < |Weave(content, lifecycle)| ensures !Weave(content, lifecycle)[y].StatusEvent? {
      WovenMember(content, lifecycle, y);
    }
  }

  // ---------------------------------------------------------------- where events come from

  /** The turn in force at the message `k`; empty before the first one. */
  ghost predicate AnchorAt(ordered: seq<Message>, k: nat, a: string) {
    && k < |ordered|
    && if a == "" then forall i | 0 <= i <= k :: !Starts(ordered[i])
       else exists j: nat :: LastStart(ordered, j, k + 1) && ordered[j].id == a
  }

  /** The message `m` holds this item. */
  predicate Holds(m: Message, item: Item) {
    match item
    case ErrorItem(id, error, _) => m.role.Assistant? && m.error != "" && id == m.id && error == m.error
    case PartItem(part, role, model, final, _) =>
      && part in m.parts && role == m.role && model == m.model
      && (final <==> (m.role.Assistant? ==> m.completed > 0))
  }

  lemma {:induction false} PartItemsAre(m: Message, anchor: string, parts: seq<Part>, item: Item)
    ensures item in PartItems(m, anchor, parts) <==>
      item.PartItem? && item.part in parts && item == ItemOf(m, anchor, item.part)
  {
    if parts != [] {
      var n := |parts| - 1;
      PartItemsAre(m, anchor, parts[..n], item);
      assert parts == parts[..n] + [parts[n]];
    }
  }

  lemma MessageItemsAre(m: Message, anchor: string, item: Item)
    ensures item in MessageItems(m, anchor) <==> item.anchor == anchor && Holds(m, item)
  {
    hide PartItems;
    PartItemsAre(m, anchor, m.parts, item);
  }

  lemma AnchorStays(front: seq<Message>, m: Message, k: nat, a: string)
    requires k < |front|
    ensures AnchorAt(front + [m], k, a) <==> AnchorAt(front, k, a)
  {
    var all, next := front + [m], k + 1;
    assert forall i | 0 <= i < |front| :: all[i] == front[i];
    forall j: nat ensures LastStart(all, j, next) <==> LastStart(front, j, next) {
    }
  }

  lemma {:induction false} LastAnchorIs(ordered: seq<Message>, a: string)
    requires ordered != []
    ensures LastAnchor(ordered) == a <==> AnchorAt(ordered, |ordered| - 1, a)
  {
    var n := |ordered| - 1;
    var front, m, end := ordered[..n], ordered[n], n + 1;
    assert ordered == front + [m];
    if Starts(m) {
      assert LastStart(ordered, n, end);
      forall j: nat | LastStart(ordered, j, end) ensures j == n {
      }
    } else if n == 0 {
      assert LastAnchor(front) == "";
      forall j: nat ensures !LastStart(ordered, j, 1) {
      }
    } else {
      LastAnchorIs(front, a);
      AnchorStays(front, m, n - 1, a);
      forall j: nat ensures LastStart(ordered, j, end) <==> LastStart(ordered, j, n) {
      }
    }
  }

  /** The content pass looks at exactly the errors of the assistant messages and the parts of all
      messages, each with the turn in force at its message. */
  lemma {:induction false} ItemsAre(ordered: seq<Message>, item: Item)
    ensures item in Items(ordered) <==>
      exists k: nat :: k < |ordered| && AnchorAt(ordered, k, item.anchor) && Holds(ordered[k], item)
  {
    hide AnchorAt, Holds, MessageItems, LastAnchor;
    if ordered != [] {
      var n := |ordered| - 1;
      var front, m := ordered[..n], ordered[n];
      assert ordered == front + [m] && ordered[..n + 1] == ordered;
      ItemsAre(front, item);
      MessageItemsAre(m, LastAnchor(ordered), item);
      LastAnchorIs(ordered, item.anchor);
      forall k: nat | k < n
        ensures AnchorAt(ordered, k, item.anchor) <==> AnchorAt(front, k, item.anchor)
        ensures ordered[k] == front[k]
      {
        AnchorStays(front, m, k, item.anchor);
      }
    }
  }

  /** What an event tells of the message it comes from. */
  ghost predicate ComesFrom(m: Message, ev: Event) {
    match ev
    case TextEvent(kind, partId, messageId, model, text, snapshot, streaming, replace, _, eventId, _, _) =>
      && (exists i :: 0 <= i < |m.parts| && TextOf(m, m.parts[i], kind, partId, messageId, snapshot))
      && model == m.model && (streaming <==> m.role.Assistant? && m.completed <= 0)
      && |text| <= |snapshot| && text == snapshot[|snapshot| - |text|..]
      && (replace || !streaming ==> text == snapshot)
      && eventId == if m.role.User? then UserId(messageId, partId) else TextId(partId, !streaming, snapshot)
    case PartEvent(partId, payload, eventId, _, _) =>
      exists i :: 0 <= i < |m.parts| && m.parts[i].id == partId && ShowsPart(m.parts[i].body, payload)
                  && eventId == if m.parts[i].body.ToolBody? then
                                  ToolId(m.parts[i].body.callId, m.parts[i].body.tool, m.parts[i].body.state.value)
                                else PartId(partId, payload)
    case ErrorEvent(messageId, error, _) => m.role.Assistant? && m.error == error != "" && m.id == messageId
    case _ => false
  }

  /** The part is shown as text of this kind: a user's, an agent's reasoning or an agent's. */
  predicate TextOf(m: Message, part: Part, kind: TextKind, partId: string, messageId: string, text: string) {
    && part.id == partId != "" && part.messageId == messageId
    && part.body in {TextBody(text), ReasoningBody(text)} && TrimSpace(text) != ""
    && (kind.UserText? <==> m.role.User?)
    && (kind.AgentReasoning? <==> !m.role.User? && part.body.ReasoningBody?)
  }

  lemma ItemEvent(mem: Memory, item: Item, emitUser: bool, m: Message, ev: Event)
    requires Holds(m, item) && ev in DiffItem(mem, item, emitUser).1
    ensures ComesFrom(m, ev) && AnchorOf(ev) == item.anchor && (emitUser || !(ev.TextEvent? && m.role.User?))
  {
    hide TrimSpace, Convert;
    if item.PartItem? {
      var i :| 0 <= i < |m.parts| && m.parts[i] == item.part;
      ConvertShows(item.part.body);
      if ev.TextEvent? {
        assert TextOf(m, m.parts[i], ev.kind, ev.partId, ev.messageId, ev.snapshot);
      } else {
        assert Convert(item.part.body) == [ev.payload];
      }
    }
  }

  lemma {:induction false} EventItem(mem: Memory, items: seq<Item>, emitUser: bool, ev: Event)
      returns (before: Memory, item: Item)
    requires ev in DiffItems(mem, items, emitUser).1
    ensures item in items && ev in DiffItem(before, item, emitUser).1
  {
    hide DiffItem;
    var n := |items| - 1;
    before, item := DiffItems(mem, items[..n], emitUser).0, items[n];
    if ev in DiffItems(mem, items[..n], emitUser).1 {
      before, item := EventItem(mem, items[..n], emitUser, ev);
    }
  }

  /** Every content event of a poll comes from a message of the snapshot and belongs to the turn in
      force there: text of a user as user text, reasoning as reasoning, other text as the agent's,
      a tool by its state, an error as it is.  Text of users is shown only if asked for. */
  lemma ContentHasSource(s: State, poll: Poll, emitUser: bool, ev: Event)
    requires ev in Diff(s, poll.msgs, poll.native, emitUser).1 && IsContent(ev)
    ensures var ordered := SortByCreated(poll.msgs);
            exists k: nat ::
              && k < |ordered| && AnchorAt(ordered, k, AnchorOf(ev)) && ComesFrom(ordered[k], ev)
              && (emitUser || !(ev.TextEvent? && ordered[k].role.User?))
  {
    hide Announce, WalkTurns, DiffItems, DiffItem, Items, SortByCreated, CurrentStatus, Weave, IsLifecycle, AnchorAt,
      ComesFrom, Holds;
    var o, lifecycle, content, status := PollParts(s, poll, emitUser);
    var ordered := SortByCreated(poll.msgs);
    ContentIsWoven(content, lifecycle, status, ev);
    var before, item := EventItem(s.memory, Items(ordered), emitUser, ev);
    ItemsAre(ordered, item);
    var k: nat :| k < |ordered| && AnchorAt(ordered, k, item.anchor) && Holds(ordered[k], item);
    ItemEvent(before, item, emitUser, ordered[k], ev);
  }

  lemma ContentIsWoven(content: seq<Event>, lifecycle: seq<Event>, status: seq<Event>, ev: Event)
    requires IsLifecycle(lifecycle) && (forall i | 0 <= i < |status| :: status[i].StatusEvent?)
    requires ev in Weave(content, lifecycle) + status && IsContent(ev)
    ensures ev in content
  {
    hide Weave;
    if ev in Weave(content, lifecycle) {
      var y :| 0 <= y < |Weave(content, lifecycle)| && Weave(content, lifecycle)[y] == ev;
      WovenMember(content, lifecycle, y);
    }
  }

  // ---------------------------------------------------------------- versions of a part

  /** All that the content pass looked at over the polls. */
  function AllItems(polls: seq<Poll>): seq<Item> {
    if polls == [] then [] else AllItems(polls[..|polls| - 1]) + Items(SortByCreated(polls[|polls| - 1].msgs))
  }

  lemma {:induction false} DiffConcat(mem: Memory, a: seq<Item>, b: seq<Item>, emitUser: bool)
    ensures DiffItems(mem, a + b, emitUser).0 == DiffItems(DiffItems(mem, a, emitUser).0, b, emitUser).0
    ensures DiffItems(mem, a + b, emitUser).1
         == DiffItems(mem, a, emitUser).1 + DiffItems(DiffItems(mem, a, emitUser).0, b, emitUser).1
  {
    hide DiffItem;
    if b == [] {
      assert a + b == a;
    } else {
      var n := |b| - 1;
      assert (a + b)[..|a + b| - 1] == a + b[..n];
      DiffConcat(mem, a, b[..n], emitUser);
    }
  }

  /** The memory is that of one long content pass, and so is what was shown. */
  lemma {:induction false} OnePass(polls: seq<Poll>, emitUser: bool)
    ensures Run(polls, emitUser).0.memory == DiffItems(FRESH.memory, AllItems(polls), emitUser).0
    ensures Strip(NoStatus(Run(polls, emitUser).1)) == DiffItems(FRESH.memory, AllItems(polls), emitUser).1
  {
    hide Announce, WalkTurns, DiffItems, Items, SortByCreated, CurrentStatus, Weave, Strip, NoStatus, IsLifecycle;
    if polls == [] {
      NoPass(emitUser);
    } else {
      var n := |polls| - 1;
      var (s, log) := Run(polls[..n], emitUser);
      OnePass(polls[..n], emitUser);
      var o, lifecycle, content, status := PollParts(s, polls[n], emitUser);
      DiffConcat(FRESH.memory, AllItems(polls[..n]), Items(o), emitUser);
      ContentOfPoll(log, content, lifecycle, status);
    }
  }

  function NoStatus(events: seq<Event>): seq<Event> {
    if events == [] then []
    else
      var n := |events| - 1;
      NoStatus(events[..n]) + if events[n].StatusEvent? then [] else [events[n]]
  }

  lemma {:induction false} NoStatusConcat(a: seq<Event>, b: seq<Event>)
    ensures NoStatus(a + b) == NoStatus(a) + NoStatus(b)
  {
    if b == [] {
      assert a + b == a;
    } else {
      var n := |b| - 1;
      assert (a + b)[..|a + b| - 1] == a + b[..n];
      NoStatusConcat(a, b[..n]);
    }
  }

  lemma {:induction false} NoStatusNone(events: seq<Event>)
    requires forall i | 0 <= i < |events| :: !events[i].StatusEvent?
    ensures NoStatus(events) == events
  {
    if events != [] {
      NoStatusNone(events[..|events| - 1]);
    }
  }

  lemma {:induction false} NoStatusAll(events: seq<Event>)
    requires forall i | 0 <= i < |events| :: events[i].StatusEvent?
    ensures NoStatus(events) == []
  {
    if events != [] {
      NoStatusAll(events[..|events| - 1]);
    }
  }

  lemma ContentOfPoll(log: seq<Event>, content: seq<Event>, lifecycle: seq<Event>, status: seq<Event>)
    requires IsLifecycle(lifecycle) && (forall i | 0 <= i < |content| :: IsContent(content[i]))
    requires forall i | 0 <= i < |status| :: status[i].StatusEvent?
    ensures Strip(NoStatus(log + (Weave(content, lifecycle) + status))) == Strip(NoStatus(log)) + content
  {
    hide Weave, Strip, NoStatus, IsLifecycle;
    var woven := Weave(content, lifecycle);
    WeaveHasNoStatus(content, lifecycle);
    NoStatusConcat(log, woven + status);
    NoStatusConcat(woven, status);
    NoStatusNone(woven);
    NoStatusAll(status);
    WeavePreservesContent(content, lifecycle);
    StripConcat(NoStatus(log), woven);
    assert woven + [] == woven;
  }

  lemma NoPass(emitUser: bool)
    ensures Run([], emitUser) == (FRESH, []) && DiffItems(FRESH.memory, [], emitUser) == (FRESH.memory, [])
    ensures Strip(NoStatus([])) == []
  {
  }

  predicate IsVersion(item: Item, id: string) {
    item.PartItem? && !IsText(item.part.body) && item.part.id == id
  }

  /** The last version of the part before `k` is at `j`. */
  ghost predicate LastVersion(items: seq<Item>, j: nat, k: nat, id: string) {
    && j < k <= |items| && IsVersion(items[j], id)
    && forall i | j < i < k :: !IsVersion(items[i], id)
  }

  /** The identity under which a version was shown, if it was. */
  function ShownAs(part: Part): EventId {
    if Convert(part.body) == [] then NoId else PartEventId(part, Convert(part.body)[0])
  }

  ghost predicate Remembers(parts: map<string, PartState>, items: seq<Item>, id: string) {
    if id in parts then
      exists j: nat ::
        LastVersion(items, j, |items|, id) && parts[id] == PartState(items[j].part, ShownAs(items[j].part))
    else forall i | 0 <= i < |items| :: !IsVersion(items[i], id)
  }

  lemma {:induction false} PartsRemembered(items: seq<Item>, emitUser: bool, id: string)
    ensures Remembers(DiffItems(FRESH.memory, items, emitUser).0.parts, items, id)
  {
    hide DiffText, Convert;
    if items != [] {
      var n := |items| - 1;
      var front, item := items[..n], items[n];
      PartsRemembered(front, emitUser, id);
      var parts := DiffItems(FRESH.memory, front, emitUser).0.parts;
      PartNext(parts, front, item, id);
      assert front + [item] == items;
    }
  }

  lemma PartNext(parts: map<string, PartState>, front: seq<Item>, item: Item, id: string)
    requires Remembers(parts, front, id)
    ensures Remembers(if item.PartItem? && !IsText(item.part.body) then DiffPart(parts, item).0 else parts,
                      front + [item], id)
  {
    hide Convert;
    var all, n, end := front + [item], |front|, |front| + 1;
    assert forall i | 0 <= i < n :: all[i] == front[i];
    if IsVersion(item, id) {
      assert LastVersion(all, n, end, id);
      if id in parts {
        var j: nat :| LastVersion(front, j, n, id) && parts[id] == PartState(front[j].part, ShownAs(front[j].part));
      }
    } else if id in parts {
      var j: nat :| LastVersion(front, j, n, id) && parts[id] == PartState(front[j].part, ShownAs(front[j].part));
      assert LastVersion(all, j, end, id);
    }
  }

  /** A part other than text is shown exactly if it differs from the last version seen of it and
      shows anything; the event names the one its last version was shown with, if that was shown. */
  lemma VersionShownIff(items: seq<Item>, k: nat, emitUser: bool)
    requires k < |items| && items[k].PartItem? && !IsText(items[k].part.body)
    ensures var part := items[k].part;
            var events := DiffItem(DiffItems(FRESH.memory, items[..k], emitUser).0, items[k], emitUser).1;
            if forall i | 0 <= i < k :: !IsVersion(items[i], part.id) then
              events == if Convert(part.body) == [] then []
                        else [PartEvent(part.id, Convert(part.body)[0], ShownAs(part), NoId, items[k].anchor)]
            else
              exists j: nat ::
                && LastVersion(items, j, k, part.id)
                && events == if Convert(part.body) == [] || items[j].part == part then []
                             else [PartEvent(part.id, Convert(part.body)[0], ShownAs(part),
                                             ShownAs(items[j].part), items[k].anchor)]
  {
    hide DiffItems, Convert, DiffText;
    var front, id := items[..k], items[k].part.id;
    PartsRemembered(front, emitUser, id);
    var parts := DiffItems(FRESH.memory, front, emitUser).0.parts;
    assert forall i | 0 <= i < k :: items[i] == front[i];
    if id in parts {
      var j: nat :| LastVersion(front, j, k, id) && parts[id] == PartState(front[j].part, ShownAs(front[j].part));
      assert LastVersion(items, j, k, id);
    }
  }
}
