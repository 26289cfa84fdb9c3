/**
 The OpenCode snapshot differ: full message snapshots in, incremental events out.

 One poll sorts the snapshot, decides which turns changed state, converts what is new
 into content events, weaves the turn events around the content of their turns, and
 appends a status.  Each stage is a function here; `OpencodeSync` is the object that
 runs them with loops over its maps.

 Content hashes and canonical encodings are represented by the value they digest, so
 two identities are equal exactly when the digested contents are.
 */
module OpencodeModel {
  import opened Common

  // ---------------------------------------------------------------- snapshots

  datatype Role = User | Assistant | OtherRole

  datatype ToolState = ToolState(status: string, input: string, output: string, error: string)

  datatype Body =
    | TextBody(text: string)
    | ReasoningBody(text: string)
    | ToolBody(callId: string, tool: string, state: Option<ToolState>)
    | StepFinish(tokens: Option<seq<int>>)
    | Structured(kind: string, payload: string)
    | Silent(kind: string)

  datatype Part = Part(id: string, messageId: string, body: Body)

  /** `error` is the raw error, empty if there is none. */
  datatype Message = Message(
    id: string,
    role: Role,
    model: string,
    created: int,
    completed: int,
    error: string,
    parts: seq<Part>)

  datatype NativeKind = NativeBusy | NativeRetry | NativeIdle | NativeOther

  datatype Native = Native(kind: NativeKind, attempt: int, message: string, next: int)

  // ---------------------------------------------------------------- events

  datatype TextKind = UserText | AgentText | AgentReasoning

  datatype EventId =
    | NoId
    | UserId(messageId: string, partId: string)
    | TextId(partId: string, final: bool, text: string)
    | ToolId(callId: string, tool: string, state: ToolState)
    | PartId(partId: string, payload: Payload)

  datatype Payload =
    | ToolCall(callId: string, tool: string, input: string)
    | ToolResult(callId: string, output: string, error: string)
    | Usage(tokens: seq<int>)
    | Surfaced(kind: string, payload: string)

  datatype TurnState = Running | Completed | TurnFailed

  datatype Status = StatusRunning | StatusIdle | StatusNative(native: Native)

  /** `anchor` is the user message whose turn the event belongs to, empty if none. */
  datatype Event =
    | TextEvent(
        kind: TextKind, partId: string, messageId: string, model: string, text: string, snapshot: string,
        streaming: bool, replace: bool, revision: nat, eventId: EventId, previous: EventId, anchor: string)
    | PartEvent(partId: string, payload: Payload, eventId: EventId, previous: EventId, anchor: string)
    | ErrorEvent(messageId: string, error: string, anchor: string)
    | TurnEvent(turn: string, state: TurnState, startedAt: int)
    | StatusEvent(status: Status)

  predicate IsTerminal(s: TurnState) {
    !s.Running?
  }

  function AnchorOf(ev: Event): string {
    if ev.TextEvent? || ev.PartEvent? || ev.ErrorEvent? then ev.anchor else ""
  }

  // ---------------------------------------------------------------- memory between polls

  datatype TextState = TextState(text: string, revision: nat, finalized: bool, eventId: EventId)

  datatype PartState = PartState(marker: Part, eventId: EventId)

  /** What the content pass remembers. */
  datatype Memory = Memory(
    texts: map<string, TextState>,
    parts: map<string, PartState>,
    errors: map<string, string>)

  datatype State = State(
    memory: Memory,
    turns: map<string, TurnState>,
    lastStatus: Option<Status>,
    lastCompletedAt: int,
    seeded: bool)

  const FRESH := State(Memory(map[], map[], map[]), map[], None, 0, false)

  // ---------------------------------------------------------------- sorting

  /** Insert behind everything that is not younger. */
  function Insert(sorted: seq<Message>, m: Message): seq<Message> {
    if sorted == [] || sorted[|sorted| - 1].created <= m.created then sorted + [m]
    else Insert(sorted[..|sorted| - 1], m) + [sorted[|sorted| - 1]]
  }

  function SortByCreated(msgs: seq<Message>): seq<Message> {
    if msgs == [] then [] else Insert(SortByCreated(msgs[..|msgs| - 1]), msgs[|msgs| - 1])
  }

  // ---------------------------------------------------------------- turns

  /** What one snapshot shows of a turn. */
  datatype Turn = Turn(anchor: string, startedAt: int, failed: bool, running: bool, completed: bool)

  datatype Walk = Walk(turns: seq<Turn>, anchor: string, startedAt: int)

  function TurnIndex(turns: seq<Turn>, anchor: string): (i: nat)
    ensures i <= |turns|
    ensures i < |turns| ==> turns[i].anchor == anchor
    ensures forall j | 0 <= j < i :: turns[j].anchor != anchor
  {
    if turns == [] then 0
    else if turns[0].anchor == anchor then 0
    else 1 + TurnIndex(turns[1..], anchor)
  }

  function Evidence(t: Turn, m: Message): (t': Turn)
    ensures t'.anchor == t.anchor && t'.startedAt == t.startedAt
  {
    if !m.role.Assistant? then t
    else if m.error != "" then t.(failed := true)
    else if m.completed > 0 then t.(completed := true)
    else t.(running := true)
  }

  function WalkMessage(w: Walk, m: Message): Walk {
    var w := if m.role.User? && m.id != "" then w.(anchor := m.id, startedAt := m.created) else w;
    var anchor := if m.role.User? then m.id else w.anchor;
    if anchor == "" then w
    else
      var turns :=
        if TurnIndex(w.turns, anchor) < |w.turns| then w.turns
        else w.turns + [Turn(anchor, w.startedAt, false, false, false)];
      var i := TurnIndex(w.turns, anchor);
      w.(turns := turns[i := Evidence(turns[i], m)])
  }

  /** The turns of a sorted snapshot, in the order their anchors appear. */
  function WalkTurns(ordered: seq<Message>): Walk {
    if ordered == [] then Walk([], "", 0) else WalkMessage(WalkTurns(ordered[..|ordered| - 1]), ordered[|ordered| - 1])
  }

  function StateOf(t: Turn): TurnState {
    if t.failed then TurnFailed else if t.running then Running else if t.completed then Completed else Running
  }

  /** A turn already reported in this state, or closed, is not reported again. */
  predicate Announces(known: map<string, TurnState>, t: Turn) {
    !(t.anchor in known && (known[t.anchor] == StateOf(t) || IsTerminal(known[t.anchor])))
  }

  function TurnEventOf(t: Turn): Event {
    TurnEvent(t.anchor, StateOf(t), t.startedAt)
  }

  function Announce(known: map<string, TurnState>, turns: seq<Turn>): (map<string, TurnState>, seq<Event>) {
    if turns == [] then (known, [])
    else
      var n := |turns| - 1;
      var (known', events) := Announce(known, turns[..n]);
      if Announces(known', turns[n]) then
        (known'[turns[n].anchor := StateOf(turns[n])], events + [TurnEventOf(turns[n])])
      else (known', events)
  }

  // ---------------------------------------------------------------- content

  /** One thing the content pass looks at, with all it needs to know about its message. */
  datatype Item =
    | ErrorItem(messageId: string, error: string, anchor: string)
    | PartItem(part: Part, role: Role, model: string, final: bool, anchor: string)

  function MessageAnchor(anchor: string, m: Message): string {
    if m.role.User? && m.id != "" then m.id else anchor
  }

  function ItemOf(m: Message, anchor: string, part: Part): Item {
    PartItem(part, m.role, m.model, !m.role.Assistant? || m.completed > 0, anchor)
  }

  function PartItems(m: Message, anchor: string, parts: seq<Part>): seq<Item> {
    if parts == [] then [] else PartItems(m, anchor, parts[..|parts| - 1]) + [ItemOf(m, anchor, parts[|parts| - 1])]
  }

  function ErrorItems(m: Message, anchor: string): seq<Item> {
    if m.role.Assistant? && m.error != "" then [ErrorItem(m.id, m.error, anchor)] else []
  }

  function MessageItems(m: Message, anchor: string): seq<Item> {
    ErrorItems(m, anchor) + PartItems(m, anchor, m.parts)
  }

  /** The anchor in force behind a sorted snapshot. */
  function LastAnchor(ordered: seq<Message>): string {
    if ordered == [] then "" else MessageAnchor(LastAnchor(ordered[..|ordered| - 1]), ordered[|ordered| - 1])
  }

  function Items(ordered: seq<Message>): seq<Item> {
    if ordered == [] then []
    else
      var n := |ordered| - 1;
      Items(ordered[..n]) + MessageItems(ordered[n], LastAnchor(ordered[..n + 1]))
  }

  predicate IsText(body: Body) {
    body.TextBody? || body.ReasoningBody?
  }

  function TextEventId(item: Item): EventId
    requires item.PartItem? && IsText(item.part.body)
  {
    if item.role.User? then UserId(item.part.messageId, item.part.id)
    else TextId(item.part.id, item.final, item.part.body.text)
  }

  /** A text part that is new, changed or just finished becomes one event: the whole text,
      or, if it only grew, what was added. */
  function DiffText(texts: map<string, TextState>, item: Item): (map<string, TextState>, Option<Event>)
    requires item.PartItem? && IsText(item.part.body)
  {
    var id, text := item.part.id, item.part.body.text;
    if TrimSpace(text) == "" || id == "" then (texts, None)
    else
      var seen := id in texts;
      if seen && texts[id].text == text && (!item.final || texts[id].finalized) then (texts, None)
      else
        var revision := (if seen then texts[id].revision else 0) + 1;
        var eventId := TextEventId(item);
        var grown := seen && !item.final && texts[id].text <= text;
        var ev := TextEvent(
          if item.role.User? then UserText else if item.part.body.ReasoningBody? then AgentReasoning else AgentText,
          id, item.part.messageId, item.model,
          if grown then text[|texts[id].text|..] else text, text,
          item.role.Assistant? && !item.final, seen && !grown, revision, eventId,
          if seen then texts[id].eventId else NoId, item.anchor);
        (texts[id := TextState(text, revision, item.final, eventId)], Some(ev))
  }

  /** What a part other than text shows to clients, if anything. */
  function Convert(body: Body): seq<Payload> {
    match body
    case ToolBody(callId, tool, Some(st)) =>
      if st.status == "completed" then [ToolResult(callId, st.output, "")]
      else if st.status == "error" then [ToolResult(callId, if st.output == "" then st.error else st.output, st.error)]
      else [ToolCall(callId, tool, st.input)]
    case StepFinish(Some(tokens)) => [Usage(tokens)]
    case Structured(kind, payload) => [Surfaced(kind, payload)]
    case _ => []
  }

  function PartEventId(part: Part, payload: Payload): EventId {
    if part.body.ToolBody? && part.body.state.Some? then ToolId(part.body.callId, part.body.tool, part.body.state.value)
    else PartId(part.id, payload)
  }

  function DiffPart(parts: map<string, PartState>, item: Item): (map<string, PartState>, seq<Event>)
    requires item.PartItem? && !IsText(item.part.body)
  {
    var part := item.part;
    if part.id in parts && parts[part.id].marker == part then (parts, [])
    else
      var previous := if part.id in parts then parts[part.id].eventId else NoId;
      var payloads := Convert(part.body);
      if payloads == [] then (parts[part.id := PartState(part, NoId)], [])
      else
        var eventId := PartEventId(part, payloads[0]);
        (parts[part.id := PartState(part, eventId)],
         [PartEvent(part.id, payloads[0], eventId, previous, item.anchor)])
  }

  function DiffItem(mem: Memory, item: Item, emitUser: bool): (Memory, seq<Event>) {
    match item
    case ErrorItem(id, error, anchor) =>
      if id in mem.errors && mem.errors[id] == error then (mem, [])
      else (mem.(errors := mem.errors[id := error]), [ErrorEvent(id, error, anchor)])
    case PartItem(part, _, _, _, _) =>
      if IsText(part.body) then
        var (texts, ev) := DiffText(mem.texts, item);
        (mem.(texts := texts), if ev.Some? && (!ev.value.kind.UserText? || emitUser) then [ev.value] else [])
      else
        var (parts, events) := DiffPart(mem.parts, item);
        (mem.(parts := parts), events)
  }

  function DiffItems(mem: Memory, items: seq<Item>, emitUser: bool): (Memory, seq<Event>) {
    if items == [] then (mem, [])
    else
      var n := |items| - 1;
      var (mem', events) := DiffItems(mem, items[..n], emitUser);
      var (mem'', more) := DiffItem(mem', items[n], emitUser);
      (mem'', events + more)
  }

  // ---------------------------------------------------------------- weaving

  /** The new turn event of this turn, if there is one. */
  function LifecycleOf(lifecycle: seq<Event>, anchor: string): (r: Option<Event>)
    ensures r.Some? ==> r.value in lifecycle && r.value.TurnEvent? && r.value.turn == anchor
  {
    if lifecycle == [] then None
    else if lifecycle[0].TurnEvent? && lifecycle[0].turn == anchor then Some(lifecycle[0])
    else LifecycleOf(lifecycle[1..], anchor)
  }

  predicate IsFirst(content: seq<Event>, i: nat)
    requires i < |content|
  {
    forall j | 0 <= j < i :: AnchorOf(content[j]) != AnchorOf(content[i])
  }

  predicate IsLast(content: seq<Event>, i: nat)
    requires i < |content|
  {
    forall j | i < j < |content| :: AnchorOf(content[j]) != AnchorOf(content[i])
  }

  /** A content event, with its turn's opening before it or closing behind it. */
  function Around(content: seq<Event>, lifecycle: seq<Event>, i: nat): seq<Event>
    requires i < |content|
  {
    var turn := LifecycleOf(lifecycle, AnchorOf(content[i]));
    if turn.None? then [content[i]]
    else if !IsTerminal(turn.value.state) then (if IsFirst(content, i) then [turn.value] else []) + [content[i]]
    else [content[i]] + (if IsLast(content, i) then [turn.value] else [])
  }

  function Blocks(content: seq<Event>, lifecycle: seq<Event>): seq<seq<Event>> {
    seq(|content|, i requires 0 <= i < |content| => Around(content, lifecycle, i))
  }

  predicate HasContent(content: seq<Event>, anchor: string) {
    exists i | 0 <= i < |content| :: AnchorOf(content[i]) == anchor
  }

  /** The turn events of turns without new content. */
  function Leftover(content: seq<Event>, lifecycle: seq<Event>): seq<Event> {
    if lifecycle == [] then []
    else
      var n := |lifecycle| - 1;
      Leftover(content, lifecycle[..n])
      + (if lifecycle[n].TurnEvent? && HasContent(content, lifecycle[n].turn) then [] else [lifecycle[n]])
  }

  function Weave(content: seq<Event>, lifecycle: seq<Event>): seq<Event> {
    Flatten(Blocks(content, lifecycle)) + Leftover(content, lifecycle)
  }

  // ---------------------------------------------------------------- status

  function DeriveStatus(ordered: seq<Message>): Option<Status> {
    if ordered == [] then None
    else if ordered[|ordered| - 1].role.Assistant? && ordered[|ordered| - 1].completed == 0 then Some(StatusRunning)
    else Some(StatusIdle)
  }

  function LatestCompleted(ordered: seq<Message>): int {
    if ordered == [] then 0
    else
      var m := ordered[|ordered| - 1];
      var latest := LatestCompleted(ordered[..|ordered| - 1]);
      if m.role.Assistant? && m.completed > latest then m.completed else latest
  }

  function CurrentStatus(ordered: seq<Message>, native: Option<Native>): Option<Status> {
    if native.Some? && !native.value.kind.NativeOther? then Some(StatusNative(native.value)) else DeriveStatus(ordered)
  }

  predicate IsIdle(s: Status) {
    s.StatusIdle? || (s.StatusNative? && s.native.kind.NativeIdle?)
  }

  /** Report a changed status, or an idle one again when a turn completed unseen. */
  predicate ReportsStatus(s: State, status: Option<Status>, completedAt: int) {
    && status.Some?
    && (s.lastStatus != status || (s.seeded && completedAt > s.lastCompletedAt && IsIdle(status.value)))
  }

  // ---------------------------------------------------------------- one poll

  function Diff(s: State, msgs: seq<Message>, native: Option<Native>, emitUser: bool): (State, seq<Event>) {
    var ordered := SortByCreated(msgs);
    var (turns, lifecycle) := Announce(s.turns, WalkTurns(ordered).turns);
    var (memory, content) := DiffItems(s.memory, Items(ordered), emitUser);
    var status := CurrentStatus(ordered, native);
    var completedAt := LatestCompleted(ordered);
    var reports := ReportsStatus(s, status, completedAt);
    (State(memory, turns, if reports then status else s.lastStatus,
           if completedAt > s.lastCompletedAt then completedAt else s.lastCompletedAt, true),
     Weave(content, lifecycle) + (if reports then [StatusEvent(status.value)] else []))
  }
}
