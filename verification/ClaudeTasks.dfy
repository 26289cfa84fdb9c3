/**
 Claude's task list, rebuilt from acknowledged tool calls.

 A call of TodoWrite, TaskCreate or TaskUpdate is kept until its result arrives; a good
 result changes the tasks and emits the whole plan.  Results are remembered so that a
 replayed record does not apply a call twice.
 */
module ClaudeTasks {
  import opened Common

  const MAX_TASKS := 100
  const MAX_PENDING := 512
  const MEMORY := 1024
  const MAX_STEP_BYTES := 4096

  datatype Item = Item(step: string, status: string)

  datatype Tool = TodoWrite | TaskCreate | TaskUpdate | OtherTool

  /** The input of TaskUpdate. */
  datatype Update = Update(taskId: string, subject: string, status: string)

  /** A tool's input as the two readings of it turn out: `None` where it does not decode. */
  datatype Input = Input(todos: Option<seq<Item>>, update: Option<Update>)

  datatype Call = Call(tool: Tool, input: Input)

  datatype Block =
    | ToolUse(id: string, call: Call)
    | ToolResult(toolUseId: string, isError: bool)
    | OtherBlock

  datatype RecordType = Assistant | User | OtherRecord

  datatype NewTask = NewTask(id: string, subject: string)

  /** The parts of a record that apply to all of its blocks. */
  datatype Header = Header(
    kind: RecordType,
    session: string,
    micros: Option<int>,
    success: Option<bool>,
    taskId: string,
    task: Option<NewTask>)

  /** A record; `blocks` is `None` where the content is not a list of blocks. */
  datatype Record = Record(header: Header, sidechain: bool, blocks: Option<seq<Block>>)

  datatype Event = Event(
    session: string, eventId: string, previous: string, revision: int, plan: seq<Item>, cleared: bool)

  datatype State = State(
    seen: set<string>,
    seenOrder: seq<string>,
    pending: map<string, Call>,
    tasks: map<string, Item>,
    order: seq<string>,
    previous: string,
    revision: int)

  const FRESH := State({}, [], map[], map[], [], "", 0)

  // ---------------------------------------------------------------- plan steps

  function Utf8Size(c: char): nat {
    if c < '\U{0080}' then 1 else if c < '\U{0800}' then 2 else if c < '\U{10000}' then 3 else 4
  }

  function Utf8Length(s: string): nat {
    if s == "" then 0 else Utf8Length(s[..|s| - 1]) + Utf8Size(s[|s| - 1])
  }

  predicate ValidStep(step: string, status: string) {
    && TrimSpace(step) != "" && Utf8Length(step) <= MAX_STEP_BYTES
    && (status == "pending" || status == "in_progress" || status == "completed")
  }

  function Trimmed(item: Item): Item {
    Item(TrimSpace(item.step), item.status)
  }

  function TodoKey(i: nat): string {
    "todo:" + Decimal(i)
  }

  // ---------------------------------------------------------------- what a call does

  predicate AllValid(todos: seq<Item>) {
    forall i | 0 <= i < |todos| :: ValidStep(todos[i].step, todos[i].status)
  }

  function TodoTasks(todos: seq<Item>): map<string, Item> {
    if todos == [] then map[]
    else TodoTasks(todos[..|todos| - 1])[TodoKey(|todos| - 1) := Trimmed(todos[|todos| - 1])]
  }

  function TodoOrder(n: nat): (order: seq<string>)
    ensures |order| == n && forall i | 0 <= i < n :: order[i] == TodoKey(i)
  {
    if n == 0 then [] else TodoOrder(n - 1) + [TodoKey(n - 1)]
  }

  function Without(order: seq<string>, id: string): seq<string> {
    if order == [] then []
    else
      var n := |order| - 1;
      Without(order[..n], id) + if order[n] == id then [] else [order[n]]
  }

  function Updated(item: Item, update: Update): Item {
    Item(if update.subject == "" then item.step else TrimSpace(update.subject),
         if update.status == "" then item.status else update.status)
  }

  /** The tasks and their order after an acknowledged call, or nothing if it is not applied. */
  function Applied(tasks: map<string, Item>, order: seq<string>, call: Call, h: Header)
    : Option<(map<string, Item>, seq<string>)>
  {
    match call.tool
    case TodoWrite =>
      if call.input.todos.None? || |call.input.todos.value| > MAX_TASKS || !AllValid(call.input.todos.value) then None
      else Some((TodoTasks(call.input.todos.value), TodoOrder(|call.input.todos.value|)))
    case TaskCreate =>
      if h.task.None? || h.task.value.id == "" || !ValidStep(h.task.value.subject, "pending")
        || |tasks| >= MAX_TASKS then None
      else
        var id := h.task.value.id;
        Some((tasks[id := Item(TrimSpace(h.task.value.subject), "pending")],
              if id in tasks then order else order + [id]))
    case TaskUpdate =>
      if call.input.update.None? || h.success != Some(true) || h.taskId != call.input.update.value.taskId then None
      else
        var update := call.input.update.value;
        if update.taskId !in tasks then None
        else if update.status == "deleted" then Some((tasks - {update.taskId}, Without(order, update.taskId)))
        else
          var item := Updated(tasks[update.taskId], update);
          if !ValidStep(item.step, item.status) then None else Some((tasks[update.taskId := item], order))
    case OtherTool => Some((tasks, order))
  }

  function PlanOf(tasks: map<string, Item>, order: seq<string>): seq<Item> {
    if order == [] then []
    else
      var n := |order| - 1;
      PlanOf(tasks, order[..n]) + if order[n] in tasks then [tasks[order[n]]] else []
  }

  function NextRevision(revision: int, micros: Option<int>): int {
    if micros.Some? && micros.value > revision + 1 then micros.value else revision + 1
  }

  function EventIdOf(toolUseId: string): string {
    "claude:plan:" + toolUseId
  }

  // ---------------------------------------------------------------- consuming records

  function Forgotten(seen: set<string>, order: seq<string>, x: string): set<string> {
    (if order != [] && |order| >= MEMORY then seen - {order[0]} else seen) + {x}
  }

  /** The result of a pending call is acknowledged. */
  function Acknowledged(s: State, id: string): State {
    s.(pending := s.pending - {id}, seen := Forgotten(s.seen, s.seenOrder, id),
      seenOrder := Remember(s.seenOrder, id, MEMORY))
  }

  function Emitted(s: State, h: Header, id: string): Event {
    var plan := PlanOf(s.tasks, s.order);
    Event(h.session, EventIdOf(id), s.previous, NextRevision(s.revision, h.micros), plan, plan == [])
  }

  predicate IsNewResult(s: State, h: Header, b: Block) {
    h.kind.User? && b.ToolResult? && b.toolUseId !in s.seen && b.toolUseId in s.pending
  }

  function Outcome(s: State, h: Header, b: Block): Option<(map<string, Item>, seq<string>)>
    requires IsNewResult(s, h, b)
  {
    if b.isError || h.success == Some(false) then None
    else Applied(s.tasks, s.order, s.pending[b.toolUseId], h)
  }

  function ConsumeBlock(s: State, h: Header, b: Block): (State, seq<Event>) {
    if h.kind.Assistant? && b.ToolUse? && b.id != "" then
      (if !b.call.tool.OtherTool? && |s.pending| < MAX_PENDING then s.(pending := s.pending[b.id := b.call]) else s, [])
    else if h.kind.User? && b.ToolResult? && b.toolUseId in s.seen then
      (s.(pending := s.pending - {b.toolUseId}), [])
    else if !IsNewResult(s, h, b) then (s, [])
    else
      match Outcome(s, h, b)
      case None => (Acknowledged(s, b.toolUseId), [])
      case Some((tasks, order)) =>
        var s' := Acknowledged(s, b.toolUseId).(tasks := tasks, order := order);
        var event := Emitted(s', h, b.toolUseId);
        (s'.(previous := event.eventId, revision := event.revision), [event])
  }

  function ConsumeBlocks(s: State, h: Header, blocks: seq<Block>): (State, seq<Event>) {
    if blocks == [] then (s, [])
    else
      var (s1, events) := ConsumeBlocks(s, h, blocks[..|blocks| - 1]);
      var (s2, more) := ConsumeBlock(s1, h, blocks[|blocks| - 1]);
      (s2, events + more)
  }

  predicate Ignored(r: Record) {
    r.sidechain || r.header.session == "" || r.blocks.None?
  }

  function Consume(s: State, r: Record): (State, seq<Event>) {
    if Ignored(r) then (s, []) else ConsumeBlocks(s, r.header, r.blocks.value)
  }

  // ---------------------------------------------------------------- the state object

  class TaskState {
    var seen: set<string>
    var seenOrder: seq<string>
    var pending: map<string, Call>
    var tasks: map<string, Item>
    var order: seq<string>
    var previous: string
    var revision: int

    ghost function View(): State
      reads this
    {
      State(seen, seenOrder, pending, tasks, order, previous, revision)
    }

    constructor ()
      ensures View() == FRESH
    {
      seen, seenOrder, pending, tasks, order, previous, revision := {}, [], map[], map[], [], "", 0;
    }

    /** Consume one record of the session and return the plans it produces. */
    method ConsumeRecord(r: Record) returns (events: seq<Event>)
      modifies this
      ensures (View(), events) == Consume(old(View()), r)
    {
      events := [];
      if r.sidechain || r.header.session == "" || r.blocks.None? {
        return;
      }
      var blocks := r.blocks.value;
      var i := 0;
      while i < |blocks|
        invariant 0 <= i <= |blocks|
        invariant (View(), events) == ConsumeBlocks(old(View()), r.header, blocks[..i])
      {
        assert blocks[..i + 1][..i] == blocks[..i];
        var more := ConsumeOne(r.header, blocks[i]);
        events := events + more;
        i := i + 1;
      }
      assert blocks[..i] == blocks;
    }

    method ConsumeOne(h: Header, b: Block) returns (events: seq<Event>)
      modifies this
      ensures (View(), events) == ConsumeBlock(old(View()), h, b)
    {
      events := [];
      if h.kind.Assistant? && b.ToolUse? && b.id != "" {
        if !b.call.tool.OtherTool? && |pending| < MAX_PENDING {
          pending := pending[b.id := b.call];
        }
        return;
      }
      if !h.kind.User? || !b.ToolResult? {
        return;
      }
      if b.toolUseId in seen {
        pending := pending - {b.toolUseId};
        return;
      }
      if b.toolUseId !in pending {
        return;
      }
      var call := pending[b.toolUseId];
      Acknowledge(b.toolUseId);
      if b.isError || h.success == Some(false) {
        return;
      }
      var applied := ApplyCall(call, h);
      if !applied {
        return;
      }
      var plan := BuildPlan();
      var next := revision + 1;
      if h.micros.Some? && h.micros.value > next {
        next := h.micros.value;
      }
      events := [Event(h.session, EventIdOf(b.toolUseId), previous, next, plan, |plan| == 0)];
      previous := EventIdOf(b.toolUseId);
      revision := next;
    }

    method Acknowledge(id: string)
      modifies this`pending, this`seen, this`seenOrder
      ensures View() == Acknowledged(old(View()), id)
    {
      pending := pending - {id};
      if |seenOrder| >= MEMORY {
        seen := seen - {seenOrder[0]};
        seenOrder := seenOrder[1..];
      }
      seen := seen + {id};
      seenOrder := seenOrder + [id];
    }

    /** Apply an acknowledged call to the tasks, if it is a good one. */
    method ApplyCall(call: Call, h: Header) returns (applied: bool)
      modifies this`tasks, this`order
      ensures applied == Applied(old(tasks), old(order), call, h).Some?
      ensures (tasks, order) == if applied then Applied(old(tasks), old(order), call, h).value
        else (old(tasks), old(order))
    {
      applied := false;
      match call.tool
      case TodoWrite =>
        if call.input.todos.None? || |call.input.todos.value| > MAX_TASKS {
          return;
        }
        applied := ReplaceTodos(call.input.todos.value);
      case TaskCreate =>
        if h.task.None? || h.task.value.id == "" || !ValidStep(h.task.value.subject, "pending")
          || |tasks| >= MAX_TASKS {
          return;
        }
        var id := h.task.value.id;
        if id !in tasks {
          order := order + [id];
        }
        tasks := tasks[id := Item(TrimSpace(h.task.value.subject), "pending")];
        applied := true;
      case TaskUpdate =>
        if call.input.update.None? || h.success != Some(true) || h.taskId != call.input.update.value.taskId {
          return;
        }
        applied := UpdateTask(call.input.update.value);
      case OtherTool =>
        applied := true;
    }

    method ReplaceTodos(todos: seq<Item>) returns (valid: bool)
      modifies this`tasks, this`order
      ensures valid == AllValid(todos)
      ensures (tasks, order) == if valid then (TodoTasks(todos), TodoOrder(|todos|)) else (old(tasks), old(order))
    {
      hide ValidStep, Trimmed, TodoKey;
      var newTasks, newOrder := map[], [];
      var i := 0;
      while i < |todos|
        invariant 0 <= i <= |todos| && AllValid(todos[..i])
        invariant newTasks == TodoTasks(todos[..i]) && newOrder == TodoOrder(i)
      {
        if !ValidStep(todos[i].step, todos[i].status) {
          return false;
        }
        assert todos[..i + 1][..i] == todos[..i];
        var key := TodoKey(|newOrder|);
        newOrder := newOrder + [key];
        newTasks := newTasks[key := Trimmed(todos[i])];
        i := i + 1;
      }
      assert todos[..i] == todos;
      tasks, order := newTasks, newOrder;
      valid := true;
    }

    method UpdateTask(update: Update) returns (applied: bool)
      modifies this`tasks, this`order
      ensures applied == (update.taskId in old(tasks)
        && (update.status == "deleted"
            || ValidStep(Updated(old(tasks)[update.taskId], update).step,
              Updated(old(tasks)[update.taskId], update).status)))
      ensures (tasks, order) ==
        if !applied then (old(tasks), old(order))
        else if update.status == "deleted" then (old(tasks) - {update.taskId}, Without(old(order), update.taskId))
        else (old(tasks)[update.taskId := Updated(old(tasks)[update.taskId], update)], old(order))
    {
      if update.taskId !in tasks {
        return false;
      }
      if update.status == "deleted" {
        tasks := tasks - {update.taskId};
        var kept := [];
        var i := 0;
        while i < |order|
          invariant 0 <= i <= |order| && kept == Without(order[..i], update.taskId)
        {
          assert order[..i + 1][..i] == order[..i];
          if order[i] != update.taskId {
            kept := kept + [order[i]];
          }
          i := i + 1;
        }
        assert order[..i] == order;
        order := kept;
        return true;
      }
      var item := tasks[update.taskId];
      if update.subject != "" {
        item := item.(step := TrimSpace(update.subject));
      }
      if update.status != "" {
        item := item.(status := update.status);
      }
      if !ValidStep(item.step, item.status) {
        return false;
      }
      tasks := tasks[update.taskId := item];
      applied := true;
    }

    method BuildPlan() returns (plan: seq<Item>)
      ensures plan == PlanOf(tasks, order)
    {
      plan := [];
      var i := 0;
      while i < |order|
        invariant 0 <= i <= |order| && plan == PlanOf(tasks, order[..i])
      {
        assert order[..i + 1][..i] == order[..i];
        if order[i] in tasks {
          plan := plan + [tasks[order[i]]];
        }
        i := i + 1;
      }
      assert order[..i] == order;
    }
  }
}
