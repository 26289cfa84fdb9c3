/**
 What holds over every run of the Claude task state: the task list is a list with an
 update in place, plans form one chain, and no remembered result is applied twice.

 The reference is a board, a list of titles under their ids.  `CallRefinesBoard` says that
 the map of tasks and the list of ids together do what the board does.  A history keeps,
 beside the state, the results acknowledged so far, the plans emitted and which result each
 plan belongs to; its invariant has one part for each of memory, board, chain and origin,
 and each part grows by a lemma of its own.
 */
module ClaudeTaskRuns {
  import opened Common
  import opened ClaudeTasks
  import opened PlanLiteral

  // ---------------------------------------------------------------- the reference: a board

  /** The task list as a person would write it: titles in order, each under its id. */
  type Board = seq<(string, Item)>

  function Lookup(board: Board, id: string): Option<Item> {
    if board == [] then None
    else if board[|board| - 1].0 == id then Some(board[|board| - 1].1)
    else Lookup(board[..|board| - 1], id)
  }

  /** Rewrite the entry with this id. */
  function Rewrite(board: Board, id: string, item: Item): Board {
    if board == [] then []
    else
      var n := |board| - 1;
      Rewrite(board[..n], id, item) + [if board[n].0 == id then (id, item) else board[n]]
  }

  /** Strike the entry with this id. */
  function Strike(board: Board, id: string): Board {
    if board == [] then []
    else
      var n := |board| - 1;
      Strike(board[..n], id) + if board[n].0 == id then [] else [board[n]]
  }

  /** A title that may stand on the board: not blank, at most four kilobytes, in one of the
      three states. */
  predicate Presentable(step: string, status: string) {
    && TrimSpace(step) != "" && Utf8Length(step) <= 4096
    && (status == "pending" || status == "in_progress" || status == "completed")
  }

  lemma PresentableIsValid(step: string, status: string)
    ensures Presentable(step, status) <==> ValidStep(step, status)
  {
  }

  function TodoBoard(todos: seq<Item>): Board {
    seq(|todos|, i requires 0 <= i < |todos| =>
      ("todo:" + Decimal(i), Item(TrimSpace(todos[i].step), todos[i].status)))
  }

  /** What an acknowledged call does to the board. */
  function BoardAfter(board: Board, call: Call, h: Header): Option<Board> {
    match call.tool
    case TodoWrite =>
      if call.input.todos.Some? && |call.input.todos.value| <= 100
         && forall i | 0 <= i < |call.input.todos.value| ::
              Presentable(call.input.todos.value[i].step, call.input.todos.value[i].status)
      then Some(TodoBoard(call.input.todos.value)) else None
    case TaskCreate =>
      if h.task.None? || h.task.value.id == "" || !Presentable(h.task.value.subject, "pending")
        || |board| >= 100 then None
      else
        var id, item := h.task.value.id, Item(TrimSpace(h.task.value.subject), "pending");
        Some(if Lookup(board, id).Some? then Rewrite(board, id, item) else board + [(id, item)])
    case TaskUpdate =>
      if call.input.update.None? || h.success != Some(true) || h.taskId != call.input.update.value.taskId then None
      else
        var update := call.input.update.value;
        var found := Lookup(board, update.taskId);
        if found.None? then None
        else if update.status == "deleted" then Some(Strike(board, update.taskId))
        else
          var step := if update.subject != "" then TrimSpace(update.subject) else found.value.step;
          var status := if update.status != "" then update.status else found.value.status;
          if Presentable(step, status) then Some(Rewrite(board, update.taskId, Item(step, status))) else None
    case OtherTool => Some(board)
  }

  // ---------------------------------------------------------------- tasks and order are a board

  ghost predicate Matches(tasks: map<string, Item>, order: seq<string>) {
    && Distinct(order)
    && forall id :: id in tasks <==> id in order
  }

  function BoardOf(tasks: map<string, Item>, order: seq<string>): Board
    requires forall id | id in order :: id in tasks
  {
    seq(|order|, i requires 0 <= i < |order| => (order[i], tasks[order[i]]))
  }

  function Items(board: Board): seq<Item> {
    seq(|board|, i requires 0 <= i < |board| => board[i].1)
  }

  lemma {:induction false} MatchedSize(tasks: map<string, Item>, order: seq<string>)
    requires Matches(tasks, order)
    ensures |tasks| == |order|
    decreases |order|
  {
    if order == [] {
      assert tasks == map[];
    } else {
      var n := |order| - 1;
      var rest := tasks - {order[n]};
      assert rest.Keys == tasks.Keys - {order[n]};
      assert |rest| == |rest.Keys| && |tasks| == |tasks.Keys|;
      assert order == order[..n] + [order[n]];
      MatchedSize(rest, order[..n]);
    }
  }

  lemma {:induction false} PlanIsBoard(tasks: map<string, Item>, order: seq<string>)
    requires forall id | id in order :: id in tasks
    ensures PlanOf(tasks, order) == Items(BoardOf(tasks, order))
  {
    if order != [] {
      PlanIsBoard(tasks, order[..|order| - 1]);
    }
  }

  lemma {:induction false} LookupIsTask(tasks: map<string, Item>, order: seq<string>, id: string)
    requires forall k | k in order :: k in tasks
    ensures Lookup(BoardOf(tasks, order), id) == if id in order then Some(tasks[id]) else None
  {
    if order != [] {
      var n := |order| - 1;
      LookupIsTask(tasks, order[..n], id);
      assert BoardOf(tasks, order)[..n] == BoardOf(tasks, order[..n]);
      assert order == order[..n] + [order[n]];
    }
  }

  lemma {:induction false} RewriteIsUpdate(tasks: map<string, Item>, order: seq<string>, id: string, item: Item)
    requires forall k | k in order :: k in tasks
    ensures BoardOf(tasks[id := item], order) == Rewrite(BoardOf(tasks, order), id, item)
  {
    if order != [] {
      var n := |order| - 1;
      RewriteIsUpdate(tasks, order[..n], id, item);
      assert BoardOf(tasks, order)[..n] == BoardOf(tasks, order[..n]);
      assert BoardOf(tasks[id := item], order)
        == BoardOf(tasks[id := item], order[..n]) + [(order[n], tasks[id := item][order[n]])];
    }
  }

  lemma {:induction false} StrikeIsDelete(tasks: map<string, Item>, order: seq<string>, id: string)
    requires forall k | k in order :: k in tasks
    ensures forall k :: k in Without(order, id) <==> k in order && k != id
    ensures BoardOf(tasks - {id}, Without(order, id)) == Strike(BoardOf(tasks, order), id)
    ensures |Without(order, id)| <= |order|
  {
    if order != [] {
      var n := |order| - 1;
      StrikeIsDelete(tasks, order[..n], id);
      assert BoardOf(tasks, order)[..n] == BoardOf(tasks, order[..n]);
      assert order == order[..n] + [order[n]];
    }
  }

  lemma {:induction false} WithoutKeepsDistinct(order: seq<string>, id: string)
    requires Distinct(order)
    ensures Distinct(Without(order, id))
    ensures forall k | k in Without(order, id) :: k in order
  {
    if order != [] {
      var n := |order| - 1;
      WithoutKeepsDistinct(order[..n], id);
      assert order[n] !in order[..n];
    }
  }

  lemma TodoKeysDiffer(i: nat, j: nat)
    requires i != j
    ensures TodoKey(i) != TodoKey(j)
  {
    if TodoKey(i) == TodoKey(j) {
      assert Decimal(i) == TodoKey(i)[5..] && Decimal(j) == TodoKey(j)[5..];
      DecimalInjective(i, j);
    }
  }

  lemma {:induction false} TodosMatch(todos: seq<Item>)
    ensures Matches(TodoTasks(todos), TodoOrder(|todos|))
    ensures BoardOf(TodoTasks(todos), TodoOrder(|todos|)) == TodoBoard(todos)
  {
    if todos != [] {
      var n := |todos| - 1;
      var front := todos[..n];
      TodosMatch(front);
      forall i | 0 <= i < n ensures TodoOrder(n)[i] != TodoKey(n) {
        TodoKeysDiffer(i, n);
      }
      AppendRefinesBoard(TodoTasks(front), TodoOrder(n), TodoKey(n), Trimmed(todos[n]));
      assert TodoBoard(todos) == TodoBoard(front) + [(TodoKey(n), Trimmed(todos[n]))];
    }
  }

  // ---------------------------------------------------------------- valid items

  lemma {:induction false} TrimLeftKeeps(s: string)
    ensures TrimLeft(TrimLeft(s)) == TrimLeft(s)
    ensures TrimLeft(s) != "" ==> !IsWhite(TrimLeft(s)[0])
    ensures exists k :: 0 <= k <= |s| && TrimLeft(s) == s[k..]
  {
    if s != "" && IsWhite(s[0]) {
      TrimLeftKeeps(s[1..]);
      var k :| 0 <= k <= |s| - 1 && TrimLeft(s[1..]) == s[1..][k..];
      assert s[1..][k..] == s[k + 1..];
    } else {
      assert s == s[0..];
    }
  }

  lemma {:induction false} TrimRightKeeps(s: string)
    ensures TrimRight(TrimRight(s)) == TrimRight(s)
    ensures exists k :: 0 <= k <= |s| && TrimRight(s) == s[..k]
  {
    if s != "" && IsWhite(s[|s| - 1]) {
      TrimRightKeeps(s[..|s| - 1]);
      var k :| 0 <= k <= |s| - 1 && TrimRight(s[..|s| - 1]) == s[..|s| - 1][..k];
      assert s[..|s| - 1][..k] == s[..k];
    } else {
      assert s == s[..|s|];
    }
  }

  lemma TrimTwice(s: string)
    ensures TrimSpace(TrimSpace(s)) == TrimSpace(s)
  {
    TrimLeftKeeps(s);
    TrimRightKeeps(TrimLeft(s));
    var t := TrimSpace(s);
    assert t != "" ==> !IsWhite(t[0]);
    assert TrimLeft(t) == t;
  }

  lemma {:induction false} PrefixIsShorter(s: string, k: nat)
    requires k <= |s|
    ensures Utf8Length(s[..k]) <= Utf8Length(s)
    decreases |s|
  {
    if k < |s| {
      PrefixIsShorter(s[..|s| - 1], k);
      assert s[..|s| - 1][..k] == s[..k];
    } else {
      assert s[..k] == s;
    }
  }

  lemma {:induction false} SuffixIsShorter(s: string, k: nat)
    requires k <= |s|
    ensures Utf8Length(s[k..]) <= Utf8Length(s)
    decreases |s|
  {
    if k < |s| {
      SuffixIsShorter(s[..|s| - 1], k);
      assert s[k..][..|s| - k - 1] == s[..|s| - 1][k..];
    }
  }

  lemma TrimmedIsValid(step: string, status: string)
    requires ValidStep(step, status)
    ensures ValidStep(TrimSpace(step), status)
  {
    TrimTwice(step);
    TrimLeftKeeps(step);
    var k :| 0 <= k <= |step| && TrimLeft(step) == step[k..];
    SuffixIsShorter(step, k);
    TrimRightKeeps(TrimLeft(step));
    var l :| 0 <= l <= |TrimLeft(step)| && TrimRight(TrimLeft(step)) == TrimLeft(step)[..l];
    PrefixIsShorter(TrimLeft(step), l);
  }

  ghost predicate ValidItems(tasks: map<string, Item>) {
    forall id | id in tasks :: ValidStep(tasks[id].step, tasks[id].status)
  }

  lemma {:induction false} TodosValid(todos: seq<Item>)
    requires AllValid(todos)
    ensures ValidItems(TodoTasks(todos))
  {
    if todos != [] {
      TodosValid(todos[..|todos| - 1]);
      TrimmedIsValid(todos[|todos| - 1].step, todos[|todos| - 1].status);
    }
  }

  // ---------------------------------------------------------------- one call

  ghost predicate TasksInv(tasks: map<string, Item>, order: seq<string>) {
    Matches(tasks, order) && |order| <= MAX_TASKS && ValidItems(tasks)
  }

  /** Applying a call keeps the tasks in step with their order, and does to the board exactly
      what the call says. */
  lemma CallRefinesBoard(tasks: map<string, Item>, order: seq<string>, call: Call, h: Header)
    requires TasksInv(tasks, order)
    ensures Applied(tasks, order, call, h).Some? ==>
      TasksInv(Applied(tasks, order, call, h).value.0, Applied(tasks, order, call, h).value.1)
    ensures BoardAfter(BoardOf(tasks, order), call, h) ==
      match Applied(tasks, order, call, h)
      case None => None
      case Some((tasks', order')) => Some(BoardOf(tasks', order'))
  {
    match call.tool
    case TodoWrite =>
      if call.input.todos.Some? && AllValid(call.input.todos.value) {
        TodosMatch(call.input.todos.value);
        TodosValid(call.input.todos.value);
      }
    case TaskCreate => CreateRefinesBoard(tasks, order, call, h);
    case TaskUpdate => UpdateRefinesBoard(tasks, order, call, h);
    case OtherTool =>
  }

  lemma PutRefinesBoard(tasks: map<string, Item>, order: seq<string>, id: string, item: Item)
    requires TasksInv(tasks, order) && |order| < MAX_TASKS && ValidStep(item.step, item.status)
    ensures TasksInv(tasks[id := item], if id in tasks then order else order + [id])
    ensures BoardOf(tasks[id := item], if id in tasks then order else order + [id])
      == if Lookup(BoardOf(tasks, order), id).Some? then Rewrite(BoardOf(tasks, order), id, item)
        else BoardOf(tasks, order) + [(id, item)]
  {
    LookupIsTask(tasks, order, id);
    if id in tasks {
      RewriteIsUpdate(tasks, order, id, item);
    } else {
      AppendRefinesBoard(tasks, order, id, item);
    }
  }

  lemma AppendRefinesBoard(tasks: map<string, Item>, order: seq<string>, id: string, item: Item)
    requires Matches(tasks, order) && id !in order
    ensures Matches(tasks[id := item], order + [id])
    ensures BoardOf(tasks[id := item], order + [id]) == BoardOf(tasks, order) + [(id, item)]
  {
    assert forall k :: k in order + [id] <==> k in order || k == id;
    assert forall i | 0 <= i < |order| :: (order + [id])[i] == order[i] && order[i] in order;
  }

  lemma CreateRefinesBoard(tasks: map<string, Item>, order: seq<string>, call: Call, h: Header)
    requires TasksInv(tasks, order) && call.tool.TaskCreate?
    ensures Applied(tasks, order, call, h).Some? ==>
      TasksInv(Applied(tasks, order, call, h).value.0, Applied(tasks, order, call, h).value.1)
    ensures BoardAfter(BoardOf(tasks, order), call, h) ==
      match Applied(tasks, order, call, h)
      case None => None
      case Some((tasks', order')) => Some(BoardOf(tasks', order'))
  {
    MatchedSize(tasks, order);
    if h.task.Some? {
      PresentableIsValid(h.task.value.subject, "pending");
    }
    if Applied(tasks, order, call, h).Some? {
      var id, item := h.task.value.id, Item(TrimSpace(h.task.value.subject), "pending");
      TrimmedIsValid(h.task.value.subject, "pending");
      PutRefinesBoard(tasks, order, id, item);
    }
  }

  lemma UpdateRefinesBoard(tasks: map<string, Item>, order: seq<string>, call: Call, h: Header)
    requires TasksInv(tasks, order) && call.tool.TaskUpdate?
    ensures Applied(tasks, order, call, h).Some? ==>
      TasksInv(Applied(tasks, order, call, h).value.0, Applied(tasks, order, call, h).value.1)
    ensures BoardAfter(BoardOf(tasks, order), call, h) ==
      match Applied(tasks, order, call, h)
      case None => None
      case Some((tasks', order')) => Some(BoardOf(tasks', order'))
  {
    hide BoardOf, Lookup, Rewrite, Strike, Without, ValidStep, TrimSpace;
    if call.input.update.Some? {
      var update := call.input.update.value;
      LookupIsTask(tasks, order, update.taskId);
      if update.taskId in tasks {
        var item := Updated(tasks[update.taskId], update);
        PresentableIsValid(item.step, item.status);
        StrikeIsDelete(tasks, order, update.taskId);
        WithoutKeepsDistinct(order, update.taskId);
        RewriteIsUpdate(tasks, order, update.taskId, Updated(tasks[update.taskId], update));
      }
    }
  }

  // ---------------------------------------------------------------- runs

  /** The state with what happened so far: the acknowledged results, the plans, and which
      result each plan belongs to. */
  datatype History = History(state: State, acks: seq<string>, events: seq<Event>, ackOf: seq<nat>)

  const BEGINNING := History(FRESH, [], [], [])

  function ObserveBlock(y: History, h: Header, b: Block): History {
    var (state, more) := ConsumeBlock(y.state, h, b);
    History(
      state,
      if IsNewResult(y.state, h, b) then y.acks + [b.toolUseId] else y.acks,
      y.events + more,
      if more == [] then y.ackOf else y.ackOf + [|y.acks|])
  }

  function ObserveBlocks(y: History, h: Header, blocks: seq<Block>): History {
    if blocks == [] then y else ObserveBlock(ObserveBlocks(y, h, blocks[..|blocks| - 1]), h, blocks[|blocks| - 1])
  }

  function Observe(y: History, r: Record): History {
    if Ignored(r) then y else ObserveBlocks(y, r.header, r.blocks.value)
  }

  function Run(records: seq<Record>): History {
    if records == [] then BEGINNING else Observe(Run(records[..|records| - 1]), records[|records| - 1])
  }

  lemma {:induction false} ObserveBlocksConsumes(y: History, h: Header, blocks: seq<Block>)
    ensures ObserveBlocks(y, h, blocks).state == ConsumeBlocks(y.state, h, blocks).0
    ensures ObserveBlocks(y, h, blocks).events == y.events + ConsumeBlocks(y.state, h, blocks).1
  {
    if blocks != [] {
      ObserveBlocksConsumes(y, h, blocks[..|blocks| - 1]);
    }
  }

  /** A run is the fold of `Consume`; its events are all the events returned. */
  lemma ObserveConsumes(y: History, r: Record)
    ensures Observe(y, r).state == Consume(y.state, r).0
    ensures Observe(y, r).events == y.events + Consume(y.state, r).1
  {
    if !Ignored(r) {
      ObserveBlocksConsumes(y, r.header, r.blocks.value);
    }
  }

  ghost predicate SeenInv(seen: set<string>, order: seq<string>, acks: seq<string>) {
    && Recalls(order, acks, MEMORY) && SpacedOut(acks, MEMORY)
    && (forall id :: id in seen <==> id in order)
  }

  ghost predicate Chained(events: seq<Event>) {
    && (events != [] ==> events[0].previous == "")
    && (forall i | 0 < i < |events| :: events[i].previous == events[i - 1].eventId)
    && (forall i, j | 0 <= i < j < |events| :: events[i].revision < events[j].revision)
  }

  ghost predicate ChainInv(previous: string, revision: int, events: seq<Event>) {
    && Chained(events)
    && previous == (if events == [] then "" else events[|events| - 1].eventId)
    && (forall i | 0 <= i < |events| :: events[i].revision <= revision)
  }

  /** Each plan belongs to a result of its own. */
  ghost predicate SourceInv(acks: seq<string>, events: seq<Event>, ackOf: seq<nat>) {
    && |ackOf| == |events|
    && (forall i | 0 <= i < |ackOf| :: ackOf[i] < |acks| && events[i].eventId == EventIdOf(acks[ackOf[i]]))
    && (forall i, j | 0 <= i < j < |ackOf| :: ackOf[i] < ackOf[j])
  }

  predicate GoodPlan(event: Event) {
    && |event.plan| <= MAX_TASKS && (event.cleared <==> event.plan == [])
    && forall i | 0 <= i < |event.plan| :: ValidStep(event.plan[i].step, event.plan[i].status)
  }

  ghost predicate PlanInv(s: State, events: seq<Event>) {
    && TasksInv(s.tasks, s.order)
    && (forall i | 0 <= i < |events| :: GoodPlan(events[i]))
    && (events == [] ==> s.order == [])
    && (events != [] ==> events[|events| - 1].plan == Items(BoardOf(s.tasks, s.order)))
  }

  ghost predicate Inv(y: History) {
    && SeenInv(y.state.seen, y.state.seenOrder, y.acks)
    && |y.state.pending| <= MAX_PENDING
    && PlanInv(y.state, y.events)
    && ChainInv(y.state.previous, y.state.revision, y.events)
    && SourceInv(y.acks, y.events, y.ackOf)
  }

  lemma SeenGrows(seen: set<string>, order: seq<string>, acks: seq<string>, id: string)
    requires SeenInv(seen, order, acks) && id !in seen
    ensures SeenInv(Forgotten(seen, order, id), Remember(order, id, MEMORY), acks + [id])
  {
    RememberRecalls(order, acks, id, MEMORY);
    UnknownIsSpacedOut(order, acks, id, MEMORY);
    SpacedOutIsDistinct(order, acks, MEMORY);
    SetGrows(seen, order, id);
  }

  lemma SetGrows(seen: set<string>, order: seq<string>, id: string)
    requires Distinct(order) && id !in order && forall k :: k in seen <==> k in order
    ensures forall k :: k in Forgotten(seen, order, id) <==> k in Remember(order, id, MEMORY)
  {
    if order != [] && |order| >= MEMORY {
      assert forall k :: k in order <==> k == order[0] || k in order[1..];
    }
  }

  lemma ChainGrows(previous: string, revision: int, events: seq<Event>, event: Event)
    requires ChainInv(previous, revision, events) && event.previous == previous && revision < event.revision
    ensures ChainInv(event.eventId, event.revision, events + [event])
  {
    var events' := events + [event];
    forall i | 0 < i < |events'| ensures events'[i].previous == events'[i - 1].eventId {
      assert events'[i - 1] == events[i - 1];
    }
  }

  lemma EmittedIsGood(s: State, h: Header, id: string)
    requires TasksInv(s.tasks, s.order)
    ensures GoodPlan(Emitted(s, h, id)) && Emitted(s, h, id).plan == Items(BoardOf(s.tasks, s.order))
  {
    PlanIsBoard(s.tasks, s.order);
    forall i | 0 <= i < |s.order|
      ensures ValidStep(Items(BoardOf(s.tasks, s.order))[i].step, Items(BoardOf(s.tasks, s.order))[i].status) {
      assert s.order[i] in s.tasks;
    }
  }

  lemma SmallerMap(m: map<string, Call>, id: string)
    ensures |m - {id}| <= |m|
  {
    assert (m - {id}).Keys == m.Keys - {id};
    assert |m - {id}| == |(m - {id}).Keys| && |m| == |m.Keys|;
  }

  lemma LargerMap(m: map<string, Call>, id: string, call: Call)
    ensures |m[id := call]| <= |m| + 1
  {
    assert m[id := call].Keys == m.Keys + {id};
    assert |m[id := call]| == |m[id := call].Keys| && |m| == |m.Keys|;
  }

  /** The state after a new result that is applied, before its event is recorded. */
  function After(s: State, h: Header, b: Block): State
    requires IsNewResult(s, h, b) && Outcome(s, h, b).Some?
  {
    Acknowledged(s, b.toolUseId).(tasks := Outcome(s, h, b).value.0, order := Outcome(s, h, b).value.1)
  }

  lemma AppliedKeepsInv(y: History, h: Header, b: Block)
    requires IsNewResult(y.state, h, b) && Outcome(y.state, h, b).Some?
    requires Inv(y)
    ensures var s' := After(y.state, h, b);
            var event := Emitted(s', h, b.toolUseId);
            && PlanInv(s', y.events + [event])
            && ChainInv(event.eventId, event.revision, y.events + [event])
            && SourceInv(y.acks + [b.toolUseId], y.events + [event], y.ackOf + [|y.acks|])
  {
    var s := y.state;
    var s' := After(s, h, b);
    CallRefinesBoard(s.tasks, s.order, s.pending[b.toolUseId], h);
    EmittedIsGood(s', h, b.toolUseId);
    ChainGrows(s.previous, s.revision, y.events, Emitted(s', h, b.toolUseId));
    SourceGrows(y.acks, y.events, y.ackOf, b.toolUseId, Emitted(s', h, b.toolUseId));
  }

  lemma SourceGrows(acks: seq<string>, events: seq<Event>, ackOf: seq<nat>, id: string, event: Event)
    requires SourceInv(acks, events, ackOf) && event.eventId == EventIdOf(id)
    ensures SourceInv(acks + [id], events, ackOf)
    ensures SourceInv(acks + [id], events + [event], ackOf + [|acks|])
  {
  }

  lemma RefusedKeepsInv(y: History, h: Header, b: Block)
    requires Inv(y) && IsNewResult(y.state, h, b) && Outcome(y.state, h, b).None?
    ensures Inv(ObserveBlock(y, h, b))
  {
    hide SeenInv, ChainInv, TasksInv, BoardOf, Items, GoodPlan, Applied, SourceInv, Forgotten, Remember;
    SeenGrows(y.state.seen, y.state.seenOrder, y.acks, b.toolUseId);
    SmallerMap(y.state.pending, b.toolUseId);
    SourceStays(y.acks, y.events, y.ackOf, b.toolUseId);
    assert y.events + [] == y.events;
    assert ObserveBlock(y, h, b) == y.(state := Acknowledged(y.state, b.toolUseId), acks := y.acks + [b.toolUseId]);
  }

  lemma SourceStays(acks: seq<string>, events: seq<Event>, ackOf: seq<nat>, id: string)
    requires SourceInv(acks, events, ackOf)
    ensures SourceInv(acks + [id], events, ackOf)
  {
  }

  lemma ObservedApplied(y: History, h: Header, b: Block)
    requires IsNewResult(y.state, h, b) && Outcome(y.state, h, b).Some?
    ensures var s' := After(y.state, h, b);
            var event := Emitted(s', h, b.toolUseId);
            ObserveBlock(y, h, b) == History(
              s'.(previous := event.eventId, revision := event.revision),
              y.acks + [b.toolUseId], y.events + [event], y.ackOf + [|y.acks|])
  {
  }

  lemma ResultKeepsInv(y: History, h: Header, b: Block)
    requires Inv(y) && IsNewResult(y.state, h, b)
    ensures Inv(ObserveBlock(y, h, b))
  {
    if Outcome(y.state, h, b).Some? {
      SeenGrows(y.state.seen, y.state.seenOrder, y.acks, b.toolUseId);
      SmallerMap(y.state.pending, b.toolUseId);
      AppliedKeepsInv(y, h, b);
      ObservedApplied(y, h, b);
    } else {
      RefusedKeepsInv(y, h, b);
    }
  }

  lemma OtherKeepsInv(y: History, h: Header, b: Block)
    requires Inv(y) && !IsNewResult(y.state, h, b)
    ensures Inv(ObserveBlock(y, h, b))
  {
    hide SeenInv, ChainInv, SourceInv, TasksInv, BoardOf, Items, GoodPlan, Applied, Acknowledged, Emitted, Outcome,
      PlanOf;
    if b.ToolUse? {
      LargerMap(y.state.pending, b.id, b.call);
    } else if b.ToolResult? {
      SmallerMap(y.state.pending, b.toolUseId);
    }
    assert y.events + [] == y.events;
    var pending := ConsumeBlock(y.state, h, b).0.pending;
    assert ObserveBlock(y, h, b) == y.(state := y.state.(pending := pending));
  }

  lemma BlockKeepsInv(y: History, h: Header, b: Block)
    requires Inv(y)
    ensures Inv(ObserveBlock(y, h, b))
  {
    if IsNewResult(y.state, h, b) {
      ResultKeepsInv(y, h, b);
    } else {
      OtherKeepsInv(y, h, b);
    }
  }

  lemma {:induction false} BlocksKeepInv(y: History, h: Header, blocks: seq<Block>)
    requires Inv(y)
    ensures Inv(ObserveBlocks(y, h, blocks))
  {
    if blocks != [] {
      BlocksKeepInv(y, h, blocks[..|blocks| - 1]);
      BlockKeepsInv(ObserveBlocks(y, h, blocks[..|blocks| - 1]), h, blocks[|blocks| - 1]);
    }
  }

  lemma {:induction false} RunInv(records: seq<Record>)
    ensures Inv(Run(records))
  {
    if records != [] {
      var r := records[|records| - 1];
      RunInv(records[..|records| - 1]);
      if !Ignored(r) {
        BlocksKeepInv(Run(records[..|records| - 1]), r.header, r.blocks.value);
      }
    }
  }

  // ---------------------------------------------------------------- theorems

  /** The tasks are exactly the ids in `order`, each once, at most a hundred and all valid; at
      most 512 calls are pending and at most 1024 results remembered. */
  lemma TasksInStep(records: seq<Record>)
    ensures TasksInv(Run(records).state.tasks, Run(records).state.order)
    ensures |Run(records).state.tasks| == |Run(records).state.order| <= MAX_TASKS
    ensures |Run(records).state.pending| <= MAX_PENDING && |Run(records).state.seenOrder| <= MEMORY
    ensures Distinct(Run(records).state.seenOrder)
  {
    RunInv(records);
    MatchedSize(Run(records).state.tasks, Run(records).state.order);
    SpacedOutIsDistinct(Run(records).state.seenOrder, Run(records).acks, MEMORY);
  }

  /** The plans of a run form one chain with strictly rising revisions. */
  lemma PlansChain(records: seq<Record>)
    ensures Chained(Run(records).events)
    ensures forall i | 0 <= i < |Run(records).events| :: GoodPlan(Run(records).events[i])
  {
    RunInv(records);
  }

  /** The latest plan is the whole board: a client that keeps only it has the current tasks. */
  lemma LatestPlanIsCurrent(records: seq<Record>)
    ensures forall id | id in Run(records).state.order :: id in Run(records).state.tasks
    ensures var y := Run(records);
            Items(BoardOf(y.state.tasks, y.state.order)) == if y.events == [] then [] else y.events[|y.events| - 1].plan
  {
    RunInv(records);
  }

  /** Two plans for the same tool call are more than 1024 acknowledged results apart. */
  lemma AppliedOnce(records: seq<Record>, i: nat, j: nat)
    requires i < j < |Run(records).events| && Run(records).events[i].eventId == Run(records).events[j].eventId
    ensures |Run(records).ackOf| == |Run(records).events|
    ensures Run(records).ackOf[j] > Run(records).ackOf[i] + 1024
  {
    RunInv(records);
    var y := Run(records);
    var a, b := y.acks[y.ackOf[i]], y.acks[y.ackOf[j]];
    assert EventIdOf(a)[12..] == a && EventIdOf(b)[12..] == b;
    assert y.ackOf[i] < y.ackOf[j];
  }

  /** A result that is among the last 1024 acknowledged ones changes no task and emits nothing. */
  lemma RememberedIsIgnored(records: seq<Record>, h: Header, isError: bool, k: nat)
    requires k < |Run(records).acks| && |Run(records).acks| - 1024 <= k && h.kind.User?
    ensures var s := Run(records).state;
            var id := Run(records).acks[k];
            ConsumeBlock(s, h, ToolResult(id, isError)) == (s.(pending := s.pending - {id}), [])
  {
    hide Run, ChainInv, SourceInv, PlanInv, SpacedOut, Applied, Acknowledged, Emitted, Outcome;
    RunInv(records);
    var y := Run(records);
    assert y.state.seenOrder[k - (|y.acks| - |y.state.seenOrder|)] == y.acks[k];
  }

  /** A new result does to the board exactly what its call says, or nothing. */
  lemma ResultRefinesBoard(records: seq<Record>, h: Header, b: Block)
    requires IsNewResult(Run(records).state, h, b)
    ensures TasksInv(Run(records).state.tasks, Run(records).state.order)
    ensures var s := Run(records).state;
            var s' := ConsumeBlock(s, h, b).0;
            var events := ConsumeBlock(s, h, b).1;
            var board := BoardOf(s.tasks, s.order);
            var after :=
              if b.isError || h.success == Some(false) then None else BoardAfter(board, s.pending[b.toolUseId], h);
            && TasksInv(s'.tasks, s'.order)
            && match after
               case None => events == [] && BoardOf(s'.tasks, s'.order) == board
               case Some(board') =>
                 BoardOf(s'.tasks, s'.order) == board' && |events| == 1 && events[0].plan == Items(board')
  {
    RunInv(records);
    var s := Run(records).state;
    CallRefinesBoard(s.tasks, s.order, s.pending[b.toolUseId], h);
    var s' := ConsumeBlock(s, h, b).0;
    if Outcome(s, h, b).Some? {
      PlanIsBoard(s'.tasks, s'.order);
    }
  }

  // ---------------------------------------------------------------- calls are kept until their results

  /** The block answers the call, or makes a call under the same id. */
  predicate Touches(h: Header, b: Block, id: string) {
    || (h.kind.User? && b.ToolResult? && b.toolUseId == id)
    || (h.kind.Assistant? && b.ToolUse? && b.id == id)
  }

  predicate RecordTouches(r: Record, id: string) {
    !Ignored(r) && exists i | 0 <= i < |r.blocks.value| :: Touches(r.header, r.blocks.value[i], id)
  }

  lemma UntouchedByBlock(s: State, h: Header, b: Block, id: string)
    requires !Touches(h, b, id)
    ensures var s' := ConsumeBlock(s, h, b).0;
            && (id in s'.pending <==> id in s.pending) && (id in s.pending ==> s'.pending[id] == s.pending[id])
            && (id in s'.seen ==> id in s.seen)
  {
    hide Applied, Emitted;
  }

  lemma {:induction false} UntouchedByBlocks(s: State, h: Header, blocks: seq<Block>, id: string)
    requires forall i | 0 <= i < |blocks| :: !Touches(h, blocks[i], id)
    ensures var s' := ConsumeBlocks(s, h, blocks).0;
            && (id in s'.pending <==> id in s.pending) && (id in s.pending ==> s'.pending[id] == s.pending[id])
            && (id in s'.seen ==> id in s.seen)
  {
    hide ConsumeBlock, Touches;
    if blocks != [] {
      var n := |blocks| - 1;
      UntouchedByBlocks(s, h, blocks[..n], id);
      UntouchedByBlock(ConsumeBlocks(s, h, blocks[..n]).0, h, blocks[n], id);
    }
  }

  /** The state after more records. */
  function Later(s: State, records: seq<Record>): State {
    if records == [] then s else Consume(Later(s, records[..|records| - 1]), records[|records| - 1]).0
  }

  lemma {:induction false} UntouchedByRecords(s: State, records: seq<Record>, id: string)
    requires forall i | 0 <= i < |records| :: !RecordTouches(records[i], id)
    ensures var s' := Later(s, records);
            && (id in s'.pending <==> id in s.pending) && (id in s.pending ==> s'.pending[id] == s.pending[id])
            && (id in s'.seen ==> id in s.seen)
  {
    hide ConsumeBlocks, Touches;
    if records != [] {
      var n := |records| - 1;
      var front, r := records[..n], records[n];
      UntouchedByRecords(s, front, id);
      if !Ignored(r) {
        assert !RecordTouches(r, id);
        UntouchedByBlocks(Later(s, front), r.header, r.blocks.value, id);
      }
    }
  }

  lemma {:induction false} RunLater(before: seq<Record>, records: seq<Record>)
    ensures Run(before + records).state == Later(Run(before).state, records)
  {
    hide Consume, Observe;
    if records == [] {
      assert before + records == before;
    } else {
      var n := |records| - 1;
      var front := records[..n];
      RunLater(before, front);
      assert (before + records)[..|before| + n] == before + front;
      ObserveConsumes(Run(before + front), records[n]);
    }
  }

  /** A call that is made while fewer than 512 are unanswered is kept until its result, whatever
      other records come in between: the result then does to the board what the call says, and
      emits the new board as a plan, if it is good and the call applicable; and otherwise
      nothing. */
  lemma CallThenResult(before: seq<Record>, uses: Header, id: string, call: Call, records: seq<Record>, h: Header,
      isError: bool)
    requires uses.kind.Assistant? && uses.session != "" && id != "" && !call.tool.OtherTool? && h.kind.User?
    requires |Run(before).state.pending| < 512 && id !in Run(before).state.seen
    requires forall i | 0 <= i < |records| :: !RecordTouches(records[i], id)
    ensures var s := Run(before + [Record(uses, false, Some([ToolUse(id, call)]))] + records).state;
            var (s', events) := ConsumeBlock(s, h, ToolResult(id, isError));
            && TasksInv(s.tasks, s.order) && TasksInv(s'.tasks, s'.order)
            && var board, board' := BoardOf(s.tasks, s.order), BoardOf(s'.tasks, s'.order);
               var expected := if isError || h.success == Some(false) then None else BoardAfter(board, call, h);
               if expected.None? then events == [] && board' == board
               else board' == expected.value && |events| == 1 && events[0].plan == Items(board')
  {
    hide Applied, Consume, Observe, BoardAfter, BoardOf, TasksInv, ConsumeBlock;
    var use := Record(uses, false, Some([ToolUse(id, call)]));
    var made, kept := Run(before).state, Run(before + [use]).state;
    RunLater(before, [use]);
    CallIsKept(made, uses, id, call);
    UntouchedByRecords(kept, records, id);
    RunLater(before + [use], records);
    ResultRefinesBoard(before + [use] + records, h, ToolResult(id, isError));
  }

  lemma CallIsKept(made: State, uses: Header, id: string, call: Call)
    requires uses.kind.Assistant? && uses.session != "" && id != "" && !call.tool.OtherTool?
    requires |made.pending| < 512 && id !in made.seen
    ensures var kept := Later(made, [Record(uses, false, Some([ToolUse(id, call)]))]);
            id in kept.pending && kept.pending[id] == call && id !in kept.seen
  {
    var use := Record(uses, false, Some([ToolUse(id, call)]));
    assert [use][..0] == [] && [ToolUse(id, call)][..0] == [];
    assert Later(made, []) == made;
    assert ConsumeBlocks(made, uses, []) == (made, []);
  }

  /** A call is kept exactly if an assistant makes it, under an id, with one of the task tools, while
      fewer than 512 are unanswered; a block that is a call changes nothing else. */
  lemma CallIsKeptIff(records: seq<Record>, h: Header, id: string, call: Call)
    ensures var s := Run(records).state;
            var kept := h.kind.Assistant? && id != "" && !call.tool.OtherTool? && |s.pending| < 512;
            ConsumeBlock(s, h, ToolUse(id, call))
              == (s.(pending := if kept then s.pending[id := call] else s.pending), [])
  {
  }

  /** A result uses its call up: however many records come in between, another result under the same
      id changes no task and emits nothing, unless a call is made under that id again. */
  lemma AnsweredIsUsedUp(before: seq<Record>, h: Header, id: string, isError: bool, records: seq<Record>, again: Header,
      isErrorAgain: bool)
    requires h.kind.User? && h.session != ""
    requires forall i | 0 <= i < |records| :: !RecordTouches(records[i], id)
    ensures var s := Run(before + [Record(h, false, Some([ToolResult(id, isError)]))] + records).state;
            ConsumeBlock(s, again, ToolResult(id, isErrorAgain)) == (s, [])
  {
    hide Applied, Consume, Observe, RecordTouches;
    var answer := Record(h, false, Some([ToolResult(id, isError)]));
    RunLater(before, [answer]);
    ResultLeavesPending(Run(before).state, h, id, isError);
    UntouchedByRecords(Run(before + [answer]).state, records, id);
    RunLater(before + [answer], records);
    var s := Run(before + [answer] + records).state;
    assert s.pending - {id} == s.pending;
  }

  lemma ResultLeavesPending(s: State, h: Header, id: string, isError: bool)
    requires h.kind.User? && h.session != ""
    ensures id !in Later(s, [Record(h, false, Some([ToolResult(id, isError)]))]).pending
  {
    hide Applied, Emitted;
    var answer, result := Record(h, false, Some([ToolResult(id, isError)])), ToolResult(id, isError);
    assert [answer][..0] == [] && [result][..0] == [];
    assert Later(s, []) == s;
    assert ConsumeBlocks(s, h, []) == (s, []);
  }

  /** A character counts as many bytes as its UTF-8 encoding has. */
  lemma BytesAreCounted(c: char)
    ensures c as nat < 0x110000 && Utf8Size(c) == |Utf8(c as nat)|
  {
  }
}
