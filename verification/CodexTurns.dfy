/**
 The turns of a Codex session, and the suppression of mirrored messages.

 Codex names its turns: a task-started record opens one, a task-complete record closes it.
 The completion record's own error keeps the turn's stamp although it follows the terminal
 status.  An assistant message that repeats the agent message right before it is dropped.
 */
module CodexTurns {
  import opened Common
  import opened Turns

  /** A record of the rollout.  Where the payload does not decode, whatever the line was
      converted to passes through untouched. */
  datatype Record =
    | SessionMeta(id: string)
    | TaskStarted(turnId: string)
    | TaskComplete(turnId: string, failed: bool)
    | AgentMessage(message: string)
    | AssistantMessage(texts: seq<string>)
    | OtherRecord(kinds: seq<string>)
    | Undecoded(kinds: seq<string>)

  datatype Tracker = Tracker(session: string, active: Option<Turn>)

  datatype Parser = Parser(turns: Tracker, pending: string)

  const FRESH := Parser(Tracker("", None), "")

  // ---------------------------------------------------------------- the tracker

  function SetSession(t: Tracker, id: string): Tracker {
    if TrimSpace(id) == "" then t else t.(session := TrimSpace(id))
  }

  function Begin(t: Tracker, source: string): (Tracker, seq<Event>) {
    if t.session == "" || TrimSpace(source) == "" || t.active.Some? then (t, [])
    else
      var turn := Turn(t.session, "", TrimSpace(source));
      (t.(active := Some(turn)), [Status(turn, Running)])
  }

  /** A completion without an id closes the open turn; one with another id is stale. */
  function End(t: Tracker, source: string, state: TurnState): (Tracker, seq<Event>) {
    match t.active
    case None => (t, [])
    case Some(turn) =>
      if TrimSpace(source) != "" && TrimSpace(source) != turn.source then (t, [])
      else (t.(active := None), [Status(turn, state)])
  }

  function Stamped(events: seq<Event>, active: Option<Turn>): seq<Event> {
    seq(|events|, i requires 0 <= i < |events| =>
      if events[i].Content? && active.Some? && events[i].kind != "session_status"
      then events[i].(stamp := active) else events[i])
  }

  function Plain(kinds: seq<string>): seq<Event> {
    seq(|kinds|, i requires 0 <= i < |kinds| => Content(kinds[i], "", None))
  }

  function TextEvents(text: string): seq<Event> {
    if text == "" then [] else [Content("agent_text", text, None)]
  }

  function CompletionEvents(failed: bool): seq<Event> {
    Plain(if failed then ["error", "session_status"] else ["session_status"])
  }

  /** The texts of a message, one to a line, without the empty ones. */
  function Joined(texts: seq<string>): string {
    if texts == [] then ""
    else
      var front := Joined(texts[..|texts| - 1]);
      var last := texts[|texts| - 1];
      if last == "" then front else if front == "" then last else front + "\n" + last
  }

  /** The events a record is converted to. */
  function Converted(r: Record): seq<Event> {
    match r
    case TaskStarted(_) => Plain(["session_status"])
    case TaskComplete(_, failed) => CompletionEvents(failed)
    case AgentMessage(message) => TextEvents(message)
    case AssistantMessage(texts) => TextEvents(Joined(texts))
    case OtherRecord(kinds) => Plain(kinds)
    case Undecoded(kinds) => Plain(kinds)
    case SessionMeta(_) => []
  }

  function Decorated(t: Tracker, r: Record): (Tracker, seq<Event>) {
    match r
    case SessionMeta(id) => (SetSession(t, id), [])
    case TaskStarted(turnId) =>
      var (t', started) := Begin(t, turnId);
      (t', started + Converted(r))
    case TaskComplete(turnId, failed) =>
      var events := Stamped(Converted(r), t.active);
      var (t', completed) := End(t, turnId, if failed then Failed else Completed);
      (t', completed + events)
    case Undecoded(kinds) => (t, Plain(kinds))
    case _ => (t, Stamped(Converted(r), t.active))
  }

  // ---------------------------------------------------------------- mirrored messages

  const OPENING := "<oai-mem-citation>"
  const CLOSING := "</oai-mem-citation>"

  /** Where `part` first occurs in `text`, at or after `from`. */
  function Find(text: string, part: string, from: nat): (at: Option<nat>)
    ensures at.Some? ==> from <= at.value && at.value + |part| <= |text| && text[at.value..at.value + |part|] == part
    decreases |text| - from
  {
    if from + |part| > |text| then None
    else if text[from..from + |part|] == part then Some(from)
    else Find(text, part, from + 1)
  }

  /** The message without its citations and surrounding white space. */
  function Normalized(text: string): string
    decreases |text|
  {
    match Find(text, OPENING, 0)
    case None => TrimSpace(text)
    case Some(start) =>
      match Find(text, CLOSING, start)
      case None => TrimSpace(text)
      case Some(end) => Normalized(text[..start] + text[end + |CLOSING|..])
  }

  /** The record repeats the message that is waiting for its mirror. */
  predicate Mirrors(pending: string, r: Record) {
    r.AssistantMessage? && Joined(r.texts) != "" && pending != "" && Normalized(Joined(r.texts)) == pending
  }

  function Parse(p: Parser, r: Record): (Parser, seq<Event>) {
    if r.Undecoded? then (p, Plain(r.kinds))
    else
      var (turns, events) := Decorated(p.turns, r);
      if r.AgentMessage? && r.message != "" then (Parser(turns, Normalized(r.message)), events)
      else if Mirrors(p.pending, r) then (Parser(turns, ""), [])
      else (Parser(turns, ""), events)
  }

  // ---------------------------------------------------------------- runs

  function Final(records: seq<Record>): Parser {
    if records == [] then FRESH else Parse(Final(records[..|records| - 1]), records[|records| - 1]).0
  }

  function Stream(records: seq<Record>): seq<Event> {
    if records == [] then []
    else Stream(records[..|records| - 1]) + Parse(Final(records[..|records| - 1]), records[|records| - 1]).1
  }

  /** The error that a completion record reports right after the terminal status of its turn. */
  predicate CompletionError(stream: seq<Event>, p: nat)
    requires p < |stream|
  {
    && stream[p].Content? && stream[p].kind == "error" && stream[p].stamp.Some?
    && p > 0 && stream[p - 1] == Status(stream[p].stamp.value, Failed)
  }

  ghost predicate NearlyBracketed(stream: seq<Event>) {
    forall p | 0 <= p < |stream| :: Fits(stream, p) || CompletionError(stream, p)
  }

  lemma NearlyStays(stream: seq<Event>, more: seq<Event>, p: nat)
    requires p < |stream|
    ensures Fits(stream + more, p) <==> Fits(stream, p)
    ensures CompletionError(stream + more, p) <==> CompletionError(stream, p)
  {
    FitsStays(stream, more, p);
  }

  lemma AddNearly(stream: seq<Event>, e: Event)
    requires NearlyBracketed(stream)
    requires Fits(stream + [e], |stream|) || CompletionError(stream + [e], |stream|)
    ensures NearlyBracketed(stream + [e])
  {
    forall p | 0 <= p < |stream| ensures Fits(stream + [e], p) || CompletionError(stream + [e], p) {
      NearlyStays(stream, [e], p);
    }
  }

  lemma AddNearlyStatus(stream: seq<Event>, turn: Turn, state: TurnState)
    requires NearlyBracketed(stream) && OpenAfter(stream) == if state.Running? then None else Some(turn)
    ensures NearlyBracketed(stream + [Status(turn, state)])
    ensures OpenAfter(stream + [Status(turn, state)]) == if state.Running? then Some(turn) else None
  {
    assert (stream + [Status(turn, state)])[..|stream|] == stream;
    AddNearly(stream, Status(turn, state));
  }

  lemma {:induction false} AddNearlyContent(stream: seq<Event>, events: seq<Event>)
    requires NearlyBracketed(stream) && AllContent(events, OpenAfter(stream))
    ensures NearlyBracketed(stream + events) && OpenAfter(stream + events) == OpenAfter(stream)
    decreases |events|
  {
    if events == [] {
      assert stream + events == stream;
    } else {
      var n := |events| - 1;
      AddNearlyContent(stream, events[..n]);
      assert stream + events == (stream + events[..n]) + [events[n]];
      assert (stream + events)[..|stream| + n] == stream + events[..n];
      OpenAfterOne(stream + events[..n], events[n]);
      AddNearly(stream + events[..n], events[n]);
    }
  }

  /** A completion that closes a failed turn: the status, the stamped error, the session status. */
  lemma FailureFits(stream: seq<Event>, turn: Turn)
    requires NearlyBracketed(stream) && OpenAfter(stream) == Some(turn)
    ensures var stream' := stream + ([Status(turn, Failed)] + Stamped(CompletionEvents(true), Some(turn)));
            NearlyBracketed(stream') && OpenAfter(stream') == None
  {
    var closed := stream + [Status(turn, Failed)];
    var error, status := Content("error", "", Some(turn)), Content("session_status", "", None);
    AddNearlyStatus(stream, turn, Failed);
    AddNearly(closed, error);
    OpenAfterOne(closed, error);
    AddNearlyContent(closed + [error], [status]);
    assert Stamped(CompletionEvents(true), Some(turn)) == [error, status];
    assert stream + ([Status(turn, Failed)] + [error, status]) == closed + [error] + [status];
  }

  lemma CompletionFits(stream: seq<Event>, t: Tracker, source: string, failed: bool)
    requires NearlyBracketed(stream) && OpenAfter(stream) == t.active
    ensures var (t', events) := Decorated(t, TaskComplete(source, failed));
            NearlyBracketed(stream + events) && OpenAfter(stream + events) == t'.active
  {
    var state := if failed then Failed else Completed;
    var (t', completed) := End(t, source, state);
    var events := Stamped(CompletionEvents(failed), t.active);
    if completed == [] {
      AddNearlyContent(stream, events);
      assert completed + events == events;
    } else if failed {
      FailureFits(stream, t.active.value);
    } else {
      AddNearlyStatus(stream, t.active.value, Completed);
      AddNearlyContent(stream + completed, events);
      assert stream + (completed + events) == stream + completed + events;
    }
  }

  lemma StartFits(stream: seq<Event>, t: Tracker, source: string)
    requires NearlyBracketed(stream) && OpenAfter(stream) == t.active
    ensures var (t', events) := Decorated(t, TaskStarted(source));
            NearlyBracketed(stream + events) && OpenAfter(stream + events) == t'.active
  {
    var (t', started) := Begin(t, source);
    var events := Plain(["session_status"]);
    if started != [] {
      AddNearlyStatus(stream, started[0].turn, Running);
      assert started == [Status(started[0].turn, Running)];
    } else {
      assert stream + started == stream;
    }
    AddNearlyContent(stream + started, events);
    assert stream + (started + events) == stream + started + events;
  }

  lemma DecoratedFits(stream: seq<Event>, t: Tracker, r: Record)
    requires NearlyBracketed(stream) && OpenAfter(stream) == t.active
    ensures NearlyBracketed(stream + Decorated(t, r).1)
      && OpenAfter(stream + Decorated(t, r).1) == Decorated(t, r).0.active
  {
    match r
    case TaskStarted(source) => StartFits(stream, t, source);
    case TaskComplete(source, failed) => CompletionFits(stream, t, source, failed);
    case SessionMeta(_) => assert stream + [] == stream;
    case Undecoded(kinds) => AddNearlyContent(stream, Plain(kinds));
    case _ => AddNearlyContent(stream, Stamped(Converted(r), t.active));
  }

  /** Over any sequence of records the stream is bracketed, except that a failed turn's own
      error directly follows its terminal status. */
  lemma {:induction false} StreamIsBracketed(records: seq<Record>)
    ensures NearlyBracketed(Stream(records)) && OpenAfter(Stream(records)) == Final(records).turns.active
  {
    hide Parse;
    if records != [] {
      var front, r := records[..|records| - 1], records[|records| - 1];
      StreamIsBracketed(front);
      RecordFits(Stream(front), Final(front), r);
    }
  }

  lemma RecordFits(stream: seq<Event>, p: Parser, r: Record)
    requires NearlyBracketed(stream) && OpenAfter(stream) == p.turns.active
    ensures NearlyBracketed(stream + Parse(p, r).1) && OpenAfter(stream + Parse(p, r).1) == Parse(p, r).0.turns.active
  {
    hide NearlyBracketed, OpenAfter, Normalized, Joined, Stamped;
    DecoratedFits(stream, p.turns, r);
    assert stream + [] == stream;
  }

  /** Every stamped event and terminal status of a stream follows the running status of its
      turn; only the terminal status of a failed turn may stand between, right before its error. */
  lemma InsideItsTurn(records: seq<Record>, p: nat, turn: Turn) returns (i: nat)
    requires p < |Stream(records)|
    requires var e := Stream(records)[p];
             (Terminal(e) && e.turn == turn) || (e.Content? && e.stamp == Some(turn))
    ensures i < p && Stream(records)[i] == Status(turn, Running)
    ensures forall k | i < k < p :: Stream(records)[k].Content? || (k == p - 1 && CompletionError(Stream(records), p))
  {
    var stream := Stream(records);
    StreamIsBracketed(records);
    if Fits(stream, p) {
      i := BracketedMeaning(stream, p, turn);
    } else {
      assert CompletionError(stream, p);
      assert Fits(stream, p - 1);
      i := BracketedMeaning(stream, p - 1, turn);
    }
  }

  /** The only record that reports a failed turn also reports its error, right behind. */
  lemma FailureStep(p: Parser, r: Record, k: nat)
    requires k < |Parse(p, r).1| && Parse(p, r).1[k].Status? && Parse(p, r).1[k].state.Failed?
    ensures k == 0 && |Parse(p, r).1| > 1
    ensures Parse(p, r).1[1] == Content("error", "", Some(Parse(p, r).1[0].turn))
  {
    hide Normalized, Joined, TrimSpace;
  }

  /** The exception is no accident: in every stream each failed turn has its error there. */
  lemma {:induction false} FailureReportsError(records: seq<Record>, p: nat)
    requires p < |Stream(records)| && Stream(records)[p].Status? && Stream(records)[p].state.Failed?
    ensures p + 1 < |Stream(records)| && CompletionError(Stream(records), p + 1)
  {
    hide Parse;
    var front, r := records[..|records| - 1], records[|records| - 1];
    var events := Parse(Final(front), r).1;
    if p < |Stream(front)| {
      FailureReportsError(front, p);
      NearlyStays(Stream(front), events, p + 1);
    } else {
      FailureStep(Final(front), r, p - |Stream(front)|);
      assert Stream(records)[p] == events[0] && Stream(records)[p + 1] == events[1];
    }
  }

  // ---------------------------------------------------------------- when turns open and close

  /** The session as the records name it: the last one that is not blank. */
  function SessionOf(records: seq<Record>): string {
    if records == [] then ""
    else
      var front, last := records[..|records| - 1], records[|records| - 1];
      if last.SessionMeta? && TrimSpace(last.id) != "" then TrimSpace(last.id) else SessionOf(front)
  }

  lemma SessionStep(p: Parser, r: Record)
    ensures Parse(p, r).0.turns.session ==
      if r.SessionMeta? && TrimSpace(r.id) != "" then TrimSpace(r.id) else p.turns.session
  {
    hide Normalized, Joined, TrimSpace, Stamped;
  }

  lemma {:induction false} SessionIsNamed(records: seq<Record>)
    ensures Final(records).turns.session == SessionOf(records)
  {
    hide Parse, TrimSpace;
    if records != [] {
      SessionIsNamed(records[..|records| - 1]);
      SessionStep(Final(records[..|records| - 1]), records[|records| - 1]);
    }
  }

  /** The record starts a native turn, given the session and the open turn. */
  predicate StartsTurn(session: string, open: Option<Turn>, r: Record) {
    r.TaskStarted? && TrimSpace(r.turnId) != "" && session != "" && open.None?
  }

  /** The record completes the open turn: it names it, or names none. */
  predicate CompletesTurn(open: Option<Turn>, r: Record) {
    r.TaskComplete? && open.Some? && (TrimSpace(r.turnId) == "" || TrimSpace(r.turnId) == open.value.source)
  }

  lemma RecordStep(p: Parser, r: Record)
    ensures var (p', events) := Parse(p, r);
            if StartsTurn(p.turns.session, p.turns.active, r) then
              var turn := Turn(p.turns.session, "", TrimSpace(r.turnId));
              p'.turns.active == Some(turn) && events == [Status(turn, Running), Content("session_status", "", None)]
            else if CompletesTurn(p.turns.active, r) then
              && p'.turns.active == None && events != []
              && events[0] == Status(p.turns.active.value, if r.failed then Failed else Completed)
              && forall k | 0 < k < |events| :: events[k].Content?
            else p'.turns.active == p.turns.active && forall k | 0 <= k < |events| :: events[k].Content?
  {
    hide Normalized, Joined, TrimSpace;
  }

  /** What one record does to the open turn of the stream, and which status it emits: a turn
      opens exactly at a named start in a named session with no turn open, closes exactly at a
      completion that names it or none, failed if that reports an error, and otherwise stays. */
  lemma TurnsOpenAndClose(records: seq<Record>, r: Record)
    ensures var before, after := Stream(records), Stream(records + [r]);
            var open := OpenAfter(before);
            && before <= after
            && if StartsTurn(SessionOf(records), open, r) then
                 var turn := Turn(SessionOf(records), "", TrimSpace(r.turnId));
                 && OpenAfter(after) == Some(turn)
                 && after == before + [Status(turn, Running), Content("session_status", "", None)]
               else if CompletesTurn(open, r) then
                 && OpenAfter(after) == None && |before| < |after|
                 && after[|before|] == Status(open.value, if r.failed then Failed else Completed)
                 && forall k | |before| < k < |after| :: after[k].Content?
               else OpenAfter(after) == open && forall k | |before| <= k < |after| :: after[k].Content?
  {
    hide Parse, OpenAfter, TrimSpace, SessionOf;
    assert (records + [r])[..|records|] == records;
    StreamIsBracketed(records);
    StreamIsBracketed(records + [r]);
    SessionIsNamed(records);
    RecordStep(Final(records), r);
    var events := Parse(Final(records), r).1;
    assert Stream(records + [r]) == Stream(records) + events;
    assert forall k | 0 <= k < |events| :: Stream(records + [r])[|Stream(records)| + k] == events[k];
  }

  /** Content of these kinds: in a turn all but a session's status carries its stamp. */
  function ContentOf(kinds: seq<string>, open: Option<Turn>): seq<Event> {
    seq(|kinds|, i requires 0 <= i < |kinds| =>
      Content(kinds[i], "", if kinds[i] == "session_status" then None else open))
  }

  /** What a record other than an assistant message shows, given the turn that was open before. */
  function Shows(r: Record, open: Option<Turn>): seq<Event> {
    match r
    case SessionMeta(_) => []
    case TaskStarted(_) => [Content("session_status", "", None)]
    case TaskComplete(_, failed) =>
      (if failed then [Content("error", "", open)] else []) + [Content("session_status", "", None)]
    case AgentMessage(message) => if message == "" then [] else [Content("agent_text", message, open)]
    case OtherRecord(kinds) => ContentOf(kinds, open)
    case Undecoded(kinds) => ContentOf(kinds, None)
    case AssistantMessage(_) => []
  }

  /** A record adds its status, if it opens or closes a turn, and then its own content, in order and
      with the stamp of the turn that was open before it. */
  lemma StreamAdds(records: seq<Record>, r: Record)
    requires r.AssistantMessage? ==> Joined(r.texts) == ""
    ensures var before := Stream(records);
            var open := OpenAfter(before);
            Stream(records + [r]) == before
              + (if StartsTurn(SessionOf(records), open, r) then
                   [Status(Turn(SessionOf(records), "", TrimSpace(r.turnId)), Running)]
                 else if CompletesTurn(open, r) then [Status(open.value, if r.failed then Failed else Completed)]
                 else [])
              + Shows(r, open)
  {
    hide Parse, OpenAfter, TrimSpace, SessionOf, Joined, Shows;
    assert (records + [r])[..|records|] == records;
    StreamIsBracketed(records);
    SessionIsNamed(records);
    RecordAdds(Final(records), r);
    var open := OpenAfter(Stream(records));
  }

  lemma RecordAdds(p: Parser, r: Record)
    requires r.AssistantMessage? ==> Joined(r.texts) == ""
    ensures Parse(p, r).1 ==
      (if StartsTurn(p.turns.session, p.turns.active, r) then
         [Status(Turn(p.turns.session, "", TrimSpace(r.turnId)), Running)]
       else if CompletesTurn(p.turns.active, r) then
         [Status(p.turns.active.value, if r.failed then Failed else Completed)]
       else [])
      + Shows(r, p.turns.active)
  {
    hide Normalized, TrimSpace;
  }

  // ---------------------------------------------------------------- texts

  function NonEmpty(texts: seq<string>): seq<string> {
    if texts == [] then [] else (if texts[0] == "" then [] else [texts[0]]) + NonEmpty(texts[1..])
  }

  function Lines(texts: seq<string>): string {
    if texts == [] then "" else if |texts| == 1 then texts[0] else texts[0] + "\n" + Lines(texts[1..])
  }

  lemma {:induction false} NonEmptyGrows(texts: seq<string>, text: string)
    ensures NonEmpty(texts + [text]) == NonEmpty(texts) + if text == "" then [] else [text]
  {
    if texts == [] {
      assert texts + [text] == [text] && [text][1..] == [];
    } else {
      assert (texts + [text])[1..] == texts[1..] + [text];
      NonEmptyGrows(texts[1..], text);
    }
  }

  lemma {:induction false} LinesGrow(texts: seq<string>, text: string)
    ensures Lines(texts + [text]) == if texts == [] then text else Lines(texts) + "\n" + text
  {
    if |texts| > 1 {
      assert (texts + [text])[1..] == texts[1..] + [text];
      LinesGrow(texts[1..], text);
    } else if |texts| == 1 {
      assert (texts + [text])[1..] == [text];
    }
  }

  /** A message's text is its texts that are not empty, one to a line. */
  lemma {:induction false} JoinedIsLines(texts: seq<string>)
    ensures Joined(texts) == Lines(NonEmpty(texts))
    ensures Joined(texts) == "" <==> NonEmpty(texts) == []
  {
    if texts != [] {
      var front, last := texts[..|texts| - 1], texts[|texts| - 1];
      assert texts == front + [last];
      JoinedIsLines(front);
      NonEmptyGrows(front, last);
      LinesGrow(NonEmpty(front), last);
      assert NonEmpty(front) + [] == NonEmpty(front);
    }
  }

  predicate Occurs(text: string, part: string, i: nat) {
    i + |part| <= |text| && text[i..i + |part|] == part
  }

  /** The first occurrence at or after `from`. */
  ghost predicate FirstAt(text: string, part: string, from: nat, i: nat) {
    from <= i && Occurs(text, part, i) && forall k: nat | from <= k < i :: !Occurs(text, part, k)
  }

  lemma {:induction false} FindIsFirst(text: string, part: string, from: nat)
    ensures var at := Find(text, part, from);
            if at.Some? then FirstAt(text, part, from, at.value)
            else forall k: nat | from <= k :: !Occurs(text, part, k)
    decreases |text| - from
  {
    if from + |part| <= |text| && !Occurs(text, part, from) {
      FindIsFirst(text, part, from + 1);
    }
  }

  /** A citation is cut out: from the first opening mark through the first closing mark behind it. */
  lemma CitationIsCut(text: string, i: nat, j: nat)
    requires FirstAt(text, "<oai-mem-citation>", 0, i) && FirstAt(text, "</oai-mem-citation>", i, j)
    ensures Normalized(text) == Normalized(text[..i] + text[j + 19..])
  {
    FindIsFirst(text, OPENING, 0);
    FindIsFirst(text, CLOSING, i);
    OneFirst(text, OPENING, 0, i);
    OneFirst(text, CLOSING, i, j);
  }

  lemma OneFirst(text: string, part: string, from: nat, i: nat)
    requires FirstAt(text, part, from, i)
    ensures Find(text, part, from) == Some(i)
  {
    hide Find;
    FindIsFirst(text, part, from);
  }

  /** A text without a citation loses its surrounding white space only. */
  lemma UncitedIsTrimmed(text: string)
    requires forall i: nat, j: nat | i <= j ::
      !(Occurs(text, "<oai-mem-citation>", i) && Occurs(text, "</oai-mem-citation>", j))
    ensures Normalized(text) == TrimSpace(text)
  {
    hide TrimSpace;
    FindIsFirst(text, OPENING, 0);
    var start := Find(text, OPENING, 0);
    if start.Some? {
      FindIsFirst(text, CLOSING, start.value);
    }
  }

  // ---------------------------------------------------------------- suppression

  lemma PendingStep(p: Parser, r: Record)
    ensures r.Undecoded? ==> Parse(p, r).0.pending == p.pending
    ensures !r.Undecoded? && Parse(p, r).0.pending != "" ==>
      r.AgentMessage? && Parse(p, r).0.pending == Normalized(r.message)
  {
  }

  /** The text that waits for its mirror is that of the record at `i`, the last one decoded. */
  ghost predicate LastDecoded(records: seq<Record>, i: nat, pending: string) {
    && i < |records| && records[i].AgentMessage? && Normalized(records[i].message) == pending
    && forall k | i < k < |records| :: records[k].Undecoded?
  }

  lemma LastDecodedStays(front: seq<Record>, r: Record, i: nat, pending: string)
    requires LastDecoded(front, i, pending) && r.Undecoded?
    ensures LastDecoded(front + [r], i, pending)
  {
  }

  lemma {:induction false} PendingIsLastMessage(records: seq<Record>) returns (i: nat)
    requires Final(records).pending != ""
    ensures LastDecoded(records, i, Final(records).pending)
  {
    var n := |records| - 1;
    var front := records[..n];
    PendingStep(Final(front), records[n]);
    if records[n].Undecoded? {
      i := PendingIsLastMessage(front);
      LastDecodedStays(front, records[n], i, Final(front).pending);
      assert front + [records[n]] == records;
    } else {
      i := n;
    }
  }

  /** A record's events are dropped only if it repeats the message of the last decoded record;
      what is dropped is content, and the tracker has moved on as if it had been sent. */
  lemma OnlyMirrorsAreDropped(records: seq<Record>, r: Record) returns (i: nat)
    requires !r.Undecoded?
    requires Parse(Final(records), r).1 != Decorated(Final(records).turns, r).1
    ensures i < |records| && records[i].AgentMessage? && r.AssistantMessage?
    ensures Normalized(records[i].message) == Normalized(Joined(r.texts))
    ensures forall k | i < k < |records| :: records[k].Undecoded?
    ensures forall e | e in Decorated(Final(records).turns, r).1 :: e.Content?
    ensures Parse(Final(records), r).0.turns == Decorated(Final(records).turns, r).0 == Final(records).turns
  {
    i := PendingIsLastMessage(records);
  }

  /** The last decoded record is an agent message with the same text, citations and surrounding
      white space aside, and the text is not empty. */
  ghost predicate Mirrored(records: seq<Record>, text: string) {
    exists i: nat :: LastDecoded(records, i, Normalized(text)) && records[i].message != "" && Normalized(text) != ""
  }

  lemma PendingIff(p: Parser, r: Record)
    requires !r.Undecoded?
    ensures Parse(p, r).0.pending == if r.AgentMessage? && r.message != "" then Normalized(r.message) else ""
  {
    hide Normalized, Joined;
  }

  lemma {:induction false} PendingHas(records: seq<Record>, i: nat, pending: string)
    requires LastDecoded(records, i, pending) && records[i].message != ""
    ensures Final(records).pending == pending
  {
    hide Parse, Normalized;
    var n := |records| - 1;
    var front := records[..n];
    PendingStep(Final(front), records[n]);
    if i < n {
      PendingHas(front, i, pending);
    } else {
      PendingIff(Final(front), records[n]);
    }
  }

  lemma PendingHasText(records: seq<Record>, i: nat)
    requires LastDecoded(records, i, Final(records).pending) && Final(records).pending != ""
    ensures records[i].message != ""
  {
    hide Parse;
    if records[i].message == "" {
      NothingNormalized();
    }
  }

  lemma NothingNormalized()
    ensures Normalized("") == ""
  {
  }

  /** An assistant message is dropped if and only if it mirrors the message right before it;
      otherwise its text is sent, stamped with the open turn. */
  lemma DroppedIffMirrored(records: seq<Record>, texts: seq<string>)
    requires Joined(texts) != ""
    ensures Stream(records + [AssistantMessage(texts)]) ==
      if Mirrored(records, Joined(texts)) then Stream(records)
      else Stream(records) + [Content("agent_text", Joined(texts), OpenAfter(Stream(records)))]
  {
    hide Normalized, Joined, OpenAfter;
    var r, text := AssistantMessage(texts), Joined(texts);
    assert (records + [r])[..|records|] == records;
    StreamIsBracketed(records);
    var p := Final(records);
    if Mirrored(records, text) {
      var i: nat :| LastDecoded(records, i, Normalized(text)) && records[i].message != "" && Normalized(text) != "";
      PendingHas(records, i, Normalized(text));
    } else if p.pending != "" {
      var i := PendingIsLastMessage(records);
      PendingHasText(records, i);
    }
    AssistantStep(p, texts);
    assert Stream(records) + [] == Stream(records);
  }

  lemma AssistantStep(p: Parser, texts: seq<string>)
    requires Joined(texts) != ""
    ensures Parse(p, AssistantMessage(texts)).1 ==
      if p.pending != "" && Normalized(Joined(texts)) == p.pending then []
      else [Content("agent_text", Joined(texts), p.turns.active)]
  {
    hide Normalized, Joined;
  }

  /** A message is mirrored at most once: the record after a dropped one is kept. */
  lemma DroppedOnce(records: seq<Record>, r: Record, next: Record)
    requires Mirrors(Final(records).pending, r) && !next.Undecoded?
    ensures Parse(Final(records + [r]), next).1 == Decorated(Final(records + [r]).turns, next).1
  {
    assert (records + [r])[..|records|] == records;
  }

  // ---------------------------------------------------------------- the parser object

  class RolloutParser {
    var session: string
    var active: Option<Turn>
    var pendingText: string

    ghost function View(): Parser
      reads this
    {
      Parser(Tracker(session, active), pendingText)
    }

    constructor ()
      ensures View() == FRESH
    {
      session, active, pendingText := "", None, "";
    }

    method SetSessionId(id: string)
      modifies this`session
      ensures View().turns == SetSession(old(View()).turns, id)
    {
      var trimmed := TrimSpace(id);
      if trimmed != "" {
        session := trimmed;
      }
    }

    method BeginTurn(source: string) returns (started: seq<Event>)
      modifies this`active
      ensures (View().turns, started) == Begin(old(View()).turns, source)
    {
      var trimmed := TrimSpace(source);
      if session == "" || trimmed == "" || active.Some? {
        return [];
      }
      active := Some(Turn(session, "", trimmed));
      started := [Status(active.value, Running)];
    }

    method EndTurn(source: string, state: TurnState) returns (done: seq<Event>)
      modifies this`active
      ensures (View().turns, done) == End(old(View()).turns, source, state)
    {
      if active.None? {
        return [];
      }
      var trimmed := TrimSpace(source);
      if trimmed != "" && trimmed != active.value.source {
        return [];
      }
      done := [Status(active.value, state)];
      active := None;
    }

    method StampTurns(events: seq<Event>) returns (stamped: seq<Event>)
      ensures stamped == Stamped(events, active)
    {
      stamped := [];
      for i := 0 to |events|
        invariant stamped == Stamped(events, active)[..i]
      {
        var e := events[i];
        if e.Content? && active.Some? && e.kind != "session_status" {
          e := e.(stamp := active);
        }
        stamped := stamped + [e];
      }
    }

    method Decorate(r: Record) returns (events: seq<Event>)
      modifies this`session, this`active
      ensures (View().turns, events) == Decorated(old(View()).turns, r)
    {
      events := Converted(r);
      match r
      case SessionMeta(id) => SetSessionId(id);
      case TaskStarted(turnId) =>
        var started := BeginTurn(turnId);
        events := started + events;
      case TaskComplete(turnId, failed) =>
        events := StampTurns(events);
        var done := EndTurn(turnId, if failed then Failed else Completed);
        events := done + events;
      case Undecoded(_) =>
      case _ => events := StampTurns(events);
    }

    method JoinTexts(texts: seq<string>) returns (text: string)
      ensures text == Joined(texts)
    {
      text := "";
      for i := 0 to |texts|
        invariant text == Joined(texts[..i])
      {
        assert texts[..i + 1][..i] == texts[..i];
        if texts[i] != "" {
          if text != "" {
            text := text + "\n";
          }
          text := text + texts[i];
        }
      }
      assert texts[..|texts|] == texts;
    }

    method Normalize(message: string) returns (text: string)
      ensures text == Normalized(message)
    {
      text := message;
      while true
        invariant Normalized(text) == Normalized(message)
        decreases |text|
      {
        var start := Find(text, OPENING, 0);
        if start.None? {
          break;
        }
        var end := Find(text, CLOSING, start.value);
        if end.None? {
          break;
        }
        text := text[..start.value] + text[end.value + |CLOSING|..];
      }
      text := TrimSpace(text);
    }

    method ParseRecord(r: Record) returns (events: seq<Event>)
      modifies this
      ensures (View(), events) == Parse(old(View()), r)
    {
      if r.Undecoded? {
        return Converted(r);
      }
      events := Decorate(r);
      if r.AgentMessage? && r.message != "" {
        pendingText := Normalize(r.message);
        return;
      }
      if r.AssistantMessage? {
        var text := JoinTexts(r.texts);
        if text != "" && pendingText != "" {
          var normal := Normalize(text);
          if normal == pendingText {
            pendingText := "";
            events := [];
            return;
          }
        }
      }
      pendingText := "";
    }
  }
}
