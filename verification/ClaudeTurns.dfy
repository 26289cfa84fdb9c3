/**
 The turns of a Claude session, derived from its records.

 A user record opens a turn unless one is open; a result, a turn-duration record after an
 end of turn, or an interruption marker closes it.  Content in between carries the turn.
 */
module ClaudeTurns {
  import opened Common
  import opened Turns

  /** A record as the turn tracker sees it, with the kinds of the events it is converted to. */
  datatype Entry =
    | Assistant(hasMessage: bool, endTurn: bool, kinds: seq<string>)
    | User(isMeta: bool, interrupted: bool, uuid: string, kinds: seq<string>)
    | SystemRecord(turnDuration: bool, kinds: seq<string>)
    | Result
    | PermissionMode(mode: string)
    | OtherEntry

  /** A line: its session, whether it belongs to a subagent, and how many plans the task
      state returns for it.  A line that is not JSON, or is blank, is no record. */
  datatype Line =
    | Record(entry: Entry, session: string, sidechain: bool, plans: nat)
    | NotJson
    | Blank

  datatype Parser = Parser(active: Option<Turn>, sawEndTurn: bool)

  const FRESH := Parser(None, false)

  function ActorKey(subagent: bool): string {
    if subagent then "sidechain" else ""
  }

  // ---------------------------------------------------------------- the tracker

  function Begin(p: Parser, session: string, uuid: string, subagent: bool): (Parser, seq<Event>) {
    if uuid == "" || p.active.Some? then (p, [])
    else
      var turn := Turn(session, ActorKey(subagent), uuid);
      (p.(active := Some(turn)), [Status(turn, Running)])
  }

  function End(p: Parser, state: TurnState): (Parser, seq<Event>) {
    match p.active
    case None => (p, [])
    case Some(turn) => (p.(active := None), [Status(turn, state)])
  }

  function Plain(kinds: seq<string>): seq<Event> {
    seq(|kinds|, i requires 0 <= i < |kinds| => Content(kinds[i], "", None))
  }

  function Stamped(events: seq<Event>, active: Option<Turn>): seq<Event> {
    seq(|events|, i requires 0 <= i < |events| =>
      if events[i].Content? && active.Some? then events[i].(stamp := active) else events[i])
  }

  function PlanKinds(n: nat): seq<string> {
    seq(n, i => "agent_plan")
  }

  // ---------------------------------------------------------------- one record

  function ParseEntry(p: Parser, entry: Entry, session: string, sidechain: bool): (Parser, seq<Event>) {
    match entry
    case Assistant(hasMessage, endTurn, kinds) =>
      (if hasMessage then p.(sawEndTurn := endTurn) else p, Stamped(Plain(kinds), p.active))
    case User(isMeta, interrupted, uuid, kinds) =>
      if isMeta then (p, [])
      else if interrupted then End(p.(sawEndTurn := false), Interrupted)
      else
        var (p', started) := Begin(p, session, uuid, sidechain);
        (if started != [] then p'.(sawEndTurn := false) else p', started + Stamped(Plain(kinds), p'.active))
    case SystemRecord(turnDuration, kinds) =>
      if turnDuration && p.sawEndTurn then
        var p' := p.(sawEndTurn := false);
        var (p'', done) := End(p', Completed);
        if done != [] then (p'', done + Plain(["session_status"])) else (p', Stamped(Plain(kinds), p'.active))
      else (p, Stamped(Plain(kinds), p.active))
    case Result =>
      var (p', done) := End(p.(sawEndTurn := false), Completed);
      (p', done + Plain(["session_status"]))
    case PermissionMode(mode) => (p, if TrimSpace(mode) == "" then [] else Plain(["permission_config_changed"]))
    case OtherEntry => (p, [])
  }

  /** One line: its own events, then the plans, stamped with the turn that is open by then. */
  function Parse(p: Parser, line: Line): (Parser, seq<Event>) {
    if !line.Record? then (p, [])
    else
      var (p', events) := ParseEntry(p, line.entry, line.session, line.sidechain);
      (p', events + Stamped(Plain(PlanKinds(line.plans)), p'.active))
  }

  // ---------------------------------------------------------------- runs

  function Final(lines: seq<Line>): Parser {
    if lines == [] then FRESH else Parse(Final(lines[..|lines| - 1]), lines[|lines| - 1]).0
  }

  function Stream(lines: seq<Line>): seq<Event> {
    if lines == [] then [] else Stream(lines[..|lines| - 1]) + Parse(Final(lines[..|lines| - 1]), lines[|lines| - 1]).1
  }

  lemma EndFits(stream: seq<Event>, p: Parser, state: TurnState, rest: seq<Event>)
    requires Bracketed(stream) && OpenAfter(stream) == p.active && !state.Running?
    requires AllContent(rest, None)
    ensures Bracketed(stream + (End(p, state).1 + rest)) && OpenAfter(stream + (End(p, state).1 + rest)) == None
  {
    if p.active.Some? {
      AddStatus(stream, p.active.value, state);
      AddContent(stream + [Status(p.active.value, state)], rest);
      assert stream + (End(p, state).1 + rest) == stream + [Status(p.active.value, state)] + rest;
    } else {
      AddContent(stream, rest);
      assert stream + (End(p, state).1 + rest) == stream + rest;
    }
  }

  lemma BeginFits(stream: seq<Event>, p: Parser, session: string, uuid: string, subagent: bool, kinds: seq<string>)
    requires Bracketed(stream) && OpenAfter(stream) == p.active
    ensures var (p', started) := Begin(p, session, uuid, subagent);
            var stream' := stream + (started + Stamped(Plain(kinds), p'.active));
            Bracketed(stream') && OpenAfter(stream') == p'.active
  {
    var (p', started) := Begin(p, session, uuid, subagent);
    var events := Stamped(Plain(kinds), p'.active);
    if started != [] {
      AddStatus(stream, started[0].turn, Running);
      assert started == [Status(started[0].turn, Running)];
    } else {
      assert stream + started == stream;
    }
    AddContent(stream + started, events);
    assert stream + (started + events) == stream + started + events;
  }

  lemma EntryFits(stream: seq<Event>, p: Parser, entry: Entry, session: string, sidechain: bool)
    requires Bracketed(stream) && OpenAfter(stream) == p.active
    ensures var (p', events) := ParseEntry(p, entry, session, sidechain);
            Bracketed(stream + events) && OpenAfter(stream + events) == p'.active
  {
    match entry
    case Assistant(_, _, kinds) => AddContent(stream, Stamped(Plain(kinds), p.active));
    case User(isMeta, interrupted, uuid, kinds) =>
      if isMeta {
        assert stream + [] == stream;
      } else if interrupted {
        EndFits(stream, p.(sawEndTurn := false), Interrupted, []);
        var events := End(p.(sawEndTurn := false), Interrupted).1;
        assert events + [] == events;
      } else {
        BeginFits(stream, p, session, uuid, sidechain, kinds);
      }
    case SystemRecord(turnDuration, kinds) =>
      EndFits(stream, p.(sawEndTurn := false), Completed, Plain(["session_status"]));
      AddContent(stream, Stamped(Plain(kinds), p.active));
    case Result => EndFits(stream, p.(sawEndTurn := false), Completed, Plain(["session_status"]));
    case PermissionMode(mode) =>
      AddContent(stream, Plain(["permission_config_changed"]));
      assert stream + [] == stream;
    case OtherEntry => assert stream + [] == stream;
  }

  lemma LineFits(stream: seq<Event>, p: Parser, line: Line)
    requires Bracketed(stream) && OpenAfter(stream) == p.active
    ensures Bracketed(stream + Parse(p, line).1) && OpenAfter(stream + Parse(p, line).1) == Parse(p, line).0.active
  {
    if line.Record? {
      var (p', events) := ParseEntry(p, line.entry, line.session, line.sidechain);
      var plans := Stamped(Plain(PlanKinds(line.plans)), p'.active);
      EntryFits(stream, p, line.entry, line.session, line.sidechain);
      AddContent(stream + events, plans);
      assert stream + (events + plans) == stream + events + plans;
    } else {
      assert stream + [] == stream;
    }
  }

  /** Over any sequence of lines the stream is bracketed: status events alternate running and
      terminal of the same turn, and stamped content lies inside its turn. */
  lemma {:induction false} StreamIsBracketed(lines: seq<Line>)
    ensures Bracketed(Stream(lines)) && OpenAfter(Stream(lines)) == Final(lines).active
  {
    if lines != [] {
      StreamIsBracketed(lines[..|lines| - 1]);
      LineFits(Stream(lines[..|lines| - 1]), Final(lines[..|lines| - 1]), lines[|lines| - 1]);
    }
  }

  /** Every stamped event and terminal status of a stream follows the running status of its turn. */
  lemma InsideItsTurn(lines: seq<Line>, p: nat, turn: Turn) returns (i: nat)
    requires p < |Stream(lines)|
    requires var e := Stream(lines)[p];
             (Terminal(e) && e.turn == turn) || (e.Content? && e.stamp == Some(turn))
    ensures i < p && Stream(lines)[i] == Status(turn, Running)
    ensures forall k | i < k < p :: Stream(lines)[k].Content?
  {
    StreamIsBracketed(lines);
    i := BracketedMeaning(Stream(lines), p, turn);
  }

  // ---------------------------------------------------------------- completion evidence

  predicate IsAssistant(line: Line) {
    line.Record? && line.entry.Assistant? && line.entry.hasMessage
  }

  /** A user record that opens a turn, given the turn that is open. */
  predicate StartsTurn(open: Option<Turn>, line: Line) {
    && line.Record? && line.entry.User? && !line.entry.isMeta && !line.entry.interrupted
    && line.entry.uuid != "" && open.None?
  }

  /** The line does not use up or withdraw the end-of-turn evidence of an earlier one: it is no
      assistant message, interruption, turn-duration record or result, and starts no turn. */
  predicate KeepsEvidence(open: Option<Turn>, line: Line) {
    line.Record? ==>
      match line.entry
      case Assistant(hasMessage, _, _) => !hasMessage
      case User(isMeta, interrupted, _, _) => isMeta || (!interrupted && !StartsTurn(open, line))
      case SystemRecord(turnDuration, _) => !turnDuration
      case Result => false
      case _ => true
  }

  /** The last assistant message is at `i`, it ended its turn, and nothing has used that up. */
  ghost predicate Evidence(lines: seq<Line>, i: nat) {
    && i < |lines| && IsAssistant(lines[i]) && lines[i].entry.endTurn
    && forall k | i < k < |lines| :: KeepsEvidence(OpenAfter(Stream(lines[..k])), lines[k])
  }

  lemma EvidenceStep(p: Parser, line: Line)
    ensures Parse(p, line).0.sawEndTurn <==>
      || (IsAssistant(line) && line.entry.endTurn)
      || (p.sawEndTurn && KeepsEvidence(p.active, line))
  {
  }

  lemma EvidenceExtends(lines: seq<Line>, line: Line, i: nat)
    requires i < |lines|
    ensures Evidence(lines + [line], i) <==> Evidence(lines, i) && KeepsEvidence(OpenAfter(Stream(lines)), line)
  {
    var all := lines + [line];
    assert all[..|lines|] == lines && all[|lines|] == line;
    assert forall k | 0 <= k < |lines| :: all[..k] == lines[..k] && all[k] == lines[k];
  }

  /** The flag of the parser is exactly the evidence in the lines it has read. */
  lemma {:induction false} EvidenceIsRemembered(lines: seq<Line>)
    ensures Final(lines).sawEndTurn <==> exists i: nat :: Evidence(lines, i)
  {
    if lines != [] {
      var n := |lines| - 1;
      var front, line := lines[..n], lines[n];
      EvidenceIsRemembered(front);
      EvidenceStep(Final(front), line);
      StreamIsBracketed(front);
      assert front + [line] == lines;
      if Final(lines).sawEndTurn {
        if IsAssistant(line) && line.entry.endTurn {
          assert Evidence(lines, n);
        } else {
          var i: nat :| Evidence(front, i);
          EvidenceExtends(front, line, i);
        }
      }
      if i: nat :| Evidence(lines, i) {
        if i < n {
          EvidenceExtends(front, line, i);
        }
      }
    }
  }

  lemma StreamGrows(lines: seq<Line>, line: Line)
    ensures Stream(lines + [line]) == Stream(lines) + Parse(Final(lines), line).1
  {
    assert (lines + [line])[..|lines|] == lines;
  }

  predicate IsTurnDuration(line: Line) {
    line.Record? && line.entry.SystemRecord? && line.entry.turnDuration
  }

  lemma DurationStep(p: Parser, line: Line)
    requires IsTurnDuration(line)
    ensures var events := Parse(p, line).1;
            if p.sawEndTurn && p.active.Some? then events != [] && events[0] == Status(p.active.value, Completed)
            else forall k | 0 <= k < |events| :: events[k].Content?
  {
  }

  /** A turn-duration record completes a turn if and only if a turn is open and the last
      assistant message ended it, with no turn begun, interrupted, completed or given a result
      since; and then it completes the open turn. */
  lemma DurationCompletesIff(lines: seq<Line>, line: Line)
    requires IsTurnDuration(line)
    ensures var before, after := Stream(lines), Stream(lines + [line]);
            && before <= after
            && ((exists k | |before| <= k < |after| :: after[k].Status?) <==>
                OpenAfter(before).Some? && exists i: nat :: Evidence(lines, i))
            && (forall k | |before| <= k < |after| && after[k].Status? ::
                  OpenAfter(before).Some? && after[k] == Status(OpenAfter(before).value, Completed))
  {
    hide Parse, Stream, Evidence, OpenAfter;
    StreamGrows(lines, line);
    StreamIsBracketed(lines);
    EvidenceIsRemembered(lines);
    DurationStep(Final(lines), line);
    var before, after := Stream(lines), Stream(lines + [line]);
    var events := Parse(Final(lines), line).1;
    assert forall k | 0 <= k < |events| :: after[|before| + k] == events[k];
    OneStatus(Final(lines), line);
  }

  /** A line carries at most one status event, and it comes first. */
  lemma OneStatus(p: Parser, line: Line)
    ensures forall k | 0 < k < |Parse(p, line).1| :: Parse(p, line).1[k].Content?
  {
  }

  /** The line that can have produced a completion: a result, or a turn-duration record with
      evidence. */
  ghost predicate Completes(lines: seq<Line>, line: Line) {
    && line.Record?
    && (line.entry.Result? || (IsTurnDuration(line) && exists i: nat :: Evidence(lines, i)))
  }

  lemma CompletionStep(p: Parser, line: Line, k: nat)
    requires k < |Parse(p, line).1| && Parse(p, line).1[k].Status? && Parse(p, line).1[k].state.Completed?
    ensures line.Record? && (line.entry.Result? || (IsTurnDuration(line) && p.sawEndTurn))
    ensures p.active == Some(Parse(p, line).1[k].turn)
  {
  }

  /** Every completion in a stream stems from a result or from a turn-duration record with
      evidence, and completes the turn that was open. */
  lemma {:induction false} CompletionHasEvidence(lines: seq<Line>, p: nat) returns (n: nat)
    requires p < |Stream(lines)| && Stream(lines)[p].Status? && Stream(lines)[p].state.Completed?
    ensures n < |lines| && Completes(lines[..n], lines[n])
    ensures |Stream(lines[..n])| <= p < |Stream(lines[..n + 1])|
    ensures OpenAfter(Stream(lines[..n])) == Some(Stream(lines)[p].turn)
    decreases |lines|
  {
    hide Parse, Completes, OpenAfter;
    n := |lines| - 1;
    var front, line := lines[..n], lines[n];
    if p < |Stream(front)| {
      var m := CompletionHasEvidence(front, p);
      assert front[..m] == lines[..m] && front[..m + 1] == lines[..m + 1] && front[m] == lines[m];
      n := m;
    } else {
      CompletionStep(Final(front), line, p - |Stream(front)|);
      StreamIsBracketed(front);
      CompletesNow(front, line);
      assert lines[..n + 1] == lines;
    }
  }

  lemma CompletesNow(lines: seq<Line>, line: Line)
    requires line.Record? && (line.entry.Result? || (IsTurnDuration(line) && Final(lines).sawEndTurn))
    ensures Completes(lines, line)
  {
    EvidenceIsRemembered(lines);
  }

  // ---------------------------------------------------------------- when turns open and close

  /** A record that closes whatever turn is open, and how: an interruption, a result, or a
      turn-duration record with evidence. */
  ghost function Closing(lines: seq<Line>, line: Line): Option<TurnState> {
    if !line.Record? then None
    else
      match line.entry
      case User(isMeta, interrupted, _, _) => if !isMeta && interrupted then Some(Interrupted) else None
      case Result => Some(Completed)
      case SystemRecord(_, _) =>
        if IsTurnDuration(line) && exists i: nat :: Evidence(lines, i) then Some(Completed) else None
      case _ => None
  }

  /** The turn a user record opens, named by its session, its actor and its own id. */
  function Opened(line: Line): Turn
    requires line.Record? && line.entry.User?
  {
    Turn(line.session, if line.sidechain then "sidechain" else "", line.entry.uuid)
  }

  /** What one line does to the open turn of the stream, and which status it emits: a turn opens
      exactly at an identified user record with no turn open, closes exactly at closing
      evidence, and otherwise stays as it is. */
  lemma TurnsOpenAndClose(lines: seq<Line>, line: Line)
    ensures var open := OpenAfter(Stream(lines));
            var after := OpenAfter(Stream(lines + [line]));
            if StartsTurn(open, line) then
              after == Some(Opened(line)) && StatusesOf(lines, line) == [Status(Opened(line), Running)]
            else if open.Some? && Closing(lines, line).Some? then
              after == None && StatusesOf(lines, line) == [Status(open.value, Closing(lines, line).value)]
            else after == open && StatusesOf(lines, line) == []
  {
    hide Stream, Evidence, Parse, Statuses;
    StreamGrows(lines, line);
    StreamIsBracketed(lines);
    StreamIsBracketed(lines + [line]);
    EvidenceIsRemembered(lines);
    assert (lines + [line])[..|lines|] == lines;
    FinalGrows(lines, line);
    OneLine(Final(lines), line);
  }

  lemma FinalGrows(lines: seq<Line>, line: Line)
    ensures Final(lines + [line]) == Parse(Final(lines), line).0
  {
    assert (lines + [line])[..|lines|] == lines;
  }

  /** The status events of a list. */
  function Statuses(events: seq<Event>): seq<Event> {
    if events == [] then []
    else
      var n := |events| - 1;
      Statuses(events[..n]) + if events[n].Status? then [events[n]] else []
  }

  /** The status events a line adds to the stream. */
  function StatusesOf(lines: seq<Line>, line: Line): seq<Event> {
    Statuses(Parse(Final(lines), line).1)
  }

  lemma {:induction false} StatusFirst(events: seq<Event>)
    requires forall k | 0 < k < |events| :: events[k].Content?
    ensures Statuses(events) == if events != [] && events[0].Status? then [events[0]] else []
  {
    if |events| > 1 {
      StatusFirst(events[..|events| - 1]);
    } else if |events| == 1 {
      assert events[..0] == [];
    }
  }

  lemma OneLine(p: Parser, line: Line)
    ensures var after := Parse(p, line).0.active;
            var statuses := Statuses(Parse(p, line).1);
            if StartsTurn(p.active, line) then
              after == Some(Opened(line)) && statuses == [Status(Opened(line), Running)]
            else if p.active.Some? && line.Record? && line.entry.User? && !line.entry.isMeta
              && line.entry.interrupted then
              after == None && statuses == [Status(p.active.value, Interrupted)]
            else if p.active.Some? && line.Record?
              && (line.entry.Result? || (IsTurnDuration(line) && p.sawEndTurn)) then
              after == None && statuses == [Status(p.active.value, Completed)]
            else after == p.active && statuses == []
  {
    hide Statuses;
    OneStatus(p, line);
    StatusFirst(Parse(p, line).1);
  }

  // ---------------------------------------------------------------- the content of a stream

  /** Content of these kinds, all with this stamp. */
  function ContentOf(kinds: seq<string>, stamp: Option<Turn>): seq<Event> {
    seq(|kinds|, i requires 0 <= i < |kinds| => Content(kinds[i], "", stamp))
  }

  /** The content a record shows in its turn: what it was converted to, unless it is a meta record,
      an interruption or a turn-duration record that completes a turn. */
  function InTurn(line: Line, completes: bool): seq<string> {
    if !line.Record? then []
    else
      match line.entry
      case Assistant(_, _, kinds) => kinds
      case User(isMeta, interrupted, _, kinds) => if isMeta || interrupted then [] else kinds
      case SystemRecord(_, kinds) => if completes then [] else kinds
      case _ => []
  }

  /** The content a record shows about the session: that it is idle again, or how it may act. */
  function OutsideTurn(line: Line, completes: bool): seq<string> {
    if !line.Record? then []
    else if line.entry.Result? || completes then ["session_status"]
    else if line.entry.PermissionMode? && TrimSpace(line.entry.mode) != "" then ["permission_config_changed"]
    else []
  }

  /** A line adds its status events, its session's content without a stamp, and its own content and
      then one plan for each that the task state returned, with the stamp of the turn that is open
      behind the line; nothing is lost and nothing is put in another order. */
  lemma StreamAdds(lines: seq<Line>, line: Line)
    ensures var open := OpenAfter(Stream(lines + [line]));
            var completes := IsTurnDuration(line) && StatusesOf(lines, line) != [];
            Stream(lines + [line]) == Stream(lines)
              + (StatusesOf(lines, line) + ContentOf(OutsideTurn(line, completes), None)
                 + ContentOf(InTurn(line, completes), open)
                 + ContentOf(if line.Record? then seq(line.plans, i => "agent_plan") else [], open))
  {
    hide Stream, Parse, Statuses, InTurn, OutsideTurn;
    StreamGrows(lines, line);
    StreamIsBracketed(lines + [line]);
    FinalGrows(lines, line);
    LineAdds(Final(lines), line);
  }

  lemma LineAdds(p: Parser, line: Line)
    ensures var (p', events) := Parse(p, line);
            var completes := IsTurnDuration(line) && Statuses(events) != [];
            events == Statuses(events) + ContentOf(OutsideTurn(line, completes), None)
              + ContentOf(InTurn(line, completes), p'.active)
              + ContentOf(if line.Record? then seq(line.plans, i => "agent_plan") else [], p'.active)
  {
    hide Statuses;
    OneStatus(p, line);
    var (p', events) := Parse(p, line);
    StatusFirst(events);
    if line.Record? {
      PlansStamped(line.plans, p'.active);
      EntryAdds(p, line);
    }
  }

  lemma PlansStamped(n: nat, active: Option<Turn>)
    ensures Stamped(Plain(PlanKinds(n)), active) == ContentOf(seq(n, i => "agent_plan"), active)
  {
  }

  lemma EntryAdds(p: Parser, line: Line)
    requires line.Record?
    ensures var (p', events) := ParseEntry(p, line.entry, line.session, line.sidechain);
            var statuses := if events != [] && events[0].Status? then [events[0]] else [];
            var completes := IsTurnDuration(line) && statuses != [];
            events == statuses + ContentOf(OutsideTurn(line, completes), None)
              + ContentOf(InTurn(line, completes), p'.active)
  {
    KindsStamped(line.entry, p.active);
  }

  lemma KindsStamped(entry: Entry, active: Option<Turn>)
    ensures entry.Assistant? || entry.User? || entry.SystemRecord? ==>
      Stamped(Plain(entry.kinds), active) == ContentOf(entry.kinds, active)
  {
  }

  // ---------------------------------------------------------------- the parser object

  class StreamParser {
    var active: Option<Turn>
    var sawEndTurn: bool

    ghost function View(): Parser
      reads this
    {
      Parser(active, sawEndTurn)
    }

    constructor ()
      ensures View() == FRESH
    {
      active, sawEndTurn := None, false;
    }

    method BeginTurn(session: string, uuid: string, subagent: bool) returns (started: seq<Event>)
      modifies this`active
      ensures (View(), started) == Begin(old(View()), session, uuid, subagent)
    {
      if uuid == "" || active.Some? {
        return [];
      }
      active := Some(Turn(session, ActorKey(subagent), uuid));
      started := [Status(active.value, Running)];
    }

    method EndTurn(state: TurnState) returns (done: seq<Event>)
      modifies this`active
      ensures (View(), done) == End(old(View()), state)
    {
      if active.None? {
        return [];
      }
      done := [Status(active.value, state)];
      active := None;
    }

    method StampTurns(events: seq<Event>) returns (stamped: seq<Event>)
      ensures stamped == Stamped(events, active)
    {
      stamped := [];
      for i := 0 to |events|
        invariant stamped == Stamped(events, active)[..i]
      {
        var e := events[i];
        if e.Content? && active.Some? {
          e := e.(stamp := active);
        }
        stamped := stamped + [e];
      }
    }

    method ParseRecord(entry: Entry, session: string, sidechain: bool) returns (events: seq<Event>)
      modifies this
      ensures (View(), events) == ParseEntry(old(View()), entry, session, sidechain)
    {
      events := [];
      match entry
      case Assistant(hasMessage, endTurn, kinds) =>
        if hasMessage {
          sawEndTurn := endTurn;
        }
        events := StampTurns(Plain(kinds));
      case User(isMeta, interrupted, uuid, kinds) =>
        if isMeta {
          return;
        }
        if interrupted {
          sawEndTurn := false;
          events := EndTurn(Interrupted);
          return;
        }
        var started := BeginTurn(session, uuid, sidechain);
        events := StampTurns(Plain(kinds));
        if started != [] {
          sawEndTurn := false;
        }
        events := started + events;
      case SystemRecord(turnDuration, kinds) =>
        if turnDuration && sawEndTurn {
          sawEndTurn := false;
          var done := EndTurn(Completed);
          if done != [] {
            events := done + Plain(["session_status"]);
            return;
          }
        }
        events := StampTurns(Plain(kinds));
      case Result =>
        sawEndTurn := false;
        var done := EndTurn(Completed);
        events := done + Plain(["session_status"]);
      case PermissionMode(mode) =>
        if TrimSpace(mode) != "" {
          events := Plain(["permission_config_changed"]);
        }
      case OtherEntry =>
    }

    method ParseLine(line: Line) returns (events: seq<Event>)
      modifies this
      ensures (View(), events) == Parse(old(View()), line)
    {
      if !line.Record? {
        return [];
      }
      events := ParseRecord(line.entry, line.session, line.sidechain);
      var plans := StampTurns(Plain(PlanKinds(line.plans)));
      events := events + plans;
    }
  }
}
