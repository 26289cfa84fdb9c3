/** Streams of events with turns marked in them, and what it means that they are bracketed. */
module Turns {
  import opened Common

  /** What a logical turn id is the hash of. */
  datatype Turn = Turn(session: string, actor: string, source: string)

  datatype TurnState = Running | Completed | Interrupted | Failed

  /** An event of the stream; a content event may carry the turn it was stamped with. */
  datatype Event =
    | Status(turn: Turn, state: TurnState)
    | Content(kind: string, text: string, stamp: Option<Turn>)

  predicate Terminal(e: Event) {
    e.Status? && !e.state.Running?
  }

  /** The turn a stream leaves open: that of its last status event, if that says running. */
  function OpenAfter(stream: seq<Event>): Option<Turn> {
    if stream == [] then None
    else
      var last := stream[|stream| - 1];
      if last.Status? then (if last.state.Running? then Some(last.turn) else None)
      else OpenAfter(stream[..|stream| - 1])
  }

  /** The event may stand at this position: a running status only between turns, a terminal
      status only for the open turn, stamped content only inside its own turn. */
  ghost predicate Fits(stream: seq<Event>, p: nat)
    requires p < |stream|
  {
    var open := OpenAfter(stream[..p]);
    match stream[p]
    case Status(turn, state) => open == if state.Running? then None else Some(turn)
    case Content(_, _, stamp) => stamp.None? || stamp == open
  }

  ghost predicate Bracketed(stream: seq<Event>) {
    forall p | 0 <= p < |stream| :: Fits(stream, p)
  }

  /** Content of a list of events that all carry this stamp, or none. */
  predicate AllContent(events: seq<Event>, stamp: Option<Turn>) {
    forall i | 0 <= i < |events| :: events[i].Content? && (events[i].stamp.None? || events[i].stamp == stamp)
  }

  lemma OpenAfterOne(stream: seq<Event>, e: Event)
    ensures OpenAfter(stream + [e]) == if e.Status? then (if e.state.Running? then Some(e.turn) else None)
      else OpenAfter(stream)
  {
    assert (stream + [e])[..|stream|] == stream;
  }

  /** Whether an event fits depends only on what comes before it. */
  lemma FitsStays(stream: seq<Event>, more: seq<Event>, p: nat)
    requires p < |stream|
    ensures Fits(stream + more, p) <==> Fits(stream, p)
  {
    assert (stream + more)[..p] == stream[..p];
  }

  lemma AddOne(stream: seq<Event>, e: Event)
    requires Bracketed(stream) && Fits(stream + [e], |stream|)
    ensures Bracketed(stream + [e])
  {
    forall p | 0 <= p < |stream| ensures Fits(stream + [e], p) {
      FitsStays(stream, [e], p);
    }
  }

  lemma AddStatus(stream: seq<Event>, turn: Turn, state: TurnState)
    requires Bracketed(stream) && OpenAfter(stream) == if state.Running? then None else Some(turn)
    ensures Bracketed(stream + [Status(turn, state)])
    ensures OpenAfter(stream + [Status(turn, state)]) == if state.Running? then Some(turn) else None
  {
    assert (stream + [Status(turn, state)])[..|stream|] == stream;
    AddOne(stream, Status(turn, state));
  }

  lemma {:induction false} AddContent(stream: seq<Event>, events: seq<Event>)
    requires Bracketed(stream) && AllContent(events, OpenAfter(stream))
    ensures Bracketed(stream + events) && OpenAfter(stream + events) == OpenAfter(stream)
    decreases |events|
  {
    if events == [] {
      assert stream + events == stream;
    } else {
      var n := |events| - 1;
      AddContent(stream, events[..n]);
      assert stream + events == (stream + events[..n]) + [events[n]];
      assert (stream + events)[..|stream| + n] == stream + events[..n];
      OpenAfterOne(stream + events[..n], events[n]);
      AddOne(stream + events[..n], events[n]);
    }
  }

  /** In a bracketed stream a terminal status closes the turn opened by the status before it. */
  lemma {:induction false} OpenedBefore(stream: seq<Event>, turn: Turn) returns (i: nat)
    requires OpenAfter(stream) == Some(turn)
    ensures i < |stream| && stream[i] == Status(turn, Running)
    ensures forall k | i < k < |stream| :: stream[k].Content?
  {
    var n := |stream| - 1;
    if stream[n].Status? {
      i := n;
    } else {
      i := OpenedBefore(stream[..n], turn);
    }
  }

  /** A stamped event or terminal status that fits is preceded by the running status of its
      turn, with no other status in between. */
  lemma BracketedMeaning(stream: seq<Event>, p: nat, turn: Turn) returns (i: nat)
    requires p < |stream| && Fits(stream, p)
    requires (Terminal(stream[p]) && stream[p].turn == turn) || (stream[p].Content? && stream[p].stamp == Some(turn))
    ensures i < p && stream[i] == Status(turn, Running)
    ensures forall k | i < k < p :: stream[k].Content?
  {
    i := OpenedBefore(stream[..p], turn);
    assert forall k | 0 <= k < p :: stream[..p][k] == stream[k];
  }
}
