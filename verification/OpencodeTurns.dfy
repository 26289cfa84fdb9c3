/**
 Which state a poll announces of a turn, in terms of the snapshot's messages.

 A user message with an id starts a turn; the messages up to the next one belong to it.  A
 turn has failed if one of its assistant messages has an error; otherwise it is running as
 long as one of them is incomplete or there is none; otherwise it is completed.
 */
module OpencodeTurns {
  import opened Common
  import opened OpencodeModel
  import opened OpencodeWeaving
  import opened OpencodeRuns

  // ---------------------------------------------------------------- turns of a snapshot

  predicate Starts(m: Message) {
    m.role.User? && m.id != ""
  }

  /** The last message before `k` that starts a turn is at `j`. */
  ghost predicate LastStart(ordered: seq<Message>, j: nat, k: nat) {
    && j < k <= |ordered| && Starts(ordered[j])
    && forall i | j < i < k :: !Starts(ordered[i])
  }

  /** The message at `k` belongs to the turn started by the user message `a`. */
  ghost predicate InTurn(ordered: seq<Message>, k: nat, a: string) {
    && k < |ordered| && a != ""
    && if ordered[k].role.User? then ordered[k].id == a
       else exists j: nat :: LastStart(ordered, j, k) && ordered[j].id == a
  }

  datatype Sign = Failing | Pending | Finishing

  /** What an assistant message tells about its turn. */
  predicate Shows(m: Message, sign: Sign) {
    && m.role.Assistant?
    && match sign
       case Failing => m.error != ""
       case Pending => m.error == "" && m.completed <= 0
       case Finishing => m.error == "" && m.completed > 0
  }

  /** Some message of the turn shows the sign. */
  ghost predicate HasSign(ordered: seq<Message>, a: string, sign: Sign) {
    exists k: nat :: k < |ordered| && InTurn(ordered, k, a) && Shows(ordered[k], sign)
  }

  ghost predicate IsTurn(ordered: seq<Message>, a: string) {
    exists k: nat :: k < |ordered| && Starts(ordered[k]) && ordered[k].id == a
  }

  /** The turn's user message was created then; of several with the same id, the first. */
  ghost predicate StartedAt(ordered: seq<Message>, a: string, t: int) {
    exists k: nat :: FirstStart(ordered, a, k) && ordered[k].created == t
  }

  ghost predicate FirstStart(ordered: seq<Message>, a: string, k: nat) {
    && k < |ordered| && Starts(ordered[k]) && ordered[k].id == a
    && forall i | 0 <= i < k && Starts(ordered[i]) :: ordered[i].id != a
  }

  /** The state the snapshot shows of a turn. */
  ghost function TurnShows(ordered: seq<Message>, a: string): TurnState {
    if HasSign(ordered, a, Failing) then TurnFailed
    else if HasSign(ordered, a, Pending) || !HasSign(ordered, a, Finishing) then Running
    else Completed
  }

  // ---------------------------------------------------------------- the walk finds them

  lemma InTurnStays(front: seq<Message>, m: Message, k: nat, a: string)
    requires k < |front|
    ensures InTurn(front + [m], k, a) <==> InTurn(front, k, a)
  {
    var all := front + [m];
    assert forall i | 0 <= i < |front| :: all[i] == front[i];
    forall j: nat ensures LastStart(all, j, k) <==> LastStart(front, j, k) {
    }
  }

  /** The turn of the last message. */
  lemma InTurnLast(front: seq<Message>, m: Message, a: string)
    ensures InTurn(front + [m], |front|, a) <==>
      a != "" && if m.role.User? then m.id == a else exists j: nat :: LastStart(front, j, |front|) && front[j].id == a
  {
    var all, n := front + [m], |front|;
    assert forall i | 0 <= i < n :: all[i] == front[i];
    forall j: nat ensures LastStart(all, j, n) <==> LastStart(front, j, n) {
    }
  }

  lemma HasSignPlus(front: seq<Message>, m: Message, a: string, sign: Sign)
    ensures HasSign(front + [m], a, sign) <==>
      HasSign(front, a, sign) || (InTurn(front + [m], |front|, a) && Shows(m, sign))
  {
    hide InTurn, Shows;
    var all := front + [m];
    if HasSign(front, a, sign) {
      var k: nat :| k < |front| && InTurn(front, k, a) && Shows(front[k], sign);
      InTurnStays(front, m, k, a);
      assert all[k] == front[k];
    }
    if HasSign(all, a, sign) {
      var k: nat :| k < |all| && InTurn(all, k, a) && Shows(all[k], sign);
      if k < |front| {
        InTurnStays(front, m, k, a);
        assert all[k] == front[k];
      }
    }
    if InTurn(all, |front|, a) && Shows(m, sign) {
      assert all[|front|] == m;
    }
  }

  /** The walk stands behind the last start. */
  ghost predicate Stands(ordered: seq<Message>, w: Walk) {
    if w.anchor == "" then forall i | 0 <= i < |ordered| :: !Starts(ordered[i])
    else exists j: nat ::
      LastStart(ordered, j, |ordered|) && ordered[j].id == w.anchor && ordered[j].created == w.startedAt
  }

  /** The turn has seen what its messages show. */
  ghost predicate Tells(ordered: seq<Message>, t: Turn) {
    && (t.failed <==> HasSign(ordered, t.anchor, Failing))
    && (t.running <==> HasSign(ordered, t.anchor, Pending))
    && (t.completed <==> HasSign(ordered, t.anchor, Finishing))
    && StartedAt(ordered, t.anchor, t.startedAt)
  }

  lemma StandsNext(front: seq<Message>, w: Walk, m: Message)
    requires Stands(front, w)
    ensures Stands(front + [m], WalkMessage(w, m))
  {
    hide TurnIndex, Evidence;
    var all, n := front + [m], |front|;
    if Starts(m) {
      assert LastStart(all, n, n + 1);
    } else if w.anchor != "" {
      var j: nat :| LastStart(front, j, n) && front[j].id == w.anchor && front[j].created == w.startedAt;
      assert LastStart(all, j, n + 1);
    }
  }

  /** The turn the walk gives a message to is the one it belongs to. */
  lemma AnchorIsTurn(front: seq<Message>, w: Walk, m: Message, a: string)
    requires Stands(front, w)
    ensures InTurn(front + [m], |front|, a) <==> a != "" && a == if m.role.User? then m.id else w.anchor
  {
    InTurnLast(front, m, a);
    if !m.role.User? && w.anchor != "" {
      var j: nat :| LastStart(front, j, |front|) && front[j].id == w.anchor;
      forall i: nat | LastStart(front, i, |front|) ensures i == j {
        OneLastStart(front, i, j);
      }
    }
  }

  lemma OneLastStart(ordered: seq<Message>, i: nat, j: nat)
    requires LastStart(ordered, i, |ordered|) && LastStart(ordered, j, |ordered|)
    ensures i == j
  {
  }

  lemma IsTurnPlus(front: seq<Message>, m: Message, a: string)
    ensures IsTurn(front + [m], a) <==> IsTurn(front, a) || (Starts(m) && m.id == a)
  {
    var all := front + [m];
    if k: nat :| k < |front| && Starts(front[k]) && front[k].id == a {
      assert all[k] == front[k];
    }
    if Starts(m) && m.id == a {
      assert all[|front|] == m;
    }
  }

  lemma StartedStays(front: seq<Message>, m: Message, a: string, t: int)
    requires StartedAt(front, a, t)
    ensures StartedAt(front + [m], a, t)
  {
    var k: nat :| FirstStart(front, a, k) && front[k].created == t;
    assert FirstStart(front + [m], a, k);
  }

  lemma StartedNow(front: seq<Message>, m: Message)
    requires Starts(m) && !IsTurn(front, m.id)
    ensures StartedAt(front + [m], m.id, m.created)
  {
    var all := front + [m];
    forall i | 0 <= i < |front| && Starts(all[i]) ensures all[i].id != m.id {
      assert all[i] == front[i];
    }
    assert FirstStart(all, m.id, |front|);
  }

  /** A turn of the walk after one more message. */
  lemma TellsNext(front: seq<Message>, t: Turn, m: Message, mine: bool)
    requires Tells(front, t) && (mine <==> InTurn(front + [m], |front|, t.anchor))
    ensures Tells(front + [m], if mine then Evidence(t, m) else t)
  {
    hide HasSign, InTurn, StartedAt;
    HasSignPlus(front, m, t.anchor, Failing);
    HasSignPlus(front, m, t.anchor, Pending);
    HasSignPlus(front, m, t.anchor, Finishing);
    StartedStays(front, m, t.anchor, t.startedAt);
  }

  lemma NoSignYet(ordered: seq<Message>, a: string, sign: Sign)
    requires !IsTurn(ordered, a)
    ensures !HasSign(ordered, a, sign)
  {
    if k: nat :| k < |ordered| && InTurn(ordered, k, a) && Shows(ordered[k], sign) {
      InTurnIsTurn(ordered, k, a);
    }
  }

  lemma InTurnIsTurn(ordered: seq<Message>, k: nat, a: string)
    requires InTurn(ordered, k, a)
    ensures IsTurn(ordered, a)
  {
    if ordered[k].role.User? {
      assert Starts(ordered[k]);
    }
  }

  lemma TellsFirst(front: seq<Message>, m: Message)
    requires Starts(m) && !IsTurn(front, m.id)
    ensures Tells(front + [m], Evidence(Turn(m.id, m.created, false, false, false), m))
  {
    hide HasSign, InTurn, StartedAt;
    NoSignYet(front, m.id, Failing);
    NoSignYet(front, m.id, Pending);
    NoSignYet(front, m.id, Finishing);
    HasSignPlus(front, m, m.id, Failing);
    HasSignPlus(front, m, m.id, Pending);
    HasSignPlus(front, m, m.id, Finishing);
    StartedNow(front, m);
  }

  /** What the walk knows of a snapshot: exactly its turns, each with what its messages show. */
  ghost predicate Knows(ordered: seq<Message>, w: Walk) {
    && Stands(ordered, w)
    && (forall a | a != "" :: IsTurn(ordered, a) <==> TurnIndex(w.turns, a) < |w.turns|)
    && (forall i | 0 <= i < |w.turns| :: Tells(ordered, w.turns[i]))
    && GoodTurns(w.turns)
  }

  lemma IndexAt(turns: seq<Turn>, i: nat)
    requires GoodTurns(turns) && i < |turns|
    ensures TurnIndex(turns, turns[i].anchor) == i
  {
    hide TurnIndex;
  }

  /** Where an anchor is found, whatever the turns have seen. */
  lemma IndexOnly(turns: seq<Turn>, a: string)
    ensures TurnIndex(turns, a) < |turns| <==> exists i :: 0 <= i < |turns| && turns[i].anchor == a
  {
    hide TurnIndex;
  }

  lemma NextTurns(front: seq<Message>, w: Walk, m: Message, i: nat)
    requires Knows(front, w) && i < |WalkMessage(w, m).turns|
    ensures Tells(front + [m], WalkMessage(w, m).turns[i])
  {
    hide Tells, Evidence, TurnIndex, Stands, IsTurn;
    var anchor := if m.role.User? then m.id else w.anchor;
    AnchorIsTurn(front, w, m, anchor);
    if i < |w.turns| {
      assert Tells(front, w.turns[i]);
      AnchorIsTurn(front, w, m, w.turns[i].anchor);
      IndexAt(w.turns, i);
      TellsNext(front, w.turns[i], m, anchor == w.turns[i].anchor);
    } else {
      NewAnchorStarts(front, w, m);
      TellsFirst(front, m);
    }
  }

  /** A turn is new to the walk only at the message that starts it. */
  lemma NewAnchorStarts(front: seq<Message>, w: Walk, m: Message)
    requires Knows(front, w)
    requires var a := if m.role.User? then m.id else w.anchor; a != "" && TurnIndex(w.turns, a) == |w.turns|
    ensures Starts(m) && !IsTurn(front, m.id)
  {
    hide Tells, TurnIndex;
    if w.anchor != "" {
      WalkAnchorIsTurn(front, w);
    }
  }

  lemma WalkAnchorIsTurn(front: seq<Message>, w: Walk)
    requires Stands(front, w) && w.anchor != ""
    ensures IsTurn(front, w.anchor)
  {
    var j: nat :| LastStart(front, j, |front|) && front[j].id == w.anchor;
    assert Starts(front[j]);
  }

  lemma NextIndex(front: seq<Message>, w: Walk, m: Message, a: string)
    requires Knows(front, w) && a != ""
    ensures IsTurn(front + [m], a) <==> TurnIndex(WalkMessage(w, m).turns, a) < |WalkMessage(w, m).turns|
  {
    hide Tells, TurnIndex, IsTurn, Stands, Evidence;
    var w' := WalkMessage(w, m);
    IsTurnPlus(front, m, a);
    IndexOnly(w.turns, a);
    IndexOnly(w'.turns, a);
    var anchor := if m.role.User? then m.id else w.anchor;
    if anchor != "" {
      if TurnIndex(w.turns, anchor) == |w.turns| {
        NewAnchorStarts(front, w, m);
        assert w'.turns[|w.turns|].anchor == anchor;
      }
      assert forall i | 0 <= i < |w.turns| :: w'.turns[i].anchor == w.turns[i].anchor;
      IndexOnly(w.turns, anchor);
    }
  }

  lemma {:induction false} WalkKnows(ordered: seq<Message>)
    ensures Knows(ordered, WalkTurns(ordered))
  {
    hide WalkMessage, Tells, TurnIndex, IsTurn;
    if ordered == [] {
      NothingKnown();
    } else {
      var front, m := ordered[..|ordered| - 1], ordered[|ordered| - 1];
      var w := WalkTurns(front);
      WalkKnows(front);
      assert front + [m] == ordered;
      StandsNext(front, w, m);
      WalkIsGood(ordered);
      forall a | a != ""
        ensures IsTurn(ordered, a) <==> TurnIndex(WalkMessage(w, m).turns, a) < |WalkMessage(w, m).turns|
      {
        NextIndex(front, w, m, a);
      }
      forall i | 0 <= i < |WalkMessage(w, m).turns| ensures Tells(ordered, WalkMessage(w, m).turns[i]) {
        NextTurns(front, w, m, i);
      }
    }
  }

  lemma NothingKnown()
    ensures Knows([], WalkTurns([]))
  {
  }

  // ---------------------------------------------------------------- what is announced

  /** The turn is known to be over. */
  predicate Closed(known: map<string, TurnState>, a: string) {
    a in known && !known[a].Running?
  }

  lemma {:induction false} AnnounceExactly(known: map<string, TurnState>, turns: seq<Turn>, i: nat)
    requires GoodTurns(turns) && i < |turns|
    ensures var (known', events) := Announce(known, turns);
            var a := turns[i].anchor;
            && a in known' && known'[a] == (if Closed(known, a) then known[a] else StateOf(turns[i]))
            && LifecycleOf(events, a)
                 == if a in known && known'[a] == known[a] then None else Some(TurnEventOf(turns[i]))
  {
    hide LifecycleOf, StateOf;
    var n := |turns| - 1;
    var (known', events) := Announce(known, turns[..n]);
    AnnounceOthers(known, turns[..n], turns[n].anchor);
    LifecycleOfAppended(events, TurnEventOf(turns[n]), turns[i].anchor);
    if i < n {
      AnnounceExactly(known, turns[..n], i);
      assert turns[..n][i] == turns[i];
    }
  }

  lemma {:induction false} AnnounceOthers(known: map<string, TurnState>, turns: seq<Turn>, a: string)
    requires forall i | 0 <= i < |turns| :: turns[i].anchor != a
    ensures var (known', events) := Announce(known, turns);
            && (a in known' <==> a in known) && (a in known ==> known'[a] == known[a])
            && LifecycleOf(events, a) == None
  {
    hide LifecycleOf, StateOf;
    if turns == [] {
      LifecycleAbsent([], a);
    } else {
      var n := |turns| - 1;
      AnnounceOthers(known, turns[..n], a);
      LifecycleOfAppended(Announce(known, turns[..n]).1, TurnEventOf(turns[n]), a);
    }
  }

  /** The event that announces a turn as the snapshot shows it. */
  ghost predicate Announced(ordered: seq<Message>, ev: Event) {
    ev.TurnEvent? && ev.state == TurnShows(ordered, ev.turn) && StartedAt(ordered, ev.turn, ev.startedAt)
  }

  lemma TellingIsShown(ordered: seq<Message>, t: Turn)
    requires Tells(ordered, t)
    ensures StateOf(t) == TurnShows(ordered, t.anchor) && Announced(ordered, TurnEventOf(t))
  {
  }

  /** One poll and one turn of its snapshot: unless the turn was closed before, it is known
      afterwards in the state the snapshot shows, and announced in it exactly if that is news. */
  lemma TurnAfterPoll(known: map<string, TurnState>, ordered: seq<Message>, a: string)
    requires IsTurn(ordered, a)
    ensures var (known', events) := Announce(known, WalkTurns(ordered).turns);
            && a in known' && known'[a] == (if Closed(known, a) then known[a] else TurnShows(ordered, a))
            && (LifecycleOf(events, a).None? <==> a in known && known'[a] == known[a])
            && (LifecycleOf(events, a).Some? ==> Announced(ordered, LifecycleOf(events, a).value))
  {
    hide Announce, LifecycleOf, TurnIndex, StateOf, TurnShows, Announced;
    WalkKnows(ordered);
    var turns := WalkTurns(ordered).turns;
    var i := TurnIndex(turns, a);
    AnnounceExactly(known, turns, i);
    TellingIsShown(ordered, turns[i]);
  }

  lemma OthersAfterPoll(known: map<string, TurnState>, ordered: seq<Message>, a: string)
    requires !IsTurn(ordered, a)
    ensures var (known', events) := Announce(known, WalkTurns(ordered).turns);
            && (a in known' <==> a in known) && (a in known ==> known'[a] == known[a])
            && LifecycleOf(events, a) == None
  {
    hide Announce, LifecycleOf, TurnIndex, IsTurn, Tells;
    WalkKnows(ordered);
    var turns := WalkTurns(ordered).turns;
    forall i | 0 <= i < |turns| ensures turns[i].anchor != a {
      IndexAt(turns, i);
    }
    AnnounceOthers(known, turns, a);
  }

  /** A whole poll: what it reports of a turn, and how the turn is known afterwards. */
  lemma PollAnnouncesTurns(s: State, poll: Poll, emitUser: bool, a: string)
    requires a != ""
    ensures var (s', events) := Diff(s, poll.msgs, poll.native, emitUser);
            var ordered := SortByCreated(poll.msgs);
            if IsTurn(ordered, a) then
              && a in s'.turns && s'.turns[a] == (if Closed(s.turns, a) then s.turns[a] else TurnShows(ordered, a))
              && StatesOf(events, a)
                   == if a in s.turns && s'.turns[a] == s.turns[a] then [] else [TurnShows(ordered, a)]
            else
              && (a in s'.turns <==> a in s.turns) && (a in s.turns ==> s'.turns[a] == s.turns[a])
              && StatesOf(events, a) == []
  {
    hide Weave, WalkTurns, Announce, DiffItems, Items, SortByCreated, StatesOf, LifecycleOf, TurnShows, IsTurn,
      CurrentStatus, LatestCompleted, IsLifecycle, IsContent, StartedAt;
    var ordered, lifecycle, content, status := PollParts(s, poll, emitUser);
    WovenStates(content, lifecycle, a);
    StatesAbsent(status, a);
    StatesConcat(Weave(content, lifecycle), status, a);
    if IsTurn(ordered, a) {
      TurnAfterPoll(s.turns, ordered, a);
    } else {
      OthersAfterPoll(s.turns, ordered, a);
    }
  }

  /** Every turn event of a poll announces a turn of the snapshot in the state, and with the
      start, that its messages show. */
  lemma TurnEventsAreShown(s: State, poll: Poll, emitUser: bool, ev: Event)
    requires ev in Diff(s, poll.msgs, poll.native, emitUser).1 && ev.TurnEvent?
    ensures Announced(SortByCreated(poll.msgs), ev)
  {
    hide Weave, Announce, DiffItems, Items, SortByCreated, CurrentStatus, LatestCompleted, Announced, Tells, Stands,
      TurnIndex, IsTurn, StateOf;
    var ordered, lifecycle, content, status := PollParts(s, poll, emitUser);
    var turns := WalkTurns(ordered).turns;
    var y :| 0 <= y < |Weave(content, lifecycle) + status| && (Weave(content, lifecycle) + status)[y] == ev;
    assert y < |Weave(content, lifecycle)|;
    WovenMember(content, lifecycle, y);
    WalkIsGood(ordered);
    AnnounceOne(s.turns, turns, "");
    var k :| 0 <= k < |lifecycle| && lifecycle[k] == ev;
    var j :| 0 <= j < |turns| && lifecycle[k] == TurnEventOf(turns[j]);
    WalkKnows(ordered);
    TellingIsShown(ordered, turns[j]);
  }
}
