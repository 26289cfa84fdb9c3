/**
 Weaving turn events into content events: nothing of the content is lost or reordered,
 every turn event appears exactly once, an opening stands before all content of its turn
 and a closing behind it.  Sorting a snapshot is stable.
 */
module OpencodeWeaving {
  import opened Common
  import opened OpencodeModel

  // ---------------------------------------------------------------- sorting

  predicate SortedByCreated(msgs: seq<Message>) {
    forall i, j | 0 <= i < j < |msgs| :: msgs[i].created <= msgs[j].created
  }

  /** The messages created at one moment, in order. */
  function CreatedAt(msgs: seq<Message>, t: int): seq<Message> {
    if msgs == [] then []
    else
      var n := |msgs| - 1;
      CreatedAt(msgs[..n], t) + (if msgs[n].created == t then [msgs[n]] else [])
  }

  lemma {:induction false} InsertAdds(sorted: seq<Message>, m: Message)
    ensures multiset(Insert(sorted, m)) == multiset(sorted) + multiset{m}
  {
    var n := |sorted| - 1;
    if sorted != [] && sorted[n].created > m.created {
      InsertAdds(sorted[..n], m);
      assert sorted == sorted[..n] + [sorted[n]];
    }
  }

  lemma {:induction false} InsertSorts(sorted: seq<Message>, m: Message)
    requires SortedByCreated(sorted)
    ensures SortedByCreated(Insert(sorted, m))
  {
    var n := |sorted| - 1;
    if sorted != [] && sorted[n].created > m.created {
      InsertSorts(sorted[..n], m);
      InsertAdds(sorted[..n], m);
      var front := Insert(sorted[..n], m);
      forall i | 0 <= i < |front| ensures front[i].created <= sorted[n].created {
        assert front[i] in multiset(front);
        assert front[i] in sorted[..n] || front[i] == m;
      }
    }
  }

  lemma CreatedAtLast(msgs: seq<Message>, t: int)
    requires msgs != []
    ensures var n := |msgs| - 1; CreatedAt(msgs, t) == CreatedAt(msgs[..n], t) + CreatedAtOne(msgs[n], t)
  {
  }

  function CreatedAtOne(m: Message, t: int): seq<Message> {
    if m.created == t then [m] else []
  }

  lemma CreatedAtPlus(msgs: seq<Message>, m: Message, t: int)
    ensures CreatedAt(msgs + [m], t) == CreatedAt(msgs, t) + CreatedAtOne(m, t)
  {
    CreatedAtLast(msgs + [m], t);
    assert (msgs + [m])[..|msgs|] == msgs;
  }

  lemma {:induction false} InsertIsStable(sorted: seq<Message>, m: Message, t: int)
    ensures CreatedAt(Insert(sorted, m), t) == CreatedAt(sorted, t) + CreatedAtOne(m, t)
  {
    var n := |sorted| - 1;
    if sorted == [] || sorted[n].created <= m.created {
      CreatedAtPlus(sorted, m, t);
    } else {
      InsertIsStable(sorted[..n], m, t);
      CreatedAtPlus(Insert(sorted[..n], m), sorted[n], t);
      CreatedAtLast(sorted, t);
      Swap(CreatedAt(sorted[..n], t), m, sorted[n], t);
    }
  }

  lemma Swap(front: seq<Message>, m: Message, last: Message, t: int)
    requires m.created != last.created
    ensures front + CreatedAtOne(m, t) + CreatedAtOne(last, t) == front + CreatedAtOne(last, t) + CreatedAtOne(m, t)
  {
    assert CreatedAtOne(m, t) == [] || CreatedAtOne(last, t) == [];
  }

  lemma {:induction false} SortSorts(msgs: seq<Message>)
    ensures SortedByCreated(SortByCreated(msgs))
    ensures multiset(SortByCreated(msgs)) == multiset(msgs)
  {
    if msgs != [] {
      var n := |msgs| - 1;
      SortSorts(msgs[..n]);
      InsertSorts(SortByCreated(msgs[..n]), msgs[n]);
      InsertAdds(SortByCreated(msgs[..n]), msgs[n]);
      assert msgs == msgs[..n] + [msgs[n]];
    }
  }

  /** The sorted snapshot is a stable permutation: the messages of each moment are the same
      ones in the same order. */
  lemma {:induction false} SortIsStable(msgs: seq<Message>, t: int)
    ensures CreatedAt(SortByCreated(msgs), t) == CreatedAt(msgs, t)
  {
    if msgs != [] {
      var n := |msgs| - 1;
      SortIsStable(msgs[..n], t);
      InsertIsStable(SortByCreated(msgs[..n]), msgs[n], t);
      CreatedAtLast(msgs, t);
    }
  }

  // ---------------------------------------------------------------- what is woven

  /** Content events carry no turn status. */
  predicate IsContent(ev: Event) {
    !ev.TurnEvent? && !ev.StatusEvent?
  }

  /** New turn events: real turns, each at most once. */
  predicate IsLifecycle(lifecycle: seq<Event>) {
    && (forall i | 0 <= i < |lifecycle| :: lifecycle[i].TurnEvent? && lifecycle[i].turn != "")
    && (forall i, j | 0 <= i < j < |lifecycle| :: lifecycle[i].turn != lifecycle[j].turn)
  }

  function Strip(events: seq<Event>): seq<Event> {
    if events == [] then []
    else
      var n := |events| - 1;
      Strip(events[..n]) + (if events[n].TurnEvent? then [] else [events[n]])
  }

  lemma {:induction false} StripConcat(a: seq<Event>, b: seq<Event>)
    ensures Strip(a + b) == Strip(a) + Strip(b)
  {
    if b == [] {
      assert a + b == a;
    } else {
      var n := |b| - 1;
      assert (a + b)[..|a + b| - 1] == a + b[..n];
      StripConcat(a, b[..n]);
    }
  }

  lemma {:induction false} LifecycleFound(lifecycle: seq<Event>, k: nat)
    requires IsLifecycle(lifecycle) && k < |lifecycle|
    ensures LifecycleOf(lifecycle, lifecycle[k].turn) == Some(lifecycle[k])
  {
    if k > 0 {
      assert lifecycle[0].turn != lifecycle[k].turn;
      LifecycleFound(lifecycle[1..], k - 1);
    }
  }

  lemma StripAround(content: seq<Event>, lifecycle: seq<Event>, i: nat)
    requires i < |content| && IsContent(content[i])
    ensures Strip(Around(content, lifecycle, i)) == [content[i]]
  {
    var turn := LifecycleOf(lifecycle, AnchorOf(content[i]));
    if turn.Some? {
      StripConcat([turn.value], [content[i]]);
      StripConcat([content[i]], [turn.value]);
    }
    assert Strip([content[i]]) == [content[i]];
  }

  lemma StripNothing()
    ensures Strip([]) == []
  {
  }

  lemma {:induction false} StripBlocks(blocks: seq<seq<Event>>, content: seq<Event>)
    requires |blocks| == |content| && forall i | 0 <= i < |blocks| :: Strip(blocks[i]) == [content[i]]
    ensures Strip(Flatten(blocks)) == content
  {
    hide Strip;
    if blocks == [] {
      StripNothing();
    } else {
      var n := |blocks| - 1;
      StripBlocks(blocks[..n], content[..n]);
      StripConcat(Flatten(blocks[..n]), blocks[n]);
      assert content == content[..n] + [content[n]];
    }
  }

  lemma {:induction false} StripLeftover(content: seq<Event>, lifecycle: seq<Event>)
    requires forall i | 0 <= i < |lifecycle| :: lifecycle[i].TurnEvent?
    ensures Strip(Leftover(content, lifecycle)) == []
  {
    if lifecycle != [] {
      var n := |lifecycle| - 1;
      StripLeftover(content, lifecycle[..n]);
      StripConcat(Leftover(content, lifecycle[..n]), [lifecycle[n]]);
      assert Strip([lifecycle[n]]) == [];
      assert Leftover(content, lifecycle[..n]) + [] == Leftover(content, lifecycle[..n]);
    }
  }

  /** Weaving preserves: without the turn events the woven list is the content list. */
  lemma WeavePreservesContent(content: seq<Event>, lifecycle: seq<Event>)
    requires IsLifecycle(lifecycle) && forall i | 0 <= i < |content| :: IsContent(content[i])
    ensures Strip(Weave(content, lifecycle)) == content
  {
    var blocks := Blocks(content, lifecycle);
    forall i | 0 <= i < |blocks| ensures Strip(blocks[i]) == [content[i]] {
      StripAround(content, lifecycle, i);
    }
    StripBlocks(blocks, content);
    StripConcat(Flatten(blocks), Leftover(content, lifecycle));
    StripLeftover(content, lifecycle);
  }

  // ---------------------------------------------------------------- exactly once

  /** The position of the content event that brings the turn event with it. */
  predicate Brings(content: seq<Event>, turn: Event, i: nat)
    requires turn.TurnEvent? && i < |content|
  {
    AnchorOf(content[i]) == turn.turn && if IsTerminal(turn.state) then IsLast(content, i) else IsFirst(content, i)
  }

  lemma BringsOnce(content: seq<Event>, turn: Event, i: nat, j: nat)
    requires turn.TurnEvent? && i < |content| && j < |content| && Brings(content, turn, i) && Brings(content, turn, j)
    ensures i == j
  {
  }

  lemma {:induction false} SomeoneBrings(content: seq<Event>, turn: Event, lo: nat, hi: nat) returns (i: nat)
    requires turn.TurnEvent? && lo <= hi < |content|
    requires AnchorOf(content[lo]) == turn.turn && AnchorOf(content[hi]) == turn.turn
    requires forall j | 0 <= j < lo :: IsTerminal(turn.state) || AnchorOf(content[j]) != turn.turn
    requires forall j | hi < j < |content| :: !IsTerminal(turn.state) || AnchorOf(content[j]) != turn.turn
    ensures i < |content| && Brings(content, turn, i)
  {
    i := if IsTerminal(turn.state) then hi else lo;
  }

  /** The first and the last content event of a turn that has any. */
  lemma FirstAndLast(content: seq<Event>, anchor: string) returns (lo: nat, hi: nat)
    requires HasContent(content, anchor)
    ensures lo <= hi < |content| && AnchorOf(content[lo]) == AnchorOf(content[hi]) == anchor
    ensures forall j | 0 <= j < lo || hi < j < |content| :: AnchorOf(content[j]) != anchor
  {
    lo := 0;
    while AnchorOf(content[lo]) != anchor
      invariant lo < |content|
      invariant forall j | 0 <= j < lo :: AnchorOf(content[j]) != anchor
      decreases |content| - lo
    {
      lo := lo + 1;
    }
    hi := |content| - 1;
    while AnchorOf(content[hi]) != anchor
      invariant lo <= hi < |content|
      invariant forall j | hi < j < |content| :: AnchorOf(content[j]) != anchor
      decreases hi
    {
      hi := hi - 1;
    }
  }

  lemma AroundCount(content: seq<Event>, lifecycle: seq<Event>, i: nat, k: nat)
    requires IsLifecycle(lifecycle) && k < |lifecycle| && i < |content| && IsContent(content[i])
    ensures multiset(Around(content, lifecycle, i))[lifecycle[k]] == if Brings(content, lifecycle[k], i) then 1 else 0
  {
    var turn := LifecycleOf(lifecycle, AnchorOf(content[i]));
    if AnchorOf(content[i]) == lifecycle[k].turn {
      LifecycleFound(lifecycle, k);
    }
  }

  lemma {:induction false} LeftoverCount(content: seq<Event>, lifecycle: seq<Event>, k: nat)
    requires IsLifecycle(lifecycle) && k < |lifecycle|
    ensures multiset(Leftover(content, lifecycle))[lifecycle[k]] == if HasContent(content, lifecycle[k].turn) then 0
      else 1
  {
    var n := |lifecycle| - 1;
    if k < n {
      LeftoverCount(content, lifecycle[..n], k);
      assert lifecycle[k] != lifecycle[n];
    } else {
      LeftoverForeign(content, lifecycle[..n], lifecycle[n]);
    }
  }

  lemma {:induction false} LeftoverForeign(content: seq<Event>, lifecycle: seq<Event>, ev: Event)
    requires forall i | 0 <= i < |lifecycle| :: lifecycle[i] != ev
    ensures multiset(Leftover(content, lifecycle))[ev] == 0
  {
    if lifecycle != [] {
      LeftoverForeign(content, lifecycle[..|lifecycle| - 1], ev);
    }
  }

  /** Every new turn event is woven in exactly once. */
  lemma WeaveOnce(content: seq<Event>, lifecycle: seq<Event>, k: nat)
    requires IsLifecycle(lifecycle) && k < |lifecycle| && forall i | 0 <= i < |content| :: IsContent(content[i])
    ensures multiset(Weave(content, lifecycle))[lifecycle[k]] == 1
  {
    var blocks := Blocks(content, lifecycle);
    var turn := lifecycle[k];
    forall i | 0 <= i < |blocks| ensures multiset(blocks[i])[turn] == if Brings(content, turn, i) then 1 else 0 {
      AroundCount(content, lifecycle, i, k);
    }
    LeftoverCount(content, lifecycle, k);
    if HasContent(content, turn.turn) {
      var lo, hi := FirstAndLast(content, turn.turn);
      var b := SomeoneBrings(content, turn, lo, hi);
      forall c | 0 <= c < |blocks| && c != b ensures multiset(blocks[c])[turn] == 0 {
        if Brings(content, turn, c) {
          BringsOnce(content, turn, b, c);
        }
      }
      FlattenWithOne(blocks, turn, b);
    } else {
      FlattenWithout(blocks, turn);
    }
  }

  // ---------------------------------------------------------------- order

  lemma AroundAnchors(content: seq<Event>, lifecycle: seq<Event>, i: nat, k: nat)
    requires i < |content| && k < |Around(content, lifecycle, i)|
    requires AnchorOf(Around(content, lifecycle, i)[k]) != ""
    ensures Around(content, lifecycle, i)[k] == content[i]
  {
  }

  lemma {:induction false} LeftoverAnchors(content: seq<Event>, lifecycle: seq<Event>, y: nat)
    requires IsLifecycle(lifecycle) && y < |Leftover(content, lifecycle)|
    ensures AnchorOf(Leftover(content, lifecycle)[y]) == ""
  {
    var n := |lifecycle| - 1;
    if y < |Leftover(content, lifecycle[..n])| {
      LeftoverAnchors(content, lifecycle[..n], y);
    }
  }

  /** A block that brings its turn event holds it and the content event in the right order. */
  lemma BringingBlock(content: seq<Event>, lifecycle: seq<Event>, k: nat, i: nat)
    requires IsLifecycle(lifecycle) && k < |lifecycle| && i < |content| && Brings(content, lifecycle[k], i)
    ensures Around(content, lifecycle, i)
         == if IsTerminal(lifecycle[k].state) then [content[i], lifecycle[k]] else [lifecycle[k], content[i]]
  {
    LifecycleFound(lifecycle, k);
  }

  /** Content of a turn stands in a block of that turn. */
  lemma ContentBlock(content: seq<Event>, lifecycle: seq<Event>, anchor: string, y: nat) returns (b: nat, k: nat)
    requires IsLifecycle(lifecycle) && anchor != ""
    requires y < |Weave(content, lifecycle)| && AnchorOf(Weave(content, lifecycle)[y]) == anchor
    ensures b < |content| && AnchorOf(content[b]) == anchor
    ensures k < |Around(content, lifecycle, b)| && Around(content, lifecycle, b)[k] == content[b]
    ensures y == Offset(Blocks(content, lifecycle), b) + k
  {
    var blocks := Blocks(content, lifecycle);
    if y >= |Flatten(blocks)| {
      LeftoverAnchors(content, lifecycle, y - |Flatten(blocks)|);
      assert false;
    }
    b, k := BlockOf(blocks, y);
    AroundAnchors(content, lifecycle, b, k);
  }

  lemma OnlyOneCopy(content: seq<Event>, lifecycle: seq<Event>, k: nat, x: nat, x': nat)
    requires IsLifecycle(lifecycle) && k < |lifecycle| && forall i | 0 <= i < |content| :: IsContent(content[i])
    requires x < |Weave(content, lifecycle)| && Weave(content, lifecycle)[x] == lifecycle[k]
    requires x' < |Weave(content, lifecycle)| && Weave(content, lifecycle)[x'] == lifecycle[k]
    ensures x == x'
  {
    WeaveOnce(content, lifecycle, k);
    if x < x' {
      CountTwice(Weave(content, lifecycle), x, x');
    } else if x' < x {
      CountTwice(Weave(content, lifecycle), x', x);
    }
  }

  /** Where a turn event ends up when its turn has content. */
  lemma TurnEventAt(content: seq<Event>, lifecycle: seq<Event>, k: nat, i: nat) returns (x: nat)
    requires IsLifecycle(lifecycle) && k < |lifecycle| && i < |content| && Brings(content, lifecycle[k], i)
    ensures x < |Weave(content, lifecycle)| && Weave(content, lifecycle)[x] == lifecycle[k]
    ensures x == Offset(Blocks(content, lifecycle), i) + if IsTerminal(lifecycle[k].state) then 1 else 0
  {
    var blocks := Blocks(content, lifecycle);
    BringingBlock(content, lifecycle, k, i);
    var at := if IsTerminal(lifecycle[k].state) then 1 else 0;
    FlattenAt(blocks, i, at);
    x := Offset(blocks, i) + at;
  }

  /** Order: an opening stands before, a closing behind, all content of its turn. */
  lemma WeaveOrders(content: seq<Event>, lifecycle: seq<Event>, k: nat, x: nat, y: nat)
    requires IsLifecycle(lifecycle) && k < |lifecycle| && forall i | 0 <= i < |content| :: IsContent(content[i])
    requires x < |Weave(content, lifecycle)| && Weave(content, lifecycle)[x] == lifecycle[k]
    requires y < |Weave(content, lifecycle)| && AnchorOf(Weave(content, lifecycle)[y]) == lifecycle[k].turn
    ensures if IsTerminal(lifecycle[k].state) then y < x else x < y
  {
    var turn := lifecycle[k];
    var blocks := Blocks(content, lifecycle);
    var b, at := ContentBlock(content, lifecycle, turn.turn, y);
    var lo, hi := FirstAndLast(content, turn.turn);
    var i := SomeoneBrings(content, turn, lo, hi);
    var x' := TurnEventAt(content, lifecycle, k, i);
    OnlyOneCopy(content, lifecycle, k, x, x');
    BringingBlock(content, lifecycle, k, i);
    if b < i {
      OffsetsGrow(blocks, b, i);
    } else if i < b {
      OffsetsGrow(blocks, i, b);
    }
  }
}
