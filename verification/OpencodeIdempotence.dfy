/**
 Polling again without news emits nothing: diffing a snapshot with unique native ids a
 second time, with the same native status, leaves the differ silent and unchanged.
 */
module OpencodeIdempotence {
  import opened Common
  import opened OpencodeModel
  import opened OpencodeWeaving
  import opened OpencodeRuns

  // ---------------------------------------------------------------- native ids

  datatype NativeId = MessageKey(id: string) | PartKey(id: string)

  function PartIds(parts: seq<Part>): multiset<NativeId> {
    if parts == [] then multiset{} else PartIds(parts[..|parts| - 1]) + multiset{PartKey(parts[|parts| - 1].id)}
  }

  function MessageIds(m: Message): multiset<NativeId> {
    multiset{MessageKey(m.id)} + PartIds(m.parts)
  }

  function IdsOf(msgs: seq<Message>): multiset<NativeId> {
    if msgs == [] then multiset{} else IdsOf(msgs[..|msgs| - 1]) + MessageIds(msgs[|msgs| - 1])
  }

  ghost predicate UniqueIds(msgs: seq<Message>) {
    forall id :: IdsOf(msgs)[id] <= 1
  }

  lemma IdsPlus(msgs: seq<Message>, m: Message)
    ensures IdsOf(msgs + [m]) == IdsOf(msgs) + MessageIds(m)
  {
    assert (msgs + [m])[..|msgs|] == msgs;
  }

  lemma {:induction false} InsertKeepsIds(sorted: seq<Message>, m: Message)
    ensures IdsOf(Insert(sorted, m)) == IdsOf(sorted) + MessageIds(m)
  {
    var n := |sorted| - 1;
    if sorted == [] || sorted[n].created <= m.created {
      IdsPlus(sorted, m);
    } else {
      InsertKeepsIds(sorted[..n], m);
      IdsPlus(Insert(sorted[..n], m), sorted[n]);
    }
  }

  lemma {:induction false} SortKeepsIds(msgs: seq<Message>)
    ensures IdsOf(SortByCreated(msgs)) == IdsOf(msgs)
  {
    if msgs != [] {
      var n := |msgs| - 1;
      SortKeepsIds(msgs[..n]);
      InsertKeepsIds(SortByCreated(msgs[..n]), msgs[n]);
    }
  }

  // ---------------------------------------------------------------- the items' ids

  function IdOf(item: Item): NativeId {
    if item.ErrorItem? then MessageKey(item.messageId) else PartKey(item.part.id)
  }

  function ItemIds(items: seq<Item>): multiset<NativeId> {
    if items == [] then multiset{} else ItemIds(items[..|items| - 1]) + multiset{IdOf(items[|items| - 1])}
  }

  lemma {:induction false} ItemIdsConcat(a: seq<Item>, b: seq<Item>)
    ensures ItemIds(a + b) == ItemIds(a) + ItemIds(b)
  {
    if b == [] {
      assert a + b == a;
    } else {
      var n := |b| - 1;
      assert (a + b)[..|a + b| - 1] == a + b[..n];
      ItemIdsConcat(a, b[..n]);
    }
  }

  lemma {:induction false} PartItemIds(m: Message, anchor: string, parts: seq<Part>)
    ensures ItemIds(PartItems(m, anchor, parts)) == PartIds(parts)
  {
    if parts != [] {
      var n := |parts| - 1;
      PartItemIds(m, anchor, parts[..n]);
      ItemIdsConcat(PartItems(m, anchor, parts[..n]), [ItemOf(m, anchor, parts[n])]);
    }
  }

  lemma MessageItemIds(m: Message, anchor: string)
    ensures ItemIds(MessageItems(m, anchor)) <= MessageIds(m)
  {
    ItemIdsConcat(ErrorItems(m, anchor), PartItems(m, anchor, m.parts));
    PartItemIds(m, anchor, m.parts);
  }

  lemma {:induction false} ItemsIds(ordered: seq<Message>)
    ensures ItemIds(Items(ordered)) <= IdsOf(ordered)
  {
    if ordered != [] {
      var n := |ordered| - 1;
      var anchor := LastAnchor(ordered[..n + 1]);
      ItemsIds(ordered[..n]);
      MessageItemIds(ordered[n], anchor);
      ItemIdsConcat(Items(ordered[..n]), MessageItems(ordered[n], anchor));
    }
  }

  lemma {:induction false} IdCounted(items: seq<Item>, i: nat)
    requires i < |items|
    ensures ItemIds(items)[IdOf(items[i])] >= 1
  {
    if i < |items| - 1 {
      IdCounted(items[..|items| - 1], i);
    }
  }

  ghost predicate DistinctItems(items: seq<Item>) {
    forall i, j | 0 <= i < j < |items| :: IdOf(items[i]) != IdOf(items[j])
  }

  lemma {:induction false} CountedOnce(items: seq<Item>)
    requires forall id :: ItemIds(items)[id] <= 1
    ensures DistinctItems(items)
  {
    if items != [] {
      var n := |items| - 1;
      assert forall id :: ItemIds(items[..n])[id] <= ItemIds(items)[id];
      CountedOnce(items[..n]);
      forall i | 0 <= i < n ensures IdOf(items[i]) != IdOf(items[n]) {
        IdCounted(items[..n], i);
      }
    }
  }

  lemma UniqueItems(msgs: seq<Message>)
    requires UniqueIds(msgs)
    ensures DistinctItems(Items(SortByCreated(msgs)))
  {
    SortKeepsIds(msgs);
    ItemsIds(SortByCreated(msgs));
    CountedOnce(Items(SortByCreated(msgs)));
  }

  // ---------------------------------------------------------------- content settles

  /** Looking at the item again would change nothing. */
  ghost predicate Settled(mem: Memory, item: Item, emitUser: bool) {
    DiffItem(mem, item, emitUser) == (mem, [])
  }

  lemma SettledAfter(mem: Memory, item: Item, emitUser: bool)
    ensures Settled(DiffItem(mem, item, emitUser).0, item, emitUser)
  {
  }

  lemma StaysSettled(mem: Memory, item: Item, other: Item, emitUser: bool)
    requires Settled(mem, item, emitUser) && IdOf(item) != IdOf(other)
    ensures Settled(DiffItem(mem, other, emitUser).0, item, emitUser)
  {
  }

  lemma {:induction false} AllSettle(mem: Memory, items: seq<Item>, emitUser: bool, i: nat)
    requires DistinctItems(items) && i < |items|
    ensures Settled(DiffItems(mem, items, emitUser).0, items[i], emitUser)
  {
    var n := |items| - 1;
    var mem' := DiffItems(mem, items[..n], emitUser).0;
    if i == n {
      SettledAfter(mem', items[n], emitUser);
    } else {
      AllSettle(mem, items[..n], emitUser, i);
      StaysSettled(mem', items[i], items[n], emitUser);
    }
  }

  lemma {:induction false} NothingNew(mem: Memory, items: seq<Item>, emitUser: bool)
    requires forall i | 0 <= i < |items| :: Settled(mem, items[i], emitUser)
    ensures DiffItems(mem, items, emitUser) == (mem, [])
  {
    if items != [] {
      var n := |items| - 1;
      NothingNew(mem, items[..n], emitUser);
      assert Settled(mem, items[n], emitUser);
      var silence: seq<Event> := [];
      assert silence + silence == silence;
    }
  }

  // ---------------------------------------------------------------- turns settle

  lemma {:induction false} TurnsSettle(known: map<string, TurnState>, turns: seq<Turn>, i: nat)
    requires GoodTurns(turns) && i < |turns|
    ensures !Announces(Announce(known, turns).0, turns[i])
  {
    var n := |turns| - 1;
    if i < n {
      TurnsSettle(known, turns[..n], i);
      assert turns[i].anchor != turns[n].anchor;
    }
  }

  lemma {:induction false} NoTurnNews(known: map<string, TurnState>, turns: seq<Turn>)
    requires forall i | 0 <= i < |turns| :: !Announces(known, turns[i])
    ensures Announce(known, turns) == (known, [])
  {
    if turns != [] {
      NoTurnNews(known, turns[..|turns| - 1]);
    }
  }

  /** Idempotence: the second diff of the same snapshot emits nothing and changes nothing. */
  lemma DiffAgainIsSilent(s: State, msgs: seq<Message>, native: Option<Native>, emitUser: bool)
    requires UniqueIds(msgs)
    ensures var s' := Diff(s, msgs, native, emitUser).0;
            Diff(s', msgs, native, emitUser) == (s', [])
  {
    var ordered := SortByCreated(msgs);
    var items, turns := Items(ordered), WalkTurns(ordered).turns;
    var s' := Diff(s, msgs, native, emitUser).0;
    UniqueItems(msgs);
    forall i | 0 <= i < |items| ensures Settled(s'.memory, items[i], emitUser) {
      AllSettle(s.memory, items, emitUser, i);
    }
    NothingNew(s'.memory, items, emitUser);
    WalkIsGood(ordered);
    forall i | 0 <= i < |turns| ensures !Announces(s'.turns, turns[i]) {
      TurnsSettle(s.turns, turns, i);
    }
    NoTurnNews(s'.turns, turns);
    assert Blocks([], []) == [];
    assert Weave([], []) == [];
  }
}
