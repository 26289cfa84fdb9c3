/**
 The native parent of a Claude record: the nearest ancestor a client has seen.

 Records without public content are kept as links from a record to its parent.  A public
 record is stamped with the nearest ancestor that is public or unknown; if the walk meets
 a record it cannot vouch for, or runs in a circle, the stamp says the parentage is unsure.
 */
module NativeParents {
  import opened Common

  const CAPACITY := 4096

  datatype Link = Link(parent: string, emitted: bool, unknown: bool)

  type Links = map<string, Link>

  datatype Block = Block(kind: string, name: string)

  datatype RecordType = Assistant | User | Attachment(kind: string) | OtherRecord

  /** A record, the turn it was read in and the types of the events it produced;
      `blocks` is `None` where it has no message or the content is not a list of blocks. */
  datatype Record = Record(
    uuid: string,
    parent: string,
    isMeta: bool,
    isSidechain: bool,
    kind: RecordType,
    blocks: Option<seq<Block>>,
    root: string,
    events: seq<string>)

  datatype Stamp = Stamp(ordinal: nat, record: string, parent: string, userRoot: bool, sidechain: bool,
    unknownChild: bool)

  // ---------------------------------------------------------------- what a record is

  predicate Public(event: string) {
    event == "user_text" || event == "agent_text" || event == "tool_call" || event == "tool_result"
  }

  predicate Emits(r: Record) {
    exists i | 0 <= i < |r.events| :: Public(r.events[i])
  }

  predicate NeutralAttachment(kind: string) {
    || kind == "environment" || kind == "model" || kind == "language" || kind == "deferred_tools_delta"
    || kind == "agent_listing_delta" || kind == "skill_listing" || kind == "session_context" || kind == "date"
    || kind == "remote_session_change" || kind == "prompt_snapshot" || kind == "hook_success"
    || kind == "hook_additional_context"
  }

  predicate IsThinking(b: Block) {
    b.kind == "thinking" || b.kind == "redacted_thinking"
  }

  /** Nothing in a neutral record can have produced another record. */
  predicate Neutral(r: Record) {
    || (r.kind.Assistant? && r.blocks.Some? && r.blocks.value != []
        && forall i | 0 <= i < |r.blocks.value| :: IsThinking(r.blocks.value[i]))
    || (r.kind.Attachment? && NeutralAttachment(r.kind.kind))
  }

  predicate StartsChild(b: Block) {
    b.kind == "tool_use" && (b.name == "Task" || b.name == "Agent")
  }

  predicate Delegates(r: Record) {
    r.blocks.Some? && exists i | 0 <= i < |r.blocks.value| :: StartsChild(r.blocks.value[i])
  }

  function LinkOf(r: Record): Link {
    Link(r.parent, Emits(r), !Neutral(r) || r.isSidechain)
  }

  // ---------------------------------------------------------------- the walk

  predicate Hidden(links: Links, id: string) {
    id in links && !links[id].emitted
  }

  /** Follow hidden links until one is not hidden, or was met before. */
  function Walk(links: Links, id: string, seen: set<string>, unknown: bool): (string, bool)
    decreases links.Keys - seen
  {
    if !Hidden(links, id) then (id, unknown)
    else if id in seen then (id, true)
    else Walk(links, links[id].parent, seen + {id}, unknown || links[id].unknown)
  }

  /** The n-th ancestor along hidden links. */
  function Ancestor(links: Links, id: string, n: nat): string {
    if n == 0 then id
    else
      var child := Ancestor(links, id, n - 1);
      if Hidden(links, child) then links[child].parent else child
  }

  ghost predicate HiddenUpTo(links: Links, id: string, n: nat) {
    forall i: nat | i < n :: Hidden(links, Ancestor(links, id, i))
  }

  /** The n-th ancestor is the first that is public or unknown. */
  ghost predicate Nearest(links: Links, id: string, n: nat) {
    HiddenUpTo(links, id, n) && !Hidden(links, Ancestor(links, id, n))
  }

  /** The n-th ancestor is hidden and the first to have been met before. */
  ghost predicate Circles(links: Links, id: string, n: nat) {
    && HiddenUpTo(links, id, n)
    && (exists m: nat :: m < n && Ancestor(links, id, m) == Ancestor(links, id, n))
    && (forall i: nat, j: nat | i < j < n :: Ancestor(links, id, i) != Ancestor(links, id, j))
  }

  /** Some record on the way cannot be vouched for. */
  ghost predicate Doubtful(links: Links, id: string, n: nat) {
    exists i: nat :: i < n && Ancestor(links, id, i) in links && links[Ancestor(links, id, i)].unknown
  }

  ghost predicate Met(links: Links, id: string, n: nat, x: string) {
    exists i: nat :: i < n && x == Ancestor(links, id, i)
  }

  lemma MetFurther(links: Links, id: string, n: nat, x: string)
    ensures Met(links, id, n + 1, x) <==> Met(links, id, n, x) || x == Ancestor(links, id, n)
  {
    if i: nat :| i < n + 1 && x == Ancestor(links, id, i) {
      assert i < n ==> Met(links, id, n, x);
    }
    if i: nat :| i < n && x == Ancestor(links, id, i) {
      assert i < n + 1;
    }
    assert n < n + 1;
  }

  /** What the walk knows after n steps. */
  ghost predicate Walked(links: Links, id: string, n: nat, seen: set<string>) {
    && HiddenUpTo(links, id, n)
    && (forall x :: x in seen <==> Met(links, id, n, x))
    && (forall i: nat, j: nat | i < j < n :: Ancestor(links, id, i) != Ancestor(links, id, j))
  }

  lemma WalkedFurther(links: Links, id: string, n: nat, seen: set<string>)
    requires Walked(links, id, n, seen) && Hidden(links, Ancestor(links, id, n)) && Ancestor(links, id, n) !in seen
    ensures Walked(links, id, n + 1, seen + {Ancestor(links, id, n)})
    ensures Ancestor(links, id, n + 1) == links[Ancestor(links, id, n)].parent
    ensures Doubtful(links, id, n + 1) <==> Doubtful(links, id, n) || links[Ancestor(links, id, n)].unknown
  {
    forall x ensures Met(links, id, n + 1, x) <==> Met(links, id, n, x) || x == Ancestor(links, id, n) {
      MetFurther(links, id, n, x);
    }
    if Doubtful(links, id, n) {
      var i: nat :| i < n && Ancestor(links, id, i) in links && links[Ancestor(links, id, i)].unknown;
      assert i < n + 1;
    }
  }

  lemma {:induction false} WalkFrom(links: Links, id: string, n: nat, seen: set<string>, unknown: bool, start: bool)
      returns (k: nat)
    requires Walked(links, id, n, seen) && (unknown <==> start || Doubtful(links, id, n))
    ensures Walk(links, Ancestor(links, id, n), seen, unknown).0 == Ancestor(links, id, k)
    ensures || (Nearest(links, id, k)
                && (Walk(links, Ancestor(links, id, n), seen, unknown).1 <==> start || Doubtful(links, id, k)))
            || (Circles(links, id, k) && Hidden(links, Ancestor(links, id, k))
              && Walk(links, Ancestor(links, id, n), seen, unknown).1)
    decreases links.Keys - seen
  {
    var here := Ancestor(links, id, n);
    k := n;
    if Hidden(links, here) && here !in seen {
      WalkedFurther(links, id, n, seen);
      k := WalkFrom(links, id, n + 1, seen + {here}, unknown || links[here].unknown, start);
    }
  }

  /** The walk ends at the nearest public or unknown ancestor and reports whether it passed a
      doubtful record; or it ends at the first repeated record and reports doubt. */
  lemma WalkEnds(links: Links, id: string, start: bool) returns (n: nat)
    ensures Walk(links, id, {}, start).0 == Ancestor(links, id, n)
    ensures || (Nearest(links, id, n) && (Walk(links, id, {}, start).1 <==> start || Doubtful(links, id, n)))
            || (Circles(links, id, n) && Walk(links, id, {}, start).1)
    ensures Nearest(links, id, n) <==> !Hidden(links, Ancestor(links, id, n))
  {
    n := WalkFrom(links, id, 0, {}, start, start);
  }

  lemma {:induction false} AncestorSum(links: Links, id: string, m: nat, k: nat)
    ensures Ancestor(links, id, m + k) == Ancestor(links, Ancestor(links, id, m), k)
  {
    if k > 0 {
      AncestorSum(links, id, m, k - 1);
      assert m + k - 1 == m + (k - 1);
    }
  }

  /** In a circle every ancestor is hidden, however far one goes. */
  lemma {:induction false} CircleNeverEnds(links: Links, id: string, n: nat, k: nat)
    requires Circles(links, id, n)
    ensures Hidden(links, Ancestor(links, id, k))
    decreases k
  {
    if k >= n {
      var m: nat :| m < n && Ancestor(links, id, m) == Ancestor(links, id, n);
      AncestorSum(links, id, n, k - n);
      AncestorSum(links, id, m, k - n);
      CircleNeverEnds(links, id, n, m + (k - n));
    }
  }

  /** Without a circle, the recorded parent is the nearest public or unknown ancestor. */
  lemma NearestIsFound(links: Links, id: string, n: nat, start: bool)
    requires Nearest(links, id, n)
    ensures Walk(links, id, {}, start) == (Ancestor(links, id, n), start || Doubtful(links, id, n))
  {
    var k := WalkEnds(links, id, start);
    if Hidden(links, Ancestor(links, id, k)) {
      CircleNeverEnds(links, id, k, n);
    }
  }

  /** The chain never leaves the hidden records exactly if it runs in a circle, and then the
      parentage is unsure. */
  lemma CircleIsUnsure(links: Links, id: string, start: bool)
    ensures (forall n: nat :: !Nearest(links, id, n)) <==> (exists n: nat :: Circles(links, id, n))
    ensures (forall n: nat :: !Nearest(links, id, n)) ==> Walk(links, id, {}, start).1
  {
    var k := WalkEnds(links, id, start);
    if n: nat :| Circles(links, id, n) {
      forall m: nat ensures !Nearest(links, id, m) {
        CircleNeverEnds(links, id, n, m);
      }
    }
  }

  // ---------------------------------------------------------------- stamping records

  datatype State = State(root: string, links: Links)

  const FRESH := State("", map[])

  predicate Skipped(r: Record) {
    r.uuid == "" || r.isMeta || r.root == ""
  }

  /** The links to walk: those of the record's own turn, thrown away when there are too many. */
  function LinksFor(s: State, root: string): Links {
    if s.root != root || |s.links| >= CAPACITY then map[] else s.links
  }

  function StampOf(r: Record, i: nat, parent: string, unsure: bool): Option<Stamp>
    requires i < |r.events|
  {
    if Public(r.events[i]) then
      Some(Stamp(i, r.uuid, parent, r.kind.User? && r.events[i] == "user_text", r.isSidechain, unsure))
    else None
  }

  function Stamps(r: Record, parent: string, unsure: bool): seq<Option<Stamp>> {
    seq(|r.events|, i requires 0 <= i < |r.events| => StampOf(r, i, parent, unsure))
  }

  function Unstamped(r: Record): seq<Option<Stamp>> {
    seq(|r.events|, i => None)
  }

  function Process(s: State, r: Record): (State, seq<Option<Stamp>>) {
    if Skipped(r) then (s, Unstamped(r))
    else
      var links := LinksFor(s, r.root);
      var (parent, unsure) := Walk(links, r.parent, {}, Delegates(r));
      (State(r.root, links[r.uuid := LinkOf(r)]), Stamps(r, parent, unsure))
  }

  function Run(records: seq<Record>): State {
    if records == [] then FRESH else Process(Run(records[..|records| - 1]), records[|records| - 1]).0
  }

  /** The link is that of the latest record with this id. */
  ghost predicate FromRecord(records: seq<Record>, id: string, link: Link, i: nat) {
    && i < |records| && !Skipped(records[i]) && records[i].uuid == id && LinkOf(records[i]) == link
    && (forall j | i < j < |records| && records[j].uuid == id :: Skipped(records[j]))
  }

  /** Over any run the table stays within its capacity, and each link tells the truth about
      the latest record with its id. */
  lemma {:induction false} LinksTellTheTruth(records: seq<Record>)
    ensures |Run(records).links| <= 4096
    ensures forall id | id in Run(records).links :: exists i: nat :: FromRecord(records, id, Run(records).links[id], i)
  {
    hide Process;
    if records != [] {
      var front, r := records[..|records| - 1], records[|records| - 1];
      LinksTellTheTruth(front);
      assert records == front + [r];
      NextTellsTheTruth(front, r, Run(front));
    }
  }

  lemma NextTellsTheTruth(front: seq<Record>, r: Record, s: State)
    requires |s.links| <= 4096 && forall id | id in s.links :: exists i: nat :: FromRecord(front, id, s.links[id], i)
    ensures var s' := Process(s, r).0;
            && |s'.links| <= 4096
            && forall id | id in s'.links :: exists i: nat :: FromRecord(front + [r], id, s'.links[id], i)
  {
    hide Walk, LinkOf, Stamps, Unstamped, Delegates;
    var s' := Process(s, r).0;
    if !Skipped(r) {
      AddedLink(LinksFor(s, r.root), r.uuid, LinkOf(r));
      assert FromRecord(front + [r], r.uuid, LinkOf(r), |front|);
    }
    forall id | id in s'.links ensures exists i: nat :: FromRecord(front + [r], id, s'.links[id], i) {
      if Skipped(r) || id != r.uuid {
        var i: nat :| FromRecord(front, id, s.links[id], i);
        assert FromRecord(front + [r], id, s.links[id], i);
      }
    }
  }

  lemma AddedLink(links: Links, id: string, link: Link)
    ensures |links[id := link]| <= |links| + 1
  {
    assert links[id := link].Keys == links.Keys + {id};
    assert |links[id := link]| == |links[id := link].Keys| && |links| == |links.Keys|;
  }

  /** Every public event of a record gets the nearest public or unknown ancestor, sure unless
      the record delegates or the way passes a record that is not neutral or is a sidechain's;
      if there is no such ancestor the stamp is unsure. */
  lemma StampedParent(records: seq<Record>, r: Record, i: nat)
    requires !Skipped(r) && i < |r.events| && Public(r.events[i])
    ensures Process(Run(records), r).1[i].Some?
    ensures var links := LinksFor(Run(records), r.root);
            var stamp := Process(Run(records), r).1[i].value;
            && stamp.ordinal == i && stamp.record == r.uuid && stamp.sidechain == r.isSidechain
            && (stamp.userRoot <==> r.kind.User? && r.events[i] == "user_text")
            && (forall n: nat | Nearest(links, r.parent, n) ::
                  && stamp.parent == Ancestor(links, r.parent, n)
                  && (stamp.unknownChild <==> Delegates(r) || Doubtful(links, r.parent, n)))
            && ((forall n: nat :: !Nearest(links, r.parent, n)) ==> stamp.unknownChild)
  {
    var links := LinksFor(Run(records), r.root);
    CircleIsUnsure(links, r.parent, Delegates(r));
    forall n: nat | Nearest(links, r.parent, n)
      ensures Walk(links, r.parent, {}, Delegates(r))
        == (Ancestor(links, r.parent, n), Delegates(r) || Doubtful(links, r.parent, n))
    {
      NearestIsFound(links, r.parent, n, Delegates(r));
    }
  }

  /** Exactly the public events of a record with an id, in a turn, that is not a meta record, are
      stamped. */
  lemma StampedIff(s: State, r: Record, i: nat)
    requires i < |r.events|
    ensures |Process(s, r).1| == |r.events|
    ensures Process(s, r).1[i].Some? <==>
      && r.uuid != "" && !r.isMeta && r.root != ""
      && r.events[i] in {"user_text", "agent_text", "tool_call", "tool_result"}
  {
    hide Walk;
  }

  // ---------------------------------------------------------------- which records are known

  /** The ids of the records that count. */
  function Ids(records: seq<Record>): set<string> {
    if records == [] then {}
    else
      var last := records[|records| - 1];
      Ids(records[..|records| - 1]) + if Skipped(last) then {} else {last.uuid}
  }

  /** All the records that count belong to this turn. */
  ghost predicate OneTurn(records: seq<Record>, root: string) {
    forall i | 0 <= i < |records| && !Skipped(records[i]) :: records[i].root == root
  }

  /** What is known behind a turn's records: exactly those, each by the latest record of its id,
      and nothing of the turns before. */
  ghost predicate TurnKnown(s: State, records: seq<Record>, root: string) {
    && s.root == root && s.links.Keys == Ids(records)
    && forall id | id in s.links :: exists i: nat :: FromRecord(records, id, s.links[id], i)
  }

  /** Unless 4096 ids were there before the last one came, exactly the records of the turn are
      known. */
  lemma {:induction false} TurnIsKnown(before: seq<Record>, records: seq<Record>, root: string)
    requires OneTurn(records, root) && Run(before).root != root
    requires records != [] ==> |Ids(records[..|records| - 1])| < 4096
    ensures if Ids(records) == {} then Run(before + records) == Run(before)
            else TurnKnown(Run(before + records), records, root)
  {
    hide Run, TurnKnown, Skipped;
    if records == [] {
      assert before + records == before;
    } else {
      var n := |records| - 1;
      var front, r := records[..n], records[n];
      assert before + records == (before + front) + [r] && records == front + [r];
      if front != [] {
        SubsetSize(Ids(front[..n - 1]), Ids(front));
      }
      TurnIsKnown(before, front, root);
      if Skipped(r) {
        SkippedChangesNothing(before, front, r, root);
      } else {
        NextIsKnown(before, front, r, root);
      }
    }
  }

  lemma SkippedChangesNothing(before: seq<Record>, front: seq<Record>, r: Record, root: string)
    requires Skipped(r)
    ensures Run((before + front) + [r]) == Run(before + front) && Ids(front + [r]) == Ids(front)
    ensures TurnKnown(Run(before + front), front, root) ==> TurnKnown(Run(before + front), front + [r], root)
  {
    hide Walk, LinkOf, Stamps, Unstamped, Delegates;
    assert ((before + front) + [r])[..|before + front|] == before + front;
    assert (front + [r])[..|front|] == front;
    var s := Run(before + front);
    if TurnKnown(s, front, root) {
      forall id | id in s.links ensures exists i: nat :: FromRecord(front + [r], id, s.links[id], i) {
        var i: nat :| FromRecord(front, id, s.links[id], i);
        assert FromRecord(front + [r], id, s.links[id], i);
      }
    }
  }

  lemma NextIsKnown(before: seq<Record>, front: seq<Record>, r: Record, root: string)
    requires !Skipped(r) && r.root == root && Run(before).root != root && |Ids(front)| < 4096
    requires if Ids(front) == {} then Run(before + front) == Run(before)
             else TurnKnown(Run(before + front), front, root)
    ensures TurnKnown(Run((before + front) + [r]), front + [r], root) && Ids(front + [r]) != {}
  {
    hide Walk, LinkOf, Stamps, Unstamped, Delegates, Ids;
    var records, all := front + [r], (before + front) + [r];
    assert all[..|before + front|] == before + front;
    IdsNext(front, r);
    var s, s' := Run(before + front), Run(all);
    assert |s.links| == |s.links.Keys|;
    assert FromRecord(records, r.uuid, LinkOf(r), |front|);
    forall id | id in s'.links ensures exists i: nat :: FromRecord(records, id, s'.links[id], i) {
      if id != r.uuid {
        var i: nat :| FromRecord(front, id, s.links[id], i);
        assert FromRecord(records, id, s.links[id], i);
      }
    }
  }

  lemma IdsNext(front: seq<Record>, r: Record)
    requires !Skipped(r)
    ensures Ids(front + [r]) == Ids(front) + {r.uuid}
  {
    assert (front + [r])[..|front|] == front;
  }

  // ---------------------------------------------------------------- the parent, told from the records

  /** The latest record with this id is at `i`. */
  ghost predicate Latest(records: seq<Record>, id: string, i: nat) {
    && i < |records| && !Skipped(records[i]) && records[i].uuid == id
    && forall j | i < j < |records| && records[j].uuid == id :: Skipped(records[j])
  }

  /** The records on the way from one id to another: each is the latest of its id and was not shown,
      and names the next one as its parent. */
  ghost predicate Way(records: seq<Record>, from: string, path: seq<nat>, to: string)
    decreases |path|
  {
    if path == [] then from == to
    else
      && Latest(records, from, path[0]) && !Emits(records[path[0]])
      && Way(records, records[path[0]].parent, path[1..], to)
  }

  /** The id is that of no record of the turn, or of one that was shown. */
  ghost predicate Seen(records: seq<Record>, id: string) {
    id in Ids(records) ==> exists i: nat :: Latest(records, id, i) && Emits(records[i])
  }

  /** The links are those of the turn's records. */
  ghost predicate LinksOf(links: Links, records: seq<Record>) {
    && links.Keys == Ids(records)
    && forall id | id in links :: exists i: nat :: FromRecord(records, id, links[id], i)
  }

  lemma {:induction false} IdsAre(records: seq<Record>, i: nat)
    requires i < |records| && !Skipped(records[i])
    ensures records[i].uuid in Ids(records)
  {
    if i < |records| - 1 {
      IdsAre(records[..|records| - 1], i);
    }
  }

  lemma LinkIs(links: Links, records: seq<Record>, id: string, i: nat)
    requires LinksOf(links, records) && Latest(records, id, i)
    ensures id in links && links[id] == LinkOf(records[i])
  {
    hide LinkOf;
    IdsAre(records, i);
    var k: nat :| FromRecord(records, id, links[id], k);
    assert k == i;
  }

  predicate Unsure(r: Record) {
    !Neutral(r) || r.isSidechain
  }

  /** The first step up from a hidden record. */
  lemma OneUp(links: Links, from: string)
    requires Hidden(links, from)
    ensures Ancestor(links, from, 0) == from
    ensures forall k: nat :: Ancestor(links, from, k + 1) == Ancestor(links, links[from].parent, k)
  {
    forall k: nat ensures Ancestor(links, from, k + 1) == Ancestor(links, links[from].parent, k) {
      AncestorSum(links, from, 1, k);
      assert Ancestor(links, from, 1) == links[from].parent;
    }
  }

  lemma {:induction false} WayIsWalked(links: Links, records: seq<Record>, from: string, path: seq<nat>, to: string)
    requires LinksOf(links, records) && Way(records, from, path, to)
    ensures Ancestor(links, from, |path|) == to && HiddenUpTo(links, from, |path|)
    ensures forall k | 0 <= k < |path| :: path[k] < |records|
    ensures Doubtful(links, from, |path|) <==> exists k :: 0 <= k < |path| && Unsure(records[path[k]])
    decreases |path|
  {
    hide LinkOf, Emits, Neutral, LinksOf, Doubtful, HiddenUpTo, Ancestor, Unsure;
    if path == [] {
      NoWay(links, from);
    } else {
      var i, rest := path[0], path[1..];
      var parent := records[i].parent;
      LinkIs(links, records, from, i);
      LinkSays(records[i]);
      WayIsWalked(links, records, parent, rest, to);
      OneUp(links, from);
      assert Ancestor(links, from, |rest| + 1) == to;
      HiddenShift(links, from, parent, |rest|);
      DoubtShift(links, from, parent, |path|);
      UnsureShift(records, path);
    }
  }

  lemma NoWay(links: Links, from: string)
    ensures Ancestor(links, from, 0) == from && HiddenUpTo(links, from, 0) && !Doubtful(links, from, 0)
  {
  }

  lemma UnsureShift(records: seq<Record>, path: seq<nat>)
    requires path != [] && path[0] < |records| && forall k | 0 <= k < |path[1..]| :: path[1..][k] < |records|
    ensures forall k | 0 <= k < |path| :: path[k] < |records|
    ensures (exists k :: 0 <= k < |path| && Unsure(records[path[k]])) <==>
      Unsure(records[path[0]]) || exists k :: 0 <= k < |path[1..]| && Unsure(records[path[1..][k]])
  {
    hide Unsure;
    var rest := path[1..];
    assert forall k | 1 <= k < |path| :: path[k] == rest[k - 1];
    if k :| 0 <= k < |path| && Unsure(records[path[k]]) {
      assert k > 0 ==> Unsure(records[rest[k - 1]]);
    }
    if k :| 0 <= k < |rest| && Unsure(records[rest[k]]) {
      assert Unsure(records[path[k + 1]]);
    }
  }

  lemma LinkSays(r: Record)
    ensures LinkOf(r).parent == r.parent && (LinkOf(r).emitted <==> Emits(r)) && (LinkOf(r).unknown <==> Unsure(r))
  {
  }

  lemma HiddenShift(links: Links, from: string, parent: string, n: nat)
    requires Hidden(links, from) && HiddenUpTo(links, parent, n)
    requires forall k: nat :: Ancestor(links, from, k + 1) == Ancestor(links, parent, k)
    ensures HiddenUpTo(links, from, n + 1)
  {
    forall i: nat | i < n + 1 ensures Hidden(links, Ancestor(links, from, i)) {
      if i > 0 {
        assert Ancestor(links, from, i - 1 + 1) == Ancestor(links, parent, i - 1);
      }
    }
  }

  lemma DoubtShift(links: Links, from: string, parent: string, n: nat)
    requires from in links && forall k: nat :: Ancestor(links, from, k + 1) == Ancestor(links, parent, k)
    ensures n > 0 ==> (Doubtful(links, from, n) <==> links[from].unknown || Doubtful(links, parent, n - 1))
    ensures !Doubtful(links, from, 0)
  {
    if n > 0 {
      if i: nat :| i < n && Ancestor(links, from, i) in links && links[Ancestor(links, from, i)].unknown {
        assert i > 0 ==> Ancestor(links, from, i - 1 + 1) == Ancestor(links, parent, i - 1);
      }
      if i: nat :| i < n - 1 && Ancestor(links, parent, i) in links && links[Ancestor(links, parent, i)].unknown {
        assert Ancestor(links, from, i + 1) == Ancestor(links, parent, i);
        assert i + 1 < n;
      }
      assert Ancestor(links, from, 0) == from;
    }
  }

  lemma LinksAreTurns(before: seq<Record>, records: seq<Record>, root: string)
    requires OneTurn(records, root) && Run(before).root != root && |Ids(records)| < 4096
    ensures LinksOf(LinksFor(Run(before + records), root), records)
  {
    hide Run;
    if records != [] {
      SubsetSize(Ids(records[..|records| - 1]), Ids(records));
    }
    TurnIsKnown(before, records, root);
    if Ids(records) != {} {
      assert |Run(before + records).links| == |Run(before + records).links.Keys|;
    }
  }

  /** A public event's parent, told from the records of its turn: the first record up the way that
      was shown or is not of this turn; sure exactly if the record delegates to no child and every
      record on the way can be vouched for. */
  lemma StampedFromRecords(before: seq<Record>, records: seq<Record>, root: string, r: Record, i: nat,
      path: seq<nat>, to: string)
    requires OneTurn(records, root) && Run(before).root != root && |Ids(records)| < 4096
    requires !Skipped(r) && r.root == root && i < |r.events| && Public(r.events[i])
    requires Way(records, r.parent, path, to) && Seen(records, to)
    ensures forall k | 0 <= k < |path| :: path[k] < |records|
    ensures var stamp := Process(Run(before + records), r).1[i];
            && stamp.Some? && stamp.value.parent == to
            && (stamp.value.unknownChild <==>
                  Delegates(r) || exists k :: 0 <= k < |path| && Unsure(records[path[k]]))
  {
    hide Run, LinksOf, Way, Delegates, Emits, Neutral, Skipped, Process, Doubtful, HiddenUpTo, OneTurn;
    var links := LinksFor(Run(before + records), root);
    LinksAreTurns(before, records, root);
    WayIsWalked(links, records, r.parent, path, to);
    SeenIsNotHidden(links, records, to);
    assert Nearest(links, r.parent, |path|);
    StampedParent(before + records, r, i);
  }

  lemma SeenIsNotHidden(links: Links, records: seq<Record>, to: string)
    requires LinksOf(links, records) && Seen(records, to)
    ensures !Hidden(links, to)
  {
    hide LinkOf, Emits;
    if to in links {
      var i: nat :| Latest(records, to, i) && Emits(records[i]);
      LinkIs(links, records, to, i);
      LinkSays(records[i]);
    }
  }

  /** With 4096 records known, the next one that counts is all that is known. */
  lemma OverflowForgets(records: seq<Record>, r: Record)
    requires |Run(records).links| == 4096 && !Skipped(r)
    ensures Run(records + [r]) == State(r.root, map[r.uuid := LinkOf(r)])
    ensures forall i | 0 <= i < |r.events| && Public(r.events[i]) ::
      Process(Run(records), r).1[i] == StampOf(r, i, r.parent, Delegates(r))
  {
    hide LinkOf, Delegates;
    assert (records + [r])[..|records|] == records;
  }

  /** What a link says of its record: whether it was shown, and whether it can be vouched for. */
  lemma LinkTable(r: Record)
    ensures LinkOf(r).parent == r.parent
    ensures LinkOf(r).emitted <==>
      exists event :: event in r.events && event in {"user_text", "agent_text", "tool_call", "tool_result"}
    ensures !LinkOf(r).unknown <==>
      && !r.isSidechain
      && (|| (r.kind.Assistant? && r.blocks.Some? && r.blocks.value != []
              && forall b | b in r.blocks.value :: b.kind in {"thinking", "redacted_thinking"})
          || (r.kind.Attachment? && r.kind.kind in {
                "environment", "model", "language", "deferred_tools_delta", "agent_listing_delta", "skill_listing",
                "session_context", "date", "remote_session_change", "prompt_snapshot", "hook_success",
                "hook_additional_context"}))
    ensures Delegates(r) <==>
      r.blocks.Some? && exists b :: b in r.blocks.value && b.kind == "tool_use" && b.name in {"Task", "Agent"}
  {
    if event :| event in r.events && Public(event) {
      var i :| 0 <= i < |r.events| && r.events[i] == event;
      assert Public(r.events[i]);
    }
    if r.blocks.Some? {
      var blocks := r.blocks.value;
      if b :| b in blocks && StartsChild(b) {
        var i :| 0 <= i < |blocks| && blocks[i] == b;
        assert StartsChild(blocks[i]);
      }
      if b :| b in blocks && !IsThinking(b) {
        var i :| 0 <= i < |blocks| && blocks[i] == b;
        assert !IsThinking(blocks[i]);
      }
    }
  }

  // ---------------------------------------------------------------- the parser's part of the state

  class ParentTracker {
    var root: string
    var links: Links

    ghost function View(): State
      reads this
    {
      State(root, links)
    }

    constructor ()
      ensures View() == FRESH
    {
      root, links := "", map[];
    }

    /** The walk with its cap on the number of steps: the cap never takes effect. */
    method WalkUp(start: string, delegates: bool) returns (parent: string, unsure: bool)
      requires |links| < CAPACITY
      ensures (parent, unsure) == Walk(links, start, {}, delegates)
    {
      parent, unsure := start, delegates;
      var seen: set<string> := {};
      ghost var stopped := false;
      while |seen| < CAPACITY
        invariant !stopped && seen <= links.Keys
        invariant Walk(links, parent, seen, unsure) == Walk(links, start, {}, delegates)
        decreases links.Keys - seen
      {
        if parent !in links || links[parent].emitted {
          stopped := true;
          break;
        }
        if parent in seen {
          stopped := true;
          unsure := true;
          break;
        }
        seen := seen + {parent};
        unsure := unsure || links[parent].unknown;
        parent := links[parent].parent;
      }
      SubsetSize(seen, links.Keys);
      assert |links.Keys| == |links|;
      assert stopped;
    }

    /** Stamp the events of one record and remember its link. */
    method StampRecord(r: Record) returns (stamps: seq<Option<Stamp>>)
      requires |links| <= CAPACITY
      modifies this
      ensures |links| <= CAPACITY
      ensures (View(), stamps) == Process(old(View()), r)
    {
      hide Walk, Neutral, Delegates, Hidden;
      if r.uuid == "" || r.isMeta || r.root == "" {
        return Unstamped(r);
      }
      if root != r.root {
        root := r.root;
        links := map[];
      }
      if |links| >= CAPACITY {
        links := map[];
      }
      var emitted := false;
      var i := 0;
      while i < |r.events|
        invariant 0 <= i <= |r.events|
        invariant emitted == exists k | 0 <= k < i :: Public(r.events[k])
      {
        if Public(r.events[i]) {
          emitted := true;
        }
        i := i + 1;
      }
      var parent, unsure := WalkUp(r.parent, Delegates(r));
      AddedLink(links, r.uuid, LinkOf(r));
      links := links[r.uuid := Link(r.parent, emitted, !Neutral(r) || r.isSidechain)];
      stamps := [];
      i := 0;
      while i < |r.events|
        invariant 0 <= i <= |r.events|
        invariant stamps == Stamps(r, parent, unsure)[..i]
      {
        stamps := stamps + [StampOf(r, i, parent, unsure)];
        i := i + 1;
      }
      assert stamps == Stamps(r, parent, unsure);
    }
  }
}
