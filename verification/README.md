# Verification of the pocketctl daemon's brokers and projectors

This project models, in Dafny, the parts of the pocketctl daemon whose correctness rests on
an invariant rather than on reading one function: the brokers that several goroutines race
in, and the projectors that turn native agent records into event streams.

How the pieces are modelled:

- A concurrent component is a state machine. A step is one mutex-held region, one channel
  operation or one outcome of an outside call; a run is any sequence of steps, and a step
  that is not enabled changes nothing. The theorems range over all runs. Beside the machine
  stands a class whose methods are the locked regions, each proved to compute the region
  function or step the machine uses. For the RPC client and the hot restart the class also
  holds the programs themselves, run against any behaviour of the other side.
- A projector is a function of its state and one record (or one snapshot), and a class whose
  methods, with the loops of the source, compute that function. The theorems range over all
  sequences of records or snapshots.
- The plan literal parser is a set of functions of a text and a position. A grammar with
  spellings and meanings, stated without the parser, is the reference: the parser accepts
  exactly that language. The parser object with its position field is proved to compute the
  functions. The call scanner is proved against a lexer that looks at one character at a time.

| files | component |
|---|---|
| `AcquireDedup.dfy`, `AcquireRetries.dfy` | sharing one provider call among waiters that may each give up |
| `Approval.dfy`, `Coalescing.dfy`, `CoalescingRuns.dfy` | the approval broker and its coalescing table |
| `Opencode*.dfy` | the OpenCode snapshot differ |
| `MessageIds.dfy`, `MessageHistories.dfy` | reservation of OpenCode message ids |
| `Plan*.dfy` | the Codex plan literal scanner and parser |
| `CodexPlans.dfy`, `ClaudeTasks.dfy`, `ClaudeTaskRuns.dfy` | plan identities and the Claude task list |
| `NativeParents.dfy` | the walk to a record's native parent |
| `LeaseRegistry.dfy`, `LeaseLiveness.dfy` | leases and process identities |
| `RpcClient.dfy`, `RpcOutcomes.dfy` | the app-server RPC client |
| `Turns.dfy`, `ClaudeTurns.dfy`, `CodexTurns.dfy` | turn brackets and mirrored messages |
| `HotRestart.dfy`, `HotRestartProgress.dfy` | the hot-restart handshake |
| `Common.dfy` | shared definitions |

Two promises turn out to hold only under a condition, which is stated exactly:

- A reserved OpenCode message id sorts after the history if the reserved time lies in the
  clock's 36-bit epoch. On a clock that never turns back it fails if and only if the history
  holds the last millisecond of an epoch (`MessageIds.RunsWrongOnlyAtEpochEnd`, with the input
  in `MessageIds.EpochEdge`): the epoch guard of the source looks at older epochs only. For any
  clock the exact condition is on the digits of the target (`MessageIds.GreaterThanObservedIff`).
- A reply in a call's channel is never reported as a closed connection once the request has
  been written. Before that it can be (`RpcClient.ClosedOnlyBeforeWriting`, with a run in
  `RpcClient.UnaskedReplyIsLost`).

`dafny verify dfyconfig.toml` checks the whole project.

## Model

| member | source | states |
|---|---|---|
| `AcquireDedup.StepKeepsInv` | internal/agentcontrol/server.go:193-287 | every locked region and every move of a caller or worker, in any order, keeps each entry's account balanced: waiters, deliveries, releases and cache membership agree |
| `AcquireDedup.LeaseConservation` | internal/agentcontrol/server.go:193-287 | over every interleaving, once all parties of an entry have left, a granted lease was either handed out without error and never released, or released exactly once and never handed out without error |
| `AcquireDedup.HandedOutIsHolding` | internal/agentcontrol/server.go:243-258 | a lease is with some caller exactly if the entry's account counts a holder |
| `AcquireDedup.NothingHandedOutWithoutProvider` | internal/agentcontrol/server.go:210-241 | nobody is told there is a lease unless the provider granted one |
| `AcquireDedup.SingleFlight` | internal/agentcontrol/server.go:196-239 | two provider calls for one key are never in flight together |
| `AcquireDedup.AbandonedAfterStep` | internal/agentcontrol/server.go:196-200 | no step un-abandons an entry or adds a waiter to an abandoned one |
| `AcquireDedup.AbandonedForGood` | internal/agentcontrol/server.go:196-200 | an abandoned entry stays abandoned and is never joined, however the run goes on |
| `AcquireDedup.AbandonedHasOwner` | internal/agentcontrol/server.go:249-266 | an abandoned entry that still occupies its key has a running worker or a caller on the way to delete it |
| `AcquireDedup.QuiescentNeverRefuses` | internal/agentcontrol/server.go:196-239 | when nothing is running, no key is refused |
| `AcquireDedup.UncancelledCallerIsServed` | internal/agentcontrol/server.go:210-278 | over every run, a caller that no step cancelled, of an operation that no step ended, is told exactly what the provider answered to its operation: that lease, or its error |
| `AcquireDedup.NobodyWaitsInVain` | internal/agentcontrol/server.go:269-278 | a waiting caller waits for the provider, or some step that serves it can be taken |
| `AcquireDedup.FinishAbandonsIff` | internal/agentcontrol/server.go:215-229 | the worker finds its result unwanted, and keeps the release for itself, if and only if no caller of the operation is waiting or leaving or the operation was ended from outside; otherwise the provider's answer is published |
| `AcquireRetries.GoodIsShared` | internal/agentcontrol/server.go:196-241 | asking for a key whose operation is under way or was granted at most five minutes before every request waits with its other callers and does not call the provider |
| `AcquireRetries.OwnedIsRefused` | internal/agentcontrol/server.go:196-200 | asking for a key whose unwanted lease is being given back is refused |
| `AcquireRetries.AskedMeans` | internal/agentcontrol/server.go:195-241 | a request shares an entry, is refused, or starts a new one; it starts one only if the key has none that is good or being given back, and then exactly the finished entries older than five minutes are evicted |
| `AcquireRetries.CancelledCallerFails` | internal/agentcontrol/server.go:269-278 | over every run, a caller cancelled while it waits is never told there is a lease, and can leave as long as it waits |
| `AcquireRetries.RunKeeps` | internal/agentcontrol/server.go:205-266 | over every run, every entry that is good or being given back, and young, is the one its key stands for |
| `AcquireDedup.Server.Join` | internal/agentcontrol/server.go:195-241 | the join region as an update of the object: refuse an abandoned entry, join an existing one, or create one and evict |
| `AcquireDedup.Server.EvictStale` | internal/agentcontrol/server.go:205-209 | the eviction loop removes exactly the stale finished entries of other keys |
| `AcquireDedup.Server.Finish` | internal/agentcontrol/server.go:215-229 | the worker's region: publish the result, and learn whether it was abandoned |
| `AcquireDedup.Server.Leave` | internal/agentcontrol/server.go:243-258 | the leaving caller's region: the last one to leave an undelivered result must release it |
| `AcquireDedup.Server.Forget` | internal/agentcontrol/server.go:232-236 | an entry is deleted only if its key still stands for it |
| `Approval.StepKeepsInv` | internal/approval/server.go:231-318 | every step of every competitor keeps the account of each request: in the table, taken, won or settled, with the matching channel contents and reports |
| `Approval.FinishedAtMostOnce` | internal/approval/server.go:310-318 | over every run a request has at most one finished report, and its hook is allowed exactly if that report says approved |
| `Approval.FinishedExactlyOnce` | internal/approval/server.go:429-539 | once handlers and takers are through, every registered request has exactly one finished report and its hook holds the reported decision |
| `Approval.StepsLowerWork` | internal/approval/server.go:429-539 | every step of a handler or taker, in whatever order they move, leaves less to do |
| `Approval.NobodyIsStuck` | internal/approval/server.go:429-539 | a handler or taker can move if and only if something is unfinished |
| `Approval.FinishingEnds` | internal/approval/server.go:429-539 | handlers and takers cannot go on for ever: they are through after at most as many steps as there was work |
| `Approval.Settles` | internal/approval/server.go:429-539 | any run can be finished by the handlers and takers it left at work, without a new request, client answer, drain or shutdown |
| `Approval.EveryRequestIsFinished` | internal/approval/server.go:310-539 | in any run after which no handler or taker can move, every registered request has been reported exactly once and its hook told that decision |
| `Approval.EveryRunFinishes` | internal/approval/server.go:310-539 | any run extends, by handlers and takers alone, to one in which every request has been reported exactly once |
| `Approval.DecisionIsTakers` | internal/approval/server.go:255-282 | over every run, the hook is told allow if and only if the step that took the request carried the user's allow, and the report has the user's answer and the reason of that step |
| `Approval.EveryDecisionIsTakers` | internal/approval/server.go:429-539 | when nobody can move, every request was taken by a step, its hook was told that step's decision, and its one report has that step's answer and reason |
| `Approval.TakenIff` | internal/approval/server.go:284-308 | a pending request is taken by a step exactly if that is an enabled answer to it, its own handler's, a drain of its session or of all, or the shutdown |
| `Approval.RegisteredIff` | internal/approval/server.go:430-441 | over every run, the registered requests are exactly the connections of a session that came before the server was closed, in order, each with its session |
| `Approval.DrainTakesItsSession` | internal/approval/server.go:268-282 | a drain leaves no request of its session pending and takes none of another |
| `Approval.SendNeverBlocks` | internal/approval/server.go:255-277 | a taker always finds the one-slot channel of its request empty |
| `Approval.LoserIsAnswered` | internal/approval/server.go:480-505 | a handler that lost the race for its request finds, or will find, the winner's answer on the channel |
| `Approval.ClosedForGood` | internal/approval/server.go:231-250 | once shutdown has drained the table no request is ever pending again |
| `Approval.ShutdownDrains` | internal/approval/server.go:231-250 | the shutdown takes every pending request |
| `Approval.SettledForGood` | internal/approval/server.go:284-318 | the report and the decision of a settled request never change |
| `Approval.PendingTable.Add` | internal/approval/server.go:430-441 | registration under the close lock is refused after shutdown |
| `Approval.PendingTable.Close` | internal/approval/server.go:231-250 | shutdown raises the flag and leaves the table to be drained |
| `Approval.PendingTable.TakePending` | internal/approval/server.go:284-292 | exactly one taker is told it has won |
| `Approval.PendingTable.TakePendingForSession` | internal/approval/server.go:297-308 | the loop takes exactly the requests of the session, or all, each once |
| `Coalescing.StepKeepsInv` | internal/approval/dedup.go:22-66 | arrivals, decisions and wake-ups in any order keep the coalescing table consistent with the history of calls |
| `Coalescing.ExactlyOneLeader` | internal/approval/dedup.go:47-58 | every shared decision has exactly one leading connection |
| `Coalescing.LeadersTakeTurns` | internal/approval/dedup.go:41-58 | two leaders for one key never overlap: the earlier decision had expired before the later call was created |
| `Coalescing.FollowersAgree` | internal/approval/server.go:363-380 | a follower that was answered holds its leader's response, and asked the leader's question under the leader's key |
| `Coalescing.NoFollowerForgotten` | internal/approval/server.go:367-377 | a waiting follower can be woken exactly if its leader has decided, and otherwise the leader can still decide |
| `Coalescing.PurgedIsLive` | internal/approval/dedup.go:41-46 | what the purge leaves is exactly the set of calls that are undecided or unexpired |
| `Coalescing.JoinOutcome` | internal/approval/dedup.go:22-58 | a connection follows the live call of its key if the fingerprints are equal, is refused if they differ, leads if there is none, and is refused if ten thousand are live |
| `Coalescing.LiveStaysListed` | internal/approval/dedup.go:41-54 | an undecided call is never evicted, and no call is before it expires |
| `Coalescing.NeverOverCapacity` | internal/approval/dedup.go:50-54 | the table never holds more than 10000 calls |
| `Coalescing.DecidedForGood` | internal/approval/dedup.go:60-66 | a published decision never changes |
| `CoalescingRuns.AnswerIsRuling` | internal/approval/server.go:363-380 | over every run, an independent or leading connection is answered with its own decision, a follower with its leader's, and a refused one with a denial |
| `CoalescingRuns.FollowerIsAnswered` | internal/approval/server.go:363-380 | a waiting follower is answered by its wake-up exactly if its leader has decided, and then with that decision |
| `CoalescingRuns.ArrivalBecomes` | internal/approval/dedup.go:22-58 | what an arriving connection becomes, told from the connections before it: it follows the leader of its invocation that is undecided or decided less than a minute ago if the question is the same, is refused if it is another, and otherwise leads unless ten thousand such leaders exist |
| `CoalescingRuns.OneFreshLeader` | internal/approval/dedup.go:41-58 | no two such leaders share an invocation |
| `CoalescingRuns.QuestionIsHook` | internal/approval/dedup.go:27-40 | two hooks share a key and a fingerprint exactly if session, invocation, tool, directory, mode and input agree, an absent input counting as null |
| `Coalescing.CallTable.Purge` | internal/approval/dedup.go:41-46 | the purge loop removes exactly the expired calls |
| `Coalescing.CallTable.JoinToolCall` | internal/approval/dedup.go:22-58 | the join region, with its refusals for undecodable input, conflict and overload |
| `Coalescing.CallTable.CompleteToolCall` | internal/approval/dedup.go:60-66 | publishing sets response, expiry and the done signal of that call alone |
| `OpencodeWeaving.SortSorts` | internal/adapter/opencode.go:257-261 | the ordering pass sorts by creation time |
| `OpencodeWeaving.SortIsStable` | internal/adapter/opencode.go:257-261 | messages created at the same time keep their order |
| `OpencodeWeaving.WeavePreservesContent` | internal/adapter/opencode.go:438-474 | without the turn events the woven list is the content list, unchanged |
| `OpencodeWeaving.WeaveOnce` | internal/adapter/opencode.go:438-474 | each new turn event occurs exactly once in the woven list |
| `OpencodeWeaving.WeaveOrders` | internal/adapter/opencode.go:438-474 | a running event precedes and a terminal event follows all content of its own turn |
| `OpencodeRuns.AnnounceOne` | internal/adapter/opencode.go:340-368 | one poll announces a turn only on a change, and never after a terminal state |
| `OpencodeRuns.WovenStates` | internal/adapter/opencode.go:438-474 | weaving changes nothing about the sequence of states a turn goes through |
| `OpencodeRuns.TurnsNeverReopen` | internal/adapter/opencode.go:291-368 | over any sequence of snapshots a turn emits at most one running event and then at most one terminal event |
| `OpencodeTurns.TurnAfterPoll` | internal/adapter/opencode.go:291-368 | a turn of the snapshot that was not closed is known afterwards as failed if and only if one of its assistant messages has an error, else as running if one is incomplete or there is none, else as completed |
| `OpencodeTurns.PollAnnouncesTurns` | internal/adapter/opencode.go:291-368 | over a whole poll: which turn events are emitted, in which state, and what is known of every turn afterwards |
| `OpencodeTurns.TurnEventsAreShown` | internal/adapter/opencode.go:342-368 | every turn event of a poll carries the state the messages of its turn show and the creation time of its user message |
| `OpencodeReports.ReportsRefinement` | internal/adapter/opencode.go:384-436 | over any run a client that keeps the last of everything holds the latest content of every tool and other part, the latest error of every message and the latest status |
| `OpencodeReports.ConvertShows` | internal/adapter/opencode.go:722-822 | which event a part that is not text becomes |
| `OpencodeReports.StatusIsShown` | internal/adapter/opencode.go:476-510 | the status of a poll: the native one if it is known, else running exactly if the latest message is an assistant's without completion |
| `OpencodeReports.StatusReportedIff` | internal/adapter/opencode.go:494-509 | over any run a status is reported if and only if it differs from the last one, or is idle and an assistant message completed later than any seen before |
| `OpencodeReports.ItemsAre` | internal/adapter/opencode.go:370-436 | the content pass looks at exactly the errors of assistant messages and the parts of all messages, each in the turn in force there |
| `OpencodeReports.ContentHasSource` | internal/adapter/opencode.go:370-436 | every content event of a poll comes from a message of the snapshot and the turn in force there: users' text as user text, reasoning as reasoning, other text as the agent's, with the identity its content gives |
| `OpencodeReports.OnePass` | internal/adapter/opencode.go:370-436 | over any run the content shown is that of one long pass over all snapshots |
| `OpencodeReports.VersionShownIff` | internal/adapter/opencode.go:414-434 | a part that is not text is shown exactly if it differs from the last version seen and shows anything, and names the event its last version was shown with |
| `OpencodeTexts.TextStep` | internal/adapter/opencode.go:552-599 | one text part: a client that appends or replaces as told holds the snapshot's text afterwards, and the event continues the chain |
| `OpencodeTexts.RunInStep` | internal/adapter/opencode.go:400-412 | after every poll of any run, client text, revision and last event id agree with the differ's memory for every part |
| `OpencodeTexts.TextRefinement` | internal/adapter/opencode.go:400-412 | over any run the client holds the latest non-blank text of every part it is shown, revisions rise by one and the event ids form an unbroken chain |
| `OpencodeTexts.WholeTextRefinement` | internal/adapter/opencode.go:552-599 | with user text shown, the client's texts are exactly the latest non-blank texts of all parts |
| `OpencodeTexts.UserTextStaysHidden` | internal/adapter/opencode.go:400-406 | with user text hidden, a part that was only ever a user's never reaches the client |
| `OpencodeIdempotence.SortKeepsIds` | internal/adapter/opencode.go:257-261 | ordering neither adds nor drops a message or part |
| `OpencodeIdempotence.AllSettle` | internal/adapter/opencode.go:384-436 | after one pass every part and error of the snapshot is settled in the memory |
| `OpencodeIdempotence.TurnsSettle` | internal/adapter/opencode.go:340-368 | after one pass every turn of the snapshot is announced in its state |
| `OpencodeIdempotence.DiffAgainIsSilent` | internal/adapter/opencode.go:384-509 | diffing the same snapshot with unique native ids and the same native status again emits nothing |
| `OpencodeSync.FindTurn` | internal/adapter/opencode.go:323-328 | the turn of an anchor is found or appended |
| `OpencodeSync.AddEvidence` | internal/adapter/opencode.go:329-339 | an assistant message adds its evidence to its turn alone |
| `OpencodeSync.CollectTurns` | internal/adapter/opencode.go:305-341 | the first pass over the snapshot collects the turns in order of appearance |
| `OpencodeSync.FindExtents` | internal/adapter/opencode.go:442-452 | the loop finds the first and last content event of every turn |
| `OpencodeSync.WeaveOne` | internal/adapter/opencode.go:456-466 | one content event with the turn events it brings |
| `OpencodeSync.WeaveContent` | internal/adapter/opencode.go:453-467 | the weaving loop over the content |
| `OpencodeSync.AppendLeftover` | internal/adapter/opencode.go:468-472 | turn events without content follow at the end, in order |
| `OpencodeSync.WeaveEvents` | internal/adapter/opencode.go:438-474 | the whole weaving computes the specified list |
| `OpencodeSync.LatestCompletedAssistant` | internal/adapter/opencode.go:668-677 | the greatest completion time of an assistant message, zero if there is none |
| `OpencodeSync.Sync.DiffTextPart` | internal/adapter/opencode.go:552-599 | a text part updates its own memory only and yields the specified append or replace event |
| `OpencodeSync.Sync.DiffOne` | internal/adapter/opencode.go:384-436 | a message error, text or other part is diffed against the memory |
| `OpencodeSync.Sync.MessagePass` | internal/adapter/opencode.go:375-436 | the parts of one message, in order |
| `OpencodeSync.Sync.ContentPass` | internal/adapter/opencode.go:370-436 | the content pass with its own anchor walk |
| `OpencodeSync.Sync.AnnounceTurns` | internal/adapter/opencode.go:342-368 | the loop that announces changed turns and remembers them |
| `OpencodeSync.Sync.ReportStatus` | internal/adapter/opencode.go:476-509 | the session status is reported on a change, or when a fast turn completed unseen |
| `OpencodeSync.Sync.DiffWithNativeStatus` | internal/adapter/opencode.go:256-510 | one poll, as an update of the object, is the specified diff |
| `MessageIds.MakeIdDecodes` | internal/adapter/opencode_serve.go:697-720 | a made id decodes to the 36 bits of the millisecond it was made of |
| `MessageIds.HexRoundTrip` | internal/adapter/opencode_serve.go:706-713 | hexadecimal encoding of bytes is undone by decoding |
| `MessageIds.BigEndianRoundTrip` | internal/adapter/opencode_serve.go:703-719 | big-endian bytes give the number back |
| `MessageIds.HexOrder` | internal/adapter/opencode_serve.go:640-646 | among digit strings of one length a smaller number sorts first as a string, if the greater one is in lower case or the smaller one has no letters |
| `MessageIds.MillisIsNumber` | internal/adapter/opencode_serve.go:709-720 | the decoder reads the number its twelve digits write, without the counter |
| `MessageIds.ScanMeaning` | internal/adapter/opencode_serve.go:655-672 | the scan accepts a history exactly if no message is unsupported or from an earlier epoch, reports the first fault, and finds the greatest millisecond |
| `MessageIds.ReserveStep` | internal/adapter/opencode_serve.go:647-707 | when a call succeeds; a failure leaves the last reservation unchanged, a success moves it up by no more than the allowed lead |
| `MessageIds.ReservedIsPast` | internal/adapter/opencode_serve.go:683-692 | an id is handed out only after the clock has passed its millisecond |
| `MessageIds.ServerIdFollows` | internal/adapter/opencode_serve.go:640-646 | an id the server generates afterwards sorts after the reserved one, in the same epoch |
| `MessageIds.GreaterThanObserved` | internal/adapter/opencode_serve.go:647-707 | a reserved id is greater than every id of the history when its time lies in the clock's epoch |
| `MessageIds.GreaterThanObservedIff` | internal/adapter/opencode_serve.go:647-707 | for any history, last reservation and clock: the id is greater than all observed ones if and only if each sorts below the digits of the target, or has these digits and a smaller rest |
| `MessageIds.GreaterThanLatestIff` | internal/adapter/opencode_serve.go:673-679 | for lower-case histories whose latest millisecond differs from the target's: the order is right if and only if the latest is below the target, modulo the epoch |
| `MessageIds.WrongOnlyAtEpochEnd` | internal/adapter/opencode_serve.go:673-676 | with no reservation at or ahead of the clock, for any history in either case of digits, the order is right if and only if the history does not hold the last millisecond of an epoch |
| `MessageIds.NoReservationAhead` | internal/adapter/opencode_serve.go:677-692 | over every run on a clock that never turns back no reservation is ever at or ahead of the clock when a call starts |
| `MessageIds.RunsWrongOnlyAtEpochEnd` | internal/adapter/opencode_serve.go:647-707 | over every such run each reserved id is greater than its history if and only if the history does not hold the last millisecond of an epoch |
| `MessageIds.EpochEdge` | internal/adapter/opencode_serve.go:673-676 | a concrete history at the end of an epoch for which the reserved id sorts before an observed one |
| `MessageIds.TimesRise` | internal/adapter/opencode_serve.go:677-679 | reserved times rise strictly over every run of calls, whatever the clock does |
| `MessageIds.IdsRise` | internal/adapter/opencode_serve.go:677-707 | of two reservations less than an epoch apart the later id is greater exactly if both lie in one epoch |
| `MessageIds.Allocator.Latest` | internal/adapter/opencode_serve.go:655-672 | the loop over the history computes the specified scan, with early return on the first fault |
| `MessageIds.Allocator.ReserveMessageId` | internal/adapter/opencode_serve.go:647-707 | one call as an update of the last reserved millisecond |
| `MessageHistories.HistoryAcceptedIff` | internal/adapter/opencode_serve.go:655-672 | told from the messages: a history is refused exactly if some id that is not blank is not spelled msg_, twelve hexadecimal digits and fourteen more characters, or was created in an earlier epoch with a millisecond past the clock's; and which of the two faults is reported |
| `MessageHistories.OrdinaryHistoryIsAccepted` | internal/adapter/opencode_serve.go:655-672 | a well-spelled history whose known creation times lie in the clock's epoch or later is accepted |
| `MessageHistories.LatestIsGreatest` | internal/adapter/opencode_serve.go:665-671 | the scan finds the greatest millisecond of the history |
| `MessageHistories.TargetIsLeast` | internal/adapter/opencode_serve.go:673-682 | the target is the least time past the last reservation and not before the observed one |
| `MessageHistories.ReserveSucceedsIff` | internal/adapter/opencode_serve.go:647-707 | told from the messages, the clock and the last reservation: exactly when a call hands out an id |
| `MessageHistories.SpelledHasMillis` | internal/adapter/opencode_serve.go:709-720 | the ids that can be decoded, by their spelling |
| `PlanCorrectness.Complete` | internal/adapter/codex_plan.go:300-501 | wherever a well-formed literal is spelled out, the parser reads its meaning and stops right behind it |
| `PlanCorrectness.Sound` | internal/adapter/codex_plan.go:300-501 | whatever the parser accepts is the spelling of a well-formed literal, with that literal's meaning |
| `PlanCorrectness.Local` | internal/adapter/codex_plan.go:300-501 | a parse depends only on the characters it consumed |
| `PlanCorrectness.AcceptedIsSpelled` | internal/adapter/codex_plan.go:300-501 | a whole text is accepted with a value if and only if it is a spelling of that value followed by blanks |
| `PlanCorrectness.SurrogatesJoin` | internal/adapter/codex_plan.go:462-483 | behind a backslash and a u the parser reads a supplementary code point if and only if its surrogate pair (section 2.2 of RFC 2781) is written there |
| `PlanPrinting.RoundTrip` | internal/adapter/codex_plan.go:300-501 | any tree of objects, arrays and strings with distinct keys, printed as a literal, parses back to itself |
| `PlanScanner.InsideMatch` | internal/adapter/codex_plan.go:197-232 | no call can start inside a matched target |
| `PlanScanner.WordMeans` | internal/adapter/codex_plan.go:222-226 | a call is the text tools.update_plan with no identifier character on either side |
| `PlanScanner.SkipQuoted` | internal/adapter/codex_plan.go:234-246 | skipping a quoted string ends where the character-by-character lexer leaves the quoted state, also if it is unterminated |
| `PlanScanner.SkipLine` | internal/adapter/codex_plan.go:204-208 | skipping a line comment ends where the lexer leaves it |
| `PlanScanner.SkipBlock` | internal/adapter/codex_plan.go:209-215 | skipping a block comment ends where the lexer leaves it, also if it is unterminated |
| `PlanScanner.FindCalls` | internal/adapter/codex_plan.go:197-232 | the skipping scanner returns exactly the word-bounded target positions the lexer reports as code |
| `PlanParser.Parser.SkipBlanks` | internal/adapter/codex_plan.go:497-501 | the position moves to the first character that is no blank |
| `PlanParser.Parser.ParseHexRune` | internal/adapter/codex_plan.go:485-495 | four hexadecimal digits as a code unit, or the error |
| `PlanParser.Parser.ParseUnicodeEscape` | internal/adapter/codex_plan.go:462-483 | a code unit or a surrogate pair, or the error |
| `PlanParser.Parser.ParseEscape` | internal/adapter/codex_plan.go:431-457 | one escape sequence (section 7 of RFC 8259, and an escaped single quote) |
| `PlanParser.Parser.ParseString` | internal/adapter/codex_plan.go:417-460 | a quoted string, built piece by piece |
| `PlanParser.Parser.ParseKey` | internal/adapter/codex_plan.go:399-415 | a bare or quoted key |
| `PlanParser.Parser.ParseValue` | internal/adapter/codex_plan.go:300-315 | a value, leaving the position behind it |
| `PlanParser.Parser.ParseObject` | internal/adapter/codex_plan.go:317-362 | an object with distinct keys, trailing comma allowed |
| `PlanParser.Parser.ParseMember` | internal/adapter/codex_plan.go:321-340 | a member, refusing a repeated key |
| `PlanParser.Parser.ParseField` | internal/adapter/codex_plan.go:341-360 | a member's value and what may follow it |
| `PlanParser.Parser.ParseArray` | internal/adapter/codex_plan.go:364-397 | an array, trailing comma allowed |
| `PlanParser.Parser.ParseElement` | internal/adapter/codex_plan.go:368-395 | an element and what may follow it |
| `PlanParser.Extract` | internal/adapter/codex_plan.go:169-193 | the argument of the one call is cut out, or the error says why not |
| `PlanParser.ExtractedParsesAgain` | internal/adapter/codex_plan.go:123-193 | the text cut out parses again to the same value, consuming all of it |
| `PlanParser.ExtractMeans` | internal/adapter/codex_plan.go:169-193 | told from the lexer and the grammar: a literal is cut out exactly if there is one call, blanks and a parenthesis behind it, the spelling of a well-formed literal, blanks and a closing parenthesis; and when each of the errors is the answer |
| `PlanParser.ShapeIsExtracted` | internal/adapter/codex_plan.go:169-193 | every such text is cut out |
| `PlanCharacters.EscapeTable` | internal/adapter/codex_plan.go:431-457 | the escapes of section 7 of RFC 8259 and an escaped single quote stand for their characters, and no others are accepted |
| `PlanCharacters.Utf8Decodes` | internal/adapter/codex_plan.go:462-483 | the bytes written for a code point decode to it by the table of section 3 of RFC 3629 |
| `PlanCharacters.ClassTable` | internal/adapter/codex_plan.go:497-509 | which characters are blanks, digits, or may stand in a bare key |
| `PlanCharacters.Hex4Writes` | internal/adapter/codex_plan.go:485-495 | four hexadecimal digits read as the number they write |
| `CodexPlans.ChainLaw` | internal/adapter/codex_plan.go:43-72 | over any run the identities of newly seen calls form a chain with strictly rising revisions |
| `CodexPlans.RepeatedCall` | internal/adapter/codex_plan.go:46-48 | a call gets its old identity back exactly if it is one of the last 256 new calls; otherwise it extends the chain |
| `CodexPlans.MemoryBounded` | internal/adapter/codex_plan.go:61-68 | the memory holds at most 256 distinct calls, those of the identity table |
| `CodexPlans.RevisionIsLeast` | internal/adapter/codex_plan.go:49-52 | a new call gets the least revision past its predecessor's and not below the floor |
| `CodexPlans.PlanTracker.ProjectCall` | internal/adapter/codex_plan.go:43-72 | one projection as an update of the object |
| `ClaudeTaskRuns.CallRefinesBoard` | internal/adapter/claude_tasks.go:113-184 | applying an acknowledged call keeps tasks and order in step and does to the list of tasks exactly what the call says |
| `ClaudeTaskRuns.ResultRefinesBoard` | internal/adapter/claude_tasks.go:88-203 | in every reachable state a new result changes the board as its call says and emits exactly that board, or does nothing |
| `ClaudeTaskRuns.TasksInStep` | internal/adapter/claude_tasks.go:72-203 | over every run the order is duplicate-free and is the keys of the tasks, at most 100, all steps valid; at most 512 calls pending, 1024 results remembered |
| `ClaudeTaskRuns.PlansChain` | internal/adapter/claude_tasks.go:185-202 | the plans of a run form one chain with strictly rising revisions |
| `ClaudeTaskRuns.LatestPlanIsCurrent` | internal/adapter/claude_tasks.go:185-200 | the latest plan is the whole current board |
| `ClaudeTaskRuns.AppliedOnce` | internal/adapter/claude_tasks.go:89-106 | two plans for one tool call are more than 1024 acknowledged results apart |
| `ClaudeTaskRuns.RememberedIsIgnored` | internal/adapter/claude_tasks.go:89-92 | a remembered result changes no task and emits nothing |
| `ClaudeTaskRuns.ObserveConsumes` | internal/adapter/claude_tasks.go:31-204 | a run is the fold of consuming one record after another |
| `ClaudeTaskRuns.CallThenResult` | internal/adapter/claude_tasks.go:72-203 | over every run, the good result of an earlier call that is still kept emits the board as that call leaves it, item by item |
| `ClaudeTaskRuns.CallIsKeptIff` | internal/adapter/claude_tasks.go:72-87 | a call is kept exactly if an assistant makes it under an id with one of the task tools while fewer than 512 are unanswered |
| `ClaudeTaskRuns.AnsweredIsUsedUp` | internal/adapter/claude_tasks.go:88-106 | over every run, a second result for a call changes no task and emits nothing, however late it comes, unless the call is made again |
| `ClaudeTasks.TaskState.ConsumeRecord` | internal/adapter/claude_tasks.go:51-204 | the loop over a record's blocks as an update of the object |
| `ClaudeTasks.TaskState.ConsumeOne` | internal/adapter/claude_tasks.go:72-202 | one block: remember a call, ignore a replay, or acknowledge, apply and emit |
| `ClaudeTasks.TaskState.Acknowledge` | internal/adapter/claude_tasks.go:97-106 | a result leaves the pending calls and enters the bounded memory |
| `ClaudeTasks.TaskState.ApplyCall` | internal/adapter/claude_tasks.go:113-184 | the three tools, with the inputs they refuse |
| `ClaudeTasks.TaskState.ReplaceTodos` | internal/adapter/claude_tasks.go:124-140 | the whole list is replaced, or nothing if one step is invalid |
| `ClaudeTasks.TaskState.UpdateTask` | internal/adapter/claude_tasks.go:159-183 | an existing task is updated in place or deleted; an unknown one is never invented |
| `ClaudeTasks.TaskState.BuildPlan` | internal/adapter/claude_tasks.go:185-190 | the plan lists the tasks in order |
| `NativeParents.WalkEnds` | internal/adapter/memory_provenance.go:93-106 | the walk ends at the nearest public or unknown ancestor, reporting any doubtful record on the way, or at the first repeated record, reporting doubt |
| `NativeParents.CircleNeverEnds` | internal/adapter/memory_provenance.go:98-102 | a repeated record means that every ancestor is hidden, however far one goes |
| `NativeParents.NearestIsFound` | internal/adapter/memory_provenance.go:93-106 | without a circle the recorded parent is the nearest public or unknown ancestor |
| `NativeParents.CircleIsUnsure` | internal/adapter/memory_provenance.go:98-102 | the hidden chain never ends if and only if it runs in a circle, and then the parentage is unsure |
| `NativeParents.LinksTellTheTruth` | internal/adapter/memory_provenance.go:55-107 | over any run at most 4096 links are kept and each is that of the latest record with its id |
| `NativeParents.StampedParent` | internal/adapter/memory_provenance.go:55-116 | every public event is stamped with the nearest ancestor, and as unsure exactly if the record delegates, the way passes a non-neutral or sidechain record, or there is a circle |
| `NativeParents.StampedFromRecords` | internal/adapter/memory_provenance.go:51-116 | told from the records of a turn with fewer than 4096 ids: the parent is the first record up the way that was shown or is not of this turn, sure exactly if the record delegates to no child and every record on the way can be vouched for |
| `NativeParents.StampedIff` | internal/adapter/memory_provenance.go:51-116 | exactly the public events of identified records in a turn that are no meta records are stamped |
| `NativeParents.TurnIsKnown` | internal/adapter/memory_provenance.go:55-107 | after a turn's records, unless 4096 ids were there before the last came, exactly those records are known and nothing of earlier turns |
| `NativeParents.OverflowForgets` | internal/adapter/memory_provenance.go:59-61 | with 4096 records known the next one that counts is all that is known |
| `NativeParents.LinkTable` | internal/adapter/memory_provenance.go:62-108 | which records were shown, which can be vouched for and which delegate |
| `NativeParents.ParentTracker.WalkUp` | internal/adapter/memory_provenance.go:93-106 | the capped walk equals the uncapped one: it never stops by its cap |
| `NativeParents.ParentTracker.StampRecord` | internal/adapter/memory_provenance.go:51-116 | one record as an update of the object, with the resets of the link table |
| `LeaseRegistry.PruneMeaning` | internal/agentcontrol/lease.go:197-226 | whatever order the leases are checked in, survivors are refreshed and the rest removed and queued, each once |
| `LeaseRegistry.PrunedLeasesConserved` | internal/agentcontrol/lease.go:93-226 | over any run the leases removed by liveness checks are, as a multiset, those drained and those still queued |
| `LeaseRegistry.IdentifiedTogether` | internal/agentcontrol/lease.go:63-91 | start time and birth token that are identified together belong to one process, however the process table changed between the readings |
| `LeaseRegistry.SecondLookMatters` | internal/agentcontrol/lease.go:79-89 | without the second look at the token two processes could be mixed, and the second look refuses that |
| `LeaseRegistry.ReturnedLeasesMatched` | internal/agentcontrol/lease.go:158-226 | after any run and for any evolution of the process table, each lease the next Active or Snapshot returns had its recorded birth during that call, and each lease it drops failed the check and is queued |
| `LeaseRegistry.SurvivorMatched` | internal/agentcontrol/lease.go:158-226 | a lease left by a check carries the birth token its process id had during that check |
| `LeaseRegistry.SurvivorMatchedLegacy` | internal/agentcontrol/lease.go:208-216 | without native tokens a surviving lease had the recorded start time during the check |
| `LeaseRegistry.ReusedPidRemoved` | internal/agentcontrol/lease.go:200-221 | a lease whose process id was never seen with its token is removed and queued |
| `LeaseLiveness.CheckKeepsIff` | internal/agentcontrol/lease.go:197-226 | a check keeps exactly the leases whose token was read, or, without a token, whose start time was read between two readings of one token; the others are queued as they were |
| `LeaseLiveness.SteadySurvives` | internal/agentcontrol/lease.go:197-226 | the lease of a process that stays in the process table and can be read survives a check, with its token filled in |
| `LeaseLiveness.GoneIsRemoved` | internal/agentcontrol/lease.go:197-226 | a lease that records no process its id had during the check is removed and queued |
| `LeaseLiveness.SteadyRegisters` | internal/agentcontrol/lease.go:93-112 | such a process can be registered, and the lease records it |
| `LeaseLiveness.SteadyLeaseStays` | internal/agentcontrol/lease.go:93-226 | over every continuation of every run, such a lease stays registered with its process, session and generation until a step about itself |
| `LeaseLiveness.RegisteredIff` | internal/agentcontrol/lease.go:93-112 | when a registration is accepted, and what is then recorded |
| `LeaseLiveness.BoundIff` | internal/agentcontrol/lease.go:114-131 | when a rebinding is accepted, and what it changes |
| `LeaseLiveness.AdoptedMeans` | internal/agentcontrol/lease.go:186-193 | which leases of a snapshot are taken over, and under which id |
| `LeaseRegistry.SortById` | internal/agentcontrol/lease.go:168-168 | the listing is strictly ascending by id and has the same leases |
| `LeaseRegistry.LeaseTable.RegisterLease` | internal/agentcontrol/lease.go:93-112 | registration with the identified birth, or refusal |
| `LeaseRegistry.LeaseTable.BindLease` | internal/agentcontrol/lease.go:114-131 | rebinding a known lease to an identified process, or refusal |
| `LeaseRegistry.LeaseTable.ReleaseLease` | internal/agentcontrol/lease.go:133-137 | a release removes the lease without queueing it |
| `LeaseRegistry.LeaseTable.DrainPruned` | internal/agentcontrol/lease.go:142-148 | a drain returns the queue and empties it |
| `LeaseRegistry.LeaseTable.PruneLocked` | internal/agentcontrol/lease.go:197-226 | the check loop, and whether it changed anything |
| `LeaseRegistry.LeaseTable.Active` | internal/agentcontrol/lease.go:158-170 | after a check, exactly the leases of the generation, sorted by id |
| `LeaseRegistry.LeaseTable.Snapshot` | internal/agentcontrol/lease.go:172-181 | after a check, exactly the leases |
| `LeaseRegistry.LeaseTable.Adopt` | internal/agentcontrol/lease.go:186-193 | the restore loop takes over exactly the acceptable leases of a snapshot |
| `LeaseRegistry.LeaseTable.Restore` | internal/agentcontrol/lease.go:183-195 | taking over a snapshot, then checking all leases |
| `RpcClient.StepKeepsInv` | internal/codexapp/client.go:62-222 | callers, read loop and failure in any order keep at most one claim on each call's channel |
| `RpcClient.SendNeverBlocks` | internal/codexapp/client.go:195-221 | each channel is given at most one message over the whole run, so every send finds its slot free |
| `RpcClient.ReplyReachesItsCall` | internal/codexapp/client.go:195-201 | a returned reply is the reply to the call's own id |
| `RpcClient.ReturnedIsForgotten` | internal/codexapp/client.go:62-94 | once a call has returned its id is not pending, however it ended |
| `RpcClient.NobodyWaitsInVain` | internal/codexapp/client.go:79-93 | a waiting call with an empty channel is registered, being answered or being failed |
| `RpcClient.FailureFreesCalls` | internal/codexapp/client.go:79-93 | once the end of the connection is noticed every waiting call can return, with a message or as closed, whatever anybody else does |
| `RpcClient.ReplyIsNotLost` | internal/codexapp/client.go:72-93 | a message in the channel of a written call is never reported as a closed connection |
| `RpcClient.ClosedOnlyBeforeWriting` | internal/codexapp/client.go:68-93 | a call that holds a message can be told the connection is closed if and only if its request has not been written |
| `RpcClient.UnaskedReplyIsLost` | internal/codexapp/client.go:65-71 | a concrete run in which a reply that comes before the request is written is reported as a closed connection |
| `RpcClient.KeysDiffer` | internal/codexapp/id.go:41-52 | ids of different kinds or values never share a key |
| `RpcOutcomes.OutcomeIsCaused` | internal/codexapp/client.go:62-222 | over every run, what a call returned has its cause: its reply was read as it is for its own id, an error is that of the first failure, a failed write and a cancellation are its own |
| `RpcOutcomes.ReplyServesCall` | internal/codexapp/client.go:79-93 | a reply read for a waiting call can be returned as it is, and touches no other call |
| `RpcOutcomes.StrayReplyIsDropped` | internal/codexapp/client.go:195-201 | a reply under an id no registered call has changes nothing |
| `RpcOutcomes.CallIsRegistered` | internal/codexapp/client.go:62-71 | on a connection that has not failed a written call waits registered under its own number, or is being answered |
| `RpcClient.Client.NewCall` | internal/codexapp/client.go:63-64 | the machine's begin step: the new id is not registered and its channel is empty |
| `RpcClient.Client.Register` | internal/codexapp/client.go:65-67 | the machine's enter step: afterwards exactly this call is registered in addition, none is displaced |
| `RpcClient.Client.RemovePending` | internal/codexapp/client.go:205-209 | the machine's remove step: afterwards exactly this call is registered no more |
| `RpcClient.Client.TakePending` | internal/codexapp/client.go:195-198 | the machine's take step: the call taken is the registered one with exactly this id and its channel is free; if none is taken no registered call has this id |
| `RpcClient.Client.SendReply` | internal/codexapp/client.go:199-201 | the machine's send step: the slot was free and now holds the reply |
| `RpcClient.Client.FinishFailing` | internal/codexapp/client.go:217-220 | each call to be failed gets the error in a free slot, nobody else gets anything, and the done signal comes last |
| `RpcClient.Client.FailAll` | internal/codexapp/client.go:211-222 | a run of the machine's failure steps: the first failure empties the table and gives every registered call the error, later ones change nothing |
| `RpcClient.Client.WriteRequest` | internal/codexapp/client.go:136-153 | a write is refused once the connection is done; a failed write fails all calls first |
| `RpcClient.Client.Await` | internal/codexapp/client.go:72-93 | the two selects end with the message, closed or cancelled, against any behaviour of the others |
| `RpcClient.Client.CallServer` | internal/codexapp/client.go:62-94 | a whole call returns, its id is then not registered, and a reply it returns is the reply to it, against any behaviour of the others |
| `Common.TrimMeans` | internal/adapter/codex_turn.go:20-24 | trimming removes the white space at both ends, all of it and nothing else |
| `Turns.BracketedMeaning` | internal/adapter/claude_turn.go:56-89 | a stamped event or terminal status that fits its stream follows the running status of its turn with no other status between |
| `ClaudeTurns.StreamIsBracketed` | internal/adapter/claude_jsonl.go:400-508 | over any sequence of lines status events alternate running and terminal of the same turn and stamped content lies inside its turn |
| `ClaudeTurns.InsideItsTurn` | internal/adapter/claude_turn.go:56-89 | each stamped event and terminal status of any stream follows the running status of its turn with no other status between |
| `ClaudeTurns.EvidenceIsRemembered` | internal/adapter/claude_jsonl.go:424-458 | over any lines the parser remembers an end of turn exactly if the last assistant message ended it and no turn was begun, interrupted, completed or given a result since |
| `ClaudeTurns.DurationCompletesIff` | internal/adapter/claude_jsonl.go:449-461 | a turn-duration record emits a status if and only if a turn is open and there is such evidence, and then it completes the open turn |
| `ClaudeTurns.CompletionHasEvidence` | internal/adapter/claude_jsonl.go:449-478 | every completion in any stream stems from a result or from a turn-duration record with evidence, and completes the turn that was open |
| `ClaudeTurns.TurnsOpenAndClose` | internal/adapter/claude_jsonl.go:400-508 | over any lines a turn opens exactly at an identified user record with none open, closes exactly at an interruption, a result or a turn-duration record with evidence, and otherwise stays |
| `ClaudeTurns.StreamAdds` | internal/adapter/claude_jsonl.go:400-509 | over any lines each adds exactly its status, its session's content unstamped and its own content and plans with the stamp of the open turn, in this order |
| `ClaudeTurns.StreamParser.BeginTurn` | internal/adapter/claude_turn.go:56-63 | a turn starts on an anchored user record when none is open |
| `ClaudeTurns.StreamParser.EndTurn` | internal/adapter/claude_turn.go:68-75 | ending closes the open turn and no other |
| `ClaudeTurns.StreamParser.StampTurns` | internal/adapter/claude_jsonl.go:505-509 | the loop stamps every content event with the open turn |
| `ClaudeTurns.StreamParser.ParseRecord` | internal/adapter/claude_jsonl.go:422-497 | one record by its type |
| `ClaudeTurns.StreamParser.ParseLine` | internal/adapter/claude_jsonl.go:400-497 | one line: its events, then the plans stamped with the turn open by then |
| `CodexTurns.StreamIsBracketed` | internal/adapter/codex_turn.go:44-132 | over any sequence of records the stream is bracketed, except that a failed turn's own error directly follows its terminal status |
| `CodexTurns.InsideItsTurn` | internal/adapter/codex_turn.go:44-132 | each stamped event and terminal status of any stream follows the running status of its turn; only a failed turn's terminal status may stand between, right before its error |
| `CodexTurns.FailureReportsError` | internal/adapter/codex_turn.go:113-126 | in every stream each failed terminal status is directly followed by that turn's stamped error |
| `CodexTurns.OnlyMirrorsAreDropped` | internal/adapter/codex.go:377-414 | events are dropped only for a record that repeats the message of the last decoded record; only content is dropped and the tracker is unaffected |
| `CodexTurns.DroppedOnce` | internal/adapter/codex.go:404-414 | the record after a dropped one is kept |
| `CodexTurns.TurnsOpenAndClose` | internal/adapter/codex_turn.go:44-132 | over any records a turn opens exactly at a named start in a named session with none open, closes exactly at a completion that names it or none, and otherwise stays |
| `CodexTurns.StreamAdds` | internal/adapter/codex_turn.go:74-132 | over any records each adds exactly its status and its own content with the stamp of the open turn, in order |
| `CodexTurns.DroppedIffMirrored` | internal/adapter/codex.go:377-414 | an assistant message is dropped if and only if the last decoded record is an agent message with the same text, and otherwise is sent with the stamp of the open turn |
| `CodexTurns.JoinedIsLines` | internal/adapter/codex.go:395-403 | a message's text is its texts that are not empty, one to a line |
| `CodexTurns.CitationIsCut` | internal/adapter/codex.go:428-442 | a citation is cut out from the first opening mark through the first closing mark behind it |
| `CodexTurns.UncitedIsTrimmed` | internal/adapter/codex.go:428-442 | a text without a citation loses its surrounding white space only |
| `CodexTurns.RolloutParser.SetSessionId` | internal/adapter/codex_turn.go:20-24 | a blank session id is ignored |
| `CodexTurns.RolloutParser.BeginTurn` | internal/adapter/codex_turn.go:44-54 | a turn starts only with a session and a native id, when none is open |
| `CodexTurns.RolloutParser.EndTurn` | internal/adapter/codex_turn.go:56-72 | a completion without an id closes the open turn, one with another id is stale |
| `CodexTurns.RolloutParser.StampTurns` | internal/adapter/codex_turn.go:74-94 | the loop stamps everything but session status |
| `CodexTurns.RolloutParser.Decorate` | internal/adapter/codex_turn.go:99-132 | one record by its type |
| `CodexTurns.RolloutParser.JoinTexts` | internal/adapter/codex.go:395-403 | the non-empty texts, one to a line |
| `CodexTurns.RolloutParser.Normalize` | internal/adapter/codex.go:428-442 | the message without its citations and surrounding white space |
| `CodexTurns.RolloutParser.ParseRecord` | internal/adapter/codex.go:377-414 | one record, with the suppression of its mirror |
| `HotRestart.StepKeepsInv` | cmd/pocketctl/main.go:2335-2392 | every step of either daemon, of the stop intent and of the clock keeps lock ownership and the recorded evidence consistent |
| `HotRestart.ExitIsJustified` | cmd/pocketctl/main.go:2335-2392 | the old daemon exits only after the heartbeat advanced, then a challenge was made, then answered, then the replacement was seen alive, then no stop was active |
| `HotRestart.OtherwiseKept` | cmd/pocketctl/main.go:2335-2392 | in every other run the old daemon has not exited and holds the lock |
| `HotRestart.NeverTwoDaemons` | cmd/pocketctl/main.go:4589-4659 | a replacement serves only after the old daemon has exited |
| `HotRestart.FailedRestartIsClean` | cmd/pocketctl/main.go:2349-2385 | a failed attempt leaves the old daemon in place for good, no replacement alive and the preparations cancelled |
| `HotRestart.FinalizationDecides` | cmd/pocketctl/main.go:4687-4693 | a claim becomes service if no stop is active at the finalization, and otherwise the lock is free again |
| `HotRestart.StopAfterClaimGivesUp` | cmd/pocketctl/main.go:4687-4693 | a replacement that finds a stop active after its claim never serves as long as the stop stays, whatever anybody does, and gives the lock up |
| `HotRestart.StopKeepsOldDaemon` | cmd/pocketctl/main.go:2336-2385 | a stop that is active before the old daemon's last look, and stays, keeps the old daemon and its lock over every continuation, and no replacement serves |
| `HotRestartProgress.HandoverCanFinish` | cmd/pocketctl/main.go:2335-2392 | from every state of every run in which neither side has given up and no stop is asked for, the two programs can bring the handover to its end: the old daemon exited, the replacement serving |
| `HotRestartProgress.StopIsHeard` | cmd/pocketctl/main.go:2336-2385 | over every run, a stop asked for before the old daemon's last look and not withdrawn keeps the old daemon with its lock |
| `HotRestartProgress.PreparedIsCancelled` | cmd/pocketctl/main.go:2349-2385 | over every run, a daemon that prepared a restart and stays has cancelled the preparations |
| `HotRestartProgress.LeavesNoFiles` | cmd/pocketctl/main.go:4589-4619 | the replacement starts without files and leaves none when it gives up, claims the lock or is terminated |
| `HotRestartProgress.FailureCanFinish` | cmd/pocketctl/main.go:2375-2385 | a failing attempt ends with the replacement terminated, the files gone and the old daemon holding the lock |
| `HotRestartProgress.DeathFreesLock` | cmd/pocketctl/main.go:4589-4619 | a replacement that dies holds the lock no longer and leaves the old daemon as it was |
| `HotRestart.Handover.WaitForReady` | cmd/pocketctl/main.go:4621-4659 | the two polling loops end ready or failing, with others acting before every step; ready means the answer is on record behind the challenge and that behind the advance |
| `HotRestart.Handover.HotRestart` | cmd/pocketctl/main.go:2335-2392 | the whole attempt, with others acting before every step, ends in an exit with its evidence on record, or with the old daemon kept and no replacement alive |
| `HotRestart.Handover.WaitForOwnership` | cmd/pocketctl/main.go:4589-4619 | the waiting loop, with others acting before every step, ends serving, ended or killed, and serves only alone |
| `HotRestart.Handover.Round` | cmd/pocketctl/main.go:4604-4617 | a round that comes to its end with writable files has answered the challenge it saw and beaten; one that claimed the lock did so after the old daemon's exit |

## Left out

- JSON decoding and encoding: records, snapshots and tool inputs are decoded datatypes; where decoding can fail the datatype says so.
- SHA-256 and the ids built from it: a hash is represented by what it hashes, so equal hashes mean equal contents; logical turn ids, fingerprints and markers are of this kind.
- UUIDs, random suffixes and challenges: arbitrary or fresh values.
- Sockets, deadlines, HTTP, WebSocket framing, process control and file contents: only their effects, as steps (cancel, disconnect, timeout, reply, death).
- Integer width: times, revisions and counters are unbounded; 64-bit overflow is not modelled.
- File locks of the approval broker: the result of taking one is discarded in the source, so nothing about exclusion is decided there.
- Fallback ids for OpenCode records without native ids: snapshots carry native ids; silence on a repeated snapshot is stated for unique ones.
- Case folding of OpenCode and Codex roles: a role is a datatype value.
- The payloads of OpenCode parts that are not text: a part is represented by its canonical content and the events it converts to; the projection of error messages and the memory stamps are not modelled.
- validateCodexPlanObject: the shape of a parsed plan (item counts, lengths, statuses) is not checked, and Codex plan events carry no payload.
- Characters of plan literals stand for bytes; the text is not checked to be UTF-8.
- The wire form of events: session ids, models, usage and cost, streaming flags of non-text events and the actor scope of turn events are not carried.
- The skill marker of native parents: computed from the record alone.
- Telemetry, logging, installers, command-line dispatch and the remote API clients: no state worth an invariant.
- The provider behind the acquire broker, the session manager and the turn registry: called, but their behaviour is not part of this model.
- Repeated hot-restart attempts: one attempt is modelled; each attempt has files of its own.
- AcquireDedup.Server.Join: entries and calls live in a sequence indexed by id instead of on the heap behind pointers; the class shows the update of the tables, not aliasing of entries.
- Coalescing.CallTable.JoinToolCall: as above, calls live in a sequence indexed by id.
- RpcClient.Client.FailAll: a second failure that comes while the first is under way waits for it; the wait is the precondition that none is under way.
- RpcClient.Client.Await: a caller's patience ends with a list of pauses; when it ends while a reply is ready, the reply is taken, though the source may choose either. The machine has both.
- HotRestart.Handover.WaitForReady: a timeout is the end of the schedule of the other side; the polling intervals are not modelled.
