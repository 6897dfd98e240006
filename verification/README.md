# Proofs about dominion's stateful cores

This project models the parts of the repository whose behaviour spans many
steps, and proves what every run of them keeps. One module stands for one
component; the imperative components are classes and loops proved against a
specification on values, and the theorems are about that specification.

- **Team sessions** (`HistoryModel`, `HistoryContents`, `Team`,
  `CollectorModel`, `CollectorEvents`, `CollectorTurns`, `CollectorIndexes`,
  `CollectorPrefix`, `PrefixEntries`, `CollectorFates`, `Collectors`,
  `TeamStreams`, `TeamEntries`, `TeamRegistry`, `TeamRequests`): the merged
  history and its member views over shared message objects; a member's collector
  as a trace of items, and what its events call for; the active streams and the
  materialisation registry as state machines whose steps are the code between
  two awaits.
- **Memory and wiki tools** (`MemoryPlan`, `MemoryOps`, `MemorySingles`,
  `MemoryContents`, `MemoryTool`, `MemoryCalls`, `AppliedPositions`, `WikiPlan`,
  `WikiEntries`, `WikiTool`, `WikiWriting`, `ResourceNames`, `StoreSeam`):
  preflight on a working copy, commit without a transaction, and what a failure
  in between leaves behind.
- **Lifecycle and daemons** (`LifecycleModel`, `Lifecycles`, `DaemonModel`,
  `Daemons`, `DaemonStop`): ordered start, rollback, reverse stop, bounded
  restarts, in TypeScript and in Go.
- **Polling resolver** (`EndpointFilter`, `ResolverCache`), **configuration
  merge** (`MergeModel`, `ConfigMerge`, `GoConfigMerge`), **preset pages**
  (`KeysetPages`, `PresetPages`), **targets** (`DominionTarget`), over shared
  texts and orders (`Texts`, `Ordering`, `Wrappers`).

Abstractions: SHA-256 is a function `digest`, injective where a theorem needs
it; NFKC followed by lower-casing (Unicode Standard Annex #15) is a function
`norm`, idempotent where a theorem needs it; a minted UUID is the next number;
`net.SplitHostPort` and `net.JoinHostPort` are parameters. Time, writes that
throw, outages, lost replies, cancellations and what the orchestration reports
are choices of the environment. A character is a Unicode scalar value, so the
length of a text is its rune count, and texts are ordered by scalar value.

Where the properties one would expect are false, the project says exactly when
they hold, as an equivalence: the batch replay (`MemoryPlan.BatchReplays`), the
raced add (`MemoryTool.FalseReportIff`), the identity of a batch with its single
calls in the presence of duplicates (`MemorySingles.BatchMatchesSinglesIff`), the
backoff formula (`DaemonModel.BackoffFormula`) and its 64-bit arithmetic
(`DaemonModel.NeverOverflowsIff`), the step label of a block index
(`CollectorIndexes.SharedIndexSharesStepIff`), the agreement of the two
languages' merges (`MergeModel.SameTreeIff`) and the round trip of a target
through its URI (`DominionTarget.UriParsesAlike`). Streamed text is not always
shown when a turn ends in ERROR; `CollectorFates.FateOfAChunk` says for each
chunk what the history shows of its block, `CollectorFates.TextReachesEntryIff`
of its text, and `CollectorFates.ErrorTurnEntry` when there is an entry at all.

Where code and comments disagree, the model follows the code. The comment at
common/js/memory/src/operations.ts:80-85 says a create conflict can only be for
the same content; after a replace it can be for other content. The comment at
common/gopkg/bootstrap/bootstrap.go:157-160 speaks of one shutdown budget for
health and components; the code gives each its own deadline. The comment at
projects/game/agent_v2/src/history.ts:906-909 says a failed turn with a streamed
prefix gets an interrupted entry; it gets one only when a block of the prefix
has a display projection.

Verify everything with `dafny verify dfyconfig.toml`.

## Model

Paths are relative to the repository root.

| member | source | states |
|---|---|---|
| HistoryModel.FramesAreTheMerge | projects/game/agent_v2/src/history.ts:402-424 | in every run of history operations the team_message frames, in emission order, are the merged entries numbered 1, 2, 3, ... with distinct message ids, and an agent message of a view is the very message of a merged entry of that role |
| HistoryModel.DoConsistent | projects/game/agent_v2/src/history.ts:516-557 | every history operation keeps ids in creation order, sequence numbers dense, frames equal to the merge, user messages out of the merge entries of a view, and no message in two views |
| HistoryModel.SettleChangesTheLastRunningCall | projects/game/agent_v2/src/history.ts:486-504 | a settlement changes exactly the last running call of that tool under that role, in entry order then block order, or nothing when there is none |
| HistoryModel.SettledBlocksAreFinal | projects/game/agent_v2/src/history.ts:493-500 | over any continuation of a run a block that is not a running call never changes and a message id is never handed out again |
| HistoryContents.HistorySays | projects/game/agent_v2/src/history.ts:384-477 | in every run the merge and every view say, entry by entry, what the operations called for, settlements aside: a user message is one text entry of the given text, an announcement one of its role, an output the blocks of its content that show, flagged as given, and a user message of a member's log its texts from its sender, in that view only |
| HistoryContents.ViewUserFansOut | projects/game/agent_v2/src/history.ts:455-477 | a user message of a member's log that shows texts fans out one member_view frame of its view entry, from its sender |
| HistoryModel.LastRunning | projects/game/agent_v2/src/history.ts:493-501 | the block found by the backward scan is running, and nothing after it is |
| HistoryModel.LastEntry | projects/game/agent_v2/src/history.ts:487-502 | the entry found by the backward scan holds a running call of the role, and no later one does |
| Team.TeamHistory.AppendUser | projects/game/agent_v2/src/history.ts:384-387 | takes the AppendUser step of the projection; the entry returned is the merged one, with a fresh message object |
| Team.TeamHistory.AppendMemberOutput | projects/game/agent_v2/src/history.ts:402-424 | takes the AppendOutput step; nothing for empty display content; otherwise the merge and, unless viewless, the view hold the same message object |
| Team.TeamHistory.AppendAnnouncement | projects/game/agent_v2/src/history.ts:436-439 | takes the AppendAnnouncement step: merge only, no view |
| Team.TeamHistory.AppendMemberViewUser | projects/game/agent_v2/src/history.ts:455-477 | takes the AppendViewUser step: only user and team-broadcast sources with text, one view entry and one member_view frame |
| Team.TeamHistory.SettleToolResult | projects/game/agent_v2/src/history.ts:486-504 | takes the SettleResult step on the shared message objects, and answers true exactly when a running call was there |
| Team.TeamHistory.FindRunning | projects/game/agent_v2/src/history.ts:487-501 | the nested backward loops find the last running call in entry order, then block order |
| Team.TeamHistory.AppendMerge | projects/game/agent_v2/src/history.ts:546-557 | appends one entry under the next sequence number and emits one frame holding the same message object |
| Team.TeamHistory.NewMessage | projects/game/agent_v2/src/history.ts:527-543 | a fresh message object under the next id |
| Team.TeamHistory.PushView | projects/game/agent_v2/src/history.ts:517-524 | appends to the role's view, creating it on first write, and touches no other view |
| Team.TeamHistory.ListTeamMessages | projects/game/agent_v2/src/history.ts:507-509 | the merged entries |
| Team.TeamHistory.ListMemberMessages | projects/game/agent_v2/src/history.ts:512-514 | the role's view, empty for a role that never wrote |
| CollectorModel.MayStep | projects/game/agent_v2/src/history.ts:632-655 | for every state and event, what the event makes the collector do is allowed where it stands, so every event sequence has a legal trace |
| CollectorEvents.EventDoes | projects/game/agent_v2/src/history.ts:632-936 | every event, after any others, writes what its place in the event sequence calls for: turn_start when it opens a turn; one block frame of a chunk of a started attempt, with its text, block, provider index and declared step; for a tool result the settlement and the frame, FAILED if and only if it is an error, with its texts joined; the output and view calls of its messages; and nothing else |
| CollectorEvents.IdleEndsTheTurn | projects/game/agent_v2/src/history.ts:886-936 | an idle that finds a turn in flight ends it with the standing mark, otherwise ERROR with the first failure an agent error or an error turn end carried since the turn was opened, otherwise COMPLETED with the usage reported last |
| CollectorEvents.IdleIsTheEnd | projects/game/agent_v2/src/history.ts:891-904 | no turn is in flight after an idle |
| CollectorEvents.TurnAtIs | projects/game/agent_v2/src/history.ts:863-884 | the turn in flight was opened by the first event that latches after the last idle |
| CollectorEvents.FirstFailureIs | projects/game/agent_v2/src/history.ts:926-936 | the failure of a turn is the first one an event carries after the event that opened the turn |
| CollectorEvents.StandingMarkIs | projects/game/agent_v2/src/history.ts:670-672 | the standing mark is the last one, if no turn end came since |
| CollectorEvents.StateRecalled | projects/game/agent_v2/src/history.ts:598-606 | turn, mark, failure, usage, step, attempts and streamed prefix of the collector are those the events so far declare |
| CollectorTurns.TurnsAreBracketed | projects/game/agent_v2/src/history.ts:863-925 | in every trace no turn opens inside another, turn ids are fresh, and every block, tool_result and turn_end frame stands inside the turn it names |
| CollectorTurns.TurnEndOutcome | projects/game/agent_v2/src/history.ts:894-923 | a turn_end carries the latest unconsumed mark, otherwise ERROR with the first failure of that turn, otherwise COMPLETED |
| CollectorTurns.MarkConsumedOnce | projects/game/agent_v2/src/history.ts:670-672 | in every legal trace no mark survives a turn_end, and marks decide at most as many turn_ends as there were marks, one fewer while one still stands |
| CollectorIndexes.SharedIndex | projects/game/agent_v2/src/history.ts:790-798 | two block frames of a turn share an index exactly when they have the same provider index with no step-table reset between them |
| CollectorIndexes.DenseIndexes | projects/game/agent_v2/src/history.ts:847-856 | the block indexes of a turn are dense from 0 in order of first use |
| CollectorIndexes.SharedIndexSharesStepIff | projects/game/agent_v2/src/history.ts:759-798 | two block frames of a turn that share an index carry one step label if and only if the last starts of their attempts before each frame declared the same step: the labels are traced back to the starts; the condition on attempts that a host can arrange, that each frame comes from the attempt started last, is the sufficient one of IndexFixesStep |
| CollectorIndexes.IndexFixesStep | projects/game/agent_v2/src/history.ts:759-781 | when chunks come only from the attempt started last, an index also fixes the step label |
| CollectorIndexes.InterleavedAttemptsShareAnIndex | projects/game/agent_v2/src/history.ts:771-777 | the other case of that condition happens: two interleaved attempts can show one index under two step labels |
| CollectorPrefix.PendingIsDeclared | projects/game/agent_v2/src/history.ts:807-817 | for every chunk sequence the pending blocks are one per provider index, each the last block-end or the first delta's kind with the later texts concatenated, in order of birth |
| CollectorPrefix.PendingOfARun | projects/game/agent_v2/src/history.ts:790-844 | in every trace the pending prefix is that reading of the chunks since the last step change, assistant message or turn boundary |
| CollectorPrefix.PrefixTakenOnce | projects/game/agent_v2/src/history.ts:886-911 | the output call of a settlement has exactly the blocks of the chunks since the last clearing item, at least one and flagged interrupted, and no streamed chunk is taken by two output calls |
| CollectorFates.CallAddsIff | projects/game/agent_v2/src/history.ts:402-424 | an output call adds one merge entry, of exactly the blocks with a display projection, if and only if there is such a block; otherwise it leaves the projections as they were |
| PrefixEntries.EntryIsDeclared | projects/game/agent_v2/src/history.ts:402-417 | the blocks a prefix shows are, one per provider index and in order of birth, exactly those whose declared block has a display projection; it shows nothing if and only if there is none |
| PrefixEntries.TextMattersIff | projects/game/agent_v2/src/history.ts:807-817 | the blocks a prefix shows depend on the text of a delta if and only if no later block-end has its provider index and the block there is a text or reasoning block |
| CollectorFates.TextReachesEntryIff | projects/game/agent_v2/src/history.ts:807-911 | in a trace, what the prefix taken at a settlement shows depends on the text of a streamed delta if and only if no block-end of its provider index stands between them and the block there shows text |
| CollectorFates.FateOfAChunk | projects/game/agent_v2/src/history.ts:790-911 | every streamed chunk of a turn that ended, whatever the history holds: the entry of a settlement shows its block if and only if that block has a display projection, and the call adds no entry if none has; an assistant message supersedes it with an entry of its own or, when it shows nothing, with none; a step reset drops it; or a turn_end that is not an ERROR after a failure leaves it |
| CollectorFates.ErrorTurnEntry | projects/game/agent_v2/src/history.ts:886-911 | after any events, settling a failed turn adds the interrupted entry of the pending blocks that have a display projection if and only if there is one, and otherwise changes no projection |
| CollectorFates.UnshownBlockLeavesNoEntry | projects/game/agent_v2/src/history.ts:415-417 | it happens: a finished block of a kind without display leaves an ERROR turn without an entry |
| CollectorFates.EmptyMessageErases | projects/game/agent_v2/src/history.ts:689-706 | it happens: an assistant message that shows nothing loses the streamed text of an ERROR turn, without any step reset |
| CollectorFates.ResetDropsBeforeError | projects/game/agent_v2/src/history.ts:790-798 | it happens: a step reset before a failure loses the streamed text of a turn that ends in ERROR |
| CollectorPrefix.PrefixWriteEndsTheTurn | projects/game/agent_v2/src/history.ts:905-923 | the output call of a settlement is followed at once by the ERROR end of its turn |
| Collectors.MemberCollector.ApplyEvent | projects/game/agent_v2/src/history.ts:632-641 | an envelope of another member changes nothing; otherwise the state, the frames and the history writes are those of the items of this event, in order |
| Collectors.MemberCollector.OnSessionEvent | projects/game/agent_v2/src/history.ts:681-726 | dispatches the log channel: the state, the frames and the history writes are those of the items of this event, in order |
| Collectors.MemberCollector.OnTurnEnd | projects/game/agent_v2/src/history.ts:718-725 | only an error reason reports a failure; the state, the frames and the history writes are those of the items of this event, in order |
| Collectors.MemberCollector.OnLiveEvent | projects/game/agent_v2/src/history.ts:644-654 | dispatches the live channel: the state, the frames and the history writes are those of the items of this event, in order |
| Collectors.MemberCollector.OnAssistantStream | projects/game/agent_v2/src/history.ts:759-781 | a start without a step and a chunk without a binding do nothing; otherwise the state, the frames and the history writes are those of the items of this event, in order |
| Collectors.MemberCollector.OnUserMessage | projects/game/agent_v2/src/history.ts:682-688 | the state, the frames and the history writes are those of the items of this event, in order |
| Collectors.MemberCollector.OnAssistantMessage | projects/game/agent_v2/src/history.ts:689-706 | the state, the frames and the history writes are those of the items of this event, in order |
| Collectors.MemberCollector.OnToolResult | projects/game/agent_v2/src/history.ts:734-750 | the state, the frames and the history writes are those of the items of this event, in order |
| Collectors.MemberCollector.OnAttemptStart | projects/game/agent_v2/src/history.ts:763-769 | the state, the frames and the history writes are those of the items of this event, in order |
| Collectors.MemberCollector.EnterStep | projects/game/agent_v2/src/history.ts:790-798 | a changed step number drops the table and the prefix, the same one keeps both |
| Collectors.MemberCollector.OnAttemptEnd | projects/game/agent_v2/src/history.ts:779-780 | the state, the frames and the history writes are those of the items of this event, in order |
| Collectors.MemberCollector.OnChunk | projects/game/agent_v2/src/history.ts:800-833 | the state, the frames and the history writes are those of the items of this event, in order |
| Collectors.MemberCollector.TouchPending | projects/game/agent_v2/src/history.ts:807-817 | the pending array is updated as the fold of the prefix says |
| Collectors.MemberCollector.RemapIndex | projects/game/agent_v2/src/history.ts:847-856 | the assigned index of a provider index, or the next one, assigned on first sight |
| Collectors.MemberCollector.EnsureActive | projects/game/agent_v2/src/history.ts:863-884 | latches a fresh turn and its turn_start unless one is in flight |
| Collectors.MemberCollector.OnStatus | projects/game/agent_v2/src/history.ts:886-924 | the state, the frames and the history writes are those of the items of this event, in order |
| Collectors.MemberCollector.SettleTurn | projects/game/agent_v2/src/history.ts:894-923 | clears both slots, records a failed prefix and emits the turn_end of the settlement |
| Collectors.MemberCollector.RecordFailure | projects/game/agent_v2/src/history.ts:930-936 | the first failure of the turn in flight wins |
| Collectors.MemberCollector.MarkOutcome | projects/game/agent_v2/src/history.ts:670-672 | records the outcome for the next settlement |
| Collectors.MemberCollector.Dispose | projects/game/agent_v2/src/history.ts:675-679 | releases the turn state |
| TeamStreams.EveryRunIsSafe | projects/game/agent_v2/src/session.ts:344-367 | in every interleaving of send, detach, cancel, broadcast, watcher wake-ups and teardown a stream is ended or failed at most once and never called afterwards, and a non-empty active set has an armed watcher or a teardown in progress |
| TeamStreams.EachStepByStream | projects/game/agent_v2/src/session.ts:344-367 | for every step of every run, stream by stream, who is active after it and which calls it gets: an admitted send writes its queued frame, if any, then one frame to its stream and to every active one, its stream is active afterwards if and only if neither its submit nor its write threw, and the others stay if and only if their write did not throw |
| TeamStreams.WatchingAfter | projects/game/agent_v2/src/session.ts:944-968 | the watcher is armed by an admitted send whose submit did not throw and by a cancel, and stands down only when it finds quiescence |
| TeamStreams.SettlingClosesEveryStream | projects/game/agent_v2/src/session.ts:944-968 | the watcher's settlement and the end of a teardown leave no stream attached and close each one once, by its fail exactly when the orchestration failed and the stream has one, by its end otherwise |
| TeamStreams.LeavingIsExplained | projects/game/agent_v2/src/session.ts:625-639 | a stream leaves the active set only by its own detach, by a write of its own that throws, or closed by that very step |
| TeamStreams.BroadcastReachesTheActive | projects/game/agent_v2/src/session.ts:625-639 | a frame reaches every active stream once and no other, and drops exactly those whose write throws |
| TeamStreams.ClosedStreamIsUntouched | projects/game/agent_v2/src/session.ts:852-882 | a closed stream receives no further call from any step |
| TeamEntries.TeamEntry.Broadcast | projects/game/agent_v2/src/session.ts:625-639 | one frame to every active stream; a stream whose write throws is dropped and no other is affected |
| TeamEntries.TeamEntry.Attach | projects/game/agent_v2/src/session.ts:852-854 | adds exactly this stream to the active set |
| TeamEntries.TeamEntry.Detach | projects/game/agent_v2/src/session.ts:855-861 | removes exactly this stream |
| TeamEntries.TeamEntry.EndStreams | projects/game/agent_v2/src/session.ts:869-882 | every active stream is ended once and the set is empty, whatever throws |
| TeamEntries.TeamEntry.FailStreams | projects/game/agent_v2/src/session.ts:895-920 | every active stream is failed once, or ended once when it has no fail, and the set is empty, whatever throws |
| TeamEntries.TeamEntry.WatchQuiescence | projects/game/agent_v2/src/session.ts:944-947 | arms the watcher unless one is armed or the entry is disposed |
| TeamEntries.TeamEntry.Send | projects/game/agent_v2/src/session.ts:344-367 | takes the Send step: queued frame first, then attach, broadcast, submit, arm; a throwing submit detaches the stream again |
| TeamEntries.TeamEntry.Cancel | projects/game/agent_v2/src/session.ts:377-394 | takes the Cancel step |
| TeamEntries.TeamEntry.WatcherWakes | projects/game/agent_v2/src/session.ts:949-966 | takes the Wake step |
| TeamEntries.TeamEntry.BeginTeardown | projects/game/agent_v2/src/session.ts:825-831 | takes the first half of a teardown, up to its await |
| TeamEntries.TeamEntry.EndTeardown | projects/game/agent_v2/src/session.ts:832-849 | takes the second half: the streams end |
| TeamRegistry.RegisteredEntriesAreLive | projects/game/agent_v2/src/session.ts:613-745 | in every run a session has at most one registered entry, its own, fully built and undisposed |
| TeamRegistry.FailuresKeepOrClear | projects/game/agent_v2/src/session.ts:585-654 | a failed validation changes no team and no entry; a failed build or rollback leaves its session without one |
| TeamRegistry.TakenDown | projects/game/agent_v2/src/session.ts:614-618 | a refresh disposes of and unregisters the session's own generation, a shutdown every one, and no other step any |
| TeamRegistry.CreateTimeSurvives | projects/game/agent_v2/src/session.ts:619-622 | the create time survives every refresh until a shutdown or a failed build of that session |
| TeamRegistry.MemberReadIsOneGeneration | projects/game/agent_v2/src/session.ts:454-495 | a member read answers within three attempts, for the generation live at that moment, with preset, model and prompt of that one generation |
| TeamRegistry.EveryRunOk | projects/game/agent_v2/src/session.ts:532-746 | the registry invariant holds in every run of serialised materialisations, shutdowns and reads |
| TeamRequests.CallsServedInOrder | projects/game/agent_v2/src/session.ts:574-584 | per session the requests started are, in order, a prefix of those called, and those still queued are the rest |
| TeamRequests.TeamRunsLastBuild | projects/game/agent_v2/src/session.ts:586-745 | in every run a session's registered team is what its last registering build made of the request started last before that build: the routes of that request, the members of the projection, and the create time of the team it replaced or of its validation |
| TeamRequests.BuildRegistersIff | projects/game/agent_v2/src/session.ts:663-699 | a returned build registers if and only if the request started last has the route of every agent it projects |
| TeamRegistry.ReadBegins | projects/game/agent_v2/src/session.ts:436-469 | a member read answers an announce-only member at once, awaits the prompt of a live agent whose handle is there, and is NOT_FOUND otherwise |
| TeamRegistry.ReadGoesOn | projects/game/agent_v2/src/session.ts:470-495 | after the await a read of the still live generation answers with its preset, model and prompt or fails with it; any other samples anew and is NOT_FOUND after its third attempt |
| MemoryPlan.MatchBySubstring | common/js/memory/src/operations.ts:104-135 | an accepted locator names an entry that contains it, and every other entry that contains it has the same content |
| MemoryPlan.MatchIff | common/js/memory/src/operations.ts:104-135 | a locator is accepted if and only if it is not empty and the entries that contain it are at least one and all of one content |
| MemoryPlan.AcceptedIff | common/js/memory/src/operations.ts:328-400 | the preflight accepts an operation if and only if its action is known, its content (unless a remove) is not empty and within the limit, and its locator (unless an add) is accepted |
| MemoryPlan.AcceptedChange | common/js/memory/src/operations.ts:328-400 | an accepted add appends unknown content under its digest and otherwise does nothing; an accepted replace or remove hits an entry that contains its locator |
| MemoryPlan.ContentsStayAcceptable | common/js/memory/src/operations.ts:316-400 | an accepted batch leaves every content within what the tool accepts |
| MemoryOps.PreflightAccepts | common/js/memory/src/operations.ts:316-400 | told from the operations as received: a batch is accepted if and only if each operation is accepted where it stands, and then the working copy is what they leave; an add needs its trimmed content within the limit and appends it unless it is known, a replace needs that and a trimmed old_text that locates, and puts the content on the entry it addresses, a remove needs only the old_text |
| MemoryOps.AddressedIsFirstHit | common/js/memory/src/operations.ts:133-134 | with distinct ids the entry an accepted old_text addresses is the first that contains it |
| MemoryPlan.BatchReplays | common/js/memory/src/operations.ts:316-432 | replaying an accepted batch succeeds if and only if no add's digest is the id of a live entry with other content, and then the collection is the working copy; the writes address strictly increasing operations |
| MemoryPlan.DigestKeyedNeverCollides | common/js/memory/src/operations.ts:336-348 | a collection whose ids are digests never collides as long as nothing is replaced |
| MemoryPlan.ReplaceThenAddCollides | common/js/memory/src/operations.ts:365-378 | with any digest, replacing an entry and adding its old content back is accepted by the preflight and fails on the service |
| MemorySingles.SingleAcceptsLikeBatch | common/js/memory/src/operations.ts:194-269 | a single call accepts exactly what the batch form accepts, with the same effect |
| MemorySingles.ListingOrderIff | common/js/memory/src/operations.ts:104-135 | an accepted single call leaves the same collection for every order of its listing if and only if its locator has one hit or it replaces a content by itself |
| MemorySingles.BatchIsFoldOfSingles | common/js/memory/src/operations.ts:304-432 | an accepted batch without collisions whose operations all meet that condition on their working copies is the fold of its single calls, each listing the collection afresh in any order, all of them accepted |
| MemorySingles.BatchMatchesSinglesIff | common/js/memory/src/operations.ts:304-432 | an accepted batch without collisions and its single calls agree after every operation, for every order of every listing, if and only if every operation meets that condition |
| MemoryContents.SameContentsAsSingles | common/js/memory/src/operations.ts:104-135 | even with duplicate contents, when no add of the batch and none of the single calls meets a live entry under its digest id, both are accepted alike and leave the same multiset of contents |
| MemoryCalls.ApplyAdd | common/js/memory/src/operations.ts:194-225 | declined, the call changes nothing; served, it takes the single step on the collection it listed, adding the text under its digest or reporting a duplicate and changing nothing; an outage leaves one or the other |
| MemoryCalls.ApplyLocated | common/js/memory/src/operations.ts:231-269 | a single replace or remove does what the single step on its listing says, or nothing when declined; an outage leaves one or the other |
| MemoryTool.RunPreflight | common/js/memory/src/operations.ts:328-400 | the preflight loop computes the fold of the operations' plans, stopped at the first refusal |
| MemoryTool.Commit | common/js/memory/src/operations.ts:408-430 | a stopped commit leaves the replay of the writes before the failing one, or one more when only the reply was lost |
| MemoryTool.ApplyBatch | common/js/memory/src/operations.ts:304-432 | a refused batch writes nothing and names the first operation that is not accepted; an applied one leaves what its operations, all accepted, leave one after the other; an interrupted one leaves a prefix of the planned writes and a text that reads back as their positions; without an outage only a collision interrupts |
| MemoryTool.ReportedPositionsIncrease | common/js/memory/src/operations.ts:429 | the reported positions are strictly increasing positions of the batch |
| AppliedPositions.FormatAppliedPositions | common/js/memory/src/operations.ts:275-290 | the text reads back as exactly the positions given, in runs none of which could be joined to the next |
| MemoryTool.FalseReportIff | common/js/memory/src/operations.ts:208-224 | an add with other writers between its list and its create reports falsely if and only if the listed collection lacks the text while its digest id is live, and nobody erases that entry or rewrites one to the text before the create |
| MemoryTool.AddReportsTruthfully | common/js/memory/src/operations.ts:214-224 | in every collection the tool built, the report is true whatever the other writers do, unless a replace rewrote the entry owning the digest id since it was created |
| MemoryTool.RewrittenEntryFalsifies | common/js/memory/src/operations.ts:251 | the side condition is needed: left alone, a rewritten entry makes the report false |
| MemoryTool.MemoryService.Perform | common/js/memory/src/store.ts:139-152 | create fails on a live id, update and delete on a missing one; a failed call changes nothing unless only its reply was lost |
| ResourceNames.ParseMemoryName | common/js/memory/src/store.ts:63-80 | parsing inverts naming exactly when the id has no slash |
| ResourceNames.ParseWikiName | common/js/memory/src/store.ts:167-180 | parsing inverts naming exactly when the id has no slash |
| WikiPlan.AcceptedIff | common/js/memory/src/wiki-operations.ts:300-323 | an entry is accepted if and only if its title has 1 to 128 runes and its content shows something within 64 KiB |
| WikiPlan.WriteIsUpsertFold | common/js/memory/src/wiki-operations.ts:294-379 | committing a plan succeeds if and only if the ids of its creates are unused, and then it is the fold of upserts by normalised title, with titles still unique |
| WikiPlan.PrefixIsUpsertFold | common/js/memory/src/wiki-operations.ts:348-373 | a commit that stops after k writes leaves the upserts of the first k entries, with titles unique |
| WikiPlan.LastContentWins | common/js/memory/src/wiki-operations.ts:324-341 | per normalised title the last content wins, an entry keeps the title it has or was created with, and titles not written keep their entry |
| WikiPlan.NewTitlesAreCreatedOnce | common/js/memory/src/wiki-operations.ts:325-341 | a new normalised title is created exactly once, a known or unmentioned one never |
| WikiTool.SearchAll | common/js/memory/src/wiki-operations.ts:124-147 | the page loop returns the hits of all pages with each name kept once, first occurrence first |
| WikiTool.EachNameOnce | common/js/memory/src/wiki-operations.ts:129-147 | folding drops repeats only: names are distinct and every name of every page is there |
| WikiTool.ResolveWiki | common/js/memory/src/wiki-operations.ts:155-163 | resolving finds an entry if and only if one carries the normalised title, and then that one |
| WikiWriting.Preflight | common/js/memory/src/wiki-operations.ts:300-342 | the preflight only reads; it refuses at the first refused entry, otherwise it returns the plan |
| WikiWriting.WikiWriteCall | common/js/memory/src/wiki-operations.ts:267-379 | anything but a commit leaves the collection as it was; a refusal names the first entry whose trimmed title or content is not accepted; a commit is the fold of upserts, and per normalised title shows the last content given, under the title it had or was given first; a stopped one is the fold of a prefix named by its titles; without an outage only a used create id stops it; titles stay unique |
| WikiEntries.UpsertsSay | common/js/memory/src/wiki-operations.ts:324-341 | after the upserts of the entries, as received, every normalised title shows the last content given for it, under its own or its first title, and titles not given show what they did |
| LifecycleModel.StartOrderIsTheOrder | common/js/bootstrap/src/bootstrap.ts:89-93 | the start order is the one strictly increasing arrangement by stage, then name, and does not depend on the registration order |
| LifecycleModel.StagesThenNames | common/js/bootstrap/src/bootstrap.ts:89-93 | along the start order stages do not decrease, and within a stage the names increase |
| Texts.BeforeIff | common/js/bootstrap/src/bootstrap.ts:89-93 | names compare by the first character in which they differ, a prefix coming first |
| LifecycleModel.EveryExitPathStopsWhatStarted | common/js/bootstrap/src/bootstrap.ts:109-175 | on every exit path the components that came up are a prefix of the start order, exactly those stop, in reverse, after health if it was up, and the errors are one per cause and one per failed stop |
| LifecycleModel.StoppedOnce | common/js/bootstrap/src/bootstrap.ts:163-167 | no component is stopped twice and none that did not come up |
| Lifecycles.Bootstrap.Register | common/js/bootstrap/src/bootstrap.ts:67-77 | a component joins exactly when no run has begun and its name is free |
| Lifecycles.Bootstrap.Run | common/js/bootstrap/src/bootstrap.ts:79-182 | the calls and errors of a run are the ones the components' behaviour and the budget determine: what came up is a prefix of the start order, exactly that goes down in reverse after health, and the errors are one per cause and one per failed stop; a second run does nothing |
| Lifecycles.StopWithinBudget | common/js/bootstrap/src/bootstrap.ts:185-215 | every target is stopped once in the order given, and every stop after the end of the budget counts as failed |
| Lifecycles.CleanIff | common/js/bootstrap/src/bootstrap.ts:169-175 | a run ends clean if and only if every start worked, a signal ended it, and every stop worked within the budget |
| Lifecycles.ErrorsAre | common/js/bootstrap/src/bootstrap.ts:109-175 | a run reports exactly the first component that did not start, or the health endpoint that did not, or the watched component whose exit ended it, and every stop that failed or came after the budget |
| Lifecycles.GoBootstrap.Register | common/gopkg/bootstrap/bootstrap.go:57-73 | a component joins exactly when no run has begun and its name is free |
| Lifecycles.GoBootstrap.RunSignal | common/gopkg/bootstrap/bootstrap.go:91-174 | the same run in Go, with the same statement of what comes up, goes down and is reported, where no stop is failed by the deadline itself |
| Lifecycles.Shutdown | common/gopkg/bootstrap/bootstrap.go:178-199 | the reverse loop stops every started component once and keeps every failure, panics included |
| Lifecycles.SameRunWithinBudget | common/gopkg/bootstrap/bootstrap.go:161-173 | a budget that outlasts the exit path makes both languages' runs the same |
| DaemonModel.RestartsAreBounded | common/gopkg/bootstrap/daemon.go:307-314 | with a restart limit M at least 0 a supervision builds at most M + 1 workers and backs off at most M times, under any classifier |
| DaemonModel.SupervisionIs | common/gopkg/bootstrap/daemon.go:203-267 | every round before the last asked for a restart and slept it out; the last is cancelled, stops, is fatal, or asks for a restart cut off or beyond the limit; it is reported fatal if and only if it is called fatal or is beyond the limit |
| DaemonModel.BackoffFormula | common/gopkg/bootstrap/daemon.go:327-330 | from the second one on the k-th backoff is min(initial * 2^k, max), if and only if the maximum is not negative or already at least twice the initial backoff |
| DaemonModel.CrashLoopUsesTheLimit | common/gopkg/bootstrap/daemon.go:307-314 | a worker that always crashes uses its limit up exactly: M backoffs and M + 1 builds, then the fatal report, and never a report without a limit |
| DaemonModel.NeverOverflowsIff | common/gopkg/bootstrap/daemon.go:327-330 | for bounds in [0, 2^63) every backoff in 64-bit arithmetic is the unbounded one if and only if the initial one is 0 or both bounds are below 2^62 |
| Daemons.Daemon.ReportFatal | common/js/bootstrap/src/daemon.ts:87-94 | settles the exit signal unless it is settled |
| Daemons.Daemon.ApplyRestartPolicy | common/js/bootstrap/src/daemon.ts:119-136 | restarts, backs off, or reports a fatal error exactly as the decision, the limit and the cancellation say |
| Daemons.Daemon.Supervise | common/js/bootstrap/src/daemon.ts:138-177 | every round before the last ended in a restart; builds, backoffs and the fatal report are those of the rounds; at most one report |
| Daemons.Daemon.Start | common/js/bootstrap/src/daemon.ts:184-191 | a second start is refused and changes nothing |
| Daemons.GoDaemon.ApplyRestartPolicy | common/gopkg/bootstrap/daemon.go:243-267 | the same policy on the caller's counters, where an unknown decision stops |
| Daemons.GoDaemon.Supervise | common/gopkg/bootstrap/daemon.go:203-238 | the same loop in Go, where a failing build is classified even when cancelled |
| DaemonStop.NoBuildAfterStop | common/gopkg/bootstrap/daemon.go:177-193 | once a Stop of a started daemon has returned, no interleaving builds another worker |
| DaemonStop.StopBeforeStartDoesNotStop | common/gopkg/bootstrap/daemon.go:177-193 | the exception: a Stop before Start returns at once and a later Start builds |
| DaemonStop.CancelledBuildsAtMostOnce | common/gopkg/bootstrap/daemon.go:209-220 | after a cancellation at most the build already decided on still happens |
| ResolverCache.PublishesEachChangeOnce | common/gopkg/grpc/solver/resolver.go:355-420 | over any run of polls whose updates are accepted or rejected as unusable, the lists passed to UpdateState are the successful resolutions with consecutive repeats removed, and the cache is the last one |
| ResolverCache.CollapsedKeepsTheLast | common/gopkg/grpc/solver/resolver.go:374-379 | removing repeats keeps the last list, so skipping agrees with publishing everything |
| ResolverCache.CollapsedHasNoRepeats | common/gopkg/grpc/solver/resolver.go:374-379 | no list is published twice in a row |
| ResolverCache.PublishesWhatIsNotStored | common/gopkg/grpc/solver/resolver.go:355-420 | over any run, failed updates included, the cache is the list of the last poll not turned away, and the lists passed to UpdateState are, in order, exactly those of the polls that differ from what was stored before them |
| ResolverCache.PermutedReplyPublishesNothing | common/gopkg/grpc/solver/resolver.go:455-474 | with a port selector a merely permuted or duplicated reply never causes an update |
| ResolverCache.Resolver.SameState | common/gopkg/grpc/solver/resolver.go:455-474 | true exactly when the cache holds this list |
| ResolverCache.Resolver.Resolve | common/gopkg/grpc/solver/resolver.go:355-420 | one poll takes one step of the cache and reports the lookup or update failure |
| ResolverCache.ResolveInstance | common/gopkg/grpc/solver/resolver.go:300-321 | the endpoints of the first instance with the ordinal, and an empty list, not an error, when there is none |
| EndpointFilter.FilterEndpoints | common/gopkg/solver/deploy_resolver.go:90-108 | the sorted, repeat-free addresses the endpoints contribute under the selector, or the missing port's error |
| EndpointFilter.FilterByNumericPort | common/gopkg/solver/deploy_resolver.go:111-124 | exactly the addresses of endpoints on that port, strictly increasing |
| EndpointFilter.FilterByNamedPort | common/gopkg/solver/deploy_resolver.go:127-138 | exactly the hosts of all readable endpoints on the resolved port, strictly increasing |
| EndpointFilter.FilteredHolds | common/gopkg/solver/deploy_resolver.go:90-138 | an address is in the list under a number if and only if it is that of an endpoint on that port, and under a name if and only if it is the host of a readable endpoint joined with the port of that name |
| EndpointFilter.SortUnique | common/gopkg/solver/deploy_resolver.go:141-151 | the elements of the set, strictly increasing, whatever order the map yields them in |
| EndpointFilter.FilterDependsOnTheSet | common/gopkg/solver/deploy_resolver.go:90-151 | two replies with the same endpoints filter to the same list when the selector names a port |
| EndpointFilter.EmptySelectorKeepsTheOrder | common/gopkg/solver/deploy_resolver.go:107 | without a port the reply keeps its order, so a permuted one differs |
| MergeModel.PathLaw | common/js/config/src/merge.ts:35-49 | for every target, source and path the merge shows what the source says where the source decides, the default where the source says nothing, and the merge of both where both have an object; a source says nothing below a key it skips where two objects meet |
| MergeModel.CleanSaysAll | common/js/config/src/merge.ts:36-42 | a source without skipped keys says all it holds |
| MergeModel.MergeIsIdempotent | common/js/config/src/merge.ts:31-51 | merging the same source again changes nothing |
| MergeModel.EmptySourceIsIdentity | common/js/config/src/merge.ts:35 | the empty source changes nothing |
| MergeModel.EmptyTargetTakesTheSource | common/js/config/src/merge.ts:36-42 | into the empty map the source arrives without its skipped keys, and whole if and only if it has none |
| MergeModel.SkippedKeysSurvive | common/js/config/src/merge.ts:36-42 | the keys __proto__, constructor and prototype, and undefined values, leave the default as it was |
| MergeModel.OtherKeysArrive | common/js/config/src/merge.ts:43-49 | every other key arrives, merged where two objects meet and as the source has it otherwise |
| MergeModel.SameTreeIff | common/gopkg/config/config.go:87-99 | both languages build the same tree if and only if, where objects meet, every key JavaScript skips brings nothing the defaults do not already hold |
| MergeModel.GoChangesNothingIff | common/gopkg/config/config.go:87-99 | the Go merge leaves a value alone if and only if the value holds all the source says, key by key |
| MergeModel.SameTree | common/gopkg/config/config.go:87-99 | so both build the same tree from a source without skipped keys, whatever the defaults |
| ConfigMerge.DeepMerge | common/js/config/src/merge.ts:31-51 | the target holds the merge, the source keeps its tree, and the two share no object |
| ConfigMerge.Clone | common/js/config/src/merge.ts:47 | a fresh tree with the same contents |
| GoConfigMerge.MergeInto | common/gopkg/config/config.go:87-99 | the destination holds the merge; it reaches only its own maps and the source's, which keeps its tree |
| PresetPages.ListPresets | projects/game/agent_v2/src/server.ts:926-957 | a page is the first ids after the token's, as many as the coerced size, with a token exactly when more follow |
| PresetPages.CallsAreAWalk | projects/game/agent_v2/src/server.ts:939-957 | calls that follow the tokens to the end are a complete walk from the first token, whatever happens to the presets between them |
| PresetPages.CallsShowPresentPresetsOnce | projects/game/agent_v2/src/server.ts:939-957 | a client that starts without a token and follows the tokens sees strictly increasing ids, and each preset present at every call exactly once |
| PresetPages.PresentPresetsComeOnce | projects/game/agent_v2/src/server.ts:939-957 | walking the pages while presets come and go returns strictly increasing ids, and each preset present throughout exactly once |
| PresetPages.FixedStoreIsCutUp | projects/game/agent_v2/src/server.ts:939-957 | on a fixed store the pages concatenate to the sorted ids in the page count |
| PresetPages.StaleTokenEndsTheWalk | projects/game/agent_v2/src/server.ts:942-948 | a token beyond every id gives the empty last page |
| PresetPages.CoercedSize | projects/game/agent_v2/src/server.ts:928-931 | between 1 and 1000: the requested size when that is in range, 100 for a request of 0 or below, 1000 for one above |
| KeysetPages.PageCountRoundsUp | projects/game/agent_v2/src/server.ts:949-957 | the page count is one for nothing and otherwise the length over the size, rounded up |
| KeysetPages.WalkIsComplete | projects/game/agent_v2/src/server.ts:942-949 | a key every store of the walk holds is returned |
| KeysetPages.WalkIncreases | projects/game/agent_v2/src/server.ts:942-949 | what a walk returns is strictly increasing and after its cursor |
| DominionTarget.UriParsesAlike | common/gopkg/grpc/solver/dial.go:62-80 | the URI of any string parses to what the string parses to, exactly unless the string names port 0 |
| DominionTarget.UriIsIdempotent | common/gopkg/grpc/solver/dial.go:62-80 | printing the URI of a URI changes nothing, for every string, accepted or not |
| DominionTarget.InstanceUriIsFinal | common/gopkg/grpc/solver/dial.go:75-77 | a URI with an instance is no target any more, so every further URI leaves it alone |
| DominionTarget.SchemeRoundTrip | common/gopkg/solver/target.go:79-130 | a printed target parses back to itself, except that port 0 prints as no port and is rejected |
| DominionTarget.ParsedTarget | common/gopkg/solver/target.go:100-129 | an accepted target has two trimmed, separator-free segments and a port in range or a DNS label that is no number |
| DominionTarget.SchemeIsOptional | common/gopkg/solver/target.go:79-99 | a target printed without the scheme parses like the one with it |
| DominionTarget.OtherSchemesAreRefused | common/gopkg/solver/target.go:79-99 | any other scheme is refused |
| DominionTarget.SpacesAreIgnored | common/gopkg/solver/target.go:106-108 | white space around the segments and the port is ignored |
| DominionTarget.PortAcceptedIff | common/gopkg/solver/target.go:113-129 | a port is accepted if and only if it is a number from 0 to 65535 or, when it is no number, a DNS label |

## Left out

- Scene orchestrators and the dsh engine: their source is not part of this model; what they report and when they throw is the environment's choice.
- gRPC, HTTP, Mongo, OpenTelemetry, Kubernetes and file access: every call is an environment step with an outcome.
- Log texts, error wording, timestamps, previews and rendered entry lists: refusals and errors are constructors that keep the position, the reason and the matched entries.
- TeamRegistry.EveryRunOk: the registry and its readers are modelled on values, not as a class, because their steps belong to many concurrent calls; a shutdown may come at any moment, but its own awaits are one step with the disposal flags.
- TeamRegistry.MemberReadIsOneGeneration: a prompt assembly that no teardown crosses is taken to render its generation's own prompt or to fail.
- Liveness of the quiescence watcher: `whenQuiescent` and `dispose` are taken to settle; the model says what holds when they do.
- A stream object is sent once, as the gRPC adapter builds one per call (projects/game/agent_v2/src/server.ts:468).
- Collectors.MemberCollector.Dispose: it comes after the subscription is off, so traces do not contain it.
- A text delta after the block-end of its provider index changes the engine's own block object in the source; the model copies the block, so only the collector's prefix shows the change.
- The dispatch of a memory call by the form of its arguments (single or batch) and the refusal of a mixed call: the two forms are modelled, not the choice.
- MemoryTool.ApplyBatch: no other writer acts during a batch; concurrency is modelled for the single add.
- The page walks of `listMemories`, `listWikis` and the rendering of wiki_search and wiki_get: one listing of the collection, in any order, stands for the walk; the page fold that drops repeats is `WikiTool.SearchAll`.
- WikiTool.ResolveWiki: the search service answers with the entries whose normalised title contains the normalised query, and the collection does not change during one preflight.
- Lone UTF-16 surrogates, and the difference between UTF-16 and scalar-value order on names outside the basic plane.
- Lifecycles.Bootstrap.Run: the health handle used for fault injection, signal listeners and the abort signal passed to starting components.
- Lifecycles.GoBootstrap.RunSignal: a start or a health stop that panics takes the process down and is not modelled.
- Daemons.GoDaemon.Supervise: a panicking classifier takes the process down and is not modelled; a panicking build or start is a failing one.
- DaemonStop.NoBuildAfterStop: restart counters and backoff durations are left to the loop proofs; the machine keeps the shared state only.
- Backoff durations in TypeScript are integers, and timers are environment steps.
- ConfigMerge.DeepMerge: the target and the source are trees of plain objects; arrays, dates and scalars are leaves compared by value.
- Conversions, password derivation, the desktop client, frontends, command entry points and storage back ends would only add easy members.
