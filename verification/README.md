# Yordam, modelled

Yordam keeps every fact as a committed transaction in an append-only journal and derives
the rest from it. This project models the parts where that derivation is delicate, in
Dafny, and proves what they promise over all journals and all runs. `dafny verify
dfyconfig.toml` checks it.

**Compaction and planning** (`Transcript`, `ToolIntents`, `ExchangeScan`, `SafeBoundaries`,
`Coverage`, `SafetyFacts`, `Selector`, `Adaptation`, `Agreement`, `Faults`, `Grouping`, `Results`,
`Composition`, `Regrouping`, `LateAnswers`, `Planner`, `Budgets`).
The selector picks an older range to summarise without cutting a tool exchange; the planner
later replays the journal, drops that range, inserts the summary, invents results for calls
whose turn ended, and packs whole exchanges into a token budget. Both track exchanges, with
different data: the selector by positions and ranges, the planner by a list of sources. Each
is specified by its own fold over the journal and implemented by the imperative loop of the
source. They are then shown to agree, and to compose.

**Projections** (`Commits`, `CommitLogs`, `Projection`, `ProjectionStore`). A journal is a
list of transactions and another list that other writers are about to commit; every reading
call first lets any number of those in. For every pure projector, paged updates, cached loads
and point reads equal the plain fold, under every interleaving with commits.

**Broker** (`Subscriptions`, `Brokers`, `BrokerRuns`, `Deliveries`, `BrokerLoss`). Classes hold
the queues, cursors and registry a mutex guards; their methods are proved to make the steps of a
state machine. Runs of that machine mix commits outside the lock, publishes that arrive in order but
may repeat or be refused, subscriptions whose heads were read while commits went on, reads,
closes and rotations.

**Lane and managed lease** (`Lanes`, `LaneRuns`, `ManagedRuns`). Critical sections are steps;
callers are identified, so that who holds, waits, was granted or gave up can be followed
through every interleaving.

**Authority, activities, recovery** (`Authority`, `AuthorityRuns`, `AuthorityLaws`,
`AuthorizationProjection`, `AuthorizationHistory`, `ActivityProjection`, `ActivityHistory`,
`Recovery`, `RecoveryHistory`, `Attempts`, `AttemptHistory`, `Decimal`). Tokens can only be
minted by the service; effects are logged and accounted for. The two projectors' reachable
states satisfy their invariants. The recovery batch closes what the projector holds open. The
history modules say, from the events alone, which journals are accepted and what is recorded.

**Canonical JSON** (`Json`, `JsonIntegers`, `CanonicalJson`, `JsonDecoder`, `JsonValidator`,
`JsonText`).
Texts are sequences of lexemes. The grammar of section 2 to 5 of RFC 8259, with integers in
place of its section 6, is given by what it writes; the token decoder's state machine, the
recursive parser and the streaming validator are proved to read exactly that language.

`Journals` and `Sequences` hold what several parts share.

## What turned out differently

- The selector and the planner do not accept the same journals outright. An assistant message
  that cannot be decoded stops the selector and is skipped by the planner; a message whose
  content is not a valid source stops the planner only. `Agreement.SelectorAndPlannerAgree`
  gives the condition in both directions.
- Activating a compaction breaks the replay if the next message after it is a tool message:
  the pending exchange is closed by the summary. `Composition.ActivationAccepted` is exact.
- A partial answer that is committed after the last terminal event of its turn lies outside
  its exchange's range, which ends at that event. A selection may then take the calls and leave
  the answer, and the plan over the rest is refused (`LateAnswers.LateAnswerBreaksPlan`).
  `Coverage.CoveredIff` is the exact condition for one tool message, `Composition.WholeIff` for
  a range, `Regrouping.IntactIff` for an activation; `Composition.CompactionComposes` asks that
  partial answers come in time.
- A transaction whose subagent stage cannot be read, such as a session that reports to wait for
  itself, is refused by the broker after it was committed. The next publish of its journal moves
  every cursor past it, and its events are never delivered (`BrokerLoss.RefusedIsLost`).
  `BrokerRuns.ExactlyOnce` says that nothing else is missing.
- The exact prefix reader accepts a target inside a transaction, which the point read refuses
  (`CommitLogs.MidTransactionRead`). They agree at every committed boundary.
- Revocations are counted in 64 bits. A nonce revoked a positive multiple of 2^64 times is
  accepted again; the statements say so instead of assuming it away.
- A control request that also names an activity may have its consumption recorded by the
  projector, while no token can ever be issued for it (`AuthorizationProjection.ChecksAgree`).
- A child's recovery receipt is uncertain whenever an activity had started, even if every
  effect probe proves no effect in the same recovery: the status looks at earlier outcomes,
  and a started activity has none (`Recovery.ReceiptUncertainIfStarted`).

## Model

| member | source | states |
|---|---|---|
| Transcript.TerminalTurnIndexes | internal/compaction/selector.go:196-211 | the map holds, per turn, the index of its last terminal event and nothing else |
| Transcript.TerminalTurns | internal/context/planner.go:454-465 | the map holds, per turn, the sequence of its last terminal event |
| Transcript.TerminalViewsAgree | internal/context/planner.go:454-465 | comparing sequences and comparing indexes give the same answer to whether a turn ended after an event |
| ToolIntents.AssistantToolCallIds | internal/compaction/selector.go:213-255 | fails exactly when merging a message's blocks with its older intent list fails, and returns the merged call order |
| ToolIntents.CanonicalAssistantBlocks | internal/context/planner.go:486-526 | the planner's lenient merge, block for block |
| ToolIntents.MergedCallsAreExact | internal/context/planner.go:486-526 | a successful merge names each call once: the block calls followed by the older calls not among them |
| ToolIntents.Strictness | internal/compaction/selector.go:213-255 | the selector's strict merge succeeds exactly when the planner's lenient one does and every merged use is valid, and then both give the same blocks |
| ToolIntents.MergeIff | internal/context/planner.go:486-526 | a message merges exactly if its calls are named and different, its older intents too, and each older intent repeats the block of its call word for word; the rest is added behind in order |
| SafeBoundaries.MergeToolExchangeRanges | internal/compaction/selector.go:266-293 | the merged list is the fold over the sorted ranges |
| SafeBoundaries.MergingIsSound | internal/compaction/selector.go:266-293 | merged ranges are sorted and disjoint, cover exactly the integers the originals covered, and contain each original whole |
| SafeBoundaries.ExchangeSafeCutoff | internal/compaction/selector.go:87-100 | terminates at the greatest cut at or below the request that splits no range |
| SafeBoundaries.ExchangeSafeStart | internal/compaction/selector.go:102-109 | the least start at or above the request that splits no range |
| SafeBoundaries.EventGroups | internal/compaction/selector.go:295-307 | slot by slot the range an event belongs to, or the event alone |
| Coverage.ToolExchangeRanges | internal/compaction/selector.go:111-194 | refuses exactly what the step-by-step scan refuses, and otherwise returns its merged ranges: disjoint, and holding every tool message that comes in time together with the message it answers |
| Coverage.CoveredIff | internal/compaction/selector.go:121-139 | a tool message of an accepted journal lies in the range of its own exchange exactly if the exchange is answered in full before the next message, or the tool message comes before the last terminal event of its turn |
| Coverage.AllCoveredIff | internal/compaction/selector.go:121-139 | all tool messages of an accepted journal lie in the ranges of their exchanges exactly if no partial answer comes after the last terminal event of its turn |
| Coverage.LateAnswerIsParted | internal/compaction/selector.go:121-139 | an accepted journal of three events with a partial answer outside every range, and a safe cut between it and the calls it answers |
| Coverage.TogetherIff | internal/compaction/selector.go:87-109 | all safe cuts keep two positions on one side exactly if one merged range holds both |
| Coverage.SafeCutsPartNoAnswer | internal/compaction/selector.go:87-109 | no safe cut of an accepted journal parts a tool message that comes in time from the message it answers |
| SafetyFacts.ActiveSafetyFacts | internal/compaction/selector.go:537-587 | exactly the events that are a turn's last open task fact, last unresolved outcome, or last unanswered authorization request |
| SafetyFacts.OpenTaskIff | internal/compaction/selector.go:537-594 | a task is open exactly at the last event that speaks of it, if that one does not end it; a task without a name is known by its event |
| SafetyFacts.OpenOutcomeIff | internal/compaction/selector.go:556-563 | an outcome contract is open exactly at the last event that speaks of it, if that one opens it |
| SafetyFacts.OpenRequestIff | internal/compaction/selector.go:564-580 | a request is open exactly at the last event that makes it, if no event anywhere decides it |
| Selector.CommittedEvents | internal/compaction/selector.go:397-476 | accepts exactly the committed projections that end at the head |
| Selector.ProjectionIff | internal/compaction/selector.go:397-476 | a committed projection is numbered from one without gaps except for one marker between transactions of the current format, starts with the records of the older one, and ends at the head or its marker |
| Selector.LatestCompactionThrough | internal/compaction/selector.go:478-498 | the greatest position a recognised earlier compaction reached, or none if there is none |
| Selector.BoundedSelection | internal/compaction/selector.go:309-352 | the returned range starts at the safe start or adding the next older group would overflow the limit; a refusal shows the required part alone overflows |
| Selector.ChooseRange | internal/compaction/selector.go:41-62 | no safe range exists at all, or the widest safe range is returned |
| Selector.Select | internal/compaction/selector.go:36-80 | every outcome: a sound bounded selection, nothing to compact exactly when no safe range exists, or the reason for refusing: a journal out of order, an event without a text, sources without an encoding, or a required part that overflows |
| Selector.SelectionOrder | internal/compaction/selector.go:369-391 | the sources of a selection are in journal order, one per selected event, each with the identity and the text of its own event |
| Selector.SelectionContents | internal/compaction/selector.go:309-352 | the sources contain the range, every active safety fact and the retained suffix, and no exchange partly |
| Selector.SelectionRetains | internal/compaction/selector.go:519-535 | the identities retained are exactly those of the events behind the range, at least four, and of the open safety facts |
| Selector.SelectionBuilds | internal/compaction/prompt.go:26-47 | a returned selection encodes within the caller's positive limit, or 262144 bytes if none is given, and is accepted for a summary request without a prior summary |
| Selector.CompactionsAscend | internal/compaction/selector.go:57-62 | over any run of selecting and appending, compaction ranges are disjoint and strictly increasing |
| Adaptation.AdaptEventSuffix | internal/context/planner.go:305-439 | the replay with its pending record, sources and exclusions flattens the grouped transcript, fault for fault |
| Agreement.SelectorAndPlannerAgree | internal/context/planner.go:305-439 | the selector accepts a journal whose messages can be presented exactly when the planner accepts it and every message decodes |
| Agreement.DisagreementsExist | internal/compaction/selector.go:111-194 | two one-event journals show neither condition can be dropped |
| Faults.TakeVerdict | internal/context/planner.go:395-434 | the planner takes a tool message exactly if the open exchange waits for each of its results, and otherwise names the first repeated, late, answered or unknown call |
| Faults.AnswerVerdict | internal/compaction/selector.go:163-187 | the selector's tracker gives the same reasons, except that a message that repeats a call is malformed to it |
| Faults.CloseVerdict | internal/compaction/selector.go:121-139 | both trackers close an exchange with open calls exactly if its turn ended after it, and otherwise name the first open call |
| Faults.ResultsIff | internal/context/planner.go:397-413 | a tool message is well formed exactly if it has results, each with a call and a status and in order by its own checks, and no call twice |
| Faults.BoundaryCloses | internal/context/planner.go:353-377 | a user or assistant message closes the open exchange first, also one that cannot be decoded, which the planner then skips and the selector refuses |
| Grouping.GroupContextSources | internal/context/planner.go:194-240 | cuts the flat list exactly as the declarative grouping does |
| Grouping.GroupingIsExact | internal/context/planner.go:194-240 | the groups concatenate to the list and each is a single source or an assistant with exactly its results |
| Grouping.GroupingRecovers | internal/context/planner.go:194-240 | grouping recovers any list of whole exchanges from its concatenation |
| Grouping.TranscriptGroupsRecovered | internal/context/planner.go:305-439 | replaying an accepted journal without compaction always groups, into the exchanges the replay emitted |
| Results.OneResultPerCall | internal/context/planner.go:305-439 | in an accepted replay, with or without a compaction, every group is the summary or one message's source followed directly by exactly one result per call; each result is the one a tool message carries, or is invented as uncertain for a call no tool message answers |
| Results.NothingLost | internal/context/planner.go:305-439 | every non-empty message and every result of an accepted replay stands in the group of its own message |
| Results.UnansweredIsUncertain | internal/context/planner.go:319-345 | a call that no tool message answers has exactly one item in its message's group, a legacy tool result at the message's position with status uncertain, and its turn had ended |
| Composition.ActivationAccepted | internal/context/planner.go:305-439 | activating a compaction keeps a journal acceptable exactly when no tool message comes next among the messages after the activation |
| Composition.SummaryInserted | internal/context/planner.go:305-439 | the activated replay is the plain replay with one summary group inserted where the activation stands |
| Composition.WholeIff | internal/context/planner.go:307-313 | dropping the sources of a range drops or keeps every exchange whole exactly if no exchange lies partly in the range |
| Composition.AnswerAfterPrefix | internal/compaction/selector.go:121-139 | a tool message committed after a selection that answers a message the selection saw comes after its turn had ended there |
| Composition.SelectionUncut | internal/compaction/selector.go:36-80 | a selected range cuts through no exchange of the whole later journal, if partial answers come before their turn's end |
| Composition.WholeGroupsRecovered | internal/context/planner.go:194-240 | whatever compaction is active, if it splits no exchange, the flat list it leaves groups into the very exchanges kept |
| Composition.CompactionComposes | internal/context/planner.go:305-439 | activating a selected range, with punctual answers, removes exactly the whole exchanges begun in it, inserts one summary behind what was begun before the activation, and the rest groups into the same exchanges |
| LateAnswers.LateAnswerBreaksPlan | internal/context/planner.go:194-240 | a committed journal whose partial answer came late: the selector takes the calls and not the answer, the replay succeeds, and the remaining sources cannot be grouped |
| LateAnswers.InterruptedIsRefused | internal/context/planner.go:321-330 | a journal the plain replay accepts and the activated one refuses, because a tool message comes next |
| Regrouping.IntactIff | internal/context/planner.go:305-439 | activating a compaction is accepted, keeps whole exchanges and leaves sources that group into exactly those, if and only if the plain replay succeeds, no tool message comes next, and the range cuts through no exchange |
| Regrouping.LeftGroupsIff | internal/context/planner.go:194-240 | if no two messages open the same call, the sources an accepted activation leaves can be grouped at all if and only if the range cuts through no exchange |
| Planner.ChooseCompaction | internal/context/planner.go:248-303 | the active compaction is the latest whose summary can be resolved and is valid |
| Planner.PackGroups | internal/context/planner.go:163-175 | the packing loop computes the kept groups, the budget exclusions and the tokens used |
| Planner.PackingConserves | internal/context/planner.go:163-175 | kept and skipped sources together are the offered ones, the tokens used are those of the kept ones, and they stay within the budget |
| Planner.Plan | internal/context/planner.go:104-187 | a plan is made exactly when the reserve fits, the journal replays, the sources are valid with unique identities and group whole; it packs whole groups in order with the exact estimate, and the estimate plus the reserve stays within a known window; with an unknown one nothing is excluded for the budget |
| Planner.PlanPartitions | internal/context/planner.go:137-175 | every offered source is either included or excluded for the budget, never both, and nothing else is included |
| Budgets.SkippedIff | internal/context/planner.go:163-175 | a group is left out of a plan exactly if the window is known and the tokens of the plan's earlier sources, its own and the reserve exceed it |
| Budgets.CompactedReported | internal/context/planner.go:307-317 | an identity is reported as compacted exactly if the active compaction hides it |
| Budgets.EstimateIsCeiling | internal/context/planner.go:619-640 | tokens are bytes over four, rounded up |
| Budgets.BytesAdd | internal/context/planner.go:619-640 | bytes add up over blocks, and a text counts its length |
| Budgets.LatestIsActive | internal/context/planner.go:248-303 | the active compaction is the last event that records a valid earlier range of its session and has a valid summary, spelled out condition by condition; there is none exactly if no event does |
| Commits.CommittedTransactionCursor | internal/projection/store.go:285-310 | the loop computes a transaction's cursor, or none for an ill-formed one |
| Commits.ChunksRecover | internal/projection/store.go:253-258 | cutting the records of any committed journal finds exactly its transactions |
| Commits.CommitAppends | internal/projection/store.go:285-310 | a transaction under a new name, numbered behind the head, can follow any committed journal and moves the head behind its marker |
| Commits.LegacyAppends | internal/projection/store.go:289-294 | a record of the older format can follow alone, and is its own head |
| CommitLogs.CommitLog.ReadRange | internal/session/jsonl/range.go:420-481 | for every limit from 1 to 1000, a page is whole transactions after a committed cursor, never empty while more remain; refused exactly for a bad limit, an uncommitted cursor, or a first transaction longer than the limit |
| CommitLogs.ReadInspectionAt | internal/app/subagent_snapshot.go:33-81 | under concurrent commits, paging returns exactly the records up to the one the target names, or nothing |
| CommitLogs.BoundaryPrefix | internal/app/subagent_snapshot.go:33-81 | a target at a committed boundary reads exactly the transactions before it |
| CommitLogs.MidTransactionRead | internal/app/subagent_snapshot.go:33-81 | a target inside a transaction is read as well, although no transaction ends there |
| Projection.ApplyCommitted | internal/projection/store.go:245-276 | for any records at all, the page loop computes the chunk-by-chunk specification, including each failure |
| Projection.FoldSplits | internal/projection/store.go:204-234 | folding in two parts is folding once, wherever the cut falls and wherever the fold fails |
| Projection.IncrementalIsRebuild | internal/projection/store.go:187-243 | resuming from the snapshot at any boundary reaches the state and head a rebuild reaches |
| Projection.PageIsFold | internal/projection/store.go:245-276 | on committed transactions a page is the plain fold, and its only failure is the projector's |
| Projection.FoldIsPrefix | internal/projection/store.go:91-98 | a stopped fold holds exactly the state of the complete transactions before the failing one |
| ProjectionStore.Store.Rebuild | internal/projection/store.go:73-111 | the snapshot is the fold of the whole journal, or of what precedes the first failing transaction; only a complete one is cached |
| ProjectionStore.Store.Update | internal/projection/store.go:187-243 | from any sealed snapshot at a committed head, with commits arriving between pages, ends at the fold of the rest; fails only for an unusable snapshot or unknown head |
| ProjectionStore.Store.Load | internal/projection/store.go:113-138 | through the cache or not, the answer is the one a rebuild of the journal gives, and the cache stays trustworthy |
| ProjectionStore.Store.At | internal/projection/store.go:143-185 | answers at exactly the committed boundaries whose prefix folds, without touching the cache |
| ProjectionStore.PointReadAt | internal/projection/store.go:143-185 | a point read at a boundary depends only on the transactions before it, so later commits leave it unchanged |
| ProjectionStore.PointReadsAgree | internal/app/subagent_snapshot.go:33-81 | at every committed boundary the exact prefix reader returns the very records the point read folds |
| Brokers.Subscription.EnqueueTransaction | internal/app/broker.go:524-547 | the queue, cursor and flags after enqueueing a transaction: all of it, or one terminal and none of it |
| Brokers.Broker.PublishCommitted | internal/app/broker.go:298-370 | the pass over registered subscriptions in any order, then the parents' notices, leaves exactly the specified registry |
| Brokers.Broker.PublishTransient | internal/app/broker.go:386-435 | every registered subscription gets the notice at the next stream position |
| Brokers.Broker.RotateEpoch | internal/app/broker.go:437-454 | every registered subscription gets a gap terminal and is deregistered |
| Brokers.Broker.SnapshotAndSubscribe | internal/app/broker.go:117-130 | a fresh subscription starts at the heads the snapshot read |
| Brokers.Broker.Next | internal/app/broker.go:613-638 | hands out the front of the queue; a terminal closes and deregisters |
| Brokers.Broker.Close | internal/app/broker.go:640-651 | empties the queue and deregisters, once |
| BrokerRuns.StepKeeps | internal/app/broker.go:298-454 | every commit, publish, subscribe, notice, read, close and rotation keeps every client's account of its journals |
| BrokerRuns.ExactlyOnce | internal/app/broker.go:298-340 | over every run, what a client read, has queued or dropped of an accepted journal is exactly what the transactions between its snapshot and its cursor hold, in order, once each, apart from refused ones; it is all that was committed there exactly if none was refused |
| BrokerRuns.OverflowResumes | internal/app/broker.go:524-547 | over every run, at most one terminal is queued and it is last, the queue exceeds its capacity by that one only, and resuming at the cursor it names completes what was delivered exactly if no transaction before it was refused |
| Deliveries.PublishVerdict | internal/app/broker.go:298-370 | in every reachable state a published transaction that owes no notice reaches each registered client whole if it is behind, has room and every event can be shown; otherwise the client is left alone, or its delivery ends with the reason: no room, or an event that cannot be shown |
| Deliveries.PublishReaches | internal/app/broker.go:298-384 | in every reachable state a client with room for what concerns it stays registered and gets a transaction it is behind whole, followed by the notices of its own children's stages in order |
| Deliveries.NoticeVerdict | internal/app/broker.go:386-435 | in every reachable state a notice moves the stream on by one and reaches each registered client that has room; the delivery of the others ends |
| Deliveries.RotationVerdict | internal/app/broker.go:437-454 | in every reachable state a new epoch ends every registered client with a gap that asks for a snapshot, at the cursor it stood at |
| Deliveries.SubscribeVerdict | internal/app/broker.go:117-130 | a new client starts empty at the heads that were read, with the capacity it asked for |
| Deliveries.MalformedPublish | internal/app/broker.go:298-318 | a publish for another journal, under another transaction or with a stage that cannot be read changes nothing and reports an error |
| Deliveries.PublishSucceeds | internal/app/broker.go:298-370 | a publish that fits its journal and transaction, with stages that can be read and notices that can be formed, reports no error |
| Deliveries.UnformedNotice | internal/app/broker.go:341-366 | a notice that cannot be formed ends the call if a live client waits for it, and is passed over otherwise |
| BrokerLoss.WaitingUnreadableIff | internal/app/broker.go:697-702 | a recorded waiting event has no readable stage exactly if it names its own session as the child |
| BrokerLoss.RefusedIsLost | internal/app/broker.go:312-316 | a run of one session in which a transaction whose waiting event names the session itself is refused, the next one is delivered, and the client's cursor stands behind both |
| BrokerRuns.LaterHidesEarlier | internal/app/broker.go:506-515 | publishing out of order would lose events: after a later transaction an earlier one counts as delivered |
| Lanes.OperationLane.Enter | internal/orchestrator/lane.go:63-71 | takes the free lane or joins the queue's end |
| Lanes.OperationLane.Abandon | internal/orchestrator/lane.go:76-90 | a granted waiter keeps the lane; any other leaves the queue |
| Lanes.OperationLane.Release | internal/orchestrator/lane.go:102-113 | hands the lane to the first waiter or frees it |
| Lanes.OperationLease.Release | internal/orchestrator/lane.go:95-100 | only the first release of a lease reaches the lane |
| Lanes.ManagedLease.BeginYield | internal/orchestrator/managed_lease.go:46-55 | takes the lease out of a lease that still holds one |
| Lanes.ManagedLease.EndYield | internal/orchestrator/managed_lease.go:57-76 | keeps the reacquired lease unless it was released meanwhile, and then gives it back |
| Lanes.ManagedLease.BeginRelease | internal/orchestrator/managed_lease.go:78-91 | the first release takes the lease out for good; later ones find nothing |
| LaneRuns.MutualExclusionAndOrder | internal/orchestrator/lane.go:55-113 | in every reachable state the lane is held exactly when one caller holds it, nobody waits for a free lane, and grants follow arrivals among those who did not give up |
| LaneRuns.CancellationLosesNoGrant | internal/orchestrator/lane.go:76-90 | a cancellation that races with a grant keeps the grant; an earlier one changes nobody else's claim |
| LaneRuns.ArrivalVerdict | internal/orchestrator/lane.go:55-71 | in every reachable state a caller that arrives owns the lane at once if nobody holds it, and otherwise waits at the end of the queue |
| LaneRuns.ReleaseVerdict | internal/orchestrator/lane.go:102-113 | in every reachable state an owner that lets go hands the lane to the caller that waits longest, or frees it |
| ManagedRuns.NeverTwoSlotsNeverLeaked | internal/orchestrator/managed_lease.go:46-91 | over every interleaving of yields, releases and other callers, at most one caller of a managed lease holds or awaits the lane, and the lease never forgets it; released and settled, it has none |
| ManagedRuns.YieldRestoresOwnership | internal/orchestrator/managed_lease.go:57-76 | a yield that reacquired ends owning the slot exactly if the lease was not released meanwhile; otherwise the slot went back |
| ManagedRuns.YieldLends | internal/orchestrator/managed_lease.go:46-54 | in every reachable state a yield lends the slot the lease holds, and changes nothing if it holds none |
| ManagedRuns.LentGoesBack | internal/orchestrator/managed_lease.go:55-56 | the slot a yield lends is released to the lane |
| ManagedRuns.ReleaseLetsGo | internal/orchestrator/managed_lease.go:78-88 | a release is for good, what the lease held is about to be given back, and a second release changes nothing |
| ManagedRuns.DropGivesBack | internal/orchestrator/managed_lease.go:88-91 | the slot a released lease held is released to the lane, once |
| Authority.NamedEvent | internal/authorization/service.go:330-354 | finds an event exactly when it is the only one of its kind and the only one with its identity |
| Authority.Service.ReadEvidence | internal/authorization/service.go:131-229 | succeeds exactly when the reference proves an unexpired committed allow with a matching consumption and start in a strictly later transaction |
| Authority.Service.Issue | internal/authorization/service.go:131-245 | a token is minted exactly for warranted evidence whose nonce is neither revoked nor issued |
| Authority.Service.Dispatch | internal/authorization/service.go:247-279 | when the effect runs, and the whole guarded state afterwards |
| Authority.Service.Revoke | internal/authorization/service.go:281-292 | the counter advances modulo 2^64 and a registered cancellation runs once |
| AuthorityRuns.AtMostOnce | internal/authorization/service.go:247-279 | over every run the effect runs at most once per nonce and at most once per kind and handle |
| AuthorityRuns.EffectsAreWarranted | internal/authorization/service.go:131-279 | every effect that ran was warranted by committed evidence through the token's own binding, and its nonce had been revoked a multiple of 2^64 times |
| AuthorityRuns.RevokedIsNotIssued | internal/authorization/service.go:229-236 | issuing is refused as revoked exactly when the revocation count is no multiple of 2^64 |
| AuthorityRuns.TurnedAwayOnlyByItself | internal/authorization/service.go:259-266 | a dispatch is turned away as a repeat only if the same nonce or the same kind and handle already ran |
| AuthorityLaws.TokenMeans | internal/authorization/service.go:131-245 | a token's evidence is an allow in one committed transaction and, in a later one, a consumption and a start that repeat its nonce, event, digest and binding field by field; its kind is control, provider or tool after the request |
| AuthorityLaws.EvidenceSuffices | internal/authorization/service.go:131-245 | conversely an allow and, in a later transaction, a consumption and a start that repeat what it bound are evidence |
| AuthorityLaws.IssuedIff | internal/authorization/service.go:229-245 | over every run evidence gets its token exactly if its nonce was revoked a multiple of 2^64 times and no token was minted for it, and the refusal says which failed |
| AuthorityLaws.RunsIff | internal/authorization/service.go:247-279 | over every run a minted token's effect runs exactly if it is presented for its own kind and binding under a handle, is not revoked, and neither its nonce nor that kind and handle ran before |
| AuthorityLaws.HookFiresOnce | internal/authorization/service.go:270-292 | a hook registered by an effect is there for the next revocation of its nonce, whatever happens in between, and gone after it |
| AuthorizationProjection.ReachableInv | internal/authorization/projection.go:65-179 | in every reachable state consumed nonces are allow decisions with equal bindings, requests are the recorded ones, grants are exactly the session allows, and the epoch is the greatest revoked one |
| AuthorizationProjection.RecordsAreFinal | internal/authorization/projection.go:65-179 | however the journal continues, recorded bindings and terminal command results stay |
| AuthorizationProjection.ConsumedOnce | internal/authorization/projection.go:104-119 | an accepted journal consumes a nonce at most once |
| AuthorizationProjection.ChecksAgree | internal/authorization/projection.go:196-215 | the projector and the dispatching service accept the same consumptions, given the event's activity, except for control requests that also name an activity |
| AuthorizationProjection.CommandKeysDiffer | internal/authorization/projection.go:235-237 | commands of one journal never share a key |
| AuthorizationHistory.AcceptedIff | internal/authorization/projection.go:65-215 | a journal is accepted exactly if each event may follow those before it, and then every request, decision, grant, consumption and command is recorded as the events say, and nothing else is |
| AuthorizationHistory.CompletionIsRecorded | internal/authorization/projection.go:150-179 | after an accepted completion the command holds its result, and the event of the first completion |
| AuthorizationHistory.KeysApart | internal/authorization/projection.go:235-237 | command keys of different journals never meet, as long as journal names hold no NUL |
| ActivityProjection.UpdateParentInPlace | internal/activity/projection.go:222-237 | the loop replaces the child's entry or appends one |
| ActivityProjection.IndexIsExact | internal/activity/projection.go:83-237 | after any accepted events each record's children are exactly the activities naming it as parent, in planning order and with current states; each activity is listed once |
| ActivityProjection.ParentsDescend | internal/activity/projection.go:101-126 | a parent was planned strictly before its child, so parent chains end |
| ActivityProjection.TerminalIsFinal | internal/activity/projection.go:201-212 | terminal states are absorbing |
| ActivityHistory.AcceptedIff | internal/activity/projection.go:83-220 | a journal is accepted exactly if each event may follow the last move of its activity; a start carries the decision last recorded; state and decision are those of the last move |
| ActivityHistory.RecordsDocument | internal/activity/projection.go:93-237 | a record holds what its plan said, every input it was given, and the outputs given at its end or after |
| Recovery.InspectRecovery | internal/app/runtime_support.go:427-511 | refuses a journal that moved on from the expected head; otherwise the loop computes the recovery view, or refuses it, and lists the started activities in sorted order |
| Recovery.ReadingsAgree | internal/app/runtime_support.go:427-511 | on journals both accept, recovery reports exactly the activities the projector holds in started |
| Recovery.AppendRecoverySessionTerminal | internal/orchestrator/recovery.go:265-408 | the numbered batch, its predicted cursor and the receipt's position; refused exactly for an unresolved tool call, a visible call without an admission service, or a result that is not admitted |
| Recovery.PredictionHolds | internal/orchestrator/recovery.go:265-290 | the batch has exactly the predicted number of events, numbered by position |
| Recovery.PredictedCursor | internal/orchestrator/recovery.go:283-287 | committed right after the expected head, the batch gets exactly the predicted cursor |
| Recovery.RecoveryCloses | internal/orchestrator/recovery.go:265-408 | the batch is accepted event by event and leaves nothing started and no turn open |
| Recovery.ReceiptNamesItself | internal/orchestrator/recovery.go:371-386 | a child receipt names its own sequence exactly when no diagnostic follows it |
| Recovery.ReceiptUncertainIfStarted | internal/orchestrator/recovery.go:375-382 | the receipt is uncertain as soon as anything had started, whatever the effect probe proves during this recovery |
| RecoveryHistory.OutcomesRecorded | internal/orchestrator/recovery.go:292-298 | once the batch is committed each started activity is interrupted without effect if the probe proves it and uncertain otherwise, and no other activity changes |
| RecoveryHistory.ResultsRecorded | internal/orchestrator/recovery.go:292-332 | every started activity ends exactly once, and each call the provider saw is answered exactly once, directly before its activity's end, with the same outcome |
| RecoveryHistory.TurnRecorded | internal/orchestrator/recovery.go:333-403 | after the activities the batch ends the turn, changes the task, completes the command if there is one, hands over a child's receipt under the manifest's task and turn, and notes the diagnostic, in this order |
| RecoveryHistory.HeaderIs | internal/app/runtime_support.go:427-511 | task, turn, command and manifest are those the journal spoke of last, and a turn that ended is gone |
| RecoveryHistory.InspectedIff | internal/app/runtime_support.go:427-511 | a journal the projector accepts is read exactly if plans are named and starts name their activity and planned call; then started, visible calls and proven absences are what the journal says |
| RecoveryHistory.NeverUnresolved | internal/orchestrator/recovery.go:267-275 | on journals both readings accept no visible call is without a name, so the refusal never occurs |
| Attempts.RecoveryControlAttemptIdentity | internal/app/bootstrap.go:386-473 | the loop over the history and the scan of ordinals compute the next identity, or refuse the history |
| Attempts.NextAttemptIsFresh | internal/app/bootstrap.go:386-473 | over any run of crashes and retries the next identity is always found, carries the next ordinal, was never accepted, and is accepted by the storage operation |
| AttemptHistory.NotedIff | internal/app/bootstrap.go:386-473 | a history is read exactly if every ordinal can be read, is accepted at most once, and ends under the identity it was last known by |
| AttemptHistory.NextIdentityIff | internal/app/bootstrap.go:386-473 | the next identity is computed exactly if the history can be read and every ordinal up to the greatest was accepted, and is the one after it, wrapping after 2^63 - 1 |
| Attempts.BoundIffOrdinal | internal/orchestrator/recovery.go:1072-1082 | the storage operation accepts exactly the identities that carry a positive ordinal |
| Json.ValidInteger | internal/canonicaljson/canonical.go:250-273 | accepts exactly integers without plus sign, leading zeros, fraction or exponent |
| JsonIntegers.IntegerIff | internal/canonicaljson/canonical.go:250-273 | the integers accepted are exactly the decimal renderings of integers, and minus zero |
| Json.ReadingIsGrammar | internal/canonicaljson/canonical.go:93-191 | a text is read exactly if the grammar writes it within the limits, and then as the one structure that writes it |
| JsonDecoder.ReadValue | internal/canonicaljson/canonical.go:112-191 | driven by the token decoder's states, reads exactly the value the grammar puts there and leaves the decoder behind it |
| JsonText.Parse | internal/canonicaljson/canonical.go:93-110 | the whole text is one value and nothing after it |
| JsonText.WriteNode | internal/canonicaljson/canonical.go:193-248 | appends the canonical text with keys sorted |
| JsonText.MarshalRaw | internal/canonicaljson/canonical.go:35-58 | a raw message is marshalled exactly if it parses |
| CanonicalJson.AscendingUnique | internal/canonicaljson/canonical.go:217-221 | sorted keys are determined by the set of keys |
| CanonicalJson.LessIff | internal/canonicaljson/canonical.go:217-221 | keys are compared at the first character they differ in, and a proper beginning comes first |
| CanonicalJson.RoundTrip | internal/canonicaljson/canonical.go:35-58 | parsing the printed form of a parsed tree gives the tree back, and marshalling its own output changes nothing |
| CanonicalJson.PrintingIsInjective | internal/canonicaljson/canonical.go:193-248 | different trees print differently |
| CanonicalJson.OrderIndependent | internal/canonicaljson/canonical.go:193-248 | texts that differ only in member order, at any level, marshal to the same output |
| JsonValidator.ValidateRawJson | internal/protocol/ids.go:157-176 | the streaming validator accepts exactly what the tree parser accepts, up to the byte cap |
| JsonValidator.ValidateValue | internal/protocol/ids.go:178-252 | reads exactly the grammar's value without building it |

## Left out

- CommitLogs.CommitLog.ReadRange: the file store is modelled for one journal; file locks, index files and damaged tails are not, except that a journal may stop being writable at any call.
- ProjectionStore.Store.Update: a store serves one journal here; entries of other journals in the cache are left untouched. Cancellation and repository failures are not modelled.
- Projection.ApplyCommitted: copying states and records is the identity; the snapshot digest is an arbitrary function of version, head and state.
- Agreement.SelectorAndPlannerAgree: a block of one kind that carries fields of another, such as a tool call with text, cannot be expressed; the planner refuses it and the selector does not look.
- BrokerRuns.ExactlyOnce: covers subscriptions made with a snapshot. Catch-up subscriptions sort by time and move the cursor event by event, so the statement is false of them in whole transactions.
- Brokers.Broker.PublishCommitted: the overflow callback of the headless consumer and the wake-up channel are not modelled; the fields of application events beyond the envelope and cursors are not either.
- Brokers.Broker.SnapshotAndSubscribe: the projections in a snapshot, the related-session vector and request validation are left out; the heads read are parameters.
- Lanes.OperationLane.Enter: claims and their validation are left out, as are contexts beyond a waiter's expiry.
- Authority.Service.Issue: field checks that do not concern the binding are one flag per record; expiry is read once, against a time passed in. Interactive resolution of pending decisions is left out.
- AuthorityRuns.AtMostOnce: tokens are taken to be unforgeable, as unexported fields make them. The effect itself is opaque.
- AuthorizationProjection.ReachableInv: decision and request details are compared as opaque values; the digest is an arbitrary function.
- ActivityProjection.IndexIsExact: timestamps, actors, error codes and unknown effects of records are left out; updating a parent that is missing, which no reachable state does, leaves the map alone.
- Recovery.InspectRecovery: payload decoding is assumed; the batch is proved for any order of the started activities, the sorted one among them.
- Recovery.AppendRecoverySessionTerminal: redaction and validation of an invented tool result are one arbitrary test; the receipt's evidence, the validation of the finished batch and the append and publish calls are left out. A batch of more than 1000 events would be refused by the append.
- Recovery.PredictedCursor: event payloads are opaque.
- Attempts.NextAttemptIsFresh: assumes fewer than 2^63 - 1 attempts.
- Json.ReadingIsGrammar: lexing is left out, with string quoting, escapes and white space; a lexeme the lexer rejects is one lexeme no value begins with. String limits count characters.
- JsonText.MarshalRaw: only raw messages; values that are first encoded by reflection are not modelled. Hashing, and with it transaction digests, is left out.
- Planner.Plan: request identities, tool exposure and the plan's digest are left out; sizes of encoded blocks are an arbitrary function, and token counts are unbounded integers.
- Planner.ChooseCompaction: older compaction records that carry their summary inline are not modelled.
- Adaptation.AdaptEventSuffix: filling empty envelopes from older records is left out; digests of sources are recomputed from equal content and therefore dropped.
- Selector.Select: message and evidence validation beyond identity and structure is a flag on the decoded event; rendering an event to text is an arbitrary partial function, and so is the size of an encoded request.
- The permission mode tables, event field validators and `compaction.Evaluate`: finite checks.
- Waiting-subagent reconciliation, session state folding, configuration and providers: not part of this model.
