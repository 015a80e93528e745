# Verified model of the notification protocol, statistics, achievements, daily puzzle and playtime

This project models the parts of the repository that keep several tables consistent while work is
retried, duplicated, interleaved or split, and proves what they promise.

- **Notifications** (`Outbox`, `Content`, `Inbox`, `Projection`, `Protocol`, `Delivery`, `Guarantees`,
  `Redaction`, `NotificationStore`, `Paging`). A producer appends a pending outbox row; the relay leases due rows
  under a fresh token and retries with backoff; the projector adds the event to an aggregated inbox
  group and completes the row under that token; readers page with a keyset cursor and acknowledge
  versions; lifecycle code redacts or hides items. `Protocol` is a state machine in which one
  transaction is one step, and the two read-then-write pairs (`recordFailure`, `acknowledgeRead`) are
  two steps each. A published job is "some worker may project this id with this token, any number of
  times, at any time". `NotificationStore` holds the services' loops and updates and ties each to
  steps of the protocol; `Guarantees` and `Redaction` state what holds in every run.
- **Statistics** (`StatisticsLedger`, `StatisticsTargets`). Facts become totals and hourly buckets;
  removing content deactivates a closure of targets; removing a profile lowers an exact gauge in
  batches.
- **Achievements and levels** (`Achievements`, `Levels`). Tier grants from live evaluation, backfill
  and manual grants race with each other and with admin edits; the exp loop has its own arithmetic.
- **Daily puzzle** (`DailyEvaluator`, `DailyPlay`). A whole-play evaluator behind append-only saved
  progress; `play` is a read and a later upsert, so calls may overlap.
- **Playtime** (`Playtime`). Period totals from sample deltas.

`dafny verify dfyconfig.toml` checks everything.

## How to read it

Tables are maps and sets, a transaction is an atomic step, `INSERT IGNORE` and unique keys are
insert-if-absent, and a row lock is the atomicity of the step. Identifiers are integers of which only
equality and order are used; every total order on ids is one of these. `Directory` holds the facts
that never change: who owns a root, and who owns a comment and under what it hangs. A class with
mutable fields stands for the tables a service updates; its methods are written as the service writes
them, and their contracts equate the new tables with a step, or a run of steps, of the state machine,
and say in the tables' own columns what changed. Which events are delivered is stated with the readers'
eligibility clause, so it assumes what makes clause and lock agree: memberships name existing
collections, and an activity names at most one post, review or collection.

What the code does that its comments or its callers may not expect:

- `actorIds` orders actors by two separate maxima (latest time, then greatest event id), so on equal
  times the first actor need not be the author of the excerpt shown. `Inbox.FirstActorIsNewestAuthor`
  gives the exact condition and `Inbox.OvertakenExample` an instance.
- An activity that names more than one of post, review and collection would be locked although the
  eligibility clause rejects it: `Content.AgreementForAnyActivity` gives the exact condition. No creator
  makes one (`src/activities/activities-repository/activities-repository.service.ts:137-190` sets one
  context per type), so it takes a row written by other means.
- A redacted item stays visible because another stored comment backs it. That rests on two things.
  Replies to replies are refused (`src/comment/comment.service.ts:234`), which is the assumption
  `Projection.OneLevel`. And comments must vanish through deletion or invalidation: an unfollow
  (`src/follow/follow.service.ts:219-233`) cascades to the follow activity and its comments, and a
  deleted profile takes its comments on other people's content along, without invalidating them.
  `Redaction.EditBreaksExactly` and `Redaction.RemovalBreaksExactly` say exactly which items lose their
  backing, `Redaction.DroppedActivityExample` is an instance, and `Redaction.ShownRedactedItemsAreBacked`
  says that eligibility keeps what an unfollow breaks from readers.
- `increaseExp` adds the unprocessed amount again on every pass of its loop, so an amount above the
  current level's cost is worth more than itself: `Levels.WorthExactly`, `Levels.SurplusClosedForm`.
- Asking for the daily hint after the winning guess is counted when the play is sent in one call and
  ignored when the win was stored first: `DailyPlay.CompletingEqualsWholePlay` gives the exact condition
  and `DailyPlay.HintAfterSavedWinExample` an instance.
- `play` reads and upserts without a transaction, so overlapping calls can lose guesses, in the instance
  `DailyPlay.OverlappingPlaysLoseGuesses`. They do so exactly when an upsert meets a row its guard would
  no longer accept: `DailyPlay.WriteContinuesExactly` for one upsert, `DailyPlay.OverlapsContinueExactly`
  for all runs.
- Replacing a definition's tiers is safe exactly while nobody holds one of them, which is what the
  draft guard of `updateDefinition` relies on: `Achievements.ReplacementIsSafe`.

## Model

| member | source | states |
|---|---|---|
| Outbox.ClaimOutcome | src/notifications/notifications-relay.service.ts:116-166 | claiming a healthy due row: a pending row is leased to the token until the lease ends, with exactly one more attempt; an expired lease is taken away with the attempts unchanged, and the row backs off, or fails at five attempts; the attempts_exhausted outcome is never taken |
| Outbox.FailureOutcome | src/notifications/notifications-relay.service.ts:230-281 | a failure write by the current owner always ends the lease and keeps the attempts: poison or the fifth attempt fails the row, anything else makes it pending, not due now and due after its backoff; a stale write changes nothing |
| Outbox.BackoffDoubles | src/notifications/notifications-relay.service.ts:128-134 | the delays actually reached are 1, 2, 4, 8 and 16 seconds, so the cap is never what ends retrying |
| Content.EntryTestsAgree | src/notifications/notifications-lifecycle.service.ts:11-126 | the locking read of a collection entry succeeds exactly when the clause about it holds |
| Content.ClauseImpliesLock | src/notifications/notifications-lifecycle.service.ts:11-126 | for every database, the eligibility clause for a root implies that the locking read returns it |
| Content.LockExactlyWhenClause | src/notifications/notifications-lifecycle.service.ts:11-126 | lock and clause agree on every root when activities name at most one context |
| Content.AgreementForAnyActivity | src/notifications/notifications-lifecycle.service.ts:39-126 | for an activity with several contexts they agree if and only if the contexts the lock never looked at are open too |
| Content.ShadowedContextBreaksAgreement | src/notifications/notifications-lifecycle.service.ts:39-126 | a concrete database where the lock succeeds and the clause fails |
| Inbox.LatestDecidesNewest | src/notifications/notifications-projector.service.ts:260-271 | comparing with the one latest row decides whether an event is newer than every row of the group |
| Inbox.TopIsUnique | src/notifications/notifications-projector.service.ts:290-294 | the top-three-actors query has exactly one answer for a set of events |
| Inbox.AppendLeader | src/notifications/notifications-projector.service.ts:290-294 | taking the best remaining actor extends the top list correctly |
| Inbox.BumpKeepsSummary | src/notifications/notifications-projector.service.ts:295-318 | the incremental update of an item equals the recomputation over its events, in whatever order they arrive |
| Inbox.SummaryIsDetermined | src/notifications/notifications-projector.service.ts:295-318 | two items over the same events agree on every aggregated column, and on excerpt, target and trigger unless redacted |
| Inbox.FirstActorIsNewestAuthor | src/notifications/notifications-projector.service.ts:290-318 | the first listed actor wrote the shown excerpt if and only if no other actor ties on time with a greater id of their own |
| Inbox.OvertakenExample | src/notifications/notifications-projector.service.ts:290-318 | an instance where list order and excerpt disagree |
| Projection.ResolvedMatchesBlueprint | src/notifications/notifications-projector.service.ts:155-207 | whenever projection contributes, recipient, group, subject and trigger are those the intent and the permanent facts determine, whatever the tables hold at that time |
| Projection.ResolvedIsEligible | src/notifications/notifications-projector.service.ts:367-694 | what resolution found in the tables satisfies every part of the eligibility test |
| Projection.NewestContributionIsEligible | src/notifications/notifications-projector.service.ts:295-318 | a contribution that is the newest of its group leaves an item readers are shown |
| Projection.DeliveredExactlyWhen | src/notifications/notifications-projector.service.ts:367-694 | for every payload an event is delivered if and only if: for likes, comments and replies, the eligibility clause holds for the root, the comments hang where the intent says and the owner is not the actor; for a follow, there is a given or stored followed user other than the actor; for an import or a moderation, there is a recipient; for a reauthentication or an achievement, the stored record belongs to the recipient |
| Projection.DeliveredAs | src/notifications/notifications-projector.service.ts:367-694 | what a delivered event says, column by column for every payload: kind, recipient, actor, subject, root, trigger, focus and time, and the stored text of the comment for comments and replies |
| Projection.SuppressedBecause | src/notifications/notifications-projector.service.ts:367-694 | the reason given for every event that is not delivered: missing or private content, a misplaced comment or reply, no recipient, no record, or the actor's own content |
| Projection.NeverNotifiesActor | src/notifications/notifications-projector.service.ts:182-192 | whatever the event, its recipient is never its own actor |
| Projection.GroupFixesSubject | src/notifications/notifications-projector.service.ts:194-207 | the grouping key determines kind, recipient, subject and root of its rows; a key of its own belongs to one event |
| Projection.GroupedTogetherExactly | src/notifications/notifications-projector.service.ts:194-207 | two contributions share an item if and only if they have the same recipient and kind and, on the same UTC day, are likes of one subject, comments on one root or replies to one comment; any other event has an item of its own |
| Protocol.StepKeepsInv | src/notifications/notifications-projector.service.ts:113-338 | every step of every participant keeps the fencing, contribution, aggregation and read invariants |
| Protocol.RunKeepsInv | src/notifications/notifications-relay.service.ts:83-297 | so does every run |
| Protocol.ProjectKeepsInv | src/notifications/notifications-projector.service.ts:113-365 | a projection at any time, with any token, keeps them, whether it contributes, suppresses, repeats or throws |
| Delivery.ProjectionOutcome | src/notifications/notifications-projector.service.ts:113-365 | under the current token and a live lease the row is closed: a deliverable event is completed and a row that tells it to its recipient is stored, with an item; any other is suppressed for its reason and leaves events and inbox alone; no other row moves |
| Delivery.FirstDeliveryShowsTheItem | src/notifications/notifications-projector.service.ts:225-318 | the first delivery of an event adds one event row and touches one item, which is visible then, one event and one version further with its read mark where it was, or new at version one and unread |
| Guarantees.InboxIsRecomputation | src/notifications/notifications-projector.service.ts:225-318 | in every reachable state every item equals the recomputation from its event rows: counts, version, distinct actors, top three, latest time, newest content |
| Guarantees.ItemsAreTheContributedGroups | src/notifications/notifications-projector.service.ts:225-253 | an item exists exactly for the groups that have event rows |
| Guarantees.DeliveryHistoryIsIrrelevant | src/notifications/notifications-projector.service.ts:209-318 | two runs with the same event rows of a group have the same aggregate, whatever the order, duplicates or crashes |
| Guarantees.BumpAddsContribution | src/notifications/notifications-projector.service.ts:209-318 | an item's version moves only in the projection that adds the event's first contribution row |
| Guarantees.AtMostOneBump | src/notifications/notifications-projector.service.ts:127-338 | across any interleaving of workers, expiries, failures and rearms an event bumps the inbox at most once |
| Guarantees.CompletedMeansContributedOnce | src/notifications/notifications-projector.service.ts:320-365 | a completed row has exactly one contribution row, for the recipient and group its intent determines |
| Guarantees.StaleTokenChangesNothing | src/notifications/notifications-projector.service.ts:128-148 | a worker or failure report whose token no longer owns the row changes no table |
| Guarantees.FencingHolds | src/notifications/notifications-relay.service.ts:97-170 | in every run a token exists exactly while processing, attempts stay in bounds, and a failure report that still owns the row holds its current attempts |
| Guarantees.ClaimRetiresOldTokens | src/notifications/notifications-relay.service.ts:143-164 | after a claim every token handed out earlier is stale |
| Guarantees.ClaimableExactly | src/notifications/notifications-relay.service.ts:97-115 | a fresh token can claim a row if and only if it is pending and its time has come, or processing under a lease that has run out |
| Guarantees.AppendedIsDue | src/notifications/notifications-outbox.service.ts:225-250 | an appended event is a new pending row with its intent, unattempted and due at once, and no other row moves |
| Guarantees.AbandonedWorkIsRetried | src/notifications/notifications-relay.service.ts:97-166 | wherever a run left a row with a worker, with attempts left, waiting for the lease, releasing it, waiting for the backoff and claiming it again leases it under the new token with one more attempt |
| Guarantees.StepMakesProgress | src/notifications/notifications-relay.service.ts:116-281 | no step removes a row or changes its intent, and every change without a rearm lowers a bounded measure |
| Guarantees.WorkIsBounded | src/notifications/notifications-relay.service.ts:116-281 | between rearms a row makes at most ten transitions and five claims |
| Guarantees.VersionsOnlyGrow | src/notifications/notifications.service.ts:181-227 | versions and read marks never decrease and item ids never change, in any step |
| Guarantees.AcknowledgedStaysRead | src/notifications/notifications.service.ts:211-227 | once an acknowledgement of a stored item is written, the item's read mark is at least its version in every later state of the run |
| Guarantees.AcknowledgementIsChecked | src/notifications/notifications.service.ts:181-209 | an acknowledgement is on its way exactly when its item is there, the user's, and at least that far |
| Guarantees.ReadNeverExceedsVersion | src/notifications/notifications.service.ts:181-227 | readVersion stays at most version in every run, although acknowledgements are checked and written in separate steps |
| Guarantees.InboxWalkIsComplete | src/notifications/notifications.service.ts:45-95 | in every reachable inbox, asking for the page after each next cursor until there is none yields each visible eligible item exactly once, newest first |
| Redaction.RedactedItemsStayBacked | src/notifications/notifications-lifecycle.service.ts:196-277 | in every run without profile removal a visible redacted item has an event whose trigger comment still exists, unless its root went away with its comments in an edit that invalidated nothing |
| Redaction.RedactedItemsBackedExactly | src/notifications/notifications-lifecycle.service.ts:196-277 | in every such run, when comments hang under stored content, that item is backed if and only if its root did not go away like that |
| Redaction.ShownRedactedItemsAreBacked | src/notifications/notifications.service.ts:52-87 | in every such run an item a reader is shown, that is a visible and eligible one, is backed whenever it is redacted |
| Redaction.EditBreaksExactly | src/activities/activities-repository/entities/activity.entity.ts:76-80 | when content disappears with its comments and nothing is invalidated, as an activity does with its follow, the visible redacted items all stay backed if and only if none of them is rooted in it |
| Redaction.DroppedActivityExample | src/follow/follow.service.ts:219-233 | an instance: a visible redacted item that an unfollow leaves without any stored trigger comment |
| Redaction.RemovalBreaksExactly | src/profile/profile.service.ts:250-266 | when a profile is deleted with its comments, the items still visible and redacted all stay backed if and only if the root of each stays and someone else wrote one of its stored trigger comments |
| Redaction.DeletedCommentIsNotShown | src/notifications/notifications-lifecycle.service.ts:196-277 | right after a comment is deleted no visible item has it as trigger or subject, and no count, version or read mark changed |
| Redaction.ExcerptDeletionOutcome | src/notifications/notifications-lifecycle.service.ts:234-266 | exactly what a deletion does to every item: hidden when it is about the comment; redacted, without excerpt, trigger or focus, and visible if and only if another stored comment backs the group, when it quotes the comment or is redacted over a row that mentions it; otherwise unchanged |
| Redaction.DeletionCascades | src/comment/entity/post-comment.entity.ts:33-41 | the comment and the replies to it are gone, and nothing else |
| Redaction.InvalidatedContentIsNotShown | src/notifications/notifications-lifecycle.service.ts:159-188 | right after content is invalidated an item is visible if and only if it was and neither is about nor rooted in the content or an activity that refers to it as its post or review; nothing else of it changed |
| Redaction.RemovedProfileIsNotShown | src/notifications/notifications-lifecycle.service.ts:310-342 | right after a profile is removed an item is visible if and only if it was, is not addressed to it and does not concern its content |
| Redaction.RemovedProfileIsNotTold | src/notifications/notifications-lifecycle.service.ts:322-336 | the profile's unfinished deliveries are suppressed, and no other outbox row moves |
| Redaction.ShownExcerptsAreAlive | src/notifications/notifications-lifecycle.service.ts:196-277 | in every run the comment an eligible item's excerpt comes from is stored under the item's root |
| Redaction.DeleteKeepsActive | src/notifications/notifications-lifecycle.service.ts:230-277 | a deletion with its cascade keeps every visible redacted item backed |
| NotificationStore.Database.ClaimDueRows | src/notifications/notifications-relay.service.ts:83-170 | within its bounds the claim loop is one Claim step over the due rows it picked: it returns exactly those it leased, each under its own token with one more attempt; the other due rows lose their owner and back off or fail; no other row moves |
| NotificationStore.Database.ReadFailureRow | src/notifications/notifications-relay.service.ts:230-252 | the first half of recordFailure reads the row as this owner sees it, or nothing when stale |
| NotificationStore.Database.WriteFailureRow | src/notifications/notifications-relay.service.ts:253-281 | the second half is a WriteFailure step: the row the report owns loses its lease, keeps its attempts and either fails, for poison or at the fifth attempt, or backs off; other rows never change, and a stale report changes nothing |
| NotificationStore.Database.RearmEvent | src/notifications/notifications-relay.service.ts:283-297 | an existing row is pending without owner, attempts or note and due at once; no other row moves, and the answer says whether the row exists |
| NotificationStore.Database.SelectLatest | src/notifications/notifications-projector.service.ts:260-264 | the loop answers the one row that is newer than every other row of the group, or nothing for none |
| NotificationStore.Database.SelectTopActors | src/notifications/notifications-projector.service.ts:290-294 | the loop that picks three leaders computes the top-three query |
| NotificationStore.Database.IsNewest | src/notifications/notifications-projector.service.ts:265-271 | the comparison with the latest row means newer than all rows |
| NotificationStore.Database.TopActorsWith | src/notifications/notifications-projector.service.ts:290-294 | the query after the insert gives the item's actor list |
| NotificationStore.Database.Aggregate | src/notifications/notifications-projector.service.ts:295-318 | the column values of the update are the specified bump of the item |
| NotificationStore.Database.Contribution | src/notifications/notifications-projector.service.ts:225-318 | upsert, reads, event insert and update together add exactly one contribution |
| NotificationStore.Database.CompleteOwnedOutbox | src/notifications/notifications-projector.service.ts:341-365 | completion happens only under the current token and an unexpired lease, and then closes the row in the given state |
| NotificationStore.Database.ProjectEvent | src/notifications/notifications-projector.service.ts:113-338 | a worker finishes if and only if its token is the row's and its lease is live at the commit; then a deliverable event is completed and told to its recipient and any other is suppressed; otherwise the tables are as before; the whole is one Project step |
| NotificationStore.Database.InvalidateComment | src/notifications/notifications-lifecycle.service.ts:196-277 | the loop over affected items is the specified redaction of the inbox |
| NotificationStore.Database.RemoveComment | src/notifications/notifications-lifecycle.service.ts:196-277 | delete, cascade and invalidate are one DeleteComment step |
| NotificationStore.Database.InvalidateRoot | src/notifications/notifications-lifecycle.service.ts:159-188 | the recursion over derived activities hides the items of all of them |
| NotificationStore.Database.RemoveContent | src/notifications/notifications-lifecycle.service.ts:159-188 | for one content the recursion, followed by the deletion, is one InvalidateContent step that leaves the tables without it |
| NotificationStore.Database.RemoveProfileOf | src/notifications/notifications-lifecycle.service.ts:310-342 | the three loops over owned content, the suppression of the recipient's rows and the hiding of their inbox are one RemoveProfile step |
| NotificationStore.Database.CheckAcknowledgement | src/notifications/notifications.service.ts:181-209 | the first half of acknowledgeRead accepts exactly when every item exists, belongs to the user and has reached the acknowledged version, answers which of these failed, and a refusal leaves nothing behind |
| NotificationStore.Database.WriteAcknowledgement | src/notifications/notifications.service.ts:211-227 | the second half leaves every stored item's read mark at the greatest of its old value and the versions acknowledged for it, and changes nothing else; it is a run of WriteAck steps |
| Paging.CursorResumes | src/notifications/notifications.service.ts:56-64 | the cursor of a row resumes exactly at the next row |
| Paging.BatchIsStretch | src/notifications/notifications.service.ts:52-69 | a batch query reads the stretch of the ordered inbox right after the cursor |
| Paging.ScanFillsPage | src/notifications/notifications.service.ts:45-87 | a page holds at most limit items and stops short only at the end or when five times limit rows were scanned |
| Paging.PageMeaning | src/notifications/notifications.service.ts:45-95 | a page has eligible rows beyond the cursor, newest first, none left out before one that is shown; if no page follows none is left out; the next cursor stands behind exactly what was shown; a page with room left and more to come has looked at five times the limit |
| Paging.FollowReturnsTheRest | src/notifications/notifications.service.ts:45-95 | from any cursor on, the page it asks for and the pages that each next cursor asks for are together the eligible part of the listing after that cursor |
| Paging.FollowIsComplete | src/notifications/notifications.service.ts:45-95 | from the first page on, following the cursor gives every eligible visible item exactly once, newest first |
| Paging.QueryBatch | src/notifications/notifications.service.ts:52-69 | the batch as the database answers it |
| Paging.ConsumeBatch | src/notifications/notifications.service.ts:77-84 | the loop over a batch takes rows until the page is full, the batch is spent or its size is reached |
| Paging.ConsumedIsProgress | src/notifications/notifications.service.ts:77-87 | consuming a batch moves the page along the ordered inbox and does not change where it will end |
| Paging.ReadPage | src/notifications/notifications.service.ts:45-87 | the refill loop ends where the specification of a page ends, with exactly its items |
| Paging.FindAll | src/notifications/notifications.service.ts:31-95 | the page, its cursor and hasMore for every request, and each refusal for exactly its condition |
| Paging.FollowCursor | src/notifications/notifications.service.ts:31-95 | calling findAll with each nextCursor it answers ends, and the pages together are every eligible visible item exactly once, newest first |
| StatisticsLedger.LedgerBalances | src/statistics/statistics-projection.service.ts:25-122 | in every run each total equals the sum of its hourly buckets and the number of done facts of its target that earn it: views for views, likes added for added likes, like credit for those with a credit, likes removed for removed likes |
| StatisticsLedger.HoursCountTheirFacts | src/statistics/statistics-projection.service.ts:42-70 | each hourly bucket is the number of those facts that happened from its start to an hour later, and starts on a whole hour |
| StatisticsLedger.CountedAtMostOnce | src/statistics/statistics-projection.service.ts:25-122 | whatever fails, retries or is rearmed, a fact is counted at most once |
| StatisticsLedger.RecordsAreKept | src/statistics/statistics-projection.service.ts:25-122 | in every run a recorded fact keeps its version, kind, target, time and credit |
| StatisticsLedger.DelayDoubles | src/statistics/statistics-projection.service.ts:94-98 | the delays in use are 2, 4, 8, 16 and 32 seconds |
| StatisticsLedger.StepKeepsInv | src/statistics/statistics-projection.service.ts:25-122 | every interleaved step keeps the ledger exact |
| StatisticsLedger.Projector.ProjectFact | src/statistics/statistics-projection.service.ts:32-76 | the transaction of one fact is a Drain step: a fact of version one and a known kind is done and adds one to each total and hour it earns and to no other; for any other fact it throws and no table changed |
| StatisticsLedger.Projector.CountMetrics | src/statistics/statistics-projection.service.ts:42-70 | each total of the fact's target that the fact earns goes up by one, so does its bucket of the hour it happened in, and no other |
| StatisticsLedger.Projector.RecordFailure | src/statistics/statistics-projection.service.ts:94-110 | a late failure record is a WriteFailure step that keeps the ledger exact: a fact still pending with the attempts read gets one more attempt and is not due until its backoff, or fails at the last one; a fact changed meanwhile and every other fact are untouched |
| StatisticsLedger.Projector.RearmFact | src/statistics/statistics-projection.service.ts:112-122 | only a failed fact is rearmed, and the answer says whether it was |
| StatisticsLedger.Projector.DrainDue | src/statistics/statistics-projection.service.ts:25-92 | drain is a run of the ledger; it takes the first due facts by due time and id, as many as the limit allows, and each is done or has one attempt more; no other fact moves |
| StatisticsTargets.ClosureMeaning | src/statistics/statistics-target.repository.ts:133-177 | the deactivated targets are exactly those of the content, of the activities that refer to it as their post or review, and of every comment or reply rooted in one of these, given replies share their parent's root |
| StatisticsTargets.ClosureIsReached | src/statistics/statistics-target.repository.ts:157-177 | without that assumption they are those of the content, its comments and their replies, and of such activities, their comments and their replies |
| StatisticsTargets.ProfileTargetsMeaning | src/statistics/statistics-target.repository.ts:189-206 | walking the source types reaches exactly the targets that some content of the user, of any kind, reaches, or that are of a comment of the user or of a reply to one |
| StatisticsTargets.CommentVisitsCoverThread | src/statistics/statistics-target.repository.ts:133-177 | visiting each comment with its replies reaches the whole thread and nothing else |
| StatisticsTargets.TargetStore.DeactivateComment | src/statistics/statistics-target.repository.ts:133-155 | a comment and its replies go inactive, every other flag is unchanged |
| StatisticsTargets.TargetStore.DeactivateContent | src/statistics/statistics-target.repository.ts:157-177 | the recursion ends and deactivates exactly the closure |
| StatisticsTargets.TargetStore.DeactivateOwned | src/statistics/statistics-target.repository.ts:189-206 | the keyset loop over a user's sources ends, visits each exactly once and deactivates exactly what they reach |
| StatisticsTargets.TargetStore.DeactivateProfile | src/statistics/statistics-target.repository.ts:189-206 | a target stays active if and only if it was and no content or comment of the user, of any kind, reaches it |
| StatisticsTargets.CursorSkipsBatch | src/statistics/statistics-target.repository.ts:192-206 | moving the cursor past a batch leaves exactly the unvisited ids, strictly fewer |
| StatisticsTargets.ExactGaugeIsSubtractable | src/statistics/statistics-target.repository.ts:219-227 | under an exact gauge the inconsistency error is never thrown |
| StatisticsTargets.RemovalKeepsGauge | src/statistics/statistics-target.repository.ts:207-233 | removing a user's rows and lowering those gauges keeps every gauge equal to its number of likes |
| StatisticsTargets.TargetStore.ApplyReaction | src/statistics/statistics.service.ts:103-148 | under an exact gauge a reaction never fails, keeps the gauge exact and answers the number of active likes; a repeat changes nothing, a failure changes nothing |
| StatisticsTargets.ReactionKeepsGauge | src/statistics/statistics.service.ts:115-141 | liking and unliking, which move one row and the gauge together, keep the gauge exact |
| StatisticsTargets.TargetStore.CreateTarget | src/statistics/statistics-target.repository.ts:25-45 | a new target is active with a zero gauge and keeps the gauge exact |
| StatisticsTargets.TargetStore.RemoveEngagement | src/statistics/statistics-target.repository.ts:207-233 | the batched removal succeeds exactly when every gauge covers the user's likes, and then removes all their rows and nothing else |
| StatisticsTargets.TargetStore.ForgetActor | src/statistics/statistics-target.repository.ts:234-240 | the batched update ends, forgets the actor on all their facts and neither adds nor removes a fact |
| StatisticsTargets.TargetStore.CleanupProfile | src/statistics/statistics-target.repository.ts:180-241 | the whole cleanup: it succeeds if and only if every gauge the user's likes count in is there and positive, as exact gauges are and stay; then the user's rows are gone and others' untouched, each gauge is lower by the user's like, a target is active if and only if it was and nothing of the user reaches it, and the user's facts are anonymous; a failure changes nothing |
| Achievements.ThresholdsIncrease | src/achievements/achievements-admin.service.ts:93-100 | validated thresholds increase strictly across any distance, so reaching a level means reaching all below |
| Achievements.ValidMeansSound | src/achievements/achievements-admin.service.ts:91-100 | comparing neighbours accepts exactly one to ten tiers with thresholds that increase throughout |
| Achievements.UpdateAppends | src/achievements/achievements-admin.service.ts:187-255 | an accepted update of a published definition keeps its rule and tiers, counters included, and only appends tiers at zero; a draft's tiers become exactly the request |
| Achievements.UpdateExactly | src/achievements/achievements-admin.service.ts:187-255 | an update is accepted if and only if the definition is not archived, the tiers are sound and, once published, the rule stays and every tier is repeated; then rule and tiers are as asked, new tiers at zero, and what was not asked for stays |
| Achievements.EditKeepsLedger | src/achievements/achievements-admin.service.ts:160-303 | create, update, delete, publish and archive keep the ledger at any time, with grants pending |
| Achievements.AwardedRows | src/achievements/achievements-progress.service.ts:191-208 | the insertion loop adds exactly the planned rows and remembers the highest new level |
| Achievements.AwardOutcome | src/achievements/achievements-progress.service.ts:191-208 | it counts each tier's new rows and sums exactly their rewards |
| Achievements.GrantOutcome | src/achievements/achievements-progress.service.ts:175-237 | a grant inserts exactly the missing planned rows and pays exactly their rewards; only a manual grant of nothing new is refused; backfill is silent |
| Achievements.GrantAnnouncesHighest | src/achievements/achievements-progress.service.ts:222-236 | a live or manual grant leaves one notice, for the highest new level |
| Achievements.PlanClosed | src/achievements/achievements-progress.service.ts:151-163 | what the three paths plan to grant leaves no gap below any level, even from rows read earlier |
| Achievements.PlansMean | src/achievements/achievements-progress.service.ts:142-168 | a live evaluation plans exactly the levels the value reaches and the user does not hold, backfill exactly the levels reached, a manual grant the first level; planning moves no table |
| Achievements.LoadedAsPublished | src/achievements/achievements-progress.service.ts:61-78 | loading takes exactly a published definition, with its tiers as they are |
| Achievements.StepKeepsLedger | src/achievements/achievements-progress.service.ts:97-292 | every step of workers and admin keeps the ledger |
| Achievements.LedgerHoldsAlways | src/achievements/achievements-progress.service.ts:151-252 | in every run each user's levels of a definition are a prefix 1..k, obtainedCount equals the obtained rows, exp paid equals the rewards of the rows held, drafts have no obtained rows, and notices are distinct and obtained |
| Achievements.GrantIsIdempotent | src/achievements/achievements-progress.service.ts:171-218 | delivering a grant twice changes nothing more than once |
| Achievements.RacingGrantsAgree | src/achievements/achievements-progress.service.ts:175-252 | any two pending grants leave the same definitions, rows and payments in either order |
| Achievements.LiveGrantReaches | src/achievements/achievements-progress.service.ts:142-167 | after a live evaluation grants, the user holds every loaded tier the value reaches, whatever happened in between |
| Achievements.RunOnlyAdds | src/achievements/achievements-progress.service.ts:191-221 | nothing obtained is ever lost and payments never shrink |
| Achievements.ReplacementIsSafe | src/achievements/achievements-admin.service.ts:243-254 | deleting and reinserting a definition's tiers keeps the counters right if and only if nobody holds one of them |
| Achievements.AchievementStore.GrantTiersTo | src/achievements/achievements-progress.service.ts:175-237 | the transaction's loop is the specified grant; a refusal rolls it back |
| Achievements.AchievementStore.Evaluate | src/achievements/achievements-progress.service.ts:142-168 | with one read of the obtained rows for all definitions, the rows end as those held before plus every tier the values reach |
| Achievements.WithReachedMeaning | src/achievements/achievements-progress.service.ts:142-168 | that is: a row is held afterwards if and only if it was held before or is the user's for a level one of the values reaches |
| Achievements.AchievementStore.BackfillBatch | src/achievements/achievements-progress.service.ts:258-292 | a batch after a cursor grants each of its at most 500 candidates every tier they reach, without notices, and answers the cursor behind the last of them, or null when the batch was short or the definition is not published |
| Achievements.AchievementStore.BackfillAll | src/achievements/achievements-progress.service.ts:258-292 | run from cursor to cursor until null, backfill ends, and the rows are exactly those held before plus every tier that any candidate reaches |
| Achievements.WithEarnedMeaning | src/achievements/achievements-progress.service.ts:258-292 | a row is held after the first candidates exactly when it was held before or one of them earned it |
| Achievements.AchievementStore.CreateDefinition | src/achievements/achievements-admin.service.ts:160-185 | accepted exactly for a fresh id and sound tiers; then it is a draft with that rule and those tiers at zero, and no other definition moves |
| Achievements.AchievementStore.Update | src/achievements/achievements-admin.service.ts:187-255 | accepted and carried out as the exact conditions of an update say; a refusal changes nothing and says whether the definition is missing |
| Achievements.AchievementStore.DeleteDefinition | src/achievements/achievements-admin.service.ts:267-273 | exactly a draft is deleted, and nothing else |
| Achievements.AchievementStore.PublishDefinition | src/achievements/achievements-admin.service.ts:275-291 | exactly a draft with sound tiers is published, with its rule and tiers as they are |
| Achievements.AchievementStore.ArchiveDefinition | src/achievements/achievements-admin.service.ts:293-303 | exactly a published definition is archived, with its rule and tiers as they are |
| Levels.CostFormula | src/level/level.service.ts:135-142 | the service's formula over the reals is 70L + 2L² |
| Levels.PassKeepsWorth | src/level/level.service.ts:80-106 | one pass adds its whole unprocessed amount to lifetime exp and leaves the worth of the rest |
| Levels.Process | src/level/level.service.ts:76-106 | the loop ends, the level never drops, the stored cost is the level's cost, and lifetime exp grows by exactly the worth of the amount |
| Levels.OnePass | src/level/level.service.ts:80-105 | one pass adds its whole unprocessed amount to lifetime exp, and the level rises by one if and only if exp and amount reach the stored cost |
| Levels.LevelStore.IncreaseExp | src/level/level.service.ts:69-109 | the same for the stored row; a missing one starts at level one without exp and multiplier one; other users' rows are untouched |
| Levels.WorthExactly | src/level/level.service.ts:80-106 | an amount is worth itself if and only if it is at most the current level's cost, and more otherwise |
| Levels.SurplusClosedForm | src/level/level.service.ts:80-106 | the surplus is the sum over passes of what the amount exceeds the next levels' costs by |
| Levels.SettledIsUnique | src/level/level.service.ts:92-105 | lifetime exp determines level and remainder of a settled row |
| Levels.SurplusExample | src/level/level.service.ts:80-106 | 400 exp at level 1 is worth 852 |
| DailyEvaluator.SetMatchMeaning | src/daily/daily-evaluator.ts:78-91 | counting shared names decides equality and overlap of the id sets, two empty sets included |
| DailyEvaluator.YearRangeExact | src/daily/daily-evaluator.ts:93-178 | the range is exactly the years no shown year column contradicts: on the side its direction says, within five years when it is partial, equal when it matches, and between 1950 and this year or the answer's; it contains the answer |
| DailyEvaluator.YearRangeIgnoresOrder | src/daily/daily-evaluator.ts:162-178 | the range depends on the set of guesses only |
| DailyEvaluator.YearRangeShrinks | src/daily/daily-evaluator.ts:162-178 | more guesses only shrink it |
| DailyEvaluator.ComputeYearRange | src/daily/daily-evaluator.ts:162-178 | the loop with its early return computes that range |
| DailyEvaluator.OutcomeMeaning | src/daily/daily-evaluator.ts:194-222 | exactly which plays are valid and why one is refused, how many attempts a valid one took, when it is won, lost or in progress, when the answer is shown, and when the hint is offered, which is then accepted |
| DailyEvaluator.HintsMeaning | src/daily/daily-evaluator.ts:223-237 | which hints a valid play shows: the image level of the image modes and of the last keyword attempts, three keywords and one more per attempt, and the year range in specs mode when the answer has a year |
| DailyEvaluator.FeedbackMeaning | src/daily/daily-evaluator.ts:132-160 | one entry per guess, empty for a skip: the guess's id and name, correct by id, franchise by overlap of franchises, exactly the shared genres and platforms, and columns only in specs mode |
| DailyEvaluator.ColumnsMeaning | src/daily/daily-evaluator.ts:93-130 | in specs mode every list column matches on equal id sets and is partial on a proper overlap, and names the guess's items in order, the franchises without names |
| DailyEvaluator.YearMeaning | src/daily/daily-evaluator.ts:93-112 | the year column shows the guess's year, higher exactly when the answer is later, lower exactly when it is earlier, a match exactly on equal known years and partial exactly on different ones at most five apart |
| DailyEvaluator.RevealMeaning | src/daily/daily-evaluator.ts:237-250 | the hint reveals the answer's entry in the first column, from release year to game engines, in which no guess before it agreed with the answer, and nothing when every column was found |
| DailyEvaluator.EarlierStageInProgress | src/daily/daily-evaluator.ts:194-222 | every earlier stage of a valid play is valid, and in progress if and only if what is missing is not just a hint after the win |
| DailyEvaluator.HintAfterWinExample | src/daily/daily-evaluator.ts:194-222 | an instance of that exception: four skips, the answer, and then the hint |
| DailyEvaluator.HintsOnlyGrow | src/daily/daily-evaluator.ts:223-250 | along a play feedback, keywords and image level only grow, the year range shrinks and the reveal never moves |
| DailyPlay.NamedListIsUnique | src/daily/daily.service.ts:65-74 | named lists have unique ids and exactly the ids of the rows |
| DailyPlay.GameDataMeaning | src/daily/daily.service.ts:65-96 | what the evaluator is given of a stored game: its own data, each joined list with every id once under its last name, and as companies exactly the credited developers and publishers |
| DailyPlay.InputMeaning | src/daily/daily.service.ts:140-205 | which calls can be evaluated, and that they are evaluated on the puzzle's game and mode and the guessed games in their places |
| DailyPlay.EvaluationMeaning | src/daily/daily.service.ts:429-454 | a missing answer is not found, an unknown guess or an invalid play is a bad request, anything else is evaluated |
| DailyPlay.PlayAnswers | src/daily/daily.service.ts:149-205 | what a call is answered and what it will store, for every puzzle, saved row and attempt: not found, answered as saved, refused because it takes progress back, or evaluated as sent and stored for a user |
| DailyPlay.ImportableMeaning | src/daily/daily.service.ts:237-269 | a guest play can be imported if and only if its puzzle is out and it is a valid play that is won or lost; its row has the evaluator's status and attempts |
| DailyPlay.InsertMeans | src/daily/daily.service.ts:253-283 | an import step adds the row of an importable play where the user has none, and does nothing else |
| DailyPlay.ColumnsMeanSets | src/daily/daily.service.ts:76-96 | for stored games a full match is equality of id sets and a partial match a proper overlap |
| DailyPlay.PlayKeepsResults | src/daily/daily.service.ts:149-205 | every stored row is a valid play whose status and attempts are the evaluator's; a play that is not disturbed only continues rows |
| DailyPlay.OverlapsContinueExactly | src/daily/daily.service.ts:149-205 | over any interleaving of reads, upserts and imports by anyone, stored guesses only extend, hints stay and finished rows never change if and only if every upsert meets a row that the guard of play would accept then |
| DailyPlay.WriteContinuesExactly | src/daily/daily.service.ts:161-203 | an upsert decided by a read of any age only continues the stored rows if and only if the row it meets is the same attempt, or is unfinished and appended to |
| DailyPlay.OverlapsKeepRowsValid | src/daily/daily.service.ts:149-205 | whatever overlaps, every stored row stays a valid play with the evaluator's status and attempts |
| DailyPlay.UndisturbedContinues | src/daily/daily.service.ts:157-203 | when every upsert finds the row its call had read, as when calls of one user for one puzzle do not overlap, every upsert is accepted, whoever else plays or imports meanwhile |
| DailyPlay.PlayIsReadThenWrite | src/daily/daily.service.ts:149-205 | a call alone is its read followed by its upsert, and by no upsert on the paths that store nothing |
| DailyPlay.CompletingEqualsWholePlay | src/daily/daily.service.ts:161-204 | completing saved progress is answered and stored as the whole play in one call if and only if it is not a hint asked for after the win |
| DailyPlay.HintAfterSavedWinExample | src/daily/daily.service.ts:161-204 | an instance where they differ: five attempts when the win was stored before the hint, six when sent whole |
| DailyPlay.SplitPlayEqualsWholePlay | src/daily/daily.service.ts:149-205 | after any sequence of calls, the completing call gives the same answer and row as the whole play |
| DailyPlay.EveryStageIsAccepted | src/daily/daily.service.ts:149-205 | every split of a valid play into growing stages is accepted and stored call by call |
| DailyPlay.OverlappingPlaysLoseGuesses | src/daily/daily.service.ts:157-203 | an instance: two calls read no row, the longer play is stored and the shorter one replaces it |
| DailyPlay.DailyStore.PlayPuzzle | src/daily/daily.service.ts:149-205 | the call leaves stored rows valid and only continues them, and answers and stores as the specified play |
| DailyPlay.DailyStore.ReadProgress | src/daily/daily.service.ts:149-189 | the guards in order leave an upsert only for a valid attempt that starts or appends to unfinished progress |
| DailyPlay.DailyStore.WriteProgress | src/daily/daily.service.ts:190-203 | the upsert, whenever it happens, keeps rows valid, and only continues them if and only if the guard still holds |
| DailyPlay.DailyStore.ImportResults | src/daily/daily.service.ts:230-283 | existing rows are kept, each new row is the first valid finished play of its puzzle, every such puzzle gets one, and the count is the number of new rows |
| Playtime.WindowsAreAdditive | src/playtime/playtime-history.service.ts:71-79 | totals of adjacent windows add up |
| Playtime.RisesMinusFalls | src/playtime/playtime-history.service.ts:52-75 | over consecutive samples rises minus falls is the net change |
| Playtime.PeriodTotalMeaning | src/playtime/playtime-history.service.ts:49-98 | a period total is the last sample minus the baseline (or the first sample in the window) plus all decreases inside |
| Playtime.QueryMeaning | src/playtime/playtime-history.service.ts:48-98 | the query returns exactly the user's series that pass the filters and have a sample in the window, each with its period total; for any other series that passes, the total is zero |
| Playtime.QueriesAreAdditive | src/playtime/playtime-history.service.ts:48-98 | splitting the period of a query at any date and adding the two answers gives the answer for the whole |
| Playtime.FiltersOnlySelect | src/playtime/playtime-history.service.ts:48-98 | a filter only selects series: what is returned for one is what the query without filters returns |
| Playtime.TelescopesExactly | src/playtime/playtime-history.service.ts:49-98 | it is that net change if and only if no sample in the window is below its predecessor |
| Playtime.SavingKeepsClosedWindows | src/playtime/playtime-history.service.ts:101-107 | saving a sample never changes a window that ended before it |
| Playtime.NewestSampleAddsRise | src/playtime/playtime-history.service.ts:71-107 | a newest sample adds its rise to the windows that contain it |
| Playtime.PlaytimeHistory.Save | src/playtime/playtime-history.service.ts:101-107 | exactly one row is added, under the observation time |

## Left out

- Queues, cron, Redis, logging and diagnostics: a published job is an arbitrary later step.
- `recordSuccess` and `recordSuppression` of the relay: nothing calls them.
- Payload validation and the text of errors: a failure kind (ordinary or poison) is an arbitrary input of the failure step.
- Profile lookup, avatars, HTML detection and the text of excerpts: previews and targets are opaque values.
- Grouping keys and dates as strings: a key is the tuple of its parts, and the UTC day is the quotient by 86 400 000 ms.
- The base64 form of the cursor: a cursor is its user, time and id.
- Limits of the clock inside one transaction: the lease is compared with the time at the start, and completion with a possibly later time.
- `invalidateCollection`: it hides items of several roots, which the protocol step `InvalidateContent` allows for any set of roots; its query is not modelled.
- Unread counts and the presentation of actors in `findAll`.
- Game targets, `ensureStatisticsTarget` replay, first-like credit and view recording in the statistics module.
- StatisticsTargets.TargetStore.LowerGauges: engagement rows are unique per target and user, so the per-target count of the batch is always one and is not modelled as a number.
- Metric computation, `achievement_progress`, event status and the feed activity: values are arbitrary inputs, and loading any published definition is allowed, so the proofs cover more runs than the service has.
- Criteria, window and icon checks of `validateDefinition`: an edit may succeed whatever they say; only the tier checks are modelled.
- Achievements.EditKeepsLedger: each admin operation is one step; its read and its transaction are not interleaved with other admin operations.
- Profile deletion in the achievement ledger.
- Levels.Process: exp and multiplier are exact integers; the floating-point multiplier and column rounding are not modelled.
- Image tokens, image fetching, puzzle publication and `finishedAt` in the daily module.
- DailyPlay.CompletingEqualsWholePlay: it is about calls of one user and puzzle that do not overlap; overlapping ones are the subject of DailyPlay.OverlapsContinueExactly.
- Redaction.RedactedItemsStayBacked: runs that delete a profile are left to Redaction.RemovalBreaksExactly, which is about that one step.
- Achievements.AchievementStore.BackfillAll: nothing else happens between the batches; what any interleaving keeps is Achievements.LedgerHoldsAlways.
- Playtime sources and platforms are integers; the SQL aggregate is modelled as a function of the set of rows.
