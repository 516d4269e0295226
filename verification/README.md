# Verified model of the oil agent

This project models the parts of the oil agent that must not go wrong quietly and proves what they promise, in Dafny.
`dafny verify dfyconfig.toml` checks everything.

- **Delivery outbox.** `SendOutcome` walks through one send attempt and says what its verdict proves about the
  platform; `DeliveryOutbox` is the delivery table with fenced leases; `DeliveryProtocol` puts both into one system of
  workers, network and platform and proves at-most-once acceptance.
- **Budgets and permissions.** `PermissionLedger` holds scopes, counters and provider calls; `LockOrder` the locks of
  concurrent transactions; `C1Ledger` the wire observations, the two timed messages and the status checker.
- **Evidence pipeline.** `SourceBatches` (paging, revisions, checkpoints), `Replay`, `RecordLeases`, `Decisions`,
  `Notifications` and `DecisionStore` (optimistic versions with their intents), `ReportLease`.
- **Assessment and report.** `Contracts`, `Revisions`, `FragmentView`, `OccurrenceView`, `Rules`, `Assessment`,
  `EventValidity`, and `AssessedVersions` for assessments that are committed; the report as functions in `ReportDraft`,
  its loops in `ReportService`, its promises in `ReportProofs`, `ReportQuotes` and `QuoteMetrics`, and those
  about EIA closes in `EiaCloses`, `EiaOrder` and `EiaMetrics`.
- **Text algorithms.** `EventStream` (event-stream frames), `JsonText` (a JSON grammar with a writer) and `JsonSplice`.

Code that changes state is a class or a method with its loops, proved equal to a function of the old state; the results
over runs are lemmas about those functions.

## What is taken as given

- A transaction is atomic; a rejected one restores every table. Skip-locked queries pick any subset of what they could
  pick, so the rows a query selects are a parameter. The clock never runs backwards. New IDs are fresh, and digests,
  fingerprints and name-based UUIDs are injective, so each is represented by what it was taken of.
- The platform is the environment. A connect or pool failure means that nothing arrived; a well-formed reply below 500
  that is no redirect and whose integer code is neither 0 nor 230049 means that the message was rejected; everything
  else may have been accepted. A channel's `accepted_at` and the repository clock are one clock.
- Live-grant checks, recipient and readiness gates, user lists and configuration are parameters of the transaction that
  reads them, and may differ each time.
- Literal word matching, wording cues, case folding, JSON decoding of provider messages, the observation check and the
  reading of an EIA excerpt are function parameters, unrestricted unless a contract says so.

## Where the code says more, or less, than its documentation

- The evidence regression guard keeps only the last citation of each record of the previous version. `GuardExact` gives
  the exact condition under which that protects every citation. Every event an assessment builds meets it
  (`NoCitationMovesBack`); `AnotherProducerMovesBack` is a run of another producer's that does not.
- The member splice inserts a stray comma into an empty object that white space precedes; its caller's re-parse refuses
  the result (`SpliceMeaning`, `BindPrivateField`).
- An assessment whose reviews and rules match their records fails, in the event validator, exactly when two quotable
  latest records of different families meet in one event under one record ID (`ConstructedIffNoTwins`, `TwinsExist`).
- The page loop of the Jin10 source compares a next offset with the current one and with those it moved on to, so the
  offset it started from can come back (`NothingAskedTwice`, `StartComesBack`); the page limit bounds the loop.
- The event-stream reader strips every leading space of a data line, where section 9.2 of the HTML Living Standard
  removes one (`ReadsAsStandard`, `SecondSpaceDropped`).
- Whether a report is built can depend on the order of its observations: a higher revision between two contents of a
  lower one hides their clash (`EveryOrderBuilds`, `HiddenClash`). What a built report shows of quote changes does not.
- The daily change of an EIA series is taken within one day when two closes share the newest time and period
  (`CloseChangeMeans`, `OneDayTwice`).
- The input order of the records decides that change exactly when two unequal closes of one time and period have fewer
  than two later closes (`OrderMattersIffContested`, `InputOrderDecides`; for whole reports
  `RecordOrderMattersIffContested`).
- The change cites for each of its two closes the last record of the series with its record ID, which is another one when
  IDs are shared between families: the newest close can be cited twice and the one it is compared with never
  (`CitesComparedIffLast`, `SharedIdCitesOne`).
- A finished task reports completion without looking at the block again, so a stop in between gives a report its own
  checker refuses (`CompletedChecked`, `StoppedAfterCompletion`).
- The exercise lane locks its delivery, its approval and the app's approval in this order, the status lane the other way
  round. They never wait for each other while their approvals and deliveries are their own (`LanesWaitIffCrossed`).

## Model

| member | source | states |
|---|---|---|
| `SendOutcome.Request` | src/oil_agent/channels/common.py:148-199 | One HTTP attempt sends at most once; it reports `may_have_arrived` as false only if nothing the platform could have taken left, hands a complete reply on exactly when nothing interrupted it, and the recorder sees a start before at most one end. |
| `SendOutcome.Send` | src/oil_agent/channels/feishu.py:129-232 | A verdict is sound: accepted only on a reply that proves acceptance, a failure only if the platform cannot have taken the message, and everything else that may have arrived is unknown. |
| `SendOutcome.ClassifyReply` | src/oil_agent/channels/feishu.py:148-232 | Accepted exactly on an accepting reply, failed exactly on a reply that proves rejection (below 500, not a redirect, an integer code other than 0 and 230049). |
| `SendOutcome.Deliver` | src/oil_agent/runtime/service.py:321-393 | One claim of the send loop ends in a verdict the platform's behaviour backs, under the outer deadline, the budget check, the dry-run lane and the bounded-attempts lanes. |
| `DeliveryOutbox.DeliveryRepository.ClaimDeliveries` | src/oil_agent/storage/delivery.py:315-373 | Every selected row gets a lease, a fresh token and one more attempt if its grant is live, and fails for good otherwise; no other row changes. |
| `DeliveryOutbox.DeliveryRepository.FinishDelivery` | src/oil_agent/storage/delivery.py:389-432 | A result is stored exactly when its lease is live, it reports its own claim and a dry run does not claim acceptance; otherwise nothing changes and the error says which. |
| `DeliveryOutbox.DeliveryRepository.RecoverDeliveries` | src/oil_agent/storage/delivery.py:434-453 | Exactly the selected expired leases become unknown. |
| `DeliveryOutbox.DeliveryRepository.Acknowledge` | src/oil_agent/storage/delivery.py:455-522 | Exactly when an acknowledgement is answered: by the very active user, in a live session of its own if in any, for a granted delivery named exactly, within 300 seconds, and either as it was stored or for a delivered row; an accepted row becomes acknowledged and nothing else changes. |
| `DeliveryProtocol.AtMostOnce` | src/oil_agent/storage/delivery.py:315-453 | In every interleaving of workers, crashes, late results, recovery and acknowledgement the platform takes one delivery's message at most once, exactly once for an accepted or acknowledged row and never for a row that promises absence; a row whose message is on its way or taken is never pending or retryable. |
| `DeliveryProtocol.NeverResent` | src/oil_agent/storage/delivery.py:349-453 | Once the message was taken, no continuation makes the row sendable or raises its attempt. |
| `DeliveryProtocol.RowsFollow` | src/oil_agent/storage/delivery.py:349-453 | The only state changes a step can make; a leased row changes before expiry only by the result of the token that holds the lease. |
| `DeliveryProtocol.TerminalStays` | src/oil_agent/storage/delivery.py:389-453 | Unknown, finally failed, dry-run and acknowledged rows stay so for ever. |
| `DeliveryProtocol.FinitelyManyClaims` | src/oil_agent/storage/delivery.py:349-373 | A delivery is claimed at most three times in any run, and a claimable row has attempts left. |
| `DeliveryProtocol.CanStillDeliver` | src/oil_agent/storage/delivery.py:315-432 | At most once is not never: in every reachable state a row that may still be sent can be delivered, with exactly one acceptance. |
| `DeliveryProtocol.ClaimBatchIsSteps` | src/oil_agent/storage/delivery.py:359-373 | A claimed batch is a run of the protocol's single claims. |
| `DeliveryProtocol.RecoverBatchIsSteps` | src/oil_agent/storage/delivery.py:434-453 | A recovered batch is a run of the protocol's single recoveries. |
| `PermissionLedger.Bind` | src/oil_agent/storage/permissions.py:37-49 | A scope is granted exactly when it is active, and stored, if at all, with the same terms and not blocked. |
| `PermissionLedger.ChargeAllMeans` | src/oil_agent/storage/permissions.py:104-115 | Charging several distinct counters succeeds exactly when each has room, and then each grows by its own amount and no other changes. |
| `PermissionLedger.ReserveGranted` | src/oil_agent/storage/permissions.py:51-128 | Exactly when a reservation is granted: valid input, an unaltered, unblocked, active scope, and room in every counter it names. |
| `PermissionLedger.CountersMatchCalls` | src/oil_agent/storage/permissions.py:51-150 | Over every run of reservations, charges, usage reports and stops, an approval's request counter equals its stored calls and its token counter the tokens its model calls reserved, both within its scope. |
| `PermissionLedger.ScopeStep` | src/oil_agent/storage/permissions.py:129-150 | No operation changes a bound scope's terms, lifts a block or gives a blocked scope another call. |
| `PermissionLedger.BlockedStaysBlocked` | src/oil_agent/storage/permissions.py:37-49 | The same over every run. |
| `PermissionLedger.UrgentReserveHeld` | src/oil_agent/storage/operations.py:26-39 | With fixed daily limits, ordinary work never eats the urgent reserve: over every run an urgent amount is refused only when urgent work itself, with that amount, passes min(limit, reserve); for single requests and for token reservations alike. |
| `PermissionLedger.PermissionRepository.ReserveProviderCall` | src/oil_agent/storage/permissions.py:51-127 | Every counter or none; the new call's ID is fresh; a rejection changes no table and names its error. |
| `PermissionLedger.PermissionRepository.RecordModelUsage` | src/oil_agent/storage/permissions.py:129-150 | A usage report is stored once, a different second one rejected, and an overrun blocks the scope. |
| `PermissionLedger.PermissionRepository.StopScope` | src/oil_agent/storage/c1.py:311-325 | An unknown scope is stored blocked; a known one must have the same terms. |
| `PermissionLedger.PermissionRepository.ChargeBudget` | src/oil_agent/storage/operations.py:26-39 | One unit of one daily counter within its limit less the reserve, or quota exhausted and no change. |
| `LockOrder.PlansOrdered` | src/oil_agent/storage/decisions.py:139-151 | Reservations, also those of the exercise and status lanes, their messages, results and acknowledgements, usage reports, stops, charges, assessment commits, record failures and deferrals take their locks in one global order, for any levels that put each lane's approvals and delivery in the order that lane locks them. |
| `LockOrder.LanesWaitIffCrossed` | src/oil_agent/storage/c1.py:341-391 | Exactly when an exercise send and a status send can come to wait for each other: when they bind both approvals in the same roles, or lock one delivery and share an approval. |
| `LockOrder.SomeoneProceeds` | src/oil_agent/storage/base.py:31-34 | Whatever locks any transactions hold, one of them can proceed: no cyclic wait. |
| `LockOrder.OperationsFinish` | src/oil_agent/storage/permissions.py:70-105 | Any set of such operations started together can all end. |
| `LockOrder.StepKeepsExclusive` | src/oil_agent/storage/ingestion.py:209-225 | Taking a free lock or ending a transaction keeps every lock exclusive and uses up work, so no schedule runs for ever. |
| `Decisions.GuardExact` | src/oil_agent/storage/decisions.py:191-201 | Exactly when the regression guard protects every citation of the previous version: when each record's last citation there is its newest. |
| `Decisions.CitedOnce` | src/oil_agent/storage/decisions.py:191-201 | A previous version that cites each record in one revision only is protected. |
| `Decisions.OlderAfterNewer` | src/oil_agent/storage/decisions.py:191-201 | A previous version that cites one record at revision 2 and then 1 lets the next one cite revision 1. |
| `AssessedVersions.ValidCitesOnce` | src/oil_agent/contracts/dto.py:296-313 | The event validator with one reference for each supporting record leaves every record cited once, so the guard protects it. |
| `AssessedVersions.NoCitationMovesBack` | src/oil_agent/intelligence/assessment.py:380-430 | Over every run whose candidates come from assessments, no record cited by two consecutive versions moves to an older revision. |
| `AssessedVersions.ValidatorAllowsIt` | src/oil_agent/contracts/dto.py:296-313 | The event validator accepts an event that cites its record twice, as the producer of the run below does. |
| `AssessedVersions.AnotherProducerMovesBack` | src/oil_agent/storage/decisions.py:159-226 | A run in which a producer other than the assessment, citing one record twice, gets two versions stored of which the second cites an older revision. |
| `Decisions.VersionsForm` | src/oil_agent/storage/decisions.py:159-226 | Over every run a family's versions are exactly 1 to its current revision, each supersedes its predecessor, decides something else and passes the guard. |
| `Decisions.SnapshotFresh` | src/oil_agent/storage/decisions.py:147-166 | A version stored under a snapshot supersedes exactly the head the snapshot read, with no version in between, and cites only what the claims and that head cite. |
| `Decisions.RunsQualify` | src/oil_agent/storage/decisions.py:35-74 | Every run reaches states for which the snapshot result holds; stored versions and intents never change and revisions never go back. |
| `Decisions.RecommitUnchanged` | src/oil_agent/storage/decisions.py:195-204 | Committing the same decisions again adds no version and no intent, whatever users, gates and snapshot are by then and whatever ran in between, as long as each family's head is the one the first commit left or carries the decision again. |
| `Decisions.OthersKeepHead` | src/oil_agent/storage/decisions.py:147-226 | A run of ingests, reminders and commits of other families leaves a family's head as it was. |
| `Decisions.EarliestIntentQualified` | src/oil_agent/storage/delivery.py:89-160 | The earliest intent any recipient has for an event is a first report or update of an occurred, non-routine version with reliable evidence, so corrections, withdrawals and reminders follow such an intent. |
| `Decisions.IntentsUnique` | src/oil_agent/storage/delivery.py:184-195 | No subject, revision, recipient, kind and channel get two intents. |
| `Notifications.NotifyAdds` | src/oil_agent/storage/delivery.py:115-160 | What one version may add: intents of that very version, kind and channel, each to a user it must notify and the live gate allows. |
| `Notifications.NotifyReaches` | src/oil_agent/storage/delivery.py:115-160 | Everyone to be notified is, unless a gate rejects the whole transaction, and exactly when one does. |
| `Notifications.RemindAdds` | src/oil_agent/storage/operations.py:89-143 | A reminder concerns the current revision, follows a delivered intent of the same version and recipient, and is the first of that version. |
| `DecisionStore.DecisionRepository.PrepareAssessment` | src/oil_agent/storage/decisions.py:35-74 | The captured heads and allowed evidence of every candidate family, or the error that refuses them. |
| `DecisionStore.DecisionRepository.CommitAssessments` | src/oil_agent/storage/decisions.py:131-231 | All candidates or none; every answer is its family's head. |
| `DecisionStore.DecisionRepository.CommitCandidate` | src/oil_agent/storage/decisions.py:159-226 | One candidate is answered with the head or stored as the next version. |
| `DecisionStore.DecisionRepository.CreateNotifications` | src/oil_agent/storage/delivery.py:89-160 | The grants and intents of one version, or a rejection. |
| `DecisionStore.DecisionRepository.AddIntentRow` | src/oil_agent/storage/delivery.py:162-254 | The live-channel gate, then at most one row per business key. |
| `DecisionStore.DecisionRepository.CreateDueReminders` | src/oil_agent/storage/operations.py:74-143 | The due reminders in grant order and how many they are, or none at all. |
| `ReportLease.CommittedAtMostOnce` | src/oil_agent/storage/decisions.py:256-285 | Over every run of any builders a report identity is committed at most once. |
| `ReportLease.OneBuilder` | src/oil_agent/storage/decisions.py:233-254 | While a build lease is live one token alone can commit and nobody gets another. |
| `ReportLease.StaleForever` | src/oil_agent/storage/decisions.py:258-265 | A token that does not hold now never holds again and changes nothing. |
| `ReportLease.ReportRepository.ReserveReport` | src/oil_agent/storage/decisions.py:233-254 | A fresh token exactly for a report not stored and not being built. |
| `ReportLease.ReportRepository.CommitReport` | src/oil_agent/storage/decisions.py:256-285 | A commit succeeds exactly under the live lease with an acceptable report, and frees it. |
| `RecordLeases.AttemptsBounded` | src/oil_agent/storage/ingestion.py:169-265 | Attempts are claims minus budget deferrals and never above 3, a pending row has attempts left, and apart from deferrals a row is claimed at most 3 times. |
| `RecordLeases.OneHolder` | src/oil_agent/storage/ingestion.py:209-225 | Two live claims share a token exactly when they are for the same row. |
| `RecordLeases.StaleForever` | src/oil_agent/storage/ingestion.py:217-223 | A claim that is not live never becomes live again. |
| `RecordLeases.StaleChangesNothing` | src/oil_agent/storage/ingestion.py:209-248 | With one stale claim in a batch nothing changes at all. |
| `RecordLeases.TerminalStays` | src/oil_agent/storage/ingestion.py:227-265 | Done, failed and quarantined rows are never touched again. |
| `RecordLeases.RecordRepository.ClaimRecords` | src/oil_agent/storage/ingestion.py:191-207 | The selected rows in order up to the character bound, each with a fresh token. |
| `RecordLeases.RecordRepository.LockClaims` | src/oil_agent/storage/ingestion.py:209-225 | Accepts exactly the batches whose claims are all live. |
| `RecordLeases.RecordRepository.EndRecords` | src/oil_agent/storage/ingestion.py:227-248 | How a batch of live claims ends (processed, failed, deferred), all rows or none. |
| `RecordLeases.RecordRepository.RecoverRecords` | src/oil_agent/storage/ingestion.py:250-265 | Exactly the selected expired leases are freed. |
| `SourceBatches.FetchPages` | src/oil_agent/ingestion/jin10.py:176-236 | The page loop succeeds exactly when every page up to the first without more, or the page limit, stays within bounds, agrees on each external ID and announces a new usable offset; it then has exactly the items of those pages, each external ID once. |
| `SourceBatches.NothingAskedTwice` | src/oil_agent/ingestion/jin10.py:176-236 | Exactly when a successful fetch asks for no offset twice: when none of the pages it moved on from leads back to the offset it started with. |
| `SourceBatches.StartComesBack` | src/oil_agent/ingestion/jin10.py:221-236 | Pages that lead from offset "a" to "b" and back to "a" are accepted. |
| `SourceBatches.RevisionsContiguous` | src/oil_agent/ingestion/jin10.py:237-272 | With any concurrent fetch and commit cycles an item's committed revisions are exactly 1 to its latest, and adjacent ones differ in content, title, excerpt, link or time. |
| `SourceBatches.HistoryImmutable` | src/oil_agent/storage/ingestion.py:80-152 | Stored revisions never change and the durable watermark never moves backwards. |
| `SourceBatches.SourceRepository.PersistBatch` | src/oil_agent/storage/ingestion.py:132-152 | Compare-and-swap of the checkpoint with every record or none, and how many were new. |
| `Replay.Deduplicate` | src/oil_agent/ingestion/replay.py:35-56 | Accepts exactly the consistent inputs and keeps every revision at its first arrival. |
| `Replay.CorpusHolds` | src/oil_agent/ingestion/replay.py:52-56 | The corpus holds the input's records, all of them, each revision once. |
| `Replay.ReplayIsComplete` | src/oil_agent/ingestion/replay.py:64-123 | Replaying from no cursor hands out the whole corpus once, in arrival order, within one fetch per page_size * max_pages records. |
| `Replay.CursorSurvivesAppend` | src/oil_agent/ingestion/replay.py:61-82 | A checkpoint issued for a corpus is accepted, and resumes at the same place, after records are appended. |
| `Replay.AcceptedCursorMatches` | src/oil_agent/ingestion/replay.py:71-123 | Whatever a corpus accepts to start from (no checkpoint, one without a cursor, or one with), what it says was handed out and what replaying from it hands out are together exactly the corpus. |
| `Replay.WatermarkIsLatest` | src/oil_agent/ingestion/replay.py:95-97 | The watermark is the latest publication handed out and never below the cursor's. |
| `Replay.ReplaySource.Fetch` | src/oil_agent/ingestion/replay.py:64-123 | One fetch: the next records, marked if dated in the future, the checkpoint after them, and the pages read. |
| `Assessment.OccurredOnlyIfProposed` | src/oil_agent/intelligence/assessment.py:105-151 | Occurrence is never established by the guard: it survives exactly when it is proposed and no cue, date or denial speaks against it. |
| `Assessment.ClaimsNeverChangeSeverity` | src/oil_agent/intelligence/assessment.py:275-430 | For the same records, reviews and rules, any two maps of model claims give the same events with the same severities, or the same rejection, before the events are constructed. |
| `EventValidity.ClaimsNeverChangeAnswer` | src/oil_agent/intelligence/assessment.py:275-430 | The same through construction and its validation, for claims filed under the record they quote, as extraction files them. |
| `Assessment.SeverityEarned` | src/oil_agent/intelligence/assessment.py:319-380 | A severity above routine means the event occurred, is not conflicting, and every supporting record is vouched for by a review or an approved rule. |
| `EventValidity.ValidIffNoTwins` | src/oil_agent/contracts/dto.py:296-313 | An assessed event passes its validator exactly when no two quotable latest records of different families are matched to it under one record ID. |
| `EventValidity.AssessedIffMatched` | src/oil_agent/intelligence/assessment.py:298-328 | Every record gets its verdict exactly when each review or rule that decides about a quotable latest record was made of it and quotes it. |
| `EventValidity.ConstructedIffNoTwins` | src/oil_agent/intelligence/assessment.py:279-328 | An assessment is answered exactly when that holds and no two quotable latest records of different families meet in one event under one record ID. |
| `EventValidity.SharedIdInvalid` | src/oil_agent/intelligence/assessment.py:284-286 | Two acceptable records of different families and revisions with one record ID, matched to one event: assessed to one event, which the constructor refuses. |
| `EventValidity.TwinsExist` | src/oil_agent/intelligence/evidence.py:10-27 | Two such records, written out. |
| `Assessment.ChooseAssertion` | src/oil_agent/intelligence/assessment.py:292-331 | Review over rule over claim, with the errors for mismatched evidence. |
| `Assessment.Downgrade` | src/oil_agent/intelligence/assessment.py:332-357 | The guarded status and the downgrades of anything unverified, old or not occurred. |
| `Assessment.Validate` | src/oil_agent/intelligence/assessment.py:275-430 | The nested loops, with the construction of each event, compute the answer the results above are about. |
| `OccurrenceView.OccurrenceContext` | src/oil_agent/intelligence/rules.py:143-161 | The in-place overwriting pass computes the view. |
| `OccurrenceView.DenialLanguage` | src/oil_agent/intelligence/rules.py:152-156 | The blanked fragments are exactly the words of the denial grammar with white space around them. |
| `OccurrenceView.ContextKeeps` | src/oil_agent/intelligence/rules.py:143-161 | Length and every delimiter are kept and nothing is written but spaces. |
| `OccurrenceView.ContextIdempotent` | src/oil_agent/intelligence/rules.py:143-161 | Blanking twice changes nothing more. |
| `OccurrenceView.ContextSplits` | src/oil_agent/intelligence/rules.py:143-161 | The view distributes over concatenation at any delimiter. |
| `FragmentView.PartView` | src/oil_agent/intelligence/rules.py:151-160 | The view of a part cut at delimiters and trimmed is its part of the view of the whole, for any fragment predicate that ignores outer white space. |
| `Rules.ClauseViewAgrees` | src/oil_agent/intelligence/rules.py:248-274 | The per-clause view of the search is that clause's part of the view of the excerpt and of title and excerpt together. |
| `Rules.Match` | src/oil_agent/intelligence/rules.py:236-300 | Something is returned exactly when one (rule, clause) pair qualifies, and then it is that pair's match. |
| `Rules.MatchReferenceValid` | src/oil_agent/intelligence/evidence.py:30-34 | A match's excerpt is a nonblank part of its record, so reference validation accepts it. |
| `Contracts.IndexRecords` | src/oil_agent/intelligence/evidence.py:10-27 | The indexing loop accepts exactly the inputs whose records are verified and whose identities never clash. |
| `Revisions.LatestIsNewest` | src/oil_agent/intelligence/assessment.py:279-283 | One record per family, from the input, with the family's highest revision. |
| `Revisions.LatestRevisions` | src/oil_agent/reporting/service.py:165-172 | The selection loop over known records computes the latest revisions. |
| `ReportService.BuildReport` | src/oil_agent/reporting/service.py:149-538 | The whole build: input checks, selection loops and the accumulating loops give exactly the specified draft or error. |
| `ReportService.SnapshotReport.Enter` | src/oil_agent/reporting/service.py:187-192 | An entry is numbered once and keeps its number. |
| `ReportService.SnapshotReport.EventBody` | src/oil_agent/reporting/service.py:213-312 | What one event adds: facts, citations, conditional impacts and items to watch, or nothing if its evidence is unavailable. |
| `ReportService.SnapshotReport.Observations` | src/oil_agent/reporting/service.py:344-395 | Statistical values and uncomparable quotes are shown, comparable quotes grouped. |
| `ReportService.SnapshotReport.GroupBody` | src/oil_agent/reporting/service.py:397-468 | What one group of like-for-like quotes adds. |
| `EiaCloses.CloseChangeMeans` | src/oil_agent/intelligence/price_alert.py:93-163 | The change of an EIA series is taken between the closes of its two last places in time, period and input order: from the nearest strictly earlier time and period, exactly unless two closes share the newest, and then from another of those; there is none exactly when there are fewer than two closes or the earlier is zero. |
| `EiaCloses.OneDayTwice` | src/oil_agent/intelligence/price_alert.py:93-107 | Two closes of one time and period, with nothing else: the change is taken between them. |
| `EiaCloses.SeriesShows` | src/oil_agent/reporting/service.py:474-538 | What a series shows: nothing without a change, and otherwise the newest close and its value less the earlier one, citing for each the last record of the series with its ID, exactly when both of those can be quoted. |
| `EiaCloses.CitesComparedIffLast` | src/oil_agent/reporting/service.py:486-498 | For indexable records, a shown change cites the two closes it was computed from exactly when each is the last record of the series with its ID. |
| `EiaCloses.SharedIdCitesOne` | src/oil_agent/reporting/service.py:486-498 | Two indexable closes of different families and revisions under one record ID: the change is taken between them and cites the newer one twice. |
| `EiaOrder.OrderMattersIffContested` | src/oil_agent/intelligence/price_alert.py:93-107 | The change of a series is the same for every order of its records exactly when no two unequal closes of one time and period have fewer than two later closes. |
| `EiaOrder.InputOrderDecides` | src/oil_agent/intelligence/price_alert.py:93-107 | Two unequal closes of one time and period in front of a later one: each order of the two gives another change. |
| `EiaMetrics.RecordOrderMattersIffContested` | src/oil_agent/reporting/service.py:165-182 | The EIA changes of a report that is built are the same for every order of its source records exactly when no series of usable latest revisions has two such closes. |
| `EiaMetrics.EveryOrderBuilds` | src/oil_agent/reporting/service.py:149-182 | A report that is built is built for every order of its source records. |
| `ReportService.SnapshotReport.SeriesBody` | src/oil_agent/reporting/service.py:474-538 | The body of the loop over series adds what the results about EIA closes above describe. |
| `ReportService.CurrentEvents` | src/oil_agent/reporting/service.py:199-212 | The highest revision of each event assessed by the cutoff, or a conflict. |
| `ReportService.KeptObservations` | src/oil_agent/reporting/service.py:313-343 | The highest accepted revision of each observation, or a conflict. |
| `ReportProofs.LateDataChangesNothing` | src/oil_agent/reporting/service.py:163-212 | Snapshots that agree on what was known at the cutoff give the same evidence and numbering, facts, metrics, analysis and watch items, or are rejected alike. |
| `ReportProofs.LateAdditionsChangeNothing` | src/oil_agent/reporting/service.py:313-343 | So does a snapshot to which nothing was added, anywhere, but records discovered, events assessed and observations dated or published after the cutoff. |
| `ReportProofs.ReportValid` | src/oil_agent/contracts/dto.py:519-528 | Every built report passes its validator with its sorted list of evidence IDs, and every `evidence=#k` names the k-th entry. |
| `ReportProofs.CitationsAreLatest` | src/oil_agent/reporting/service.py:165-182 | Every cited record is the latest revision of its family known at the cutoff, and usable then. |
| `ReportQuotes.ChangeMeans` | src/oil_agent/reporting/service.py:396-434 | A change is reported exactly when the newest quote is current, an earlier one exists and neither time is contested, and is the newest value minus that of the nearest strictly earlier time. |
| `ReportQuotes.SortForgetsOrder` | src/oil_agent/reporting/service.py:397-399 | The input order of a group's quotes does not matter. |
| `QuoteMetrics.QuoteChangesShown` | src/oil_agent/reporting/service.py:344-468 | A built report has exactly one quote-change metric for each comparison key with quotes in force, right in terms that know no order, and none for any other key. |
| `QuoteMetrics.InputOrderChangesNothing` | src/oil_agent/reporting/service.py:332-468 | If a report is built for two orders of its observations, their quote-change metrics are equal. |
| `QuoteMetrics.EveryOrderBuilds` | src/oil_agent/reporting/service.py:332-342 | Exactly when a report that is built is built for every order of its observations: when no accepted revision of an observation has two contents. |
| `QuoteMetrics.HiddenClash` | src/oil_agent/reporting/service.py:332-342 | Two contents of one revision are refused next to each other and accepted with a higher revision between them. |
| `QuoteMetrics.HiddenClashDecides` | src/oil_agent/reporting/service.py:332-342 | With such observations an otherwise acceptable request is built in one order and refused in another. |
| `C1Ledger.CountsAlwaysPass` | src/oil_agent/storage/c1.py:245-309 | In every reachable state the request counts pass the bounds and relations both checkers ask for. |
| `C1Ledger.CountsPass` | src/oil_agent/runtime/status_local.py:74-85 | Orderly observations of at most 20 reservations always give valid counts. |
| `C1Ledger.CompletedKeepsDistance` | src/oil_agent/storage/c1.py:209-223 | A state reported as completed has its second acceptance at least 120 seconds after its first. |
| `C1Ledger.CompletedChecked` | src/oil_agent/runtime/c1_runner.py:72-134 | The checker accepts a state reported as completed, by its rows or by a task that saw the second acceptance, exactly when the approval is not blocked by then and the two provider message IDs are distinct and well-formed. |
| `C1Ledger.StoppedAfterCompletion` | src/oil_agent/runtime/c1_runner.py:149-239 | A run whose task reports completion after a stop: the checker refuses it although the message IDs are distinct and well-formed. |
| `C1Ledger.ObservationRepository.ObserveRequest` | src/oil_agent/storage/c1.py:245-285 | Which observations are stored, ignored or rejected as out of order. |
| `C1Ledger.ObservationRepository.RequestStatus` | src/oil_agent/storage/c1.py:287-309 | The audit rows of an approval's reservations, sorted into phases and counted. |
| `EventStream.FramesGrow` | src/oil_agent/ingestion/mcp.py:49-52 | The complete frames of any byte prefix are a prefix of the frames of the whole stream, also when a CRLF is split. |
| `EventStream.FramesOfEncode` | src/oil_agent/ingestion/mcp.py:49-52 | Encoded frames are read back as they were. |
| `EventStream.SseResponse` | src/oil_agent/ingestion/mcp.py:49-72 | The reader's loop: at most one matching response, and every rejected stream. |
| `EventStream.ReadsAsStandard` | src/oil_agent/ingestion/mcp.py:56 | The data lines are read as section 9.2 of the HTML Living Standard reads them exactly when none has a second leading space. |
| `EventStream.SecondSpaceDropped` | src/oil_agent/ingestion/mcp.py:56 | A line with two leading spaces: the standard keeps one, the reader none. |
| `EventStream.EarlyStopSound` | src/oil_agent/ingestion/mcp.py:106-112 | If a prefix yields the response, every longer stream yields it or is rejected; a rejected prefix stays rejected. |
| `EventStream.Receive` | src/oil_agent/ingestion/http.py:144-156 | The receive loop stops early only with the response in hand, and what it read decides the same response as the whole stream. |
| `JsonText.DumpScans` | src/oil_agent/runtime/c1_private.py:239-251 | A value written out is read back as that value. |
| `JsonSplice.SpliceMeaning` | src/oil_agent/runtime/c1_private.py:228-268 | The edited text parses to the same object with only that top-level member set, exactly when the text starts with its brace or the object is not empty. |
| `JsonSplice.ReplaceBlankMember` | src/oil_agent/runtime/c1_private.py:228-268 | The cursor loop ends, refuses exactly a field that is not allowed or is taken, and otherwise replaces exactly the span that held null or nothing. |
| `JsonSplice.OthersKept` | src/oil_agent/runtime/c1_private.py:301-304 | The re-check of all other members passes for a meaningful splice. |
| `JsonSplice.BindPrivateField` | src/oil_agent/runtime/c1_private.py:283-304 | The update with its re-parse and comparison succeeds exactly when the field is free and the text is not a blank-led empty object. |
| `JsonSplice.BlankLedEmptyObject` | src/oil_agent/runtime/c1_private.py:243-244 | The smallest text that would get a stray comma. |

## Left out

- FastAPI routes, pages, command lines, container and power-state code, and real HTTP, DNS, TLS and OAuth: plumbing;
  only the success and failure classes the channel branches on are kept.
- Long configuration validators, spreadsheet reading and schema validation: conjunctions and foreign parsers.
- Exact decimal rounding: market values are exact rationals, and the percentage shown for an EIA change is not modelled.
- The bounds and deadline checks of `assess`.
- The extraction call to a model, its budget and cache: `Assessment` takes any map of claims.
- The locks of ingestion batches, report builds, reminders, logins, preview imports and observations: `LockOrder` is about
  the ledger, the deliveries and the assessments.
- Reminders and notifications of reports, exercises and status messages: the notification results are about events.
- The status lane's dated delivery window: only its request counts are covered, by `CountsPass`.
- Audit rows other than request observations, health counters and log text.
- The record check of `_insert_record` for an external revision under another record ID: it cannot be reached after the
  family check.
- Decisions.EarliestIntentQualified: says which evidence the earliest intent rests on under a policy that never changes
  or, without that assumption, that the evidence is reliable under some policy, because the policy may change between
  versions.
- ReportProofs.LateDataChangesNothing: assumes that both snapshots stay within the size bounds and can be indexed,
  because a snapshot that breaks either is refused as a whole.
- C1Ledger.CompletedChecked: takes as given that a stored acceptance rests on a reply whose `responded` observation was
  recorded, which is what `SendOutcome.Request` ensures of an observed request.
- EiaMetrics.RecordOrderMattersIffContested: assumes that a record with an EIA close can be quoted, which holds because
  the close is read from its excerpt, and a blank excerpt is no JSON.
- Assessment.Validate: an event has no title, processing version, provenance label or dataset, because no verdict,
  severity or refusal depends on them.
- ReportService.BuildReport: the draft has no gaps and no provenance label, and a sentence is what it is about and the
  numbers it cites, because nothing else in a report depends on gaps, label or wording.
- EventValidity.ClaimsNeverChangeAnswer: assumes that references are filed under the record they quote, which extraction,
  review registration and the rule search ensure.
- DeliveryProtocol.AtMostOnce: says nothing of a platform that takes a request it has already answered.
