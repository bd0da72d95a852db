# Railway bridge defect priority: a verified model

This project models the persistence protocol, the rate limiter and the query layer of the
railway bridge defect priority service, and proves what they guarantee when any number of
requests interleave.

## What is modelled

**The versioned aggregates.** Bridges, inspection rounds, defects and priority decisions are
read, checked, written back under `WHERE id = ? AND version = ?`, audited and read again, each
in a statement of its own. Rules are checked on the row that was read, the whole row is written
back, and the swap compares the stored version with the version the *client* sent.

* `Lifecycle`, `Records`: the four transition graphs and the persisted records.
* `Tables`: one function per SQL statement or transaction on the database value.
* `Rules`: validation, guards, the row and the revision a permitted write stores.
* `Persistence`, `Services`, `Seeding`: the repositories, services and the seeding as classes
  whose methods overwrite their copy of the row field by field and then write it. Each service
  method is proved to do exactly what the function `Solo.Alone` says.
* `Machine`: the interleavings. A step is one statement of one request; requests carry a program
  counter and the row they read. `Solo.SoloRunIsAlone` shows that six steps of one request with
  nothing in between do what `Alone` says too. That the statements of a method are the machine's
  steps one by one is by inspection.
* `Answers`: for every call, exactly when it succeeds, which of several errors it meets, and what it
  leaves in rows, revisions and audit log, said without the functions that compute it.
* `Evolution`, `Safety`, `Commits`, `Exclusivity`, `Integrity`: what every run keeps, whatever
  versions clients claim.
* `Discipline`, `Serial`, `Fidelity`, `Decisions`, `Provenance`, `AuditFlow`: what holds when no
  write succeeds with a claimed version newer than the one its request read.
* `Finality`, `Deletion`, `Necessity`: exactly when a final decision stays, exactly when a delete
  acts on a draft, and how far the discipline of clients is needed.

**The rate limiter** (`RateLimit`): minute buckets with lazy eviction behind a Redis counter with
expiry, refined to counting entries of the full request log.

**The query layer** (`Listing`, `Summary`): paging, counts by status, and a summary of five
queries over a growing audit log.

## The hypotheses, and where the code falls short of its documentation

* The README of the system calls final priorities immutable. The code guarantees that exactly
  when no request in flight is a threat: one that has read an earlier draft, whose guards pass on
  that draft, and which either deletes or claims the live version (`Finality.FinalForever`).
  Requests that read the decision after it became final are harmless whatever they claim
  (`Finality.UnreadFinalStays`).
* No update or transition is a threat if, when the decision becomes final, no request in flight
  claims a version ahead of the one its own Get read (`Finality.HonestySparesFinal`). The other
  results that need clients to cooperate are about *honest* runs: no update or transition wins its
  swap with a claim ahead of its read (`Discipline.HonestWins`); requests that claim ahead and are
  refused or lose do no harm. Clients that send back a version some response showed them, as the
  frontend does at `frontend/src/stores/factory.ts:19`, make every run honest
  (`Discipline.EchoingClientsAreHonest`, `Discipline.HonestRunWinsHonestly`); a version counts as shown if a query at some earlier
  moment finds the live row at it, so the rows of a list response count
  (`Listing.ListedVersionsAreShown`) just as the rows of a Get or of the answer to a write
  (`Discipline.ResponsesAreShown`).
* The discipline is needed: for every read version and every newer claim there is a run in which
  no other request ever claims ahead and one stale write turns a final decision back into a
  draft; a claim that is not newer never does, from any start (`Necessity.DisciplineIsExact`).
* A decision's delete checks the status it read and then deletes by id without a version. In an
  honest run it finds a draft if and only if no transition of that decision commits between
  its row query and its write (`Deletion.DeleteInTimeExactly`), and the run is serialisable in
  commit order if and only if that holds of every delete (`Serial.RunsAreSerialisable`).
  `Deletion.FinalDecisionCanVanish` is a run in which it does not. Without any hypothesis a run is
  serialisable throughout if and only if every successful write fits the row it finds: its guards
  pass there, and an update read the live status, a transition the live fields
  (`Serial.SerialisableExactly`).
* The limiter's Redis counter expires two minutes after its last command. It counts every command
  of its minute if and only if no command finds it expired (`RateLimit.CountsAreExact`); each time
  one does, one more limit is admitted (`RateLimit.FailoverAdmitsPerLapse`). Commands that run
  within a minute of computing their key never do (`RateLimit.ExpiryUnobservable`); commands for
  one minute that run at minutes 0, 2 and 4 do (`RateLimit.LateCommandsAdmitMore`).

Modelling assumptions: one SQL statement or one transaction is atomic; a preload is a second
statement; soft-deleted rows are invisible but stay in the table and keep their codes; versions
and ids are natural numbers; times are natural numbers; input strings are taken after trimming
and upper-casing; fixed texts written by the services are constants of the type `Note`; an
unavailable audit table is a parameter; a status outside the vocabulary is `Unlisted`.

## Model

| member | source | states |
|---|---|---|
| Lifecycle.DecisionMoves | backend/internal/constants/status.go:50-60 | the decision graph allows exactly the moves from draft to observe, restrict or urgent |
| Lifecycle.WalkStaysWithin | backend/internal/constants/status.go:57-60 | on any graph, a walk of n steps ends within distance n of its start |
| Lifecycle.GraphsFollowTheLine | backend/internal/constants/status.go:28-48 | in the three cyclic graphs a move is allowed if and only if both statuses are in the lifecycle and it goes one or two places on, or one back |
| Lifecycle.RowsStartTheLine | backend/internal/service/defect_finding.go:49 | every row starts in the first status of its lifecycle |
| Lifecycle.ReachIsBounded | backend/internal/constants/status.go:28-48 | within n moves a status is at most 2n places further on and n places back |
| Tables.SortByVersionSorts | backend/internal/repository/priority_decision.go:52-58 | the preload query returns the same revisions in ascending version order |
| Tables.SortKeepsAscending | backend/internal/repository/priority_decision.go:52-58 | revisions already in version order are returned as stored |
| Evolution.NextVersionFree | backend/internal/model/priority_decision.go:34-35 | no stored revision of a decision is newer than its row, so the next version is free under the unique index |
| Evolution.CreateKeeps | backend/internal/repository/priority_decision.go:59-68 | a create fails exactly for blank required fields or a taken code, deleted rows included; otherwise it adds one row with a one-element chain and changes nothing else |
| Evolution.SaveOutcome | backend/internal/repository/priority_decision.go:69-84 | a save takes effect exactly when a live row has the expected version, and a won swap never hits the revision index |
| Evolution.SaveKeeps | backend/internal/repository/priority_decision.go:69-84 | a won save, however stale its read, keeps every chain equal to 1..version ending in the row's own state, and every row moves forward only |
| Evolution.DeleteKeeps | backend/internal/repository/base.go:72-81 | a soft delete marks one live row and keeps all chains |
| Evolution.EvolvesTransitively | backend/internal/repository/base.go:59-81 | forward evolution of the tables composes over runs |
| Safety.OnFileLasts | backend/internal/repository/priority_decision.go:52-58 | a row some request read stays a recorded version of its key whatever the others do |
| Safety.Undisturbed | backend/internal/service/priority_decision.go:70-138 | no statement of one request invalidates what another request holds |
| Safety.ReloadIsCoherent | backend/internal/repository/priority_decision.go:52-58 | revisions queried later than the row still form an unbroken chain that tells that row |
| Safety.StepSafe | backend/internal/service/priority_decision.go:43-152 | every statement of every request keeps the tables and all requests in order |
| Safety.RunSafe | backend/internal/service/priority_decision.go:43-152 | in every interleaving, with any claimed versions: chains match rows, versions never fall, code and preparer never change, deletions are never undone |
| Safety.TornReadsAreCoherent | backend/internal/repository/priority_decision.go:52-58 | a response whose two queries straddle commits shows a contiguous ascending chain reaching the returned version, whose entry tells the returned row, and which begins the chain as it stands later |
| Commits.CommitRecorded | backend/internal/repository/base.go:59-70 | a commit extends the log with the row it replaced and the row it stored |
| Commits.RunRecorded | backend/internal/repository/base.go:59-70 | along any run the log of commits reproduces every stored row, each commit matched to the one request that made it |
| Commits.CommitCounted | backend/internal/service/priority_decision.go:75-80 | every commit raises the expected version by one, keeps the immutable columns and was made by a role and actor entitled to it |
| Exclusivity.VersionCountsWrites | backend/internal/repository/base.go:59-70 | along the log, a row's version is its birth version plus its updates and transitions |
| Exclusivity.ClaimsIncrease | backend/internal/repository/base.go:59-70 | successive writes of one row carry strictly increasing expected versions |
| Exclusivity.AtMostOneWinner | backend/internal/repository/base.go:59-70 | of any number of requests with the same key and expected version at most one commits |
| Exclusivity.VersionIsWriteCount | backend/internal/repository/base.go:59-70 | in every run the version counts the committed writes |
| Integrity.RowsStayFilled | backend/internal/service/priority_decision.go:158-163 | from a start without blanks, as the seeded one is, no run stores a row without its required fields, though transitions write back fields read earlier |
| Integrity.CodesStayUnique | backend/internal/repository/base.go:55-57 | in every interleaving no two rows of a table share a code, deleted rows included |
| Integrity.ResponsesIncludeOwnWrite | backend/internal/service/defect_finding.go:85-111 | the row a successful write answers with is never older than that write |
| Discipline.EchoImpliesHonest | frontend/src/stores/factory.ts:16-21 | requests that send back a version some query has shown never claim a version ahead of their own read, whatever exempt requests do |
| Discipline.EchoingClientsAreHonest | frontend/src/stores/factory.ts:16-21 | the same from any orderly start, versions shown in earlier lifetimes of the service included |
| Discipline.ResponsesAreShown | frontend/src/stores/factory.ts:9-21 | every version a response carries was shown by a query, so echoing any response is echoing |
| Listing.ListedVersionsAreShown | frontend/src/stores/factory.ts:9-19 | the versions of a list response are shown by its query |
| Discipline.ActsOnLiveRow | backend/internal/service/priority_decision.go:95-102 | a save about to win its swap acts on the live row if and only if its claim is not ahead of its read |
| Discipline.HonestRunWinsHonestly | frontend/src/stores/factory.ts:16-21 | if no request ever claims ahead, no save wins ahead of its read |
| Discipline.WriteIsAtomic | backend/internal/service/priority_decision.go:70-152 | a write that takes effect has exactly the effect of reading, checking and writing at once if and only if its guards pass on the live row and an update read the live status, a transition the live fields |
| Serial.CommitIsAtomic | backend/internal/service/priority_decision.go:43-152 | every commit equals the atomic operation on the database at commit time if and only if it is a create or its write fits the live row |
| Serial.RunsAreSerialisable | backend/internal/service/priority_decision.go:70-152 | an honest run leaves the rows and revisions of its committed calls run sequentially in commit order, all succeeding, if and only if no transition of a decision commits between the row query and the write of a delete of it |
| Serial.SerialisableExactly | backend/internal/service/priority_decision.go:70-152 | any run, whatever its clients claim, is sequential in commit order at each of its moments if and only if every write that takes effect fits the row it finds |
| Fidelity.SaveIsFaithful | backend/internal/service/bridge_asset.go:64-112 | an honest save stores the live row with exactly the requested change |
| Fidelity.NoLostUpdate | backend/internal/service/bridge_asset.go:64-112 | every committed transition keeps all business fields of the row it replaced, every committed update keeps its status, and what it replaced is what the previous write stored |
| Fidelity.PathFollowsRow | backend/internal/service/inspection_round.go:92-112 | the logged statuses of a row start at its birth status, end at its current one, one per write |
| Fidelity.PathIsWalk | backend/internal/service/inspection_round.go:92-112 | consecutive logged statuses are equal or joined by an edge |
| Fidelity.StatusesWalkTheGraph | backend/internal/service/inspection_round.go:92-112 | committed statuses walk the graph from the birth status, one step per version, so version bounds distance |
| Fidelity.VersionBoundsProgress | backend/internal/constants/status.go:28-48 | in honest runs a service-created row j places along its lifecycle has been written at least j / 2 times since |
| Fidelity.EndsTakeTwoMoves | backend/internal/constants/status.go:28-48 | a service-created closed defect, retired bridge or completed round has version at least 3 |
| Decisions.OnlyDraftsAreSaved | backend/internal/service/priority_decision.go:75-77 | an honest save commits to a decision only while it is a draft |
| Finality.FinalForever | backend/internal/service/priority_decision.go:70-152 | a final decision keeps its row and revisions through every continuation if and only if no request in flight has passed its guards on an earlier draft with a delete or a current claim; and up to deletion if and only if no update or transition has |
| Finality.StepFreezes | backend/internal/service/priority_decision.go:75-77 | no statement of any request changes an unthreatened final decision or creates a threat to it |
| Finality.HonestySparesFinal | backend/internal/service/priority_decision.go:75-100 | if no request is ahead of its read when a decision is final, no later run changes its status, version, fields or revisions, whatever later requests claim |
| Finality.UnreadFinalStays | backend/internal/service/priority_decision.go:70-152 | a final decision that no request in flight has read is never changed or deleted |
| Decisions.RunDraftChains | backend/internal/service/priority_decision.go:70-138 | in honest runs every chain stays drafts followed by at most one final revision |
| Decisions.RevisionChainHolds | backend/internal/repository/priority_decision.go:59-84 | every decision's revisions are exactly 1..version ending in the row's state, and drafts before the last in honest runs |
| Provenance.RunTraced | backend/internal/service/priority_decision.go:165-176 | every new revision carries the evidence, actor, request and snapshot of one committed call |
| Provenance.ColumnsNeverChange | backend/internal/repository/priority_decision.go:71-74 | the code and preparer any write stored are the ones the row still has |
| Provenance.RevisionsAreEntitled | backend/internal/service/priority_decision.go:78-118 | every revision of a service-created decision was written by a call entitled to it: drafts by the preparer or an admin, a final one by another reviewer or admin |
| Provenance.SeparationHolds | backend/internal/service/priority_decision.go:113-118 | a final service-created decision has exactly one non-draft revision, the last, written by someone other than its preparer |
| AuditFlow.CommitFlowTelescopes | backend/internal/service/defect_finding.go:88-110 | the commits of a row enter and leave each status in balance with its first and current status |
| AuditFlow.RunBalanced | backend/internal/service/defect_finding.go:88-110 | at every moment the entries the run appended weigh exactly the commits they report, in whatever order they arrived |
| AuditFlow.LogIsTruthful | backend/internal/service/defect_finding.go:58-123 | along any honest run the log only grows, every new entry reports a committed call with its action, statuses, actor and reason, and there is one for each commit whose append did not fail |
| AuditFlow.FlowAccounts | backend/internal/service/defect_finding.go:88-110 | at every moment the flow the log gained plus the flow of entries due or lost equals [current] minus [birth] |
| AuditFlow.FlowIsConserved | backend/internal/service/defect_finding.go:88-110 | with no transition entry due or lost, entries gained that enter a status minus those that leave it equal [current] minus [birth] |
| AuditFlow.FlowIgnoresOrder | backend/internal/repository/security.go:42-44 | the flow depends on the entries only, not on their order |
| AuditFlow.ShuffledLogNamesStatus | backend/internal/repository/security.go:42-44 | any reordering of the log determines the current status of a row whose transitions are settled |
| Solo.SoloRunIsAlone | backend/internal/service/priority_decision.go:43-152 | the steps of one request with nothing in between do what Alone says and disturb no other request |
| Solo.AloneWritesAtomically | backend/internal/service/priority_decision.go:43-152 | Alone writes what the atomic operation writes, and a refused call changes nothing |
| Answers.DecisionTransitionAnswer | backend/internal/service/priority_decision.go:108-138 | a decision is finalised if and only if it is a live draft at the claimed version, the target is a final status, the actor is not the preparer and holds reviewer or admin; otherwise the first failing check names the error |
| Answers.DecisionUpdateAnswer | backend/internal/service/priority_decision.go:70-106 | a decision is edited if and only if it is a live draft at the claimed version, by its preparer or an admin, with all six required fields; otherwise lock, ownership, validation and version in this order |
| Answers.RecordTransitionAnswer | backend/internal/service/defect_finding.go:88-111 | a record moves if and only if it is live, at the claimed version, and the move goes along its lifecycle |
| Answers.RecordUpdateAnswer | backend/internal/service/defect_finding.go:64-86 | a record is edited if and only if it is live, at the claimed version, with its four required fields |
| Answers.DeleteAnswer | backend/internal/service/priority_decision.go:140-152 | a live record or draft decision is deleted, whoever asks; final decisions are locked |
| Answers.CreateAnswer | backend/internal/service/priority_decision.go:43-68 | a create succeeds if and only if its required fields are filled and no row of the kind has the code, deleted or not |
| Answers.FetchAnswer | backend/internal/repository/priority_decision.go:52-58 | a Get answers with the live row and, for a decision, its whole chain |
| Answers.RefusedChangesNothing | backend/internal/service/priority_decision.go:43-152 | a refused call leaves rows, revisions and log as they were |
| Answers.CreateEffect | backend/internal/service/priority_decision.go:47-68 | a create stores each input field in its column with version 1, the preparer and the times, its first revision and its audit entry; a lost entry does not show |
| Answers.UpdateEffect | backend/internal/service/priority_decision.go:83-106 | an update stores the input, the next version and the time and nothing else, its revision and its audit entry; a lost entry does not show |
| Answers.TransitionEffect | backend/internal/service/priority_decision.go:123-138 | a transition stores the target, the next version and the time and nothing else, its revision with the reason and its audit entry; a lost entry fails the call after the row has changed |
| Answers.DeleteEffect | backend/internal/service/priority_decision.go:140-152 | a delete marks the row, writes its audit entry and changes nothing else; a lost entry fails the call after the row is gone |
| Necessity.StaleWriteReopens | backend/internal/service/priority_decision.go:70-100 | for every claim ahead of the read there is a run, all other requests honest throughout, that reopens a final decision |
| Necessity.TimelyWriteNeverReopens | backend/internal/service/priority_decision.go:70-100 | from any orderly start and whatever others claim, a claim at or behind the read never reopens one |
| Necessity.DisciplineIsExact | backend/internal/service/priority_decision.go:95-98 | among otherwise honest requests one can reopen a final decision if and only if its claim is ahead of the version it read |
| Deletion.DeleteInTimeExactly | backend/internal/service/priority_decision.go:140-152 | in an honest run a delete finds a draft, and so is atomic, if and only if no transition of that decision commits between its row query and its write |
| Deletion.DeletesInTimeExactly | backend/internal/service/priority_decision.go:140-152 | all deletes of an honest run are in time if and only if none is overtaken by a transition |
| Deletion.QueriedEarlier | backend/internal/service/priority_decision.go:140-152 | a row a request holds was found by its own row query at an earlier step |
| Deletion.FinalDecisionCanVanish | backend/internal/service/priority_decision.go:140-152 | a run, honest throughout, in which a delete guarded on a draft removes a final decision |
| Persistence.Database.AppendAudit | backend/internal/repository/security.go:42-44 | the audit log only grows, by the given entry |
| Persistence.Store.Get | backend/internal/repository/base.go:49-53 | finds live rows only |
| Persistence.Store.Create | backend/internal/repository/base.go:55-57 | inserts under a new id unless the code is taken, also by a deleted row |
| Persistence.Store.Update | backend/internal/repository/base.go:59-70 | swaps exactly when a live row has the expected version, keeping the immutable columns; otherwise conflict and no change |
| Persistence.Store.Delete | backend/internal/repository/base.go:72-81 | marks a live row deleted, otherwise reports not found |
| Persistence.Store.List | backend/internal/repository/base.go:29-47 | returns the requested slice of the one possible ordered listing, and its total: matching live rows only, the last updated first and then the higher id |
| Persistence.Store.CountByStatus | backend/internal/repository/base.go:83-100 | maps exactly the statuses in use to the number of live rows in each |
| Persistence.DecisionRepository.Get | backend/internal/repository/priority_decision.go:52-58 | the live row with its revisions in version order |
| Persistence.DecisionRepository.CreateWithRevision | backend/internal/repository/priority_decision.go:59-68 | row and first revision are stored together or not at all |
| Persistence.DecisionRepository.UpdateWithRevision | backend/internal/repository/priority_decision.go:69-84 | swap and revision are stored together or not at all |
| Services.AuditService.Audit | backend/internal/service/security.go:58-73 | appends one entry with default names for an anonymous actor or request, or reports the failure |
| Services.RecordService.Create | backend/internal/service/defect_finding.go:42-62 | does what Alone says: validation, insert, audit whose failure is ignored, answer with the inserted row |
| Services.RecordService.Update | backend/internal/service/inspection_round.go:64-90 | does what Alone says for an update of any of the three cyclic aggregates |
| Services.RecordService.Transition | backend/internal/service/bridge_asset.go:92-112 | does what Alone says, including an audit failure reported after the row has changed |
| Services.RecordService.Delete | backend/internal/service/defect_finding.go:114-123 | does what Alone says for a delete |
| Services.PriorityDecisionService.NewPriorityRevision | backend/internal/service/priority_decision.go:165-176 | the revision describes the whole item, names who asked and why, and extends any unbroken chain of the earlier versions to the chain of the item |
| Services.PriorityDecisionService.Create | backend/internal/service/priority_decision.go:43-68 | does what Alone says, answering with the decision read back |
| Services.PriorityDecisionService.Update | backend/internal/service/priority_decision.go:70-106 | does what Alone says: lock, ownership and validation in this order, then the write |
| Services.PriorityDecisionService.Transition | backend/internal/service/priority_decision.go:108-138 | does what Alone says: role, separation of duty and graph in this order, then the write |
| Services.PriorityDecisionService.Delete | backend/internal/service/priority_decision.go:140-152 | does what Alone says: only drafts pass the guard |
| Seeding.SeedKeepsExactly | backend/internal/database/database.go:229-252 | a seeded decision keeps chains in order if and only if its version is 1 for a draft and 2 otherwise |
| Seeding.SeedAll | backend/internal/database/database.go:229-252 | the transaction stores every item with its revisions or nothing, and fails exactly when a code is taken |
| Seeding.SeedPriorityDecisions | backend/internal/database/database.go:206-253 | seeds unless a decision is live; fails exactly when none is live but a seed's code is held |
| Seeding.SeedsAreReviewed | backend/internal/database/database.go:212-246 | one seed is a draft and two are final, each final one reviewed by someone other than its preparer |
| Seeding.FirstStart | backend/internal/database/database.go:206-253 | the three seeded decisions form an orderly start with no blank fields and a live final decision |
| Seeding.BornFinalStays | backend/internal/service/priority_decision.go:70-152 | a decision final before the service starts keeps its row and revisions through any number of lifetimes, interleavings and claims |
| Seeding.Restart | backend/internal/database/database.go:206-210 | every later start finds a live decision, succeeds and changes nothing |
| Listing.OrderIsStrictAndTotal | backend/internal/repository/base.go:44 | updated_at descending, id descending is a strict total order on one table |
| Listing.ListingIsNewestFirst | backend/internal/repository/base.go:32-44 | the listing holds exactly the live rows of the kind that pass the search and have the requested status, the last updated first and then the higher id |
| Listing.ListingIsUnique | backend/internal/repository/base.go:43-46 | a list query has exactly one possible result |
| Listing.SortKeys | backend/internal/repository/base.go:43-46 | produces that result |
| Listing.PageCountCovers | frontend/src/hooks/usePagination.ts:2 | the pager's page count is the least that covers the total |
| Listing.PagesPartitionListing | backend/internal/repository/base.go:29-47 | pages 1..max(1, ceil(total / size)) concatenate to the whole listing, holding every matching live row exactly once, and fewer do not |
| Listing.NormalizePage | backend/internal/repository/base.go:102-113 | the result is in range, and equals the input exactly when the input is in range |
| Listing.BindPage | backend/internal/handler/system.go:149-159 | in-range parameters are kept, others replaced by the defaults, and normalising the result changes nothing |
| Listing.GroupByStatus | backend/internal/repository/base.go:84-85 | one group per status in use, with its count |
| Listing.ScanGroups | backend/internal/repository/base.go:90-99 | the scan loop maps exactly the statuses in use to their counts |
| Listing.CountsAgreeWithListing | backend/internal/repository/base.go:29-100 | each count equals the total of the list filtered by that status, and they sum to the unfiltered total |
| Listing.CountsFollowCommits | backend/internal/repository/base.go:83-100 | over any run a status count is its initial value plus what the commits moved |
| Listing.PopulationsBalance | backend/internal/repository/base.go:83-100 | over any honest run a status count is its initial value plus creates and transitions into it minus transitions out of it and deletes |
| Summary.GroupLabels | backend/internal/repository/security.go:79-88 | every label once with its count, by falling count |
| Summary.RecentIsFromSinceOn | backend/internal/repository/security.go:67 | the filter keeps every entry from since on as often as the log has it, and no other |
| Summary.SummaryCountsTheLog | backend/internal/repository/security.go:62-90 | each field counts the entries of the log from since on, all, transitions, distinct actors, by action and by kind, at the moment of its query |
| Summary.AuditTable.SummarizeAudits | backend/internal/repository/security.go:62-90 | each field reports, and counts over, the log as its own query saw it while entries keep arriving |
| Summary.AuditTable.ClampWindow | backend/internal/service/security.go:79-87 | windows between an hour and 90 days are kept, shorter ones become a day, longer ones 90 days |
| Summary.TransitionSkew | backend/internal/repository/security.go:71-83 | the transition entry of the action counts exceeds the transition total by exactly the recent transitions that arrived in between |
| Summary.SummarySkew | backend/internal/repository/security.go:62-90 | totals can only grow from field to field, and agree exactly when nothing recent arrived in between |
| RateLimit.CleaningUnobservable | backend/internal/middleware/ratelimit.go:85-94 | eviction drops no bucket of the current minute |
| RateLimit.BumpTracks | backend/internal/middleware/ratelimit.go:71-83 | one call keeps the map in step with the log and returns the log's count |
| RateLimit.LimiterCountsTheLog | backend/internal/middleware/ratelimit.go:71-94 | every call returns the number of calls with its key in its minute so far |
| RateLimit.LimiterCountsCalls | backend/internal/middleware/ratelimit.go:71-83 | every call returns how many calls so far had its key in the same sixty seconds of the clock |
| RateLimit.MinuteEnds | backend/internal/middleware/ratelimit.go:74-78 | calls at 0 and 59.999999999 seconds count together, calls at 0 and 60 seconds do not |
| RateLimit.LimiterMemoryIsBounded | backend/internal/middleware/ratelimit.go:71-94 | at most max(512, keys of the current minute) buckets, none of the current minute evicted |
| RateLimit.AdmitsExactlyTheLimit | backend/internal/middleware/ratelimit.go:37-55 | exactly the first limit calls of a key in a minute are admitted |
| RateLimit.AnyMinuteAdmitsTwiceTheLimit | backend/internal/middleware/ratelimit.go:37-55 | no sixty seconds admit more than twice the limit |
| RateLimit.CountsAreExact | backend/internal/middleware/ratelimit.go:57-69 | the counts returned for a key and minute are those of a counter that never expires if and only if no command finds the counter expired |
| RateLimit.CountersNeverLapse | backend/internal/middleware/ratelimit.go:57-69 | with timely commands no counter of a running minute expires |
| RateLimit.ExpiryUnobservable | backend/internal/middleware/ratelimit.go:57-69 | with timely commands the expiring counter returns what a counter that never expires would |
| RateLimit.RemoteLimitIsExact | backend/internal/middleware/ratelimit.go:37-69 | with all answers arriving, the Redis half admits at most the limit, for every limit, if and only if no counter lapses |
| RateLimit.FailoverAdmitsPerLapse | backend/internal/middleware/ratelimit.go:37-69 | under any pattern of Redis failures and delays at most twice the limit plus one limit per lapse is admitted per key and minute |
| RateLimit.FailoverAdmitsTwiceTheLimit | backend/internal/middleware/ratelimit.go:37-69 | under any pattern of Redis failures at most twice the limit is admitted per key and minute as long as no counter lapses |
| RateLimit.TimelyFailoverAdmitsTwiceTheLimit | backend/internal/middleware/ratelimit.go:37-69 | the same for timely commands |
| RateLimit.LateCommandsAdmitMore | backend/internal/middleware/ratelimit.go:57-69 | three late commands that a limit of one admits all |
| RateLimit.Limiter.CleanupLocal | backend/internal/middleware/ratelimit.go:85-94 | the deletion loop leaves exactly the buckets that are not of earlier minutes |
| RateLimit.Limiter.IncrementLocal | backend/internal/middleware/ratelimit.go:71-83 | updates the map and returns the count the specification gives |
| RateLimit.Limiter.Increment | backend/internal/middleware/ratelimit.go:57-69 | counts in Redis, or fails with or without having counted |
| RateLimit.Limiter.Count | backend/internal/middleware/ratelimit.go:40-43 | Redis first, the local counter on any error |
| RateLimit.Limiter.Handle | backend/internal/middleware/ratelimit.go:37-55 | admits exactly when the count returned is within the limit, and reports what remains |

## Left out

- Login, tokens, password hashing, HTTP handlers and error mapping, router and configuration.
- The frontend, apart from the version it sends back and its page count.
- GORM, SQL and Redis internals: statements are atomic, `LIKE` is an abstract predicate.
- A list request's count, rows and preload as separate statements, and list requests as steps of the machine: lists are read at one moment; the torn read of a single decision is modelled.
- Trimming and upper-casing of input, length limits on fields.
- The audit error for an empty action or entity type, which the services never trigger.
- Audit listing and the history of one entity.
- The texts, request ids and clock times of seeded decisions and revisions, which are abbreviated; seeding of the three cyclic tables.
- Retry-After and reset headers, and the limiter's status report.
- Wrap-around of unsigned versions and overflow of page offsets.
- Several database errors other than conflicts, duplicates and a lost audit entry: a request that fails otherwise is one that takes no further step.
- RateLimit.FailoverAdmitsTwiceTheLimit: asks that no command finds its counter expired; the bound is false otherwise, and `RateLimit.FailoverAdmitsPerLapse` gives it for every run.
- AuditFlow.FlowIsConserved: asks that no transition entry of the row is due or lost; `AuditFlow.FlowAccounts` says what the log lacks otherwise.
