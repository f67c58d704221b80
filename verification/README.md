# Attendance ledger verification

A Dafny model of the backend of an on-the-job-training attendance system: trainees
time in and out with a photo, ask for corrections, and write a journal for each
completed day; staff approve corrections and review journals. `dafny verify
dfyconfig.toml` checks everything.

## How the model is laid out

**The tables and their atomic transitions.** `Schema` holds one datatype per row and
a `Db` of tables; a row's id is its position, so ids are fresh. `Ledger` gives every
request of the attendance, correction and journal services as one transition
`(Db, Event) -> (Db, Outcome)`, with the handlers' branch order, refusals and
constants. `Answers` says, by conditions on the rows alone, when each request is given
which answer and what it writes; `Provenance` that after any run the tables are what the
accepted requests made of them. `LedgerInvariants` proves what every transition keeps,
`LedgerHistory`, `Progress` and `BreakRules` what holds over whole runs, `ReviewCycle`
the submit/review loop, `Notifications` and `Notices` the deduplicated notification rows
and who is owed which.

**The handlers as they run.** `Services`, `Outbox`, `Bucket` and `PhotoService` are
classes whose methods execute the statements in order: unlocked reads, object puts,
the transaction with its rollback, compensating deletes. Each method is proved
against the ledger transition it implements, with the environment's failures (a put,
a render, a delete or a commit that fails) as parameters and the exact answer under each.

**The same requests interleaved.** `Concurrent` splits Time In, Time Out, Request and
Decide into the steps at which another request may intervene, with a program counter
per request. `Serialization` proves that any interleaving of any number of them leaves
the tables that the successful requests leave when run one at a time in commit order;
`Linearization` that refusals and replays are answers of the atomic request too, with
the clock reading and the time-in the request itself took; `ClockBound` that no
interleaving stores a time later than its clock;
`ConcurrentRetries` what a retry is answered; `Liveness` that nobody deadlocks;
`UnlockedSum` and `MissedMilestone` what the unlocked completion sum misses. `Steps`
collects what one step can change. `ObjectStore`, `EvidenceObjects` and
`JournalPhotos` treat the stored photos at the same granularity.

**The smaller stateful parts.** `Import`, `ImportTokens`, `ImportCommit` and
`ImportRules` (CSV import, and its rules spelled out on cells and rows), `Reminders` and
`EventKeys` (the scheduled job and the key strings), `RateLimiter` and `Admissions`,
`Migrations` and `MigrationRuns`, and `Dashboard`.

Times are integers in nanoseconds and object keys are integers. `Duration.Minutes()`
goes through float64 in the program; integer division gives the same minutes below
2^18 minutes. The database stores microseconds: credited minutes survive the
truncation (`Hours.MicrosecondsSuffice`), and a Time Out in the same microsecond as
its Time In, which the model would accept, is refused by the constraint that the
time-out be later.

## What turned out false, and the exact condition

- A retry sent while the first request is in flight is not always answered with the
  first result. A Time Out is exactly when the action's evidence for the session is
  committed at the retry's lookup (`ConcurrentRetries.TimeOutReplayedExactly`); past
  its lookup it gets the conflict (`ConcurrentRetries.LosingTimeOut`). A Time In is
  exactly when the evidence is committed at its lookup or, past the lookup, when it is
  committed and no session exists for its day at the moment its own transaction runs
  (`ConcurrentRetries.TimeInReplayedExactly`). A retry that arrives after the commit
  always looks up in time.
- `corrected` does not imply closed (`LedgerHistory.CorrectedMayBeUnclosed`). A session
  is closed exactly when it was timed out or an approved correction of it proposed a
  time-out (`LedgerHistory.ClosedExactly`, `LedgerHistory.ApprovalClosesExactly`).
- A closed session's credit need not be that of its effective times under its
  assignment's present rule (`BreakRules.EditedRuleIsNotReapplied`). It is exactly when
  the rule in force at its last recalculation credits its times as the present one
  (`BreakRules.FollowsExactly` from the recorded rule, `BreakRules.CreditFollowsExactly`
  from the run); an edit keeps it so for every session it can reach
  exactly when the old and new rule are equivalent (`BreakRules.EditHarmlessExactly`).
- The completion milestone can be missed, because the sum is taken over unlocked rows.
  A commit misses it exactly when there was none and the requirement is met now but not
  without what others committed since the transaction's sum
  (`UnlockedSum.MissedExactly`); two overlapping recalculations miss it exactly when
  neither alone reaches the requirement and both do
  (`UnlockedSum.OverlappingPairMissesExactly`). `MissedMilestone` has interleavings that
  miss it, with two Time Outs and with a Time Out and an approval. The milestone lemmas
  of `Notifications` are therefore about atomic transactions.
- A journal can hold more than five images: the count is checked outside the lock.
  With at most k requests in flight the bound is 4 + k and is attained for every k.
- The rate limiter reads the clock three times per call. Eviction is unnoticed if and
  only if a call is delayed by at most four windows plus a nanosecond minus one refill
  interval between noting the entry and asking its bucket.
- Import validation treats a lookup that errors as "not found", so a commit on
  unchanged tables can fail. It fails exactly when some accepted row is in the tables
  already, which takes a failed lookup for that row. The premise is that the
  database's `lower()` leaves text that Go lower-cased unchanged.
- Up sorts file names and Down takes the greatest version in the database's
  collation. Some run leaves applied versions that are no prefix of the list exactly
  when some run reaches a state in which Down succeeds on a version other than the last
  of the prefix (`Migrations.PrefixLostExactly`). For scripts that succeed where the
  runs take them, every run keeps a prefix exactly when the two orders agree
  (`Migrations.PrefixKeptExactlyWhenOrdersAgree`); with a version such as `1-a` beside
  `1` they do not (`Migrations.HyphenLosesPrefix`). The shipped files keep a prefix under a byte-ordered
  collation (`Migrations.ShippedStayAPrefix`); other collations are not examined.
- On a day no assignment covers, the dashboard only sends a trainee to the coordinator,
  although an open session can be timed out and an editable journal submitted. Nothing
  is accepted unoffered then exactly when neither is there
  (`Dashboard.UncoveredDayExactly`).

## Model

| member | source | states |
|---|---|---|
| Hours.CreditConserves | backend/internal/attendance/hours.go:25-39 | credited plus deducted is elapsed, all three non-negative, and elapsed is the number of whole minutes between the instants |
| Hours.ExtendingTimeOut | backend/internal/attendance/hours.go:25-39 | a later time-out adds no more credit than minutes, and lowers it only across the threshold, by at most the deduction |
| Hours.ProgressMonotoneAndExact | backend/internal/attendance/hours.go:41-46 | for a positive requirement the percentage is monotone and 100 exactly when the requirement is reached |
| Hours.CreditExactly | backend/internal/attendance/hours.go:25-39 | of m whole minutes a fixed break is deducted exactly when the time reaches the threshold, and never more than m |
| Hours.PercentExactly | backend/internal/attendance/hours.go:41-46 | below the requirement the percentage is the whole number of hundredths completed |
| Hours.MicrosecondsSuffice | backend/internal/attendance/service.go:443 | credit computed from a stored time-in and the clock is the credit of the two stored times |
| Text.TrimSpaceDrops | backend/internal/journals/service.go:252 | trimming removes blanks from both ends and nothing else |
| Text.Utf8Denotes | backend/internal/journals/service.go:253 | the length counted for a character is that of its UTF-8 encoding, which denotes it |
| Text.ByteLengthCounts | backend/internal/journals/service.go:253 | the length of a string is the number of its UTF-8 bytes |
| Answers.TimeInAnswers | backend/internal/attendance/service.go:232-336 | each answer of Time In if and only if its condition on assignments (last day included), evidence, location and sessions holds |
| Answers.TimeInWrites | backend/internal/attendance/service.go:268-309 | a Time In adds one open session on an assignment that runs that day, flagged by its location, and its evidence, and nothing else |
| Answers.TimeOutAnswers | backend/internal/attendance/service.go:340-372 | each answer of Time Out if and only if its condition on the rows holds |
| Answers.TimeOutWrites | backend/internal/attendance/service.go:443-485 | a Time Out closes its row at the clock reading, with the location flag, unusual_duration exactly past the threshold, valid exactly without a flag, its credit, evidence and journal, and nothing else |
| Answers.RequestAnswers | backend/internal/corrections/service.go:68-141 | each answer of a request, validation spelled out, and the one row it adds |
| Answers.DecideAnswers | backend/internal/corrections/service.go:250-296 | each answer of a decision if and only if its condition on the rows holds |
| Answers.RejectWrites | backend/internal/corrections/service.go:274-280 | a rejection marks its row rejected and writes nothing else |
| Answers.ApproveWrites | backend/internal/corrections/service.go:281-357 | an approval puts the proposed times in force with their credit, records the adjustment, marks its row, and closes a session that had no time-out |
| Answers.SaveDraftAnswers | backend/internal/journals/service.go:235-247 | a draft is saved verbatim exactly on an existing draft or returned journal, and nothing else changes |
| Answers.SubmitAnswers | backend/internal/journals/service.go:251-280 | each answer of a submission, and that it stores the trimmed text and the status only |
| Answers.ReviewAnswers | backend/internal/journals/service.go:284-320 | each answer of a review, and that it writes the decision, the revision count and the review row only |
| Answers.EditAnswers | backend/internal/assignments/assignments.go:357-440 | an edit is accepted exactly when no row is dropped or changes trainee, requirements are positive and no trainee has two active rows |
| Provenance.EvidenceIsPhotographs | backend/internal/attendance/service.go:286-309 | the evidence table is the photographs of the accepted captures, in order |
| Provenance.SessionsTellTheirDays | backend/internal/attendance/service.go:453-460 | every session row has the original, effective and closing times its accepted Time In, Time Out and approvals made |
| Provenance.SessionOpenedOnDuty | backend/internal/attendance/service.go:134-150 | every session was opened by an accepted Time In on an assignment that ran that day |
| Provenance.FlagsTellTheSession | backend/internal/attendance/service.go:443-450 | in every reachable state a session has a location flag exactly when a photograph of it was taken there, unusual_duration exactly when it was timed out past the threshold, and no flag twice |
| Provenance.StatusTellsTheSession | backend/internal/attendance/service.go:447-450 | in every reachable state the status is corrected after an approval, else open until timed out, then flagged exactly when something was suspicious |
| Provenance.CorrectionsAreFilings | backend/internal/corrections/service.go:115-128 | the k-th correction is the k-th accepted proposal with the verdict of its accepted decision |
| Provenance.CorrectionsAreCoherent | backend/internal/corrections/service.go:68-96 | every stored correction has the times its type needs and ends after it begins |
| Provenance.DecidedForGood | backend/internal/corrections/service.go:269-272 | after an accepted decision the row keeps the verdict over any continuation and every later decision of it is refused without effect |
| Provenance.RejectionReopens | backend/internal/corrections/service.go:128-136 | a rejection lets its session take a new valid request, which was refused before |
| Provenance.JournalTellsItsHistory | backend/internal/journals/service.go:235-310 | a journal holds the text of its last accepted save, verbatim, or submission, trimmed, and the status of its last accepted submission or review |
| Provenance.ReviewsAreGiven | backend/internal/journals/service.go:306-310 | the reviews table is the accepted reviews in order |
| Ledger.RefusalsChangeNothing | backend/internal/attendance/service.go:311-326 | a refused or replayed request changes no table |
| LedgerInvariants.StepKeeps | ojt_management_export.sql:137-287 | every transition keeps foreign keys, unique indexes, the one-to-one match of adjustments and approvals, and the agreement of each session row with the rows that mention it |
| LedgerInvariants.RunKeeps | ojt_management_export.sql:990-1060 | the same holds in every reachable state |
| LedgerInvariants.TimeOutKeeps | backend/internal/attendance/service.go:402-504 | closing a session keeps the invariant although five redundant columns and three tables change at once |
| LedgerInvariants.ApproveKeeps | backend/internal/corrections/service.go:281-357 | approving a correction keeps effective times equal to the overlay of approved proposals, and adjustments one to one with approvals |
| LedgerHistory.SessionColumnsAgree | backend/internal/attendance/service.go:443-490 | for a session of any reachable state: effective times are the overlay of approved proposals on the originals, version counts the time-out and the approvals, and effective time-out, credited minutes, closed_at and the journal exist together |
| LedgerHistory.CorrectedMayBeUnclosed | backend/internal/corrections/service.go:297-324 | a run that leaves a corrected session with no time-out and no journal |
| LedgerHistory.ClosedExactly | backend/internal/corrections/service.go:297-324 | in every reachable state a session is closed exactly when it was timed out or an approved correction of it proposed a time-out |
| LedgerHistory.ApprovalClosesExactly | backend/internal/corrections/service.go:297-357 | after an approval the session is corrected, and closed exactly when it was closed or the correction proposes a time-out |
| LedgerHistory.AdjustmentsMatchApprovals | backend/internal/corrections/service.go:315-333 | every approved correction has exactly one adjustment, others none, and each adjustment recorded the projection of its moment |
| LedgerHistory.RunsGrow | backend/internal/attendance/service.go:453-460 | across any further run original time-in is constant, original time-out is written at most once, `open` is never re-entered, and no evidence, adjustment or review row changes |
| LedgerHistory.TimesBehindClock | backend/internal/corrections/service.go:68-96 | no stored time is later than the clock, despite validation against a stale time-in |
| LedgerHistory.TimeInRetry | backend/internal/attendance/service.go:253-258 | a retried Time In returns the first session and writes nothing while an assignment covers the day, and is refused otherwise |
| LedgerHistory.TimeOutRetry | backend/internal/attendance/service.go:367-372 | a retried Time Out returns the first result and writes nothing, after any further requests |
| LedgerHistory.NoDuplicates | ojt_management_export.sql:990-1032 | one session per trainee and date, one evidence row per session and action, one per trainee and action id |
| Progress.SumsAgree | backend/internal/trainees/dashboard.go:127-136 | the three differently filtered sums of credited minutes are equal and non-negative |
| Progress.CompletionCoincides | backend/internal/notifications/notifications.go:34-43 | the completion query, 100 percent and nothing remaining coincide in every reachable state |
| Progress.TimeOutAddsItsCredit | backend/internal/notifications/notifications.go:34-43 | a Time Out adds its credit to its own assignment and to no other |
| Progress.ApprovalMovesCredit | backend/internal/notifications/notifications.go:34-43 | an approval moves the completed minutes by the change of its session's credit |
| BreakRules.CreditFollowsEffectiveTimes | backend/internal/corrections/service.go:300-313 | a closed session has the credit of its effective times if no edit since its last recalculation gave its own assignment an inequivalent rule |
| BreakRules.CreditFollowsExactly | backend/internal/corrections/service.go:300-313 | after any run a closed session has the credit of its times exactly when the rule in force at its last recalculation in that run credits them as the present one, whatever edits came between |
| BreakRules.EditOvertaken | backend/internal/attendance/service.go:379-402 | a Time Out that reads its rule before an edit and commits after it leaves what the Time Out followed by the edit leaves |
| BreakRules.CreditsAlikeExactly | backend/internal/attendance/hours.go:25-39 | two rules credit every pair of times alike exactly when neither deducts or both do with equal threshold and deduction |
| BreakRules.FollowsExactly | backend/internal/corrections/service.go:300-313 | in every reachable state a closed session has the credit of its times exactly when the rule of its last recalculation credits them as the present one |
| BreakRules.EditHarmlessExactly | backend/internal/assignments/assignments.go:357-440 | an edit leaves every session it can reach with the credit of its times exactly when the old and new rule are equivalent |
| BreakRules.EditedRuleIsNotReapplied | backend/internal/assignments/assignments.go:357-440 | a reachable instance: a two-hour session keeps its 120 minutes after a break of 30 is added |
| Notifications.CreateTxAddsOnce | backend/internal/notifications/notifications.go:20-26 | creation adds the row exactly when it is absent and keeps rows distinct |
| Notices.NotesAreOwed | backend/internal/corrections/service.go:360-384 | a request adds exactly the notifications it owes: milestone, verdict, numbered review |
| Notices.VerdictsAreTold | backend/internal/corrections/service.go:374-384 | over any history the notice of a verdict exists, for the trainee's account only, exactly when that verdict was given |
| Notifications.MilestoneAfterRecalculation | backend/internal/attendance/service.go:492-497 | after a Time Out or approval commits, the milestone exists if the sum reaches the requirement |
| Notifications.MilestoneOnceForever | backend/internal/notifications/notifications.go:28-50 | never more than one milestone per trainee and assignment, and no notification is removed by any further steps, reminders included |
| Notifications.MilestoneWasEarned | backend/internal/corrections/service.go:366-372 | a milestone exists only if an earlier commit of that trainee and assignment saw the requirement met |
| UnlockedSum.NotedIsInterleaving | backend/internal/notifications/notifications.go:32-50 | with the sum as a step of its own and the notification rows carried along, the tables are still those of an interleaving |
| UnlockedSum.MissedExactly | backend/internal/notifications/notifications.go:34-43 | after any interleaving, the commit of a Time Out or an approval misses the milestone exactly when there was none and the requirement is met, but not without what others committed since its sum |
| UnlockedSum.MilestoneExactly | backend/internal/notifications/notifications.go:34-50 | at every point of every interleaving the milestone exists exactly when it did at the start or a committed recalculation had seen the requirement met |
| UnlockedSum.OverlappingPairMissesExactly | backend/internal/notifications/notifications.go:34-43 | two overlapping recalculations of one assignment changing it by d1 and d2 miss the milestone exactly when there was none, each alone leaves the sum short and both do not |
| MissedMilestone.TwoTimeOutsMiss | backend/internal/attendance/service.go:492-497 | from any ledger state where two open sessions reach the requirement only together, some interleaving of their Time Outs misses the milestone |
| MissedMilestone.TimeOutAndApprovalMiss | backend/internal/corrections/service.go:366-372 | likewise for a Time Out of one session and the approval of a correction of another |
| MissedMilestone.MilestoneCanBeMissed | backend/internal/notifications/notifications.go:34-43 | a reachable instance: two one-hour days against 100 minutes |
| MissedMilestone.ApprovalCanMissToo | backend/internal/notifications/notifications.go:34-43 | a reachable instance with a pending missed-time-out correction |
| ReviewCycle.ReviewCycleCounts | backend/internal/journals/service.go:284-345 | reviews are submits minus one if currently submitted, the revision count is the number of revision requests, `reviewed` occurs at most once and last, and the review notifications are keys 1 to n |
| ReviewCycle.SubmittedNarrativesAreLong | backend/internal/journals/service.go:251-256 | every submitted or reviewed narrative has at least 20 bytes after trimming |
| Services.MergeFlags | backend/internal/attendance/service.go:627-637 | the seen-set loop computes the keep-first union without repetition |
| Services.DedupKeepsOrder | backend/internal/attendance/service.go:627-637 | merged flags keep the order of first appearance |
| Services.Service.InsertAttendance | backend/internal/attendance/service.go:268-309 | the two inserts do what the ledger transition says or leave every table as it was |
| Services.Service.TimeIn | backend/internal/attendance/service.go:232-336 | the handler is the Time In transition, except that a failing photo answers storage unavailable and a failing commit an internal error, both without a write; it stores both photos or none unless a delete fails |
| Services.Service.CloseAttendance | backend/internal/attendance/service.go:402-504 | the locked transaction re-reads the status and closes the session with its evidence, journal and milestone, or changes nothing |
| Services.Service.TimeOut | backend/internal/attendance/service.go:340-532 | the handler is the Time Out transition with its notifications, with the same two exceptions; photos as for Time In |
| Services.Service.ProgressOf | backend/internal/attendance/service.go:610-625 | the progress shown is 100 percent exactly when the completion query is true |
| Services.Service.Request | backend/internal/corrections/service.go:99-141 | a request is validated against the time-in it read and is the Request transition, or changes nothing |
| Services.Service.Approve | backend/internal/corrections/service.go:280-357 | the statements of an approval are the approval transition |
| Services.Service.Decide | backend/internal/corrections/service.go:250-389 | the handler is the Decide transition with milestone and decision notifications, or changes nothing |
| Services.Service.SaveDraft | backend/internal/journals/service.go:235-247 | the guarded update is the SaveDraft transition |
| Services.Service.Submit | backend/internal/journals/service.go:251-280 | the handler is the Submit transition, or changes nothing |
| Services.Service.Review | backend/internal/journals/service.go:284-345 | the handler is the Review transition with its numbered notification, or changes nothing |
| Outbox.NotificationTable.Create | backend/internal/notifications/notifications.go:20-26 | the insert adds one row exactly when the recipient and key are new, and says so |
| Outbox.NotificationTable.NotifyCompletionIfReached | backend/internal/notifications/notifications.go:32-50 | creates the milestone exactly when the sum reaches the requirement |
| Bucket.PhotoBucket.StoreEvidence | backend/internal/attendance/evidence_service.go:36-72 | both objects are stored or, unless the compensating delete fails, neither |
| Bucket.PhotoBucket.Cleanup | backend/internal/attendance/evidence_service.go:76-82 | cleanup removes the two objects and no other |
| Serialization.InterleavingIsSerial | backend/internal/attendance/service.go:340-520 | any interleaving leaves the tables of its successful requests run alone in commit order, each with the outcome its caller got; refused, replayed and unfinished requests change none |
| Serialization.InterleavingKeepsLedger | backend/internal/corrections/service.go:250-389 | hence the ledger invariant holds at every intermediate step |
| Serialization.LockedTimeOutIsAtomic | backend/internal/attendance/service.go:402-460 | the locked transaction, when it commits, equals the atomic Time Out although it read outside the lock |
| Serialization.InsertTimeInIsAtomic | backend/internal/attendance/service.go:268-309 | an insert that commits equals the atomic Time In in the state it commits in |
| Serialization.InterleavingContinuesRun | backend/internal/attendance/service.go:340-520 | interleaved after any serial run, the requests leave the tables of one longer serial run, so every statement about reachable states holds between their steps |
| Linearization.RefusalsAreAtomic | backend/internal/attendance/service.go:340-375 | every refusal and replay of any interleaving is the atomic answer at some moment between arrival and reply, given the clock reading and the time-in the request itself took, but for the error of its own storage call or transaction that failed and conflicts with the same action (a session of that day, a recorded Time Out) |
| ClockBound.InterleavingBehindClock | backend/internal/corrections/service.go:68-113 | under any interleaving no stored time is later than the latest clock reading, although proposals are validated against a time-in read earlier |
| Liveness.NoDeadlock | backend/internal/corrections/service.go:281-296 | while a request is unfinished, some request has a move that takes it nearer its end |
| Liveness.AllCanFinish | backend/internal/corrections/service.go:281-296 | from any point of any interleaving all requests in flight can be driven to an answer |
| ConcurrentRetries.TimeInRetryAfterCommit | backend/internal/attendance/service.go:253-258 | a Time In that has not looked up when its action is committed is answered with that session, or refused without an assignment, whatever else moves |
| ConcurrentRetries.TimeOutRetryAfterCommit | backend/internal/attendance/service.go:367-372 | a Time Out that has not looked up when its action is committed is answered with the committed result |
| ConcurrentRetries.TimeInReplayedExactly | backend/internal/attendance/service.go:253-326 | a Time In whose action is recorded at its lookup is answered with that session for good; otherwise it is ever answered with a session exactly when its own transaction ran at a moment its action was recorded for it and its day had no session |
| ConcurrentRetries.TimeInAnswersExactly | backend/internal/attendance/service.go:268-326 | past its lookup a Time In answers the conflict, the recorded session or its own, decided by the tables its transaction runs on, whatever moves meanwhile |
| ConcurrentRetries.TimeOutReplayedExactly | backend/internal/attendance/service.go:367-372 | a Time Out is ever answered with an earlier result exactly when the action is committed for the session at its lookup |
| ConcurrentRetries.LosingTimeOut | backend/internal/attendance/service.go:416-418 | past its lookup, a Time Out whose action is committed for the session gets the conflict if storage and transaction go through |
| ObjectStore.SoundMeansNoMissingNoOrphan | backend/internal/attendance/evidence_service.go:1-3 | the ownership discipline means no row names a missing object and, with nothing in flight or leaked, no object is orphaned |
| EvidenceObjects.NoMissingPhotos | backend/internal/attendance/evidence_service.go:36-82 | under any interleaving every committed evidence row's two objects are stored, and at rest the bucket is exactly the named keys |
| JournalPhotos.ImagesBounded | backend/internal/journals/evidence.go:30-62 | with at most k requests in flight, a journal never holds more than 4 + k images |
| JournalPhotos.LimitIsAttained | backend/internal/journals/evidence.go:30-62 | for every k some interleaving reaches 4 + k |
| JournalPhotos.FrozenStaysFrozen | backend/internal/journals/service.go:348-362 | from submit until revision is requested, and forever after `reviewed`, narrative and images do not change under any interleaving |
| JournalPhotos.NoMissingImages | backend/internal/journals/evidence.go:43-88 | under any interleaving no image row names a missing object, and at rest no object is orphaned |
| PhotoService.JournalImages.AddEvidence | backend/internal/journals/evidence.go:24-65 | uninterrupted, the handler takes the steps of the interleaved model; each answer exactly under its condition; alone it never exceeds five images |
| PhotoService.JournalImages.DeleteEvidence | backend/internal/journals/evidence.go:69-89 | uninterrupted, the handler takes the steps of the interleaved model; each answer exactly under its condition; it removes the named row of an editable journal and its object |
| EventKeys.KeysNeverCollide | backend/internal/notifications/notifications.go:45 | the rendered keys of two events of any kinds are equal exactly when the events are |
| EventKeys.SplitUndoesJoin | backend/internal/journals/service.go:337 | cutting a key at its colons gives back the fields it was built from |
| EventKeys.DecimalDenotes | backend/internal/journals/service.go:337 | a decimal numeral denotes the number it renders |
| Reminders.Run | backend/internal/reminders/reminders.go:27-58 | the job leaves exactly the old and the due notifications, and its three counts are the rows added of each kind |
| Reminders.RunAddsTheDue | backend/internal/reminders/reminders.go:76-183 | the queries and inserts add a notification exactly when it is due, whoever was reminded before |
| Reminders.RunAddsTheOwed | backend/internal/reminders/reminders.go:76-183 | a notification is added exactly when the rows owe it: thresholds, cutoff, weekday, hour and dates spelled out |
| Reminders.SecondRunAddsNothing | backend/internal/reminders/reminders.go:1-3 | a second run at the same time on unchanged tables changes nothing |
| Reminders.JobIsHistory | backend/internal/reminders/reminders.go:90-102 | any list of reminder inserts is a stretch of reminder steps of the notification history |
| Reminders.RunContinuesHistory | backend/internal/reminders/reminders.go:44-56 | the job, run at any point of a history, continues it by its own three lists and leaves the table Run leaves |
| Reminders.RemindersAskForThePossible | backend/internal/reminders/reminders.go:74-183 | what a reminder asks for would be accepted: the Time Out, the Submit, and a Time In on the assignment it names |
| RateLimiter.Limiter.DropStale | backend/internal/platform/ratelimit/ratelimit.go:49-56 | the purge removes exactly the entries last seen before the cutoff |
| RateLimiter.Limiter.Allow | backend/internal/platform/ratelimit/ratelimit.go:45-64 | the method answers and updates as the specification of a call |
| RateLimiter.EvictionUnnoticedExactly | backend/internal/platform/ratelimit/ratelimit.go:30-64 | every timed sequence of calls is answered as without eviction, if and only if the pause within a call is within the bound |
| Admissions.AdmittedExactly | backend/internal/platform/ratelimit/ratelimit.go:30-64 | within the pause bound a call is admitted if and only if that keeps its key, over the span from every earlier call, within the burst plus one per refill interval |
| RateLimiter.AdmissionBound | backend/internal/platform/ratelimit/ratelimit.go:30-64 | over any span one key is admitted at most burst plus span over interval times |
| Import.ParseAndValidate | backend/internal/trainees/import.go:109-203 | one result per record numbered from 2, each as the whole-file rule says; accepted rows are the valid results in order; header errors exactly when a required column is absent |
| Import.AcceptedMeans | backend/internal/trainees/import.go:162-200 | a line is accepted exactly when it parses and has none of the four problems |
| Import.AcceptedRowsDistinct | backend/internal/trainees/import.go:139-186 | accepted rows have pairwise distinct lower-cased emails and student numbers |
| Import.AcceptedIsUnlisted | backend/internal/trainees/import.go:168-185 | an accepted row is absent from the tables unless its lookup failed |
| ImportRules.RowIsCells | backend/internal/trainees/import.go:117-158 | every field is the trimmed cell under the last column of its name; the email is lower-cased |
| ImportRules.RefusedExactly | backend/internal/trainees/import.go:160-200 | each field's complaint exactly under its condition, with the line of the first repetition |
| ImportRules.MalformedIsReported | backend/internal/trainees/import.go:148-152 | a record the reader cannot parse is reported under its own line |
| ImportRules.ValidRowsInOrder | backend/internal/trainees/import.go:193-200 | the accepted rows are those of the valid lines, in order |
| ImportRules.InsertsExactly | backend/internal/trainees/import.go:235-280 | a commit inserts all rows exactly when none is stored and no two clash |
| ImportRules.InsertsAccounts | backend/internal/trainees/import.go:236-270 | each row's account, profile and scope, with the file's password or the generated one |
| ImportRules.CredentialsInOrder | backend/internal/trainees/import.go:272-278 | the credentials returned are those of the rows without a password, in order |
| ImportCommit.Roster.Commit | backend/internal/trainees/import.go:225-285 | the token is consumed; all rows are inserted and credentials returned for generated passwords, or nothing changes |
| ImportCommit.CommitExactly | backend/internal/trainees/import.go:235-280 | a commit succeeds exactly when the unique indexes allow all rows together, and then appends one user, profile and coordinator scope per row |
| ImportCommit.CommitOfUpload | backend/internal/trainees/import.go:168-185 | on unchanged tables a commit fails exactly when an accepted row is listed, which takes a failed lookup |
| ImportCommit.CommitCannotFail | backend/internal/trainees/import.go:223-285 | with every lookup answered, a commit on unchanged tables succeeds |
| ImportCommit.FailedLookupIsAccepted | backend/internal/trainees/import.go:168-172 | an input whose failed lookup lets an existing student through and whose commit is refused |
| ImportTokens.ImportStore.put | backend/internal/trainees/import.go:69-86 | storing purges exactly the expired entries, and only above 1000 |
| ImportTokens.ImportStore.take | backend/internal/trainees/import.go:88-99 | taking consumes the token and yields its batch unless absent or expired |
| ImportTokens.ImportStore.Stage | backend/internal/trainees/import.go:206-213 | staging keeps every unexpired snapshot and adds one with a 15-minute life |
| ImportTokens.PurgingUnnoticed | backend/internal/trainees/import.go:69-99 | every take is answered as by a store that never purges |
| ImportTokens.TakeExactly | backend/internal/trainees/import.go:88-99 | a take yields a batch exactly when it was staged under that token, not touched since and not expired |
| ImportTokens.TokenTakenOnce | backend/internal/trainees/import.go:88-99 | with fresh tokens, a token is taken at most once |
| Migrations.Migrator.Up | backend/internal/platform/db/migrate.go:26-86 | the loop runs the pending files in file-name order, each with its version row, and stops at the first failure |
| Migrations.Migrator.Down | backend/internal/platform/db/migrate.go:90-112 | reverts the greatest applied version with its script and row, or changes nothing |
| MigrationRuns.UpExactly | backend/internal/platform/db/migrate.go:52-86 | an Up runs the pending files in order, each on the schema before it, succeeds exactly when all ran and otherwise stops at the first that cannot be applied |
| MigrationRuns.DownExactly | backend/internal/platform/db/migrate.go:90-112 | a Down takes back the version sorted last by its own script and row, or changes nothing, exactly when one of the three things it needs is missing |
| Migrations.UpAfterUpRunsNothing | backend/internal/platform/db/migrate.go:64-69 | Up after a successful Up runs nothing |
| Migrations.UpResumes | backend/internal/platform/db/migrate.go:64-85 | a failed Up and a later successful one together equal one uninterrupted Up |
| Migrations.AppliedIsAlwaysAPrefix | backend/internal/platform/db/migrate.go:52-112 | with agreeing orders, any Ups and Downs leave a prefix applied, and with inverse down scripts the schema is what that prefix builds |
| Migrations.PrefixLostExactly | backend/internal/platform/db/migrate.go:62-97 | some run loses the prefix if and only if some run reaches a state where Down succeeds on a version other than the last of the prefix |
| Migrations.PrefixKeptExactlyWhenOrdersAgree | backend/internal/platform/db/migrate.go:62-97 | for scripts that succeed on the schemas the runs reach, every run leaves a prefix applied if and only if the versions in file-name order ascend in the collation |
| Migrations.PlainVersionsAscend | backend/internal/platform/db/migrate.go:62-66 | versions of characters after the dot ascend in byte order |
| Migrations.ShippedVersionsAscend | backend/internal/platform/db/migrate.go:16-17 | the names of the repository's eight migrations meet that condition |
| Migrations.ShippedStayAPrefix | backend/internal/platform/db/migrate.go:52-112 | under a byte-ordered collation they always leave a prefix applied |
| Migrations.HyphenLosesPrefix | backend/internal/platform/db/migrate.go:62-97 | two files whose versions, after one Up and one Down, are applied without the one before |
| Dashboard.Get | backend/internal/trainees/dashboard.go:60-104 | the response's action, progress and today's rows; 100 percent exactly when nothing remains and the completion query is true; a journal exactly when there is a time-out |
| Dashboard.OfferExactly | backend/internal/trainees/dashboard.go:106-123 | each of the six offers exactly under its condition on the rows |
| Dashboard.AcceptedExactlyWhenOffered | backend/internal/trainees/dashboard.go:106-123 | while an assignment covers the day, Time In, Time Out and Submit are accepted exactly when offered |
| Dashboard.UncoveredDayExactly | backend/internal/trainees/dashboard.go:108-109 | on a day no assignment covers only the coordinator is offered and Time In is refused; nothing else is accepted exactly when the session is not open and its journal absent or not editable |
| Dashboard.EachStepDescends | backend/internal/trainees/dashboard.go:106-123 | any trainee's step lowers a trainee's offer rank by one exactly when it follows that offer and commits |
| Dashboard.SummaryInThreeSteps | backend/internal/trainees/dashboard.go:106-123 | from an offered Time In, the summary is reached by exactly three followed offers and no run contains a fourth |
| Dashboard.SummaryIsReached | backend/internal/trainees/dashboard.go:106-123 | from any offered Time In there is a run of three accepted followed offers that ends at the summary |

## Left out

- HTTP handlers, JSON binding, sessions, CSRF, password hashing, the frontend, listing and search queries: no hard property.
- Image decoding, watermark drawing and the distance formula: the location status is an input of a capture.
- Time zones: the local date, hour and weekday are functions of the instant.
- Settings edits: the unusual-duration threshold and the zone are fixed during a run.
- Postgres and the object store: atomic commits, row locks with re-read, the constraints used, fresh keys, no crashes and known commit outcomes are assumed; a failed put stores nothing; a failed statement or deadlock appears as a transaction that does not commit.
- Database errors on reads: a request that fails on a read answers an internal error and has written nothing.
- Audit rows: best-effort and never read back.
- Reports: their groupings omit the assignment and promise no per-assignment equality.
- Configuration parsing: size suffixes are matched in map order, so the code does not determine the result.
- The correction status `cancelled`: no code writes it.
- Assignments in the interleaved layer are fixed; staff edits of them occur only between atomic requests. One edit between the rule read and the commit of a Time Out is covered by `BreakRules.EditOvertaken`.
- Reminder runs in the interleaved layer: the job is one transaction and notices no lock.
- The rest of the token bucket library: a bucket starts full, refills linearly and is capped at its burst, in integer nanoseconds of refill.
- A CSV reader that keeps failing without reaching the end of the file; failure of the random source for tokens and passwords.
- Two migration runners at the same time.
- Watermark text assembly: string formatting only.
