# The exam-session engine, verified

A Dafny model of the exam platform's session engine, of the browser queue that feeds it, and of the
reports that read the same tables. `dafny verify dfyconfig.toml` checks all of it.

SQL tables are maps, sets and sequences; a transaction or statement is a function or a method on
them; a SELECT is a function or, where SQL leaves a choice, a relation. Where requests race, the
model is a machine that executes one SQL statement at a time: a transaction's writes are private
until it commits, row and advisory locks are held to the end, a statement that needs a locked row
waits, and a guard is judged on the row as committed when the statement runs, which is what READ
COMMITTED does after a lock wait. Results about the machine hold for every interleaving.

Times are integer microseconds, scores and money integer hundredths, ids integers with their order.

| module | what it models |
|---|---|
| Prelude, DecimalText, Keyset | options, results, selections and counting facts; decimal text; keyset paging over any ordered table |
| ExamTables, ExamTransactions, ExamStore | the exam tables, the transactions on them and what they keep, and the repository methods as a class |
| AnswerCollapse | the last-wins collapse and why one batched upsert equals saving answers one by one |
| SessionProtocol, SessionRuns, SessionProgress, SubmitTexts | create, submit, grade, save, check-in and reopen as interleaved statements; serial equivalence and what follows; that nobody is stuck or turned away without reason; what the lock before grading is for |
| SectionTable, SectionRuns | the section rows, and advances of them that race |
| AnswerQueue | the localStorage queue as a class |
| Durability, QueuedEdits, LostRequests | page, queue, chained requests, network and server as one protocol; how long an edit stays queued; exactly when an answer can be lost |
| FullSaves, RemountedPages | how a full save repairs what was lost, and how one can lose something after a remount |
| GradeTotals | a submitted session's total under concurrent grading |
| ParticipantNumbers, CertificateNumbers | number allocation under an advisory lock, and under a unique index with a fallback |
| Ranking, ResultViews, ResultPages | RANK(), and the leaderboard, workspace, export and counts that use it; what paging through them shows |
| Listings, StudentSearch, Cursors | the cursor-paged listings, the assembled student query, cursor text |
| RevenueLedger | the signed ledger, its bucketed series and the product report |
| TestQuestions, TestOrderRuns, ExamQuestions | sort orders under a per-row checked index, over runs; one test per exam for a question |
| Deadlines | the due list and the active count over the same clocks |
| AcceptedAnswers, ExportRows | accepted-answer rows and their fallback; the export's batched question rows |

Where the code does less than its comments or callers assume, the model follows the code, gives the
failing case and states exactly when the property holds:

- The page sends one save at a time, but a save whose promise fails, or whose page is reloaded, may still be on its way when the next is sent; if it lands last, the older answer wins, unless a later full save of the same page repairs it (`LostRequests.CalmRunsKeepAnswersIff`, `LostRequests.RequestLeftBehindLosesAnswer`, `FullSaves.FullSaveRepairs`).
- A page mounted again within the app shows, and saves, the answers of a response fetched earlier, which its own saves did not refresh (`RemountedPages.RemountKeepsAnswersIff`, `RemountedPages.ChangedAnswerCanBeLost`).
- An essay grade writes a total computed from answers read before its transaction, so a concurrent grade of another answer can be missing from it (`GradeTotals.TotalRightThroughoutIff`, `GradeTotals.RacingGradersLoseOne`).
- Certificate numbers of one registration can differ if the exam has no schedule and two calls compose on either side of New Year (`CertificateNumbers.OneNumberIffScheduled`).
- The leaderboard has no role filter, the workspace and the export have one (`ResultViews.UnfilteredViewsAgreeIff`, `ResultViews.StaffSittingSplitsViews`).
- The workspace applies a search before ranking, the export after it (`ResultViews.SearchRanksAgreeIff`, `ResultViews.SearchSplitsRanks`).
- The check for a question in a sibling test runs outside the attaching transaction (`ExamQuestions.RuleHoldsThroughoutIff`, `ExamQuestions.RacingAttachesBreakRule`).
- The list of a reorder is compared with the attached questions outside its transaction; a reorder with an out-of-date list can make the next one fail (`TestOrderRuns.ReorderStaysInRangeIff`, `TestOrderRuns.StaleReorderBlocksNext`).
- An extension replaces the previous one and can shorten it (`Deadlines.ExtensionNeverShortensIff`, `Deadlines.ExtensionShortens`).
- In its grace an extended session or a running section is neither due nor counted active (`Deadlines.NoGapIff`, `Deadlines.SectionNoGapIff`, `Deadlines.GraceLeavesGap`).

## Model

| member | source | states |
|---|---|---|
| AnswerCollapse.CollapseSessionAnswersLastWins | backend/internal/repository/exam.go:2297-2311 | The backward scan and the in-place reversal return exactly the answers that no later one repeats, at ascending positions of the batch |
| AnswerCollapse.ReverseFirst | backend/internal/repository/exam.go:2307-2309 | The swap loop turns the first n elements back to front and touches no other |
| AnswerCollapse.LastWinsSameQuestions | backend/internal/repository/exam.go:2297-2311 | The collapsed batch names the same questions, each once, so Postgres accepts it as one upsert |
| AnswerCollapse.BatchedSaveRefinesSequentialSave | backend/internal/repository/exam.go:2297-2361 | Upserting the collapsed batch in one statement leaves the same table as saving the original answers one at a time |
| ExamStore.Store.CreateExamSessionTx | backend/internal/repository/exam.go:2038-2108 | Succeeds exactly if the registration exists, none of its sessions is in progress and attempts_used is below the limit, 0 counting as 1 and no limit as any number; then one session with the incremented attempt number is there, the registration is counted up and sitting with its first check-in time kept, and nothing else changed; a refusal changes nothing |
| ExamStore.Store.SaveAnswersTx | backend/internal/repository/exam.go:2363-2400 | For a session in progress every question of the batch has its last answer with the time of the save, the position is the one sent or, without one, the stored one, and the save time is now; any other session, or an empty save, changes nothing |
| ExamStore.Store.SubmitSessionTx | backend/internal/repository/exam.go:2402-2445 | Returns 1 exactly if the session was in progress; then the graded answers, the score, the submit time and the finished registration are written, and an earlier forced submit stays one; otherwise everything is as before, the savepoint included; answers for a session that does not exist are a foreign key error |
| ExamStore.Store.GradeEssayAnswerTx | backend/internal/repository/exam.go:2583-2599 | Writes score, comment, grader and time of one answer and no other column or row, or reports that there is no such answer; the tables stay consistent |
| ExamStore.Store.UpdateSessionScoreTx | backend/internal/repository/exam.go:2601-2609 | The one session has the new total, every other column of every session is as before, and the tables stay consistent |
| ExamStore.Store.ReopenSession | backend/internal/repository/exam.go:2621-2637 | One session's extension is now plus the minutes, whatever it was; no other column or session changes |
| ExamStore.Store.CheckInExamTx | backend/internal/repository/exam.go:2022-2036 | The registration is checked in, with an earlier check-in time kept, and nothing else changes |
| ExamTransactions.CreateSucceedsIff | backend/internal/repository/exam.go:2047-2091 | The atomic create goes through exactly under that condition |
| ExamTransactions.GradeWritesGrading | backend/internal/repository/exam.go:2583-2609 | A whole grade, as the runs apply it, writes the grading columns of one answer and the total of its session, and nothing else |
| ExamTransactions.NewSittingIsTheOnlyLiveOne | backend/internal/repository/exam.go:2047-2070 | The count under the row lock makes the new session the only one of its registration in progress |
| ExamTransactions.TransactionsKeepTables | backend/internal/repository/exam.go:2038-2637 | Every transaction keeps attempt numbers 1..attempts_used without repeats, one live session, submitted implies scored, answers with their session, and the ceilings |
| ExamTransactions.SubmittedSessionIsFrozen | backend/internal/repository/exam.go:2363-2445 | After submit no transaction changes an answer's text, flag or verdict or adds or drops an answer; only score columns and the extension can change |
| SessionRuns.StepKeepsProtocol | backend/internal/repository/exam.go:2047-2445 | Every single statement of every interleaving keeps the invariant of locks, private writes and progress |
| SessionRuns.CommitIsOneTransaction | backend/internal/repository/exam.go:2047-2445 | A commit applies one whole transaction to the tables it finds, whatever committed since the transaction began |
| SessionRuns.RunsAreSerial | backend/internal/repository/exam.go:2047-2445 | Every interleaving of statements leaves the tables that its transactions leave one after the other |
| SessionRuns.EveryRunKeepsTables | backend/internal/repository/exam.go:2038-2108 | In every reachable state attempt numbers are unique and dense, at most one session per registration is in progress, submitted sessions are scored and no registration is past its ceiling |
| SessionRuns.AttemptsAreAccountedFor | backend/internal/repository/exam.go:2038-2091 | In every reachable state a registration has as many sessions as attempts used, at most one live, and no more than the limit: 0 allows one, no limit any number |
| SessionRuns.EveryRunKeepsWins | backend/internal/repository/exam.go:2404-2445 | The committed submits since the start are exactly the sessions submitted since, each once, and no session leaves submitted |
| SessionRuns.SubmitHappensOnce | backend/internal/repository/exam.go:2404-2445 | Over student submits, forced submits, the expiry worker and autosaves, each session that was live is submitted by exactly one of them or by none |
| SessionRuns.LoserLeavesNoTrace | backend/internal/repository/exam.go:2438-2445 | A submit that lost the compare-and-set commits nothing: answers, session and registration are as if it had not run |
| SubmitTexts.TextsReadUnderLockStayCurrent | backend/internal/service/exam_session.go:808-839 | From the read of the answers under the session lock until the write, in every run, the texts read are the texts in the table |
| SubmitTexts.LockedSubmitKeepsTexts | backend/internal/service/exam_session.go:808-863 | So a submit that locked before it read commits every answer with its text intact |
| SubmitTexts.UnlockedSubmitLosesText | backend/internal/service/exam_session.go:808-863 | The lock is what it takes: for every live session and saved answer there is a run in which a submit that reads without it overwrites a save committed after the read |
| SessionRuns.SubmittedStaysFrozen | backend/internal/repository/exam.go:2363-2445 | In every run from a state in which a session is submitted, its answers' texts, flags and verdicts stay as they were |
| SessionRuns.UndisturbedCreateCompletes | backend/internal/repository/exam.go:2047-2108 | The machine is not stuck: with nobody in the way a start whose registration has no running sitting and an attempt left, by the same arithmetic, runs through all its statements and leaves exactly the new session and the counted-up registration |
| SessionRuns.UndisturbedSubmitCompletes | backend/internal/service/exam_session.go:808-863 | Likewise a locked submit of a session in progress reads, writes, wins and commits: the graded answers, the submitted row, the finished registration and nothing else |
| SessionProgress.TurnedAwayForAReason | backend/internal/repository/exam.go:2047-2445 | In every state a statement ends its transaction, or finds the race lost, only if the tables leave no choice: no registration, a running sitting or no attempt left; a session that is not in progress; no such answer |
| SessionProgress.NextMovesOrWaits | backend/internal/repository/exam.go:2047-2445 | And every transaction can execute its next statement, unless somebody else has locked a row its job is about |
| SessionProgress.StatementsInOrder | backend/internal/repository/exam.go:2047-2445 | No statement is executed out of its turn |
| SessionProgress.OnlyForTheSameRows | backend/internal/repository/exam.go:2047-2445 | In every run, whoever cannot move waits for another transaction that has locked one of the rows both are about |
| SessionProgress.SaveGoesThrough | backend/internal/repository/exam.go:2363-2400 | A save goes through at once unless its session or one of that session's answers is locked |
| GradeTotals.ComputeSessionTotal | backend/internal/service/exam_grading.go:368-379 | The loop returns the sum of the scores that are not NULL, or 0 if that is less |
| GradeTotals.TotalIsRightIff | backend/internal/service/exam_grading.go:364-379 | A session's total is right exactly if it is that sum over its answers, listed in any order |
| GradeTotals.SubmitLeavesTotalRight | backend/internal/service/exam_grading.go:270-361 | A submit leaves the session with the total of its answers' scores |
| GradeTotals.TotalRightThroughoutIff | backend/internal/service/exam_result.go:232-286 | In any run of grades and other transactions, a submitted session's score is the total of its answers in every state exactly if every grade was written while the answers it had read before its transaction still gave that total |
| GradeTotals.NobodyElseGraded | backend/internal/service/exam_result.go:232-286 | They do if no other answer of the session has been graded since |
| GradeTotals.RacingGradersLoseOne | backend/internal/service/exam_result.go:232-286 | On every submitted session with two ungraded essays: two graders who both read before either writes leave only the second grade in the total |
| SectionTable.Table.CreateSessionSectionsTx | backend/internal/repository/exam.go:3092-3110 | Succeeds exactly if the tests are new and distinct; then section i is at test i and earlier rows are as they were |
| SectionTable.InsertableIff | backend/internal/repository/exam.go:3096-3110 | One insert at a time goes through exactly if no test repeats and none was there |
| SectionTable.SeedingIsInSequence | backend/internal/repository/exam.go:3092-3095 | The seeding of the service starts the machine in sequence, with nothing closed |
| SectionTable.Table.AdvanceSessionSectionTx | backend/internal/repository/exam.go:3143-3187 | Succeeds exactly if the section is active; then it is closed and submitted now, the pending one with the lowest order is active and started now with its order, minutes and extension kept, or none was pending, and every other row is as it was; a refused advance changes nothing |
| SectionTable.AdvanceKeepsSequence | backend/internal/repository/exam.go:3150-3187 | An advance keeps the statuses, in sort order, as closed*, at most one active, pending*, and closes exactly one more section |
| SectionTable.ActiveJoinIsUnique | backend/internal/repository/dashboard_counts.go:54-55 | The join on the active section returns at most one row a session, and none exactly when all sections are closed |
| SectionTable.Table.ExtendActiveSectionTx | backend/internal/repository/exam.go:3189-3205 | The active section's extension is now plus the minutes and nothing else changes, or reports that there is none |
| SectionRuns.CommitIsOneAdvance | backend/internal/repository/exam.go:3150-3187 | In every interleaving a commit is one whole advance of the rows it finds, and no other advance is half-way |
| SectionRuns.EveryRunKeepsSections | backend/internal/repository/exam.go:3150-3187 | Every run keeps the sequence, and the closed sections are those closed at the start and those advanced, each once |
| SectionRuns.SittingTakesExactlyItsSections | backend/internal/repository/exam.go:3092-3187 | A sitting of n sections is through after exactly n committed advances, however often they are fired |
| SectionRuns.DoubleFiredAdvanceIsNoOp | backend/internal/repository/exam.go:3143-3161 | A second advance of a closed section ends without touching a row |
| SectionRuns.HeldSectionStays | backend/internal/service/exam_expiry.go:112-124 | The section the expiry worker judges under its row lock is in every run still active and unextended when the worker advances it |
| SectionRuns.AdvanceGoesThrough | backend/internal/repository/exam.go:3143-3187 | With no advance under way, one of the active section runs through all its statements and leaves its rows and nothing else |
| SectionRuns.MovesOrWaitsForHolder | backend/internal/repository/exam.go:3150-3187 | In every state an advance can execute its next statement, or waits for the one transaction that holds its section, which can |
| SectionRuns.RefusedForAReason | backend/internal/repository/exam.go:3143-3161 | It ends without a commit only if its section is not active |
| AnswerQueue.LoadedStateIsValid | web/lib/exam-session-queue.ts:40-69 | Whatever localStorage holds, in the old form, the new one or broken, the loaded revisions are positive and the next one is larger than all of them |
| AnswerQueue.OldQueueIsNumbered | web/lib/exam-session-queue.ts:48-52 | An array from before revisions existed loads whole, numbered from 1 in its order |
| AnswerQueue.SavedStateLoadsBack | web/lib/exam-session-queue.ts:40-76 | A queue that was written is read back unchanged |
| AnswerQueue.Queue.LoadQueue | web/lib/exam-session-queue.ts:40-80 | Whatever is stored: of the wrapped form exactly the entries with a usable revision, in order; of the old array every answer, in order, without a usable revision numbered by its position; of a missing or broken value nothing; and a queue that was written as it was |
| AnswerQueue.LoadedNext | web/lib/exam-session-queue.ts:53-69 | The next revision is the stored one if it is past all that were read, and otherwise the one after the largest of those |
| AnswerQueue.Queue.SaveQueue | web/lib/exam-session-queue.ts:82-92 | Replaces the entries; the next revision stays or is the one after the largest entry, so revisions never run backwards |
| AnswerQueue.Queue.ClearQueue | web/lib/exam-session-queue.ts:94-100 | Forgets the entries and the revision counter |
| AnswerQueue.Queue.QueueAnswerDelta | web/lib/exam-session-queue.ts:102-117 | The question's entry is last, with a revision above all that were queued; the entries of all other questions are before it in their order |
| AnswerQueue.Queue.AcknowledgeQueueRevisions | web/lib/exam-session-queue.ts:119-135 | Removes exactly the entries whose question's last acknowledgement carries their revision, keeps the others in order and the next revision |
| Durability.StepKeepsOk | web/lib/hooks/exam.ts:95-120 | Every step of page, request chain, network and server keeps the invariant; only a dispatch needs that no request is left behind |
| Durability.NoRunLosesAnAnswer | web/app/(exam-session)/exam/sessions/[id]/page.tsx:271-340 | In every run that dispatches only while no request is left behind - whatever fails, is lost or is reloaded - each edited question's latest value is its queue entry or, without one, the server's row; with an empty queue the server has everything |
| Durability.TheChainIsEnoughInCalmRuns | web/lib/hooks/exam.ts:95-120 | As long as no promise fails and no page reloads while its request is in transit, the chain alone keeps at most one writing request in transit, and no answer is lost |
| Durability.HydratedIsUpToDate | web/app/(exam-session)/exam/sessions/[id]/page.tsx:464-492 | While no answer is lost, a loading page, which shows the server's answers overlaid by the queue, shows the latest edit of every question |
| QueuedEdits.EditStaysUntilItsOwnSave | web/lib/exam-session-queue.ts:119-135 | In every run, whatever is delivered, lost, failed, acknowledged or reloaded: an edit stays queued until its question is edited again or a save of the queue that was issued after it succeeds |
| QueuedEdits.LaterEditSurvivesAck | web/lib/exam-session-queue.ts:119-135 | So an edit made while saves are waiting, on their way or landed survives all their acknowledgements |
| LostRequests.CalmRunsKeepAnswersIff | web/lib/hooks/exam.ts:95-120 | From a page in order, the runs in which nothing further is left behind lose no answer exactly if no request is left behind now: none of an earlier page or of a failed promise is still on its way |
| LostRequests.DispatchIsSafeIff | web/lib/hooks/exam.ts:103-110 | A dispatch puts no answer at risk exactly if no request is left behind when it is made |
| LostRequests.GuardIsExact | web/lib/hooks/exam.ts:95-120 | In any run, with any failures and reloads: all its dispatches are safe exactly if each is made with no request left behind |
| LostRequests.RequestLeftBehindLosesAnswer | web/app/(exam-session)/exam/sessions/[id]/page.tsx:303-333 | The code dispatches all the same. On every page at rest: a save's promise fails while its request is on its way, a newer answer is saved and acknowledged, the first request lands; the newer answer is in neither queue nor table |
| LostRequests.LoadedPageLosesAnswer | web/app/(exam-session)/exam/sessions/[id]/page.tsx:515-525 | So on every freshly loaded page, after the full save it begins with has settled |
| LostRequests.FailedRequestLosesAnswer | web/app/(exam-session)/exam/sessions/[id]/page.tsx:303-333 | That run on one concrete page, from loading on |
| LostRequests.ReloadedPageCanLose | web/app/(exam-session)/exam/sessions/[id]/page.tsx:515-558 | The same after a reload: the full save and the replay of the loading page do not prevent it |
| LostRequests.ReloadedPageCanSave | web/app/(exam-session)/exam/sessions/[id]/page.tsx:217-233 | The full save of the loading page exists: its memory can be listed, each question once |
| LostRequests.ChainRunsDry | web/lib/hooks/exam.ts:111-117 | From anywhere the chain can settle every pending promise in order, without leaving anything behind |
| LostRequests.SaveEmptiesQueue | web/lib/hooks/exam.ts:95-120 | A save of a section's queue that meets no trouble brings text and flag of every entry to the server, takes exactly those entries out of the queue and leaves the page as it was |
| FullSaves.PageRemembers | web/app/(exam-session)/exam/sessions/[id]/page.tsx:217-233 | In every run without a reload the page's memory holds the latest edit of every question, whatever the server lost |
| FullSaves.FullSaveRepairs | web/app/(exam-session)/exam/sessions/[id]/page.tsx:428-444 | So a full save repairs: with nothing left behind when it is issued, in every calm run in which it has landed, whatever is edited, saved, lost or reloaded meanwhile, no answer is lost, and none will be in any calm run from there |
| FullSaves.FullSaveCanLand | web/app/(exam-session)/exam/sessions/[id]/page.tsx:428-444 | There is such a run: the one in which the chain runs dry |
| RemountedPages.RemountKeepsAnswersIff | web/lib/hooks/exam.ts:84-93 | A page at rest that is left and mounted again within the app hydrates from the response it had fetched: no calm run from there loses an answer exactly if that response is current for every question edited here and not queued |
| RemountedPages.ChangedAnswerCanBeLost | web/app/(exam-session)/exam/sessions/[id]/page.tsx:469-525 | Saves do not refresh that response. On every page at rest: change an answer that was there, have it saved and acknowledged, leave and mount again; the page's own full save can put the old answer back |
| ParticipantNumbers.Registrations.CreateExamRegistration | backend/internal/repository/exam.go:1663-1689 | A registered student changes nothing; a new one gets one row more, numbered one above the largest number of the exam, 1 for the first; an exam numbered 1..n stays so |
| ParticipantNumbers.Registrations.Fulfil | backend/internal/worker/outbox.go:222-247 | A fan-out registers its list one delivery after the other |
| ParticipantNumbers.NumberIsPosition | backend/internal/repository/exam.go:1663-1689 | A student's number is the 1-based position in the de-duplicated delivery order of the exam: dense, unique and complete |
| ParticipantNumbers.FirstDeliveryGetsNextNumber | backend/internal/repository/exam.go:1663-1689 | A student's first delivery gets one more than the students of the exam delivered before, and keeps it |
| ParticipantNumbers.RowsAreFirstDeliveries | backend/internal/repository/exam.go:1663-1689 | Nobody else gets a row |
| ParticipantNumbers.NumbersNeverChange | backend/internal/repository/exam.go:1681-1688 | Registrations are only added, so a number once given stays |
| ParticipantNumbers.RedeliveryConsumesNothing | backend/internal/repository/exam.go:1679-1688 | A repeated delivery changes nothing and uses up no number |
| ParticipantNumbers.InsertNeverCollides | backend/internal/repository/exam.go:1667-1688 | Under the advisory lock an insert neither waits for another transaction nor meets a unique violation, even if two exams share a lock key |
| ParticipantNumbers.CommitIsSerial | backend/internal/repository/exam.go:1667-1688 | A commit appends what its deliveries make of the committed rows, whatever was committed meanwhile for other exams |
| ParticipantNumbers.EveryRunNumbersInDeliveryOrder | backend/internal/service/exam_grant.go:136-165 | Over every interleaving of order fulfilment and grants, numbers are positions in the committed delivery order and old numbers are unchanged |
| ParticipantNumbers.GrantGoesThrough | backend/internal/repository/exam.go:1667-1688 | Whenever nobody holds the exam's lock a grant runs through and leaves the one delivery and nothing else behind |
| ParticipantNumbers.UnlockedInsertWouldWait | backend/internal/repository/exam.go:1663-1689 | What the lock is for: an insert whose student or number somebody else has inserted and not committed would have to wait for the unique index |
| DecimalText.ValueOfPadded | backend/internal/repository/exam.go:2716 | Zero padding loses nothing: the number can be read back from its padded text |
| DecimalText.PaddedIff | backend/internal/repository/exam.go:2716 | The padded text is the one of digits only, with the number's value, at least the given width and no zeros in front beyond it |
| CertificateNumbers.FormatIsInjective | backend/internal/repository/exam.go:2716 | The certificate format identifies no two triples of year, exam number and participant number |
| CertificateNumbers.FormatIff | backend/internal/repository/exam.go:2716 | And only the format reads that way: ABK, then year, exam number and participant number in this order |
| CertificateNumbers.Certificates.SiblingCertificateNumber | backend/internal/repository/exam.go:2748-2766 | Returns the number of the registration's numbered sitting with the highest attempt, or nothing exactly if none is numbered |
| CertificateNumbers.Certificates.AllocateCertificateNumber | backend/internal/repository/exam.go:2662-2746 | Undisturbed: the session's own number, or one of its registration, is returned as it is; otherwise the text is ABK, year, exam number and participant number, each in decimal with at least 4, 4 and 6 digits and separated by slashes, the year being the schedule's or without one this year's, and is written to this session only; refused exactly if a sitting holds that text |
| CertificateNumbers.CollisionIsWithSibling | backend/internal/repository/exam.go:2728-2735 | Without legacy rows a unique violation can only come from a sibling, so the fallback finds a number |
| CertificateNumbers.NoCallFails | backend/internal/repository/exam.go:2682-2746 | In every interleaving no call on an existing session fails, and two registrations never receive the same number, with or without a schedule |
| CertificateNumbers.UnfinishedCallCanMove | backend/internal/repository/exam.go:2682-2746 | A call without its answer always has a next statement that can run, whatever the other calls have done |
| CertificateNumbers.CallsAreShort | backend/internal/repository/exam.go:2682-2746 | In every run a call takes at most four statements |
| CertificateNumbers.EveryCallIsAnswered | backend/internal/repository/exam.go:2682-2746 | From every state a call ends after at most four statements of its own; for an existing session it ends with a number |
| CertificateNumbers.ScheduledRegistrationHasOneNumber | backend/internal/repository/exam.go:2662-2746 | With the exam's schedule set, all calls for the sessions of a registration return one and the same number |
| CertificateNumbers.NewYearRaceSplits | backend/internal/repository/exam.go:2708-2716 | Without a schedule two racing calls can compose in different years and answer differently |
| CertificateNumbers.OneNumberIffScheduled | backend/internal/repository/exam.go:2662-2746 | For a registration with two sittings: one number in every interleaving exactly if the exam has a schedule |
| CertificateNumbers.WrittenNumberReads | backend/internal/repository/exam.go:2708-2728 | Among concurrent calls too, the number a call writes reads as its registration's, was nobody's before and goes to its own session only |
| CertificateNumbers.AnswersRead | backend/internal/repository/exam.go:2682-2746 | In every run the number a call returns reads as its registration's, whoever wrote it |
| Ranking.RankIsOneMoreThanHigherScores | backend/internal/repository/exam.go:2555-2566 | RANK() over scores, ties in any order, is one more than CountHigherScores counts |
| Ranking.NarrowerRank | backend/internal/repository/admin_results_workspace.go:128-132 | Ranked among fewer, a score keeps its rank exactly if nobody left out scored higher |
| ResultViews.AllViewsPickTheSame | backend/internal/repository/admin_results_workspace.go:37-56 | With unique attempt numbers and scored submits, the leaderboard's and the workspace's DISTINCT ON pick the same sessions whatever their tie-breaks and null checks |
| ResultViews.LeaderboardIs | backend/internal/repository/exam.go:2457-2467 | The leaderboard is one row for each session that both DISTINCT ON variants pick, with its rank among them |
| ResultViews.WorkspaceIs | backend/internal/repository/admin_results_workspace.go:89-136 | The workspace is that, narrowed to the cohort before ranking |
| ResultViews.ExportIs | backend/internal/repository/admin_results.go:137-175 | The export is that, narrowed by school before ranking and by search after it |
| ResultViews.LeaderboardRows | backend/internal/repository/exam.go:2447-2467 | Row by row: a session has one exactly if it is of the exam and submitted, every answer of it to an essay question has been graded and no later attempt of its registration has all of that; the rank is one more than those of them that scored higher |
| ResultViews.WorkspaceRows | backend/internal/repository/admin_results_workspace.go:37-136 | The workspace has one exactly for those of them whose student is in the cohort, ranked among these |
| ResultViews.ExportedRows | backend/internal/repository/admin_results.go:137-175 | The export for those of these whose student the search found |
| ResultViews.CountsCount | backend/internal/repository/exam.go:2569-2581 | Both counts count those sessions |
| ResultViews.LastGradeBringsSessionIn | backend/internal/repository/exam.go:2583-2609 | Grading the last ungraded essay of a latest attempt brings it onto the leaderboard, on which it was not before, with the total the grade wrote |
| ResultViews.UnfilteredViewsAgreeIff | backend/internal/repository/admin_results.go:137-175 | Unfiltered, workspace and export hold the same rows and ranks; the leaderboard agrees with them exactly if every session in the results is a student's, because it does not look at roles |
| ResultViews.StaffSittingSplitsViews | backend/internal/repository/exam.go:2457-2467 | Such a state: the one result is not a student's, so the leaderboard has a row and the workspace none |
| ResultViews.LeaderboardRanks | backend/internal/repository/exam.go:2555-2566 | Every leaderboard rank is 1 + CountHigherScores |
| ResultViews.LeaderboardLength | backend/internal/repository/exam.go:2569-2581 | The leaderboard is as long as CountFullyGradedSessions says |
| ResultViews.WorkspaceCountsMatchSummary | backend/internal/repository/admin_results_workspace.go:201-225 | Under any filter the workspace has as many rows as its summary counts completed |
| ResultViews.SearchRanksAgreeIff | backend/internal/repository/admin_results.go:164-175 | Under a search workspace and export agree exactly if nobody left out scored higher than somebody found |
| ResultViews.SearchSplitsRanks | backend/internal/repository/admin_results.go:164-175 | Such a state: the second of two students is rank 1 of the searched workspace and rank 2 of the searched export |
| ResultViews.ViewsExist | backend/internal/repository/exam.go:2770-2833 | Each of the three queries has an answer, so the agreement is not empty |
| ResultViews.ConsistentViewsAgree | backend/internal/repository/admin_results_workspace.go:37-56 | In consistent tables, with students' sessions only: equal rows and ranks in all three views, ranks one more than the higher scores, and lengths equal to both counts |
| ResultViews.ViewsAgreeInEveryReachableState | backend/internal/repository/exam.go:2447-2467 | In every state that any interleaving of the session engine reaches, the three views, the rank count and both totals agree |
| Keyset.Truncate | backend/internal/repository/exam.go:2820-2830 | The loop's cut: the page is as much as fits and there is a next cursor exactly if something is left |
| Keyset.PageIsNextStretch | backend/internal/repository/exam.go:2782-2830 | The answer at a cursor is the next stretch of the full ordered list |
| Keyset.PagesAreComplete | backend/internal/repository/exam.go:2770-2833 | For every table with a strict order and every limit, the pages of a whole walk joined are the full ordered list, nothing skipped or repeated |
| Keyset.WalkExists | backend/internal/repository/exam.go:2770-2833 | Following the cursors always ends |
| Listings.RosterCursorFollowsOrder | backend/internal/repository/exam.go:1891-1911 | In SQL's three-valued logic the roster's cursor clause selects exactly the rows its ORDER BY puts later, in both directions and across NULLS LAST |
| Listings.RosterPagesAreComplete | backend/internal/repository/exam.go:1863-1942 | The roster's pages are complete, numbers ascending or descending with ids breaking ties in the same direction, and registrations without a number last |
| Listings.LeaderboardPagesAreComplete | backend/internal/repository/exam.go:2770-2833 | The leaderboard's pages are complete under score descending, id ascending |
| Listings.WorkspacePagesAreComplete | backend/internal/repository/admin_results_workspace.go:136-196 | The workspace's pages are complete, ordered by rank, then score descending, then registration, with its negated-score cursor and its limit clamp |
| ResultPages.LeaderboardWalkShowsResults | backend/internal/repository/exam.go:2770-2833 | In every reachable state, whoever walks the leaderboard to its end has seen the result of every registration once, best rank first, equal ranks exactly for equal scores |
| ResultPages.WorkspaceWalkShowsResults | backend/internal/repository/admin_results_workspace.go:82-196 | The same for the results workspace of any cohort, ranked within the cohort |
| StudentSearch.AppendIf | backend/internal/repository/admin_students.go:65-93 | One optional filter: the conjunct names the placeholder its argument gets, and the query means what it did and the filter |
| StudentSearch.AppendStudentFilterSQL | backend/internal/repository/admin_students.go:58-93 | The assembled conjuncts with their numbered arguments hold of a user exactly if the filter matches |
| StudentSearch.StudentListQuery | backend/internal/repository/admin_students.go:107-137 | With eligibility and cursor appended, the query selects exactly the users with role student, not deleted, that the filter matches, are active and unregistered if an exam is given, and come after the cursor |
| StudentSearch.CountStudentsAdmin | backend/internal/repository/admin_students.go:182-199 | Counts the users with role student, not deleted, that the filter matches, and the active and the deactivated among them, ignoring cursor, limit and exam |
| StudentSearch.StudentPagesAreComplete | backend/internal/repository/admin_students.go:95-168 | The pages show every such student once, newest first, equal times by id descending |
| StudentSearch.PagesMatchTotalIff | backend/internal/repository/admin_students.go:182-199 | Their length is the count's total exactly if no matching student is held back by the exam filter; always without one |
| Cursors.NameCursorAcceptedIff | backend/internal/repository/cursor.go:45-56 | A name cursor is accepted exactly if it is a name, a comma and comma-free text of an id |
| Cursors.NameCursorRoundTrip | backend/internal/repository/cursor.go:36-56 | Every name survives its cursor, including names with commas |
| Cursors.OrderCursorAcceptedIff | backend/internal/repository/cursor.go:18-34 | An order cursor is accepted exactly if it is the comma-free text of an instant, a comma and the text of an id |
| Cursors.OrderCursorRoundTrip | backend/internal/repository/cursor.go:10-34 | Instant and id survive the order cursor |
| Cursors.RosterCursorAcceptedIff | backend/internal/repository/exam.go:1951-1968 | A roster cursor is accepted exactly if it is "null" or a positive number, a comma and the text of an id |
| Cursors.RosterCursorRoundTripIff | backend/internal/repository/exam.go:1944-1968 | A roster cursor survives exactly if its number is missing or positive |
| DecimalText.AtoiOfItoa | backend/internal/repository/exam.go:1944-1968 | A decimal number survives being written and read |
| DecimalText.ItoaWrites | backend/internal/repository/exam.go:1944-1949 | A number is written in decimal without zeros in front, and with a sign only if it is negative |
| DecimalText.AtoiAccepts | backend/internal/repository/exam.go:1951-1968 | What is read as a number is digits, with one sign in front or none, whose value fits 64 bits |
| RevenueLedger.EventHasOneBucket | backend/internal/repository/dashboard_series.go:104-125 | Each event of the window falls in exactly one bucket of the spine |
| RevenueLedger.SpineTilesWindow | backend/internal/repository/dashboard_series.go:104-111 | Bucket k of the spine starts k units after the window, in Jakarta time, and the last one is the one the window ends in; it is empty exactly if the window is |
| RevenueLedger.GroupsAddUp | backend/internal/repository/order_reporting.go:112-124 | Groups that cover every row, each listed once, add up to the total |
| RevenueLedger.SeriesConserves | backend/internal/repository/dashboard_series.go:78-170 | For every window and either bucket size the series adds up to the window's total |
| RevenueLedger.SeriesAtBucket | backend/internal/repository/dashboard_series.go:112-169 | Bucket by bucket: the series is as long as the spine, and its k-th value is what moved from the k-th unit after the start of the window up to the next, or to the end of the window |
| RevenueLedger.DaySeries | backend/internal/repository/dashboard_series.go:206-219 | A day is 24 hours from the start of the window: n days give n values |
| RevenueLedger.WeekSeries | backend/internal/repository/dashboard_series.go:206-219 | A week is seven of them: each weekly value is the sum of its seven daily ones |
| RevenueLedger.DayAndWeekAgree | backend/internal/repository/dashboard_series.go:206-219 | Day view and week view of a window add up to the same |
| RevenueLedger.AdjacentSeriesAdd | backend/internal/repository/dashboard_series.go:78-170 | Adjacent windows add, each anchored at its own start and with its own bucket size |
| RevenueLedger.SeriesIsTheOrders | backend/internal/repository/dashboard_series.go:20-65 | The revenue series adds up to what the orders leave in the window, paid less refunded, and the count to the orders paid in it |
| RevenueLedger.BucketIsTheOrders | backend/internal/repository/dashboard_series.go:48-65 | And bucket by bucket: each shows the totals of the orders paid in it less those refunded in it, a refund being a cancellation for the reason refunded, and how many were paid in it |
| RevenueLedger.RefundedSaleNetsZeroAndCountsOnce | backend/internal/repository/dashboard_series.go:36-52 | An order paid and refunded inside the window adds nothing to the revenue and one to the count |
| RevenueLedger.ProductsAgreeWithSplit | backend/internal/repository/order_reporting.go:86-124 | Product revenues, all products listed, add up to the digital and physical series of the same window |
| RevenueLedger.SplitBucketIsTheItems | backend/internal/repository/dashboard_series.go:126-139 | Each bucket of the split shows the items of its kind of the orders paid in it less those refunded in it, an item counting with its line total or, without one, its price times its quantity |
| RevenueLedger.ProductIsItsItems | backend/internal/repository/order_reporting.go:86-124 | A product's revenue is that of its items over the window |
| TestQuestions.ShiftIsSafeIff | backend/internal/repository/exam.go:1094-1106 | The shifting update keeps the index in whatever order the rows are visited exactly if no two stored orders are the offset apart |
| TestQuestions.EveryReorderStateIsUnique | backend/internal/repository/exam.go:1094-1117 | For stored orders in 0..1000000 and any list without repeats, every single-row state of a reorder keeps sort orders unique, in whatever order the rows are visited |
| TestQuestions.Table.GetMaxSortOrderForTestTx | backend/internal/repository/exam.go:991-1000 | Returns the maximum order of a test, 0 if it has no question |
| TestQuestions.Table.AttachQuestionsToTestTx | backend/internal/repository/exam.go:1039-1082 | Succeeds exactly if no new question is repeated, which the service makes sure of; then exactly the questions not attached before follow the largest order, one by one in the order given, and orders are unique; otherwise nothing is left |
| TestQuestions.AttachAllAppends | backend/internal/repository/exam.go:1069-1081 | What the inserts one after the other amount to |
| TestQuestions.Table.ShiftOrders | backend/internal/repository/exam.go:1098-1106 | The per-row checked shift succeeds exactly if every state on its way keeps the index, and then every order is larger by the offset |
| TestQuestions.Table.ReorderTestQuestionsTx | backend/internal/repository/exam.go:1094-1117 | Succeeds exactly if every single-row state keeps the index, so always with stored orders in 0..1000000; then question i of the list, if it is attached, has order i, and one that is not in the list its old order plus a million and the length of the list; a failure leaves nothing |
| TestQuestions.FarApartOrdersCanClash | backend/internal/repository/exam.go:1094-1106 | Two orders exactly that far apart are refused in one order of visiting |
| TestOrderRuns.CurrentRunsStayInRange | backend/internal/repository/exam.go:1039-1117 | While reorders come with the questions attached at that moment, the orders are unique and grow by no more than what is attached, so they stay in 0..1000000 until a million questions have been |
| TestOrderRuns.CurrentReordersGoThrough | backend/internal/repository/exam.go:1094-1117 | And every reorder in such a run is carried out: question i of its list has order i |
| TestOrderRuns.AttachIsTaken | backend/internal/repository/exam.go:1039-1082 | Every attach in such a run is taken and appends what is new |
| TestOrderRuns.EmptyTestStaysInRange | backend/internal/repository/exam.go:1039-1117 | So from an empty test on: orders unique and in 0..1000000, every reorder carried out, until a million questions have been named in attaches |
| TestOrderRuns.ReorderStaysInRangeIff | backend/internal/repository/exam.go:1094-1117 | A reorder leaves the orders in range exactly if its list names every attached question |
| TestOrderRuns.StaleReorderBlocksNext | backend/internal/service/exam.go:676-694 | The list is checked before the transaction: on every ordered test, one question attached in between leaves two orders the next reorder's offset apart, so that reorder can be refused |
| ExamQuestions.AttachKeepsRuleIff | backend/internal/repository/exam.go:1002-1036 | An attach keeps a question in one test per exam exactly if the collision query is empty when it runs |
| ExamQuestions.GuardedRunsKeepRule | backend/internal/repository/exam.go:1002-1082 | If every attach runs while its check still holds, the rule holds in every reachable state |
| ExamQuestions.RuleHoldsThroughoutIff | backend/internal/repository/exam.go:1002-1082 | In any run the rule holds in all states exactly if every attach ran while its check still held |
| ExamQuestions.RacingAttachesBreakRule | backend/internal/service/exam.go:629-660 | The check runs before the transaction, so two calls that both check first break the rule |
| ExamQuestions.GetQuestionTestMap | backend/internal/repository/exam_question_map.go:9-35 | The loop returns for every question of the rows the test of its last row |
| ExamQuestions.MapIgnoresRowOrder | backend/internal/repository/exam_question_map.go:9-35 | Under the rule the map does not depend on the order of the rows |
| ExamQuestions.MapSizeIsTotalIff | backend/internal/repository/exam.go:2985-3000 | The map is as large as GetExamQuestionTotal exactly if no question occurs twice in the join |
| ExamQuestions.MapIsWellDefinedInGuardedRuns | backend/internal/repository/exam_question_map.go:9-35 | In every state guarded runs reach, the map is as large as the total and the same for every order of the rows |
| Deadlines.CountedAtMostOnce | backend/internal/repository/dashboard_counts.go:50-75 | A session adds at most one to the active count |
| Deadlines.StandardDueIff | backend/internal/repository/exam_expiry.go:26-39 | A standard session is due exactly if it is in progress, has a duration, and both its regular end and its extension, each plus the grace, have passed |
| Deadlines.SectionedDueIff | backend/internal/repository/exam_expiry.go:41-60 | A sectioned one exactly if the same holds of an active section that has started and has minutes |
| Deadlines.OpenedSectionIsDue | backend/internal/repository/exam_expiry.go:41-60 | The section that an advance opens is due exactly its minutes and the grace after that, or its extension and the grace if that is later |
| Deadlines.CountedByExamClockIff | backend/internal/repository/dashboard_counts.go:65-75 | Unless a section runs, a session in progress counts exactly while there is no limit, before its end with grace, or before its extension |
| Deadlines.CountedBySectionClockIff | backend/internal/repository/dashboard_counts.go:56-64 | While one runs, exactly before that section's end without grace, or its extension, or if it has neither |
| Deadlines.DueIsNotCounted | backend/internal/repository/exam_expiry.go:25-61 | With non-negative grace and sections only in sectioned modes, nothing due is still counted active |
| Deadlines.NeverDueAndCountedIff | backend/internal/repository/dashboard_counts.go:65-75 | For a standard session due and counted never overlap exactly if grace is non-negative or no extension reaches past the graced end |
| Deadlines.NoGapIff | backend/internal/repository/dashboard_counts.go:65-75 | For a standard session no time lies between the two exactly if there is no grace or no extension past the regular end |
| Deadlines.SectionNeverDueAndCountedIff | backend/internal/repository/dashboard_counts.go:50-64 | While a section runs, due and counted never overlap exactly if grace is not negative, whatever the extensions |
| Deadlines.SectionNoGapIff | backend/internal/repository/dashboard_counts.go:50-64 | And no time lies between them exactly if there is no grace, because the count gives a section none |
| Deadlines.GraceLeavesGap | backend/internal/repository/dashboard_counts.go:50-75 | Two such times: 95 minutes into an hour's exam with ten minutes of grace, extended to 90; and five minutes into a section's grace |
| Deadlines.ExtensionKeepsSessionOffList | backend/internal/repository/exam.go:2621-2637 | Granted m minutes at t, a session is not due before t + m |
| Deadlines.ExtensionKeepsSectionOffList | backend/internal/repository/exam.go:3189-3205 | Nor is an active section |
| Deadlines.ExtensionNeverShortensIff | backend/internal/repository/exam.go:2621-2637 | An extension leaves the due time or moves it later exactly if the previous one does not reach past both the regular end and the new deadline |
| Deadlines.ExtensionShortens | backend/internal/repository/exam.go:2621-2637 | Such an extension: five minutes granted ten minutes into one of an hour move the deadline back by 45 |
| AcceptedAnswers.StampScalarCorrectAnswers | backend/internal/repository/exam.go:582-596 | The loop writes the first accepted answer of every blank that has one into its scalar, in place, and changes nothing else |
| AcceptedAnswers.Bank.ReplaceAcceptedAnswersTx | backend/internal/repository/exam.go:598-633 | Deletes and reinserts the rows; fails exactly if a key would repeat |
| AcceptedAnswers.Bank.UpdateQuestionTx | backend/internal/repository/exam.go:667-722 | Goes through exactly if the question exists, no blank index repeats and question and blank 0 do not both have answers; then every answer is stored under its blank, numbered from 1, no other row is there, and the scalars hold the first accepted answers; otherwise nothing changes |
| AcceptedAnswers.WrittenIff | backend/internal/repository/exam.go:602-633 | A write goes through exactly if no blank index repeats and the question and a blank 0 do not both have answers |
| AcceptedAnswers.QuestionRoundTrip | backend/internal/repository/exam.go:412-422 | The question's set is read back unchanged and in order, an empty one as its scalar or as nothing; the scalar is the first accepted answer |
| AcceptedAnswers.BlankRoundTrip | backend/internal/repository/exam.go:412-422 | The same for every blank |
| AcceptedAnswers.WritingWhatWasReadIsAFixedPoint | backend/internal/repository/exam.go:562-722 | Writing what was read goes through and changes nothing for readers, nor the scalars |
| AcceptedAnswers.BlankZeroIsReadAsTheQuestion | backend/internal/repository/exam.go:598-633 | Blank indexes must start at 1: the answers of a blank 0 are read as the question's own |
| ExportRows.Collect | backend/internal/repository/admin_results.go:283-291 | One batch's rows are appended to their sessions, in order |
| ExportRows.FetchInBatches | backend/internal/repository/admin_results.go:257-297 | Batches of at most a hundred, and no more of them than that takes, collect for every session what one query for all would |
| ExportRows.AttachDetailedExportQuestionRows | backend/internal/repository/admin_results.go:252-303 | Each ranked row gets its own session's question rows and changes in nothing else |

## Left out

- Durability.NoRunLosesAnAnswer: stated for a session in progress, because a save after submit is a silent no-op; a lost tab is a reload. The debounce and retry timers, which decide when a save is issued, the save before a submit, and `clearQueue`, which resets the revision counter, are not steps; two tabs of one session are left out.
- Durability.StepKeepsOk: the saves issued instead of the queue's while localStorage refuses to store are not modelled; the periodic full save is. The position that a save carries along is a parameter of its delivery.
- FullSaves.FullSaveRepairs: for a full save that carries every latest edit; a value without text and flag whose text was never set is not part of one, and in a sectioned exam neither are the other sections.
- RemountedPages.RemountKeepsAnswersIff: for a page whose promises have all settled when it is left; one that is mounted again while a save is pending starts a second chain, which is left out.
- Durability.HydratedIsUpToDate: a reload reads the server and shows what it read in one step.
- GradeTotals.TotalRightThroughoutIff: transactions are whole, which is what their interleavings amount to; the points of a grade are not compared with the question's.
- TestOrderRuns.CurrentRunsStayInRange: two attaches that race, and attaches of a single question, which append in the same way, are left out.
- AnswerQueue.Queue.SaveQueue: says nothing for entries whose revision is not positive, which `loadQueue` would drop.
- SessionRuns.RunsAreSerial: a deadlock that Postgres resolves is an abort, which is a step; that a waiting statement is eventually woken is not stated. Saves and submits lock the answer rows they name, in one step.
- SubmitTexts.LockedSubmitKeepsTexts: of the grading code only that it copies the text it read is modelled; it clears the review flags. Every caller of the service locks first; a submit without the lock is a step of the machine to show what the lock is for.
- ExamTransactions.SubmittedSessionIsFrozen: leaves out `registration.status`, which check-in overwrites without a guard.
- SectionTable.SeedingIsInSequence: the service's choice of initial statuses and orders is a precondition.
- ParticipantNumbers.EveryRunNumbersInDeliveryOrder: rows from before the numbering migration are not modelled; a NULL number is ignored by MAX.
- CertificateNumbers.NoCallFails: the exam's number and schedule do not change during a run, there are no numbers of the older three-part form, and failed queries are left out.
- ResultViews.ViewsAgreeInEveryReachableState: which users are students and which questions are essays is fixed; names, schools and violation counts that the views carry along are not modelled.
- Listings.LeaderboardPagesAreComplete: the cursor's number is taken to survive its text; a two-decimal score does through FormatFloat and a NUMERIC comparison. The table does not change between pages.
- Listings.RosterPagesAreComplete: for limits of at least 1; without a limit the roster is one page. The sort direction is asc or desc.
- StudentSearch.AppendStudentFilterSQL: ILIKE is a parameter; the query text is its list of conjuncts.
- Cursors.OrderCursorRoundTrip: how a library writes and reads an id or an instant is a parameter with the stated contract.
- RevenueLedger.SeriesConserves: counts of distinct students do not add up over buckets and are left out, as are the new-student and exam-student columns, which are bucketed alike.
- RevenueLedger.ProductsAgreeWithSplit: ORDER BY and LIMIT of the product list are left out, and so are quantities and distinct order counts.
- TestQuestions.Table.AttachQuestionsToTestTx: two attaches to one test that race for the same order are left out; the loser meets the unique index.
- ExamQuestions.GuardedRunsKeepRule: exam-test links are fixed.
- Deadlines.DueIsNotCounted: OFFSET paging of the due list while it is being processed is left out.
- AcceptedAnswers.Bank.UpdateQuestionTx: options, statements, points and the other columns are left out.
- Foreign keys from answers to questions, and from certificates and violations to sessions.
- The listings of tests, courses, audit log and admin users: their cursors do not follow their orders, so nothing is claimed of them.
- HTTP handlers, services beyond the obligations named above, authentication, payment, shipping, mail, rendering of cards and certificates.
