# Verified model of the job-match pipeline

This project models the parts of the job-match pipeline whose correctness is hardest to see from one
function, and proves properties of them over every input, every run and every reachable state. It is
checked with `dafny verify dfyconfig.toml`.

The model follows the form of the code. Handlers, graph nodes, importers, searches and trimming loops
that update state are classes and methods with loops, each proved against a specification function or
predicate; transactions and recursive computations are functions over table values; protocols are
transition systems whose steps are those functions, and their theorems quantify over whole runs. What a
specification function computes is then said once more without it, by the modules named `...Facts` and
`...Outcomes`: as an if-and-only-if over the inputs alone.

## The areas

**Resume generation and verification** (`TaskQueue`, `ResumeTables`, `ResumeHandlers`, `ResumeOutcomes`,
`ResumeRuns`, `ResumeTermination`). `ResumeHandlers` holds the imperative handlers: the database session, the
verify graph with its five nodes, the buffered queue, and the commit / raise / flush order. Each is proved
equal to a transaction function of `Generate` and `Verify`, and `ResumeOutcomes` says what those transactions
come to for every payload, table and call: which answer, which row, which task. `ResumeRuns` puts those
transactions into a world of committed tables and deliverable tasks. A step is a trigger (whose own commit may
fail), a delivery of any waiting task (which may crash before the commit, crash before the flush, or finish
with or without being acknowledged, so it can come again), or the queue giving up on a task. One inductive
invariant yields the run theorems: one generation per attempt, attempt 2 only after a failed attempt 1, a
status set once, quota conservation, and no dangling tasks. `ResumeTermination` adds the liveness half: in
runs that lose nothing every unverified generation has its verify task waiting, every run out of tasks has
settled every request, and a measure on the waiting tasks bounds the number of deliveries by the redeliveries.

**The paid writes** (`PaidWrites`, `PaidOutcomes`). extract-job, screen-job and analyze-match are each split
into a read step and a commit step that interleave freely with other deliveries and with ingestion. The
compare-and-set writes and the unique key give one write and one `written` event per row in every run.
`PaidOutcomes` says what each of the six steps stores, column by column.

**Match cycles** (`MatchRecall`, `MatchBatch`, `MatchFacts`, `MatchRuns`) and **the analysis budget**
(`AnalyzeBudget`, `AnalyzeFacts`). `MatchRecall` is a transition system over a strictly increasing clock of
ingests, extractions and completed cycles, and says exactly which cycle recalls which job. `MatchBatch` proves
the cycle loop equal to a specification over arbitrary reranker answers and derives the caps, the pair
uniqueness and the accounting from it; `MatchFacts` says who is pooled, who gets a row and what is logged, in
terms of the candidates alone. `MatchRuns` puts whole match-batch deliveries (commit, flush, failures and
crashes in between) beside the screen and extract deliveries they lead to: every waiting task names a
committed row. `AnalyzeBudget` goes from the floor division to the daily spend over any run of batches, and
`AnalyzeFacts` says which matches a batch buys.

**The skill graph** (`Labels`, `ScanText`, `ScanFacts`, `LinkDecision`, `LinkFacts`, `DerivedAliases`,
`EscoAliases`, `EscoFacts`, `AliasAgreement`, `OnetDedup`, `OnetFacts`, `Reconcile`, `ReconcileFacts`,
`ConceptGraph`, `Exploration`, `ExplorationFacts`, `EdgeFacts`, `Neighborhood`). Two text scans that must
agree, two derived-alias algorithms that must agree, two forms of the two-tier link decision that must agree
and the slack its calibration reports, a deduplication that must forget the order of its input, the four-phase
reconciliation with its in-memory owner index, and the bounded breadth-first neighbourhood search.
`Exploration` says round by round what that search finds and draws, as functions of the tables; `Neighborhood`
holds the search as it is written and proves its answer to be exactly that; `ExplorationFacts` and `EdgeFacts`
prove what the answer means: reachability both ways, the caps, which row draws which edge, and what
`truncated` says. `ReconcileFacts` says where each source goes, with which confidence, and which concepts and
aliases a run adds; `OnetFacts`, `EscoFacts`, `LinkFacts` and `ScanFacts` say the same of the datasets, alias
rows, winners and hits, from the tables and the words alone.

**Groundedness** (`WorkHistory`, `Groundedness`, `GroundFacts`). The work-history printer and its parser are
inverse on printable histories, and what the parser returns passes the employer, title and date checks against
the same history, with one exact exception. `GroundFacts` says exactly when each check fails and what a
history reads back as.

**Trimming** (`Trimming`, `TrimFacts`). The job document and the profile document.

`Seqs`, `Ordering`, `Text` and `Wrappers` hold stock facts about sequences, sorting, strings and options.

## Assumptions

* Each generate, verify, match-batch and analyze-batch transaction is one atomic step; the schema has no
  unique key that would order two interleaved generate transactions. The paid writes are not assumed atomic.
* Rows are never deleted. Identifiers of new rows are new.
* One logical clock per system. Database transaction times and application times are not told apart, except
  that an extraction's stamp may be older than the moment it becomes visible.
* LLM outcomes, reranker answers, similarity scores, number extraction, regular-expression matches and
  Unicode folding are parameters: arbitrary values or uninterpreted functions. Money and scores are reals.
* `Alphabet`, `Lexicon` and `Checker` collect those functions. What a theorem needs of them is a named
  predicate in its `requires`: `SpacesSeparate` (folding never joins or splits words across a space),
  `BlankHasNoBareName`, `Reasonable`.
* Where the source iterates over a set, a dictionary or an unordered query, the model takes the elements in
  an arbitrary order.

## Where the code does less than it promises

Each of these is stated as a lemma with the exact condition and, where it helps, a concrete instance.

* A trigger puts its task on the real queue before its own transaction commits (`app/api/service.py:422-436`),
  so quota is conserved over *paid* requests (`ResumeRuns.QuotaConserved`). The plain equality of initial
  quota with remaining quota and accepted requests holds if and only if none of the user's own trigger
  transactions was lost (`ResumeRuns.AcceptedIsTakenIff`); `ResumeRuns.AcceptedWithoutQuota` is a run in
  which a request is accepted and its resume generated with no quota taken.
* Two-cycle extraction recalls a job exactly once only if the first cycle completed after the extraction's
  stamp is a watermark-driven cycle that considers the user and sees the committed row
  (`MatchRecall.RecalledIff`). Dirty cycles, cycles with a `since` override and cycles without users move
  the watermark too; `MatchRecall.JobsCanBeLost` gives two runs that lose a job.
* extract-job promises not to overwrite metadata that ingestion provided (`app/extract/service.py:207-215`),
  but decides it on the row it read first; `PaidWrites.IngestValueOverwrittenIff` says exactly when a
  re-ingested value is overwritten and `PaidWriteRuns.IngestValueCanBeOverwritten` shows a run.
* A clipped profile document can be one token over its bound (`ProfileDocument.ClipWithinBoundIff`).
* A resume read back from a work history in which no role has an employer can be flagged for an unknown
  employer, because the check then falls back on "at ..." phrases in the text
  (`Groundedness.ReadBackIsGrounded`, `Groundedness.GroundedYetFlagged`).
* The neighbourhood search resolves a source to the least of its concepts (`app/skills/graph.py:561-575`), so
  with two mappings for one source it can miss a reachable concept and still answer `truncated: false`
  (`ExplorationFacts.MappedTwiceMissed`). Under single mappings it misses nothing
  (`ExplorationFacts.UntruncatedIsComplete`), and the one writer of mappings leaves no others
  (`Reconcile.ImportedMappingsAreSingle`).
* The two text scans differ on every scannable label of more than six tokens (`ScanText.LongKeyDisagrees`).

## Model

| member | source | states |
|---|---|---|
| TaskQueue.BufferedTaskQueue.Enqueue | app/queue.py:45-46 | enqueueing adds to the buffer and leaves the inner queue alone |
| TaskQueue.BufferedTaskQueue.Flush | app/queue.py:48-51 | the whole buffer goes out in order and the buffer is empty afterwards, so a second flush sends nothing |
| TaskQueue.PostWithRetries | app/queue.py:86-112 | at most five posts; delivered if and only if one of the first five answers is final, and then posting stopped at the first such answer |
| Verify.Prefixed | app/verify/graph.py:81-87 | a failing verdict never gives an empty list of named failures: one name per violation, or one for the reason |
| Verify.GraphDecision | app/verify/graph.py:221-413 | one pass of the verify graph touches only its own row, as a total table over the outcomes: passed exactly when all three stages pass, failed exactly below the last attempt and then with one regenerate task that carries the failures, needs_review otherwise, and no status at all after a retryable failure |
| ResumeHandlers.Session.WriteStatus | app/verify/graph.py:65-67 | status and failures of that generation are set, everything else in the tables is as before |
| ResumeHandlers.Session.TryConsumeQuota | app/quota.py:13-28 | one unit is taken if and only if the user's quota is set and positive; otherwise the tables are unchanged |
| ResumeHandlers.GenerateResume | app/generate/service.py:52-240 | the handler body equals the generate transaction: same tables, same result or raise, and its tasks only in the buffer and only when it did not raise |
| ResumeOutcomes.GenerateRefusals | app/generate/service.py:61-99 | a generate task without a usable match id, for an unknown match, or for an attempt above 2 or already made answers exactly that and changes nothing but the log |
| ResumeOutcomes.GenerateOutcome | app/generate/service.py:79-205 | for an admitted attempt: not_found if and only if the job, user or profile is missing; otherwise an answer inserts exactly that attempt's row and enqueues exactly its verify task, a permanent failure ends it, a retryable one raises |
| ResumeOutcomes.RegenerateGenerates | app/generate/service.py:79-205 | the regenerate task of a failed first attempt, when the call answers, is generated as attempt 2 with its verify task |
| ResumeHandlers.VerifyGraph.DeterministicNode | app/verify/graph.py:90-115 | stage 1 is recorded with its outcome and starts the list of failures |
| ResumeHandlers.VerifyGraph.LlmNode | app/verify/graph.py:118-218 | the grounding and coverage nodes: an answer is recorded and its failures appended, a permanent failure only sets the flag, a retryable one is recorded and raised |
| ResumeHandlers.VerifyGraph.FailSafeNode | app/verify/graph.py:221-260 | a permanent LLM failure sets needs_review, and enqueues nothing |
| ResumeHandlers.VerifyGraph.DecideNode | app/verify/graph.py:263-377 | passed, failed with a regenerate task, or needs_review, by failures and attempt |
| ResumeHandlers.VerifyGraph.Run | app/verify/graph.py:380-424 | the imperative graph with its two routers equals the graph function: tables, raise, action and buffered tasks |
| ResumeHandlers.VerifyResume | app/verify/service.py:43-140 | the handler body equals the verify transaction, skipped and missing rows included |
| ResumeOutcomes.VerifyRefusals | app/verify/service.py:55-85 | a verify task whose payload is malformed or means no generation answers exactly that and changes nothing but the log |
| ResumeOutcomes.VerifyOutcome | app/verify/service.py:55-140 | for a meant generation: skipped when it has a status, not_found when its match, job or profile is missing, else one pass of the graph, stage by stage |
| ResumeOutcomes.VerifyAnswersIff | app/verify/service.py:66-85 | skipped if and only if the generation has a status; not_found if and only if it has none and a row it needs is missing |
| ResumeOutcomes.GraphAction | app/verify/graph.py:380-413 | the answer of a pass by the outcomes of its stages: permanent failure, passed, regenerate below attempt 2, else review |
| ResumeOutcomes.VerdictFailuresName | app/verify/graph.py:81-87 | the failures of one stage: each violation after the stage's name, else the reason, else the word failed |
| ResumeOutcomes.GraphFailures | app/verify/graph.py:221-377 | the stored failures: all that the stages name, in stage order, or after a permanent failure stage 1's and the note |
| ResumeOutcomes.GraphEvents | app/verify/graph.py:70-220 | the log of a pass: one line for each stage that ran to an answer, then one for how it ended |
| ResumeHandlers.HandleDelivery | app/handlers.py:422-580 | commit, raise, flush: a crash before the commit leaves the committed tables, and tasks reach the queue if and only if the delivery is answered, after its commit |
| ResumeHandlers.TriggerGenerate | app/api/service.py:400-441 | an accepted request takes quota and dispatches one task inside the transaction, so the task stays out when the commit then fails |
| ResumeOutcomes.TriggerOutcome | app/api/service.py:400-441 | a request is accepted if and only if the match exists, has no generation, and its user has quota left; then exactly one first-attempt task goes out and the commit takes exactly one unit from that user |
| ResumeOutcomes.DeliveryOutcome | app/handlers.py:442-471 | what one delivery leaves: the tables of its transaction unless it crashed before the commit, and its answer, its tasks and its own removal if and only if it was answered |
| ResumeRuns.GateMeansNew | app/generate/service.py:79-83 | the row-count gate admits an attempt only when the match has no row of that attempt |
| ResumeRuns.InsertKeeps | app/generate/service.py:79-205 | inserting past the gate keeps one row per attempt and "attempt 2 follows a failed attempt 1" |
| ResumeRuns.GenerateKeeps | app/generate/service.py:52-240 | no generate transaction breaks the row invariants, touches quota, or enqueues a task for a row it did not commit |
| ResumeRuns.VerifyOnlyDecides | app/verify/service.py:43-140 | a verify transaction changes at most the status of the generation its task names |
| ResumeRuns.VerifyKeeps | app/verify/service.py:43-140 | no verify transaction breaks the row invariants or touches quota |
| ResumeRuns.TriggerKeeps | app/api/service.py:400-441 | a trigger, committed or not, keeps the whole invariant |
| ResumeRuns.DeliverKeeps | app/handlers.py:442-471 | a delivery keeps the whole invariant wherever it crashes and whether or not it is acknowledged |
| ResumeRuns.StepKeeps | app/handlers.py:422-580 | every step of the protocol keeps the invariant and only grows the tables |
| ResumeRuns.RunInv | app/handlers.py:422-580 | the invariant holds in every world of every run |
| ResumeRuns.StatusSetOnce | app/verify/service.py:66-85 | over any stretch of a run no generation disappears or moves, and a status once set never changes, nor do its failures |
| ResumeRuns.TwoAttemptsAtMost | app/generate/service.py:79-102 | in every world a match has at most one attempt-1 and one attempt-2 generation and no others, and attempt 2 exists only beside an attempt 1 verified failed |
| ResumeRuns.QuotaConserved | app/api/service.py:409-436 | in every world of every run a user's initial quota equals what remains plus the paid requests, and what remains is not negative |
| ResumeRuns.DispatchedTasksFindTheirRows | app/handlers.py:442-471 | generate and verify: in every world each waiting task names committed rows, and a not_found answer is never about the task's own match or generation |
| ResumeRuns.FailedDeliveryDispatchesNothing | app/handlers.py:455-462 | a delivery that crashes before its commit or ends in RetryableLLMError dispatches nothing and changes no generation |
| ResumeRuns.AttemptsBounded | app/generate/service.py:79-102 | a user has no more generations of one attempt than accepted requests |
| ResumeRuns.AcceptedIsPaid | app/api/service.py:422-436 | a user's accepted requests are all paid for if and only if none of that user's own trigger transactions was lost, whatever other users' did |
| ResumeRuns.AcceptedIsTakenIff | app/api/service.py:409-436 | in every world initial quota == remaining quota + the user's accepted requests if and only if none of that user's own trigger transactions was lost |
| ResumeRuns.AcceptedWithoutQuota | app/api/service.py:422-436 | a run in which a request is accepted and its resume generated while no quota is taken |
| ResumeRuns.GenerationsPaidFor | app/api/service.py:409-436 | a user's generations are at most twice the quota taken plus the user's accepted requests whose transaction was lost; without such requests, at most twice the quota taken |
| ResumeTermination.GenerateSettles | app/generate/service.py:79-205 | an answered generate task leaves its attempt's row behind, with a verify task queued for a new row, unless it answered permanent failure, or not_found with the job, user or profile really missing |
| ResumeTermination.VerifySettles | app/verify/graph.py:263-377 | an answered verify task leaves its row decided, unless it answered not_found with the match, job or profile really missing, and a first failure comes with the attempt-2 task |
| ResumeTermination.DeliveryKeepsTended | app/handlers.py:442-471 | a delivery that loses nothing keeps: every unverified generation, failed first attempt and request has its next task waiting or was answered with a permanent end |
| ResumeTermination.RunTended | app/generate/service.py:184-205 | in every world of a lossless run every unverified generation has its verify task waiting, unless one was answered not_found and its match, job or profile is missing; likewise every failed first attempt and every request |
| ResumeTermination.QuietMeansSettled | app/verify/service.py:66-85 | when a lossless run has no task left, every accepted request is settled: passed or in review on attempt 1 or, after a failed attempt 1, on attempt 2, or ended by an answered permanent failure |
| ResumeTermination.QuietMeansVerified | app/verify/service.py:66-85 | so a request whose job, user and profile are there, in a run whose generate calls never failed for good, ends with a resume that is passed or in review |
| ResumeTermination.FollowUpIsLighter | app/verify/graph.py:307-319 | what a handled task enqueues weighs strictly less than the task |
| ResumeTermination.DeliveryWork | app/handlers.py:541-566 | a delivery that is not repeated lowers the measure; one that is repeated raises it by at most three |
| ResumeTermination.WorkRunsDown | app/handlers.py:541-566 | along any run of deliveries, deliveries plus remaining work are at most the initial work plus four per redelivery |
| ResumeTermination.DeliveriesRunOut | app/queue.py:86-112 | with finitely many redeliveries the deliveries end: at most four per initial task and four per redelivery |
| PaidWrites.CommitWritesOrSkips | app/extract/service.py:217-240 | each commit adds exactly one event, `written` if nothing was there and `skipped` otherwise; afterwards the row is written, and a skip changes no row |
| PaidWrites.IngestValueOverwrittenIff | app/extract/service.py:207-215 | a present ingest value is replaced exactly when the delivery read the field as missing and offers a different usable value; with no ingest in between it never is |
| PaidWriteHandlers.PipelineTables.ExtractRead | app/extract/service.py:60-195 | the read half of extract-job: it ends with one event, or goes on with what it saw and changes nothing |
| PaidOutcomes.ExtractReads | app/extract/service.py:60-110 | extract-job ends at once for an unknown, an extracted or a posting of fewer than 40 characters, and else goes on with the row as it read it |
| PaidWriteHandlers.PipelineTables.ExtractWrite | app/extract/service.py:207-247 | the commit half: extracted if and only if extracted_at was still empty |
| PaidOutcomes.ExtractFillsGaps | app/extract/service.py:195-221 | the first extraction stores the computed values beside the posting as it now is; each column that the read saw empty takes the usable value offered for it, if any, and every other keeps what it holds at the commit |
| PaidOutcomes.IngestRefreshes | app/ingest/store.py:74-102 | an upsert refreshes text and metadata of its own posting only and keeps its extraction; a new posting has none |
| PaidWriteHandlers.PipelineTables.WriteLabel | app/screen/service.py:259-269 | the label and clipped reason are set if and only if the match had none, and no other match changes |
| PaidOutcomes.ScreenReads | app/screen/service.py:50-79 | screen-job ends at once for an unknown or labelled match and else goes on |
| PaidWriteHandlers.PipelineTables.ScreenWrite | app/screen/service.py:174-197 | screened if and only if the match had no label at the commit |
| PaidOutcomes.ScreenLabels | app/screen/service.py:259-269 | the first screening stores the label and the first 2000 characters of the stripped reason, if any |
| PaidOutcomes.AnalyzeReads | app/analyze/service.py:55-90 | analyze-match ends at once for an unknown or analyzed match and else goes on |
| PaidWriteHandlers.PipelineTables.AnalyzeWrite | app/analyze/service.py:184-226 | analyzed if and only if the match had no analysis at the commit; a conflict keeps only its event |
| PaidOutcomes.AnalyzeStores | app/analyze/service.py:175-226 | the first analysis of a match stores its report under the new id and nothing else |
| PaidOutcomes.LateCommitSkips | app/analyze/service.py:184-226 | a commit after another one for its row changes no row and logs the skip |
| PaidWriteRuns.CommitIsLocal | app/extract/service.py:217-222 | a commit of one kind for one row writes nothing of another kind or row |
| PaidWriteRuns.StepKeeps | app/extract/service.py:40-267 | every step, interleaved in any order, keeps the invariant and every written value |
| PaidWriteRuns.RunInv | app/extract/service.py:40-267 | the invariant holds in every world of every run |
| PaidWriteRuns.WrittenOnce | app/extract/service.py:217-222 | over any stretch of a run an extraction, a label and an analysis once written never change |
| PaidWriteRuns.OneEventPerWrittenRow | app/analyze/service.py:184-226 | in every world a row has exactly one extracted / screened / analyzed event if it is written and none otherwise, and a match at most one analysis |
| PaidWriteRuns.LaterWriteSkips | app/screen/service.py:174-185 | of two commits for the same row the later one ends in a skip, whatever ran in between |
| PaidWriteRuns.IngestValueCanBeOverwritten | app/extract/service.py:207-210 | a run in which a re-ingested work arrangement is overwritten by an extraction that had read the row before |
| MatchRecall.StepKeeps | app/match/service.py:79-84 | every step keeps: each cycle's watermark and corpus are what the history says they were |
| MatchRecall.RunInv | app/match/service.py:79-84 | that invariant holds in every world of every run |
| MatchRecall.WatermarkIsLast | app/match/service.py:348-358 | on an increasing clock the watermark is the last completed cycle's time |
| MatchRecall.RecallExactly | app/match/sql.py:59-65 | a watermark-driven cycle recalls an extracted job for a user exactly when it considers the user, sees the committed extraction, and is the first cycle completed at or after the extraction's stamp |
| MatchRecall.DeferExactly | app/match/sql.py:59-65 | a watermark-driven cycle asks for a job's extraction exactly when it considers the user, is the first to complete from the job's ingestion on, and sees no extraction |
| MatchRecall.RecalledAtMostOnce | app/match/sql.py:59-65 | no extracted job passes the date predicate in two watermark-driven cycles |
| MatchRecall.RecalledIff | app/match/service.py:348-358 | whether a job is ever recalled for a user, decided by its first cycle alone |
| MatchRecall.OrdinaryRunsRecallOnce | app/match/sql.py:56-65 | without dirty cycles, overrides or cycles that leave the user out, each job is recalled in exactly one completed cycle, the first after its extraction |
| MatchRecall.DirtyRecallsEverything | app/match/service.py:83-84 | a dirty cycle recalls every visible extracted job for each of its users |
| MatchRecall.JobsCanBeLost | app/match/service.py:252-255 | two runs in which an extracted job is never recalled: a cycle between stamp and commit, and a completed cycle without users |
| MatchCycle.AcceptedShape | app/match/service.py:165-192 | rows written for a user are of that user and cycle, of jobs of the pool, new to the cycle and pairwise distinct, for any reranker answer |
| MatchCycle.AcceptedComplete | app/match/service.py:167-191 | the first mention of every pool job new to the cycle gets its row, with its score |
| MatchCycle.AcceptedFromRanked | app/match/service.py:167-188 | every row comes from a returned document, with that document's job and score |
| MatchCycle.UserRowsBounded | app/match/service.py:139-192 | a user's rows are at most what the day has left, whatever top_n and the reranker say |
| MatchCycle.CycleRowsOfUser | app/match/service.py:133-231 | over all users of the cycle, a user's rows are within what that user's day has left |
| MatchCycle.CycleRowsAreNew | app/match/service.py:125-191 | the rows of a cycle are new (user, job, cycle) pairs and distinct among themselves |
| MatchCycle.CycleKeepsCapAndPairs | app/match/service.py:124-192 | after a cycle a user's rows since day start are within the cap or unchanged, and every (user, job, cycle) still has one row |
| MatchCycle.RowsAreScreenedOrBelow | app/match/service.py:202-231 | rows written == screens + rows below the floor; a row has a screen task if and only if it is not below the floor |
| MatchCycle.OneExtractPerJob | app/match/service.py:293-318 | one extract task for each distinct unextracted job, and for no other job |
| MatchCycle.DayNeverExceedsCap | app/match/service.py:124-192 | over any number of cycles in a day, redeliveries included, a user's rows stay within max(cap, count at the start), and each pair keeps one row per cycle |
| MatchBatch.EnqueueExtracts | app/match/service.py:293-318 | the loop enqueues and records exactly the specified extracts, and counts them |
| MatchBatch.GroupByUser | app/match/service.py:135-137 | the grouping dict: users in first-seen order, each with all of its candidates in row order |
| MatchBatch.CountMatchesSince | app/match/service.py:361-376 | counts the user's rows from the start of the day on |
| MatchBatch.WriteRow | app/match/service.py:180-231 | one match row, and its screen task unless it scores below the floor |
| MatchBatch.WriteRanked | app/match/service.py:165-231 | the loop over a reranker answer writes exactly the accepted rows, with their tasks and events |
| MatchBatch.MatchUser | app/match/service.py:139-231 | one user's turn, the capped case included, equals the specification |
| MatchFacts.PoolIsBest | app/match/service.py:388-400 | as many candidates are pooled as the day has left, or all: those of largest 0.7 * similarity + 0.3 * overlap, the earlier ones among equals, and in that order |
| MatchFacts.RemainingIs | app/match/service.py:361-376 | the day has left the cap less the user's rows since the last multiple of 86400 seconds, never below 0 |
| MatchFacts.UsersCandidatesAre | app/match/service.py:124-141 | the candidates matched for a user are exactly that user's extracted ones, in row order |
| MatchFacts.PooledGetsRow | app/match/service.py:149-191 | of the returned documents that count, the first mention of every pooled job without a row in this cycle gets its row in the cycle, with its score |
| MatchFacts.RowWasPooled | app/match/service.py:149-191 | and every new row of the cycle is such a document of a pooled job |
| MatchBatch.MatchUsers | app/match/service.py:124-231 | the loop over users equals the specification of the cycle's rows, tasks and events |
| MatchBatch.RunCycle | app/match/service.py:120-290 | a whole cycle after the candidate query: rows, tasks and events in order as specified, rematch flags cleared for dirty cycles only, and matches written == screens enqueued + below floor |
| MatchFacts.ScreensAre | app/match/service.py:202-231 | a cycle buffers a screen task of user, job and row for exactly the new rows that do not score below the floor |
| MatchFacts.ExtractsAre | app/match/service.py:293-318 | and an extract task for exactly the jobs of its unextracted candidates |
| MatchFacts.LogCounts | app/match/service.py:120-290 | how often each action is logged: once started and completed, a deferral per unextracted candidate, an extract per job, a match per row, a screen or a low score for each, a cap per user without quota, a cleared flag per user of a dirty cycle |
| MatchFacts.CountedIs | app/match/service.py:256-290 | the reported counters are the numbers of distinct unextracted jobs, new rows, rows not below the floor and unextracted candidates |
| MatchRuns.HandleMatchBatch | app/handlers.py:225-252 | the handler: rows and tasks of the cycle after commit and flush, rows only after a crash in between, neither after a failure, which records its own event |
| MatchRuns.StepKeeps | app/handlers.py:225-252 | every cycle, delivery, crash or paid-write step keeps: waiting tasks name committed rows and no delivery has missed its own |
| MatchRuns.RunInv | app/handlers.py:225-252 | that invariant holds in every world of every run |
| MatchRuns.WaitingTasksFindTheirRows | app/handlers.py:252 | in every world each waiting screen task names a committed match of its user and job and each extract task a committed job, and no screen or extract delivery has ended not_found for its own row |
| MatchRuns.WaitingScreenReadsItsMatch | app/screen/service.py:50-79 | the read half of any waiting screen task finds its match, and ends only in skipped or in what its own documents and call come to |
| MatchRuns.FailedCycleDispatchesNothing | app/handlers.py:237-252 | a cycle that fails or crashes before its flush leaves the queue as it was, and before its commit the tables too |
| AnalyzeBudget.SelectionIsBestFirst | app/analyze/batch.py:136-175 | the selection holds at most `limit` eligible matches, each once, and leaves one out only when full of matches that go before it |
| AnalyzeBudget.TaskCountFits | app/analyze/batch.py:54-61 | the floor allocates no more estimates than what remains, and one more would not fit |
| AnalyzeFacts.AffordableIs | app/analyze/batch.py:53-61 | so many estimates fit into the budget less what was spent, neither below zero, and one more does not; none when the estimate is not positive |
| AnalyzeFacts.SpentIsSum | app/analyze/batch.py:119-133 | what was spent on a day is the sum of the day's charges |
| AnalyzeFacts.BatchBuysTheBest | app/analyze/batch.py:136-175 | a batch buys the latest screened and unanalyzed matches of the users named, each once, best label, then score, then cycle first, and leaves none out that is better or while the day affords one more |
| AnalyzeRuns.BatchKeeps | app/analyze/batch.py:54-86 | a batch on an empty queue keeps "spent today + an estimate per open task <= budget" |
| AnalyzeRuns.DeliverKeeps | app/analyze/service.py:69-85 | so does any delivery or redelivery that costs at most the estimate |
| AnalyzeRuns.MidnightKeeps | app/analyze/batch.py:119-133 | tasks carried over midnight fit the new day's budget |
| AnalyzeRuns.StepKeeps | app/analyze/batch.py:54-86 | every step keeps the invariant |
| AnalyzeRuns.RunInv | app/analyze/batch.py:54-86 | it holds in every world of every run |
| AnalyzeRuns.BudgetHolds | app/analyze/batch.py:54-86 | in every world the day's recorded spend is at most the budget plus what lost races cost that day |
| AnalyzeRuns.AtomicDeliveriesStayInBudget | app/analyze/batch.py:54-86 | with atomic deliveries it never exceeds the budget, across batches, redeliveries and days |
| AnalyzeBatch.SpentToday | app/analyze/batch.py:119-133 | sums the costs recorded for the day |
| AnalyzeBatch.RunBatch | app/analyze/batch.py:36-116 | the method enqueues exactly the allocation the runs are about, in order, with one event each |
| LinkDecision.FindTopTwo | app/skills/linker.py:253-263 | the one-pass loop finds the first best score and the best of the others, or nothing for no scores |
| LinkDecision.OnePassEqualsSort | app/skills/importers/reconcile.py:303-327 | a best and second of the loop are the scores of the first two of the ranking; it is the same candidate exactly when ties came in id order |
| LinkFacts.WinnerIff | app/skills/importers/reconcile.py:303-327 | the winner is the least id among the best-scored, and there is one exactly when it reaches the high cutoff, or the low one with the margin to every other candidate |
| LinkDecision.SimilarityLink | app/skills/linker.py:247-278 | links if and only if the sort-based winner exists, and to that winner when candidates come in id order |
| LinkDecision.FlipDistanceIsSound | scripts/calibrate_link_threshold.py:187-203 | moving best score and margin by less than the flip distance never changes the decision |
| LinkDecision.FlipDistanceIsTight | scripts/calibrate_link_threshold.py:187-203 | within any larger bound some best score flips it, the second score left alone |
| LinkDecision.SlackIsLeast | scripts/calibrate_link_threshold.py:206-249 | a row's slack is the least flip distance of its correct decisions, and one of them has it |
| LinkDecision.SafetyProtects | scripts/calibrate_link_threshold.py:206-249 | changes smaller than a row's safety leave every correct decision of the row alone |
| LinkDecision.SafetyIsTight | scripts/calibrate_link_threshold.py:206-249 | beyond it some correct decision can be flipped |
| LinkDecision.ScoreRow | scripts/calibrate_link_threshold.py:213-241 | the inner loop counts true links, false links and misses and keeps the least slack |
| LinkFacts.RowCounts | scripts/calibrate_link_threshold.py:206-249 | a sweep row counts the spans that link to their gold concept, that link elsewhere, and that have one and do not link |
| LinkFacts.SafetyKeepsRight | scripts/calibrate_link_threshold.py:187-249 | while best score and margin move by less than a row's safety, every span decided right is decided the same |
| LinkDecision.Sweep | scripts/calibrate_link_threshold.py:206-249 | the result has a row for every grid point, sorted, and its first row is the lexicographic best of the whole grid |
| LinkFacts.SweepTries | scripts/calibrate_link_threshold.py:215-217 | the rows of a sweep are those of exactly the thresholds from 0.40 to 0.95, margins up to 0.20 and high cutoffs from the threshold to 0.98 |
| LinkFacts.FirstRowIsBest | scripts/calibrate_link_threshold.py:206-249 | no grid point has fewer false links than the first row, or as few and more true links, or the same and more safety |
| Labels.NormalizeJoinsTokens | app/skills/normalize.py:43-52 | a normalized label is its tokens, non-empty and free of space, joined by single blanks |
| ScanFacts.TokensAreStretches | app/skills/normalize.py:43-52 | the tokens of a text are the longest stretches of word characters, plus and number signs of its folding |
| Labels.SplitNormalized | app/skills/pg_linker.py:158-163 | splitting a normalized text gives the text's tokens |
| Labels.NormalizeIdempotent | app/skills/normalize.py:43-52 | normalizing twice is normalizing once wherever folding leaves the normalized text alone |
| TokenRuns.OccursIffRun | app/skills/linker.py:229-245 | " key " is a substring of " text " if and only if the key's tokens are a contiguous run of the text's |
| ScanText.BuildExactIndex | app/skills/linker.py:115-126 | the index maps each normalized label to its first writer and holds nothing else |
| ScanText.ScanInMemory | app/skills/linker.py:229-245 | the substring scan returns one hit per matched skill, with a longest matching label, longest first |
| ScanFacts.MemoryHitsAre | app/skills/linker.py:229-245 | a skill is hit exactly when some label it was the first record to write has three characters or more, is not ambiguous, and its words stand in the text in a row; with a longest such label, longer ones first |
| ScanText.NGrams | app/skills/pg_linker.py:161-172 | exactly the scannable n-grams of at most six tokens |
| ScanText.ScanRows | app/skills/pg_linker.py:153-194 | the n-gram scan meets the same specification over the alias rows it finds |
| ScanFacts.RowHitsAre | app/skills/pg_linker.py:153-201 | the database scan: the same over the rows of active concepts that are not derived aliases, for labels of one to six words |
| ScanText.ScansAgree | app/skills/linker.py:229-245 | any two results that meet the specification agree on the skills and on each matched length |
| ScanText.KeyFoundInMemory | app/skills/linker.py:229-245 | a normalized key is found in memory exactly when its tokens are a run of the text's |
| ScanText.KeyIsGram | app/skills/pg_linker.py:161-171 | it is among the n-grams exactly when they are a run of at most six |
| ScanText.RowMatchesAreShortMatches | app/skills/pg_linker.py:161-194 | the database scan matches exactly the in-memory matches of at most six tokens |
| ScanText.ScanTextsAgree | app/skills/pg_linker.py:153-194 | for every text and every single-owner taxonomy with labels of at most six tokens both scans return the same skills with equal matched lengths |
| ScanText.LongKeyDisagrees | app/skills/pg_linker.py:51 | any scannable label of more than six tokens makes them differ on its own text |
| DerivedAliases.DerivedAliasIndex | app/skills/enrich.py:74-100 | the one-pass algorithm computes: key to skill exactly when that skill alone claims it and no real label has it |
| DerivedAliases.DerivedIndexUnique | app/skills/enrich.py:74-100 | that specification has one solution and sees the claims only as a set |
| DerivedAliases.RecordOrderIrrelevant | app/skills/enrich.py:74-100 | any rearrangement of the records gives the same index |
| EscoAliases.AddRealLabels | app/skills/importers/esco.py:324-335 | entries and owner sets of all preferred and alternative labels with a key |
| EscoFacts.RealEntriesAre | app/skills/importers/esco.py:318-336 | the real entries are the preferred names and alternative labels that have a key |
| EscoFacts.OffersAre | app/skills/importers/esco.py:337-356 | the curated offers are the aliases the file gives to concepts of the taxonomy |
| EscoAliases.AddCurated | app/skills/importers/esco.py:337-356 | exactly the accepted offers are added: an alias of a known concept gets an entry if and only if its key is free or the concept's own when its turn comes |
| EscoAliases.AcceptedIff | app/skills/importers/esco.py:337-356 | an offered (key, concept) gets in if and only if the real labels give the key to that concept alone, or to nobody and the concept is the first one offered it |
| EscoAliases.AcceptedShareOnlyReal | app/skills/importers/esco.py:351-354 | accepted aliases give no key a second owner: two owners of a key both have it as a real label |
| EscoAliases.CollectDerived | app/skills/importers/esco.py:358-372 | every unoccupied derived key with the set of its claimants, and for each pair the bare name of the last entry that claims it |
| EscoFacts.DerivedKeyIff | app/skills/enrich.py:103-110 | a text's derived key is that of its bare name, when that has more than two characters and is not ambiguous |
| EscoAliases.SoleOwners | app/skills/importers/esco.py:373-376 | exactly the keys with one claimant |
| EscoAliases.OwnerSetsMeetSpecification | app/skills/importers/esco.py:358-377 | the owner-set computation meets the specification of the one-pass algorithm |
| EscoAliases.DerivedEntries | app/skills/importers/esco.py:358-377 | one derived entry per sole claimant with that surface, and no other |
| EscoAliases.Dedup | app/skills/importers/esco.py:379-386 | a row for every (concept, key) that has an entry, written by the first entry of the best priority |
| EscoFacts.RowKind | app/skills/importers/esco.py:373-402 | a row's kind is the best that gives the concept the key, preferred before curated before alternative before derived, and its alias that of the first entry of that kind |
| EscoAliases.BuildAliasRows | app/skills/importers/esco.py:318-402 | a row for (concept, key) if and only if the concept owns the key by a real label or an accepted curated alias, or nobody owns it and the concept alone derives it; an owner's row is its first entry of the best priority, a claimant's the bare name |
| EscoAliases.RowsShareOnlyReal | app/skills/importers/esco.py:337-386 | two concepts share a key in such a table only if both have it as a real label, and then neither row is derived |
| AliasAgreement.SameOccupiedKeys | app/skills/linker.py:115-126 | without curated aliases the keys of the linker's exact index are those of the importer's owner sets, each built from the same taxonomy |
| AliasAgreement.SameClaims | app/skills/importers/esco.py:358-372 | importer and linker see the same claims of derived keys |
| AliasAgreement.ImporterAgreesWithLinker | app/skills/linker.py:150 | a concept has a derived row for a key in the importer's table if and only if the linker's index derives that key for it, each side with its own occupied keys |
| OnetDedup.RowOrderIrrelevant | app/skills/importers/onet.py:127-224 | every permutation of the input rows gives the same dataset |
| OnetDedup.GroupRows | app/skills/importers/onet.py:131-138 | the grouping loop: each non-empty key with all of its rows in order |
| OnetDedup.BuildTechnology | app/skills/importers/onet.py:144-180 | one group's technology as specified |
| OnetDedup.CollectAssociations | app/skills/importers/onet.py:182-188 | category names and relation rows collected so far, blank element ids left out |
| OnetDedup.BuildTechnologies | app/skills/importers/onet.py:140-188 | the loop over sorted keys gives the technologies and all that they say about categories |
| OnetDedup.BuildCategories | app/skills/importers/onet.py:190-206 | a category per element id, in order, with its least non-blank name |
| OnetDedup.BuildRelations | app/skills/importers/onet.py:207-220 | a relation per (technology, element) pair, in order, with that pair's associations |
| OnetDedup.DeduplicateSoftwareSkills | app/skills/importers/onet.py:127-224 | the imperative deduplication computes the specified dataset |
| OnetFacts.TechnologyNames | app/skills/importers/onet.py:144-175 | a technology's names are the distinct examples of its key in name order, and its name is the first |
| OnetFacts.TechnologyFlags | app/skills/importers/onet.py:144-175 | it is hot, or in demand, exactly when some row of its key says so |
| OnetFacts.AssociationReads | app/skills/importers/onet.py:144-162 | an association is its row's four texts and its two flags read as yes or no |
| OnetFacts.CategoryMeans | app/skills/importers/onet.py:176-205 | a category belongs to an element id some technology is associated with; its names are the non-blank names given for it, and its name the first of them or else the element id |
| OnetFacts.ElementHasCategory | app/skills/importers/onet.py:176-205 | every element id of an association has its category |
| OnetFacts.RelationMeans | app/skills/importers/onet.py:206-224 | each technology and element it is associated with have their relation, with exactly that technology's associations with that element, in order |
| OnetFacts.RelationComesFrom | app/skills/importers/onet.py:206-224 | and there is no other relation |
| OnetDedup.GroupKept | app/skills/importers/onet.py:151-161 | a technology's associations are, as a multiset, what the rows of its group say |
| OnetDedup.OneTechnologyPerKey | app/skills/importers/onet.py:131-142 | one technology for each non-empty key of the rows, and together as many associations as there are rows with a key |
| OnetDedup.EachRowInOneTechnology | app/skills/importers/onet.py:131-180 | so the associations of each technology of the dataset are, as a multiset, those of all rows with its key: none lost, merged, doubled or made up |
| OnetDedup.RelationsJoinConcepts | app/skills/importers/onet.py:190-224 | both ends of every relation are concepts of the dataset |
| ReconcileDecision.SourceNames | app/skills/importers/reconcile.py:489-501 | the loop collects the stated names and their variants, the first of each non-empty key |
| ReconcileFacts.NameKeys | app/skills/importers/reconcile.py:489-501 | the names of a source have exactly the non-empty keys of its stated names and their variants |
| ReconcileDecision.CreatedIffNothingKnown | app/skills/importers/reconcile.py:127-252 | a concept is created for exactly those unmapped sources none of whose names had an owner in the snapshot and whose scores neither decided nor wavered |
| ReconcileDecision.ContestedNamesNeverCreate | app/skills/importers/reconcile.py:127-252 | a source whose names have two owners is never given a new concept |
| ReconcileDecision.CountersCoverSources | app/skills/importers/reconcile.py:118-126 | the seven counters sum to the number of sources |
| ReconcileFacts.CountersAre | app/skills/importers/reconcile.py:118-126 | each counter of the result is the number of sources that come to that |
| Reconcile.BuildOwnerIndex | app/skills/importers/reconcile.py:504-511 | the index holds exactly the owners of every non-empty key |
| Reconcile.MergeOwnerIndexes | app/skills/importers/reconcile.py:514-521 | merging two indexes is indexing the union |
| Reconcile.OwnersFor | app/skills/importers/reconcile.py:524-530 | all owners of any of the names |
| Reconcile.ChooseByLabels | app/skills/importers/reconcile.py:128-159 | the first pass decides as the plan does: existing, one primary owner, one owner of any name, or later with the right doubt |
| ReconcileFacts.LabelIff | app/skills/importers/reconcile.py:127-159 | a source is settled by its labels if and only if exactly one active concept is named by its own name, or else exactly one has a key of any of its names; and then it goes to that concept |
| Reconcile.OfferKeepsOneOwner | app/skills/importers/reconcile.py:415-486 | offering names to a concept never gives a key a second owner |
| Reconcile.OneMoreOffer | app/skills/importers/reconcile.py:415-486 | settling a source keeps: every offered key has an owner, and every new alias was offered, with that name and kind, to its concept |
| Reconcile.OneMoreMapping | app/skills/importers/common.py:123-155 | replacing a source's mapping leaves it with that one and every other source as it was |
| Reconcile.SkillGraph.MapSource | app/skills/importers/reconcile.py:397-412 | the mapping table after one replacement |
| Reconcile.SkillGraph.AddAliases | app/skills/importers/reconcile.py:415-486 | exactly the names whose key nobody else owns are added, of the right kind, and the owner index and key set still agree with the table |
| Reconcile.SkillGraph.TryLabels | app/skills/importers/reconcile.py:128-159 | the first pass on one source settles it exactly when the plan says a label decides |
| Reconcile.SkillGraph.LabelPhase | app/skills/importers/reconcile.py:127-159 | after the first phase the sources decided by labels are mapped and counted, and exactly the others are queued with their doubt |
| Reconcile.SkillGraph.TryTrgm | app/skills/importers/reconcile.py:330-360 | the trigram query settles a source exactly when the plan says so |
| ReconcileFacts.TrgmIff | app/skills/importers/reconcile.py:330-360 | past the labels, the trigram query settles a source if and only if it has names and rows and the best row is alone or leads by the margin, and then to that row's concept with its score; it wavers if and only if the lead is below the margin |
| Reconcile.SkillGraph.TrgmPhase | app/skills/importers/reconcile.py:161-179 | after the second phase the trigram sources are mapped and counted, and exactly the others are left |
| Reconcile.SkillGraph.TrySemantic | app/skills/importers/reconcile.py:363-394 | the vector query settles a source exactly when the two-tier winner exists |
| ReconcileFacts.SemanticIff | app/skills/importers/reconcile.py:363-394 | past the trigrams, the vector query settles it if and only if the best row reaches the high cutoff, or the low one and leads by the margin; it wavers if and only if it reaches the low one and does not settle |
| ReconcileFacts.SemanticIsTwoTier | app/skills/importers/reconcile.py:303-394 | over the first two rows of a ranking of all concepts it settles exactly as the two-tier winner of LinkDecision |
| Reconcile.SkillGraph.SemanticPhase | app/skills/importers/reconcile.py:181-222 | after the third phase the doubtful sources are counted unresolved and exactly the rest is left for creation |
| Reconcile.SkillGraph.Found | app/skills/importers/reconcile.py:225-252 | a created concept, its exact mapping, and its preferred and derived aliases |
| Reconcile.SkillGraph.CreatePhase | app/skills/importers/reconcile.py:224-252 | exactly the planned concepts are created and counted |
| ReconcileFacts.FoundedIff | app/skills/importers/reconcile.py:209-252 | past the vector query a source is unresolved if and only if two concepts have keys of it or one of the two queries wavered, and founds its own concept otherwise |
| ReconcileFacts.FoundedConcepts | app/skills/importers/reconcile.py:209-252 | each founded concept is in the table after the run, active and under its source's canonical name |
| Reconcile.SkillGraph.TakeSnapshot | app/skills/importers/reconcile.py:90-116 | the sets and indexes built before the first source are those of the tables |
| Reconcile.SkillGraph.RunPhases | app/skills/importers/reconcile.py:127-252 | the four phases carry out the plan: mappings, counters, concepts, agreement of index and table |
| Reconcile.SkillGraph.ReconcileOnet | app/skills/importers/reconcile.py:67-255 | the whole run: counters are the plan's and sum to the sources, mappings are one per settled source and untouched elsewhere, concepts are the planned ones, every name offered for a settled source has an owner, every new alias was offered to its concept, none gives a key a second owner, and the in-memory index agrees with the alias table |
| Reconcile.MappedOnce | app/skills/importers/common.py:132-155 | after a run a source settled by it has exactly its one mapping, an already mapped one keeps what it had, an unresolved one has none |
| ReconcileFacts.RunMaps | app/skills/importers/reconcile.py:397-412 | after a run a settled source has its target's mapping, of its kind and confidence, and no other |
| ReconcileFacts.RunMapsTrgm | app/skills/importers/reconcile.py:330-412 | a source the trigrams settle is mapped after the run to the best row's concept with its score and to no other |
| ReconcileFacts.RunMapsSemantic | app/skills/importers/reconcile.py:363-412 | and one the vectors settle to that query's best row |
| Reconcile.SettledNamesAreOwned | app/skills/importers/reconcile.py:415-486 | after a run every non-empty name key offered for a settled source has an owner |
| ReconcileFacts.NewAliasesAre | app/skills/importers/reconcile.py:415-486 | every new alias is the first name with its key of some settled source, as an alternative, or, of a founding one, its first variant, preferred for the canonical name and derived otherwise |
| Reconcile.RunKeepsOne | app/skills/importers/common.py:123-155 | a run that starts with at most one mapping per source ends with at most one |
| Reconcile.ImportedMappingsAreSingle | app/skills/importers/common.py:123-155 | a mapping table written by replace_source_mapping calls alone, its only writer, maps every source to at most one concept |
| Reconcile.RerunFindsMapped | app/skills/importers/reconcile.py:90-96 | a second run finds every source mapped that the first did not leave unresolved |
| ExplorationFacts.CapKeepsSelected | app/skills/graph.py:521-532 | a category is drawn with min(size, cap) of its members, the selected concept among them when it is one, and with all of them when it fits |
| EdgeFacts.FirstMembersKept | app/skills/graph.py:521-532 | over the cap, the members drawn, the selected one apart, come before those left out in name order |
| ExplorationFacts.LimitKeepsSelected | app/skills/graph.py:614-631 | the node list has min(size, limit) of the nodes and keeps the selected one |
| EdgeFacts.FirstNodesKept | app/skills/graph.py:614-631 | over the limit, the nodes listed, the selected one apart, come before those left out in node order |
| ExplorationFacts.FoundIsReachable | app/skills/graph.py:261-312 | whatever the caps and mappings, n rounds find only what can be reached within n rounds |
| ExplorationFacts.ExpandedOnce | app/skills/graph.py:311-312 | the frontiers of different rounds are disjoint, so no concept is expanded twice |
| ExplorationFacts.NothingMissed | app/skills/graph.py:267-312 | under single mappings a round over no cap finds everything near its frontier |
| ExplorationFacts.UncappedIsComplete | app/skills/graph.py:261-312 | under single mappings n rounds over no cap find exactly the concepts and categories within n rounds |
| ExplorationFacts.LargerCapSame | app/skills/graph.py:521-532 | for any mappings: where no cap was exceeded, any larger cap gives the same search |
| ExplorationFacts.EdgesJoinNodes | app/skills/graph.py:245-257 | no edge is drawn without both its ends |
| ExplorationFacts.AnswerNodes | app/skills/graph.py:318-331 | the answer keeps the selected node, has min(limit, all) nodes and lists none twice |
| ExplorationFacts.AnswerEdges | app/skills/graph.py:323-331 | an edge is listed, once, if and only if both its ends are kept and some round drew it; EdgeFacts says which rows draw which edges |
| EdgeFacts.CanonicalEdgeListed | app/skills/graph.py:334-365 | an edge of the canonical layer is listed if and only if both its ends are and some row with an end at a round's frontier runs from its source to its target under its relation |
| EdgeFacts.SourceEdgeListed | app/skills/graph.py:368-445 | one of the source layer if and only if both its ends are and some source row at a frontier runs from what its subject stands for to what its object stands for, or it runs from a kept member to a newly met category |
| EdgeFacts.MemberLineIff | app/skills/graph.py:504-518 | a member edge runs from the concept to the category, under the relation of one of the rows that join them |
| EdgeFacts.AnswerIsSorted | app/skills/graph.py:318-331 | nodes and edges are listed in their orders |
| ExplorationFacts.AnswerIsReachable | app/skills/graph.py:200-331 | every node listed is reachable within the depth |
| ExplorationFacts.UntruncatedDropsNothing | app/skills/graph.py:318-331 | for any mappings an answer that is not truncated lists every node and edge of the search, and a larger cap would find nothing else |
| ExplorationFacts.UntruncatedIsComplete | app/skills/graph.py:200-331 | under single mappings an answer that is not truncated lists exactly the nodes reachable within the depth |
| ExplorationFacts.MappedTwiceMissed | app/skills/graph.py:561-575 | with two concepts for one source the search follows the least only: a reachable concept is missing from an answer that is not truncated |
| ConceptGraph.Settled | app/skills/graph.py:267-269 | once a round adds nothing no later round does |
| Neighborhood.LeastConcepts | app/skills/graph.py:561-575 | each mapped source gets the least concept it is mapped to, in any row order |
| Neighborhood.MembersAreMappedEnds | app/skills/graph.py:479-492 | a category's members are exactly the least concepts of the mapped sources across its edges |
| Neighborhood.CollectMembers | app/skills/graph.py:479-492 | the loop over member edges: each category's members with a relation of one of their rows; an edge between two of the categories joins no member |
| Neighborhood.Drawing.ExpandCanonicalEdges | app/skills/graph.py:334-372 | draws exactly the canonical edges at the frontier with their ends and discovers exactly the ends outside it |
| Neighborhood.Drawing.ExpandSourceEdges | app/skills/graph.py:375-445 | the source side of a round, sources at the frontier standing for their least frontier concept |
| Neighborhood.Drawing.AttachOne | app/skills/graph.py:496-517 | one category: its node, exactly its kept members, exactly one edge from each kept member, and over the cap if and only if it has more members |
| Neighborhood.Drawing.AttachCategoryMembers | app/skills/graph.py:448-518 | the same for all categories newly met, in terms of the tables; over if and only if one of them is |
| Neighborhood.Drawing.ExpandRound | app/skills/graph.py:267-312 | one round: nodes, edges, next frontier, categories and the cap flag are exactly those of the specified round |
| Neighborhood.Search | app/skills/graph.py:261-312 | the loop over hops, early exit included, ends with exactly the nodes and edges of all the rounds, and with truncated if and only if some category newly met in them has more members than the cap |
| Neighborhood.BoundsAre | app/skills/graph.py:212-214 | a depth is 1 or 2 and a limit 1 to 500, whatever is asked for |
| Neighborhood.ConceptNeighborhood | app/skills/graph.py:200-331 | none exactly for an unknown concept; otherwise the sorted kept nodes, exactly the drawn edges between them, and truncated if and only if a cap was exceeded or there are more nodes than the limit |
| WorkHistory.RenderWorkHistoryBlock | app/generate/history.py:12-56 | the printer computes the specified block, empty histories included |
| GroundFacts.FieldsPrint | app/generate/history.py:29-43 | a role is printed under its span with employer, title, dates and a location that is not blank |
| GroundFacts.BulletPrints | app/generate/history.py:44-56 | one more bullet is one more line, under its own span or one made from its place, unless it is blank |
| GroundFacts.DecimalReads | app/generate/history.py:39-48 | an index is printed in decimal without a leading zero |
| WorkHistory.SplitJoined | app/evals/fabrication.py:258-259 | splitting lines undoes joining them, with or without a final line feed |
| WorkHistory.ResumeFromCachePrefix | app/evals/fabrication.py:246-300 | the parsing loop computes the fold of the line parser over any text |
| WorkHistory.HistoryReadsBack | app/evals/fabrication.py:258-288 | any list of printable roles, in order |
| WorkHistory.BlockReadsBack | app/evals/fabrication.py:246-300 | a block under any header of skippable lines reads back as its roles |
| WorkHistory.RoundTrip | app/evals/fabrication.py:246-300 | parsing the printed block gives back the same employers, titles, ranges and (span, bullet) claims in order, for every printable history |
| GroundFacts.ReadsBackAs | app/evals/fabrication.py:246-300 | what a history reads back as: its non-empty employers, titles and date ranges, stripped and in order, and a claim for each with its role's span and for each bullet with its own |
| Groundedness.CheckEmployers | app/verify/deterministic.py:72-80 | fails if and only if a claimed employer, or with none claimed a stray phrase, is not a source employer |
| Groundedness.CheckTitles | app/verify/deterministic.py:82-90 | fails if and only if some claimed title is not a source title |
| Groundedness.CheckDates | app/verify/deterministic.py:92-109 | each of the two loops fails if and only if it meets a range that is not in the source |
| Groundedness.CheckNumbers | app/verify/deterministic.py:111-119 | fails if and only if the resume has a number the source has not |
| Groundedness.CheckSkills | app/verify/deterministic.py:121-138 | fails if and only if some output skill is outside the user's set |
| Groundedness.RunDeterministicChecks | app/verify/deterministic.py:56-140 | the list of failures, in order, is the specified one |
| Groundedness.FailureCodes | app/verify/deterministic.py:56-140 | each of the five failure codes is raised if and only if its check fails |
| GroundFacts.EmployerFailsIff | app/verify/deterministic.py:189-211 | the employer check fails if and only if a claimed employer has the normalized name of no role's, or, when none is claimed, a phrase of the document has not |
| GroundFacts.TitleFailsIff | app/verify/deterministic.py:214-219 | the title check fails if and only if a claimed title has the normalized text of no role's |
| GroundFacts.DatesFailIff | app/verify/deterministic.py:167-230 | the date checks fail if and only if some range has neither text nor year nor all its parts among the dates of the roles, spelled out: starts, ends, years, present, and the range written in three ways |
| GroundFacts.NumbersFailIff | app/verify/deterministic.py:111-119 | the number check fails if and only if the document has a number that the fields and bullets of the roles have not |
| GroundFacts.SkillsFailIff | app/verify/deterministic.py:121-138 | the skill check fails if and only if the user lacks a skill that the resume claims, a claim carries or links to, or the document mentions |
| Groundedness.EmployerKnown | app/verify/deterministic.py:151-156 | a stripped employer of the history is a source employer |
| Groundedness.TitleKnown | app/verify/deterministic.py:159-164 | a stripped title of the history is a source title |
| Groundedness.DatesKnown | app/verify/deterministic.py:167-230 | a printed range of the history is in the source, open and blank ends included |
| Groundedness.ReadBackIsGrounded | app/verify/deterministic.py:56-140 | a resume read back from a history raises no title or date failure against it, and an employer failure if and only if no role has an employer and the text has a stray employer phrase |
| Groundedness.GroundedYetFlagged | app/verify/deterministic.py:189-211 | that happens: a role without employer whose bullet says "at Google", if the phrase pattern finds Google in the document it reads back as |
| Groundedness.GroundedEvaluation | app/evals/fabrication.py:175-198 | printing, parsing and checking a printable history end to end gives the resume of that history, no title or date failure, and no employer failure when some role has an employer |
| Groundedness.PlantedEmployersCaught | app/evals/fabrication.py:303-312 | an employer planted on a grounded resume is caught if and only if the source has none of its normalized name |
| Groundedness.PlantedTitlesCaught | app/evals/fabrication.py:303-312 | the same for titles |
| Groundedness.PlantedSkillsCaught | app/evals/fabrication.py:303-312 | a planted skill outside the user's set is caught whatever it is planted on |
| Groundedness.SuitePlantsCaught | app/evals/fabrication.py:30-76 | all five plants of the suite, each against the check it is meant to trip, and drift against both of its two |
| JobDocument.BuildSynthesizedDoc | app/extract/synthesize.py:30-76 | always within 500 tokens; the document of the longest prefixes of skills and requirements that fit, a skill dropped only when no requirement is left, else the clipped header |
| JobDocument.LongestFitUnique | app/extract/synthesize.py:63-76 | there is one longest fit, so the trimming loops leave no choice |
| TrimFacts.FitsIff | app/extract/synthesize.py:13-17 | a document fits when it has at most 2000 characters |
| TrimFacts.NonBlankAre | app/extract/synthesize.py:30-48 | the labels that go in are those with something left once stripped, stripped and in order |
| TrimFacts.LinesAre | app/extract/synthesize.py:20-65 | each line of the job document is there exactly when its field is, in a fixed order, compensation ranges included |
| ProfileDocument.TrimmedIsSuffix | app/profile/synthesize.py:56-70 | every trimming stage is a suffix of the roles whose oldest may have lost trailing bullets, and the newest role stays |
| TrimFacts.StageIs | app/profile/synthesize.py:52-75 | stage n is a suffix of the roles, the oldest of them with its first bullets, that is n roles or bullets smaller than the whole, down to one bare role |
| TrimFacts.LargestSuffixThatFits | app/profile/synthesize.py:52-75 | so no larger stage than the one written fits into four characters a token |
| ProfileDocument.SynthesizeProfileDoc | app/profile/synthesize.py:44-75 | the document of the first trimming stage that fits, or of the last stage clipped, and never more than one token over the bound; the loops end |
| TrimFacts.RoleReads | app/profile/synthesize.py:44-51 | how a role reads: a missing start is a question mark, a current or open end is present, a location in brackets |
| ProfileDocument.FirstFitUnique | app/profile/synthesize.py:56-70 | there is one first fit |
| ProfileDocument.ClipIsShort | app/profile/synthesize.py:72-75 | the clipped document has at most 4 * max_tokens + 1 characters, so at most one token too many |
| ProfileDocument.ClipWithinBoundIff | app/profile/synthesize.py:72-75 | it is within max_tokens if and only if the cut falls behind a space |
| ProfileDocument.ClippedOverBound | app/profile/synthesize.py:72-75 | it can be over |

## Left out

- ResumeRuns.QuotaConserved: counts paid requests, because a trigger dispatches its task before its own commit; `ResumeRuns.AcceptedIsTakenIff` says exactly when these are all accepted requests.
- ResumeRuns.TwoAttemptsAtMost: generate and verify transactions are atomic steps, since nothing in the schema orders two that interleave on the same match.
- ResumeTermination.RunTended: speaks of runs without a crash between commit and flush and without exhausted retries; both lose tasks in the code.
- ResumeTermination.DeliveriesRunOut: bounds the deliveries from any world by its waiting tasks and the redeliveries; new triggers in between start a new bound.
- ResumeOutcomes.VerifyOutcome: the not_found log line keeps the match of the generation even when its job row is missing, where the code logs no job.
- MatchRecall.RecalledIff: is about the date predicate; the metadata filters and the expiry date of the query are not modelled.
- MatchBatch.RunCycle: starts from the rows of the candidate query; user selection, the invalid-mode answer and skill buckets are left out, and a top_n below zero keeps Python's slice meaning.
- MatchRuns.RunInv: a match-batch transaction is one atomic step, and the candidate query selects committed jobs; the matches a cycle writes appear both as its rows and among the tables of the paid writes, and the two are proved to stay the same.
- MatchRuns.HandleMatchBatch: the second transaction that records a failure is taken to commit; when it fails too, nothing is recorded, as after a crash.
- AnalyzeRuns.BudgetHolds: batches are atomic and start with no analyze task waiting, and a call costs at most the estimate; the code checks none of these.
- LinkDecision.FlipDistanceIsSound: scores are reals; an infinite margin (a single candidate) drops out, as float infinity does in the code. The two-decimal rounding of the grid is exact here.
- LinkDecision.SimilarityLink: takes the scores as given; embeddings and cosine similarity are not modelled, nor is the rounding of floats.
- Labels.NormalizeIdempotent: NFKC and case folding are an uninterpreted function, so idempotence is relative to a label that folding leaves alone.
- ScanText.ScanTextsAgree: the rows of the alias query are taken to be the real labels of active concepts, one owner for each label.
- ScanFacts.MemoryHitsAre: which of a skill's equally long labels a hit names, and the order of hits of equal length, are left open; so they are for ScanFacts.RowHitsAre.
- AnalyzeFacts.BatchBuysTheBest: the order of matches equal in label, score and cycle is left open, as the query leaves it.
- ScanText.ScanRows: the SQL filter on alias type and status is part of that assumption.
- AliasAgreement.ImporterAgreesWithLinker: without curated aliases, as curated entries are owners and claims for the importer only.
- EscoAliases.BuildAliasRows: language, provenance and the uuid of a concept are left out of a row.
- Reconcile.SkillGraph.AddAliases: one method stands for the two alias adders, which differ in the names they offer and the alias kind they write.
- Reconcile.SkillGraph.ReconcileOnet: the trigram and vector queries are arbitrary ranked rows of existing concepts, fixed for the run; the error for an embedder that returns the wrong number of vectors is left out.
- Neighborhood.ConceptNeighborhood: labels, confidences and member counts are left out, and distinct sources are taken to have distinct node ids. The sort keys are parameters that must be total orders, as keys that end in an id are. A member edge carries the relation of some row that joins category and member, as the code keeps the last of an unordered query.
- OnetDedup.DeduplicateSoftwareSkills: rows come with their columns already read; the header variants of the download are left out, and ids are arbitrary functions of key and element.
- WorkHistory.RoundTrip: fields must fit on one line once stripped and span ids must have no `]`; blank fields are allowed. Values that are not strings, and bullets that are not objects, are left out.
- Groundedness.RunDeterministicChecks: the year, date-part, employer-phrase, suffix and number patterns are parameters, as are the skill linker and scanner.
- Groundedness.SuitePlantsCaught: the number plant is caught if and only if the planted document has a number the history has not; which numbers a text has is up to the uninterpreted extraction.
- JobDocument.BuildSynthesizedDoc: the text of a compensation figure is an arbitrary function of the number.
- ProfileDocument.SynthesizeProfileDoc: starts from the header lines; how the header is put together is left out, as is a negative token bound.
- HTTP, FastAPI, Cloud Tasks, SQLAlchemy sessions, logging, settings and the command line: plumbing.
- Prompts, LLM calls, embeddings, pg_trgm and the reranker: arbitrary outcomes here.
- ATS adapters, HTML cleaning and resume parsing: heuristics without a strong property.
- The other importers, concept search, admin views, evaluation reports, migrations and the frontend: easy or unrelated.
- Compound-span splitting and the span-link report: a loop over the linkers with no invariant of its own.
