# Verified model of the parsing back end

This Dafny project models the parts of the repository in which concurrency, language processing or long-lived counters make
mistakes easy, and proves what those parts promise. `dafny verify dfyconfig.toml` checks all of it.

## The job queue

`lib/sqlite-queue` lets many processes share one `jobs` table. `JobRows` holds the table and one function per SQL statement;
`JobMachine` is a state machine in which any number of workers, producers, cancelling callers and sweepers take atomic steps in
any order, with a monotone clock and lease tokens that are never issued twice. `JobInvariant` proves the invariant of every
reachable state, `JobTheorems` the fencing and cancellation theorems, `JobBounds` the bounds on claims, leases, backoff and claim
order. `JobTables` is the table as a class with one method per statement, and `Workers` and `SqliteQueues` are the two classes of
the source: their multi-statement methods are proved to be runs of the machine, other processes acting between any two statements.

Three results about the code as it is:

- The claim never compares `attempts` with `max_attempts`. The bound holds nevertheless, because no pending row has used up its
  attempts; a job added with `maxAttempts < 1` still runs once, so the bound is `max(1, maxAttempts)`.
- `requestCancellation` runs two UPDATEs. It can answer `false` for a job that is live the whole time: active at the first
  statement, pending again at the second. This can happen to a live job exactly when it is active, not yet marked and has attempts
  left at the moment of the call; pending jobs, marked ones and those on their last attempt cannot be missed.
- A cancellation that was accepted is never lost, since no pending row carries a mark that the claim could erase.

## The expression language

`FocusGrammar` defines the trees of custom focus rules, their spellings (spaces and parentheses) and the grammar;
`FocusTheorems` proves that the grammar reads exactly the spellings and that a printer with the fewest parentheses is inverted;
`FocusEval` is the evaluator with its cursor, proved to compute the value of the tree that the grammar reads. Arithmetic is
abstract, so the results hold for floating point as well; `FocusMeaning` says what each symbol means. `FocusConditions` are the conditions of the rules and `FocusScore` is
the scoring: events replay the change of tags, but the batch writes them only when the stored score differs, so that a change of
tags at an equal score leaves no event. The batch pages by offset: while rows are only deleted and
appended, a property that stays is left out exactly when deletions before it let it slip over the end of a page between two queries.

## Scopes, profiles and snapshots

`Sql` is the fragment of SQLite the scope compiler emits, with three truth values and positional parameters; `UserPropertyScope` is the
compiler with the direct meaning of profile and request, `ScopeTexts` the texts of its clauses; `ScopeQueries`, `ScopePages` and `ScopeStats` are the statements of the
repository class, with their order, their pages and their counters.
`ParseRules`, `Snapshots` and `CanonicalJson` are profiles, the in-memory matcher and the hash-checked snapshots; `ProfileMeaning`
says what they accept, in terms of their input as given. `ScopeTheorems`
relates matcher and SQL:

- A row that the matcher admits is selected exactly when its city and type are stored in canonical spelling and the user has not
  rejected it: the matcher trims and lower-cases the stored value, the SQL compares it as it is.
- SQLite's LOWER and LIKE fold only ASCII. Searches therefore miss rows whose text has capital letters of another alphabet, and
  stop words do not catch them. Both conditions are exact: a search finds all it should, and the stop words catch all they should,
  on exactly the rows without such a capital.

The sort of a list has no tie-break, and every page is a query of its own. The pages therefore show every row once, whatever the
database answers, exactly if no end of a page falls between rows with equal sort keys; otherwise a row can be shown twice and
another never (`ScopePages`).

## Runs of a parser

`ParseHandler` is the scan loop, `ParseDetails` the details loop with the contract its counters must meet, `HealthPolicy` the
classification of a run, `SourceHealth` the quarantine status that several recorders read and write back, `RunTelemetry` the
write-once fields of a run.

- The scan can stop for ten duplicates in a row although the last ten visited items did not all exist: an item whose check failed
  does not interrupt the count. It means what it says exactly when none of the last ten checks failed.
- The consumer refuses the counters of a finished loop exactly when some detail response was empty for an item without a scanned
  location. Those of an aborted loop pass also with one such item, if the aborting item was itself merged to a missing location.
- The compare-and-set on the health status does not cover the streak, so one of two concurrent counts can be lost. Every applied
  recording is counted exactly if no recording that counts had the streak changed between its read and its write.
- A run that is no worse than a degraded one can be quarantined: exactly when its first successful pages come without a single
  property block or a single label, and neither the error class nor the canary decides before that.
- Digest counters that are all zero are answered without a write. They stay exactly if they are stored when the run has ended.

## Limiter and migration

`RateLimit` is the per-IP limiter: its window does not slide, and `2*floor(max) - 1` accepted requests within one window's length are both
possible and the most there can be. `IdentityMigration` and `PropertyDatabase` are the merge of properties with the same identity,
first as a function with its properties, then as the nested loops that compute it.

`Wrappers`, `Texts` and `SortedSets` hold what the others share.

## Assumptions

- The table of jobs was created by this version: an active row always has a token and an expiry (the initial table is empty).
- Each SQL statement, and the transaction of `clearQueue`, is atomic; `Date.now()` is monotone and is read before the statement
  it is passed to; `randomUUID()` is always new.
- Text is lower-cased for the Latin letters of ASCII and the Cyrillic letters U+0400 to U+042F; strings are compared by code point.
- The SHA-256 of a payload's canonical text is an uninterpreted function with 64 lower-case hexadecimal digits as its value.

## Model

| member | source | states |
|---|---|---|
| JobRows.SweepIsOneCaseAnalysis | lib/sqlite-queue/index.ts:107-126 | the three UPDATEs of the sweeper in sequence treat each stale active row exactly once, by one case analysis on the row as it was, and leave no stale active row |
| JobRows.PickIsFirst | lib/sqlite-queue/worker.ts:50-57 | the row picked is, of the pending jobs of the queue that are due, the one of greatest priority and among those the one of least id; none is picked exactly if none is due |
| JobRows.PickIsUnique | lib/sqlite-queue/worker.ts:50-57 | so the subselect of the claim has one answer |
| JobRows.DelaysDouble | lib/sqlite-queue/worker.ts:208-212 | the first retry waits 2000 ms, and each later one twice as long |
| JobRows.ClearedColumns | lib/sqlite-queue/index.ts:463-475 | clearing a queue fails its pending jobs as cleared and marks its active ones, keeping an earlier mark |
| JobRows.CleanDeletes | lib/sqlite-queue/index.ts:128-130 | the cleanup deletes exactly the ended jobs completed before the threshold |
| JobRows.LegacyRows | lib/sqlite-queue/index.ts:55-58 | a row of an earlier version, active without a lease, is swept exactly by the time it was started |
| JobMachine.StepMovesRows | lib/sqlite-queue/worker.ts:45-98 | any step of any process leaves a row alone, deletes it when it is terminal, or makes one of six moves: claim, renewal, mark, completion, failure, return to pending |
| JobMachine.TokenSource | lib/sqlite-queue/worker.ts:45-57 | a row keeps its token, attempts, start and job columns, or loses the token, unless a claim has just put a token on it that was never used |
| JobMachine.ClaimSource | lib/sqlite-queue/worker.ts:45-57 | a pending row becomes active only by a claim that picked it |
| JobInvariant.StepKeepsRowsOk | lib/sqlite-queue/worker.ts:45-82 | every statement keeps: pending rows have no token, no mark and attempts below the cap; active rows have token, expiry and 1 to cap attempts |
| JobInvariant.StepKeepsTokensOk | lib/sqlite-queue/worker.ts:43-57 | a token is on at most one row, and only if it was issued |
| JobInvariant.StepKeepsKeysUnique | lib/sqlite-queue/index.ts:48-59 | at most one pending or active row per queue and idempotency key is kept by insertion, retry and stale recovery alike |
| JobInvariant.AdvanceKeepsFlightOk | lib/sqlite-queue/worker.ts:175-226 | when a worker has finished with a job its token is on no row, and it rechecks only when the cancellation it looks for is there |
| JobInvariant.FlightStays | lib/sqlite-queue/worker.ts:198-222 | while a token is current, the attempts and start in the memory of its worker are those of the row, whatever other processes do |
| JobInvariant.StepKeepsInv | lib/sqlite-queue/worker.ts:45-98 | the whole invariant is kept by every step of every process |
| JobInvariant.RunKeepsInv | lib/sqlite-queue/worker.ts:45-98 | and so by every interleaving |
| JobInvariant.ReachableInv | lib/sqlite-queue/index.ts:48-130 | and it holds in every state reachable from the empty table |
| JobTheorems.ForeignTokenChangesNothing | lib/sqlite-queue/worker.ts:61-88 | a step carrying a token that is not the current one of a row leaves the row as it is |
| JobTheorems.OwnerTouchesOneRow | lib/sqlite-queue/worker.ts:61-82 | a step of a worker changes no row but that of its own job |
| JobTheorems.RetiredTokenIsInert | lib/sqlite-queue/worker.ts:61-88 | once a token has left its row no later step carrying it changes anything, in any run |
| JobTheorems.TokenReleasedOnce | lib/sqlite-queue/worker.ts:61-82 | over any run a token causes at most one release of a job |
| JobTheorems.TerminalRowsFrozen | lib/sqlite-queue/index.ts:107-130 | a completed or failed row never changes again until it is deleted |
| JobTheorems.DeletedStaysDeleted | lib/sqlite-queue/index.ts:128-130 | an id that was deleted never comes back |
| JobTheorems.JobColumnsFixed | lib/sqlite-queue/index.ts:93-96 | the columns given to the INSERT never change |
| JobTheorems.DoomedForever | lib/sqlite-queue/index.ts:107-155 | a job that is failed, or active with a cancellation mark, stays so until it is deleted: it is never completed or pending again |
| JobTheorems.CancellationIsFinal | lib/sqlite-queue/index.ts:352-356 | the two UPDATEs of a cancellation leave the job doomed when they report a change, and it stays doomed in every later state |
| JobTheorems.ClearQueueIsFinal | lib/sqlite-queue/index.ts:463-475 | every live job of a cleared queue is doomed in every later state |
| JobTheorems.MissedCancellation | lib/sqlite-queue/index.ts:352-356 | for a live job in any reachable state, some run of the other processes between the two UPDATEs makes both miss it if and only if the job is active, unmarked and has attempts left when the call starts |
| JobTheorems.SpentForever | lib/sqlite-queue/index.ts:352-356 | the jobs it cannot happen to: one that is marked, on its last attempt or ended stays one of these until it is deleted, so it is never pending again |
| JobTheorems.CancellationCanMissALiveJob | lib/sqlite-queue/index.ts:352-356 | a reachable run in which a job is live throughout and requestCancellation answers false: it is active at the first UPDATE and pending, for a retry, at the second |
| JobTheorems.SettledAlone | lib/sqlite-queue/worker.ts:175-226 | a worker that still holds its job settles it in two statements: a requested cancellation wins; else the result is stored, or the job waits 1000*2^attempts ms for a retry, or fails |
| JobBounds.JobTerminates | lib/sqlite-queue/worker.ts:45-57 | in any run a job is claimed at most cap - attempts more times, and changes status at most twice that (plus one while active), although the claim never looks at attempts |
| JobBounds.AddedJobTerminates | lib/sqlite-queue/worker.ts:198-222 | a job added with maxAttempts >= 1 is claimed at most maxAttempts times, changes status at most 2*maxAttempts times, and attempts never exceeds maxAttempts |
| JobBounds.LeaseIsSafe | lib/sqlite-queue/index.ts:54-57 | while the holder renews at gaps below the stored duration its lease is valid at every moment of any run, and no sweep moves the job |
| JobBounds.LeaseStep | lib/sqlite-queue/index.ts:107-144 | each step of the other processes, and each timely renewal, keeps such a lease |
| JobBounds.ClaimStartsLease | lib/sqlite-queue/worker.ts:45-57 | a claim starts such a lease |
| JobBounds.RequeueSource | lib/sqlite-queue/worker.ts:208-212 | a job goes back to pending only by the sweeper, or by the retry of its own worker at now + 1000*2^attempts |
| JobBounds.BackoffBound | lib/sqlite-queue/worker.ts:208-212 | without recoveries by the sweeper, the claim after k failures starts no earlier than 1000*(2^(k+1) - 2) ms after the first |
| JobBounds.BackoffFromFirstClaim | lib/sqlite-queue/worker.ts:208-212 | the same, counted from the first claim of the job |
| JobBounds.RetryIsExact | lib/sqlite-queue/worker.ts:208-212 | without recoveries by the sweeper, a job waiting after its k-th handler failure can be claimed from exactly 1000*2^k ms after that failure on |
| JobBounds.FirstClaimsInOrder | lib/sqlite-queue/worker.ts:50-57 | an undelayed job is never overtaken, at its first claim, by one of its queue with a smaller priority or with the same and a greater id, in any run |
| JobTables.JobTable.Claim | lib/sqlite-queue/worker.ts:45-57 | the row returned was pending and due, no due job of the queue has a greater priority or the same and a smaller id, and its columns are those the UPDATE sets; no row exactly if none is due; the call is one claim step of the machine |
| JobTables.JobTable.Complete | lib/sqlite-queue/worker.ts:61-67 | under the invariant: the call is the completion step of this job in the machine, and the count tells whether the caller still owned an unmarked job; if it did, the job is completed with the result, otherwise no row changed and the worker looks again |
| JobTables.JobTable.Fail | lib/sqlite-queue/worker.ts:69-74 | the failure step of the machine: an owned job ends as failed with the error; for any other token no row changes |
| JobTables.JobTable.Retry | lib/sqlite-queue/worker.ts:76-82 | the retry step of the machine: an owned unmarked job is pending again until now + 1000*2^attempts; otherwise no row changes, an owned job is doomed, and the worker looks again |
| JobTables.JobTable.IsCancellationRequested | lib/sqlite-queue/worker.ts:89-93 | true exactly for the owner of an active marked row, and then the job can never complete or be retried: every later state has it doomed or deleted |
| JobTables.JobTable.IsLeaseValid | lib/sqlite-queue/worker.ts:94-98 | true exactly for an owner whose row no sweep at this moment would touch, whatever its threshold |
| JobTables.SweptColumns | lib/sqlite-queue/index.ts:107-126 | per row: which of the stale UPDATEs changes it, and to what |
| JobTables.JobTable.PickRow | lib/sqlite-queue/worker.ts:50-55 | the search over all rows finds the due row of greatest priority and least id |
| JobTables.JobTable.Insert | lib/sqlite-queue/index.ts:93-96 | a new row under the next id, or nothing when the partial unique index is violated |
| JobTables.JobTable.FindByIdempotency | lib/sqlite-queue/index.ts:102-104 | a live row with the key, if there is one |
| JobTables.JobTable.Heartbeat | lib/sqlite-queue/index.ts:140-144 | the lease of the owner is extended from now by the stored duration; nothing for another token |
| JobTables.JobTable.CancelPending | lib/sqlite-queue/index.ts:145-150 | a pending row fails as cancelled; told exactly |
| JobTables.JobTable.RequestActiveCancellation | lib/sqlite-queue/index.ts:151-155 | an active row is marked, keeping an earlier mark; told exactly |
| JobTables.JobTable.Sweep | lib/sqlite-queue/index.ts:107-126 | each of the three stale UPDATEs changes exactly the active rows with an expired lease and its own mark and attempts: no lease any more, and failed or pending again with its error |
| Workers.Worker.constructor | lib/sqlite-queue/worker.ts:33-42 | a new worker runs no job and polls at its base interval |
| Workers.Worker.Poll | lib/sqlite-queue/worker.ts:119-149 | takes a job only when running and below its concurrency, and then the due one of greatest priority and least id, under its own name, with one attempt more and its lease; otherwise the table is unchanged; the active count is the number of jobs held |
| Workers.Worker.SlowDown | lib/sqlite-queue/worker.ts:135-140 | an empty poll lengthens the pause, up to ten steps |
| Workers.PausesAre | lib/sqlite-queue/worker.ts:137-138 | after n empty polls the pause is the base interval times 1.5^min(n, 4), at most two seconds |
| Workers.Worker.Start | lib/sqlite-queue/worker.ts:141-146 | a claimed job is counted and resets the pause |
| Workers.Worker.CompleteOrCancel | lib/sqlite-queue/worker.ts:175-196 | under any interference the call is a run of the protocol that ends in one of two ways: the job was still held at the last statement and is then cancelled if marked and completed with the result if not, or it was lost and its row is as others left it; the token is on no row |
| Workers.Worker.FailOrRetry | lib/sqlite-queue/worker.ts:198-222 | the same for a handler that threw: a held job is cancelled if marked, waits 1000*2^attempts ms while attempts are left and the error is not permanent, and fails otherwise; only a mark that came after the check leaves the error of the handler in place of "cancelled" |
| Workers.Worker.FailCancelled | lib/sqlite-queue/worker.ts:224-226 | the row changes by the failure as cancelled under the token of the job, which no longer holds it afterwards |
| Workers.Worker.GiveUp | lib/sqlite-queue/worker.ts:175-226 | after a check that found the mark, a job still held ends as cancelled, a lost one is untouched |
| Workers.Worker.LookAgain | lib/sqlite-queue/worker.ts:185-221 | after a statement that hit no row: a second check, and the same ends |
| Workers.Worker.Check | lib/sqlite-queue/worker.ts:234-236 | the answer is that of the state in which the check ran, and selects the next statement |
| Workers.Worker.Settle | lib/sqlite-queue/worker.ts:159-166 | a finished handler call brings its job to one of those ends, by what the handler did, and frees exactly one slot |
| SqliteQueues.SqliteQueue.Add | lib/sqlite-queue/index.ts:216-263 | submission under interference, in the terms of the options: a job is inserted only if no live job of the queue has the key, with data, key, correlation id, priority (0), attempts (3) and delay as given or by default, and read again; a job returned instead is live and has the key asked for, and was the only one; the error comes only after three insert attempts and four empty reads (or at once for an empty key) |
| SqliteQueues.SqliteQueue.ReadAgain | lib/sqlite-queue/index.ts:239 | the row read after the insertion is that of the inserted job with its own columns, whatever other processes have done to it, or is gone |
| SqliteQueues.LiveKeyBlocks | lib/sqlite-queue/index.ts:48-59 | while a job inserted under a queue and a key is live, in any run, a second submission with both inserts nothing, whatever its other options |
| SqliteQueues.SqliteQueue.RequestCancellation | lib/sqlite-queue/index.ts:352-356 | accepted exactly when the job is pending at the first UPDATE or active at the second; an accepted job is doomed |
| SqliteQueues.SqliteQueue.RecoverStaleJobs | lib/sqlite-queue/index.ts:410-432 | the clock is read once for the threshold and once for the stamps, then the three UPDATEs in order, other processes acting between all of these |
| SqliteQueues.SqliteQueue.GetDetailedStats | lib/sqlite-queue/index.ts:384-397 | under interference between the SELECTs each queue is counted as it was in its own state; the totals count every counted job once, even if it moved between the reads, and are those of the whole table if nothing moved |
| SqliteQueues.IdsSeenAdd | lib/sqlite-queue/index.ts:388-396 | what a later read counts in another queue are other jobs, as a job keeps its queue in every run |
| SqliteQueues.AllQueues | lib/sqlite-queue/index.ts:384-397 | over an unchanged table the sum over the distinct queues misses no row and counts none twice |
| FocusEval.SafeEval | api/src/services/focusEngine.ts:34-183 | accepts exactly what the grammar parses after trimming, and returns whether the value of the parsed tree differs from zero |
| FocusMeaning.ComparisonsAnswer | api/src/services/focusEngine.ts:117-142 | two sums joined by >, <, >=, <=, == or != answer whether the left value stands in that relation to the right one |
| FocusMeaning.SumsMean | api/src/services/focusEngine.ts:103-115 | a spelling joined by + or - has the sum, or the left value less the right one, as value |
| FocusMeaning.ProductsMean | api/src/services/focusEngine.ts:87-101 | the same for *, / and %, the left value being the first operand |
| FocusMeaning.DisjunctionAnswers | api/src/services/focusEngine.ts:158-170 | two parts joined by || answer true if and only if one of them does |
| FocusMeaning.ConjunctionAnswers | api/src/services/focusEngine.ts:144-156 | two parts joined by && answer true if and only if both do |
| FocusMeaning.TokensMean | api/src/services/focusEngine.ts:46-75 | a literal has its number as value, a name its variable, and parentheses change nothing |
| FocusGrammar.TokensAre | api/src/services/focusEngine.ts:46-84 | which texts are literals and which are names, by character codes |
| FocusEval.Evaluator.SkipWs | api/src/services/focusEngine.ts:44 | skips spaces and nothing else |
| FocusEval.Evaluator.ParseNumber | api/src/services/focusEngine.ts:47-55 | reads the longest literal |
| FocusEval.Evaluator.ParseVariable | api/src/services/focusEngine.ts:57-65 | reads the longest name and refuses unknown ones |
| FocusEval.Evaluator.Primary | api/src/services/focusEngine.ts:68-85 | cursor and value agree with the grammar at this level, or both fail |
| FocusEval.Evaluator.Multiplicative | api/src/services/focusEngine.ts:88-101 | the same for * / %, left associative |
| FocusEval.Evaluator.Additive | api/src/services/focusEngine.ts:104-115 | the same for + -, left associative |
| FocusEval.Evaluator.Comparison | api/src/services/focusEngine.ts:118-142 | the same for at most one comparison, two-character operators first |
| FocusEval.Evaluator.LogicalAnd | api/src/services/focusEngine.ts:145-156 | the same for &&; both sides are always computed |
| FocusEval.Evaluator.LogicalOr | api/src/services/focusEngine.ts:159-170 | the same for || |
| FocusTheorems.SpellingParses | api/src/services/focusEngine.ts:68-183 | every spelling of every tree, with any extra spaces and parentheses, is read as that tree |
| FocusTheorems.LevelSound | api/src/services/focusEngine.ts:68-175 | whatever a grammar level reads is a spelling of what it returns |
| FocusTheorems.AcceptedIsSpelling | api/src/services/focusEngine.ts:34-183 | every accepted input is the spelling of the tree it is read as |
| FocusTheorems.AcceptedIffSpelling | api/src/services/focusEngine.ts:34-183 | an input is read as a tree if and only if it spells the tree, so no text spells two trees |
| FocusTheorems.PrintFits | api/src/services/focusEngine.ts:87-175 | the printer with the fewest parentheses respects precedence and left associativity |
| FocusTheorems.PrintIsMinimal | api/src/services/focusEngine.ts:87-175 | no spelling of the same tree has fewer parentheses |
| FocusTheorems.PrintParses | api/src/services/focusEngine.ts:34-183 | printing and reading a tree gives the tree back |
| FocusEval.AcceptedInputs | api/src/services/focusEngine.ts:34-37 | the accepted inputs are exactly the spellings between two runs of blanks, with the tree spelled |
| FocusEval.BlanksAreTrimmed | api/src/services/focusEngine.ts:37 | blanks around a spelling change nothing |
| FocusScore.SortedFacts | api/src/services/focusEngine.ts:193-194 | filtering and stable sorting by priority keep the score: the sum of the other rules and the deciding deviation rule are those of the list as given |
| FocusScore.Reduce | api/src/services/focusEngine.ts:269-274 | the reduction finds, of the matching deviation rules, the last of those with the greatest priority number |
| FocusConditions.Matches | api/src/services/focusEngine.ts:202-258 | each kind of condition holds exactly as its definition says: a deviation at least the absolute threshold, a field that is filled (for the first-seen time: not older than 24 hours), a city among the trimmed parts of a list, and a custom expression that the grammar accepts with a non-zero value |
| FocusConditions.DeviationMatches | api/src/services/focusEngine.ts:203-211 | a deviation rule matches exactly if the deviation, read as a number, is at least the threshold and its negative |
| FocusConditions.NoNumberNoMatch | api/src/services/focusEngine.ts:203-211 | a threshold or a deviation that is no number matches nothing |
| FocusConditions.FieldMatches | api/src/services/focusEngine.ts:213-230 | a field rule matches exactly if the field is there and neither null nor zero nor empty; the first-seen time, if it is not more than 24 hours ago |
| FocusConditions.CityMatches | api/src/services/focusEngine.ts:232-238 | a city rule matches exactly if the city is not empty and equals a trimmed part of the list |
| FocusConditions.SixVariables | api/src/services/focusEngine.ts:242-249 | a custom rule sees exactly six fields as variables |
| FocusConditions.CustomMatches | api/src/services/focusEngine.ts:250-257 | a custom rule matches exactly if its expression answers true over them; a missing expression, or one with an error, never does |
| FocusConditions.SplitJoins | api/src/services/focusEngine.ts:233 | the parts of a city list are the text between its commas: joined again they give the list, and none holds a comma |
| FocusScore.FoldRules | api/src/services/focusEngine.ts:196-267 | the loop adds the scores of the matching rules other than deviation thresholds, collects their tags once and in the order of the rules, and sets the matching thresholds aside |
| FocusScore.RateProperty | api/src/services/focusEngine.ts:188-279 | the score is that of the unsorted rule list; the tags are exactly those of the rules that count, each once |
| FocusScore.MakeEvents | api/src/services/focusEngine.ts:281-315 | replaying the events on the old tags gives the new tags, and there is a score event exactly when the score differs |
| FocusScore.ScoreProperty | api/src/services/focusEngine.ts:188-315 | score, tags and events of a property are those of the rules whose conditions hold for its fields, whatever their order |
| FocusScore.RecordedEventsTell | api/src/services/focusEngine.ts:369-397 | the batch writes events only when the score stored at its second query differs: what is written replays to the new tags if and only if that score differs or the tags do not |
| FocusScore.TagsChangeUntold | api/src/services/focusEngine.ts:386-397 | and a property whose tags change without any event exists: its result is that of scoring it by one rule |
| FocusScore.AddTags | api/src/services/focusEngine.ts:403-405 | each tag of a property is counted once |
| FocusScore.ScoreOne | api/src/services/focusEngine.ts:381-406 | one property more in the batch: its result, its written events, the focus and tag counts |
| FocusScore.ScorePages | api/src/services/focusEngine.ts:352-438 | each page is cut from the selection at the time of its query; every candidate on the pages up to the first that is not full is scored, in order, with the tag and focus counts of all results |
| FocusScore.TimesScored | api/src/services/focusEngine.ts:359-438 | a property is scored as often as its place in the selection was on the page being read |
| FocusScore.ScoredUnlessItSlips | api/src/services/focusEngine.ts:359-438 | while rows are only deleted and appended between the queries, a property that stays is scored once, or never: never if and only if deletions before it move it from behind a page onto its place between two queries |
| FocusScore.UnchangedIsVisitedOnce | api/src/services/focusEngine.ts:359-438 | over an unchanged table every property is visited once, in order |
| FocusScore.ScoreBatch | api/src/services/focusEngine.ts:331-441 | nothing is scored without an active rule; otherwise the result is that of the pages under the first hundred active rules by priority |
| FocusScore.ActiveAreSorted | api/src/services/focusEngine.ts:331-335 | the sorted list has the active rules, each as often as given, in ascending priority |
| FocusScore.HundredRules | api/src/services/focusEngine.ts:331-335 | at most a hundred rules take part, and those left out have no smaller priority number than any of them |
| UserPropertyScope.NormalizeEnumFilter | api/src/services/user-property-scope.ts:235-257 | accepts exactly lists of 1 to 128 values that are allowed and distinct after trimming and lower-casing, and returns those; the last length test never fires |
| UserPropertyScope.CompileUserPropertyScope | api/src/services/user-property-scope.ts:411-501 | the compiler succeeds exactly for a ready profile and an acceptable request; then every binding is used once, the clauses hold for a row exactly when the profile as stored wants it and the request as given asks for it, and page, size and order are those given or the defaults |
| UserPropertyScope.AcceptedRequest | api/src/services/user-property-scope.ts:273-397 | which requests are acceptable: known names, 1 to 128 different ones, texts of at most 256 characters, a threshold of at least 0, pages 1 to 100000 of 1 to 100 rows, both window bounds or none |
| UserPropertyScope.AskedIsSought | api/src/services/user-property-scope.ts:235-397 | the normalized request asks for exactly the rows that meet the request as given: names by trimmed lower case, rejected rows only on demand |
| UserPropertyScope.AdmittedIsWanted | lib/parse-rules/src/index.ts:183-242 | the normalized profile admits exactly the rows that suit the profile as stored |
| UserPropertyScope.SortMeans | api/src/services/user-property-scope.ts:346-354 | a minus sign sorts descending by the column named, no sort by the score descending |
| ScopeTexts.ListTexts | api/src/services/user-property-scope.ts:418-420 | the texts of the membership clauses |
| ScopeTexts.StatusTexts | api/src/services/user-property-scope.ts:430-467 | the texts of the two clauses on the personal status |
| ScopeTexts.BoundTexts | api/src/services/user-property-scope.ts:434-449 | the texts of the optional bounds of price and area |
| ScopeTexts.WordText | api/src/services/user-property-scope.ts:451-455 | the text of a stop-word clause |
| ScopeTexts.SearchText | api/src/services/user-property-scope.ts:470-472 | the text of the search clause |
| ScopeTexts.FocusAndDocumentTexts | api/src/services/user-property-scope.ts:474-481 | the texts of the threshold and document clauses |
| ScopeTexts.WindowText | api/src/services/user-property-scope.ts:482-491 | the text of the freshness clause |
| ScopeTexts.OrderTexts | api/src/services/user-property-scope.ts:353 | the texts of the orders by price, score and area |
| ScopeTexts.LongOrderTexts | api/src/services/user-property-scope.ts:353 | the texts of the orders by the other columns |
| UserPropertyScope.PushProfile | api/src/services/user-property-scope.ts:417-455 | the clauses of the profile, and of the missing status filter, hold exactly for the rows the profile admits |
| UserPropertyScope.PushRequest | api/src/services/user-property-scope.ts:457-491 | the clauses of the filters hold exactly for the rows the request asks for |
| UserPropertyScope.Push | api/src/services/user-property-scope.ts:418-426 | a clause and its bindings are conjoined with the clauses before |
| UserPropertyScope.PushIn | api/src/services/user-property-scope.ts:418-421 | IN over a list means membership |
| UserPropertyScope.PushFilter | api/src/services/user-property-scope.ts:457-464 | the optional city and type filters |
| UserPropertyScope.PushStatus | api/src/services/user-property-scope.ts:465-468 | the status filter on the personal status, a missing state counting as new |
| UserPropertyScope.PushNotRejected | api/src/services/user-property-scope.ts:430-433 | without a status filter the rejected rows are left out |
| UserPropertyScope.PushBounds | api/src/services/user-property-scope.ts:435-450 | the four optional bounds; a null column passes |
| UserPropertyScope.PushBound | api/src/services/user-property-scope.ts:435-438 | one optional bound; a null column passes |
| UserPropertyScope.PushStopWords | api/src/services/user-property-scope.ts:452-456 | no stop word in title and description |
| UserPropertyScope.PushStopWord | api/src/services/user-property-scope.ts:452-456 | NOT LIKE with an escaped word means that the text does not contain it |
| UserPropertyScope.PushSearch | api/src/services/user-property-scope.ts:469-473 | LIKE with the escaped search means that title, description and address contain it |
| UserPropertyScope.PushFocus | api/src/services/user-property-scope.ts:474-477 | the focus threshold; a null score fails |
| UserPropertyScope.PushDocument | api/src/services/user-property-scope.ts:478-481 | the exact document |
| UserPropertyScope.PushWindow | api/src/services/user-property-scope.ts:482-491 | the half-open freshness window |
| UserPropertyScope.CanonicalStopWords | api/src/services/user-property-scope.ts:452-456 | normalized stop words are trimmed, non-empty and lower-case, which the clauses rely on |
| Sql.EscapeLikeIsEach | api/src/services/user-property-scope.ts:399-401 | the three sequential replacements escape each character exactly once |
| Sql.EscapedPrefix | api/src/services/user-property-scope.ts:452-456 | the escaped word followed by a percent sign matches exactly the texts that start with the word |
| Sql.LikeIsContains | api/src/services/user-property-scope.ts:452-456 | LIKE '%' escaped word '%' ESCAPE '\\' holds exactly for texts containing the word, ASCII letters in either case |
| Sql.PlaceholderMarks | api/src/services/user-property-scope.ts:403-405 | the list of n placeholders has n of them |
| Sql.TermMarks | api/src/services/user-property-scope.ts:418-491 | an expression has one placeholder in its text for each parameter that its evaluation takes |
| Sql.CondMarks | api/src/services/user-property-scope.ts:418-491 | the same for a clause |
| Sql.WhereMarks | api/src/services/user-property-scope.ts:493-496 | the text of the joined clauses has one placeholder for each parameter that evaluation takes |
| Sql.WhereAppend | api/src/services/user-property-scope.ts:418-491 | a pushed clause takes its parameters after those of the clauses before it |
| ScopeQueries.BindingsFillPlaceholders | api/src/services/user-property-scope.ts:144-145 | FROM and WHERE together have exactly as many placeholders as there are bindings |
| ScopeQueries.StatementsFillPlaceholders | api/src/services/user-property-scope.ts:176-209 | the whole text of the count, list and detail statements has as many placeholders as the call passes values: with the default status for its column before the bindings, and limit and offset after them |
| ScopeQueries.JoinedIsOneRowEach | api/src/services/user-property-scope.ts:144-145 | with one state per user and property the left join gives every property once, with the status of the user of the first binding |
| ScopeQueries.ScopedStatement | api/src/services/user-property-scope.ts:745-797 | in any statement over the scope the bindings fit the placeholders left to right, the selected rows are exactly the visible ones, and the parameters before and after reach SELECT and LIMIT/OFFSET |
| ScopeQueries.Compile | api/src/services/user-property-scope.ts:671-685 | the checks of user id, loader result, readiness and owner, in order; the profile is normalized twice to the same effect, and the clauses select by profile and request as given |
| ScopeQueries.ScopeMeans | api/src/services/user-property-scope.ts:671-685 | which calls find a scope, and which error the others get |
| ScopeQueries.InboxIsSieve | api/src/services/user-property-scope.ts:411-501 | the inbox is made of exactly the joined rows that the profile as stored wants and the request as given asks for |
| ScopeQueries.Count | api/src/services/user-property-scope.ts:687-699 | the count is the number of joined rows that the profile as stored wants and the request as given asks for |
| ScopeQueries.List | api/src/services/user-property-scope.ts:745-773 | the data are the rows of the page asked for in some listing of exactly the rows that profile and request, as given, select, sorted as the sort parameter says, shown with the personal status; total and number of pages are those of the earlier state in which the count ran; it fails exactly if a row of that page cannot be shown |
| ScopeQueries.MapRows | api/src/services/user-property-scope.ts:548-594 | the rows are shown in order, or the whole page fails exactly when one of them has no id, an unknown status or no boolean photo flag |
| ScopeQueries.PagesAreTheInbox | api/src/services/user-property-scope.ts:745-773 | the pages of one request, each a query of its own, show every row of an unchanged inbox of different rows once, however ties are ordered, if and only if the last row of each page and the next row have different sort keys |
| ScopePages.PagesCoverExactly | api/src/services/user-property-scope.ts:353 | the same for any selection: every answer of the database covers it exactly if and only if no end of a page lies between different rows with equal keys; the sort has no tie-break |
| ScopePages.PrefixIsFixed | api/src/services/user-property-scope.ts:353 | up to the end of a page at which no tie is cut, every listing has the same rows |
| ScopePages.TiesCanRepeat | api/src/services/user-property-scope.ts:353 | and it fails for two rows with equal keys and pages of one row: the first is shown twice, the second never |
| ScopePages.PagesPartition | api/src/services/user-property-scope.ts:747-770 | within one listing the pages up to the last are that listing: all full but the last, which is not empty, and nothing after it |
| ScopePages.PagesAreInOrder | api/src/services/user-property-scope.ts:353 | within one listing a row of a later page never has to come before a row of an earlier one |
| ScopePages.InOrderIsSorted | api/src/services/user-property-scope.ts:346-354 | rows in order are sorted by the field named: missing values first, then numbers, then text, reversed after a minus sign |
| ScopePages.InsertRowSorts | api/src/services/user-property-scope.ts:353 | inserting by the sort key keeps every row and the order, missing values first, so that such an order exists |
| ScopeQueries.Detail | api/src/services/user-property-scope.ts:775-797 | the row shown is visible and has the asked id; none is returned exactly if no visible row has it; it fails only if a visible row with it cannot be shown |
| ScopeStats.ReadStats | api/src/services/user-property-scope.ts:708-743 | each counter is the number of the selected rows it describes, with its bounds written out; the breakdown never fails and adds up to the total; a date that cannot be read is refused |
| ScopeStats.StatsTypeBreakdown | api/src/services/user-property-scope.ts:625-638 | accepts exactly groups with distinct known types, and maps each to its count |
| ScopeStats.GroupsCount | api/src/services/user-property-scope.ts:730-735 | GROUP BY gives each type once with the number of its rows |
| ScopeStats.EveryRowCountedOnce | api/src/services/user-property-scope.ts:708-743 | the counts over all types add up to the number of rows |
| ScopeTheorems.MatcherImpliesVisibility | lib/parse-rules/src/index.ts:384-444 | a row that the matcher admits for a normalized profile is visible to it with an empty request if and only if its city and type are stored in canonical spelling and its personal status is not rejected |
| ScopeTheorems.MatcherImpliesSelection | api/src/services/user-property-scope.ts:411-455 | for any profile: if matchesProfile admits the row, the profile is ready and the clauses compiled from it select the row under the same condition |
| ScopeTheorems.OneRowIsAdmitted | lib/parse-rules/src/index.ts:426-444 | the hypotheses can be met: a row is admitted by, and visible to, the profile of its city and type |
| ScopeTheorems.PaddedRowIsHidden | lib/parse-rules/src/index.ts:384-394 | and so can the failure: a city stored with a leading blank is admitted by the matcher and hidden by the SQL |
| ScopeTheorems.StopWordsAgree | lib/parse-rules/src/index.ts:411-419 | a text the matcher clears of stop words is clear of them in the SQL, although the texts are joined differently |
| ScopeTheorems.EnumAgrees | lib/parse-rules/src/index.ts:384-394 | membership as the matcher sees it and as the SQL sees it differ only in the spelling of the stored value |
| ScopeTheorems.SearchIsSound | api/src/services/user-property-scope.ts:469-473 | a search finds only rows that contain the words in some letter case |
| ScopeTheorems.SearchIsCompleteForAscii | api/src/services/user-property-scope.ts:469-473 | on a row every search finds all it should if and only if the row has no capital letter outside ASCII |
| ScopeTheorems.StopWordsAreCompleteForAscii | api/src/services/user-property-scope.ts:451-455 | on a row the stop-word clause catches every word that the matcher refuses if and only if no letter of title and description is a capital outside ASCII |
| ScopeTheorems.WholeTextIsMissed | api/src/services/user-property-scope.ts:451-455 | if there is such a capital, the whole text in lower case is a stop word that is missed |
| ScopeTheorems.StopWordCanBeMissed | api/src/services/user-property-scope.ts:451-455 | a Cyrillic title in capitals passes a lower-case stop word in the SQL, while the matcher refuses it |
| ParseRules.CanonItemsElements | lib/parse-rules/src/index.ts:183-200 | normalizing a list keeps exactly the non-empty trimmed lower-case items |
| ProfileMeaning.ValidProfiles | lib/parse-rules/src/index.ts:183-237 | which profiles are valid: ids from 1 to 2^53 - 1, known names, no negative bound, bounds in order, at most 128 stop words of at most 256 characters; and which errors are range errors |
| ParseRules.NormalizationIdempotent | lib/parse-rules/src/index.ts:210-242 | a normalized profile is normalized to itself |
| ParseRules.NormalizationCanonical | lib/parse-rules/src/index.ts:183-242 | profiles that differ in order, repetition, case or blanks of list items are normalized alike, or fail alike |
| ParseRules.MatcherCanonical | lib/parse-rules/src/index.ts:426-444 | the matcher does not see those differences |
| ProfileMeaning.MatchingIs | lib/parse-rules/src/index.ts:375-444 | the matcher admits a candidate exactly if the profile is valid, its city and type are among the names as given or unknown, its price and area within the bounds or unknown, and its text fields contain no stop word, nor the rent word when asked |
| SortedSets.SortedSet | lib/parse-rules/src/index.ts:187-190 | the sorted list of the distinct items |
| SortedSets.AscendingUnique | lib/parse-rules/src/index.ts:187-190 | a sorted list without repetition is determined by its elements |
| Snapshots.CheckDuplicates | lib/parse-rules/src/index.ts:261-268 | the pass with two sets finds a repeated user or profile exactly when there is one |
| ProfileMeaning.ValidSnapshots | lib/parse-rules/src/index.ts:244-268 | which snapshots have a payload: readable dates, valid profiles, one for a single user, no user and no profile twice |
| Snapshots.SortedByUser | lib/parse-rules/src/index.ts:270-274 | sorting profiles of distinct users gives ascending user ids |
| Snapshots.MapReordered | lib/parse-rules/src/index.ts:256 | mapping a function over the profiles, up to its first failure, commutes with reordering them |
| Snapshots.PayloadCanonical | lib/parse-rules/src/index.ts:244-283 | the payload does not change when profiles or list items are permuted, items repeated, or their case and blanks changed |
| Snapshots.PayloadIdempotent | lib/parse-rules/src/index.ts:244-283 | the canonical payload is its own canonical payload |
| Snapshots.CreatedSnapshotMatches | lib/parse-rules/src/index.ts:447-463 | a created snapshot passes its own hash check, and matches a candidate exactly when some input profile does |
| ProfileMeaning.SnapshotMatchingIs | lib/parse-rules/src/index.ts:447-463 | a snapshot matches exactly if its hash, in either case, is that of its payload and some profile matches; without a payload nothing |
| Snapshots.HashCanonical | lib/parse-rules/src/index.ts:323-352 | so such variants carry the same hash |
| CanonicalJson.CanonicalIffSame | lib/parse-rules/src/index.ts:329-343 | two JSON values have the same canonical form if and only if they are equal up to the order of keys at every level |
| ParseHandler.Scan | services/_shared/src/parse-handler.ts:230-281 | the kept items are, in order, the visited new items that pass the filters; the visited items are the shortest prefix at which depth or ten duplicates stop the loop; the counters are those of that prefix |
| ParseHandler.VisitedIsFirst | services/_shared/src/parse-handler.ts:234-254 | no earlier prefix of the visited items stops the loop or meets a cancellation |
| ParseHandler.StopForDuplicates | services/_shared/src/parse-handler.ts:242-256 | a stop for duplicates means that the last ten visited items existed if and only if none of their checks failed |
| ParseHandler.FailedCheckDoesNotInterrupt | services/_shared/src/parse-handler.ts:277-280 | eleven items, one of them unchecked, end the scan although the last ten did not all exist |
| ParseDetails.FetchDetails | services/_shared/src/parse-handler.ts:407-593 | the counters are those of the visited items, all of them unless one aborts; the source counts as down exactly when every attempt failed in the adapter; the list of unresolved items is exact and in order |
| ParseDetails.DownMeans | services/_shared/src/parse-handler.ts:407-593 | a finished loop finds the source down exactly if it has a snapshot and every item failed in the adapter |
| ParseDetails.FaultsDecide | services/_shared/src/parse-handler.ts:411-580 | a fatal fault aborts the loop, a plain one fails its item, or aborts with a snapshot unless it is the adapter's |
| ParseDetails.FetchOne | services/_shared/src/parse-handler.ts:411-500 | the fetch of one item: each counter moves exactly on its event, also when the item then aborts the loop |
| ParseDetails.MergeOne | services/_shared/src/parse-handler.ts:425-475 | a non-empty response: diagnostics, then one location counter |
| ParseDetails.PersistOne | services/_shared/src/parse-handler.ts:509-580 | what becomes of a located item, and its counters |
| ParseDetails.HandleOne | services/_shared/src/parse-handler.ts:409-581 | one item: its fate and every counter |
| ParseDetails.CounterLaws | services/_shared/src/parse-handler.ts:407-593 | after any run, aborted or not: details_ok is at most details_attempted, the diagnostics counters and the locations at most details_ok |
| ParseDetails.FinishedLaws | services/_shared/src/parse-handler.ts:407-593 | when no item aborts: each is accounted for exactly once, and unresolved = missing + items with an empty response and no scanned location |
| ParseDetails.DetailsAccounting | services/_shared/src/parse-handler.ts:407-593 | created + skipped + failed = items; confirmed_address + region_only + missing = details_fetched <= details_ok <= details_attempted; with a snapshot details_ok + failed = details_attempted |
| ParseDetails.SafeIntegersOnly | api/src/services/parser-source-health.ts:120-128 | counters above 2^53 - 1 are refused, and counters up to it accepted |
| ParseDetails.ContractHolds | api/src/services/parser-source-health.ts:132-175 | the consumer accepts the counters of a finished loop if and only if no response was empty for an item without a scanned location |
| ParseDetails.ContractHoldsOnAbort | api/src/services/parser-source-health.ts:132-175 | the counters reported by a loop that an item aborts are accepted if and only if no earlier item had an empty response without a scanned location, or just one had and the aborting item was merged to a missing location |
| ParseDetails.AbortCanHideIt | api/src/services/parser-source-health.ts:132-175 | so an aborted loop with such a response can be accepted: two items, the second merged to a missing location and then cancelled |
| ParseDetails.EmptyResponseIsRefused | api/src/services/parser-source-health.ts:132-175 | one item without a location whose response is empty makes the counters of a finished loop unacceptable |
| HealthPolicy.MedianSplits | api/src/services/parser-source-health.ts:218-225 | at least half of the values are at most the median and at least half at least |
| HealthPolicy.MedianIsTheMiddle | api/src/services/parser-source-health.ts:218-225 | the median is the middle of the sorted values, or the mean of the two in the middle |
| HealthPolicy.ClassesAre | api/src/services/parser-source-health.ts:243-345 | which input is refused, and for each class the exact condition on error, canary and counters, in whole numbers and with its thresholds |
| HealthPolicy.HealthIsMonotone | api/src/services/parser-source-health.ts:243-345 | counters no worse than those of a healthy run are healthy against the same baseline |
| HealthPolicy.BetterCanBeQuarantined | api/src/services/parser-source-health.ts:243-345 | for a run and any counters no worse: the class is no worse if and only if error and canary decide alone, or it is not the case that the first successful pages came without any property block or without any label |
| SourceHealth.QuarantineIsAbsorbing | api/src/services/parser-health-alerts.ts:65-117 | whatever is recorded, in any interleaving, a source with a changed schema or blocked stays one of the two |
| SourceHealth.UnsetOnlyBecomesQuarantined | api/src/services/parser-health-alerts.ts:65-82 | a source with no intelligible status gets none but one of these two |
| SourceHealth.CanaryNeverHeals | api/src/services/parser-health-alerts.ts:75-79 | no canary step turns degraded into healthy |
| SourceHealth.HealedBy | api/src/services/parser-health-alerts.ts:75-117 | a source turns healthy only by a recorder that has read it degraded, outside a canary |
| SourceHealth.StreakMeansDegraded | api/src/services/parser-health-alerts.ts:80-85 | in every reachable state the streak is positive exactly for a degraded source |
| SourceHealth.AloneIsExact | api/src/services/parser-health-alerts.ts:83-117 | a recorder that is not interleaved is applied with the decided status and streak |
| SourceHealth.AloneDecides | api/src/services/parser-health-alerts.ts:65-166 | status, streak, check time and alert columns after an uninterrupted recording, case by case: a degraded source recorded healthy outside a canary is healthy with streak 0 |
| SourceHealth.AnswerIsTrue | api/src/services/parser-health-alerts.ts:113-117 | a recorder answers that it was not applied exactly if the status had changed, and then nothing was written |
| SourceHealth.AlertIsOwn | api/src/services/parser-health-alerts.ts:156-165 | after others have stepped in, the alert columns are set only if the row still is as this recorder left it |
| SourceHealth.CountedExactly | api/src/services/parser-health-alerts.ts:83-117 | an applied recording leaves the streak that counts on from the current one if and only if nobody changed the streak since its read, or its own status resets it |
| SourceHealth.EachIsCounted | api/src/services/parser-health-alerts.ts:83-117 | over any run the streak is at every moment that of the applied recordings made one after the other, if and only if no applied recording that counts had its streak changed between read and write |
| SourceHealth.StreakCountCanBeLost | api/src/services/parser-health-alerts.ts:113-117 | two interleaved recorders are both applied and one count is lost, as only the status is compared |
| SourceHealth.Sources.RecordParserSourceHealth | api/src/services/parser-health-alerts.ts:46-167 | applied exactly if the status found by the update is the one read; then what was decided is stored at once and nothing else; otherwise nothing is written; a sent mail is stored in the row only if it still is as this call has left it |
| RunTelemetry.CallerStep | api/src/services/parser-run-telemetry.ts:198-343 | each read, conditional update and second read keeps what is known about its caller |
| RunTelemetry.StepKeepsInv | api/src/services/parser-run-telemetry.ts:198-343 | every step of every interleaving keeps the invariant |
| RunTelemetry.WrittenOnce | api/src/services/parser-run-telemetry.ts:198-343 | snapshot metadata, digest window and digest counters each leave their initial value at most once, the last two never after the run has finished |
| RunTelemetry.AnsweredIsStored | api/src/services/parser-run-telemetry.ts:198-343 | a caller that was answered finds its own value stored from then on, zero counters aside |
| RunTelemetry.AnsweredAgree | api/src/services/parser-run-telemetry.ts:283-343 | answered callers of one kind asked for the same value |
| RunTelemetry.RefusedForCause | api/src/services/parser-run-telemetry.ts:198-343 | a caller is refused only if the run is missing or finished, or another value is stored |
| RunTelemetry.DigestAlwaysBalanced | api/src/services/parser-run-telemetry.ts:126-167 | scheduled = sent + skipped + failed in every reachable state |
| RunTelemetry.ZeroCountersStay | api/src/services/parser-run-telemetry.ts:309-343 | in a reachable state in which zero counters were answered, every later state has them stored if and only if they are stored now and the run has ended |
| RunTelemetry.ZeroCountersAreNotKept | api/src/services/parser-run-telemetry.ts:309-343 | any other balanced counters can be stored after zero counters were answered on a new run |
| RunTelemetry.ParserRuns.EnsureParserRunSnapshot | api/src/services/parser-run-telemetry.ts:198-262 | under interference: true only if the own metadata are stored, false only if the run is missing or others are |
| RunTelemetry.ParserRuns.SetDigestWindowEndAt | api/src/services/parser-run-telemetry.ts:283-306 | the same for the window of a running run |
| RunTelemetry.ParserRuns.SetDigestCounters | api/src/services/parser-run-telemetry.ts:309-343 | the same for the counters, which must add up |
| RateLimit.CleanupNeverChangesADecision | api/src/middlewares/rate-limit.ts:9-15 | for any run with a monotone clock the decisions are those of the run without cleanups |
| RateLimit.FewerThanTwiceMax | api/src/middlewares/rate-limit.ts:28-46 | over any run, a closed interval of one window has at most 2*floor(max) - 1 accepted requests of an ip, and none for a maximum below one |
| RateLimit.TheBoundIsReached | api/src/middlewares/rate-limit.ts:28-46 | and two bursts reach that bound, so the window does not slide |
| RateLimit.Limiter.constructor | api/src/middlewares/rate-limit.ts:17-19 | missing or zero options take their defaults; negative and fractional ones are kept |
| RateLimit.Limiter.Handle | api/src/middlewares/rate-limit.ts:21-49 | a request is accepted exactly within the maximum of its window; the new store and the remaining count are exact; preflight requests pass uncounted |
| RateLimit.Limiter.CleanUp | api/src/middlewares/rate-limit.ts:10-15 | the loop removes exactly the expired entries |
| IdentityMigration.IdentitiesAreUnique | scripts/migrate-property-identity.js:386-396 | after the merge no two properties share (source, external_id), and every identity is kept by a property with an id no greater |
| IdentityMigration.InvalidRowsAre | scripts/migrate-property-identity.js:65-72 | which rows stop the migration: a source or external id that is missing, empty or has a space at an end |
| IdentityMigration.LocalPhotosAre | scripts/migrate-property-identity.js:217-247 | the local photos of a property are those in its directory |
| IdentityMigration.RelationsAreKept | scripts/migrate-property-identity.js:386-391 | relation rows keep number and order, and each refers to a property with the identity it referred to before |
| IdentityMigration.KeeperHasEveryUrlOnce | scripts/migrate-property-identity.js:222-257 | the media list of a merged keeper holds every URL of its group, each once, and no other |
| IdentityMigration.KeeperHasEveryPhotoOnce | scripts/migrate-property-identity.js:222-257 | its photos are, each once, its own and those of the duplicates: a local file as its copied path, a remote one as it is, and nothing that was not copied |
| IdentityMigration.UniqueValuesFacts | scripts/migrate-property-identity.js:188-190 | the distinct non-empty values |
| IdentityMigration.SecondRunFindsNothing | scripts/migrate-property-identity.js:354-407 | a second run finds no group and changes nothing |
| PropertyDatabase.Database.DuplicateGroups | scripts/migrate-property-identity.js:77-87 | every identity with more than one row, once, with its rows in ascending order |
| PropertyDatabase.Database.StageMedia | scripts/migrate-property-identity.js:222-257 | the merged media of every keeper |
| PropertyDatabase.Database.StageGroup | scripts/migrate-property-identity.js:232-252 | the media of one group, keeper first |
| PropertyDatabase.Database.MoveRelations | scripts/migrate-property-identity.js:372-389 | each table: references to the duplicate become references to the keeper, nothing else |
| PropertyDatabase.Database.MergeDuplicate | scripts/migrate-property-identity.js:388-391 | one duplicate merged away |
| PropertyDatabase.Database.MergeGroup | scripts/migrate-property-identity.js:387-395 | one group merged, with the media of its keeper |
| PropertyDatabase.Database.MergeGroups | scripts/migrate-property-identity.js:386-396 | all groups: the database becomes the merged one |
| PropertyDatabase.Database.Migrate | scripts/migrate-property-identity.js:354-437 | refused exactly for unclean identities, undone exactly for orphaned relations, otherwise the merged database; the reported groups and deleted rows are exact |
| PropertyDatabase.OrphansStay | scripts/migrate-property-identity.js:401-407 | the check after the merge finds an orphan exactly when there was one before |

## Left out

- SQLite itself: WAL, busy handling, the schema migration, timers and promises. An exception from the database while a worker settles a job is the machine's crash of that worker's flight.
- Legacy active rows without a lease: their recovery by start time is in the statements, but the invariant starts from an empty table.
- JSON.stringify and JSON.parse of job data and results; the claimed row is taken as the job.
- `addAndWait`, `findJobsByCorrelationPrefix`, `cancelJob` on its own and the polling schedule: waiting and reading only.
- The size of the database file in the detailed statistics.
- FocusEval.SafeEval: the messages of the errors and the number that a literal denotes are not modelled; a literal with several dots is one literal, as in the source.
- FocusConditions.Matches: Number(text), the parsing of dates, the value of a field as a variable and the arithmetic of expressions are parameters; fields hold text, numbers or flags.
- FocusScore.ScoreBatch: the selection is the list that each query sees, without the filters that make it; rules of equal priority come in the order of the list, and sums are exact.
- ScopeQueries.List: the theorem about its pages is for a database that does not change between them.
- UserPropertyScope.CompileUserPropertyScope: arguments of the wrong type and unknown request keys are excluded by the types; the sort field is looked up among the listed names only, not among the inherited names of an object; the check of an ISO instant is a parameter.
- ScopeQueries.Count: that the database answers with rows of the expected shape (`rowsFromRaw`, `totalFromRaw`) is taken for granted, and the JSON columns of a shown row are passed on as they are.
- Snapshots.CreatedSnapshotMatches: the ISO date check and the hash are parameters; the schema version is fixed, and list items are strings.
- CanonicalJson.CanonicalIffSame: numeric-looking keys, which JavaScript objects order first, are sorted like the others.
- ParseHandler.Scan: canonicalization of listed items, the artifact files and the statistics of the source are I/O; the filters are verdicts.
- ParseDetails.FetchDetails: merging of locations, parties and other fields of an item is reduced to the resulting location status; browsers, pauses and HTTP are left out.
- HealthPolicy.HealthIsMonotone: the division of counters is any monotone function, exact or rounded; comparisons and the mean of two values are exact; the checks of fingerprints are left out.
- SourceHealth.Sources.RecordParserSourceHealth: mail, logging and the text of the alert are left out; the outcome of sending is a parameter.
- RunTelemetry.WrittenOnce: the creation of a run is one step, and `finishParserRun` and the source stages, whose check and write are not atomic, are not part of the theorem beyond the end of the run.
- RateLimit.Limiter.Handle: headers and response bodies are left out, and one configuration is assumed per store; options that are not numbers are not modelled.
- PropertyDatabase.Database.Migrate: copying and publishing of files is the given map of copied paths; backup, index and trigger SQL are left out, and the media columns are assumed to exist.
- `dedupeParties`, user profiles and states with optimistic versions, `parser-probe`, the digest handler, adapters, controllers and the user interface: I/O, or easier repeats of the patterns above.
