# Gatewerk: a verified model

This project models the protocols, state machines, parsers and arithmetic of Gatewerk (a review gateway between
agents and people) and proves what they keep over every input, every run or every interleaving. One module stands for
one component; code that updates state is a class or a method with loops, proved against a functional specification,
and the main theorems are lemmas about that specification.

| files | component |
|---|---|
| `TokenProtocol`, `TokenProtocolProofs`, `TokenHandler`, `TokenAdmission` | review links: validate, preflight, consume, execute, compensating revert, interleaved with other requests, the main app, the timeout worker and operator commands; which requests are let through |
| `MigrationFiles`, `Migrations`, `MigrationRunners` | the migration script: file order and ids, one uninterrupted run, many runners with kills |
| `Sse` | the event stream writer and the chunk-by-chunk reader |
| `AuditChain`, `AuditWriters` | the audit hash chain: what `verify` reports over rows of every version, and how several service instances grow it with and without their lock |
| `Breaker`, `BreakerEvaluator` | the deliverability circuit breaker: evaluator runs, sends, bounces and operator resumes interleaved |
| `RateLimit`, `Lockout`, `LockoutRaces`, `Ladder`, `QuietHours` | counting and time: hourly limiter and its janitor, login lockout with attempts in turn and overlapping, assignment ladder with competing workers, quiet hours |
| `Base64Url`, `Utf8`, `Ids`, `EmailTokens`, `WebhookSignature` | codecs: resource ids, signed e-mail tokens, webhook signature headers |
| `Pagination`, `Retry` | the client loops of the SDKs, composed with the server's rules |
| `Texts`, `TextOrder`, `Numbers`, `Wrappers` | strings, their order, a few integer functions, Option and Result |

Interleavings are runs of a list of events over one state, one event per database statement or atomic transaction. The
imperative handlers (`TokenHandler.Store`, `BreakerEvaluator.Server`) take, for each `await`, the events that happen
there, and are proved to be runs of the same machine. Clocks, random numbers, JSON and HMAC are parameters.

## What the code does not do

Some properties the code's comments or design state turn out false. Each has a counterexample and the exact condition
under which the property holds.

- A review can be decided twice. `executeReviewAction` describes a version-and-status guard, but its UPDATE compares
  the version only and a decision does not change the version (apps/api/src/services/reviews/execute-action.ts:104-367);
  the timeout worker guards by its claim only; revoke sets the review back to pending whatever its status. At most one
  decision is made exactly when each deciding write finds the review undecided and never reopened
  (`DecidedAtMostOnce`, `ClosingIsFinalExactlyWhen`). Three runs break it over a single link: two actions that overlap,
  a worker that claimed before the action decided, and a revoke after the decision, with no overlap at all
  (`OverlappingActionsDecideTwice`, `LateWorkerDecidesAgain`, `RevokeReopens`).
- A bootstrap of the migration script that is stopped leaves records and schema apart unless its marks are true by then;
  the next runner executes what is in effect already (`EffectsFollowRecords`, `StoppedBootstrapExactlyWhen`,
  `StoppedBackfillRepeats`). Listing by file name and comparing bare ids disagree for ids that extend one another by a
  character below the dot, such as a hyphen, which real ids use (`BaselineMarksAPrefixExactlyWhen`, `HyphenLeavesGap`).
- The audit service describes its advisory lock as safe across processes, and goes on without it when it cannot be had.
  An instance that carries a signature in memory does not read what another instance wrote since, so two instances that
  take turns fork the chain; so do rows of one millisecond whose ids are not in order; without the lock one instance is
  enough (`VerifyPassesExactlyWhen`, `TwoInstancesFork`, `SameInstantForks`, `UnlockedForks`). Of the rows signed by
  themselves only the latest anchors the chain: removing another one goes unnoticed (`RemovedLegacyExactlyWhen`), and a
  changed time that makes another one the latest reports the whole chain (`ChangedRowReportedExactlyWhen`,
  `ChangedTimeBreaksChain`).
- An evaluator run undoes an operator's resume that lands between its query and its pause
  (`PausesGroundedExactlyWhen`, `ResumeOverridden`).
- A worker's failed close of an exhausted iteration frees the claim by review id, without asking who holds it, so a
  claim of less than five minutes can be taken (`ClaimHoldsExactlyWhen`, `StaleFailureFreesNewClaim`).
- Waiting for the rate limiter's Retry-After is enough exactly when the remaining time is not a whole number of seconds
  (`RetryAfterSufficesExactlyWhen`, `RetryAfterFallsShort`), because a window is stale only after its end.
- The one-hour and one-day lockout tiers cannot be reached, however attempts overlap: the counter is cleared when a lock
  runs out (`HigherTiersUnreachable`, `NoInterleavingReachesHigherTiers`).
- The login counter is read, and written after the password check. It counts the failures exactly when each write finds
  the count its attempt has read; any number of wrong passwords that overlap count as one (`CountsExactlyWhen`,
  `OverlappingFailuresCountOnce`).
- Quiet hours "only ever delay", but shorten a delay of more than 12 hours (`ShortensExactlyWhen`, `SentEarly`).
- The review client counts an offset while reviews come and go. Walking over the pending ones it misses those that slip
  back past the offset when one before them is decided, or leave the list themselves, before their page; over a list that
  only shrinks, exactly those (`YieldedExactlyWhen`, `DecidedBetweenPages`).
- The notes client passes no cursor, so it is complete exactly when everything fits into one page (`NotesFromServer`).
- The TypeScript client says that it ports the Python contract. It honours Retry-After for status 429 only, the Python
  client for every retryable status; a value that `time.sleep` refuses (negative, infinite, not a number, or beyond 64
  bits of nanoseconds) makes the Python client raise instead of retry (`Request`).

The definitions a theorem rests on are also written out beside it in the fields and constants they come down to: the
gates and events of the link protocol (`PassesExactlyWhen`, `RequestMoves`, `ReviewMoves`), a stopped bootstrap
(`StoppedBootstrapIs`), the ends of an audit write (`EndsAre`, `CallsQueueUp`), sends and resumes (`SendsAndResumes`,
`ThrowChangesNothing`), the ladder's errors and claims (`ErrorsAre`, `PromotionErrors`, `FreesExactlyWhen`), the refusals
of a webhook header (`PresentIs`, `JudgementsAre`, `RefusalsAre`), uncounted requests (`Uncounted`), the prefix table
(`PrefixIs`) and the white space of the language (`SpacesAre`).

## Model

| member | source | states |
|---|---|---|
| TokenHandler.Store.Consume | apps/api/src/services/review-tokens.ts:436-495 | consuming succeeds exactly for an existing, unrevoked, unused, unexpired link, stamps that row and nothing else; the first of these that fails names the error, and nothing changes |
| TokenHandler.Store.UpdateReview | apps/api/src/services/reviews/execute-action.ts:268-330 | the update lands exactly when the row still has the loaded version, whatever its status; the new status follows the loaded one |
| TokenHandler.Store.ReadToken | apps/api/src/services/review-tokens.ts:349-360 | first read of validate, as one step after anything else that ran at its await |
| TokenHandler.Store.Validate | apps/api/src/services/review-tokens.ts:362-434 | verdict of validate on the row read before and the review read now, with the preview and identity gates |
| TokenHandler.Store.Preflight | apps/api/src/routes/token-reviews.ts:470-501 | the review must still accept decisions before the link is consumed |
| TokenHandler.Store.ConsumeStep | apps/api/src/routes/token-reviews.ts:503-519 | the consume call of the handler as one step of the protocol |
| TokenHandler.Store.ValidateLink | apps/api/src/routes/token-reviews.ts:398-422 | the validation stretch is the weave of its steps with the environment's events |
| TokenHandler.Store.ClaimLink | apps/api/src/routes/token-reviews.ts:470-519 | preflight and consume are the weave of their steps |
| TokenHandler.Store.LoadReview | apps/api/src/services/reviews/execute-action.ts:104-266 | the action's guards are evaluated on the row it loads, and only then |
| TokenHandler.Store.Update | apps/api/src/services/reviews/execute-action.ts:268-367 | the action's write as one step; a decision is recorded for the request exactly when it lands |
| TokenHandler.Store.Compensate | apps/api/src/routes/token-reviews.ts:547-570 | the catch block as one step |
| TokenHandler.Store.Commit | apps/api/src/routes/token-reviews.ts:529-570 | write and response, or write that hits no row and revert |
| TokenHandler.Store.Execute | apps/api/src/routes/token-reviews.ts:529-570 | load, guards, write, response or revert |
| TokenHandler.Store.Act | apps/api/src/routes/token-reviews.ts:470-570 | preflight, consume and action of a validated link, whatever runs at its five awaits, are a run of the protocol |
| TokenHandler.Store.Serve | apps/api/src/routes/token-reviews.ts:378-650 | the whole handler, whatever runs at its seven awaits, is a run of the protocol |
| TokenHandler.Store.Handle | apps/api/src/routes/token-reviews-action.ts:134-403 | "accepted" is answered exactly when the link is left stamped by this request, and then this request decided |
| TokenAdmission.HandleAlone | apps/api/src/routes/token-reviews.ts:378-650 | the handler where nothing else runs: refused, accepted or rolled back by what the link, the gates and the review say, field by field; only when accepted is a stamp, a decided review and a decision left behind |
| TokenAdmission.LinkAlone | apps/api/src/routes/token-reviews.ts:378-650 | the same of the protocol: seven steps of a recipient's decision, alone |
| TokenAdmission.MainAppAlone | apps/api/src/services/reviews/execute-action.ts:104-367 | a main-app action alone lands exactly when status, version and validity allow its kind, writes the status of its kind and records a decision for a decision only; otherwise nothing changes |
| TokenAdmission.LetThrough | apps/api/src/routes/token-reviews.ts:426-455 | over every run, a request that took its link or decided was authorized, over a link that is no preview |
| TokenAdmission.StampComesAndGoes | apps/api/src/services/review-tokens.ts:436-495 | over every run, a stamp appears only by its own request's step, authorized, on a link unrevoked, unused, unexpired and no preview at that moment, and goes only by that request's compensating update |
| TokenAdmission.StaleVersionRollsBack | apps/api/src/services/reviews/execute-action.ts:268-367 | an update that meets another version than it loaded changes nothing, and the request ends with its stamp cleared |
| TokenAdmission.LinkMoves | apps/api/src/services/review-tokens.ts:164-640 | over every event: a link appears when a pending review is sent out, a preview beside it; only an active link is extended or revoked, only a live one replied to; nothing else but stamps changes its row |
| TokenProtocolProofs.RunInv | apps/api/src/routes/token-reviews.ts:470-570 | stamps, requests and decisions stay consistent over every run of requests, worker, operator and faults |
| TokenProtocolProofs.StampedExactlyWhenDecided | apps/api/src/routes/token-reviews-action.ts:225-336 | a finished, fault-free request's stamp is on a link exactly when it was its link and it decided the review |
| TokenProtocolProofs.StampOutcomes | apps/api/src/routes/token-reviews.ts:529-570 | with faults, stamp and decision come apart only after a lost revert, a kill while holding the stamp, or a throw after the write |
| TokenProtocolProofs.RevertClearsItsOwnStamp | apps/api/src/routes/token-reviews.ts:547-570 | at any point of any run the revert finds its own request's stamp and changes that row only |
| TokenProtocolProofs.OneSuccessPerLink | apps/api/src/routes/token-reviews.ts:503-519 | two requests never both succeed over one link, and no request decides twice |
| TokenProtocolProofs.ClosingIsFinalExactlyWhen | apps/api/src/services/reviews/execute-action.ts:268-330 | a closed review stays as it is, over any run, exactly when no write lands on a closed row |
| TokenProtocolProofs.DecidedAtMostOnce | apps/api/src/services/reviews/execute-action.ts:268-330 | over every run at most one decision is made, whoever decides, exactly when each deciding write finds the review undecided and never reopened |
| TokenProtocolProofs.AtomicActionsDecideOnce | apps/api/src/services/reviews/execute-action.ts:104-367 | if load and update of each action were one step, and a worker's claim and write another, and no revoke met a closed review, every run would decide at most once and closing would be final |
| TokenProtocolProofs.OverlappingActionsDecideTwice | apps/api/src/services/reviews/execute-action.ts:268-330 | a request over the one link and a main-app action that overlap both decide the review |
| TokenProtocolProofs.LateWorkerDecidesAgain | apps/api/src/services/timeout-worker.ts:162-183 | a worker that claimed before an action decided decides the review again |
| TokenProtocolProofs.RevokeReopens | apps/api/src/services/review-tokens.ts:252-297 | without any overlap, revoking the link that is still active reopens a decided review, and the next action decides it again |
| MigrationFiles.ListingIsTheDirectory | packages/db/scripts/migrate.ts:243-248 | the listing is the ids of the directory's .sql files, each once, ordered by file name |
| MigrationFiles.FileOrderIsIdOrder | packages/db/scripts/migrate.ts:243-248 | order with and without ".sql" agree on a pair exactly when neither id clashes with the other |
| MigrationFiles.ClashCharacter | packages/db/scripts/migrate.ts:243-248 | without dots a clash is an extension by a character below "."; ids over letters, digits and underscore have none |
| MigrationFiles.ListedIdsIncreaseExactlyWhen | packages/db/scripts/migrate.ts:243-248 | listed ids increase in the bare-id order exactly when no two clash |
| MigrationFiles.GapInBaseline | packages/db/scripts/migrate.ts:158-164 | two ids listed against their bare order leave a gap in what a marker covers |
| MigrationFiles.BaselineMarksAPrefixExactlyWhen | packages/db/scripts/migrate.ts:158-164 | every marker covers a leading part of the listed corpus exactly when no two ids clash |
| MigrationFiles.HyphenLeavesGap | packages/db/scripts/migrate.ts:158-164 | a.sql and a-b.sql: listed as a-b, a, and the marker a leaves a-b out |
| Migrations.Database.MarkAll | packages/db/scripts/migrate.ts:120-125 | marking inserts exactly these ids |
| Migrations.Database.FilterCovered | packages/db/scripts/migrate.ts:158 | the ids at or below the marker, in corpus order |
| Migrations.Database.ApplyPending | packages/db/scripts/migrate.ts:173-225 | the apply loop: pending ids applied and recorded in order, recorded ones skipped, stop at the first that fails |
| Migrations.Database.RunMigrations | packages/db/scripts/migrate.ts:84-241 | the whole run, case by case: backfill, missing marker, failing baseline, fresh install, update, failing migration; the lock is free again on every path |
| Migrations.PendingPartitions | packages/db/scripts/migrate.ts:178-230 | applied and skipped split the corpus: nothing lost, nothing twice |
| Migrations.PendingKeepsOrder | packages/db/scripts/migrate.ts:178-230 | what is applied keeps the order of the corpus |
| Migrations.AppliedInTurn | packages/db/scripts/migrate.ts:178-225 | each migration runs its SQL on what those before it left |
| Migrations.FreshEqualsIncremental | packages/db/scripts/migrate.ts:130-171 | if the baseline has the effect of the covered corpus, a fresh install ends with the schema and ids of applying the whole corpus in order |
| Migrations.InstallBothWays | packages/db/scripts/migrate.ts:130-225 | two actual runs, fresh and incremental, end in the same schema and records |
| Migrations.RunTwice | packages/db/scripts/migrate.ts:173-225 | a second run applies nothing and skips the whole corpus |
| Migrations.ResumeAfterFailure | packages/db/scripts/migrate.ts:181-225 | a run that fails at a transactional migration can be resumed: with its SQL put right, the next run ends in the schema and records of a run without the failure |
| MigrationRunners.MutualExclusion | packages/db/scripts/migrate.ts:96-99 | over every interleaving and every kill, inside bootstrap too, at most one runner is between lock and unlock |
| MigrationRunners.EffectsFollowRecords | packages/db/scripts/migrate.ts:106-225 | effects and records agree at every point of a run (a transactional migration in effect exactly when recorded, a CONCURRENTLY one recorded only after its effect) exactly when each backfill, and each bootstrap that was stopped, left true marks |
| MigrationRunners.NothingTransactionalTwice | packages/db/scripts/migrate.ts:181-225 | over every run, apply loops execute no transactional migration twice and record each they execute |
| MigrationRunners.InsertNeverConflicts | packages/db/scripts/migrate.ts:181-225 | the marker insert of the apply loop never meets an existing row |
| MigrationRunners.StoppedBootstrapExactlyWhen | packages/db/scripts/migrate.ts:106-171 | where the script knows its database, a bootstrap stopped part way keeps effects and records in agreement exactly when only CONCURRENTLY ids were left to mark and an empty database had its baseline |
| MigrationRunners.StoppedBackfillRepeats | packages/db/scripts/migrate.ts:106-128 | a backfill killed after the first of two ids: the next runner executes the second one, which is in effect, again |
| MigrationRunners.RecordedIsAPrefix | packages/db/scripts/migrate.ts:106-225 | if corpora only grow at the end, the recorded ids stay a leading part of the corpus and executions follow its order, whatever is killed where |
| MigrationRunners.AloneAppliesPending | packages/db/scripts/migrate.ts:178-225 | a runner left alone executes, in order, and records exactly the pending ids that the script reports as applied, and gives up the lock; nothing else changes |
| MigrationRunners.LifeOfARunner | packages/db/scripts/migrate.ts:84-241 | from lock to unlock, in the three cases of the script: update, backfill without any execution, fresh install behind the baseline; what is recorded, in effect and executed at the end |
| MigrationRunners.LockMoves | packages/db/scripts/migrate.ts:84-99 | the lock is taken where it is free by one that waits, and given up by its holder's unlock or end; a kill changes nothing else |
| Sse.EventStream.constructor | apps/api/src/routes/events.ts:103-118 | the opening frame |
| Sse.EventStream.OnEvent | apps/api/src/routes/events.ts:120-133 | one frame per event the subscriber may see, none after the connection closed |
| Sse.EventStream.OnHeartbeat | apps/api/src/routes/events.ts:135-142 | one comment per heartbeat |
| Sse.EventStream.Cleanup | apps/api/src/routes/events.ts:146-153 | nothing is written once the connection is cleaned up |
| Sse.FramesAppend | packages/sdk-ts/src/station.ts:301-305 | splitting what is buffered with the next chunk gives the frames and the tail of the whole text |
| Sse.Reader.Feed | packages/sdk-ts/src/station.ts:301-305 | after each chunk the frames handled are the complete ones and the buffer is the unterminated tail |
| Sse.Reader.FeedAll | packages/sdk-ts/src/station.ts:293-305 | over any chunks the frames handled are those of the whole stream, in order |
| Sse.Reader.WaitForDecision | packages/sdk-ts/src/station.ts:292-361 | the wait ends with the first terminal frame of the whole stream, or a null frame, or the end of the stream |
| Sse.SignalPlace | packages/sdk-ts/src/station.ts:308-330 | over whatever frames: the wait ends at the first that holds null or a payload with this review id and one of the four types; frames without data or without JSON and other payloads are passed over |
| Sse.FrameReads | packages/sdk-ts/src/station.ts:308-323 | a frame of any lines says the JSON of the texts of its data fields, joined, without the space around them |
| Sse.CutTwoWays | packages/sdk-ts/src/station.ts:292-361 | two cuttings of one stream give the same frames, tail and outcome |
| Sse.WireReads | packages/sdk-ts/src/station.ts:308-330 | the reader gets out of the written wire exactly its payloads |
| Sse.ReaderRecoversWhatWasWritten | apps/api/src/routes/events.ts:117-142 | writer then reader: any payloads, any heartbeats, cut anywhere, come back exactly and in order |
| Sse.SignalOfWire | packages/sdk-ts/src/station.ts:325-330 | the first signal of a written wire is its first terminal payload |
| Sse.FirstTerminalIs | packages/sdk-ts/src/station.ts:325-330 | a wait ends with a payload exactly when it has the review's id and one of four types and none before it has both; it does not end exactly when none has both |
| Sse.WriteThenWait | packages/sdk-ts/src/station.ts:292-361 | a writer and a waiting reader: the wait ends with the first event written that has the review's id and one of the four terminal types, or with the close when none has both |
| AuditChain.Classify | apps/api/src/services/audit.ts:415-478 | version-1 rows by their own signature, unknown versions and missing pointers at once, the others by pointer; where the chain starts |
| AuditChain.Follow | apps/api/src/services/audit.ts:480-502 | the pointer walk from the anchor judges each row it meets by its own signature |
| AuditChain.Verify | apps/api/src/services/audit.ts:402-519 | every row of a table of any versions, loaded by time and id, gets its verdict: valid, signature mismatch, missing pointer or unreachable |
| AuditChain.ReasonsAre | apps/api/src/services/audit.ts:430-502 | the reason by version and pointer: version 1 by its own signature, unknown versions mismatch, versions 2 and 3 without pointer missing, with one a break, or valid exactly when signed over it |
| AuditChain.LoadOrders | apps/api/src/services/audit.ts:406-414 | rows are loaded by time and then id, each once |
| AuditChain.AnchorIs | apps/api/src/services/audit.ts:475-478 | the chain starts at the last version-1 row, at its signature or else at genesis |
| AuditChain.ForkReportsEarlier | apps/api/src/services/audit.ts:459-502 | of two rows with one pointer the one loaded first is reported as a break |
| AuditChain.AllValidExactlyWhen | apps/api/src/services/audit.ts:402-519 | all rows are valid exactly when every one is signed and those of version 2 and 3 are, in some order, one chain from the last version-1 signature or genesis |
| AuditChain.OnlyLegacyOrderMatters | apps/api/src/services/audit.ts:406-478 | in whatever order rows are loaded, the verdict on the table is the same, and each row's where no two share a pointer, as long as the version-1 rows keep their order |
| AuditChain.ChangedRowReportedExactlyWhen | apps/api/src/services/audit.ts:406-502 | in an upgraded partition, loaded by the changed times: changing the signed fields of one row of any version reports that row and no other exactly when it is a chain row, or there is no chain, or the latest version-1 row still has the anchor's signature; otherwise it and the whole chain are reported |
| AuditChain.ChangedContentReported | apps/api/src/services/audit.ts:436-502 | as long as its time stays, a changed row of any version is the only one reported |
| AuditChain.ChangedTimeBreaksChain | apps/api/src/services/audit.ts:406-478 | two version-1 rows change places in time, and the row chained to the second is reported |
| AuditChain.RemovedRowReported | apps/api/src/services/audit.ts:504-514 | removing a chain row reports every row after it and none before; removing the last goes unnoticed |
| AuditChain.RemovedLegacyExactlyWhen | apps/api/src/services/audit.ts:475-478 | removing a version-1 row is noticed exactly when a chain follows and its anchor changes; only the last one is an anchor |
| AuditWriters.Partition.WriteRow | apps/api/src/services/audit.ts:276-336 | which predecessor a call takes, own or enlisted, and what it leaves uncommitted |
| AuditWriters.Partition.End | apps/api/src/services/audit.ts:341-350 | what the end of its transaction adds, and what the instance carries on |
| AuditWriters.Partition.Log | apps/api/src/services/audit.ts:267-363 | a call that owns its transaction and finds the lock free is the two steps in a row |
| AuditWriters.CallIs | apps/api/src/services/audit.ts:276-351 | one call in full: a version-3 row signed over the carried signature, or else the latest row's; committed it is the last row, and carried on where the call owns its transaction; rolled back or restarted nothing is |
| AuditWriters.VerifyPassesExactlyWhen | apps/api/src/services/audit.ts:230-257 | over every run of any instances, with the lock or without, no untouched row is reported exactly when each row, as it is committed, points at the row committed last |
| AuditWriters.OneInstancePasses | apps/api/src/services/audit.ts:267-351 | one instance under the lock, any mixture of own and enlisted writes, failures, rollbacks and restarts, passes when rows are committed in ascending order |
| AuditWriters.TwoInstancesFork | apps/api/src/services/audit.ts:230-257 | two instances that take turns under the lock fork the chain on the third write |
| AuditWriters.SameInstantForks | apps/api/src/services/audit.ts:293-314 | one instance forks it when two rows of one millisecond have descending ids and an enlisted write follows |
| AuditWriters.UnlockedForks | apps/api/src/services/audit.ts:281-291 | without the lock one instance forks it with an own write beside an enlisted one that is not committed yet |
| Breaker.BreachIsRate | apps/api/src/jobs/email-pause-evaluator.ts:95-106 | a breach is at least 20 sends and more than 5% bounced or more than 0.1% complained; bounces are named first |
| Breaker.RunInv | apps/api/src/jobs/email-pause-evaluator.ts:41-147 | log, tenants and running evaluators stay consistent over every run |
| Breaker.PausesGroundedExactlyWhen | apps/api/src/jobs/email-pause-evaluator.ts:110-147 | every pause follows its audit row on 20 or more breaching sends within the window; audit and sends are all since the last resume exactly when no resume landed between query and pause |
| Breaker.OnlyResumeUnpauses | apps/api/src/routes/admin-email-pause.ts:47-80 | the tenant is paused exactly when the log says so, and only a resume of that tenant ends a pause |
| Breaker.ResumeOverridden | apps/api/src/services/email/pause.ts:23-40 | a resume that lands when a run is about to pause is undone by it, with no audit row since the resume |
| Breaker.AboutToPause | apps/api/src/jobs/email-pause-evaluator.ts:41-147 | such a moment is reached from twenty bounced sends |
| Breaker.SinceIsWindow | apps/api/src/jobs/email-pause-evaluator.ts:42-89 | a group's sample holds each send of its organization since the start of its window, as often as it was sent, and no other |
| Breaker.SampleIs | apps/api/src/jobs/email-pause-evaluator.ts:60-88 | the sample of an organization holds its sends of the last 24 hours that are not from before its resume, as often as they were sent, and no other |
| BreakerEvaluator.RowsAreGroups | apps/api/src/jobs/email-pause-evaluator.ts:42-89 | the query answers with the group of an organization exactly when it is a tenant with sends in its own window |
| BreakerEvaluator.Server.Look | apps/api/src/jobs/email-pause-evaluator.ts:91-110 | sample, rate and already-paused tests of one row as one step |
| BreakerEvaluator.Server.Audit | apps/api/src/jobs/email-pause-evaluator.ts:119-145 | the audit of one row as one step |
| BreakerEvaluator.Server.PauseStep | apps/api/src/jobs/email-pause-evaluator.ts:146 | the pause of one row as one step |
| BreakerEvaluator.Server.Consider | apps/api/src/jobs/email-pause-evaluator.ts:91-147 | the body of the loop, between one and three steps |
| BreakerEvaluator.Server.EvaluateEmailPause | apps/api/src/jobs/email-pause-evaluator.ts:41-148 | the whole job, whatever happens at its awaits, is a run of the breaker that ends at a failed call or past its last row |
| BreakerEvaluator.EvaluateAlone | apps/api/src/jobs/email-pause-evaluator.ts:41-147 | the job where nothing else runs and no call fails leaves paused exactly those paused before and those over the limits by the sends in the table, counted one by one |
| BreakerEvaluator.OneRowIs | apps/api/src/jobs/email-pause-evaluator.ts:92-147 | a row in breach of a tenant not yet paused leaves an audit row and then the pause; any other row leaves nothing |
| BreakerEvaluator.BreachOfTable | apps/api/src/jobs/email-pause-evaluator.ts:60-106 | a breach is 20 or more sends in the table of the last 24 hours and since the resume, over 5% bounced or over 0.1% complained about |
| BreakerEvaluator.CompletedRunPausesExactly | apps/api/src/jobs/email-pause-evaluator.ts:41-148 | an uninterrupted run over all tenants leaves paused exactly those paused before and those over the limits by the sends in the table |
| RateLimit.Limiter.Request | apps/api/src/middleware/rate-limit-key.ts:14-39 | verdict and new window of one request; no limit, limit 0 and no key pass uncounted |
| RateLimit.Limiter.Sweep | apps/api/src/middleware/rate-limit-key.ts:6-12 | the sweep deletes exactly the stale windows |
| RateLimit.HourFromTheFirst | apps/api/src/middleware/rate-limit-key.ts:22-39 | of the requests in the 3,600,000 milliseconds from the first one on the first `limit` pass, and the others are told the least number of whole seconds to its end |
| RateLimit.JanitorChangesNothing | apps/api/src/middleware/rate-limit-key.ts:6-37 | over any run with a non-decreasing clock the verdicts are those of a limiter that never deletes |
| RateLimit.KeysAreIndependent | apps/api/src/middleware/rate-limit-key.ts:21-37 | what passes for a key depends on its own hits only |
| RateLimit.AtMostTwiceTheLimitPerHour | apps/api/src/middleware/rate-limit-key.ts:21-37 | every closed hour of every run holds at most twice the limit, less one, of passed requests of a key |
| RateLimit.BoundIsAttained | apps/api/src/middleware/rate-limit-key.ts:21-37 | that bound is attained for every key and every positive limit |
| RateLimit.RetryAfterSufficesExactlyWhen | apps/api/src/middleware/rate-limit-key.ts:32-35 | waiting the advertised seconds opens a new window exactly when the remaining time is no whole number of seconds |
| RateLimit.RetryAfterFallsShort | apps/api/src/middleware/rate-limit-key.ts:32-35 | limit 1: told to wait one second a second before the end, and none after it, refused both times |
| Lockout.Reviewer.Login | apps/api/src/routes/auth.ts:159-226 | one attempt: locked, wrong or right password, and the new counter and lock |
| Lockout.ReachableInv | apps/api/src/routes/auth.ts:159-226 | lock and full count go together and the count never passes five |
| Lockout.HigherTiersUnreachable | apps/api/src/routes/auth.ts:78-83 | in every reachable account a lock lasts 15 minutes from the fifth failure; the other tiers have no use |
| Lockout.CounterIsFailuresSinceReset | apps/api/src/routes/auth.ts:174-226 | the counter is the number of failures since the last reset or expiry, and at most five |
| Lockout.NoCheckWhileLocked | apps/api/src/routes/auth.ts:159-172 | until the lock runs out or a reset lands nothing but "locked" is answered and the row does not change |
| Lockout.RetryAfterIsLeast | apps/api/src/routes/auth.ts:160-172 | Retry-After is the least whole number of seconds after which a password is looked at |
| Lockout.FailingChecksBounded | apps/api/src/routes/auth.ts:159-226 | any interval holds at most five failing checks for every quarter of an hour begun and every reset landed in it |
| Lockout.BoundIsAttained | apps/api/src/routes/auth.ts:159-226 | that bound is attained for every number of rounds |
| LockoutRaces.UndisturbedIsSerial | apps/api/src/routes/auth.ts:159-226 | read, clear and write of an attempt that nothing interrupts do to the row what one attempt of the serial account does |
| LockoutRaces.NoInterleavingReachesHigherTiers | apps/api/src/routes/auth.ts:78-83 | however attempts overlap the count never passes five and a lock lasts 15 minutes |
| LockoutRaces.CountsExactlyWhen | apps/api/src/routes/auth.ts:182-206 | over every interleaving the counter is the failures since the last clearing all along exactly when each write finds the count its attempt has read |
| LockoutRaces.OverlappingFailuresCountOnce | apps/api/src/routes/auth.ts:182-206 | any number of wrong passwords that overlap leave the counter at one and set no lock |
| Ladder.ValidateLadder | apps/api/src/services/assignment-ladder.ts:39-83 | accepts exactly the valid ladders, otherwise names the first bad step and the first rule it breaks |
| Ladder.ValidExactlyWhen | apps/api/src/services/assignment-ladder.ts:47-82 | no step is refused exactly when the ladder is valid |
| Ladder.ValidIs | apps/api/src/services/assignment-ladder.ts:39-83 | valid: every step names an actor and a trigger of at least 60 seconds, and the triggers rise over the whole ladder |
| Ladder.Create | apps/api/src/services/assignment-ladder.ts:85-104 | a review gets a ladder exactly when it is valid, and then stands on its first rung |
| Ladder.PromotionClimbs | apps/api/src/services/assignment-ladder.ts:106-157 | one promotion goes from a rung's closed form to the next one's, from its actor, or is exhausted |
| Ladder.ClimbClosedForm | apps/api/src/services/assignment-ladder.ts:85-157 | any number of promotions from the start lands on that rung, or fails exactly when there are no more |
| Ladder.ClimbsOnSchedule | apps/api/src/services/timeout-worker-ladder.ts:39-114 | over every run of competing workers the rung is due, never ahead, and the last one due whenever nothing is due; each rung escalated once, actor to actor |
| Ladder.OneRungActive | apps/api/src/services/assignment-ladder.ts:10-18 | over every run of competing workers exactly one rung is active, promoted before it, pending after it, actors and triggers kept |
| Ladder.WritesOneRungOrNothing | apps/api/src/services/timeout-worker-ladder.ts:89-114 | a worker's write moves the row as it stands up one due rung while it holds the claim, or changes nothing |
| Ladder.ClaimsExactlyWhen | apps/api/src/services/timeout-worker-ladder.ts:39-65 | a sweep claims the row exactly when it is open, neither expired nor snoozed, due, and free or held for over five minutes |
| Ladder.ClaimHoldsExactlyWhen | apps/api/src/services/timeout-worker.ts:385-393 | whatever other workers do for five minutes, a claim stands exactly when none of them frees it by review id |
| Ladder.StaleFailureFreesNewClaim | apps/api/src/services/timeout-worker.ts:385-393 | a worker that failed after its own claim went stale frees the next holder's, whose write is lost |
| Ladder.CrashRecovered | apps/api/src/services/timeout-worker-ladder.ts:42-65 | five minutes after a worker died with the claim, one sweep climbs the due rung and the dead worker's write changes nothing |
| Ladder.SweepsCatchUp | apps/api/src/services/timeout-worker-ladder.ts:39-87 | undisturbed, as many sweeps as rungs left climb to the last one due |
| QuietHours.TimesRoundTrip | packages/shared/src/notifications.ts:63-71 | every minute of the day is read back from its text |
| QuietHours.TimesAreCanonical | packages/shared/src/notifications.ts:63-71 | every text that is read is the text of its minute |
| QuietHours.TestIsInside | packages/shared/src/notifications.ts:130-135 | the window test is membership in the minutes walked round the clock from start before end |
| QuietHours.EarliestOutside | packages/shared/src/notifications.ts:126-139 | outside the window nothing changes; inside, the send moves to the earliest whole-minute delay outside it, or to the cap |
| QuietHours.WallClock | packages/shared/src/notifications.ts:73-90 | the minute of an instant is minutes since midnight, on a clock ahead by the zone's offset |
| QuietHours.ZoneShiftsClock | packages/shared/src/notifications.ts:112-139 | a zone is a shift of the clock; urgent mail, no window and an unusable zone leave the delay alone |
| QuietHours.HeldInZone | packages/shared/src/notifications.ts:126-139 | at 21:30 UTC in a zone an hour ahead, mail waits from 22:30 to 07:00 |
| QuietHours.ShortensExactlyWhen | packages/shared/src/notifications.ts:104-139 | the delay is shortened exactly for a send in the window beyond 12 hours, and unchanged exactly outside the window or at 12 hours |
| QuietHours.SentEarly | packages/shared/src/notifications.ts:136-139 | 13 hours into a window from 12:00 to 14:00 become 12, which is in the window too |
| QuietHours.DelayIsFixedPoint | packages/shared/src/notifications.ts:112-140 | feeding the result back in changes nothing, for all preferences |
| QuietHours.WindowApplies | packages/shared/src/notifications.ts:119-124 | a readable window applies as written; equal times do not |
| QuietHours.OtherTextsIgnored | packages/shared/src/notifications.ts:122-124 | a text that is no minute of the day leaves the delay alone |
| Base64Url.TestVectors | packages/shared/src/ids.ts:37-41 | standard base64 on test vectors of section 10 of RFC 4648 |
| Base64Url.PipelineEncodes | apps/api/src/lib/crypto.ts:48-53 | base64, two replacements and either way of dropping the padding give unpadded base64url |
| Base64Url.EncodeAlphabet | packages/shared/src/ids.ts:37-41 | base64url text uses its 64 characters only and has ceil(4n/3) of them |
| Base64Url.DecodeEncode | apps/api/src/lib/email-tokens.ts:40 | decoding undoes encoding for all bytes |
| Utf8.TestVectors | apps/api/src/lib/crypto.ts:77-78 | UTF-8 of one character of each length |
| Utf8.DecodeEncode | apps/api/src/lib/crypto.ts:77-78 | UTF-8 decoding undoes encoding for all texts |
| Ids.ToBase64Url | packages/shared/src/ids.ts:37-41 | the byte loop and the pipeline behind it give the start of the encoding; 18 bytes give 24 characters that decode to them |
| Ids.TextIsEncoding | packages/shared/src/ids.ts:35-41 | for 18 bytes there is no padding and nothing to cut: the text is the whole encoding, 24 characters |
| Ids.PrefixFree | packages/shared/src/ids.ts:1-31 | at most one of the 29 prefixes starts an id |
| Ids.FindPrefix | packages/shared/src/ids.ts:57-65 | the loop over the prefix table |
| Ids.ParseId | packages/shared/src/ids.ts:54-66 | answers the one type whose prefix starts the id with something behind it, or none; the order of the table makes no difference |
| Ids.IsValidId | packages/shared/src/ids.ts:68-71 | valid exactly when the expected type's prefix properly starts the id |
| Ids.GenerateId | packages/shared/src/ids.ts:43-48 | an id is one that parsing takes apart into the type, its prefix and the encoded bytes |
| Ids.GeneratedParses | packages/shared/src/ids.ts:43-66 | parsing a generated id gives back its type and random part, which decodes to the bytes |
| Ids.IdsDiffer | packages/shared/src/ids.ts:43-48 | two ids are equal only for equal types and equal bytes |
| EmailTokens.Difference | apps/api/src/lib/crypto.ts:80-83 | the accumulator is zero at the end exactly for equal bytes |
| EmailTokens.ConstantTimeEqual | apps/api/src/lib/crypto.ts:75-85 | true exactly for equal texts |
| EmailTokens.SignedIs | apps/api/src/lib/email-tokens.ts:29-33 | a token splits into its encoded part and its signature, because neither holds a dot |
| EmailTokens.VerifyEmailToken | apps/api/src/lib/email-tokens.ts:25-50 | accepts exactly the tokens signed over their own encoded part whose payload is for the purpose and not expired |
| EmailTokens.AcceptsExactlyWhen | apps/api/src/lib/email-tokens.ts:25-50 | accepted exactly when there are two parts, the second the base64url of the MAC, under the secret's bytes, of the first's bytes, and the first says a payload for the purpose that is not expired |
| EmailTokens.GeneratedIs | apps/api/src/lib/email-tokens.ts:16-23 | a generated token's first part decodes to the payload's text with its expiry set, its second to the MAC of the first |
| EmailTokens.VerifyUndoesGenerate | apps/api/src/lib/email-tokens.ts:16-50 | every generated token gives back its payload up to its expiry and for its purpose, and nothing otherwise |
| EmailTokens.AcceptedIsSigned | apps/api/src/lib/email-tokens.ts:29-46 | an accepted token's second part decodes to the MAC of its first, and what is returned is what the first says |
| EmailTokens.CodecExists | apps/api/src/lib/email-tokens.ts:20-41 | decoders as assumed exist |
| WebhookSignature.ParseDecimal | packages/n8n-nodes-gatewerk/helpers/verifySignature.ts:83 | the text of a number reads back as it, whatever non-digit follows |
| WebhookSignature.ReadFields | packages/n8n-nodes-gatewerk/helpers/verifySignature.ts:76-85 | the loop keeps the last t and the last v1 field |
| WebhookSignature.VerifySignature | packages/n8n-nodes-gatewerk/helpers/verifySignature.ts:58-115 | the verifier with its reasons, v2 before v1 |
| WebhookSignature.ParseIntIs | packages/n8n-nodes-gatewerk/helpers/verifySignature.ts:83 | space, a sign, digits and whatever follows are a number, and nothing else is |
| WebhookSignature.FormattingIrrelevant | packages/n8n-nodes-gatewerk/helpers/verifySignature.ts:75-85 | whitespace, order and unknown fields make no difference to the verdict |
| WebhookSignature.SentV2Accepted | README.md:271-272 | every v2 header sent is accepted exactly within the tolerance, a timestamp of zero apart |
| WebhookSignature.SentV1Accepted | README.md:271-272 | every v1 header sent is accepted where there is no v2 header |
| WebhookSignature.AcceptsV2ExactlyWhen | packages/n8n-nodes-gatewerk/helpers/verifySignature.ts:73-99 | v2 is accepted exactly when the last t field is a non-zero timestamp within tolerance and the last v1 field the MAC of "t.body" |
| WebhookSignature.AcceptsV1ExactlyWhen | packages/n8n-nodes-gatewerk/helpers/verifySignature.ts:102-114 | v1 is accepted exactly without a v2 header and for the MAC of the body |
| Pagination.ClampLimit | apps/api/src/lib/pagination.ts:12-15 | the limit used is between 1 and 100 |
| Pagination.AnswerIs | apps/api/src/routes/feedback.ts:39-48 | the page is the stretch asked for and says whether anything follows |
| Pagination.FeedbackPageBounds | apps/api/src/routes/feedback.ts:19-48 | whatever the query says: a missing or non-positive limit is 50, one over 100 is 100, a missing or negative offset is 0, and the page is that stretch of the list as far as it goes |
| Pagination.ReviewPageIs | packages/shared/src/api/schemas/reviews.ts:280-286 | the review list refuses limits outside 1 to 100 and negative offsets, and otherwise answers that stretch of the list as far as it goes |
| Pagination.ListReviews | packages/sdk-py/gatewerk/async_client.py:229-248 | against the review list, batch sizes 1 to 100 yield the whole list once and in order, and all others are refused |
| Pagination.YieldedExactlyWhen | packages/sdk-py/gatewerk/resources/reviews.py:219-238 | while the list changes between pages: an item of the first list is yielded unless it slips back past an offset or leaves the list, and, if it never comes late, exactly then |
| Pagination.DecidedBetweenPages | packages/sdk-py/gatewerk/resources/reviews.py:219-238 | pages of one over three pending reviews: deciding the first hides the second |
| Pagination.NotesAutoPaginate | packages/sdk-py/gatewerk/async_client.py:508-527 | over a finite set of ids the walk ends within one request more than ids, whatever the pages |
| Pagination.NotesOnceEach | packages/sdk-py/gatewerk/async_client.py:508-527 | it yields exactly the ids of the pages read, none twice when no page repeats one |
| Pagination.NotesFromServer | apps/api/src/routes/notes/read.ts:98-114 | batch sizes outside 1 to 100 are refused; any other yields the first page, complete exactly when the list fits into it |
| Retry.RetryingRequest | packages/sdk-ts/src/http.ts:90-172 | at most budget + 1 requests, the first non-retryable outcome or else the last, total sleep, and the code after the loop only for a negative budget |
| Retry.TsSleepBounds | packages/sdk-ts/src/http.ts:62-66 | without Retry-After the total sleep is within 20 percent of the capped doubling delays |
| Retry.Request | packages/sdk-py/gatewerk/_base.py:152-221 | the same for the Python loop, where a Retry-After that cannot be slept ends in an exception |
| Retry.PausesAre | packages/sdk-ts/src/http.ts:62-150 | a client waits as long as it is told, the TypeScript one by a 429 only, the Python one by any retryable status; otherwise for the capped doubling delay with its jitter |
| Retry.PySleepBounds | packages/sdk-py/gatewerk/_base.py:85-93 | without Retry-After the total sleep is between the capped doubling delays and a quarter more |
| Retry.CapsReached | packages/sdk-ts/src/http.ts:62-66 | closed forms of the capped delays: five doublings of a second, six of half a second, then 30 seconds each |

## Left out

- Review deletion, the monitoring and archived statuses, and templates that redefine approve, reject or cancel_iteration: the token protocol keeps the statuses the two handlers can meet.
- The chain engine, the OTP store, webhook delivery, notifications and the other routes.
- consume's "revoked" answer, which the routes' error switch does not handle: it ends as an error with nothing written and is a refusal here.
- The SQL text of migrations: an id has an abstract effect, and a failing CONCURRENTLY migration abstract debris.
- TextDecoder: chunks are decoded text, so a character is never cut in two.
- Strings are sequences of Unicode scalar values: lone surrogates are not modelled, and ids and file names are compared by code point.
- HMAC is taken to be free of collisions, and content is the text that is signed: how fields are joined to it, and that a version-2 signature depends on the order of the keys, is not part of this model.
- AuditWriters.VerifyPassesExactlyWhen: a caller's transaction holds one audit row, and the partition begins with version-1 rows or none.
- Lockout.FailingChecksBounded: attempts of one account come one after another, and a reset lands between attempts; overlapping ones are in `LockoutRaces`, where no bound holds.
- The IP limiter and the two-factor step around the login.
- The evaluator's reason text, and floating point: rates are exact, which agrees with the double division for all counts below 2 to the 40.
- One clock for application and database; a resume is later by at least one tick than what came before.
- Daylight-saving changes and unknown zones: a whole-minute offset, or an unusable zone that falls back to the base delay.
- Reassignment of a ladder review by people, and notification of an escalation.
- Rounding in delays (exact reals), the parsing of a Retry-After date, the timer limit of 2 to the 31 milliseconds in the TypeScript client, the asynchronous Python client, and error bodies.
- parseInt on numbers beyond the exact doubles, HMAC hex comparison in constant time, and the Standard Webhooks header.
- Base64 decoding of text outside the alphabet: the token verifier takes any decoder that undoes the encoding.
