# Verified model of the migration platform's core protocols

This project models, in Dafny, the parts of the migration platform whose correctness is
hard to see from the code, and proves what they promise. It covers the Go orchestrator
(`apps/orchestrator-go`) and the logic-heavy parts of the Rust API (`apps/api`).

| modules | what they are about |
|---|---|
| OperationLedger, CallEndpoint, DeliveryRuns, HiddenEffects, CallRuns | one row per delivered step, taken through six states under leases; one attempt; any interleaving of attempts with crashes, expiring leases and ambiguous commits; what a sendable row can hide |
| StageGraph, Manifest, StageScheduler, BatchTheorems, SkipReasons | manifest validation with Kahn's check of `dependsOn`, the wave scheduler and the sequential loop, the short recursive specification the scheduler refines, and when a skipped stage is told the wrong reason |
| Connectors, Ingest, MigrationRun | resumable CSV, JSON and Salesforce iterators, the batch reader, and the ingest loop over continue-as-new runs |
| JobLifecycle, Paging, RetryPaging, Reconciler | the job record and all its writers, keyset paging, bulk retry, and the reconciler's pass |
| Rendering, RenderMeaning, UrlTemplates, StrayBraces, Destinations, StepChain | `$fromResponse` references: the static check of a template, the renderer and what it renders place by place, URL placeholders as text and the templates their check judges exactly, and a row's step chain |
| SalvageScan, SalvageTheorems | salvaging complete records from a clipped JSON array |
| Licence, LicenceHeartbeat, LicenceAdoption | heartbeat timing and adoption of licence documents |
| WatchStore, WatchRun | the watch cursor and idempotent starts under overlapping runs |

`dafny verify dfyconfig.toml` checks everything.

How the outside world enters: the clock, the destination, the database's faults, activity
failures, other attempts, other writers and other runs are parameters, most of them functions
the theorems quantify over. SQL statements are guarded atomic updates of maps; JSONPath, JSON
parsing, the Python sandbox, percent-encoding and query parsing are function parameters.

Assumptions of the delivery results: a request that failed before its headers were written, or
was answered 429 or another 4xx except 408, was not applied; the effect, if any, happens at the
send step; attempt ids are unique. A *grant* is an explicit operator decision: a resend of a
succeeded operation, or "confirm not applied" for an unresolved or unknown one. A *re-send* is
an attempt the idempotent policy lets send on an unknown outcome.

Places where the code does not do what its documentation or messages say, modelled as the code
is, each with an input and the exact condition:

- `docs/adr/0003-operation-ledger.md:57` says a changed payload is refused in any state in which
  an effect may exist. `HiddenEffects.ChangedPayloadSentIff`: without a flag it is sent exactly
  when the row is pending or failed, so the rule fails exactly where such a row hides an effect.
  `SendableHidesAtMostGrants`: in any mixture of modes, with no lookups or with truthful lookups and
  sends inside the lease, what it hides is at most the grants plus the re-sends, so without either
  the rule holds. `HidesEffectIff`: with an effect behind a row that is neither, one attempt can
  leave it pending or failed if and only if the ledger decides to send it, a condition on the row,
  the intent and the clock (`GuardIsDecision`). This can happen in every mode:
  `IdempotentSendableMayBeApplied` does it by one re-send answered 429, `ManualSendableMayBeApplied`
  by one operator resend answered 429.
- A skipped stage may be told "dependencies never satisfied" although it lost a dependency
  (`apps/orchestrator-go/internal/workflows/batch.go:192-202`; the comment calls that case
  impossible). `SkipReasons.NeverSatisfiedHidesLoss`: on a validated graph that reason always hides
  a lost dependency. `MisreportedIff`: a stage gets it exactly when each of its unsatisfied
  dependencies is skipped only after its own turn. `InOrderLeavesNothing`: if every stage is
  listed after its dependencies nobody gets it. `RunBackwards` is the listing c, b, a.
- A watch run's workflow id is meant to name one object version. `WatchStore.IdIsUniqueIff`: it
  belongs to one version alone exactly when bucket, key and etag hold no `|`. On the versions the
  connectors deliver it never fails (`ListedVersionsStayApart`), since their buckets and etags
  hold none.
- The renderer is to refuse any placeholder left unresolved, and looks for them in the filled text
  (`apps/orchestrator-go/internal/template/destination.go:22-54`). `StrayBraces.MissingIsNoticed`: one
  without a parameter is always noticed. `JudgedRightlyIff`: when none is missing, the URL passes for
  all values of the parameters if and only if the template has no stray pair: a brace that opens no
  group of its own and, starting like a name, closes over name characters and given parameters only.
  `{{id}}` has one (`UrlTemplates.StrayBracesRemain`); `a{b-c}` has none.

## Model

| member | source | states |
|---|---|---|
| `OperationLedger.DecisionTable` | apps/orchestrator-go/internal/activities/operations.go:91-138 | each of the decisions busy, replay, look up and send is made exactly for these stored states, leases, payloads, modes, ages and flags; everything else is refused |
| `OperationLedger.BeginKeepsLeaseConsistent` | apps/orchestrator-go/internal/activities/operations.go:180-263 | opening an attempt keeps "being sent exactly while a lease holder is named", and never takes a live lease over |
| `OperationLedger.FinishKeepsLeaseConsistent` | apps/orchestrator-go/internal/activities/operations.go:269-292 | closing keeps the same invariant, and closing twice is closing once, so an ambiguous commit may be retried |
| `OperationLedger.Ledger.Begin` | apps/orchestrator-go/internal/activities/operations.go:180-263 | the decision is made on the locked row, or on a fresh one that is pending and empty; the whole row afterwards; the whole attempt log, to which only this attempt may be added |
| `OperationLedger.Ledger.Finish` | apps/orchestrator-go/internal/activities/operations.go:269-292 | only the lease holder closes; the whole row and attempt log afterwards; a lost lease leaves both alone; a transaction that fails after its commit has written but reports an error |
| `CallEndpoint.RecordedAsAnswered` | apps/orchestrator-go/internal/activities/call_endpoint.go:158-197 | the state recorded follows the answer alone: succeeded exactly for a 2xx, pending for a request that never left or a 429, failed for another 4xx except 408, and for anything else unresolved in manual mode and unknown otherwise |
| `CallEndpoint.LookupRecordedAsAnswered` | apps/orchestrator-go/internal/activities/call_endpoint.go:140-156 | a found effect is recorded as succeeded with its body, a failed lookup as unknown |
| `CallEndpoint.FinishWithRetry` | apps/orchestrator-go/internal/activities/call_endpoint.go:200-218 | the row and the reply after at most four tries to close, with other attempts acting in every pause, faults before or after each commit, and the context cancelled in any wait |
| `CallEndpoint.Interleave` | apps/orchestrator-go/internal/activities/call_endpoint.go:158-218 | what any sequence of other attempts' transactions makes of the row |
| `CallEndpoint.CloseAttempt` | apps/orchestrator-go/internal/activities/call_endpoint.go:124-127 | an opened attempt closed: the row afterwards; "recorded" exactly when the ledger says so, and then its state and receipt are in it |
| `CallEndpoint.CloseLookup` | apps/orchestrator-go/internal/activities/call_endpoint.go:140-156 | a failed or successful lookup closes without sending; success exactly for a found effect that was recorded, with its receipt |
| `CallEndpoint.SendAndClose` | apps/orchestrator-go/internal/activities/call_endpoint.go:158-198 | once recorded, row and report are those the answer itself calls for; success only for a 2xx whose body is the receipt kept |
| `CallEndpoint.CarryOut` | apps/orchestrator-go/internal/activities/call_endpoint.go:129-198 | each decision leads to its close and report: the row, the request sent, the report the answer or lookup calls for, and which problem is reported exactly when |
| `CallEndpoint.Call` | apps/orchestrator-go/internal/activities/call_endpoint.go:91-198 | one attempt: nothing is opened when refused up front; the row left behind; a request is sent exactly when the decision (and a lookup that found nothing) says so; success, failed and unresolved are reported only once the ledger holds that state; a replay returns the stored receipt and sends nothing; the ledger is blamed exactly when the close was not recorded; and whatever is sent, state and report follow the answer itself |
| `CallEndpoint.CloseRecorded` | apps/orchestrator-go/internal/activities/call_endpoint.go:202-218 | a close that reported success has put its record into the row and released the lease |
| `DeliveryRuns.LeaseAlwaysConsistent` | apps/orchestrator-go/internal/activities/operations.go:197-254 | in every reachable state of any interleaving, under any clock, the operation is being sent exactly while a begun attempt is named as holder |
| `DeliveryRuns.StaleFinishChangesNothing` | apps/orchestrator-go/internal/activities/operations.go:269-292 | an attempt that lost its lease changes nothing by closing |
| `DeliveryRuns.DirectDeliveryBound` | apps/orchestrator-go/internal/activities/operations.go:91-292 | manual and idempotent attempts mixed, any interleaving, crashes, lease expiry, repeated closes and payload changes: effects, attempts that may still cause one and a sendable row together are at most one plus grants plus re-sends; no clock assumption; what surely was not applied is read off the answer, not off what is recorded |
| `DeliveryRuns.ManualDeliveryBound` | apps/orchestrator-go/internal/activities/operations.go:91-292 | manual delivery: effects are at most one plus the grants |
| `DeliveryRuns.UndecidedAtMostOnce` | apps/orchestrator-go/internal/activities/operations.go:91-138 | a manual operation no operator decided about is applied at most once |
| `DeliveryRuns.GrantsAreDecisions` | apps/orchestrator-go/internal/activities/operations.go:108-123 | grants are counted for operator decisions only |
| `DeliveryRuns.AtMostOneLiveSender` | apps/orchestrator-go/internal/activities/operations.go:105-112 | with a clock that does not run backwards, two attempts never both have a request ahead of them and an unexpired lease |
| `DeliveryRuns.MixedDeliveryBound` | apps/orchestrator-go/internal/activities/operations.go:118-138 | all modes mixed: the same bound, when lookups answer truthfully and nobody sends after its lease |
| `DeliveryRuns.LookupDeliveryBound` | apps/orchestrator-go/internal/activities/operations.go:118-138 | lookup delivery under the same assumptions: at most one plus the grants |
| `HiddenEffects.LateSendDefeatsLookup` | apps/orchestrator-go/internal/activities/operations.go:118-138 | the lease assumption is needed of every mode: one late manual send beside a truthful lookup applies the operation twice |
| `DeliveryRuns.SucceededMeansAppliedOnce` | apps/orchestrator-go/internal/activities/call_endpoint.go:158-197 | a manually delivered operation recorded as succeeded without any grant was applied exactly once |
| `HiddenEffects.SendableHidesAtMostGrants` | docs/adr/0003-operation-ledger.md:52-57 | in any mixture of modes, with no lookups or with truthful lookups and sends inside the lease: a pending or failed row hides at most as many effects as were granted or re-sent; without either it was not applied |
| `HiddenEffects.ManualSendableMeansNotApplied` | apps/orchestrator-go/internal/activities/operations.go:101-104 | its case of manual runs without grants |
| `HiddenEffects.LookupSendableMeansNotApplied` | apps/orchestrator-go/internal/activities/operations.go:101-104 | its case of lookup runs without grants, under the lookup assumptions |
| `HiddenEffects.ChangedPayloadSentIff` | docs/adr/0003-operation-ledger.md:57 | a changed payload without a flag is sent exactly in the states pending and failed; elsewhere it is busy or refused |
| `HiddenEffects.GuardIsDecision` | apps/orchestrator-go/internal/activities/operations.go:95-138 | on a row neither pending nor failed, the ledger decides to send exactly for a resend of a success, a confirmation, or the same payload idempotent within retention |
| `HiddenEffects.HidesEffectIff` | apps/orchestrator-go/internal/activities/call_endpoint.go:158-175 | from any reachable state with an effect behind such a row, some attempt's own steps end with it pending or failed if and only if that condition holds |
| `HiddenEffects.RefusedSendHidesEffect` | apps/orchestrator-go/internal/activities/call_endpoint.go:161-167 | the attempt that does it: sent, answered 429 and closed, it leaves the row pending and every effect where it was |
| `HiddenEffects.IdempotentSendableMayBeApplied` | apps/orchestrator-go/internal/activities/call_endpoint.go:161-167 | an idempotent run without grants, with one re-send, after which the operation is pending although applied, and a changed payload is sent |
| `HiddenEffects.ManualSendableMayBeApplied` | apps/orchestrator-go/internal/activities/call_endpoint.go:161-167 | a manual run with one operator resend after which the same holds |
| `DeliveryRuns.ReceiptIsStable` | apps/orchestrator-go/internal/activities/operations.go:108-117 | once succeeded, with the same payload and no resend, the row and receipt never change and no later attempt sends |
| `CallRuns.CloseWritesAtMostOnce` | apps/orchestrator-go/internal/activities/call_endpoint.go:202-218 | however often an attempt tries to close, and whatever any other attempt does in between, only the first committed try can write |
| `CallRuns.CloseIsARun` | apps/orchestrator-go/internal/activities/call_endpoint.go:202-218 | the tries to close, with others' enabled steps in every pause, are a run of the step system in which this attempt only closes |
| `CallRuns.CallIsARun` | apps/orchestrator-go/internal/activities/call_endpoint.go:91-198 | one call, disturbed in every pause by any enabled steps of others, is a run of the step system that leaves the row the call leaves |
| `StageGraph.OrderRulesOutCycles` | apps/orchestrator-go/internal/batch/manifest.go:139-191 | a graph with a topological order of all its stages is closed and has no cycle |
| `StageGraph.StuckHasCycle` | apps/orchestrator-go/internal/batch/manifest.go:181-189 | stages that all wait for one another contain a cycle |
| `StageGraph.CountDependencies` | apps/orchestrator-go/internal/batch/manifest.go:151-162 | in-degrees and child lists agree with the dependency lists, repeats included |
| `StageGraph.SettleChildren` | apps/orchestrator-go/internal/batch/manifest.go:170-180 | counting a finished stage off its children queues exactly those left without dependencies, once each |
| `StageGraph.DrainQueue` | apps/orchestrator-go/internal/batch/manifest.go:163-180 | the queue loop ends and has taken out, in topological order, every stage whose dependencies were taken out |
| `StageGraph.ValidateDag` | apps/orchestrator-go/internal/batch/manifest.go:139-191 | accepts exactly when every named dependency exists and the graph has no cycle; otherwise names an unknown dependency or a non-empty set of stages stuck in a cycle |
| `Manifest.NormalizeDeps` | apps/orchestrator-go/internal/batch/manifest.go:98-117 | dependency names are trimmed and kept once each; refused exactly when one is blank or the stage itself |
| `Manifest.ValidateRelPath` | apps/orchestrator-go/internal/batch/manifest.go:264-280 | accepts exactly the paths that, trimmed, hold no colon and no empty, `.` or `..` part between slashes of either kind |
| `Manifest.PolicyInAnyCase` | apps/orchestrator-go/internal/batch/manifest.go:60-68 | a policy word is understood in any capitals and with white space around it |
| `Manifest.CheckStage` | apps/orchestrator-go/internal/batch/manifest.go:71-118 | one stage of the loop: accepted exactly when its id, file, template key, policy word and dependencies are fine, and what is kept of it; the problem named is one the stage has |
| `Manifest.CheckStages` | apps/orchestrator-go/internal/batch/manifest.go:70-118 | accepts exactly lists of safely and uniquely named stages with a relative file, a template key, a known policy word and no blank or self dependency; otherwise the problem is that of the first stage with one |
| `Manifest.Validate` | apps/orchestrator-go/internal/batch/manifest.go:53-126 | valid exactly for well-formed manifests, which the manifest kept is again; its stages differ from those given only in trimmed and repeated dependencies and in policy words; an invalid one is told a problem it has, and of the stages the first |
| `Manifest.NormalGraph` | apps/orchestrator-go/internal/batch/manifest.go:98-117 | dropping repeats keeps the graph closed and acyclic, or not, as it was |
| `Manifest.ContinuesWhen` | apps/orchestrator-go/internal/batch/manifest.go:252-261 | which stages of an accepted manifest continue after a failure; a blank override is a word of its own, and stops |
| `StageScheduler.DepsBlocking` | apps/orchestrator-go/internal/batch/manifest.go:242-250 | true exactly when some dependency ended without success |
| `StageScheduler.ReadyStages` | apps/orchestrator-go/internal/batch/manifest.go:220-238 | exactly the pending stages whose dependencies all succeeded, each once |
| `StageScheduler.BatchRun.SkipPass` | apps/orchestrator-go/internal/workflows/batch.go:169-190 | one pass skips, in listing order, exactly the pending stages that come after a stop or have lost a dependency by their turn, tells each why, and keeps the run invariant; given up only at a write or mark that fails |
| `StageScheduler.BatchRun.SkipRest` | apps/orchestrator-go/internal/workflows/batch.go:192-207 | with nothing ready, everything still pending is skipped as "never satisfied" and nothing else is told anything new; given up only at a write or mark that fails |
| `StageScheduler.BatchRun.SkipTurn` | apps/orchestrator-go/internal/workflows/batch.go:168-207 | both together: every stage pending at the start of a turn that finds nothing ready has the reason the pass determines; given up only at a write or mark that fails |
| `StageScheduler.InOrderLeavesNothing` | apps/orchestrator-go/internal/workflows/batch.go:192-202 | if every stage is listed after its dependencies, a pass that leaves nothing ready leaves nothing pending, so nobody is told "never satisfied" |
| `SkipReasons.NeverSatisfiedHidesLoss` | apps/orchestrator-go/internal/workflows/batch.go:178-202 | in every state of a run, a stage told anything but "stopped" has lost a dependency |
| `SkipReasons.MisreportedIff` | apps/orchestrator-go/internal/workflows/batch.go:168-202 | when a pass leaves nothing ready, a stage is left to be told "never satisfied" exactly when each dependency that did not succeed is skipped only after its turn, and there is one |
| `SkipReasons.RunBackwards` | apps/orchestrator-go/internal/workflows/batch.go:168-207 | the turns of the scheduler on c, b, a, each depending on the next, where a leaves a failed row: b is told the right reason and c the wrong one; the run ends so whenever all writes and marks succeed |
| `StageScheduler.BatchRun.LaunchWave` | apps/orchestrator-go/internal/workflows/batch.go:215-304 | a wave starts only stages whose dependencies have succeeded, and none once a stopping failure was seen; given up only at a write or mark that fails; every stage it hands on to be awaited has its child's start in the log |
| `StageScheduler.JudgeStage` | apps/orchestrator-go/internal/workflows/batch.go:215-340 | a stage succeeds exactly when its job was created, its child started, and the child ended with no failed row, no unresolved row and no cancellation |
| `StageScheduler.BatchRun.AwaitWave` | apps/orchestrator-go/internal/workflows/batch.go:306-340 | every started child ends in its stage's own outcome and is counted; given up only at a write or mark that fails |
| `StageScheduler.BatchRun.RunDag` | apps/orchestrator-go/internal/workflows/batch.go:157-354 | the wave loop ends with every stage settled; at every point of the log no child starts before its dependencies succeeded or after a stopping failure was finalized; listed in order, no stage is told "never satisfied"; given up only at a write or mark that fails; each stage that ran ended as its reply's own fields say; children start only for jobs that were created, and such a stage is settled as run only after its child was started |
| `StageScheduler.BatchRun.RunSequential` | apps/orchestrator-go/internal/workflows/batch.go:137-155 | each stage in order runs unless an earlier one failed under a stopping policy; given up only at a write or mark that fails; each stage that ran ended as its reply's own fields say |
| `BatchTheorems.RunBatch` | apps/orchestrator-go/internal/workflows/batch.go:98-118 | the batch status: succeeded exactly when all stages did, failed only when none did, partial otherwise; the two counters add up to the number of stages; ends well whenever all writes and marks succeed, and else stops at the one that failed; each stage that ran ended as its reply's own fields say |
| `BatchTheorems.EachFinalizedOnce` | apps/orchestrator-go/internal/workflows/batch.go:356-364 | every stage is finalized exactly once |
| `BatchTheorems.RunsIffDependenciesSucceeded` | apps/orchestrator-go/internal/workflows/batch.go:168-304 | with every stage on `continue`, a stage runs exactly when all its dependencies succeeded and is skipped otherwise |
| `BatchTheorems.SchedulerRefinesSpec` | apps/orchestrator-go/internal/workflows/batch.go:157-354 | the wave scheduler's status map is the recursive specification read along any topological order |
| `BatchTheorems.OrderExists` | apps/orchestrator-go/internal/batch/manifest.go:139-191 | every accepted graph has such an order |
| `BatchTheorems.IndependentOfListing` | apps/orchestrator-go/internal/workflows/batch.go:157-354 | two listings of the same stages end with the same status map, whatever the waves |
| `BatchTheorems.ChainMatchesSequential` | apps/orchestrator-go/internal/workflows/batch.go:137-354 | with every stage on `stop`, a chain run in waves gives each stage the result of the sequential loop |
| `Connectors.ListIter.OpenCsv` | apps/orchestrator-go/internal/connectors/csv.go:24-66 | a reopened CSV source stands at the offset's row, or at its end when it is shorter |
| `Connectors.ListIter.Next` | apps/orchestrator-go/internal/connectors/csv.go:77-93 | rows come in order under absolute indices, with the offset after each |
| `Connectors.OpenJson` | apps/orchestrator-go/internal/connectors/json.go:16-45 | a reopened JSON array stands at the offset's row; skipping past its end is an error |
| `Connectors.FlatAt` | apps/orchestrator-go/internal/connectors/salesforce.go:108-151 | where each page's rows lie in the whole result |
| `Connectors.SfIter.Open` | apps/orchestrator-go/internal/connectors/salesforce.go:23-73 | the iterator stands where the offset says, whatever row count it claims; a skip beyond its page or a locator no page has is noticed when loading; a negative skip fails like an error (the code panics) |
| `Connectors.SfIter.OffsetNamesNext` | apps/orchestrator-go/internal/connectors/salesforce.go:98-106 | in every state, page ends and empty pages included, the emitted offset names exactly the next row |
| `Connectors.SfIter.FillBuffer` | apps/orchestrator-go/internal/connectors/salesforce.go:123-146 | the page loop ends, over any number of empty pages, at a row, at the true end, or at an error that leaves the position resumable |
| `Connectors.SfIter.Next` | apps/orchestrator-go/internal/connectors/salesforce.go:108-151 | each call returns the next row of the concatenated pages under the index the offset claimed for it, or the end exactly when all rows were delivered; a malformed offset is refused |
| `Ingest.Iter.Next` | apps/orchestrator-go/internal/activities/activities.go:259-283 | all three iterators move by one row and emit an offset for the row they stand at |
| `Ingest.OpenAt` | apps/orchestrator-go/internal/activities/activities.go:229-258 | an offset that names row k opens at row k; any other Salesforce offset opens where it points, negative skips included; one without its query job is refused |
| `Ingest.ReadBatch` | apps/orchestrator-go/internal/activities/activities.go:259-283 | a batch is the next slice of the source, full unless it reaches the end, with an offset for the row after it |
| `Ingest.Ingest` | apps/orchestrator-go/internal/activities/activities.go:229-284 | reading from any offset that names row k returns rows k.. and an offset that names the row after them; from any offset at all a batch is a consecutive slice of the source under consecutive indices; a changed source is refused; in calm weather the answer is a batch or "not ready" |
| `MigrationRun.AcceptedCheckpoints` | apps/orchestrator-go/internal/workflows/checkpoint.go:42-54 | a checkpoint is accepted exactly when it is of this version, counts nothing below zero or beyond its next row, and stands where its offset does |
| `MigrationRun.Validate` | apps/orchestrator-go/internal/workflows/checkpoint.go:42-54 | an accepted checkpoint has its outcome totals within its next row, which is its offset's row |
| `MigrationRun.StartsWhereNamed` | apps/orchestrator-go/internal/workflows/checkpoint.go:66-89 | where a run starts for every input, and exactly which are rejected and why |
| `MigrationRun.NeverFallsBackToRowZero` | apps/orchestrator-go/internal/workflows/checkpoint.go:66-89 | a run starts at row zero only when its input names no position, or row zero |
| `MigrationRun.CheckRowContinuity` | apps/orchestrator-go/internal/workflows/checkpoint.go:94-107 | passes exactly for batches that start at the checkpoint, have no gap, agree with the new offset and make progress |
| `MigrationRun.MigrationJob.ProcessRow` | apps/orchestrator-go/internal/workflows/workflows.go:356-381 | the counter of the row's own outcome moves by one and no other; row and outcome are recorded exactly when the outcome was stored |
| `MigrationRun.MigrationJob.Preprocess` | apps/orchestrator-go/internal/workflows/workflows.go:266-290 | preprocessing keeps the number of rows and their indices, or fails |
| `MigrationRun.MigrationJob.AcceptReply` | apps/orchestrator-go/internal/workflows/workflows.go:185-233 | one turn of the loop from any reply: the checkpoint, the totals and the recorded rows move together; it fails exactly when the reply, the sequence, the preprocessing or the storing of a row is broken, and names which; the rows recorded are those of the batch, each with its own outcome |
| `MigrationRun.MigrationJob.HandOff` | apps/orchestrator-go/internal/workflows/workflows.go:234-261 | the successor accepts the checkpoint exactly when its offset agrees with its next row, and takes the totals over |
| `MigrationRun.RunAnyConnector` | apps/orchestrator-go/internal/workflows/workflows.go:146-244 | for an arbitrary, even faulty, connector and any hand-offs: the recorded rows are 0, 1, 2, .. once each and in order, and processed + failed + unresolved equals the next row; what was ingested are the rows of the replies so far; it runs until a last batch, and stops only at a reply, activity or hand-off that is broken; each total counts its own kind of outcome, and each outcome is the one its row had |
| `MigrationRun.TakeBatch` | apps/orchestrator-go/internal/workflows/workflows.go:169-233 | one Ingest activity against a real source keeps the checkpoint resumable where the job stands; it fails only in bad weather or through an activity that fails on rows of the source |
| `MigrationRun.TakeTurn` | apps/orchestrator-go/internal/workflows/workflows.go:146-152 | a paused turn waits, a cancelled one stops with what was stored before, any other takes a batch |
| `MigrationRun.RunSource` | apps/orchestrator-go/internal/workflows/workflows.go:96-244 | a job over a CSV, JSON or Salesforce source ends, whatever pauses, cancellations and hand-offs there are; when it ends well it ingested exactly the source, for any batch size; what stopped it is in the turn or run it stopped at, so when nothing goes wrong there it finishes; each total counts its own kind of outcome, and each outcome is the one its row had; nothing before the last turn was cancelled or refused |
| `JobLifecycle.Job.StartJob` | apps/api/src/routes/jobs.rs:151-203 | a started run is recorded; a start that reached no one fails a pending job only; an unknown start changes nothing |
| `JobLifecycle.Job.MarkJobRunning` | apps/orchestrator-go/internal/activities/watch.go:450-457 | a job that is not pending is left alone; the first start time survives |
| `JobLifecycle.Job.SignalAndRecord` | apps/api/src/routes/jobs.rs:442-520 | pause is recorded from running only, resume from paused only, and neither without its signal |
| `JobLifecycle.Job.CancelJob` | apps/api/src/routes/jobs.rs:525-575 | cancels exactly the non-terminal jobs, with totals, once the workflow was told or is gone; if it cannot be told, the record stays |
| `JobLifecycle.Job.SyncTotals` | apps/orchestrator-go/internal/activities/activities.go:556-570 | progress totals are written to running jobs only |
| `JobLifecycle.Job.Finalize` | apps/orchestrator-go/internal/lifecycle/lifecycle.go:67-99 | succeeded exactly when the job was not cancelled, has no stored or given error, and its rows are some and none failed or unresolved; cancelled exactly when it was or the outcome is; failed otherwise; the totals, the error and the end time; the reconciler's variant leaves terminal jobs alone |
| `JobLifecycle.WriteKeeps` | apps/orchestrator-go/internal/lifecycle/lifecycle.go:57-99 | every writer keeps the record invariant and makes a legal transition |
| `JobLifecycle.HistoryKeeps` | apps/orchestrator-go/internal/lifecycle/lifecycle.go:16-42 | over any sequence of writers: a recorded error implies failed or cancelled; succeeded implies totals with rows and none failed or unresolved; terminal jobs have an end time |
| `JobLifecycle.HistoryIsLegal` | apps/api/src/routes/jobs.rs:148-203 | between any two points of any history: terminal never becomes active, cancelled is absorbing, an error and a start time are never cleared |
| `JobLifecycle.CleanFinishSucceeds` | apps/orchestrator-go/internal/lifecycle/lifecycle.go:28-99 | after any writes that neither cancel the job nor store an error, the workflow's final write leaves it succeeded exactly when the result is clean |
| `JobLifecycle.CleanRepairSucceeds` | apps/orchestrator-go/internal/lifecycle/lifecycle.go:28-99 | the same for the reconciler meeting the job still active |
| `JobLifecycle.ErrorIsNeverForgotten` | apps/orchestrator-go/internal/lifecycle/lifecycle.go:57-60 | a job whose execution failed outside its rows never reads as succeeded afterwards |
| `JobLifecycle.FinalizersAgree` | apps/orchestrator-go/internal/lifecycle/lifecycle.go:1-3 | workflow and reconciler reaching the same conclusion leave the same status, error and totals in either order |
| `Paging.SelectPage` | apps/orchestrator-go/internal/activities/activities.go:493-520 | a page holds the smallest keys above the cursor, in order, as many as fit |
| `Paging.PagePrefix` | apps/orchestrator-go/internal/activities/activities.go:493-520 | between two elements of a page, and before its first, no key is left out |
| `RetryPaging.JobRows.ListFailedRows` | apps/orchestrator-go/internal/activities/activities.go:493-520 | the page of failed rows above the cursor; done exactly when it is not full |
| `RetryPaging.JobRows.RetryPage` | apps/orchestrator-go/internal/workflows/workflows.go:648-654 | the rows of a page are attempted in order and the cursor follows them, although they change status meanwhile; cut short only at a retry that fails |
| `RetryPaging.JobRows.RunOnce` | apps/orchestrator-go/internal/workflows/workflows.go:628-668 | one run ends after the last page, or with a cursor for its successor once enough rows were retried and within a page of that; an error exactly when the last retry failed |
| `RetryPaging.JobRows.RetryFailedRows` | apps/orchestrator-go/internal/workflows/workflows.go:611-669 | while others write to any rows: bulk retry attempts each initially failed row nobody else touches exactly once, in ascending order, over any number of runs; changes no other such row; ends even when rows fail again; and fails exactly when a retry does, having attempted every such row before it |
| `Reconciler.GoneIsTerminal` | apps/orchestrator-go/internal/lifecycle/reconciler.go:31-54 | a settled job whose workflow is closed or missing is terminal |
| `Reconciler.SettledAsEnded` | apps/orchestrator-go/internal/lifecycle/reconciler.go:31-54 | a completed workflow's job reads as its rows say, a cancelled one's as cancelled, and any other end as a failure with the error that names it |
| `Reconciler.OwnedIsLeftAlone` | apps/orchestrator-go/internal/lifecycle/reconciler.go:34-38 | a job whose workflow runs or cannot be described gets no outcome; a pending one may become running |
| `Reconciler.Jobs.StaleJobs` | apps/orchestrator-go/internal/lifecycle/reconciler.go:144-161 | the page of stale active jobs above the cursor; it fails exactly when its query does |
| `Reconciler.Jobs.Reconcile` | apps/orchestrator-go/internal/lifecycle/reconciler.go:163-208 | a job nobody else writes is settled by at most one write, reported exactly when one is called for and possible; failure is reported exactly when describing or a needed write fails |
| `Reconciler.Jobs.Pass` | apps/orchestrator-go/internal/lifecycle/reconciler.go:91-136 | whatever other writers do: every job stale at the start that nobody else wrote is settled, and counted exactly when it called for a repair that could be made; the number returned is that of the jobs repaired; cut short only by a failing query, or a failing job while the process stops; the pass ends |
| `Rendering.CollectResponseRefs` | apps/api/src/routes/templates.rs:132-149 | appends exactly the steps named by some `$fromResponse` string anywhere in the value |
| `RenderMeaning.RenderedMeans` | apps/orchestrator-go/internal/template/destination.go:135-178 | what is rendered, place by place: the row's value or null, the matched response, the literal, the script expression, and elsewhere the template's own shape; otherwise the error of a reference in it that stands for nothing |
| `RenderMeaning.ResolvedMeans` | apps/orchestrator-go/internal/template/destination.go:181-223 | the same for expressions in URLs, queries and headers: the text each stands for |
| `Rendering.RenderedFromMentions` | apps/orchestrator-go/internal/template/destination.go:135-178 | rendering depends only on responses the collector sees, and "has not executed" is raised only for such a step that is absent |
| `Rendering.ResolvedFromMentions` | apps/orchestrator-go/internal/template/destination.go:185-213 | the same for value expressions in URLs, queries and headers |
| `Rendering.Context.AddResponse` | apps/orchestrator-go/internal/template/context.go:27-38 | an empty or unreadable body is present as null, never absent |
| `Destinations.RequestFromMentions` | apps/orchestrator-go/internal/template/destination.go:26-107 | a whole request depends only on the responses its destination mentions |
| `Destinations.FillPath` | apps/orchestrator-go/internal/template/destination.go:29-47 | succeeds exactly when every path parameter has a value; the text with each marker replaced in turn |
| `Destinations.PathFillsTemplate` | apps/orchestrator-go/internal/template/destination.go:36-46 | without stray braces, filling one after another gives every placeholder its own escaped value at once, and changes nothing else |
| `UrlTemplates.ReplaceFillsHoles` | apps/orchestrator-go/internal/template/destination.go:45 | replacing a marker in the flat text fills exactly the placeholders of that name |
| `Destinations.AddQuery` | apps/orchestrator-go/internal/template/destination.go:56-93 | lists add to a key's values, single values replace them, missing ones leave them; other keys are kept |
| `Destinations.FillHeaders` | apps/orchestrator-go/internal/template/destination.go:96-104 | exactly the headers whose value resolves are set |
| `UrlTemplates.NothingLeftOver` | apps/orchestrator-go/internal/template/destination.go:48-54 | scanning for the placeholder pattern finds nothing exactly when no placeholder stands anywhere in the text |
| `UrlTemplates.LeftoversAreOpenHoles` | apps/orchestrator-go/internal/template/destination.go:48-54 | without stray braces, what is found are the unfilled placeholders, in order |
| `Destinations.CompleteIffAllGiven` | apps/orchestrator-go/internal/template/destination.go:29-54 | without braces beside placeholders, and for parameter names of any kind, a URL passes the check exactly when every placeholder has a parameter |
| `Destinations.CompleteWithoutStrays` | apps/orchestrator-go/internal/template/destination.go:29-54 | the same for any template without a stray pair, in any scope |
| `StrayBraces.MissingIsNoticed` | apps/orchestrator-go/internal/template/destination.go:48-54 | whatever else a template holds, a placeholder without a parameter is left over for all values |
| `StrayBraces.NoStrayReportsMissing` | apps/orchestrator-go/internal/template/destination.go:48-54 | without a stray pair, exactly the placeholders not given are reported, in order, for all values |
| `StrayBraces.StrayCanFail` | apps/orchestrator-go/internal/template/destination.go:36-54 | with a stray pair, one value for all parameters makes the check fail though nothing is missing |
| `StrayBraces.JudgedRightlyIff` | apps/orchestrator-go/internal/template/destination.go:22-54 | over all templates: the check is right for all values of the parameters if and only if a parameter is missing anyway or there is no stray pair |
| `UrlTemplates.StrayBracesRemain` | apps/orchestrator-go/internal/template/destination.go:45-54 | the simplest stray pair: a filled value inside literal braces is reported as left over |
| `Destinations.RenderDestination` | apps/orchestrator-go/internal/template/destination.go:26-107 | succeeds exactly when every part resolves and the substituted URL text has no placeholder; the whole request it gives; it can only miss the response of a step the destination mentions |
| `StepChain.ValidateStepReferences` | apps/api/src/routes/templates.rs:101-130 | accepts exactly the templates with unique step names whose references are all to strictly earlier steps; otherwise names a real duplicate or reference |
| `StepChain.RenderStepPayload` | apps/orchestrator-go/internal/workflows/workflows.go:517-544 | the payload is the mapping rendered place by place and, exactly where a script entry is left anywhere in it, what the script makes of it; it fails exactly when there is none |
| `StepChain.ContainsPyMeans` | apps/orchestrator-go/internal/workflows/workflows.go:546-565 | the script is needed exactly when some object within the value has a `$py` entry |
| `StepChain.ExecuteStep` | apps/orchestrator-go/internal/workflows/workflows.go:383-499 | a step either fails to render before calling, exactly when something does not resolve, or calls with exactly the payload, request and lookup that were rendered and ends as its call ends; only a recorded success adds its response |
| `StepChain.ProcessOneRow` | apps/orchestrator-go/internal/workflows/workflows.go:316-381 | steps with persisted responses are never called again; the chain stops at an unresolved step or a failed step that does not continue; the row's status; it ends without a status exactly when an outcome could not be recorded |
| `StepChain.MissingExactly` | apps/orchestrator-go/internal/workflows/workflows.go:332-354 | at any reached step, the earlier steps missing from the context are exactly those that failed in this run, all of policy `continue` |
| `StepChain.AcceptedNeverMissesStop` | apps/api/src/routes/templates.rs:101-130 | in an accepted template, first run or resumed retry, "has not executed" is only ever hit for a `continue` step that failed in this run, never for a `stop` step |
| `StepChain.ContinueCanMiss` | apps/orchestrator-go/internal/template/context.go:49-53 | the policy matters: an accepted template whose `continue` reference fails does hit it |
| `StepChain.RetryRendersAlike` | apps/orchestrator-go/internal/workflows/workflows.go:688-706 | with the same responses for what a step mentions, its payload, request and lookup render alike again |
| `StepChain.RetrySendsAlike` | apps/orchestrator-go/internal/workflows/workflows.go:383-440 | so a retry sends exactly what the first run sent |
| `SalvageScan.BestEffortArray` | apps/api/src/sampling/json.rs:158-208 | the loop returns the parses of the slices the scanner closes, in order; no decodable text or no record is an error |
| `SalvageTheorems.PassPieces` | apps/api/src/sampling/json.rs:169-179 | string contents, escapes included, never end the string early or late (section 7 of RFC 8259) |
| `SalvageTheorems.PassValue` | apps/api/src/sampling/json.rs:180-200 | inside a record no JSON value, however nested or written, emits anything or shifts the depth |
| `SalvageTheorems.EmitsRecord` | apps/api/src/sampling/json.rs:182-200 | a top-level record is emitted exactly when its closing brace is read |
| `SalvageTheorems.EmitsFile` | apps/api/src/sampling/json.rs:158-208 | scanning any prefix of an array of objects has emitted exactly the records that end within it |
| `SalvageTheorems.SalvageFile` | apps/api/src/sampling/json.rs:155-208 | for every array of objects, however written, and every cut: exactly the records that end before the cut, in order; an error exactly when none of them parses |
| `Licence.ProblemsInOrder` | apps/api/src/security/license.rs:223-246 | a document is usable exactly when it has not expired, fits the install and is within its grace; which problem is named first |
| `Licence.Holder.HeartbeatTick` | apps/api/src/security/license.rs:673-748 | no attempt unless one is called for, told from signature, last attempt and error; then document, revocation, attempt time and error are each what the exchange leaves |
| `Licence.Holder.ReloadStore` | apps/api/src/security/license.rs:753-781 | a verified document replaces the licence exactly when it should be adopted; only one in force replaces another, and it does replace one that is not |
| `LicenceHeartbeat.AlwaysRetrying` | apps/api/src/security/license.rs:256-286 | attempts fall due one interval after the signature and are repeated hourly while they fail, give or take a tick |
| `LicenceHeartbeat.NeverOutOfGrace` | apps/api/src/security/license.rs:223-286 | if every unavailable stretch (first to last failed attempt) lasts at most 47 h less two ticks and one exchange, an unexpired licence is in grace at every instant of every run |
| `LicenceHeartbeat.OutagesAreSurvived` | apps/api/src/security/license.rs:671-748 | the same in terms of server outages of that length, when the server stays up longer than any wait between attempts |
| `LicenceHeartbeat.DenialRevokes` | apps/api/src/security/license.rs:256-286 | after a denial the licence is refused at every instant until a heartbeat succeeds |
| `LicenceHeartbeat.RefreshRestores` | apps/api/src/security/license.rs:673-748 | and one that succeeds restores it |
| `LicenceAdoption.AdoptsTheBetter` | apps/api/src/security/license.rs:783-816 | while both documents are usable, a candidate is adopted exactly when it is lexicographically better by kind and signature time |
| `LicenceAdoption.EndsAtTheBest` | apps/api/src/security/license.rs:753-816 | after any sequence of documents, the licence is one of those seen and none seen is better |
| `LicenceAdoption.Confluent` | apps/api/src/security/license.rs:783-816 | replicas that see the same documents, in any order, end at equally good licences |
| `LicenceAdoption.NeverGoesBack` | apps/api/src/security/license.rs:783-816 | each change is to a strictly better licence, so none is ever gone back to |
| `LicenceAdoption.FollowStore` | apps/api/src/security/license.rs:753-781 | following the store in place is that sequence of adoptions |
| `WatchStore.IdIsVersion` | apps/orchestrator-go/internal/activities/watch.go:363-367 | with an injective digest and no separator in bucket or etag, a workflow id belongs to one version |
| `WatchStore.SeparatorsCollide` | apps/orchestrator-go/internal/activities/watch.go:363-367 | for every version with a separator in bucket, key or etag, another version with the same id |
| `WatchStore.IdIsUniqueIff` | apps/orchestrator-go/internal/activities/watch.go:363-367 | with an injective digest, an id belongs to one version alone exactly when bucket, key and etag hold no separator |
| `WatchStore.ListedVersionsStayApart` | apps/orchestrator-go/internal/connectors/sftp.go:70-73 | two versions as the object-store and SFTP connectors list them never share an id |
| `WatchStore.OneRowPerVersion` | apps/orchestrator-go/internal/activities/watch.go:371-439 | at most one row per object version in either table |
| `WatchStore.CursorHasRows` | apps/orchestrator-go/internal/activities/watch.go:270-339 | every version in a cursor has its job or batch |
| `WatchStore.Evict` | apps/orchestrator-go/internal/activities/watch.go:313-323 | what is kept are the entries with the largest keys, as many as fit, unchanged |
| `WatchStore.Database.StartRow` | apps/orchestrator-go/internal/activities/watch.go:369-439 | a version gets a row unless it has one; the shared invariants survive |
| `WatchStore.Database.AdvanceConnectorCursor` | apps/orchestrator-go/internal/activities/watch.go:277-339 | the merged cursor holds at most 10,000 entries after each advance, all of them backed by rows; other connectors keep theirs |
| `WatchRun.QuarantinedMeans` | apps/orchestrator-go/internal/workflows/watch.go:134-138 | an object is quarantined exactly when it lies below some directory called failed |
| `WatchRun.SortListing` | apps/orchestrator-go/internal/workflows/watch.go:131-171 | nothing quarantined or already seen is started; every listed object is skipped, failed or queued once |
| `WatchRun.StartItems` | apps/orchestrator-go/internal/workflows/watch.go:173-295 | everything marked as seen has a row, whatever fails in between and whatever other runs do; totals and cursor entries are those of the replies, one by one; given up exactly at a child whose run id cannot be recorded |
| `WatchRun.WatchPrefix` | apps/orchestrator-go/internal/workflows/watch.go:40-308 | a whole run among any others: the shared invariants survive; started + skipped + failed never exceeds listed, and equals it at the end; it fails only when a run id or the cursor could not be written; when nothing failed, every listed version has its job or batch |

## Left out

- Connectors.SfIter.Open: that a locator no page has is answered with an error is an assumption about the server.
- Ingest.Ingest: CSV and JSON parse errors inside a record are not modelled.
- MigrationRun.RunSource: every pause is taken to end; a cancellation in the middle of a batch is an activity that fails; progress messages are left out, and hand-offs happen wherever a schedule says instead of by history size.
- DeliveryRuns.LookupDeliveryBound: the bound needs truthful lookups and no send after the lease; both are assumptions about the world, since the code cannot enforce them.
- CallRuns.CallIsARun: what others do must be enabled steps of the system; they run in the pauses of the call, between its transactions.
- Idempotent delivery has no bound without counting re-sends: re-sending is its purpose, and safety rests on the destination's deduplication.
- CallEndpoint.Call: a failure of the opening transaction itself is not a reply of this method; in the step system it is an attempt that never begins, or one that stops right after beginning. Waits between tries to close, and the default mode by HTTP method, are left out.
- OperationLedger: payload digests are compared as the payload text, so the hash is taken to be injective; stored error texts are not bounded in length as the database bounds them.
- That a `failed` row had no effect is not claimed: a row's last error alone decides between failed and unresolved.
- That a replay returns the live body is not claimed: empty, null and `{}` bodies are stored as NULL.
- Manifest.Validate: resolving files and template keys against the bundle comes later and is not modelled; letters other than those of the policy words are not lowered.
- StageScheduler: what a stage's child workflow does is one reply per stage; the time limits of children are not modelled.
- JobLifecycle.HistoryKeeps: the API's status checks before a request are not needed for it and left out; exports and row listings are not modelled.
- Reconciler.Jobs.Pass: jobs created during a pass are not in the table (they are younger than the staleness bound).
- RetryPaging.JobRows.RetryFailedRows: says nothing of rows other writers touch during the retry; a failure of the listing itself is not modelled; how one row is retried is StepChain's subject.
- Destinations.RenderDestination: percent-encoding and query parsing are parameters; which of two failing headers is reported is left to their order.
- StrayBraces.JudgedRightlyIff: parameter names are those a placeholder can have; a parameter of another name, say `user-id`, is covered by Destinations.CompleteIffAllGiven, where templates hold no braces beside placeholders.
- SalvageScan.BestEffortArray: nesting depth is unbounded here and a 32-bit integer in the code; the JSON parser's own recursion limit is why the theorem keeps the parser as a parameter.
- Licence.Holder.ReloadStore: the file's time stamp and signature check come before it and are not modelled; reloads are excluded from the heartbeat runs.
- LicenceHeartbeat.NeverOutOfGrace: the interval is the default of 24 hours, not the one an environment variable may set.
- WatchRun.WatchPrefix: one connector's listing and staging are parameters, and failures of the listing, the licence check or loading the connector come before it; changes to a connector's bucket or prefix, and deletion of old rows, are not modelled.
- Legacy paths kept for old workflow histories, and the totals of jobs that started from the legacy offset.
- `watched_prefix.go` ignores the resume offset and is not one of the resumable sources.
- HTTP, Postgres, Redis, Temporal, MinIO and SFTP clients, authentication, URL safety checks, prompts, configuration, metrics and the web UI: no property of this kind to prove.
- Type inference guesses column types from samples, rate limiters and back-off times space out requests, and e-mail validation checks a form field; no theorem here depends on any of them.
