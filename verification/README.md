# GriotQL, modelled and proved in Dafny

GriotQL wraps the DataFusion query engine with contract enforcement. This project models the parts
of it that decide who sees what, and proves what those parts promise. All `.dfy` files verify
together: `dafny verify dfyconfig.toml`.

| files | part of the system |
|---|---|
| `QueryCache.dfy` | the result cache: an LRU list with a byte budget and a time to live |
| `WorkerPool.dfy`, `PoolProperties.dfy`, `SubmitRuns.dfy`, `WorkerRuns.dfy`, `ShutdownRuns.dfy`, `RefreshRuns.dfy` | the worker pool as an interleaved step machine, and what holds of every run: routing and answers, submission, one worker's work, shutdown, contract refresh |
| `Predicates.dfy`, `Typing.dfy` | contract predicates: SQL expression trees, the two translators, three-valued truth, and their types over a schema |
| `LogicalPlan.dfy`, `ContractCheck.dfy`, `RowFilter.dfy`, `DpNoise.dfy`, `PrivacyBudget.dfy` | plans, their meaning over a database, and the rules that rewrite them |
| `Arrow.dfy`, `Masking.dfy`, `LaplaceNoise.dfy`, `GovernedScan.dfy`, `MaskedOutput.dfy` | record batches, the physical operators of a governed scan, and what its output reveals |
| `BundleEncoding.dfy`, `TemplateScan.dfy` | the canonical bytes a bundle is signed over, and the scanners that read a policy out of a SQL template |
| `DdlGuard.dfy`, `SqlLexing.dfy`, `GuardProperties.dfy`, `Texts.dfy` | the comment stripper and statement guard, the SQL lexer they are measured against, what the guard rejects, and the string functions the scanners share |

What the program takes from elsewhere is a parameter of the model: SHA-256, the Arrow cast to
string, comparison and LIKE, which operand types an operator takes and whether its kernels look at
a right operand that cannot matter, the tokens a SQL dialect has beyond literals and comments, the
SQL parser, signature checks, the exponential draws behind the noise, the clock, what the engine answers, and every
choice of the scheduler. Epsilons are `real`. Code that changes state
in place is written as classes and methods with loops, each proved equal to a function of its old
state; the theorems are about those functions.

Where code and documentation disagree the model follows the code:

- Masks are `***`, the empty string, zero and false, not `<REDACTED>` and typed nulls.
- An entry's age runs from its last put, and a worker puts a hit back, so an answer asked for often
  enough never expires (`QueryCache.HotAnswerNeverExpires`).
- The byte counter keeps counting entries that the LRU list replaced or pushed out by itself
  (`QueryCache.BytesAccounted`, `QueryCache.RePutLeaks`).
- `shutdown` does not wait for accepted tasks (`PoolProperties.ShutdownCanReturnWithTaskUnanswered`); what a
  clean return does mean is `ShutdownRuns.CleanReturnMeansCountedOut`.
- A contract refresh empties the cache and no more: lines 277-283 of
  src/long_running_pool_manager.rs log the new bundle and hand it to no worker's engine. An answer
  whose engine run began before the refresh is served after it, exactly when some worker was busy
  with one: running its engine for the tenant, or holding the tenant's answer
  (`RefreshRuns.RefreshIsCleanIff`). And a run that begins after the refresh still computes under
  the contract its engine was started with.
- The noise rule does not look below an aggregate it wraps, nor inside the expression kinds its
  column collector skips: the sum of a function of a tagged column gets neither charge nor noise
  (`DpNoise.AllChargedIff`, `DpNoise.WrappedColumnIsMissed`).
- A tier name outside bronze, silver, gold is never too low (`ContractCheck.ApprovedIff`).
- The physical predicate translator knows fewer forms than the logical one
  (`Predicates.PhysicalAgreesWithLogical`).
- A doubled quote ends string mode in the comment stripper, so the scanner can lose step with a
  literal (`SqlLexing.InStepIff`) and then not see a later statement
  (`GuardProperties.DoubledQuoteHidesStatement`, `GuardProperties.JoinedVerdictIff`).
- The stripper does not know delimited identifiers. A quote or a comment mark inside one is taken
  for a literal or a comment (`SqlLexing.PassesIff`) and can hide a later statement
  (`GuardProperties.QuoteInIdentifierHidesStatement`, `GuardProperties.MarkInIdentifierHidesStatement`).
- The guard cuts statements at semicolons inside literals and identifiers too
  (`GuardProperties.RejectedIff`).
- A last column called WHERE hides the row filter of a template (`TemplateScan.ClauseIsRecoveredIff`).
- The reported epsilon is one partition's, not the operator's (`LaplaceNoise.ReportIsExactIff`, `LaplaceNoise.OnePartitionIff`).

## Model

| member | source | states |
|---|---|---|
| `QueryCache.HitIsLatestPut` | src/query_cache.rs:137-156 | for every history, a hit is exactly the answer of the latest put for that tenant and digest that no later invalidation covers, at most TTL old |
| `QueryCache.HitIff` | src/query_cache.rs:137-156 | for every history a get hits exactly when the key is still in the list and the clock reads at most the time of its latest put plus the TTL |
| `QueryCache.ExpiredIsGone` | src/query_cache.rs:142-152 | when the clock reads later than that, the get finds nothing and the key is gone from the list |
| `QueryCache.LatestIsAPut` | src/query_cache.rs:168-238 | that reference value is some put of the history with no later put of the key, no later invalidation of the tenant and no later full clear |
| `QueryCache.BytesAccounted` | src/query_cache.rs:168-238 | in every run the byte counter is live bytes plus displaced bytes, displaced bytes stay within the budget, and live bytes do too unless exactly one entry is left |
| `QueryCache.RunKeepsInv` | src/query_cache.rs:137-238 | every operation keeps distinct keys, the capacity, the byte books and agreement with the history |
| `QueryCache.RunKeepsOrder` | src/query_cache.rs:137-202 | in every run the list is ordered by how recently each key was asked for or stored |
| `QueryCache.PutEvictsOldest` | src/query_cache.rs:168-202 | a put that drops one entry and keeps another drops the less recent one |
| `QueryCache.PutKeepsIff` | src/query_cache.rs:168-202 | exactly which entries a put leaves: those that fit the budget together with all more recent ones, the displaced bytes and the new entry, except the last of a full list when the key is new |
| `QueryCache.SizesAddUp` | src/query_cache.rs:263-275 | the size of an answer adds up over batches, columns and buffers, and a buffer counts its bytes |
| `QueryCache.PutThatFitsKeepsAll` | src/query_cache.rs:168-202 | a put that fits the budget and the capacity drops nothing |
| `QueryCache.DisplacedBytesStarve` | src/query_cache.rs:168-202 | displaced bytes never come back short of a full clear, and once they leave no room for an entry each put of it clears the cache |
| `QueryCache.RePutLeaks` | src/query_cache.rs:168-202 | after n re-puts of one entry of b bytes the counter shows (n + 1) b, of which n b are displaced |
| `QueryCache.HotAnswerNeverExpires` | src/query_cache.rs:142-152 | a key asked for once per TTL, its answer put back only when it was a hit, is still a hit after any number of rounds: each round rests on the store of the one before |
| `QueryCache.Cache.Lookup` | src/query_cache.rs:137-156 | the object's `get` is the abstract step: same list, same counter, same answer |
| `QueryCache.Cache.Store` | src/query_cache.rs:168-202 | `put` with its eviction loop is the abstract step; the subtraction never saturates |
| `QueryCache.Cache.PopTenant` | src/query_cache.rs:211-223 | the removal loop leaves exactly the other tenants' entries, in order, and gives back exactly the removed bytes |
| `QueryCache.Cache.InvalidateOne` | src/query_cache.rs:208-228 | `invalidate_tenant` is the abstract step |
| `QueryCache.Cache.InvalidateEverything` | src/query_cache.rs:233-238 | `invalidate_all` is the abstract step |
| `WorkerPool.NextKeepsInv` | src/long_running_pool_manager.rs:221-425 | every step of every part of the pool keeps the whole invariant: ledgers, flags, counters, acceptance, routes, provenance |
| `WorkerPool.ReachableInv` | src/long_running_pool_manager.rs:161-425 | every state of every run satisfies it |
| `WorkerPool.LocalLedger` | src/long_running_pool_manager.rs:367-425 | answered, held, queued and dropped tasks, in this order, stay the sequence of tasks accepted |
| `PoolProperties.ExactlyOnePlace` | src/long_running_pool_manager.rs:221-235 | in every interleaving an accepted task is in exactly one place, at the one worker it was sent to |
| `SubmitRuns.CheckDecides` | src/long_running_pool_manager.rs:221-235 | however steps interleave, a call ends refused for the shutdown exactly if the flag was up at its one check, and it waits for that check unchanged |
| `SubmitRuns.LateSubmitIsRefused` | src/long_running_pool_manager.rs:221-224 | a call made or not yet checked when the flag is up is in every run still before its check or refused, and no worker ever gets its task |
| `SubmitRuns.RefusedMeansShutdown` | src/long_running_pool_manager.rs:222-224 | in every run a call is refused for the shutdown only if the flag is up |
| `SubmitRuns.CheckReadsFlag` | src/long_running_pool_manager.rs:222-224 | the check: flag up means refused, flag down means on to routing, and nothing else changes |
| `SubmitRuns.SendDecides` | src/long_running_pool_manager.rs:230-232 | the send succeeds exactly if the receiver is open and the queue has room, and then appends the task once, at the end |
| `PoolProperties.AcceptedBeforeShutdownIsAnswered` | src/long_running_pool_manager.rs:341-425 | a task accepted before the shutdown flag is answered exactly once by the time its worker has stopped, if and only if that worker's engine came up |
| `PoolProperties.AnswersAreFirstInFirstOut` | src/long_running_pool_manager.rs:367-421 | each worker answers in the order of acceptance and its queue stays within its depth |
| `PoolProperties.AtMostOneLateStart` | src/long_running_pool_manager.rs:367-400 | after the shutdown flag is set each worker starts at most one more query, however the run goes on |
| `WorkerRuns.LateAnswersAreRefusals` | src/long_running_pool_manager.rs:367-421 | after the flag, in every run, each worker gives at most one more answer that is not a refusal, and it is the next one |
| `WorkerRuns.NoEarlyRefusal` | src/long_running_pool_manager.rs:369-374 | in every run, while the flag is down no worker answers with a refusal |
| `WorkerRuns.DrainsByItself` | src/long_running_pool_manager.rs:369-374 | a draining worker left to itself refuses its whole queue in order, drops nothing and stops, in two steps per task and three more |
| `WorkerRuns.OneQuery` | src/long_running_pool_manager.rs:377-448 | one whole undisturbed query: the cached answer, or the engine's under the caller's own correlation, or its failure, is the reply, and exactly a success is stored |
| `WorkerRuns.FailsToStart` | src/long_running_pool_manager.rs:354-361 | a worker whose engine does not come up answers nothing and drops its queue |
| `WorkerRuns.ShutdownReturnsWhen` | src/long_running_pool_manager.rs:245-266 | shutdown gives up exactly behind a whole pass that found a query in flight with the deadline passed, and returns cleanly exactly behind one that found none |
| `PoolProperties.InFlightIsExact` | src/long_running_pool_manager.rs:386-397 | the in-flight counter is 1 exactly while its worker executes, and 0 otherwise |
| `PoolProperties.ShutdownReturnsIffNoneExecuting` | src/long_running_pool_manager.rs:238-267 | a shutdown pass that nobody interrupts returns without a timeout exactly when no worker is executing, whatever is queued or unanswered |
| `PoolProperties.ShutdownCanReturnWithTaskUnanswered` | src/long_running_pool_manager.rs:238-267 | a run in which shutdown has returned while an accepted task is unanswered |
| `ShutdownRuns.CleanReturnMeansCountedOut` | src/long_running_pool_manager.rs:238-267 | in every interleaving from the flag to a clean return, each worker's counter was read while that worker was not executing, and the query it executed when the flag went up has been counted out |
| `ShutdownRuns.CleanReturnWhileExecuting` | src/long_running_pool_manager.rs:238-267 | a run in which shutdown has returned cleanly while a worker is executing |
| `PoolProperties.AffinityValidIffSomeWorker` | src/long_running_pool_manager.rs:292-320 | every affinity value is a worker index in every run exactly when the pool has a worker |
| `PoolProperties.UninterruptedRouting` | src/long_running_pool_manager.rs:292-320 | an uninterrupted call goes to the pinned worker if it is alive with room, else to the first least loaded live worker, else to worker 0, and pins it |
| `PoolProperties.ScanFindsLeastLoaded` | src/long_running_pool_manager.rs:305-311 | the scan finds the first of the least loaded live workers |
| `PoolProperties.RepliesComeFromSameTenantAndQuery` | src/long_running_pool_manager.rs:386-448 | a successful reply carries an answer the engine computed for the same tenant and query digest |
| `PoolProperties.PoolRunsTheCache` | src/long_running_pool_manager.rs:386-448 | the cache of every pool run is the cache run of the operations its steps perform |
| `PoolProperties.CachedAnswerIsLatestStored` | src/long_running_pool_manager.rs:428-448 | in every pool run a worker is served from the cache exactly if the key is listed and its latest store is at most TTL old, and then with that answer, not invalidated since |
| `PoolProperties.HitRenewsAge` | src/long_running_pool_manager.rs:388-417 | wherever a worker of the pool hits the cache, its next steps put the same answer back as the most recent entry with the time of the store as its age, computing nothing |
| `PoolProperties.OnlyStoresRefill` | src/long_running_pool_manager.rs:273-284 | while nothing of a tenant is cached, exactly a worker's store of an answer to that tenant changes this in one step |
| `PoolProperties.RefreshEmpties` | src/long_running_pool_manager.rs:273-284 | a contract refresh leaves nothing of the tenant cached |
| `RefreshRuns.ServedAfterRefreshIsNew` | src/long_running_pool_manager.rs:273-284 | if at a refresh no worker runs its engine for the tenant or holds an answer of it, every answer the tenant gets in any run after it comes from an engine run that began in that run |
| `RefreshRuns.RefreshIsCleanIff` | src/long_running_pool_manager.rs:273-284 | whatever runs follow a refresh, the tenant gets only answers of engine runs begun after it if and only if no worker was running its engine for the tenant or holding an answer of it |
| `RefreshRuns.OldAnswerIsCachedAgain` | src/long_running_pool_manager.rs:409-417 | an answer about to be stored at a refresh is stored after it, and the next lookup returns it |
| `RefreshRuns.RunningAnswerIsCached` | src/long_running_pool_manager.rs:409-440 | the answer of an engine that runs at a refresh is stored after it, whatever the answer, and the next lookup returns it |
| `RefreshRuns.OneTaskQuerying` | src/long_running_pool_manager.rs:386-440 | a run that reaches a state with an engine running |
| `RefreshRuns.StoringIsReachable` | src/long_running_pool_manager.rs:386-417 | a run that reaches a state with an answer about to be stored |
| `Predicates.PhysicalAgreesWithLogical` | src/physical/row_filter_exec.rs:254-305 | the physical translator succeeds exactly when the logical one does on the core syntax, and then with the same expression |
| `Predicates.TranslationPreservesMeaning` | src/optimizer_rules/row_filter.rs:225-351 | the translated expression has the three-valued truth of the SQL tree on every row |
| `Predicates.ThreeValuedLogic` | src/optimizer_rules/row_filter.rs:225-351 | AND, OR and NOT are minimum, maximum and opposite in the order false, unknown, true, and NULL is unknown |
| `Predicates.ListTestIsDisjunction` | src/optimizer_rules/row_filter.rs:283-296 | the engine's IN test is the three-valued disjunction of equalities that SQL defines |
| `Predicates.BothKeepTheSameRows` | src/physical/row_filter_exec.rs:203-305 | a tree both translators accept keeps the same rows in both |
| `Typing.TypedNeverFaults` | src/physical/row_filter_exec.rs:179-185 | a predicate that types over a schema runs through every kernel without a fault on any rows, whether or not the kernels skip right operands |
| `Typing.EagerIsTyping` | src/physical/row_filter_exec.rs:179-185 | kernels that look at both operands fault exactly on predicates that have no type |
| `Typing.LazyHidesFault` | src/physical/row_filter_exec.rs:179-185 | with kernels that skip, a faulting right operand goes unnoticed exactly on rows whose left operands all decide |
| `Typing.RunEvaluates` | src/physical/row_filter_exec.rs:183-197 | where the kernels do not fault, every row evaluates to a value of the type they return |
| `ContractCheck.ApprovedIff` | src/optimizer_rules/contract_check.rs:285-350 | a principal is let through exactly when purpose, classification and tier order allow it |
| `ContractCheck.DenialIff` | src/optimizer_rules/contract_check.rs:285-447 | what is recorded for a scan, and why: the first of the four checks that fails, in the code's order |
| `ContractCheck.CheckedIsGuarded` | src/optimizer_rules/contract_check.rs:461-497 | after the rule every scan sits under an approval marker, all of them survive if approved, none if denied |
| `ContractCheck.DeniedSeesNoData` | src/optimizer_rules/contract_check.rs:353-497 | for a denied principal the rewritten plan evaluates alike on every two databases |
| `ContractCheck.ApprovedTableSet.Approve` | src/optimizer_rules/contract_check.rs:69-72 | adds one name to the shared set |
| `ContractCheck.Rule.EvaluateScan` | src/optimizer_rules/contract_check.rs:353-447 | one scan: its replacement, its marker, one audit record, and the shared set, for every outcome |
| `ContractCheck.Rule.Walk` | src/optimizer_rules/contract_check.rs:466-497 | the whole walk: the rewritten plan, the changed flag, and exactly one audit record per scan in walk order |
| `ContractCheck.LogsAre` | src/optimizer_rules/contract_check.rs:466-497 | a walk leaves one record per scan in order, and exactly for a principal who is let through a marker per scan and its table in the shared set |
| `RowFilter.Walk` | src/optimizer_rules/row_filter.rs:391-413 | the walk wraps the outermost markers, reports a change exactly when there is one, and fails exactly when the predicate is refused over one of them |
| `RowFilter.Rewrite` | src/optimizer_rules/row_filter.rs:358-420 | fails exactly when the effective filter cannot be parsed or translated, or has a type other than truth over some outermost marker; else injects it |
| `RowFilter.RefusedIff` | src/optimizer_rules/row_filter.rs:391-413 | the filter is refused exactly if over some outermost marker it has a type that is not truth |
| `LogicalPlan.ApprovalIff` | src/optimizer_rules/dp_noise.rs:525-534 | a plan counts as approved exactly if it holds an approval marker |
| `RowFilter.TestsAreNotRefused` | src/optimizer_rules/row_filter.rs:399-402 | a predicate that is a comparison or a test is never refused, over whatever plan |
| `RowFilter.GovernMeaning` | src/optimizer_rules/row_filter.rs:358-420 | one pass of both rules over any well-marked plan means the same plan over the visible rows |
| `RowFilter.GovernedMeaning` | src/optimizer_rules/row_filter.rs:358-420 | any number of passes of both rules evaluate to the original plan over the database cut to the rows whose predicate is TRUE, or to no rows when denied |
| `RowFilter.MarkerFreeIsWellMarked` | src/optimizer_rules/contract_check.rs:353-497 | every plan as the planner makes it, without markers, is covered |
| `RowFilter.GovernKeepsWellMarked` | src/optimizer_rules/contract_check.rs:353-497 | a pass leaves markers only over scans, empty relations and other markers |
| `RowFilter.VisibleIsSqlTruth` | src/optimizer_rules/row_filter.rs:130-150 | a row is visible exactly when the SQL text that applies is TRUE of it: the principal's own entry if there is one, even an empty one, else the global filter; a blank text shows all |
| `RowFilter.FilterFailsIff` | src/optimizer_rules/row_filter.rs:358-420 | the rule fails for its filter exactly when the text that applies cannot be parsed or translated, and injects nothing exactly when it is absent or empty |
| `PrivacyBudget.Tracker.Consume` | src/optimizer_rules/dp_noise.rs:149-171 | a disabled tracker does nothing; an enabled one debits exactly when epsilon exceeds what is left by no more than the tolerance, and otherwise refuses with what is left and changes nothing |
| `PrivacyBudget.BudgetIsConserved` | src/optimizer_rules/dp_noise.rs:149-186 | for every sequence of calls remaining is seed minus grants, and what was granted is at most seed plus tolerance |
| `PrivacyBudget.GrantedIff` | src/optimizer_rules/dp_noise.rs:149-171 | for every history a call is granted exactly if all grants to its key and its own epsilon stay within the seed and the tolerance |
| `PrivacyBudget.KeysAreIndependent` | src/optimizer_rules/dp_noise.rs:149-171 | leaving out all calls of other keys changes no budget, no grant and no verdict of this key |
| `DpNoise.Rule.CollectColumnNames` | src/optimizer_rules/dp_noise.rs:366-382 | appends the columns under the five expression kinds it enters, left to right, with repetitions, and nothing under the others |
| `DpNoise.Rule.ChargeColumns` | src/optimizer_rules/dp_noise.rs:437-468 | the loop over the columns debits, logs and stops as the charging function says |
| `DpNoise.Rule.WrapAll` | src/optimizer_rules/dp_noise.rs:474-501 | the growing wrapper chain is one noise node per charged column, the first innermost |
| `DpNoise.Rule.Rewrite` | src/optimizer_rules/dp_noise.rs:389-516 | the rewrite with its pending error is the walk function, budgets and audit log included |
| `DpNoise.ChargeAllDebits` | src/optimizer_rules/dp_noise.rs:437-468 | without a refusal exactly the tagged columns are charged, each once per occurrence |
| `DpNoise.DebitsMatchNoise` | src/optimizer_rules/dp_noise.rs:389-505 | after every successful rewrite under enforcement each key's budget fell by exactly its epsilon times the noise nodes added for its column |
| `DpNoise.RewriteSucceedsIff` | src/optimizer_rules/dp_noise.rs:389-516 | a plan is rewritten if and only if nothing is enforced or every tagged column's remaining budget covers all charges of the outermost aggregates together, within the tolerance |
| `DpNoise.RefusalIsRecorded` | src/optimizer_rules/dp_noise.rs:437-468 | a rewrite that fails names a column whose budget is too small for one more charge and leaves one audit record; one that succeeds leaves none |
| `DpNoise.RewriteOnlyAddsNoise` | src/optimizer_rules/dp_noise.rs:389-505 | erasing the noise nodes gives back the input plan, on success and on failure |
| `DpNoise.ProtectsOutermostAggregates` | src/optimizer_rules/dp_noise.rs:412-534 | a successful rewrite leaves no approved aggregate in which the collector finds a tagged column outside every noise node, and wraps none below another wrapped one |
| `DpNoise.AllChargedIff` | src/optimizer_rules/dp_noise.rs:366-505 | every tagged column that an approved aggregate reads, wherever in it, gets its noise node if and only if no approved aggregate with a tagged column lies below another and none reads a tagged column outside the arguments and expression kinds the collector enters; never more |
| `DpNoise.ReadIsCollectedAndSkipped` | src/optimizer_rules/dp_noise.rs:366-382 | the columns an expression reads are, with multiplicity, those the collector finds and those it skips |
| `DpNoise.WrappedColumnIsMissed` | src/optimizer_rules/dp_noise.rs:380-381 | plans on which the argument of a sum is wrapped in a skipped kind: the plan stays as it is and nothing is charged |
| `DpNoise.InnerAggregateIsMissed` | src/optimizer_rules/dp_noise.rs:497-501 | plans on which the inner aggregate's column is neither charged nor given noise |
| `LaplaceNoise.Stream.ApplyToField` | src/physical/laplace_noise_exec.rs:343-364 | one field: charge, then noise, then count, with both faults |
| `LaplaceNoise.Stream.ApplyDp` | src/physical/laplace_noise_exec.rs:329-373 | the loop over the fields stops at the first fault and keeps the charges made before it |
| `LaplaceNoise.Stream.Next` | src/physical/laplace_noise_exec.rs:431-483 | the running total is published after a success with a positive total, and only then |
| `LaplaceNoise.SuccessCharges` | src/physical/laplace_noise_exec.rs:329-373 | a batch that goes through charges every tagged field once and counts every charge |
| `LaplaceNoise.NeverOvercounts` | src/physical/laplace_noise_exec.rs:329-373 | however a batch ends, the total grows by no more than what was charged |
| `LaplaceNoise.ChargesAreDebits` | src/physical/laplace_noise_exec.rs:329-373 | under enforcement each budget falls by exactly its charges, on success and on failure |
| `LaplaceNoise.ReportsKTimesTheSum` | src/physical/laplace_noise_exec.rs:431-483 | after k successful batches on one partition every tagged field was charged k times and the report is the sum of their epsilons times k |
| `LaplaceNoise.ReportNeverExceedsCharges` | src/physical/laplace_noise_exec.rs:431-483 | with any failures and any partitions, no accumulator and no report exceeds the charges made, and budgets fall by the charges |
| `LaplaceNoise.ChargesAreTotalsAndLosses` | src/physical/laplace_noise_exec.rs:329-373 | in every run the epsilon charged is the sum of the partition totals plus the charges lost to type faults |
| `LaplaceNoise.ReportIsExactIff` | src/physical/laplace_noise_exec.rs:431-483 | the report equals the epsilon charged if and only if nothing was lost and all of it lies in the last publishing partition's total as published |
| `LaplaceNoise.OnePartitionIff` | src/physical/laplace_noise_exec.rs:431-483 | when every batch goes through and has a tagged field, the report equals the epsilon charged if and only if all batches came on one partition |
| `LaplaceNoise.TwoPartitionsUnderReport` | src/physical/laplace_noise_exec.rs:431-483 | an instance: two partitions of one batch each report half of what was charged |
| `LaplaceNoise.NoiseKeepsShape` | src/physical/laplace_noise_exec.rs:274-373 | noise keeps schema, row count, null positions and every untagged column |
| `LaplaceNoise.NoiseIsAdded` | src/physical/laplace_noise_exec.rs:104-112 | every value that a successful batch releases for a tagged column is the true value plus the difference of two exponential draws, at the scale whose product with epsilon is the sensitivity; integers are rounded to the nearest within 64 bits |
| `LaplaceNoise.BatchSucceedsIff` | src/physical/laplace_noise_exec.rs:329-373 | a batch goes through if and only if it has a column, its tagged columns hold 64-bit floats or integers, and their budgets, if enforced, cover all charges of the batch |
| `LaplaceNoise.FaultIsTrue` | src/physical/laplace_noise_exec.rs:329-373 | a batch that does not go through names its reason truly: a budget too small for the charge, a column of another type, or no column at all |
| `Masking.MaskTexts` | src/physical/masking_exec.rs:382-418 | the string loops mask every non-null text and keep nulls |
| `Masking.FillConstant` | src/physical/masking_exec.rs:419-488 | the numeric and boolean loops write one constant and keep nulls |
| `Masking.ApplyMaskToColumn` | src/physical/masking_exec.rs:363-554 | the arms together mask value by value, or fail on an unsupported type |
| `Masking.ApplyMaskingToBatch` | src/physical/masking_exec.rs:582-609 | the loop over the fields masks every column by its policy under the published schema |
| `Masking.MaskingMatchesSchema` | src/physical/masking_exec.rs:305-350 | masking succeeds exactly when every masked column's type supports its policy; then types equal the published schema, and rows and null positions are kept |
| `Masking.UnknownPolicyFails` | src/physical/masking_exec.rs:239-280 | the policy map fails to parse exactly when some policy string is unknown, and only "noop" leaves a column unmasked |
| `MaskedOutput.SupportedIff` | src/physical/masking_exec.rs:363-554 | which policy texts a column type allows |
| `MaskedOutput.ScanWrites` | src/physical/masking_exec.rs:239-280 | value by value, the output of every scan holds what the policy text of the column says: ***, the empty string, zero, false, the digest, or *** and the last four characters |
| `MaskedOutput.ScanRevealsIff` | src/contract_table_provider.rs:116-163 | two tables give identical output if and only if as many rows stand behind it and, in every column asked for, the policy texts show the same of their values: all, the last four characters, the digest, or only whether there is a value |
| `MaskedOutput.WrittenAlikeIff` | src/physical/masking_exec.rs:556-580 | the same for two values |
| `MaskedOutput.BehindIsSqlTruth` | src/physical/row_filter_exec.rs:167-200 | the rows behind the output are those of which the SQL text of the filter is TRUE, and all rows if there is no text |
| `GovernedScan.ScanIsGoverned` | src/contract_table_provider.rs:116-163 | for every table and every split into batches the scan yields the first n rows of the projection of the masked rows of the filtered full table, in order |
| `GovernedScan.ScanSucceedsIff` | src/contract_table_provider.rs:116-163 | a scan succeeds exactly when the contract has an id, its policies parse and, if there is a batch, the filter compiles, every masked type supports its policy, and the filter runs on every batch the limit asks for |
| `GovernedScan.ScanSucceedsForSchemaIff` | src/contract_table_provider.rs:116-163 | if the filter has a type, and in any case if the kernels look at both operands, a scan fails for its contract or schema only, never for the data |
| `GovernedScan.ScanFaultIff` | src/contract_table_provider.rs:116-163 | a scan is refused for a missing contract exactly if its id is empty, and for its masks exactly if some policy text is none of the six |
| `GovernedScan.CompilesIff` | src/physical/row_filter_exec.rs:174-181 | a filter compiles exactly if it is absent or empty, or its text parses and translates, no two columns have one name, and every column it names is there |
| `GovernedScan.LimitOkIff` | src/contract_table_provider.rs:152-160 | a batch that fails fails the limited stream exactly if it is asked for; otherwise the output is as if no batch had failed |
| `GovernedScan.RunningFilterIsTruth` | src/physical/row_filter_exec.rs:181-197 | on every row of every batch on which it runs, a filter is true, false or unknown |
| `GovernedScan.BareColumnFilter` | src/physical/row_filter_exec.rs:181-197 | a filter that is a bare column compiles and runs exactly if that is a boolean column |
| `GovernedScan.SplitIsInvisible` | src/physical/row_filter_exec.rs:359-405 | two splits of the same rows give the same output |
| `GovernedScan.LimitTakesPrefix` | src/contract_table_provider.rs:152-160 | the limit on top of the stream yields exactly its first rows |
| `GovernedScan.FilterRowsOf` | src/physical/row_filter_exec.rs:167-200 | filtering a batch keeps exactly the rows whose predicate is TRUE, in order |
| `GovernedScan.PassHasProviderSchema` | src/contract_table_provider.rs:59-75 | every batch carries the schema the provider published, projected |
| `GovernedScan.GovernedOutputHidesMaskedData` | src/contract_table_provider.rs:116-163 | two tables that agree on unmasked columns, on filter verdicts and on what each policy shows give identical output |
| `GovernedScan.GovernedHides` | src/physical/masking_exec.rs:582-609 | the same for the governed rows themselves |
| `GovernedScan.MaskHides` | src/physical/masking_exec.rs:363-580 | a masked value depends only on nullness, the digest, or the last four characters, as its policy says |
| `BundleEncoding.DecodePreimage` | src/platform/bundle.rs:158-213 | the hashed bytes decode to the manifest and the four sorted lists, for all lengths below 2^32 |
| `BundleEncoding.PreimagesEqualIff` | src/platform/bundle.rs:165-213 | two bundles have equal preimages exactly when manifests are equal and each list has, per key, the same records in the same order |
| `BundleEncoding.ReorderingKeepsPreimage` | src/platform/bundle.rs:165-213 | with distinct keys every reordering of the lists leaves the preimage unchanged |
| `BundleEncoding.RepeatedNameFixesOrder` | src/platform/bundle.rs:175-181 | with a repeated name, swapping the two records changes the preimage |
| `BundleEncoding.LongFieldsCollide` | src/platform/bundle.rs:158-161 | the 2^32 bound is needed: two different bundles beyond it have one preimage |
| `BundleEncoding.SortIsTheOnlyStableSort` | src/platform/bundle.rs:175-204 | a list is the sorted list exactly when it is ordered by key and keeps the order within each key |
| `BundleEncoding.SortsAlikeIff` | src/platform/bundle.rs:175-204 | two lists sort alike exactly when they agree key by key |
| `BundleEncoding.FieldRoundTrip` | src/platform/bundle.rs:158-161 | a length-prefixed field is read back, whatever follows it |
| `BundleEncoding.HashField` | src/platform/bundle.rs:158-161 | feeds the four-byte length and the bytes |
| `BundleEncoding.HashList` | src/platform/bundle.rs:175-181 | one section feeds the count and every record in sorted order |
| `BundleEncoding.CanonicalDigest` | src/platform/bundle.rs:165-213 | the digest is the hash of the preimage |
| `BundleEncoding.CanonicalSigningPayload` | src/platform/bundle.rs:216-229 | the payload is the hash of the tagged, length-prefixed fields |
| `BundleEncoding.SigningPreimageInjective` | src/platform/bundle.rs:216-229 | the signed bytes determine both hashes, the key generation and the time |
| `BundleEncoding.Verify` | src/platform/bundle.rs:122-143 | a file passes if and only if its recorded hash is the hash of its content and its signature decodes, is DER, and is accepted for the signed bytes |
| `BundleEncoding.VerdictIff` | src/platform/bundle.rs:122-143 | that, and the exact condition of each of the five errors |
| `BundleEncoding.TagIsSpelled` | src/platform/bundle.rs:216-229 | the domain tag is the text t03:bundle-signing-payload:v1 |
| `BundleEncoding.SamePayloadSameContent` | src/platform/bundle.rs:122-143 | two verified files with one payload have the same content and metadata, or one of two named pairs collides |
| `BundleEncoding.SubstitutionIsRefused` | src/platform/bundle.rs:122-143 | other content under a verified file's signature is a digest mismatch, unless it is the same up to key order or collides |
| `TemplateScan.MasksFromSql` | src/platform/bundle.rs:303-326 | the loop over the four functions is the scanning function |
| `TemplateScan.CollectCalls` | src/platform/bundle.rs:311-323 | the loop over the moving slice reads every complete call |
| `TemplateScan.MasksAreRecovered` | src/platform/bundle.rs:303-326 | scanning a rendered stencil recovers exactly its mask map, for every clause in which no mask function is called |
| `TemplateScan.OneCallIsRead` | src/platform/bundle.rs:303-310 | each of the four functions by its name: the action that one call of it gives its column |
| `TemplateScan.NoParenthesesNoCalls` | src/platform/bundle.rs:303-326 | every clause without an opening parenthesis is such a clause |
| `TemplateScan.EachColumnIsRecovered` | src/platform/bundle.rs:303-326 | a column is masked exactly when some item masks it, with its function's action if all that mask it agree |
| `TemplateScan.ClauseIsRecoveredIff` | src/platform/bundle.rs:329-339 | the clause is recovered exactly when the last selected column is not called WHERE in some spelling |
| `TemplateScan.NoFilterIff` | src/platform/bundle.rs:333-338 | a clause means no filter exactly when it is blank or spells 1=1, however spaced; any other is kept but for the blanks around it |
| `DdlGuard.StripComments` | src/lib.rs:272-337 | the index loop is the recursive specification of stripping |
| `DdlGuard.SkipBlock` | src/lib.rs:280-297 | the depth loop ends where the nested block comment closes, or at the end of the text |
| `DdlGuard.SkipLine` | src/lib.rs:299-308 | the line loop stops at the newline, which stays |
| `DdlGuard.CopyLiteral` | src/lib.rs:311-328 | the literal loop copies up to and including the closing quote and a doubled one |
| `DdlGuard.StripIdempotent` | src/lib.rs:272-337 | stripping twice is stripping once, on every text |
| `DdlGuard.RejectUnsafeDdl` | src/lib.rs:357-383 | rejects with the first statement's disallowed verb |
| `SqlLexing.InStepIff` | src/lib.rs:311-328 | for every literal, doubled quotes included, the scanner copies it and goes on behind it as the lexer does, whatever follows, if and only if the literal keeps it in step: a condition on its parts between doubled quotes |
| `SqlLexing.OpenIsCopied` | src/lib.rs:311-328 | an unterminated literal is copied unchanged if and only if no comment mark stands in a part scanned outside string mode |
| `SqlLexing.StepExamples` | src/lib.rs:319-323 | a literal without doubled quotes is in step, one with a single doubled quote is not, one that ends in three quotes after it is again |
| `SqlLexing.PassesIff` | src/lib.rs:311-333 | for every token the scanner does not know, such as a delimited identifier, it copies the token and goes on behind it, whatever follows, if and only if the pieces between its single quotes pass |
| `SqlLexing.PassExamples` | src/lib.rs:311-333 | such a token without single quotes passes exactly if it holds no comment mark; with one single quote it never does |
| `SqlLexing.StripIsLexImage` | src/lib.rs:272-337 | in every dialect, on every text whose tokens keep the scanner in step, stripping is the image of the SQL lexer with nested comments, line comments, literals and the dialect's own tokens |
| `SqlLexing.EveryTextLexes` | src/lib.rs:272-337 | every text has a lexing, with or without identifiers delimited by double quotes or backticks, and on every text without adjacent quotes and delimiters the scanner agrees with it |
| `SqlLexing.MarkBehindDoubledQuote` | src/lib.rs:319-323 | in every dialect, on every literal with a comment mark behind its doubled quote, scanner and lexer differ |
| `SqlLexing.DoubledQuoteEndsLiteral` | src/lib.rs:319-323 | a text of that kind, with its lexing |
| `SqlLexing.ClosedEndsOutside` | src/lib.rs:272-337 | a text that SQL reads as closed, delimited identifiers included, and whose tokens keep the scanner in step, ends outside literals and comments for the scanner too |
| `GuardProperties.JoinedVerdict` | src/lib.rs:357-383 | in every dialect, the verdict on two texts joined by a semicolon is the first's or else the second's, when SQL reads the first as closed and its tokens keep the scanner in step |
| `GuardProperties.JoinedVerdictIff` | src/lib.rs:357-383 | behind an accepted text every second text is judged as if alone if and only if the scan of the first ends outside literals and comments |
| `GuardProperties.DoubledQuoteHidesStatement` | src/lib.rs:319-323 | closed literals with one doubled quote, all those without semicolons and without a mark behind it: behind each a statement is accepted that is rejected alone |
| `GuardProperties.QuoteInIdentifierHidesStatement` | src/lib.rs:311-333 | the same behind every closed delimited identifier with one single quote, without semicolons and without a mark before the quote |
| `GuardProperties.MarkInIdentifierHidesStatement` | src/lib.rs:299-333 | behind a closed delimited identifier that begins with two hyphens every statement on its line is accepted |
| `GuardProperties.LiteralExample` | src/lib.rs:319-323 | an instance: 'a''b' and a hidden COPY |
| `GuardProperties.QuoteExample` | src/lib.rs:311-333 | an instance: "it's" and a hidden COPY |
| `GuardProperties.MarkExample` | src/lib.rs:299-333 | an instance: "--" and COPY x behind it |
| `GuardProperties.BareVerbIsCaught` | src/lib.rs:357-383 | COPY x alone is rejected |
| `GuardProperties.TokenHidesStatement` | src/lib.rs:272-383 | any closed token at whose end the scanner is still inside hides a statement that is rejected alone |
| `GuardProperties.CommentPrefixKeepsVerdict` | src/lib.rs:272-383 | prefixing any complete comment or blank changes no verdict |
| `GuardProperties.VerbIsCaughtIff` | src/lib.rs:361-380 | behind any blanks and comments a verb is its statement's first token exactly if the text ends behind it or a blank, a semicolon or a comment follows |
| `GuardProperties.FirstVerbIsCaught` | src/lib.rs:357-383 | then the text is rejected for that verb, in any letter case |
| `GuardProperties.FiveVerbs` | src/lib.rs:357-383 | INSTALL, LOAD, ATTACH, COPY and EXTENSION are caught at the end of the text and in front of every white-space character, and nothing else is ever named |
| `Texts.BlanksAre` | src/lib.rs:366-368 | the white-space characters, by code point |
| `Texts.CapitalsAre` | src/lib.rs:366-370 | the 26 small letters become their capitals and nothing else changes |
| `GuardProperties.VerbIsCaught` | src/lib.rs:357-383 | the same, in every dialect, behind earlier statements that SQL reads as closed and whose tokens keep the scanner in step, unless one of them is rejected first |
| `GuardProperties.RejectedIff` | src/lib.rs:357-383 | in every dialect, on texts whose literals and delimited identifiers keep the scanner in step, the guard rejects exactly when an SQL statement starts with a verb or a verb follows a semicolon inside such a token |
| `GuardProperties.TokenIsRejected` | src/lib.rs:361-366 | texts rejected wrongly: every literal or delimited identifier in step in which a verb and a blank follow the first semicolon |
| `GuardProperties.LiteralIsRejected` | src/lib.rs:361-366 | a text rejected wrongly: one literal in which a verb follows a semicolon |

## Left out

- Expressions: LIKE with ESCAPE, subqueries, quoted and qualified identifiers; columns are unqualified lower-case names. The parser never yields an empty IN list, and the model asks for that.
- Logical plans: scans are bare (no pushed projection or fetch); only the node kinds the rules tell apart are modelled. Plans inside subquery expressions are not entered by the walk of the code and not part of these plans, so `GovernedMeaning` says nothing of them.
- Types: which operand types an operator takes, and whether AND and OR skip a right operand that cannot matter, are parameters; DataFusion itself is not part of this model.
- SQL tokens: a dialect's further tokens are a parameter of the theorems, and the one instance proved to lex every text is the one with delimited identifiers. A parameter's token begins with a special character and does not end in a quote or in half a comment mark, so dollar-quoted strings fit it and strings with backslash escapes do not.
- AllChargedIff: does not model renaming projections. A tagged column that a projection renames below an aggregate is read there under its new name, which the noise rule does not know, so it too gets neither charge nor noise.
- CleanReturnMeansCountedOut: assumes that a read of `in_flight` sees the latest write. The pool's steps are sequentially consistent, while the code reads and writes the counter with relaxed ordering.
- Worker failure: a panic inside the engine, which also drops a worker's receiver; `AcceptedBeforeShutdownIsAnswered` speaks of workers that stop by leaving their loop or fail to start.
- Routing: the pinned worker's flag and capacity are read in one step with the affinity map, although the code reads them one after the other under the lock.
- Governed scans: one ordered stream of batches; several partitions have no common order to state a limit over. The Arrow cast to string is taken to keep nulls.
- Governed scans with noise: the noise operator is modelled by itself (`LaplaceNoise`), not composed into `GovernedScan`.
- Byte counters: `usize` overflow is not modelled; `BytesAccounted` bounds the counter by the budget plus one entry.
- Noise nodes: the logical node carries its epsilon; the code prints the scale 1/epsilon into it.
- Floating point: epsilons and noise are `real`; rounding of sums is not modelled. Integer noise rounds and saturates as the code does.
- Comment stripping: the model works on characters, so it is the code's behaviour on ASCII texts; the code re-reads the bytes of other texts one by one.
- Shutdown: several overlapping shutdown calls are represented by the latest one; the deadline is a choice of the scheduler.
- Cryptography: SHA-256, hexadecimal, DER and ECDSA are parameters; nothing is claimed about them.
- Parsing: JSON bundles and SQL texts enter as what they parse to, with failure as a case.
- Audit records: event ids, times and detail texts; the kind, table, tenant and contract are modelled.
- The mapping from a verified bundle to a policy for a caller, and the purpose gate read out of Rego: short branches around the scanners modelled here.
- The logical masking rule, attestation, result formatting, the Python binding, table adapters, socket and HTTP clients, session plumbing: wiring around the parts modelled here, with no state of its own to reason about.
- Heartbeats and supervision, which are described in comments and not implemented.
