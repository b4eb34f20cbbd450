# cairnobs, verified

A Dafny model of the parts of cairnobs where correctness depends on more than
one function: what a whole run of the alerting pipeline, of the log consumers,
of the agent or of the account handlers keeps, and what survives the way from a
log line or a query plan to text and back.

`dafny verify dfyconfig.toml` checks everything.

| area | files | what is proved |
|---|---|---|
| alerting | `Transitions`, `RuleStore`, `Scheduler`, `Evaluator`, `AlertSystem`, `Delivery`, `Pipeline` | in every interleaving of claims, worker-pool steps, failed commits, restarts, rules created and deleted, and deliveries, a rule's stored state is a function of its committed evaluations alone and its outbox reads (firing+ resolved)*; claims are spaced and bypass is bounded; every notification is posted at most five times, and once more per lost status write, and closes sent or failed unless its rule is deleted, no due delivery is passed over for ever, and exactly which backoffs are right |
| agent parser | `Lexical`, `Rfc5424` | the parser undoes a printer on every well-formed message, its results are exactly those messages, and the scanner loops compute it |
| query back end | `SqlTokens`, `SqlSyntax`, `SqlNames`, `SqlBuilder`, `PlanMeaning`, `Executor` | the WHERE text of any plan reads back as intended, and the whole text exactly when the plan's names survive quoting, and exactly which names do; the full-text prefilter answers what a scan of the whole table answers, and exactly when it does not |
| search | `SearchIndex`, `SearchLog`, `SearchConsumer` | all covered runs converge to one index whatever their crashes and interleavings, exactly what a crash can lose, and tenant routing in every reachable state; every record that should be searchable is, and nothing else; a consumer's batch is a run of the machine |
| ingest | `Ingest` | conservation of messages, and exactly which runs commit past an unwritten record |
| accounts | `Authz`, `LocalAuth`, `LoginLimiter` | there is always an owner, sessions are never stale, privilege needs an owner; the pruned limiter decides as the unpruned one |
| agent | `Agent` | hot reload loses no record, leaks no task, and settings are a last-set-wins fold |
| retention | `Retention` | what a non-owner deletes is older than its floor; deduplication, partition and grouping laws |

Modelling choices. Instants and durations are integer nanoseconds; Go's int64
products wrap, `Sub` saturates, and TIMESTAMPTZ columns keep whole microseconds
(`GoTime`). The databases, the
message broker, Tantivy and the network are tables, logs and arbitrary answers:
every outcome a call can have is a parameter of the step that makes it. Objects
whose methods change fields are classes; each of their methods is tied to a
function of the old state, and the theorems over runs are about those functions.
History that the program does not store (committed evaluations, tried batches,
accepted records) is kept in extra fields next to the state it explains.

Where the code and its comments disagree the model follows the code:

- `tail N` is described as taking the chronologically last N rows; the emitted
  `ORDER BY timestamp ASC LIMIT N` takes the first N (`Executor.TailKeepsOldest`).
- A failed batch write is logged as "will redeliver"; the batch is dropped and a
  later commit in the same partition passes it (`Ingest.DroppedBatchIsPassed`,
  `Ingest.FlushSafeExactly`).
- Reprocessing after an unclean stop is described as harmless; it is when the
  index commit covers the persisted offset, and the two are saved independently
  (`SearchLog.OffsetAheadLoses`, `SearchLog.RecoveryExactly`).
- The comment on deleting users says that an account may delete itself; the
  handler refuses (`LocalAuth.Handler.Delete`).

## Model

| member | source | states |
|---|---|---|
| Transitions.ReplayIsMeaning | alerting/internal/evaluator/transitions.go:49-121 | for every policy and every history of (time, condition) pairs, folding the transition function through the stored row gives the columns a direct reading of the history gives: state, pending-since, fired, last notified, in whole microseconds |
| Transitions.StateOfChronologicalHistory | alerting/internal/evaluator/transitions.go:56-109 | with nondecreasing times: ok iff the trailing run of trues is empty, firing iff last time minus the start of that run is at least the for-duration, both cut to microseconds |
| Transitions.DecisionMeaning | alerting/internal/evaluator/transitions.go:56-121 | exactly when an evaluation decides to notify, and with which event, in terms of the history |
| Transitions.NotesFollowRow | alerting/internal/evaluator/transitions.go:56-121 | an episode is open iff the last note is a firing, the row remembers its time, and consecutive firings of an episode are at least the renotify interval apart, counted from the stored time |
| Transitions.NotesAreEpisodes | alerting/internal/evaluator/transitions.go:56-121 | the notify decisions of every history form a prefix of (firing+ resolved)* |
| Transitions.OneFiringPerEpisode | alerting/internal/evaluator/transitions.go:63-97 | without a renotify interval firings and resolutions alternate, starting with a firing |
| RuleStore.Store.Create | alerting/internal/rulestore/store.go:112-147 | the rule and its initial alert_state row appear together |
| RuleStore.Store.ClaimDueRules | alerting/internal/rulestore/store.go:222-258 | picks the longest-due enabled unlocked rules up to the limit, returns their rows as they were before, and moves exactly their next_eval_at |
| RuleStore.Store.ApplyTransition | alerting/internal/rulestore/store.go:276-305 | the state change, its instants cut to microseconds, and its outbox row commit together or not at all, and neither happens for a rule that is gone |
| RuleStore.Store.RecordError | alerting/internal/rulestore/store.go:350-357 | an error changes only the error columns |
| RuleStore.PickStep | alerting/internal/rulestore/store.go:222-258 | taking the earliest of the remaining due rules keeps the picked set no later than any rule left out |
| Scheduler.NotClaimedEarly | alerting/internal/rulestore/store.go:222-258 | nobody claims an existing rule before its next_eval_at |
| Scheduler.OnlyDueRulesClaimed | alerting/internal/rulestore/store.go:222-258 | over any run, a claimed rule exists, is enabled, was due and free; the claim is stamped, puts it off by eval_interval_seconds and leaves its state |
| Scheduler.ClaimsAreSpaced | alerting/internal/rulestore/store.go:215-258 | any two claims of one rule, by any schedulers, are at least eval_interval_seconds apart |
| Scheduler.BoundedBypass | alerting/internal/rulestore/store.go:222-258 | a due rule with k rules at or before it is claimed within floor(k / B) + 1 claims of size B |
| Scheduler.NewRuleIsClaimed | alerting/internal/rulestore/store.go:112-147 | a rule is due from its creation on, so the same bound holds from there |
| Evaluator.EvaluateOne | alerting/internal/evaluator/evaluator.go:78-126 | query error, condition error, failed commit and committed evaluation each leave exactly the tables the pipeline model says |
| Evaluator.MinutesExactly | alerting/internal/evaluator/evaluator.go:95-107 | the for/renotify minutes convert exactly iff at most 153722867 either way |
| Evaluator.DecidedExactly | alerting/internal/evaluator/condition.go:19-46 | a threshold rule decides iff its query gave exactly one row whose first cell is a number and it has a comparator and a threshold; no rows is a value only for absence rules |
| Evaluator.ThresholdVerdicts | alerting/internal/evaluator/condition.go:48-67 | of the verdict alone: raising the value never ends a greater verdict nor lowering it a less one, exactly one of greater, equal and less holds and equal means equal, the other comparators are the negations, and the value reported is the one compared |
| Evaluator.ThresholdEvaluation | alerting/internal/evaluator/evaluator.go:78-126 | a committed evaluation of a threshold rule stores the value, clears the error, and leaves the state ok iff the value is on the near side of the threshold, for each comparator |
| Evaluator.ErrorEvaluation | alerting/internal/rulestore/store.go:350-357 | an evaluation that cannot tell keeps state, value and schedule, records why, and inserts nothing |
| Evaluator.ErrorsSinceDecided | alerting/internal/rulestore/store.go:276-357 | over any sequence of evaluations, consecutive_errors counts a rule's errors since its last decided evaluation and the status column agrees; neither path moves next_eval_at |
| AlertSystem.HistoryRefinement | alerting/internal/evaluator/evaluator.go:54-126 | in every reachable state of the whole pipeline a rule's columns are the meaning of its committed evaluations and its outbox rows exactly the committed decisions whose payload was built; errors and failed commits leave no trace |
| AlertSystem.StoredStateOfRun | alerting/internal/evaluator/evaluator.go:54-126 | for every run in which a rule's committed evaluations come in time order, the stored state is ok iff the trailing run of trues is empty and firing iff it spans the rule's for_minutes |
| AlertSystem.OutboxIsSpaced | alerting/internal/evaluator/evaluator.go:134-164 | for a rule whose committed evaluations all had their payload built, the outbox rows are its decisions in order, and firings within an episode were decided at least the renotify interval apart |
| AlertSystem.OutboxCarriesDecisions | alerting/internal/evaluator/evaluator.go:134-164 | in every reachable state each outbox row goes to the rule's own target with the event and payload of one committed evaluation that decided it |
| AlertSystem.DeliveryLogReadsAsEpisodes | alerting/internal/evaluator/evaluator.go:134-164 | end to end, if every payload renders, a rule's delivery_log rows read (firing+ resolved)*, cut off anywhere |
| AlertSystem.MatureFires | alerting/internal/evaluator/evaluator.go:78-126 | evaluating a mature pending snapshot appends one firing row, whatever the table says by then |
| AlertSystem.OverlapFiresTwice | alerting/internal/evaluator/evaluator.go:78-126 | two overlapping evaluations of one snapshot announce firing twice: why a rule must not be evaluated concurrently |
| AlertSystem.PoolIsBounded | alerting/internal/evaluator/evaluator.go:54-76 | at most poolSize evaluations in flight; a rule never twice at a time or again within a tick |
| AlertSystem.TickEvaluatesEachOnce | alerting/internal/evaluator/evaluator.go:54-76 | a tick can return only after every claimed rule was evaluated exactly once |
| AlertSystem.PoolProgress | alerting/internal/evaluator/evaluator.go:54-76 | each spawn or finish brings the tick one step closer to returning and nothing else sets it back |
| AlertSystem.PoolNeverStuck | alerting/internal/evaluator/evaluator.go:54-76 | a ticking pool can always move iff it has at least one slot |
| Delivery.BackoffExactTo33 | alerting/internal/delivery/webhook.go:209-233 | the int64 product is exact for retries 0 to 33 |
| Delivery.BackoffExactly | alerting/internal/delivery/webhook.go:209-233 | retry k waits min(2^k, 3600) seconds iff k is at most 33 or one of the later retries whose wrapped product happens to exceed an hour |
| Delivery.BackoffNondecreasing | alerting/internal/delivery/webhook.go:209-233 | waits do not shrink while they are exact |
| Delivery.DeliveryTerminates | alerting/internal/delivery/webhook.go:124-233 | over any run of one worker, with rules deleted at any time, writes that fail and restarts, attempts on a row are paid for by its budget up to those whose status write was lost; a closed row is never tried or changed |
| Delivery.DeliveryOutcome | alerting/internal/delivery/webhook.go:158-233 | an open row that is not deleted ends sent iff an attempt answered with a code from 200 to 299 was written down, failed iff its whole budget was written without one; it counts the written attempts and holds the code of the last response |
| Delivery.InsertedRowEnds | alerting/internal/delivery/webhook.go:124-233 | a row just inserted is posted at most max(1, max_attempts) times and once more per lost status write; while it is there it is sent iff one answered with a code from 200 to 299 was written down, failed iff all were written without one, and holds the code of the last response |
| Delivery.RetryWaits | alerting/internal/delivery/webhook.go:124-233 | a failed row is not claimed again before its documented wait is over |
| Delivery.RetryIsDue | alerting/internal/delivery/webhook.go:209-233 | after failed attempt k with attempts left, the row is due again exactly min(2^k, 3600) seconds later, for k up to 33 |
| Delivery.ClaimStamps | alerting/internal/delivery/webhook.go:124-156 | a claim stamps the rows it takes and changes nothing else |
| Delivery.FailureIsExplained | alerting/internal/delivery/webhook.go:209-233 | a failed attempt that is written down records its message, a successful one leaves the last |
| Delivery.ClaimsSpendSlack | alerting/internal/delivery/webhook.go:124-156 | every claim that passes over a due row uses up 50 of the attempts left to the rows created at or before it |
| Delivery.DueRowIsClaimed | alerting/internal/delivery/webhook.go:124-156 | a due row cannot be passed over by floor(W / 50) + 1 claims, W being the attempts left to the rows created at or before it |
| Delivery.TickIsARun | alerting/internal/delivery/webhook.go:124-156 | one tick of the worker is a run of the step machine from and to an empty queue |
| Pipeline.RunIsSeen | alerting/internal/delivery/webhook.go:124-156 | every run of the whole alerting service is, on delivery_log, a run of the delivery worker's machine |
| Pipeline.FreshRowIsDue | alerting/internal/rulestore/store.go:276-305 | the row a decision inserts is created with the commit and due from then on, no sooner |
| Pipeline.RunKeepsRow | metadata/migrations/0007_create_delivery_log.sql:3-4 | only deleting its rule removes a row, and nothing changes what it notifies of |
| Pipeline.NotificationEnds | alerting/internal/delivery/webhook.go:124-233 | end to end, from an empty service: the row a committed decision inserts is posted at most five times and once more per lost status write, and stays unless its rule is deleted; it is sent iff an attempt answered with a code from 200 to 299 was written down, failed iff five others were, and holds the code of the last response |
| Delivery.Worker.ProcessDue | alerting/internal/delivery/webhook.go:124-156 | a tick marks the claimed rows and attempts each of them once, in order |
| Delivery.Worker.TryDelivery | alerting/internal/delivery/webhook.go:158-195 | accepted, refused and unreachable answers lead to the three row updates; the row is marked sent iff the code is from 200 to 299 |
| Delivery.Worker.MarkSent | alerting/internal/delivery/webhook.go:197-204 | a sent row is closed with its status code and counts the attempt |
| Delivery.Worker.MarkFailed | alerting/internal/delivery/webhook.go:209-233 | the last attempt closes the row, an earlier one schedules a retry |
| Rfc5424.ScanPrinted | agent/cairnobs-parser/src/lib.rs:84-203 | parsing a printed well-formed message gives the message back, for any PRI up to 191, header fields, SD elements with arbitrary escaped values, and any MSG |
| Rfc5424.ScanImage | agent/cairnobs-parser/src/lib.rs:84-203 | the messages the parser can return are exactly the well-formed ones |
| Rfc5424.HeaderExactly | agent/cairnobs-parser/src/lib.rs:84-135 | exactly which lines have a readable header and as what: a PRI of one to three digits up to 191, a version of digits, and five fields each closed by one space |
| Rfc5424.ParsePrinted | agent/cairnobs-parser/src/lib.rs:30-37 | facility, severity and message are recovered and facility * 8 + severity is the PRI |
| Rfc5424.AttributesLastWins | agent/cairnobs-parser/src/lib.rs:186-195 | each attribute is the last SD value under its key, else the header field; exactly when a header field survives |
| Rfc5424.AttributesOf | agent/cairnobs-parser/src/lib.rs:186-195 | for every printed message: each of the six syslog names holds the header field of that name unless a structured-data parameter spells the name, each parameter's key holds its last value, and there are no other keys |
| Rfc5424.Scanner.Next | agent/cairnobs-parser/src/lib.rs:54-56 | takes the first character of the rest, or nothing at the end |
| Rfc5424.Scanner.Expect | agent/cairnobs-parser/src/lib.rs:58-64 | succeeds iff the next character is the wanted one, which is consumed |
| Rfc5424.Scanner.TakeWhile | agent/cairnobs-parser/src/lib.rs:66-77 | takes the longest prefix satisfying the predicate |
| Rfc5424.ParsePri | agent/cairnobs-parser/src/lib.rs:87-98 | the loop reads the PRI the grammar reads |
| Rfc5424.ParseHeader | agent/cairnobs-parser/src/lib.rs:100-134 | header fields as the grammar reads them |
| Rfc5424.ParseValue | agent/cairnobs-parser/src/lib.rs:157-165 | the escape loop reads the value the grammar reads |
| Rfc5424.ParseStructuredData | agent/cairnobs-parser/src/lib.rs:136-177 | nested element and parameter loops collect the grammar's pairs in order |
| Rfc5424.ParseMsg | agent/cairnobs-parser/src/lib.rs:179-184 | everything after one space; without the space the rest is dropped |
| Rfc5424.CollectAttributes | agent/cairnobs-parser/src/lib.rs:186-195 | insertion order of header fields and SD pairs |
| Rfc5424.Parse | agent/cairnobs-parser/src/lib.rs:30-37 | never fails: the parsed line, or the raw line passed through |
| SqlTokens.QuoteLiteral | api/querylang/executor/sql.go:226-241 | the escaping loop yields the quoted literal text |
| SqlTokens.TokenReads | api/querylang/executor/sql.go:216-241 | any spelled token -- literals with whatever quotes and backslashes, names that survive quoting -- is read back as itself with the rest untouched |
| SqlTokens.IdentReadsExactly | api/querylang/executor/sql.go:216-218 | a back-quoted name is the token read from its text iff no backslash in it starts an escape and none is last, and then exactly its text is consumed |
| SqlTokens.TrailingBackslashLost | api/querylang/executor/sql.go:216-218 | a backslash behind any name that survives quoting takes the closing backtick for part of the name, which then reads on into what follows |
| SqlTokens.LiteralReads | api/querylang/executor/sql.go:226-241 | a quoted literal decodes to the original string |
| SqlTokens.LexText | api/querylang/executor/sql.go:32-62 | well-spaced text of such tokens lexes to exactly the tokens it was spelled from |
| SqlNames.ParseSpelled | api/querylang/executor/sql.go:32-62 | every statement whose names survive quoting is read back from its text |
| SqlNames.SelectMisread | api/querylang/executor/sql.go:110-129 | a statement whose select list has a name that does not survive quoting is not |
| SqlBuilder.SelectClause | api/querylang/executor/sql.go:110-129 | the select list text of the intended statement |
| SqlBuilder.BuildWhereClause | api/querylang/executor/sql.go:150-175 | one condition per record filter, predicate and time bound, joined by AND |
| SqlBuilder.ComparisonStr | api/querylang/executor/sql.go:202-207 | a comparison's text is that of its condition: quoted text, or a cast column and one number token |
| SqlBuilder.WriteOrderBy | api/querylang/executor/sql.go:64-88 | the ORDER BY text of the intended statement, aliases first |
| SqlBuilder.BuildSql | api/querylang/executor/sql.go:32-62 | the whole text is that of the intended statement |
| SqlBuilder.WhereReadsBack | api/querylang/executor/sql.go:150-175 | for every plan, whatever its names and values, the WHERE text reads back as exactly one condition per record filter, predicate and time bound |
| SqlBuilder.BuiltSqlReadsBack | api/querylang/executor/sql.go:32-62 | for every plan, the built text parses to exactly the intended statement iff its fields, or its group-by names and aliases, survive quoting |
| PlanMeaning.FilterSaid | api/querylang/executor/sql.go:202-207 | a filter's condition compares the filter's own field by its own operator with its value as written, as numbers iff the field is an attribute and the value numeric |
| PlanMeaning.NumericLiteralExactly | api/querylang/executor/sql.go:243-247 | a value is numeric iff it is digits, optionally a point and digits, optionally behind a minus sign |
| PlanMeaning.WhereTextSaysPlan | api/querylang/executor/sql.go:150-175 | what is read back from any plan's WHERE text is its record filter, then for every filter its field, operator and value, then not before the one bound and not after the other |
| PlanMeaning.TextSaysPlan | api/querylang/executor/sql.go:32-175 | what is read back from the whole text says the plan part by part: fields and aggregates under their names, groups, sort keys with their direction, and limits, 100 for raw rows |
| SqlBuilder.WrittenNamesReadBack | api/internal/querylang/lexer/lexer.go:220-244 | every name the query language can write survives quoting |
| Executor.PrefilterSelects | api/querylang/executor/executor.go:53-72 | whatever hits the search returns, the WHERE clause selects exactly the naive scan's rows among the hits, in order |
| Executor.FilterMeaning | api/querylang/executor/sql.go:202-214 | a filter's SQL condition holds of exactly the rows that meet the filter as read from its field, operator and value |
| Executor.PrefilterKeepsAll | api/querylang/executor/executor.go:45-72 | with at most 5000 matches no row of the naive scan is lost |
| Executor.PrefilterIsNaive | api/querylang/executor/executor.go:53-72 | executing a plan whose names survive quoting answers the rows that match the search term, meet every filter and lie in the time range, iff it is not an ungrouped aggregate over no match |
| Executor.PassedThrough | api/querylang/executor/executor.go:53-72 | raw SQL is run as it is, and a failed search fails the query |
| Executor.UngroupedAggregates | api/querylang/executor/executor.go:64-66 | the excepted plans are exactly stats without grouping and with a limit other than zero |
| Executor.TailKeepsOldest | api/querylang/executor/sql.go:77-82 | for raw rows, tail N answers the scan's oldest N rows, oldest first, which are the newest N iff all or none are kept or all have the same time |
| Executor.DefaultKeepsNewest | api/querylang/executor/sql.go:83-86 | raw rows without sort or tail are the scan's newest, newest first, 100 unless limited |
| SearchIndex.UpsertedContents | search/src/index.rs:67-78 | delete-then-add keeps ids unique, overwrites one document and leaves every other alone |
| SearchIndex.SearchIndex.Upsert | search/src/index.rs:67-78 | the buffer afterwards; a failed add leaves only the delete |
| SearchIndex.SearchIndex.Commit | search/src/index.rs:80-90 | durable and searchable documents after a commit, a failed commit, or a failed reload |
| SearchIndex.SearchIndex.Search | search/src/index.rs:96-123 | distinct matching ids in rank order, all of them when they fit the limit |
| SearchIndex.HitsComplete | search/src/index.rs:96-123 | a search is complete iff its matches fit the limit |
| SearchLog.RecoveryExactly | search/src/consumer.rs:117-201 | an index committed at c and re-read from f to n equals the crash-free one iff every id written between c and f is written again or already had its value |
| SearchLog.ReplayConverges | search/src/consumer.rs:117-201 | re-indexing from any offset at or before the commit changes nothing in the end |
| SearchLog.OffsetAheadLoses | search/src/consumer.rs:58-66 | a persisted offset ahead of the commit can lose a record for good |
| SearchLog.StepKeepsInv | search/src/consumer.rs:117-201 | reading, persisting, committing and covered crashes keep every index completable by re-reading |
| SearchLog.RunsConverge | search/src/consumer.rs:117-201 | any two runs, with any interleaving of disjoint partitions, persists, commits and covered crashes, that have read equally far and caught up hold the same documents for every tenant |
| SearchLog.ReadToTheEnd | search/src/consumer.rs:117-201 | having read every log to its end is having caught up |
| SearchLog.TenantRouting | search/src/consumer.rs:153-188 | in every reachable state, with any gate answers and failures, each document of a tenant's index is a record tagged with exactly that tenant and admitted when written; untagged ones are in the default index only |
| SearchLog.ConsumeIndexes | search/src/consumer.rs:131-188 | reading a record sets exactly the document of its tenant and id, iff it has an id, its tenant may be routed and its index is reachable; a failed add removes it; nothing else changes |
| SearchLog.EveryRecordIsIndexed | search/src/consumer.rs:131-188 | after a steady run to the end of every log, whatever its crashes, every record with an id, untagged or of an admitted tenant, that no later one replaces is in its tenant's index with its message |
| SearchLog.OnlyLastRecordsIndexed | search/src/consumer.rs:131-188 | and every document there comes from such a record |
| SearchLog.CommitsAndCrashes | search/src/index.rs:27-90 | what is on disk and searchable after each outcome of a commit, and that a crash brings back what is on disk, for every tenant |
| SearchLog.TenantIdExactly | search/src/registry.rs:129-137 | a tenant id is 1 to 63 characters, a small letter and then small letters, digits, dashes and underscores |
| SearchConsumer.RecordIsConsume | search/src/consumer.rs:131-188 | handling one record is the machine's consume step, for its tenant's index and for every other |
| SearchConsumer.RecordIndexes | search/src/consumer.rs:131-188 | what handling a record does to one document of one tenant's entry, read off the record and the environment's answers |
| SearchConsumer.CommitIsStep | search/src/index.rs:80-90 | committing an index object is the machine's commit step |
| SearchConsumer.BatchIsARun | search/src/consumer.rs:122-201 | a whole batch is a run of the machine, one consume step per record and then one persist; the registry and the offset store it leaves are what the machine then holds |
| SearchConsumer.IndexRegistry.Resolve | search/src/registry.rs:63-94 | the tenant's own index, opened once; nothing for an unsafe name or a failed open; no index shared |
| SearchConsumer.IndexRegistry.ConsumeRecord | search/src/consumer.rs:131-188 | a record reaches the index its header names, or none, and no other index changes |
| SearchConsumer.IndexRegistry.CommitAll | search/src/registry.rs:105-124 | every open index is tried whatever happened to the others; success means each is searchable exactly as buffered |
| SearchConsumer.ConsumeBatch | search/src/consumer.rs:122-201 | a fetched batch is indexed in order and then its next offset is stored, and saved as the write goes |
| SearchConsumer.Load | search/src/offsets.rs:23-36 | starts from the file, from nothing without one, and refuses one that does not parse |
| SearchConsumer.OffsetStore.Set | search/src/offsets.rs:42-44 | one partition's offset changes |
| SearchConsumer.OffsetStore.Persist | search/src/offsets.rs:46-57 | the file holds all offsets, what it held before, or is torn |
| Ingest.RunConserves | ingest/consumer/consumer.go:123-170 | over every run, tried batches in order plus the buffer are exactly the parseable messages received; each batch has 1 to max(1, BatchMaxSize) records; a committed message is unparseable or in a written batch |
| Ingest.ReceivedInOrder | ingest/consumer/consumer.go:142-170 | what a run has received is what was delivered, in order |
| Ingest.CommitsExactly | ingest/consumer/consumer.go:123-170 | over every run that receives no message twice, exactly the received messages that do not parse or were written are committed |
| Ingest.FlushesExactly | ingest/consumer/consumer.go:126-168 | a batch is tried exactly when a tick or the end finds something buffered or a message fills the buffer |
| Ingest.PoisonSafeExactly | ingest/consumer/consumer.go:155-162 | committing an unparseable message is safe iff its partition has no record still to be written |
| Ingest.FlushSafeExactly | ingest/consumer/consumer.go:126-140 | a failed flush moves no watermark, a successful one is safe iff it passes no dropped record |
| Ingest.WatermarkSafe | ingest/consumer/consumer.go:123-170 | over a run whose writes succeed and whose unparseable messages find nothing of their partition buffered, no committed offset passes an unwritten record |
| Ingest.StepSafeExactly | ingest/consumer/consumer.go:123-170 | from a safe state, a step stays safe iff it commits no unparseable message over a record of its partition still to be written and no batch over a dropped one |
| Ingest.RunSafeExactly | ingest/consumer/consumer.go:123-170 | a run from the empty buffer is safe throughout iff each of its steps is of that kind when it is taken |
| Ingest.DroppedBatchIsPassed | ingest/consumer/consumer.go:130-139 | a failed batch followed by a successful one is passed for good |
| Ingest.Consumer.Flush | ingest/consumer/consumer.go:126-140 | the flush closure as a step |
| Ingest.Consumer.Handle | ingest/consumer/consumer.go:154-168 | one message as a step |
| Ingest.Consumer.Loop | ingest/consumer/consumer.go:142-170 | the select loop is the run of its events and ends with an empty buffer |
| LocalAuth.RunsKeepAnOwner | api/localauth/handler.go:330-435 | from any state with an owner and fresh sessions, every sequence of requests keeps an owner, and every stored session names an existing user with that user's current role |
| LocalAuth.ServeKeepsGoverned | api/localauth/handler.go:112-128 | the same for one request of any kind |
| LocalAuth.RefusalsChangeNothing | api/localauth/handler.go:155-568 | a request not answered with success changed nothing, except a role that was set although reading the account back failed |
| LocalAuth.LoginNeedsThePassword | api/localauth/handler.go:155-204 | a login adds one session, under the account's own password and current role |
| LocalAuth.SignsInExactly | api/localauth/handler.go:155-204 | a login succeeds iff the limiter lets it through and name and password are the account's |
| LocalAuth.CreatesExactly | api/localauth/handler.go:272-320 | exactly when an account is created, by whom, and with which role |
| LocalAuth.DeletesExactly | api/localauth/handler.go:330-370 | exactly when an account is deleted and by whom |
| LocalAuth.SetsRoleExactly | api/localauth/handler.go:398-435 | exactly when a role is set, only by owners |
| LocalAuth.ResetsExactly | api/localauth/handler.go:458-520 | exactly when a password is reset and by whom |
| LocalAuth.ChangesExactly | api/localauth/handler.go:536-568 | exactly when an account changes its own password |
| LocalAuth.NewPasswordIsNeeded | api/localauth/store.go:236-254 | after an account is created or its password reset or changed, signing in needs the new password |
| LocalAuth.SignsOut | api/localauth/handler.go:206-222 | signing out ends the session it is made under and no other |
| LocalAuth.AccountsPreserved | api/localauth/handler.go:112-128 | over any run without a request under an admin's or owner's live session no account appears, disappears or changes its role |
| LocalAuth.OnlyTheTarget | api/localauth/store.go:220-283 | a request touches only its target account, and no session of a changed or deleted account survives while all others do |
| LocalAuth.OverlappingDemotions | api/localauth/handler.go:398-424 | two demotions that both pass the last-owner check before either is applied leave no owner iff they hit the only two |
| LocalAuth.LateLogin | api/localauth/handler.go:170-192 | a login's session, stored with the role read before, leaves the sessions fresh iff the account still has that role |
| LocalAuth.OverlappingLogin | api/localauth/store.go:261-283 | so a login overlapping a role change stores a stale session iff the role changed, and one overlapping a deletion stores none |
| LocalAuth.PrivilegePreserved | api/localauth/handler.go:272-568 | without a request under an owner's session nobody gains or loses admin or owner and no owner's password changes |
| LocalAuth.Store.InsertUser | api/localauth/store.go:87-118 | a new account with its role, or nothing when the name is taken |
| LocalAuth.Store.DeleteUser | api/localauth/store.go:220-229 | a local account goes with its sessions; single-sign-on accounts are not found |
| LocalAuth.Store.SetPasswordHash | api/localauth/store.go:236-254 | a new hash revokes the account's sessions |
| LocalAuth.Store.SetRole | api/localauth/store.go:261-283 | a new role revokes the account's sessions |
| LocalAuth.Store.CreateSession | api/localauth/store.go:336-349 | a session with its role snapshot, for an existing user and an unused token |
| LocalAuth.Handler.LogIn | api/localauth/handler.go:155-204 | limiter, input, lookup and password checks in order, then a session with the user's current role |
| LocalAuth.Handler.Create | api/localauth/handler.go:272-320 | validation, default role editor, and admins may create only viewers and editors |
| LocalAuth.Handler.Delete | api/localauth/handler.go:330-370 | never oneself, never the last owner, and admins may delete only viewers and editors |
| LocalAuth.Handler.ChangeRole | api/localauth/handler.go:398-435 | never demotes the last owner |
| LocalAuth.Handler.Reset | api/localauth/handler.go:458-520 | never one's own password, never an owner's unless by an owner |
| LocalAuth.Handler.ChangeOwn | api/localauth/handler.go:536-568 | needs the current password |
| LocalAuth.Handler.Handle | api/localauth/handler.go:112-128 | every route: authentication, role floor, then its handler |
| LoginLimiter.PrunedIsRecentHistory | api/localauth/ratelimit.go:52-70 | with nondecreasing clocks the pruned list and the whole allowed history agree on every later window, so the next call is decided as the specification decides it |
| LoginLimiter.PrunedExactly | api/localauth/ratelimit.go:52-70 | after a call the list is the allowed history filtered to the window |
| LoginLimiter.RateBound | api/localauth/ratelimit.go:52-70 | no interval as long as the window holds more than max allowed attempts of one client |
| LoginLimiter.AllowedExactly | api/localauth/ratelimit.go:52-70 | an attempt is allowed iff fewer than max attempts of the same client were allowed within the window before it |
| LoginLimiter.KeysIndependent | api/localauth/ratelimit.go:52-70 | other clients make no difference |
| LoginLimiter.Limiter.Allow | api/localauth/ratelimit.go:52-70 | the pruning loop decides and records as specified |
| Agent.NothingLost | agent/cairnobs-agent/src/main.rs:173-291 | over every run of lines, ticks, overrides and shutdowns, batches sent plus the buffer are the records received in order, no batch exceeds max(1, the limit in force), and a stopped agent has sent everything |
| Agent.SendsExactlyWhenDue | agent/cairnobs-agent/src/batch.rs:28-65 | outside overrides and shutdowns the whole buffer goes out exactly when a record fills it or a tick finds its interval elapsed |
| Agent.WaitsLessThanInterval | agent/cairnobs-agent/src/batch.rs:40-52 | after a tick at any point of any run every record still buffered arrived less than the flush interval in force ago |
| Agent.CheckInCatchesUp | agent/cairnobs-agent/src/main.rs:198-234 | a check-in leaves the agent under the desired version, applied exactly if it was not already, and running unless told to restart |
| Agent.SourceExitStops | agent/cairnobs-agent/src/main.rs:242-291 | when its source ends the agent sends what it has and stops |
| Agent.SourceRestartsExactly | agent/cairnobs-agent/src/main.rs:304-382 | the source task is replaced exactly when what it reads changes, and the old one is stopped |
| Agent.SettingsFollowOverrides | agent/cairnobs-agent/src/main.rs:304-382 | settings are the last-set-wins fold of the applied overrides over the local ones, and the tailed files exactly the latest list |
| Agent.TasksAccounted | agent/cairnobs-agent/src/main.rs:348-382 | every task ever started is running or was stopped, never both, and no two paths share one |
| Agent.ListedKeepsTask | agent/cairnobs-agent/src/main.rs:369-382 | a path listed in every applied override keeps its running task |
| Agent.FromStartup | agent/cairnobs-agent/src/main.rs:115-291 | all of these for every run from startup |
| Agent.Batcher.Push | agent/cairnobs-agent/src/batch.rs:28-35 | hands out the whole buffer iff the record fills it |
| Agent.Batcher.PollTimeout | agent/cairnobs-agent/src/batch.rs:40-46 | hands out a non-empty buffer iff the interval has elapsed |
| Agent.Batcher.FlushAll | agent/cairnobs-agent/src/batch.rs:54-60 | hands out whatever is buffered |
| Agent.Collector.Rebuild | agent/cairnobs-agent/src/main.rs:319-337 | the old batcher is flushed under its own limit before the new one takes over |
| Agent.Collector.Retarget | agent/cairnobs-agent/src/main.rs:369-381 | the two set-difference loops stop what is gone, start what is new and leave the rest running |
| Agent.Collector.ApplyOverride | agent/cairnobs-agent/src/main.rs:304-382 | the whole override as a step |
| Agent.Collector.OnLine | agent/cairnobs-agent/src/main.rs:242-270 | one received line as a step |
| Agent.Collector.OnFlushTick | agent/cairnobs-agent/src/main.rs:271-275 | one flush tick as a step |
| Agent.Collector.OnCheckIn | agent/cairnobs-agent/src/main.rs:178-241 | an override applies only if its version is new; a restart flushes first |
| Retention.FirstsInOrder | api/logretention/handler.go:95-112 | deduplication keeps each target once, ordered by first occurrence |
| Retention.ParseTargets | api/logretention/handler.go:95-112 | deduplicated targets, or a refusal for an empty name, no target or more than 2000 |
| Retention.PartitionSplits | api/logretention/handler.go:151-186 | allowed and blocked merge back to the targets in order; exactly the protected ones are blocked, with their floor |
| Retention.ProtectsExactly | api/logretention/agent_floor.go:83-94 | a target is protected iff the cutoff is younger than its floor: the service's own if it has one, else the host's default |
| Retention.PartitionTargets | api/logretention/handler.go:151-186 | the loop computes that partition; an owner is never blocked |
| Retention.DaysExactly | api/logretention/handler.go:178-179 | a floor's duration is exact iff at most 106751 days either way |
| Retention.HoursExactly | api/logretention/handler.go:329-329 | a cutoff's duration is exact iff at most 2562047 hours either way |
| Retention.OverlongFloorWraps | api/logretention/handler.go:178-179 | one day more and the protected boundary lies in the future |
| Retention.DeletedAreOlderThanFloor | api/logretention/handler.go:324-359 | every deleted record was asked for, is older than the cutoff and older than its effective floor at the check instant |
| Retention.LogStore.HandleDelete | api/logretention/handler.go:324-359 | a refused request deletes nothing; otherwise exactly the allowed targets' records older than the cutoff go |
| Retention.RemainingMembers | api/logretention/store.go:147-150 | a record survives a deletion iff it was there and is not both older than the cutoff and of a listed target |
| Retention.GroupByHost | api/logretention/handler.go:255-271 | groups are non-empty, of one host, neighbours differ, and flattening gives the rows back |
| Retention.HostsDistinctExactly | api/logretention/handler.go:255-271 | hosts are distinct iff the rows of every host come together |
| Retention.OrderedIsContiguous | api/logretention/store.go:84-90 | rows ordered by host come together |

## Left out

- HTTP decoding, status texts, CORS, cookies, CLI, Terraform provider and web files: plumbing with one-branch facts.
- Drivers of ClickHouse, Postgres, Redpanda, Tantivy and gRPC: modelled as tables, logs and answers, one atomic step per statement or transaction.
- Payload rendering, templates, target lookup, bcrypt, token hashing and clocks: their results are parameters of the steps that use them.
- The query-language parser and planner: plans are arbitrary values with operators from the comparison set; time bounds arrive already formatted.
- Invalid UTF-8 and malformed hexadecimal escapes in SQL text: text is a sequence of characters, and `\x` takes any two of them.
- Executor.PrefilterIsNaive: excludes names that do not survive quoting, which SqlBuilder.WrittenNamesReadBack shows the query language cannot write, and supposes that the database answers the texts of the plan at hand, with at most 5000 record ids, as they read; it does not for an aggregation without functions and groups, whose select list is empty.
- Executor.FilterMeaning: how a column type orders its text against a literal, and what toFloat64OrZero makes of a text, are parameters of the database.
- Tenant id columns in alerting, and gaps in broker offsets: one tenant, and consecutive offsets.
- NaN and infinities in alert values: query values are reals.
- tenantIDFromHeaders in ingest and tenant_id_from_headers in search: a message carries its tenant as a field.
- The evaluator's tick is the steps of a pool machine rather than a loop, since its evaluations interleave with everything else.
- The evaluator's and the worker's outer tickers, and loading of retention floors from rows: timers and row decoding around the modelled steps.
- Host metrics, heartbeats, Windows services, AI providers, the processing specification, load generators and the enterprise audit adapter.
- Scheduler.BoundedBypass: rules inserted meanwhile must be due later, and the claims must be of the given size; otherwise newer rules can pass an older one without bound.
- Delivery.DueRowIsClaimed: rows inserted meanwhile must not be among those created at or before it, the one worker is not killed, and its status writes succeed.
- SearchLog.EveryRecordIsIndexed: the same run hypotheses as SearchLog.RunsConverge, and no record id of a tenant comes in two partitions.
- SearchLog.RunsConverge: no crash happens while the offset file is torn, after which the service does not start; upserts succeed and the gate answers the same for a tenant throughout; a failed add or a gate that changes its answer between two readings of a record changes the index.
- LoginLimiter.AllowedExactly: for clocks that do not run backwards, as next.
- LoginLimiter.PrunedIsRecentHistory: for clocks that do not run backwards, as the monotonic clock behind it guarantees.
- LocalAuth.RefusalsChangeNothing: apart from that re-read, a failing store is not modelled; the code answers such failures with an error before or by rolling back its transaction.
- LocalAuth.RunsKeepAnOwner: requests do not overlap; LocalAuth.OverlappingDemotions and LocalAuth.OverlappingLogin show what overlap can do.
