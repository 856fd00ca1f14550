# Verified model of pg-react's hardest logic

This project models four components of pg-react in Dafny and proves what they promise: the bounded refresh
producer for pg-mdm, the view-lineage analysis behind `view_key_is_direct_from`, the v0.50 release decision, and
the activation lifecycle with its reference oracle and identity codec. Every theorem ranges over all inputs: any
catalog, any database, any script of database failures, any interleaving, any manifest, any history.

`dafny verify dfyconfig.toml` checks everything.

## The modules

| module | models | main results |
|---|---|---|
| `Basics`, `Complaints` | what the other modules share: options, flattening, integer division; a validation as a list of conditions with their subjects | the complaints name exactly the failing conditions |
| `ParseTree` | the analysed query trees that the lineage analysis reads | |
| `Equalities` | resolution through join aliases, collected equality quals, the equivalence worklist | the worklist returns exactly a connected component |
| `Lineage` | the mutually recursive lineage search over a mutable path | it succeeds exactly when a lineage chain of at most 64 expansions exists, on cyclic catalogs too |
| `Occurrences` | the saturating occurrence counter with its early exits | it refines the full count of the complete unfolding; `ViewKeyIsDirectFrom` is exact |
| `LineageTrails` | the same lineage without the search: conjuncts, aliases, entries and CTEs as the query states them | aliases, equalities and sources of a column are exactly those along such trails |
| `OccurrencePaths` | places in a query as paths of steps through entries and nested queries | the counter's "one occurrence" is exactly one path to the required view and no cut; both SQL functions are exact in these terms |
| `LineageSemantics` | a denotational semantics of select, project and join | lineage along sure steps is sound; for a two-way join, exactly which join types keep a positive answer right |
| `Independence` | databases that differ only in the required view | a query without an occurrence gives the same rows in both |
| `SourceTable` | insert-on-conflict-do-nothing followed by the replay verification | it commits exactly the consistent unions; batching, replaying and restarting keep the meaning |
| `RefreshProducer` | retry loop, pinned identity and batches against an adversarial database | a completed run equals one transaction over all rows, in one database; retry and time bounds; every stop is explained, and each call's result follows from how the call ended |
| `Pipeline` | offerer and consumer threads as an interleaved step system | no deadlock, and why the put needs its timeout; bounded runs, exactly-once delivery in file order; exactly which announcement can be lost |
| `EventLog` | the printed events | offers and batch events each in order, without gap or repetition, in every reachable state |
| `ProducerRun` | the threads' batches sent to the database | a completed run equals one transaction over the input |
| `AdmissionReader` | the chunked admission reader | it refines plain line splitting; exactly which files give which admissions, and which line's error the others give |
| `Json`, `Evidence` | JSON as Python holds and compares it, retained evidence files | Python's == compares canonical forms; a value can be serialized exactly when no NaN or infinity stands inside |
| `ShadowCoverage` | the shadow coverage validator | acceptance is an exact partition of the frozen population |
| `OperatingRun`, `ReleaseRecord`, `Qualification` | run reports, staged enablement, the release record, the decision | `derive` decides exactly the declared conditions |
| `Schema`, `ReportSchemas`, `ShadowSchemas`, `ApprovalSchemas`, `RecordPaths`, `Demands` | what each report, row, approval and record field must be, member by member | each validator accepts exactly what its schema describes; the complaints are exactly the demands not met |
| `ReleaseFacts` | the decision in those terms | a manifest and its record are accepted exactly when complete; what a qualified release's runs are; exactly what is sealed |
| `QualificationTheorems` | consequences across the whole decision | one global time order; one subject; approved thresholds; the gate list is complete; what the sign-offs bind, exactly |
| `ExampleReports`, `ExampleRelease` | a whole release: manifest, record, eleven reports | it qualifies with any value in its thresholds, NaN included |
| `Lifecycle` | planner and reference oracle | generations count rising edges; replaying the events rebuilds the active set |
| `Identity` | both key codecs and the UUID stamp | invertible exactly on texts below 2^32 bytes; prefix-free; injective hash input |

Code that updates state in place is modelled in place: the equality collector's output vector, the lineage search's
path, the occurrence counter's context, the producer's counters and pinned identity, and the oracle's state map are
fields of classes, and each method is proved against a function or predicate over that state. The two producer
threads are a transition system in which every wait, every test of the stop flag and every access to the queue is a
step of its own. Pure Rust and Python expressions are
functions.

## What the proofs found

* The analysis never reads a join's type (`src/rewrite.rs:439-444`), so an outer join can make
  `view_key_is_direct_from` answer true for a key that the required view does not contain. A step is *sure* when its
  equalities come from inner joins and WHERE clauses, and the entry it follows lies on no nullable side; lineage along
  sure steps of select-project-join queries is sound, whatever else they join (`LineageSemantics.SureLineageSound`). For
  a two-way join the condition is exact, over all join types and both key sides: `LineageSemantics.JoinTypeDecides`. For
  larger queries it is sufficient and not necessary: a WHERE clause may reject the null-extended rows
  (`LineageSemantics.SureIsNotNecessary`).
* `_json_sha256` returns `None` for content with a NaN or an infinity, and `None` equals a JSON `null` in the report
  (`tests/integrations/pg-mdm/derive_v050_qualification.py:401-408, 456`). The final sign-offs bind the sealed
  content exactly when it holds no such number: `QualificationTheorems.SealBindsExactly`. For every manifest that
  qualifies in spite of one, `UnsealableAcceptsChange` constructs a changed manifest that qualifies on the same sign-offs.
  `ExampleRelease.ExampleQualifies` is a manifest of either kind, by the value of one extra member.
* One NaN object is equal to itself inside a list or dict, because Python compares these by identity first. Thresholds
  with an extra NaN therefore equal those of the approval reports; `Json.PyEqual` follows that.
* The text length is cast to 32 bits (`src/identity.rs:47`). The tuple codec is invertible exactly when every text is
  shorter than 2^32 bytes (`Identity.TupleRoundTrip`); beyond that two tuples can share an encoding
  (`Identity.LongTextsCollide`).
* `DatabaseTransactionRetry` never sets `service`, which line 431 of the producer reads. The run stops there with an
  `AttributeError` instead of a lost connection; the model keeps that as the stop reason `MissingService`. It is met
  exactly when the last call reported a retryable error, fewer than four retries were used, and the clock is at the
  deadline: `RefreshProducer.Producer.Retry`, by the predicate `RefreshProducer.EndsFor`. `RefreshProducer.MissingServiceIsMet` is a script that gets there.
* A gate status that is an array or an object cannot be tested for membership in a Python set, so `derive` raises
  `TypeError` before it decides anything. `Qualification.Derive` returns `None` exactly then.
* The stop flag does not wake an offerer that is inside `pending.put`. Without the put's timeout the producer can hang:
  `Pipeline.UntimedPutHangs` is such a run, and `Pipeline.OnlyPutWaits` says that this is the only state in which
  neither thread can go on by itself. With the timeout there is no deadlock, and it fires at most once after the flag.
* An offer event that fails to print leaves its admission counted but unannounced, and the consumer may still batch
  it before it reads the forwarded error. `Pipeline.MissingOffer` says exactly when an admission of a started batch is
  unannounced; `Pipeline.OfferCanBeLost` is such a run. In successful runs it cannot happen
  (`Pipeline.OffersPrecedeBatches`).

## Model

| member | source | states |
|---|---|---|
| Equalities.ResolveKey | src/rewrite.rs:392-410 | Whatever the nesting of join aliases, a resolved variable is an in-range, positive column of an entry that is not a join |
| Equalities.EqualityCollector.CollectQual | src/rewrite.rs:449-494 | Appends to the output exactly the column pairs that the qual equates, in traversal order, and drops nothing already there |
| Equalities.EqualityCollector.CollectFrom | src/rewrite.rs:420-447 | Appends the pairs of a whole join tree, inner quals before outer ones, whatever the join types |
| Equalities.Equivalents | src/rewrite.rs:328-345 | The worklist ends and returns the connected component of the start column in the equality graph, each member once, the start first |
| Equalities.ClosedIsComponent | src/rewrite.rs:328-345 | A duplicate-free part of the component that is closed under all equalities is the whole component |
| LineageTrails.ResolveKeyFollowsAliases | src/rewrite.rs:392-410 | A variable resolves to a column exactly when a trail of join-alias references leads there, each to the alias expression of the join it names |
| LineageTrails.JoinTreeEqualitiesExact | src/rewrite.rs:412-494 | The collected pairs are exactly the resolved sides of hash-joinable operators that are conjuncts of some qual of the join tree, wherever the qual stands |
| LineageTrails.TargetExprIsOutput | src/rewrite.rs:381-390 | The expression of an output column is that of the first target of its number that is not junk |
| Lineage.DirectViewAttribute | src/rewrite.rs:210-230 | True exactly when a simple chain within the remaining depth leads from the view column to the goal; the path comes back as it was |
| Lineage.DirectQueryAttribute | src/rewrite.rs:232-245 | True exactly when some source of the output column, through its equality class when a column is required, reaches the goal |
| Lineage.DirectExpressionMatches | src/rewrite.rs:311-350 | Skipping the first worklist member after a failed direct search loses nothing: true exactly when some class member reaches the goal |
| Lineage.DirectExpression | src/rewrite.rs:247-270 | Agrees with resolving the expression first and searching from the resolved column |
| Lineage.DirectVariable | src/rewrite.rs:272-309 | The same for a variable, for each kind of range-table entry |
| Lineage.DirectCteAttribute | src/rewrite.rs:352-379 | True exactly when a non-recursive CTE of the name reaches the goal through its own query |
| Lineage.ViewKeyIsDirect | src/rewrite.rs:9-31 | With nothing required: true exactly when a chain of at most 64 expansions leads to a base table |
| Lineage.MatchesIsColumn | src/rewrite.rs:232-245 | Searching the equality class of a target is the same as searching the sources of its output column |
| Lineage.ResolvedClass | src/rewrite.rs:311-350 | Every class member is a resolved non-join column, so following it never meets a join alias again |
| Lineage.CutLoop | src/rewrite.rs:219-221 | Cutting the stretch between two equal chain elements leaves a chain with the same ends |
| Lineage.EveryChainShortens | src/rewrite.rs:219-221 | Any chain of at most 64 expansions shortens to one that repeats no view column |
| Lineage.PathCutIsExact | src/rewrite.rs:219-221 | Refusing repeated view columns changes no answer: a simple chain exists exactly when any chain of at most 64 expansions does |
| LineageTrails.ColumnSourceExact | src/rewrite.rs:232-379 | The sources of an output column are exactly the view and table columns at the end of a trail through subqueries and CTEs, where a CTE reference means a non-recursive CTE of that very name whose query it is |
| LineageTrails.SelectFromCte | src/rewrite.rs:352-379 | A select of one column from the one CTE of a name has exactly the sources of that CTE's column |
| Occurrences.WeightOne | src/rewrite.rs:43-51 | Count one means that nothing was cut and the required view stands in exactly one place |
| Occurrences.FirstCte | src/rewrite.rs:178-196 | Finds a CTE of the name with none of that name before it, and none only when no CTE has the name |
| Occurrences.RequiredOccurrenceContext.CountView | src/rewrite.rs:68-91 | The count ends at the minimum of two and the old count plus the weight of the complete unfolding; the path comes back |
| Occurrences.RequiredOccurrenceContext.CountQuery | src/rewrite.rs:93-145 | The same for a query: range table, then queries nested in its expressions |
| Occurrences.RequiredOccurrenceContext.CountEntries | src/rewrite.rs:101-133 | The same for the range table, with its early exit |
| Occurrences.RequiredOccurrenceContext.CountCte | src/rewrite.rs:168-200 | The same for a CTE reference; a recursive, missing or non-query CTE weighs two |
| Occurrences.RequiredOccurrenceContext.CountNested | src/rewrite.rs:147-166 | The walk over one expression counts its nested queries and stops exactly when the count exceeds one |
| Occurrences.RequiredOccurrenceContext.CountNestedInFrom | src/rewrite.rs:147-166 | The same for the quals of a join tree |
| Occurrences.RequiredOccurrenceContext.CountNestedInAll | src/rewrite.rs:147-166 | The same for a list of expressions, stopping early |
| Occurrences.EntriesGrow | src/rewrite.rs:103-105 | Entries skipped by the early exit never lower the weight, so the exit is sound |
| Occurrences.ViewKeyIsDirectFrom | src/rewrite.rs:33-60 | True exactly when the arguments are valid, the complete unfolding is one uncut occurrence, and a chain of at most 64 expansions leads to the required column |
| OccurrencePaths.ViewSize | src/rewrite.rs:68-200 | The unfolding of a view holds as many occurrences of the required view as there are paths to it, and as many cuts as there are paths that end in one |
| OccurrencePaths.OccurrencesAreCounted | src/rewrite.rs:43-51 | The count is one exactly when one path of steps, through entries, views, CTEs and queries nested in expressions, leads to the required view, and no path is cut |
| OccurrencePaths.DirectFromExact | src/rewrite.rs:33-60 | `view_key_is_direct_from` in these terms: valid arguments, one such path, and a chain of at most 64 expansions from column to column to the required one |
| OccurrencePaths.DirectExact | src/rewrite.rs:9-31 | `view_key_is_direct` in these terms: a chain of at most 64 expansions to a base-table column |
| Independence.NoOccurrenceNoInfluence | src/rewrite.rs:43-51 | A query whose unfolding neither meets the required view nor is cut gives the same rows whatever that view holds |
| LineageSemantics.ResolveSound | src/rewrite.rs:392-410 | Resolving through join aliases keeps the value |
| LineageSemantics.QualSound | src/rewrite.rs:449-494 | A qual that holds makes every collected pair equal |
| LineageSemantics.FromSound | src/rewrite.rs:412-447 | A combination that a join tree lets through, whatever its join types, satisfies the equalities from inner joins and WHERE clauses outside nullable sides |
| LineageSemantics.WalkSound | src/rewrite.rs:328-349 | All members of an equality class have one value |
| LineageSemantics.TreeDelivers | src/rewrite.rs:412-447 | An entry that lies on no nullable side contributes one of its own rows to every combination, so no null extension |
| LineageSemantics.ColumnSound | src/rewrite.rs:232-350 | Every value of an output column occurs in the view column at the end of a sure step, through subqueries and CTEs, whatever else the query joins |
| LineageSemantics.ChainSound | src/rewrite.rs:210-309 | The same along a whole chain of sure steps across views, whatever other views the catalog holds |
| LineageSemantics.SureLineageSound | src/rewrite.rs:33-60 | Lineage along sure steps is sound in every database and for every lawful operator: each value of the key column occurs in the required column |
| LineageSemantics.SureChainIsChain | src/rewrite.rs:210-350 | Sure steps are steps of the search, so the search does find a sure chain |
| LineageSemantics.CoveredChainIsSure | src/rewrite.rs:210-350 | Where every view that a chain expands is select, project and inner join, each chain that the search accepts has sure steps only |
| LineageSemantics.LineageSound | src/rewrite.rs:33-60 | If the views that can be expanded between the key and the required column are covered, a positive answer means that the key of each view row is the required column's value in some row of the required view; no other view matters. The semantics resolves CTE references by itself: the CTE of that name that is a query and not recursive |
| LineageSemantics.JoinTypeDecides | src/rewrite.rs:420-447 | For a two-way equijoin of every join type and either side's column as key: the answer is always positive, and it is right exactly for an inner join, and for a right join when the key is the required view's own column; that is exactly when the lineage has sure steps |
| LineageSemantics.SureIsNotNecessary | src/rewrite.rs:420-447 | With a WHERE that no null-extended row passes, the answer for the same join is right whatever the join type; sure steps it has only for an inner and a right join |
| SourceTable.CommitsTheUnion | integrations/pg-mdm/bounded_refresh_producer.py:267-296 | The transaction commits exactly when no key has two values among table and rows, and then commits the union |
| SourceTable.UnionIsCommitted | integrations/pg-mdm/bounded_refresh_producer.py:267-296 | Any table that is a union of table and rows is the one committed |
| SourceTable.ReplayIsIdempotent | integrations/pg-mdm/bounded_refresh_producer.py:274-292 | Replaying stored rows commits and changes nothing |
| SourceTable.SplitTransaction | integrations/pg-mdm/bounded_refresh_producer.py:267-296 | Two transactions in a row commit, abort and store exactly as one over both batches |
| SourceTable.BatchingPreservesMeaning | integrations/pg-mdm/bounded_refresh_producer.py:500-520 | However the rows are cut into batches, the outcome is that of one transaction over all of them |
| SourceTable.RestartPreservesMeaning | integrations/pg-mdm/bounded_refresh_producer.py:391-439 | A table that already holds some of the rows accepts all of them exactly when the original does, with the same result |
| RefreshProducer.SettleAllEvolves | integrations/pg-mdm/bounded_refresh_producer.py:216-219 | Late commits of abandoned transactions overwrite nothing and add only rows of the run, on servers it reached |
| RefreshProducer.LateTransactionsAreHarmless | integrations/pg-mdm/bounded_refresh_producer.py:415-424 | Once all rows of the run are stored on a server, nothing that is still in flight can change its table |
| RefreshProducer.Producer.Psql | integrations/pg-mdm/bounded_refresh_producer.py:205-225 | A call never runs past the deadline and is not made without time left; it reads as a dropped connection exactly when it dropped, took longer than 120 seconds or the time left, or was not made; otherwise its own reply counts |
| RefreshProducer.Producer.DatabaseIdentity | integrations/pg-mdm/bounded_refresh_producer.py:241-248 | The reported identity is that of the server the call reached; it is reported exactly when the call was answered, and each failure is that of the call's reply, both ways |
| RefreshProducer.Producer.SendSource | integrations/pg-mdm/bounded_refresh_producer.py:251-302 | Whatever the adversary does, effects land only on the expected server, only as insert-then-verify; success means the rows are stored there. An answered call succeeds exactly on the expected server with consistent rows; no other call does, and garbled output or a failure is final |
| RefreshProducer.Producer.SendRefresh | integrations/pg-mdm/bounded_refresh_producer.py:305-322 | Refreshes run only on the expected server; success means the refresh saw the table as it is. An answered call succeeds exactly on the expected server; no other call does, and garbled output or a failure is final |
| RefreshProducer.Producer.PinIdentity | integrations/pg-mdm/bounded_refresh_producer.py:393-401 | The first answer pins the identity, every later one is checked against it and passes exactly when equal; each failure is that of the call's reply, both ways |
| RefreshProducer.Producer.Deliver | integrations/pg-mdm/bounded_refresh_producer.py:402-414 | With the identity pinned, writes and then refreshes on that server; the result follows from how its last call ended, both ways for each kind of error |
| RefreshProducer.Producer.Attempt | integrations/pg-mdm/bounded_refresh_producer.py:392-414 | An attempt touches only the pinned server; success means an answered last call, rows stored and seen by the refresh, and receipts that pass all three later checks; a garbled or failed call breaks it at once, a retryable error and a lost connection are reported as such, both ways |
| RefreshProducer.Producer.Retry | integrations/pg-mdm/bounded_refresh_producer.py:388-439 | Against any failure sequence and with any outcome: ends by the deadline after at most 300 connection and 4 transaction retries, so 305 attempts, with at most 1.5 seconds of transaction backoff, both reported. It gives up for a lost connection, for used-up retries or with `MissingService` exactly in the case of each: the last call lost, at the deadline; a retryable error with no retry left; a retryable error with retries left at the deadline. A garbled or failed call ends it at once. If the first call of every attempt drops, times out or deadlocks, the script's times decide the end and the number of attempts |
| RefreshProducer.Producer.Flush | integrations/pg-mdm/bounded_refresh_producer.py:375-456 | The same for a batch, whose mismatch checks never fire; a batch completes only on an answered last call, is then stored and refreshed, counted once and reported with its refresh; a garbled or failed call stops it at once with `CallFailed`; a stopped one reports nothing |
| RefreshProducer.Producer.RunBatches | integrations/pg-mdm/bounded_refresh_producer.py:500-520 | A completed run had no garbled or failed call; it leaves the pinned server's table equal to one transaction over all rows, so it needs consistent rows; each batch's refresh saw the rows of all batches up to it; no row is overwritten; no other server is touched. A garbled or failed call is the last of the run. If every call is answered in time, only a call that reaches another server or inconsistent rows stop the run |
| RefreshProducer.MissingServiceIsMet | integrations/pg-mdm/bounded_refresh_producer.py:425-439 | Three deadlocks in a row, the last when the retry window closes, do stop a flush with `MissingService`, in its third attempt |
| RefreshProducer.NobodyThere | integrations/pg-mdm/bounded_refresh_producer.py:415-424 | A database that is never there is tried 301 times, once a second, and then the window is closed |
| RefreshProducer.BrokenFromTheStart | integrations/pg-mdm/bounded_refresh_producer.py:289-292 | A conflict met late in a run is a conflict of the input with itself or with the initial table |
| RefreshProducer.Backoff | integrations/pg-mdm/bounded_refresh_producer.py:434-435 | Each transaction-retry delay is positive, at most one second, and fits the uncapped total |
| RefreshProducer.BackoffSchedule | integrations/pg-mdm/bounded_refresh_producer.py:434-435 | The delays of the four retries are 0.1, 0.2, 0.4 and 0.8 seconds; a fifth would be one second |
| RefreshProducer.BackoffBound | integrations/pg-mdm/bounded_refresh_producer.py:434-435 | Four delays total at most 1.5 seconds |
| Pipeline.StepKeepsInv | integrations/pg-mdm/bounded_refresh_producer.py:366-527 | Every step of either thread, failing or not, keeps the invariant on queue, lock, flag, batches and event log; the stop flag may be set between the offerer's test of it and its put, and while the put blocks |
| Pipeline.RunKeepsInv | integrations/pg-mdm/bounded_refresh_producer.py:366-527 | The invariant holds in every reachable state, for every capacity and batch size of at least one |
| Pipeline.NoDeadlock | integrations/pg-mdm/bounded_refresh_producer.py:366-527 | In every reachable state some step is possible until both threads are done. A put timeout is the only one exactly when the consumer joins an offerer inside a put on a full queue, which is only after the stop flag |
| Pipeline.OnlyPutWaits | integrations/pg-mdm/bounded_refresh_producer.py:366-527 | Neither thread can go on by itself exactly when both are done, or when the consumer joins an offerer that is inside a put on a full queue |
| Pipeline.UntimedPutHangs | integrations/pg-mdm/bounded_refresh_producer.py:366-373 | What the timeout of 0.1 seconds is for: a run, without a timeout so far, in which a flush fails while the queue is full; there no step but the timeout is possible |
| Pipeline.UndisturbedStaysSound | integrations/pg-mdm/bounded_refresh_producer.py:458-527 | Without a failed emission, a failed flush or an interrupt, neither thread ever takes its failure path |
| Pipeline.StuckRunIsOver | integrations/pg-mdm/bounded_refresh_producer.py:458-527 | A run in which no undisturbed step is possible, timeouts included, has ended in both threads, and successfully if nothing failed in it |
| Pipeline.StoppedOffererNeverBlocks | integrations/pg-mdm/bounded_refresh_producer.py:521-527 | While the consumer joins, the offerer has a step: a put timeout exactly when it is inside a put on a full queue, a step of its own otherwise |
| Pipeline.StoppedOffererEnds | integrations/pg-mdm/bounded_refresh_producer.py:366-373 | Once the stop flag is set each step of the offerer brings it nearer to its end, which is at most six steps away, and it never enters another put; so the join returns |
| Pipeline.OneTimeoutAfterStop | integrations/pg-mdm/bounded_refresh_producer.py:366-373 | At most one put timeout follows the setting of the stop flag |
| Pipeline.RunIsBounded | integrations/pg-mdm/bounded_refresh_producer.py:458-527 | A run over n admissions takes at most 17 n + 42 steps, and two more for each put timeout before the stop flag: the timeout and the test of the flag after it |
| Pipeline.BatchCount | integrations/pg-mdm/bounded_refresh_producer.py:516-520 | Full batches with one shorter last batch number the ceiling of rows over batch size |
| Pipeline.SuccessfulRun | integrations/pg-mdm/bounded_refresh_producer.py:458-542 | Admissions reach batches exactly once and in file order, all batches but the last are full, and all reported counts agree |
| Pipeline.OffersPrecedeBatches | integrations/pg-mdm/bounded_refresh_producer.py:380-491 | With events on, every batch of a successful run has its started event in the log, with its number and the count of admissions up to its end, and every one of these was announced before it |
| Pipeline.MissingOffer | integrations/pg-mdm/bounded_refresh_producer.py:458-491 | In every reachable state, an admission of a started batch is unannounced before it exactly when its own announcement failed to print and it is the last one offered |
| Pipeline.OfferCanBeLost | integrations/pg-mdm/bounded_refresh_producer.py:458-520 | A run of fifteen steps in which this happens: the log holds the batch and not the offer |
| EventLog.LogIsOrdered | integrations/pg-mdm/bounded_refresh_producer.py:375-535 | In every reachable state, failures and interrupts included, the printed offers are those of the admissions put and announced so far, in file order, none twice; the batch events are the start and the end of each finished batch, numbered from 1 and with the number of admissions up to it, followed at most by the start of an unfinished one |
| EventLog.SuccessfulLog | integrations/pg-mdm/bounded_refresh_producer.py:375-535 | A successful run prints the offer of every admission once, in file order, and the start and end of every batch, in order |
| Pipeline.ConsumeKeepsLogInv | integrations/pg-mdm/bounded_refresh_producer.py:511-518 | Waiting for an admission's event keeps announcements ahead of batches in the log |
| Pipeline.BatchesHoldTheInput | integrations/pg-mdm/bounded_refresh_producer.py:458-520 | The rows of a successful run's batches are the rows of the input, in order |
| Pipeline.RunMeansOneTransaction | integrations/pg-mdm/bounded_refresh_producer.py:458-520 | Whatever the interleaving and the batch size, the batches of a successful run mean one transaction over the input |
| ProducerRun.SendRun | integrations/pg-mdm/bounded_refresh_producer.py:346-542 | Threads and database together: for every successful interleaving, batch size and database, a run that completes leaves the pinned server's table equal to one transaction over the whole input, after one refresh for each batch |
| AdmissionReader.LineLength | integrations/pg-mdm/bounded_refresh_producer.py:157-159 | The first line ends at the first newline, or at the end of input |
| AdmissionReader.LinesPartition | integrations/pg-mdm/bounded_refresh_producer.py:154-159 | The reference splitting loses no byte and splits at every newline |
| AdmissionReader.CutLinesAreTooLong | integrations/pg-mdm/bounded_refresh_producer.py:116-157 | A piece cut from a longer line is rejected with the error of the whole line, so no line becomes two records |
| AdmissionReader.ChunkIsLine | integrations/pg-mdm/bounded_refresh_producer.py:156-170 | Reading one chunk advances plain line splitting by one line, or fails as it does |
| AdmissionReader.LoadAdmissions | integrations/pg-mdm/bounded_refresh_producer.py:148-171 | The chunked reader returns the same admissions or the same error as line splitting, for every input and limit |
| AdmissionReader.LoadLinesExact | integrations/pg-mdm/bounded_refresh_producer.py:156-171 | The remaining lines are accepted exactly when each is and the totals hold, and then all non-blank lines load in order |
| AdmissionReader.AcceptsExactly | integrations/pg-mdm/bounded_refresh_producer.py:148-171 | A file is accepted exactly when its size, each payload and the admission count are within their limits |
| AdmissionReader.PayloadExact | integrations/pg-mdm/bounded_refresh_producer.py:117-119 | A line's text is the line without the longest of the four endings that it has: none, a newline, a carriage return, or both |
| AdmissionReader.EndingsDoNotMatter | integrations/pg-mdm/bounded_refresh_producer.py:117-119 | A text that ends in neither is read the same without an ending and with each of them |
| AdmissionReader.LinesAreUnique | integrations/pg-mdm/bounded_refresh_producer.py:154-159 | There is one way to cut a file after each newline |
| AdmissionReader.AcceptsTexts | integrations/pg-mdm/bounded_refresh_producer.py:148-171 | A file gives certain admissions exactly when it falls into lines that read as texts, blank or with these admissions in order, within the limits |
| AdmissionReader.RejectsFirstOffence | integrations/pg-mdm/bounded_refresh_producer.py:148-171 | Otherwise the error is that of the first line which breaks a limit or does not read, with its number |
| ShadowCoverage.ReadRows | tests/integrations/pg-mdm/derive_v050_qualification.py:269-304 | Collects the keys of all rows, in order, exactly when every row is well formed |
| ShadowCoverage.DisjointStep | tests/integrations/pg-mdm/derive_v050_qualification.py:313-316 | One intersection test with everything seen so far decides pairwise disjointness |
| ShadowCoverage.AcceptOne | tests/integrations/pg-mdm/derive_v050_qualification.py:267-317 | A result that passes extends the partition by its members, with one new row for each |
| ShadowCoverage.RejectOne | tests/integrations/pg-mdm/derive_v050_qualification.py:252-315 | A result that fails any check rules out the partition, whatever follows it |
| ShadowCoverage.CheckCoverage | tests/integrations/pg-mdm/derive_v050_qualification.py:236-319 | Accepts exactly the partitions of the frozen keys at one instant; on every return the count is that of the rows of the accepted prefix and of the rejected result if all its rows are readable, and duplicates is that count minus the distinct rows among them |
| ShadowCoverage.ValidShadowCoverage | tests/integrations/pg-mdm/derive_v050_qualification.py:236-319 | The same with the actual checks |
| ShadowCoverage.AcceptedCounts | tests/integrations/pg-mdm/derive_v050_qualification.py:317-319 | On acceptance the counted rows are the frozen keys, one row for each |
| ShadowCoverage.AcceptedKeyIsCoveredOnce | tests/integrations/pg-mdm/derive_v050_qualification.py:305-319 | On acceptance every frozen key lies in exactly one result and has exactly one row there |
| ShadowSchemas.RowExact | tests/integrations/pg-mdm/derive_v050_qualification.py:271-303 | A row is accepted exactly when both sides have all their members of the right kinds, the key is in range, and `changed` says whether the sides differ |
| ShadowSchemas.HeaderExact | tests/integrations/pg-mdm/derive_v050_qualification.py:247-264 | A preview's header is accepted exactly when it is complete, read-only, timed, of this population, and of two of the record's revisions |
| ShadowSchemas.PreviewExact | tests/integrations/pg-mdm/derive_v050_qualification.py:246-315 | A preview is accepted exactly when header and rows are, and it has one row for each member, no other row, and the right counts |
| ShadowSchemas.PopulationExact | tests/integrations/pg-mdm/derive_v050_qualification.py:236-319 | A coverage manifest is accepted exactly when its previews are of one instant, every frozen key is a member of exactly one, and no other key of any |
| Json.EqualIsNotAbove | tests/integrations/pg-mdm/derive_v050_qualification.py:943-963 | Python's == on finite JSON numbers, whatever their types, is its <= both ways |
| Json.PyEqualExact | tests/integrations/pg-mdm/derive_v050_qualification.py:292-292 | Python's == compares canonical forms, in which all numbers are floats; a NaN by itself equals nothing |
| Json.AllFiniteExact | tests/integrations/pg-mdm/derive_v050_qualification.py:401-408 | `json.dumps` without NaN succeeds exactly when no path into the value leads to a NaN or an infinity |
| OperatingRun.ReadScenarios | tests/integrations/pg-mdm/derive_v050_qualification.py:488-512 | Returns the recovery times exactly when all eight scenarios are complete |
| OperatingRun.ValidOperatingRun | tests/integrations/pg-mdm/derive_v050_qualification.py:463-546 | Accepts exactly the runs that are bound to the record, timed, complete and consistent in their recovery time |
| ReportSchemas.RunExact | tests/integrations/pg-mdm/derive_v050_qualification.py:463-546 | A run report is accepted exactly when it is whole: bound to the record, timed, neither truncated nor safety-degraded, with the eight scenarios and every counter of each, a complete summary whose recovery is the longer of the two measured, and unavailable metrics that are named once, with a reason, and are none of those measured |
| OperatingRun.OrderStep | tests/integrations/pg-mdm/derive_v050_qualification.py:639 | Comparing each stage with the one before it orders all stages |
| OperatingRun.StagesInOrder | tests/integrations/pg-mdm/derive_v050_qualification.py:622-701 | The walk with `previous_end` accepts exactly when every stage passes and no two stages overlap |
| OperatingRun.ValidStagedEnablement | tests/integrations/pg-mdm/derive_v050_qualification.py:573-701 | Accepts exactly the reports bound to the record whose five stages pass in order |
| ReportSchemas.EnabledExact | tests/integrations/pg-mdm/derive_v050_qualification.py:573-701 | A stage report is accepted exactly when it is bound to the record and its five stages each state what that stage must, in turn |
| ReportSchemas.RetainedExact | tests/integrations/pg-mdm/derive_v050_qualification.py:167-191 | A reference is verified exactly when it states path and digest of a file that is there |
| ApprovalSchemas.OwnerReviewedExact | tests/integrations/pg-mdm/derive_v050_qualification.py:367-398 | The owner's approval is valid exactly when its retained report states this workload, owner, time, membership, package, coverage, revisions, exceptions and the seven reviewed sections |
| ApprovalSchemas.ThresholdsApprovedExact | tests/integrations/pg-mdm/derive_v050_qualification.py:549-570 | A threshold approval is valid exactly when its retained report states role, approver, time, baseline and these thresholds |
| ApprovalSchemas.SignedOffExact | tests/integrations/pg-mdm/derive_v050_qualification.py:426-460 | A final sign-off is valid exactly when its retained report says go for this role, approver, time, tuple, workload, membership, package and sealed evidence, and all other gates passed |
| ApprovalSchemas.FrozenExact | tests/integrations/pg-mdm/derive_v050_qualification.py:748-778 | The frozen membership is that of a retained file with a population and distinct case keys in ascending order |
| ReleaseRecord.ValidateReleaseRecord | tests/integrations/pg-mdm/derive_v050_qualification.py:704-1019 | Lists exactly the required fields that are absent, and complains about exactly the fields with a failing condition, all 23 groups of them, over the runs and counts that the evidence files hold |
| RecordPaths.MissingExact | tests/integrations/pg-mdm/derive_v050_qualification.py:704-708 | A field is listed as missing exactly when it is one of the 35 required and its dotted path leads to nothing or to something empty |
| Demands.ComplaintsAreUnmet | tests/integrations/pg-mdm/derive_v050_qualification.py:709-1019 | The complaints are exactly the subjects of the demands not met, each demand stated by the schemas and by what the retained files hold; there are none exactly when all demands are met |
| Qualification.CheckArtifact | tests/integrations/pg-mdm/derive_v050_qualification.py:1040-1066 | Lists exactly the fields that are absent and exactly those that are malformed; nothing exactly when the artifact tuple is complete and well formed |
| Qualification.GateMapHolds | tests/integrations/pg-mdm/derive_v050_qualification.py:1072-1081 | A gate is in the map exactly when the list holds one with its id, and the map holds such a gate |
| Qualification.ReadGates | tests/integrations/pg-mdm/derive_v050_qualification.py:1072-1090 | No error exactly when all gates are well formed, known and distinct; fails exactly on a status that cannot be hashed |
| Qualification.FindBlocking | tests/integrations/pg-mdm/derive_v050_qualification.py:1092-1105 | Blocks exactly the required gates that are absent, not passed or without retained evidence; evidence errors never come alone |
| Qualification.BlockForRecord | tests/integrations/pg-mdm/derive_v050_qualification.py:1115-1126 | Blocks exactly the gates blocked before and those that a missing or invalid field touches |
| Qualification.Derive | tests/integrations/pg-mdm/derive_v050_qualification.py:1022-1145 | Qualifies exactly the manifests that meet every condition; lists exactly the missing and the malformed artifact fields, exactly the missing and the invalid record fields and exactly the gates that are not open or touched by them; raises exactly on an unhashable status |
| ReleaseFacts.TupleExact | tests/integrations/pg-mdm/derive_v050_qualification.py:1040-1066 | The artifact tuple is accepted exactly when each of its 21 names states what it must: eight digests of 64 and three commits of 40 lower-case hexadecimal digits, two non-empty objects, the owner `pg-react`, texts elsewhere |
| ReleaseFacts.ManifestExact | tests/integrations/pg-mdm/derive_v050_qualification.py:1036-1111 | Everything but the record is accepted exactly when the header is this release's, the tuple is whole, and the gate list is R1 to R8 and C01 to C12, each once, required and passed on retained evidence |
| ReleaseFacts.RecordExact | tests/integrations/pg-mdm/derive_v050_qualification.py:704-1019 | The record is accepted exactly when no required path is empty and every demand is met; with `ManifestExact` this is when a manifest qualifies |
| ReleaseFacts.EnvelopeBlocks | tests/integrations/pg-mdm/derive_v050_qualification.py:1115-1119 | A required field blocks R6 exactly when its path begins in the operating envelope |
| ReleaseFacts.SignoffsBlock | tests/integrations/pg-mdm/derive_v050_qualification.py:1124-1126 | A required field blocks R8 exactly when its path begins among the final sign-offs |
| QualificationTheorems.GlobalTimeOrder | tests/integrations/pg-mdm/derive_v050_qualification.py:463-995 | A qualified release has one time order: baseline run, threshold approvals, final run; review, routing, escalation, supported profile; the last two coincide with the observation window, and three different people sign after it |
| QualificationTheorems.GateListIsComplete | tests/integrations/pg-mdm/derive_v050_qualification.py:1068-1105 | A qualified manifest lists the 20 gates, each once, all passed on retained evidence |
| QualificationTheorems.PopulationIsPartitioned | tests/integrations/pg-mdm/derive_v050_qualification.py:748-828 | An accepted record's coverage partitions its frozen population and all its counts are that population's size |
| QualificationTheorems.OneSubject | tests/integrations/pg-mdm/derive_v050_qualification.py:866-1017 | Both runs, the stage report and all three sign-offs of an accepted record are retained and name one workload, one retained membership by its digest, and one artifact tuple |
| QualificationTheorems.EnvelopeIsApproved | tests/integrations/pg-mdm/derive_v050_qualification.py:876-963 | The six limits of an accepted record are finite numbers and not negative, and the final run keeps each of them, in the recovery times of both its recovering scenarios too; it keeps them just as they stand in the two approvals' reports, which are retained and are about the baseline run's digest |
| ReleaseFacts.QualifiedRuns | tests/integrations/pg-mdm/derive_v050_qualification.py:463-546 | Both runs of every qualified manifest, as read from its evidence, are whole, not truncated, not safety-degraded, and state the digest of its artifact tuple |
| QualificationTheorems.SealBinds | tests/integrations/pg-mdm/derive_v050_qualification.py:401-1000 | Two qualified manifests on the same sign-offs agree on everything sealed, if it holds no NaN or infinity and no other finite value has its digest |
| QualificationTheorems.SealBindsFiles | tests/integrations/pg-mdm/derive_v050_qualification.py:163-204 | The same for two decisions between which evidence files were changed: the sealed content still agrees if the sign-off report's digest is unique, and every reference that verifies both times is to the same report as far as its digest is unique |
| QualificationTheorems.SealedAgree | tests/integrations/pg-mdm/derive_v050_qualification.py:411-423 | Agreeing on what is sealed means agreeing on the artifact tuple, every record field but the sign-offs, and status and evidence of every gate but R8 |
| ReleaseFacts.SealedExact | tests/integrations/pg-mdm/derive_v050_qualification.py:411-423 | Two manifests seal the same exactly when they agree on the artifact tuple, on every member of the record but the sign-offs, and on status and evidence of every gate but R8 |
| ReleaseFacts.PrerequisitesExact | tests/integrations/pg-mdm/derive_v050_qualification.py:437-440 | The prerequisites have passed exactly when every gate but R8 has |
| QualificationTheorems.UnsealableAcceptsChange | tests/integrations/pg-mdm/derive_v050_qualification.py:401-456 | Any qualified manifest with a non-finite number inside has a different qualified manifest on the same sign-offs |
| QualificationTheorems.SealBindsExactly | tests/integrations/pg-mdm/derive_v050_qualification.py:401-460 | The sign-offs bind the sealed content exactly when it holds no NaN and no infinity; uniqueness of the digest is asked only of finite content |
| ExampleRelease.ExampleQualifies | tests/integrations/pg-mdm/derive_v050_qualification.py:1022-1145 | For every JSON value there is a world and a manifest, with that value as an extra member of its thresholds, that qualifies |
| ExampleRelease.ExampleIsSealable | tests/integrations/pg-mdm/derive_v050_qualification.py:401-456 | What this manifest seals is finite exactly when the value is, and then its digest is unique in this world; so both sides of `SealBindsExactly` occur |
| Lifecycle.PlanFollowsHistory | src/lifecycle.rs:25-55 | The planner turns the state after a history into the state after one more match set, until the generation overflows |
| Lifecycle.ReplayStep | src/lifecycle.rs:41-53 | The events of one application turn the old active set into the new one |
| Lifecycle.WalkOne | src/oracle.rs:25-33 | Handling one more key keeps handled keys at their new state and all others at their old one |
| Lifecycle.ReferenceOracle.ApplyFinalMatches | src/oracle.rs:14-35 | One transition for each known or matching key, in key order, each the planner's; the states and the event log stay those of the whole history; it fails exactly when some generation overflows |
| Lifecycle.ReferenceOracle.ActiveKeys | src/oracle.rs:37-42 | The active keys are the last match set |
| Lifecycle.EventsAlternate | src/lifecycle.rs:26-53 | The activations and deactivations that a history means for a key alternate, beginning with an activation, two for every generation but an open one |
| Lifecycle.EmittedEventsAlternate | src/lifecycle.rs:26-53 | So do the events that the log of a consistent oracle, which every application keeps, actually holds for the key |
| Lifecycle.ReapplyIsNoop | src/lifecycle.rs:49-53 | Applying the same match set again emits only no-ops |
| Lifecycle.EdgesBound | src/lifecycle.rs:28-31 | A key's generation is at most half the applications, rounded up, so only an astronomic history overflows it |
| Lifecycle.OverflowIsFar | src/lifecycle.rs:27-31 | An overflow takes at least 2^65 - 2 applications |
| Identity.BigEndianRoundTrip | src/identity.rs:24-47 | Reading a big-endian field back gives the number modulo the field's range |
| Identity.EncodeBigintV1 | src/identity.rs:21-27 | Fourteen bytes: version, tag, the length 8 big-endian, and eight bytes that read back as the number |
| Identity.SqlParityKey | src/identity.rs:15 | The encoding of 42 is the key that the SQL side computes |
| Identity.MinusOne | src/identity.rs:20-27 | The encoding of minus one ends in eight bytes of ones |
| Identity.TupleVector | src/identity.rs:36-51 | The encoding of a text, an identifier and a number, byte by byte, tags and order included |
| Identity.EncodeTupleV2 | src/identity.rs:37-51 | Encodes exactly the tuples of 1 to 255 values, as version, arity and tagged length-prefixed values |
| Identity.DecodeEncodedScalar | src/identity.rs:41-48 | A tagged value decodes to itself and leaves what follows it |
| Identity.TupleRoundTrip | src/identity.rs:37-51 | A decoder undoes the tuple codec exactly when every text is shorter than 2^32 bytes |
| Identity.LongTextsCollide | src/identity.rs:47 | Beyond that two different tuples can share an encoding |
| Identity.PrefixFree | src/identity.rs:21-51 | No encoding of either version is a prefix of another, so none equals another |
| Identity.HashInputInjective | src/identity.rs:69-71 | The hash input determines rule version and key across both codecs |
| Identity.StampedBits | src/identity.rs:74-75 | The two mask assignments set version and variant and leave the other bits of each byte |
| Identity.ActivationIdentityForCanonical | src/identity.rs:65-81 | The identifier carries version 8 and the RFC 9562 variant and otherwise the digest's first bits |
| Identity.StampIdentifies | src/identity.rs:73-75 | Two digests give one identifier exactly when their other 122 prefix bits agree |
| Identity.SqlParityIdentifier | src/identity.rs:16-18 | The digest that the SQL side computes for the nil rule version and 42 gives its identifier, and no other |

## Left out

- PostgreSQL itself: SPI, relation opening and locks, raw and null pointers inside parse-tree lists, stack-depth checks. Catalog lookups are a map from view to stored query; whether an operator is hash-joinable is part of the expression.
- The `key_wrappers` shortcut of `view_key_is_direct` and `view_key_uses_operator` with its helpers, a single chain without search.
- LineageSemantics.LineageSound: covers select, project and inner join with WHERE, CTEs of distinct names, and views that reflect their stored query, so materialized views that have been refreshed; SureLineageSound adds queries with outer joins, and JoinTypeDecides shows where these break soundness. Set operations and grouping are excluded because only the target list is consulted.
- Independence.NoOccurrenceNoInfluence: covers queries whose join tree uses only entries of FROM, as PostgreSQL builds them, and whose CTEs have distinct names. Expressions other than variables are uninterpreted, so a query nested in one is not evaluated; the occurrence count itself does count it.
- LineageSemantics.SureLineageSound: sure steps are sufficient in general and proved necessary only for the two-way join without WHERE; with one they are not necessary (SureIsNotNecessary).
- LineageSemantics.QualSound: a true hash-joinable operator is taken to equate its arguments; operators that accept distinguishable values (numeric scale, case-insensitive collations) are not modelled.
- Lineage.DirectVariable: join aliases refer to range-table entries made before the join's own, as PostgreSQL builds them; without that the recursion of the source would not end either.
- psql, CSV, temporary files, JSON text, UTF-8 decoding, blank-line and row-shape tests, wall clocks and printed values. The producer's clock is exact and a database call is one step of an adversary: it may answer, garble, drop the connection, time out, fail or be killed, and commit late.
- RefreshProducer.Producer.RunBatches: transaction identifiers are distinct and increasing, as the server assigns them; the content of `mdm.refresh` is only the source table it saw. A failing print inside the loop is a step of Pipeline, not of this class.
- Pipeline.SuccessfulRun: a flush is one step that succeeds, fails or is interrupted, because RefreshProducer models it; an interrupt that arrives after the consumer has left its main block is not modelled, nor are the pacing delays and the limits on queue, batch and run, which are parameters.
- Evidence files: paths, directories, file reading and parsing are one abstract map from reference to content.
- Qualification.Derive: the errors of `json.loads` that `_read_json_evidence` does not catch, a `RecursionError` on deep nesting and the `ValueError` on integers of too many digits, are not modelled; nor is the wording of manifest errors.
- ReleaseRecord.ValidateReleaseRecord: the wording of complaints beyond their field and kind, their order and the removal of repeated ones are not modelled; the field and kind are all that the decision reads.
- QualificationTheorems.SealBinds: the digest is abstract, so that no other finite value has the sealed value's digest is a hypothesis; ExampleIsSealable shows a world that meets it. SealBindsFiles has the same hypothesis on the contents of evidence files.
- Json: a float is an exact binary fraction, NaN or an infinity; negative zero and the bounds of the exponent are not modelled.
- Argument parsing and exit codes of the command-line entry points.
- The SQL extension itself (agenda, claims, leases, temporal rules, intents), `src/managed.rs` and the test drivers.
