# Verified models of the RegulaGraph core

This project models the parts of the pipeline whose correctness does not show from reading one
function: the native batch scheduler and inference service, the incremental update planner, the
content-addressed artifact store, the document batch assembler with its page, structure and
identity checks, UTF-8 span validation in three languages, the generated lexical tables and the
lexical analyzer, the index finalisation, and the evaluation arithmetic.  `dafny verify
dfyconfig.toml` checks everything.

How the parts are modelled:

- **Scheduler.**  `Scheduling` says what the scheduler means on two FIFO queues and proves its laws
  over whole runs; `Batching` is the scheduler as a class with its two lists, two deadline multimaps
  and the pending map, whose iterators are node handles, proved to implement that meaning.
- **Inference service.**  A state machine: one step is one critical section, one promise or one
  flag, so a run is any interleaving of RPC threads, worker, caller cancellation and shutdown.
  `Service` has the state and the lane operations, `ServiceRuns` the steps and the theorems over all
  runs, `ServiceAnswers` the cause of every answer, `Splitting` the padded-token split and `Admission`
  the call counters.
- **Planner.**  `Snapshots` and `Indexing` accept and index a snapshot, `Planner` searches,
  `PlanOrder` shows that the order of the input is irrelevant.  A snapshot means a map from identity
  to digest; a *cone* is an item with everything it depends on, unfolded to any depth.
- **Store.**  `Artifacts` has names and descriptors, `Store` the interleaved writers, input/output
  errors, process crashes and reuse of process numbers.  The digest is a parameter.
- **Document batch.**  `Namespaces` (identities), `Pages` (page spans and the pages of a chunk),
  `Structures` (parent and child links, ancestors), `Batches` (closure, page issues, completeness,
  assembly, validation) and `Provenance` (the evidence of a chunk in a validated, complete batch).
  The records that only carry references are one datatype holding the references their fields make.
- **Text.**  `Utf8`, `LexicalTables`, `Analyzer`.
- **Index.**  `IndexJoin` (vectors to records) and `IndexChecksum` (the hashed bytes).
- **Evaluation.**  `Ranking`, `Percentiles`, `Gates`; numbers are reals, samples may be infinite.
- **Shared.**  `Wrappers` (options) and `Decimals` (numbers as text).

Clocks are inputs that never go back; hash functions, Unicode data, wire validation of single
records, vector checks and discounts are parameters.  Lemmas switch automatic induction off;
many small ones only name an unfolding step for the larger proofs.

The comment at `src/inference/src/service.cpp:201` promises at least six of eight call slots to query
traffic, and the code keeps it: `Admission.SixSlotsForQueries`.  What does not hold is that a call is
refused only when eight calls are admitted, because a call that is being refused raises the counter
for a moment.  `Admission.RefusedEarlyExactlyWhen` says exactly when that happens,
`Admission.RefusedOnlyWhenFull` that it cannot happen while no call is being refused, and
`Admission.RefusedWithNobodyAdmitted` gives its extreme: a run in which a query is refused although no
call at all is admitted.

## Model

| member | source | states |
|---|---|---|
| `Scheduling.ApplyKeeps` | src/inference/src/batching.cpp:53-166 | every operation keeps distinct identities, capacities, item limits, the streak bound and arrival order |
| `Scheduling.RunKeeps` | src/inference/src/batching.cpp:53-166 | the same over every run under a non-decreasing clock |
| `Scheduling.RunConserves` | src/inference/src/batching.cpp:53-166 | over any run, accepted items and those held at the start are exactly those pending, selected, expired and cancelled |
| `Scheduling.SelectedIsMaximalPrefix` | src/inference/src/batching.cpp:130-166 | a batch is a non-empty, unexpired, single-class FIFO prefix of a ready queue within both limits, as long as they allow, and exists whenever a queue is ready after expiry |
| `Scheduling.QueryGoesFirst` | src/inference/src/batching.cpp:130-166 | query work that presses goes first unless bulk presses too and query has had its full run of batches; then bulk; otherwise nothing leaves; the rest of both queues and the count of the run follow |
| `Scheduling.BulkTakesItsTurn` | src/inference/src/batching.cpp:138-164 | between two bulk batches, while query presses throughout, at least the maximum number of query batches is taken, and exactly that many if bulk presses too |
| `Scheduling.ReadyIsPressing` | src/inference/src/batching.cpp:119-128 | a queue is ready exactly when it fills a batch or some entry, not only the first, has waited its time or is about to expire |
| `Scheduling.EnqueueDecides` | src/inference/src/batching.cpp:53-87 | an item enters at the end exactly when it is well formed, not late, not queued already and its queue has room after expiry; the status names the first condition broken |
| `Scheduling.NextProgressesIffReady` | src/inference/src/batching.cpp:119-166 | Next selects or expires something exactly when some queue is ready |
| `Scheduling.BulkIsNotStarved` | src/inference/src/batching.cpp:119-166 | a waiting bulk item with p ahead leaves the queue within (p+1)(K+1) calls of Next, whatever query traffic arrives |
| `Scheduling.TakeCount` | src/inference/src/batching.cpp:143-157 | the number of entries taken is the longest prefix within the item and token budgets |
| `Batching.BatchScheduler.Open` | src/inference/src/batching.cpp:45-51 | construction is refused unless every limit is positive, and starts empty and consistent |
| `Batching.BatchScheduler.Enqueue` | src/inference/src/batching.cpp:53-87 | status, new queues and reported expiries are those of the specification; queue, deadline multimap and pending map stay in bijection |
| `Batching.BatchScheduler.Cancel` | src/inference/src/batching.cpp:89-100 | returns whether the item was pending and removes exactly it from all three structures |
| `Batching.BatchScheduler.Remove` | src/inference/src/batching.cpp:94-98 | erases one item through its locator from queue, deadlines and pending map |
| `Batching.BatchScheduler.ExpireClass` | src/inference/src/batching.cpp:102-117 | removes exactly the due items of one class in deadline order; the abort on a missing locator is unreachable |
| `Batching.BatchScheduler.Expire` | src/inference/src/batching.cpp:102-117 | removes exactly the items with deadline not after now, query before bulk, each in deadline order |
| `Batching.BatchScheduler.Next` | src/inference/src/batching.cpp:130-166 | items, class, expiries and new queues are those whose laws QueryGoesFirst and SelectedIsMaximalPrefix state |
| `Batching.BatchScheduler.TakeBatch` | src/inference/src/batching.cpp:143-157 | the dispatch loop takes exactly the specified prefix; its abort is unreachable |
| `Batching.BatchScheduler.Pop` | src/inference/src/batching.cpp:149-156 | pops the front of a queue and unlinks it everywhere |
| `Batching.BatchScheduler.CountBatch` | src/inference/src/batching.cpp:158-164 | the streak of query batches saturates and is reset by a bulk batch |
| `Batching.BatchScheduler.NextWakeup` | src/inference/src/batching.cpp:168-189 | exact: some queue is ready at t if and only if a wakeup exists and t is not before it |
| `Batching.BatchScheduler.ConsiderClassIsExact` | src/inference/src/batching.cpp:119-189 | one class's candidates make the wakeup due exactly when its queue is ready |
| `Batching.FirstDeadlineIsLeast` | src/inference/src/batching.cpp:119-128 | the first entry of the multimap is the least deadline in the queue |
| `Batching.Unlink` | src/inference/src/batching.cpp:89-100 | erasing through the locators keeps all three structures in step and is a cancellation of the queues |
| `Batching.Link` | src/inference/src/batching.cpp:78-86 | the three insertions keep the structures in step and append to the queue |
| `Batching.ExpireFirst` | src/inference/src/batching.cpp:106-115 | the first deadline has a locator and names the queue entry with the least deadline |
| `Batching.PopFront` | src/inference/src/batching.cpp:144-157 | the front of the queue has a locator that points to it |
| `Splitting.SegmentEnd` | src/inference/src/service.cpp:143-144 | the segment fits the padded budget and could not take one input more |
| `Splitting.Split` | src/inference/src/service.cpp:141-146 | the segments partition the sorted batch, each fitting and full |
| `Splitting.FewestRuns` | src/inference/src/service.cpp:139-146 | no grouping of the inputs whatsoever, contiguous or not, uses fewer runs |
| `Splitting.SegmentIsAffordable` | src/inference/src/service.cpp:139-146 | the segments are themselves such groups, so the bound is attained |
| `Splitting.QuotientTest` | src/inference/src/service.cpp:144 | the division in the test means count times length within the budget |
| `Splitting.RunNeverRejects` | src/inference/src/runtime.cpp:180-184 | whatever items of a segment were dropped, the rest pass every size check of Run |
| `Service.AnswerKeeps` | src/inference/src/service.cpp:92-96 | taking tickets out of a lane and answering them keeps promises, bytes and maps in order |
| `Service.ExpireLaneKeeps` | src/inference/src/service.cpp:92-96 | Impl::Expire on what the scheduler expired keeps them too; the unknown-ticket branch is unreachable |
| `Service.SweepLaneKeeps` | src/inference/src/service.cpp:124-128 | so does removing the cancelled items |
| `Service.SweepIsCancels` | src/inference/src/service.cpp:124-128 | one Cancel after another, in any order, is one sweep |
| `Service.SortSorts` | src/inference/src/service.cpp:140 | sorting permutes the batch and orders it by length |
| `Service.PickLaneKeeps` | src/inference/src/service.cpp:129-134 | moving a picked batch to the worker keeps every account |
| `Service.VerdictIsCapacityOrDeadline` | src/inference/src/service.cpp:101-107 | a ticket is always valid and new, so only a full queue or a reached deadline refuses an item |
| `Service.EnqueueWorkKeeps` | src/inference/src/service.cpp:97-109 | Impl::Enqueue keeps promises, byte budget and lane maps in order |
| `ServiceRuns.StepKeeps` | src/inference/src/service.cpp:83-194 | every step of every thread keeps the invariant |
| `ServiceRuns.RunKeeps` | src/inference/src/service.cpp:83-194 | so does every interleaving |
| `ServiceRuns.ExactlyOnce` | src/inference/src/service.cpp:92-194 | every promise is set at most once, is unset exactly while someone still owes it, and is set exactly once when the worker has left and no caller prepares an item |
| `ServiceRuns.AnswersAreFinal` | src/inference/src/service.cpp:92-194 | an answer once given is never replaced |
| `ServiceRuns.BudgetIsExact` | src/inference/src/service.cpp:92-134 | pending bytes are always the bytes of all queued items, between zero and the limit |
| `ServiceRuns.MapsAgree` | src/inference/src/service.cpp:92-134 | each lane's item map has exactly the scheduler's tickets, one item per ticket, no item in two lanes; items.at never throws |
| `ServiceRuns.PreparedKeeps` | src/inference/src/service.cpp:121-132 | after sweeping and expiring, every picked ticket is in the item map |
| `ServiceRuns.RunsAreAccepted` | src/inference/src/service.cpp:149-172 | whenever the worker runs the model, the inputs pass all size checks |
| `ServiceRuns.OfferIsEnqueue` | src/inference/src/service.cpp:97-109 | what the critical section does to the queues is the scheduler's Enqueue |
| `ServiceRuns.ScanIsNext` | src/inference/src/service.cpp:121-134 | what the scan does to a lane is a cancel of every cancelled ticket followed by Next |
| `ServiceRuns.LanesTakeTurns` | src/inference/src/service.cpp:121-134 | in any run in which a lane is ready whenever it is scanned and yet is not served, fewer batches than there are lanes are taken |
| `ServiceRuns.FaultsAreContained` | src/inference/src/service.cpp:149-183 | after an engine fault no model runs again and the runtime stays unhealthy |
| `ServiceRuns.WorkerCanStep` | src/inference/src/service.cpp:110-194 | until it has left the worker can always take a step |
| `ServiceRuns.ShutdownIsBounded` | src/inference/src/service.cpp:83-120 | once stopping, the worker takes a bounded number of steps, whatever the callers do, and then has exited |
| `ServiceAnswers.RunAssigns` | src/inference/src/service.cpp:92-194 | over any run an answer is settled exactly by a step that causes it, and stays settled |
| `ServiceAnswers.AnswersAreCaused` | src/inference/src/service.cpp:92-194 | the answer a caller gets is the one a step of the run caused: its own result read in time, its deadline, its cancellation, a stop, a fault, a full queue or byte budget at its offer, or a rejected text; and every cause becomes the answer |
| `ServiceAnswers.ReadingIsAnswer` | src/inference/src/service.cpp:170-188 | an item read from a completed execution is answered with its own result if neither cancelled nor late at that moment, and otherwise told which, whatever happens later |
| `ServiceAnswers.OfferVerdict` | src/inference/src/service.cpp:97-109 | an offered item is refused exactly when its deadline is reached or the 128 query or 256 bulk places are taken by unexpired items |
| `ServiceAnswers.RejectedWasNeverOffered` | src/inference/src/service.cpp:218-223 | an item told that its text was rejected has never been offered to a queue |
| `ServiceAnswers.AnswersAreDeserved` | src/inference/src/service.cpp:92-194 | deadline, cancelled, unavailable and internal answers are given only when deadline, cancellation or shutdown, and health justify them; a result is the item's own; every queue entry describes its own work item |
| `ServiceAnswers.GoneIsDue` | src/inference/src/service.cpp:92-96 | what expiry takes out of a lane has reached its own deadline |
| `ServiceAnswers.DueIsGone` | src/inference/src/service.cpp:92-96 | and everything that has reached it is taken out |
| `Admission.StepKeeps` | src/inference/src/service.cpp:202-208 | every atomic access of every call keeps the counters exact and the holders bounded |
| `Admission.AdmissionIsBounded` | src/inference/src/service.cpp:202-208 | in every interleaving at most eight calls are admitted, at most two of them bulk, and the counters return to zero |
| `Admission.RefusedExactlyWhen` | src/inference/src/service.cpp:201-207 | a call is refused exactly when admitted calls and calls being refused are together eight or more |
| `Admission.SixSlotsForQueries` | src/inference/src/service.cpp:201-207 | bulk calls never account for more than two counts, and a refused call finds at least six queries counted |
| `Admission.RefusedOnlyWhenFull` | src/inference/src/service.cpp:201-207 | while no call is being refused, a call is refused exactly when eight are admitted, at least six of them queries |
| `Admission.RefusedEarlyExactlyWhen` | src/inference/src/service.cpp:201-207 | a call is refused with fewer than eight admitted exactly when the calls being refused make up the difference |
| `Admission.RefusedWithNobodyAdmitted` | src/inference/src/service.cpp:201-207 | a reachable run in which a query is refused although no call is admitted |
| `Decimals.DecimalInjective` | src/inference/src/service.cpp:101 | different tickets have different texts |
| `Decimals.DecimalLength64` | src/inference/src/service.cpp:101 | a 64-bit ticket has at most twenty digits |
| `Snapshots.ValidateItem` | src/ingestion/src/document/change_detection.rs:434-481 | accepts exactly the valid items and blames something that is so |
| `Snapshots.ValidateDeps` | src/ingestion/src/document/change_detection.rs:450-467 | valid, distinct dependencies |
| `Snapshots.ValidateLookups` | src/ingestion/src/document/change_detection.rs:468-479 | valid, distinct lookup scopes |
| `Snapshots.SameEntriesIsMapEquality` | src/ingestion/src/document/change_detection.rs:497-526 | the one-sided comparison decides whether two lists mean the same map |
| `Indexing.IndexStates` | src/ingestion/src/document/change_detection.rs:364-432 | accepts exactly the well-formed snapshots within the edge limit, indexes them completely, and justifies its error |
| `Indexing.Absorb` | src/ingestion/src/document/change_detection.rs:390-413 | inserting fingerprints or revisions refuses exactly a contradiction |
| `Indexing.CheckLocal` | src/ingestion/src/document/change_detection.rs:415-427 | a dependency on a local item must carry its content hash |
| `Indexing.JustifiedRefutes` | src/ingestion/src/document/change_detection.rs:364-432 | every error is deserved |
| `Indexing.Preflight` | src/ingestion/src/document/change_detection.rs:343-362 | accepts exactly the pairs of snapshots within the edge limit |
| `Planner.DirectChanges` | src/ingestion/src/document/change_detection.rs:225-252 | finds exactly the direct changes and the reasons that ChangeIsBecause states, or that an item changed its kind |
| `Planner.ChangeIsFound` | src/ingestion/src/document/change_detection.rs:233-251 | the three-way match and changed_reason give the difference of the digests |
| `Planner.ChangeIsBecause` | src/ingestion/src/document/change_detection.rs:483-495 | the reason is the first of added, removed, content, producer, dependencies and lookups in which the two items differ |
| `Planner.SourcesAreReported` | src/ingestion/src/document/change_detection.rs:295-308 | a source is reported exactly when it changed, with its content before and after and that reason |
| `Planner.Reverse` | src/ingestion/src/document/change_detection.rs:528-564 | lists exactly the consumers of known items over both snapshots, and cannot exceed the limit after the preflight |
| `Planner.AddConsumer` | src/ingestion/src/document/change_detection.rs:541-560 | enters one item under each known dependency |
| `Planner.AddIndex` | src/ingestion/src/document/change_detection.rs:541-560 | enters every item of a snapshot, in any order |
| `Planner.Close` | src/ingestion/src/document/change_detection.rs:255-265 | breadth-first search gives the least superset closed under the listed consumers |
| `Planner.Visit` | src/ingestion/src/document/change_detection.rs:257-265 | one pop adds exactly the consumers not seen before |
| `Planner.PlanUpdate` | src/ingestion/src/document/change_detection.rs:198-336 | there is a plan exactly for well-formed snapshots within the limits whose kinds agree; it is the plan of their meanings, reports every changed source of the two lists with its reason, and carries all current lookup revisions |
| `Planner.PlanPartitions` | src/ingestion/src/document/change_detection.rs:267-283 | current is the disjoint union of recompute and reuse, affected of recompute and removed |
| `Planner.ReviewExactly` | src/ingestion/src/document/change_detection.rs:284-293 | an item is in review if and only if it was removed or is current and names a removed item |
| `Planner.PlanIsDetermined` | src/ingestion/src/document/change_detection.rs:254-293 | two plans for the same snapshots are equal, whatever the order of the search |
| `PlanOrder.OrderIsIrrelevant` | src/ingestion/src/document/change_detection.rs:198-336 | rearranging the items of both snapshots, and the lists inside each item, changes neither acceptance nor the plan |
| `PlanOrder.RearrangedKeeps` | src/ingestion/src/document/change_detection.rs:364-432 | rearranging keeps the edge count, acceptance, meaning and lookup revisions of a snapshot |
| `PlanOrder.LookupsAreCurrent` | src/ingestion/src/document/change_detection.rs:585-600 | the revisions a plan carries are exactly those of the current items |
| `PlanOrder.EdgesAreListed` | src/ingestion/src/document/change_detection.rs:343-362 | the edges counted are the dependencies and lookups listed |
| `Planner.ReuseIsSound` | src/ingestion/src/document/change_detection.rs:254-283 | an item outside the affected set builds to the same result from both snapshots, for every build function and depth |
| `Planner.ReusedConesAgree` | src/ingestion/src/document/change_detection.rs:278-283 | every reused item has identical dependency cones in both snapshots |
| `Planner.PlanIsExact` | src/ingestion/src/document/change_detection.rs:225-283 | an item is affected if and only if its dependency cone differs: nothing is recomputed in vain |
| `Artifacts.TempInjective` | src/ingestion/src/adapters/storage.rs:223-225 | temporary names of different processes or sequence numbers differ |
| `Artifacts.TempIsNotKey` | src/ingestion/src/adapters/storage.rs:223-225 | a temporary name is never an artifact's |
| `Artifacts.KeyInjective` | src/ingestion/src/adapters/storage.rs:508-510 | different digests have different storage keys |
| `Artifacts.StorageKeyIsSafe` | src/ingestion/src/adapters/storage.rs:495-510 | a digest's storage key is a safe relative path of four ordinary parts |
| `Artifacts.DescriptorShape` | src/ingestion/src/adapters/storage.rs:473-493 | a descriptor is valid if and only if it is the one put_bytes writes for some valid metadata and digest |
| `Artifacts.JoinSplit` | src/ingestion/src/adapters/storage.rs:474-477 | joining the pieces of a split gives the text back |
| `Store.StepKeeps` | src/ingestion/src/adapters/storage.rs:180-254 | every step of every writer, crash or launch keeps the store addressed and every writer's temporary file its own |
| `Store.AdvanceKeeps` | src/ingestion/src/adapters/storage.rs:215-244 | the same for one step of a put, with any input/output error |
| `Store.RunKeeps` | src/ingestion/src/adapters/storage.rs:180-254 | over any run artifacts stay, and stored calls stay stored |
| `Store.StoreIsAddressed` | src/ingestion/src/adapters/storage.rs:180-254 | the file under a digest's key is absent or hashes to the digest |
| `Store.PutThenRead` | src/ingestion/src/adapters/storage.rs:180-312 | after a successful put, whatever follows, its descriptor is valid and read_verified returns its bytes, unless two requests of the run collide under the digest |
| `Store.ReadNeverLies` | src/ingestion/src/adapters/storage.rs:256-312 | over any run and with any descriptor, reading returns the file under the digest exactly when the descriptor is valid and the size right; what it returns was put by some call and has the digest |
| `Store.VerificationSucceeds` | src/ingestion/src/adapters/storage.rs:351-379 | verifying an artifact a writer has seen never fails on hash or size while no two requests of the run collide |
| `Store.PutSucceeds` | src/ingestion/src/adapters/storage.rs:180-254 | over any run without an input/output error of its own or a crash of its process, a put never fails and is stored after a bounded number of its own steps, whatever other writers do, while no two requests of the run collide |
| `Store.HoldsWhatWasPut` | src/ingestion/src/adapters/storage.rs:180-254 | a file under the key of a requested digest holds the requested bytes while no two requests of the run collide |
| `Namespaces.BatchIndexes.Insert` | src/ingestion/src/domain/document_batch.rs:443-451 | enters a record's identity unless it is taken anywhere |
| `Namespaces.BatchIndexes.InsertArtifact` | src/ingestion/src/domain/document_batch.rs:466-492 | enters an artifact unless it clashes with a record, a fingerprint or another artifact |
| `Namespaces.BatchIndexes.Build` | src/ingestion/src/domain/document_batch.rs:325-441 | accepts exactly the batches whose identities are in order, whatever their order |
| `Namespaces.NamespacesAreDisjoint` | src/ingestion/src/domain/document_batch.rs:443-492 | records are neither artifacts nor dependencies, and shared artifacts have the manifest's fingerprint |
| `Namespaces.ResolvesOneWay` | src/ingestion/src/domain/document_batch.rs:453-515 | a reference of any kind resolves if and only if it names exactly one record of the right kind, an artifact as it is, a text long enough, or something fingerprinted outside the batch |
| `Namespaces.AcceptableRepresents` | src/ingestion/src/domain/document_batch.rs:325-441 | the index of an accepted batch holds exactly its identities |
| `Pages.CheckPages` | src/ingestion/src/domain/document_batch.rs:559-613 | accepts exactly the artifacts whose pages are numbered, well formed and tile the text, within the edge limit |
| `Pages.CheckSpans` | src/ingestion/src/domain/document_batch.rs:586-599 | accepts exactly the spans that continue the text |
| `Pages.BytesAreCovered` | src/ingestion/src/domain/document_batch.rs:559-613 | every byte of the text lies in a span |
| `Pages.SpansAreDisjoint` | src/ingestion/src/domain/document_batch.rs:559-613 | and in no other |
| `Pages.PartitionPoint` | src/ingestion/src/domain/chunk_provenance.rs:183-187 | the binary search finds the first page that does not end before the chunk |
| `Pages.PageTests` | src/ingestion/src/domain/chunk_provenance.rs:182-202 | a page overlaps the chunk if and only if neither boundary test excludes it |
| `Pages.PageWindow` | src/ingestion/src/domain/chunk_provenance.rs:182-216 | the early-stopping scan keeps exactly the pages a full scan finds, a non-empty contiguous run covering the chunk |
| `Structures.IndexNodes` | src/ingestion/src/domain/document_batch.rs:384-399 | accepts exactly distinct nodes listed once, and records parents and listings |
| `Structures.CheckLinks` | src/ingestion/src/domain/document_batch.rs:614-640 | decides the link conditions of a node |
| `Structures.CheckCycles` | src/ingestion/src/domain/document_batch.rs:840-862 | succeeds if and only if every parent chain reaches a root |
| `Structures.WalkUp` | src/ingestion/src/domain/document_batch.rs:846-859 | one walk settles its path or finds a node without a root |
| `Structures.ValidateStructures` | src/ingestion/src/domain/document_batch.rs:384-399 | indexing, links and cycle check together accept exactly the forests |
| `Structures.LinksAreInverse` | src/ingestion/src/domain/document_batch.rs:614-640 | a node names a parent if and only if that parent lists it |
| `Structures.ChildrenAreDistinct` | src/ingestion/src/domain/document_batch.rs:392-398 | no parent lists a node twice |
| `Structures.ForestLine` | src/ingestion/src/domain/chunk_provenance.rs:220-248 | in an accepted batch every node has a line to its root without repetition |
| `Structures.Ancestors` | src/ingestion/src/domain/chunk_provenance.rs:220-249 | the walk never revisits or misses a node, fails only on a foreign or unknown ancestor, and returns the ancestors from the root down |
| `Structures.ShownExactly` | src/ingestion/src/domain/chunk_provenance.rs:242-246 | the ancestors shown are exactly those that are not documents, once each and in order |
| `Structures.ReversedAt` | src/ingestion/src/domain/chunk_provenance.rs:249 | the list is turned round |
| `Batches.ValidateClosure` | src/ingestion/src/domain/document_batch.rs:325-838 | accepts exactly the batches with identities in order, all references resolved, all texts tiled and structures a forest, within the edge limit |
| `Batches.CheckTargets` | src/ingestion/src/domain/document_batch.rs:537-557 | counts and resolves every reference |
| `Batches.CheckTexts` | src/ingestion/src/domain/document_batch.rs:559-613 | counts and checks every text artifact's pages |
| `Batches.AppendMissing` | src/ingestion/src/domain/document_batch.rs:945-961 | the nested loops append what the specification says |
| `Batches.AppendedKeys` | src/ingestion/src/domain/document_batch.rs:945-961 | afterwards every failed page has its issue, earlier issues stay in front and no other key appears |
| `Batches.AppendedCount` | src/ingestion/src/domain/document_batch.rs:923-961 | the count taken beforehand is the number appended |
| `Batches.AppendedNothing` | src/ingestion/src/domain/document_batch.rs:945-961 | nothing is appended when every failed page has its issue |
| `Batches.PageKeyInjective` | src/ingestion/src/domain/document_batch.rs:894-900 | different pages have different issue keys |
| `Batches.CompletenessOf` | src/ingestion/src/domain/document_batch.rs:981-1012 | none exactly without texts, or without a succeeded page and chunk; complete exactly when there is something, every page succeeded and no issue is a warning or error; partial otherwise |
| `Batches.CompletenessIsTrue` | src/ingestion/src/domain/document_batch.rs:267-303 | the same of every validated batch, and so of every assembled one |
| `Batches.AssembledIssues` | src/ingestion/src/domain/document_batch.rs:902-961 | an assembled batch keeps the issues given and adds one for every failed page without, a warning while some page succeeded and otherwise an error |
| `Batches.FailuresExactly` | src/ingestion/src/domain/document_batch.rs:923-943 | the failures counted are exactly the pages that did not succeed |
| `Batches.AssembledValidates` | src/ingestion/src/domain/document_batch.rs:192-303 | whatever assembly returns passes validation under the same limits |
| `Batches.ReassemblesToItself` | src/ingestion/src/domain/document_batch.rs:192-303 | assembling a validated batch's parts gives the same batch |
| `Batches.TextsAreDistinct` | src/ingestion/src/domain/document_batch.rs:372-383 | accepted identities make the text artifacts distinct |
| `Batches.CompleteMeansNoFailure` | src/ingestion/src/domain/document_batch.rs:981-1012 | a complete batch has no failed page in any artifact and no warning or error |
| `Batches.ValidateBatch` | src/ingestion/src/domain/document_batch.rs:267-303 | accepts exactly the batches that validation describes |
| `Provenance.Open` | src/ingestion/src/domain/chunk_provenance.rs:44-79 | there is an index exactly for a validated, complete batch with chunks |
| `Provenance.TextIsOwned` | src/ingestion/src/domain/document_batch.rs:380-382 | the size a span is checked against is the text's own |
| `Provenance.ChunkEndsInText` | src/ingestion/src/domain/document_batch.rs:505-515 | in a closed batch a chunk ends within its text, or names a text outside the batch |
| `Provenance.ChunkNodesExist` | src/ingestion/src/domain/chunk_provenance.rs:145-151 | the structures and parents a chunk names are nodes of the batch |
| `Provenance.TextIsSound` | src/ingestion/src/domain/chunk_provenance.rs:44-51 | in a complete batch every text's pages tile it, run forward and all succeeded |
| `Provenance.ChunkLeadsTo` | src/ingestion/src/domain/chunk_provenance.rs:83-151 | every lookup from an indexed chunk meets what the page window and the walk rely on |
| `Provenance.NodeHasLine` | src/ingestion/src/domain/chunk_provenance.rs:220-248 | every indexed node has a line to its root without repetition |
| `Provenance.Group` | src/ingestion/src/domain/chunk_provenance.rs:163-181 | refuses exactly a foreign locator and groups the others by page |
| `Provenance.Locate` | src/ingestion/src/domain/chunk_provenance.rs:188-216 | each kept page gives the structure's own locators on it, or else itself, in order |
| `Provenance.LocatePages` | src/ingestion/src/domain/chunk_provenance.rs:163-219 | the pages are exactly those overlapping the chunk, cover it and all succeeded; refused only for a foreign locator |
| `Provenance.FindParents` | src/ingestion/src/domain/chunk_provenance.rs:220-258 | the walk neither revisits nor misses a node, and succeeds exactly when the chunk's parents are the ancestors from the root down |
| `Provenance.ContainsMeans` | src/ingestion/src/domain/chunk_provenance.rs:152-161 | a structure contains a chunk when one of its spans holds the chunk's first and last byte |
| `Provenance.ParentsFromRoot` | src/ingestion/src/domain/chunk_provenance.rs:220-258 | the parents match exactly when every ancestor belongs to the text and has a known kind and the chunk lists those that are not documents, once each, the farthest first |
| `Provenance.ForeignMeans` | src/ingestion/src/domain/chunk_provenance.rs:164-176 | a locator is foreign unless it names the text's source and one of its pages |
| `Provenance.EvidenceNamesWindow` | src/ingestion/src/domain/chunk_provenance.rs:188-216 | every locator of the evidence stands on a page of the window, every such page has one, and the structure's own locators on these pages are all there |
| `Provenance.Project` | src/ingestion/src/domain/chunk_provenance.rs:82-265 | there is evidence exactly for a provable chunk, with the exact non-empty window of succeeded pages; a structure is never missing, a text is missing only if it is outside the batch, a locator is foreign only if the structure's own is |
| `Utf8.ValidUtf8` | src/contracts/wire_validation.cpp:20-25 | accepts exactly the well-formed sequences of section 4 of RFC 3629 |
| `Utf8.AssembleTails` | src/contracts/wire_validation.cpp:23 | the inner loop accepts exactly tail bytes and assembles the code point |
| `Utf8.NumericTest` | src/contracts/wire_validation.cpp:22-23 | the comparison of code points accepts exactly the characters of the grammar |
| `Utf8.DecodeThenEncode` | src/contracts/wire_validation.cpp:20-25 | well-formed text is the encoding of the scalar values it decodes to |
| `Utf8.EncodeThenDecode` | src/contracts/wire_validation.cpp:20-25 | the encoding of scalar values is well formed and decodes to them |
| `Utf8.TextRoundTrip` | src/ingestion/src/indexing/build.rs:428-463 | the bytes of a string are well formed and give the string back |
| `Utf8.BoundaryExactly` | src/contracts/wire_validation.cpp:82 | in valid text a position is a boundary if and only if the prefix is valid; the suffix then is too |
| `Utf8.SpanChecksAgree` | src/ingestion/src/domain/wire.rs:334-341 | the C++, Rust and Python checks agree on every input and accept only valid text |
| `LexicalTables.RenderLetterRanges` | scripts/generate_lexical_letters.go:61-75 | the ranges are sorted, disjoint, maximal and give exactly the letter predicate |
| `LexicalTables.RenderNormProperties` | scripts/generate_lexical_letters.go:114-145 | the runs are sorted, disjoint, maximal and give exactly the non-zero properties of valid code points |
| `LexicalTables.Find` | scripts/generate_lexical_letters.go:80-81 | the binary search finds the run of a code point if there is one |
| `LexicalTables.IsLetter` | scripts/generate_lexical_letters.go:78-82 | the emitted lookup is the generator's predicate for every code point |
| `LexicalTables.LeadingTrailing` | scripts/generate_lexical_letters.go:148-156 | the emitted lookup returns the generator's values for every valid code point and zeros for surrogates |
| `Analyzer.StreamSafe` | src/ingestion/src/indexing/analyzer.rs:76-93 | the loop computes the specified insertion |
| `Analyzer.OnlyInserts` | src/ingestion/src/indexing/analyzer.rs:76-93 | only joiners are added, nothing is removed or moved |
| `Analyzer.UnchangedIffBounded` | src/ingestion/src/indexing/analyzer.rs:76-93 | text is unchanged if and only if the counter never passes 30 |
| `Analyzer.UnchangedExactly` | src/ingestion/src/indexing/analyzer.rs:76-93 | text is unchanged exactly when no character has more than thirty non-starters up to it |
| `Analyzer.FewestJoiners` | src/ingestion/src/indexing/analyzer.rs:76-93 | no way of inserting joiners that keeps the limit takes fewer |
| `Analyzer.SafeIsBounded` | src/ingestion/src/indexing/analyzer.rs:76-93 | the result's counter stays within 30 |
| `Analyzer.SafeIsIdempotent` | src/ingestion/src/indexing/analyzer.rs:76-93 | inserting again changes nothing |
| `Analyzer.AnalyzeNormalized` | src/ingestion/src/indexing/analyzer.rs:44-73 | the scanner loop computes the specified scan, with both limits |
| `Analyzer.TermsAreMaximalRuns` | src/ingestion/src/indexing/analyzer.rs:44-73 | the terms are exactly the maximal runs of kept characters, each kept for its neighbours in the text |
| `Analyzer.MaskAt` | src/ingestion/src/indexing/analyzer.rs:50-66 | a character is kept exactly if it is a letter, a digit, a hyphen between letters or a slash between digits, capitals of ASCII as small letters |
| `Analyzer.LimitsAreExact` | src/ingestion/src/indexing/analyzer.rs:44-104 | the scan fails exactly when a run is longer than 256 bytes or there are more than 100000 |
| `Analyzer.EmittedTermsAreTerms` | src/ingestion/src/indexing/analyzer.rs:44-104 | terms are non-empty, lower case, within the limits, every hyphen between letters and every slash between digits |
| `Analyzer.RescanIsStable` | src/ingestion/src/indexing/analyzer.rs:44-104 | scanning the terms one to a line gives the same terms |
| `IndexJoin.Materialize` | src/ingestion/src/indexing/dense.rs:93-153 | one checked vector per requested item, in request order, or failure; the leftover check never fails |
| `IndexJoin.Fill` | src/ingestion/src/indexing/dense.rs:109-135 | accepts exactly checked results with distinct identities |
| `IndexJoin.Drain` | src/ingestion/src/indexing/dense.rs:136-148 | succeeds exactly for distinct known keys and takes their values in order |
| `IndexJoin.Finish` | src/ingestion/src/indexing/build.rs:132-159 | each record gets its own chunk's vector and nothing else changes, or failure |
| `IndexJoin.JoinAll` | src/ingestion/src/indexing/build.rs:132-159 | both joins one after the other give the specified records or fail |
| `IndexJoin.ResultOrderIsIrrelevant` | src/ingestion/src/indexing/dense.rs:93-153 | permuting the native results changes neither acceptance nor the finished records |
| `IndexJoin.EachRecordGetsItsOwn` | src/ingestion/src/indexing/build.rs:153-159 | each finished record carries the vector the service returned for its own chunk, and is otherwise unchanged |
| `IndexChecksum.ChecksumInput` | src/ingestion/src/indexing/build.rs:428-463 | the hashed bytes are the encoding of plan hash, identities, dense bits and sparse pairs, or an error exactly for an incomplete batch |
| `IndexChecksum.DecodePreimage` | src/ingestion/src/indexing/build.rs:428-463 | the hashed bytes decode to all they commit to |
| `IndexChecksum.LittleWeighs` | src/ingestion/src/indexing/build.rs:428-463 | numbers are written with the least significant byte first |
| `IndexChecksum.PreimageLayout` | src/ingestion/src/indexing/build.rs:428-463 | the hashed bytes start with the format's name and a zero byte, the plan hash and the count, and the records follow in order |
| `IndexChecksum.RowLayout` | src/ingestion/src/indexing/build.rs:441-460 | where identities, dense values and sparse pairs of a record stand |
| `IndexChecksum.WordsLayout` | src/ingestion/src/indexing/build.rs:445-448 | dense value i stands at four times i |
| `IndexChecksum.PairsLayout` | src/ingestion/src/indexing/build.rs:456-460 | sparse pair i stands at eight times i, the index before the value |
| `IndexChecksum.ChecksumCommits` | src/ingestion/src/indexing/build.rs:422-463 | equal checksums mean equal contents, or the two hashed byte strings collide |
| `IndexChecksum.WriteRecord` | src/ingestion/src/indexing/build.rs:428-463 | one record adds its identities, dense bits and sparse pairs to the hashed bytes |
| `IndexChecksum.FeedChecksum` | src/ingestion/src/indexing/build.rs:132-166 | the whole way from native results to hashed bytes, or failure |
| `IndexChecksum.HashedBytesIgnoreResultOrder` | src/ingestion/src/indexing/build.rs:132-166 | for permuted native results the build fails or succeeds alike and hashes the same bytes |
| `IndexChecksum.HashedBytesAreTheRecords` | src/ingestion/src/indexing/build.rs:428-463 | the hashed bytes decode to each record's own identities and sparse pairs with the vector of its own chunk |
| `Ranking.NdcgIsNormalized` | evaluation/metrics/retrieval.py:49-59 | there is a score exactly for valid inputs with a relevant item, and it lies in [0, 1] |
| `Ranking.PerfectExactlyWhenIdeal` | evaluation/metrics/retrieval.py:49-59 | the score is one if and only if the ranking shows the largest gains position by position |
| `Ranking.GainIsPower` | evaluation/metrics/retrieval.py:54-56 | an item gains two to the power of its grade, less one, and nothing without a label |
| `Ranking.DcgSwap` | evaluation/metrics/retrieval.py:54 | exchanging two items changes the sum by the product of the differences of gains and weights |
| `Ranking.BetterFirstScoresMore` | evaluation/metrics/retrieval.py:49-59 | exchanging a better item with a worse one before it raises the score |
| `Ranking.PrefixBeaten` | evaluation/metrics/retrieval.py:54-56 | the first j gains of any ranking without duplicates sum to no more than the j largest |
| `Ranking.Abel` | evaluation/metrics/retrieval.py:54-56 | dominated prefix sums stay dominated under a falling discount |
| `Ranking.RecallIsNormalized` | evaluation/metrics/retrieval.py:41-46 | recall lies in [0, 1], is one exactly when everything is retrieved, and grows with k |
| `Ranking.RecallIsShare` | evaluation/metrics/retrieval.py:41-46 | recall is the share of the acceptable items that the first k positions show, for exactly the valid inputs |
| `Ranking.CompleteIffSomeRecallIsOne` | evaluation/metrics/retrieval.py:62-66 | for any ranking, with duplicates or not: answered exactly for valid inputs, yes if and only if some set has recall one among the distinct items of the first k, and stays yes as k grows |
| `Percentiles.NearestRankIsOrderStatistic` | evaluation/metrics/runtime.py:79-86 | defined exactly for valid samples; the result is a sample, at least the percentile's share of all samples is at most the result and less than that share is below it |
| `Percentiles.RankInRange` | evaluation/metrics/runtime.py:85 | the rank is the least number not below the percentile's share |
| `Percentiles.RankMonotone` | evaluation/metrics/runtime.py:79-86 | raising samples never lowers the result |
| `Percentiles.InfiniteExactlyWhen` | evaluation/metrics/runtime.py:79-86 | the result is infinite if and only if the infinite samples outnumber those the rank leaves out |
| `Gates.EvaluateGates` | evaluation/gates.py:463-569 | one result per gate in order, each meaning what it says; the release passes if and only if every required gate has evidence in order whose runs all pass, and fails if and only if one has evidence whose runs do not |
| `Gates.EvaluateGate` | evaluation/gates.py:484-553 | a gate passes, fails, is unmeasured or exempt exactly when its workload and evidence say so, and is blocked otherwise |
| `Gates.JudgeRuns` | evaluation/gates.py:526-553 | passes, or fails, exactly on runs in order that all, or not all, pass; reports their worst value and total denominator |
| `Gates.ExtraRunsNeverRescue` | evaluation/gates.py:526-542 | adding runs never turns a failed gate into a passed one |
| `Gates.WorstDecides` | evaluation/gates.py:538 | the reported worst value passes if and only if every run's value does |
| `Gates.WorstIsExtreme` | evaluation/gates.py:538 | the reported worst value is a run's value and no run's value is worse |
| `Gates.ThresholdDecides` | evaluation/gates.py:459-460 | a run passes exactly when nothing ancillary failed and its value is on the right side of the threshold, the threshold included |
| `Gates.BetterStillPasses` | evaluation/gates.py:459-460 | improving a value never makes it fail |
| `Gates.ReleaseOf` | evaluation/gates.py:558-568 | the order of severity over the required gates, each status exactly when its condition holds |
| `Gates.CountsAddUp` | evaluation/gates.py:554-557 | every result is counted under exactly one status |
| `Gates.FailuresFailTheGate` | evaluation/telemetry.py:157-167 | a percentile is infinite exactly when fewer arrivals than its share succeeded, and then no upper bound is met; otherwise it is the milliseconds of a successful arrival |
| `Gates.ManyFailuresNeverPass` | evaluation/telemetry.py:157-167 | a gate with such a run never passes |

## Left out

- Real time and the operating system: clocks are non-decreasing inputs, a waiting worker may be
  woken at any moment, and fairness of threads is not assumed.
- A work class outside the enumeration (src/inference/src/batching.cpp:58) and allocation failure,
  which is fail-stop, do not occur in the scheduler model.
- The service model stops issuing tickets before the 64-bit counter wraps; the two reads of the
  cancelled flag for one late item are one read; a result that fails its numeric check ends the
  execution at that moment, as a fault; the texts a caller is rejected with are one answer.
- Service.EnqueueWorkKeeps: takes the token bound of Encode as given for the item's own lane.
- Process beyond admission and submission: request validation, deadlines on the wire and projection
  of results into responses.
- ONNX Runtime execution, tokenization and padding buffers: only the size checks of Run and Encode.
- Sorting of the plan's lists for the wire, context validation and the final wire validation in
  `plan_incremental_update`: the plan's sets are sets.
- Store: no outside tampering, symbolic links, directory creation or loss of unsynced data; two live
  processes have different numbers, and the sequence counter does not wrap.
- Store.PutSucceeds: a file left by a crashed process of the same number under the very temporary
  name is excluded; the source then reports the collision of names as an error.
- SHA-256, canonical composition and the contents of the Unicode tables are parameters.
- Descriptor-driven validation of single messages: any predicate, and for pages that a span does not
  end before it starts.
- Batches: the fields of provisions, versions, editions, regulations, observations and changes
  appear as the references they make; which check fails first is not modelled.
- Structures.ValidateStructures: does not count reference edges; Batches.ValidateClosure counts them.
- Provenance.Project: the provision versions of a chunk and their cover of its span are left out; they
  are independent checks of one branch each.
- The input size limit of the analyzer, and the Go implementation it must match.
- Utf8.ValidUtf8: bit masks are written as division and remainder on byte values.
- Floating-point rounding in percentiles, ratios, norms and nDCG; vectors are bit patterns and their
  numeric checks a parameter.
- Ranking.NdcgIsNormalized: the logarithmic discount enters as any positive non-increasing function.
- The estimators behind single gates and the texts of their reasons: a run is valid or not, with a
  value, a denominator and ancillary failures.
- Transport, configuration loaders, command-line tools, PDF engines, dictionaries, BM25 statistics and
  the Go server.
