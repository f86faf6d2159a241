# SystemSense in Dafny

SystemSense collects diagnostic evidence from a Windows host into a local SQLite database, keeps it
bounded, and answers an assistant's questions about it. This project models the parts of it that have
to be right together: crash-safe capture and storage, retention, bounded ingestion, the selection
algorithms, accountable execution, paged reads and the integrity of its benchmark. Every module names the
source file that it models.

| file | models |
|---|---|
| `Store.dfy` | the tables of the database as a value, one function for each statement, and a connection with transactions |
| `Sentinel.dfy` | Event Log capture, as methods on the store and as a protocol of small steps with crashes |
| `Artifacts.dfy`, `ArtifactStore.dfy`, `ArtifactRuns.dfy` | content-addressed files and their rows, as a protocol with crashes and as methods, and that the methods are runs of the protocol |
| `EvidenceRetention.dfy`, `ArtifactRetention.dfy`, `Retention.dfy` | what one prune deletes, how many suffice, and the manager's loops |
| `BoundedQueue.dfy`, `Coalescer.dfy` | the two bounded collections behind the collectors |
| `Planner.dfy`, `Ranking.dfy`, `Brief.dfy` (with `Text.dfy`) | probe planning, diversity ranking, brief packing and printing |
| `Circuit.dfy`, `Runtime.dfy`, `Audit.dfy` | cooldown circuits and the probe runner, opening a case, the hash chain |
| `Writer.dfy` | the single-writer thread as a concurrent protocol |
| `Inventory.dfy` | change-only history, invalidation and freshness |
| `Pagination.dfy` | signed cursors and paged reads of the MCP workspace |
| `Scenario.dfy`, `Analysis.dfy` | the scenario byte stream and the paired bootstrap analysis of the benchmark |
| `Results.dfy`, `Sequences.dfy`, `Ordering.dfy`, `Domain.dfy` | shared values, sequences, sorting and string order |

`dafny verify dfyconfig.toml` verifies the whole project.

## How to read it

- Components that change state are classes whose methods are specified by functions on values; the laws
  are lemmas about those functions. Protocols whose point is what happens between two steps (capture,
  artifacts, opening a case, the writer thread) are state machines, with the result stated for every
  sequence of steps.
- Times are integers, scores and savings exact rationals, identifiers and random draws parameters.
- SHA-256, HMAC, JSON, base64, UTF-8, redaction and word substitution are arbitrary functions; a lemma that
  needs one to be injective or to have an inverse says so in its `requires`. `stable_source_id` is a datatype
  constructor: it hashes an injective encoding of its fields.
- A uniqueness violation, a missing case, an argument that the source rejects or an exception that leaves a call is
  an `Err`. What a constructor of the source rejects by raising is a `requires` of the Dafny constructor.

## Findings

Where a natural law fails, the model keeps the code and states exactly when the law holds.

- `Writer.LostRequest`, `Writer.BehindTheMarkerHangs`: `execute` checks the closed flag and enqueues in two steps, so a
  request can land behind the stop marker, and its caller then waits for ever. `Writer.AnsweredExactlyOnce` says which.
- `Circuit.HalfOpenIsStuck`, `Circuit.HalfOpenIffDeniedTrial`, `Circuit.DeniedTrialHappens`: a trial that the worker denies
  leaves the circuit half-open, and the probe then never runs again. It takes an executor that denies a probe only
  sometimes: the one of the repository (src/systemsense/orchestration/executor.py:46-50, src/systemsense/worker.py:147-162)
  denies an ID always or never, and then this cannot happen (`Circuit.SteadyExecutorNeverSticks`).
- `Inventory.TrueAfterOneIsNotRecorded`, `Inventory.RecordedExactlyWhen`: a change is judged with Python's `==` on decoded
  values, where 1, 1.0 and true are equal. Refreshing with true after 1 replaces the current value and leaves no history
  row; the very value is always recorded exactly when no two values in a row are equal but written differently.
- `Inventory.ReinvalidationRevives`, `Inventory.StaleExactlyWhen`: invalidating again moves the time, so earlier reads become
  fresh again; and an invalidation dated before the observation makes the record unreadable.
- `Brief.RaisesExactlyWhen`, `Brief.ShortProbeShortens`, `Brief.OnlyAProbeFits`: the size error is not decided by the empty
  envelope alone. One probe ID of at most 37 characters is shorter than the line that says probes were omitted, so there is
  a permitted budget at which the empty envelope does not fit and the brief is returned with its probe.
- `Pagination.UnderscoreMatchesMore`, `Pagination.FilterIsExactWithoutUnderscore`: the category filter uses LIKE, where `_`
  is a wildcard, so `local_ai` also matches `localxai.snapshot`. The filter of a category is exact for every collector
  if and only if the category contains no `_`.
- `Analysis.ZeroTokensFail`, `Analysis.AnalysisFailsExactlyWhen`: one quality-valid pair whose baseline run counted no tokens
  makes the whole analysis fail, and with enough resamples nothing else does.

## Model

| member | source | states |
|---|---|---|
| `Sentinel.RunKeepsInv` | src/systemsense/sentinel.py:61-184 | over every interleaving of log appends, polls, failed queries, foreign rows and crashes at any step (others may write whenever no transaction of the poller is open), every channel stays captured: what is stored of it, over all cases, is its log up to the bookmark |
| `Sentinel.CapturedExactly` | src/systemsense/sentinel.py:69-163 | after any run the stored events of a channel, in any cases, are exactly the logged ones with a record ID at or below the bookmark, in log order |
| `Sentinel.ExactlyOnce` | src/systemsense/sentinel.py:93-164 | after any run an event at or below the bookmark is in exactly one evidence row, hence one case, and an event above it in none |
| `Sentinel.BookmarkNeverDecreases` | src/systemsense/sentinel.py:159-163 | no step of any run moves a bookmark back or uncovers an event |
| `Sentinel.UncommittedStepsKeepDisk` | src/systemsense/storage/sqlite_store.py:261-272 | a step inside the transaction, or a crash there, leaves what is committed as it was |
| `Sentinel.CommitIsBatchEffect` | src/systemsense/sentinel.py:99-163 | committing in the step protocol has the effect of the whole batch: all inserts and the bookmark together |
| `Sentinel.PollIsProtocol` | src/systemsense/sentinel.py:99-163 | the protocol steps of one undisturbed batch add up to the batch that `Poll` stores |
| `Sentinel.BatchIsIdempotent` | src/systemsense/sentinel.py:99-164 | for any backend, replaying or not: no (case, source) pair is stored twice, `inserted` counts the new rows, every event of the batch is stored afterwards, and replaying the batch changes nothing |
| `Sentinel.InsertFirstOnlyOwn` | src/systemsense/sentinel.py:151-158 | a new row of a batch belongs to the polled case and is about one of the fetched events |
| `Sentinel.FailedPollKeepsBookmark` | src/systemsense/sentinel.py:166-204 | a failed poll keeps every bookmark and adds at most one row for its (case, channel, status), and none the second time |
| `Sentinel.Sentinel.Poll` | src/systemsense/sentinel.py:61-164 | one poll: a broken bookmark or failed query is reported as what it is; the bookmark never moves back when the adapter answers above it; new rows are of the polled case and moment and about fetched events; for any log that the adapter reads, a captured channel stays captured, `inserted` and `bookmark` being the number and the greatest record ID of the newly covered events; an escaping exception has written nothing |
| `Sentinel.PollKeepsPromise` | src/systemsense/sentinel.py:61-184 | the same for the poll as a function of the tables, against the log and not against the batch |
| `Sentinel.PollIsARun` | src/systemsense/sentinel.py:69-164 | from any state of the protocol a poll is the run query, begin, inserts, commit, or one failed query, or changes nothing |
| `Sentinel.PollKeepsInv` | src/systemsense/sentinel.py:61-184 | so a poll keeps every channel captured, the polled one and all others |
| `Sentinel.AboveIsUncovered` | src/systemsense/platform/windows/eventlog.py:228-232 | the events above the bookmark, which the adapter asks the log for, are those that the bookmark does not cover |
| `Sentinel.Sentinel.StoreBatch` | src/systemsense/sentinel.py:96-164 | the transaction is all of the inserts and the bookmark, or nothing |
| `Sentinel.Sentinel.PersistCoverage` | src/systemsense/sentinel.py:166-184 | one coverage row in a transaction of its own, the reason redacted |
| `Sentinel.SentinelRunner.Run` | src/systemsense/sentinel.py:245-292 | argument errors before any poll; then channel after channel and cycle after cycle, until a stop is requested, the limit is reached or a poll raises; `inserted` and `coverage_events` are the sums over all polls; a raising poll leaves what the polls before it stored |
| `Sentinel.SentinelRunner.TotalsAreGrowth` | src/systemsense/sentinel.py:266-284 | `inserted` is the number of observations that the run added to the table, and at most `coverage_events` reports came with them |
| `Sentinel.MaxId` | src/systemsense/sentinel.py:97 | the greatest record ID of the batch |
| `Store.InsertKeepsSound` | src/systemsense/storage/sqlite_store.py:54-72 | inserting evidence keeps identifiers and (case, source) pairs unique and every row in an existing case |
| `Store.SQLiteStore.Commit` | src/systemsense/storage/sqlite_store.py:261-272 | what the connection reads becomes what survives a crash |
| `Store.SQLiteStore.Rollback` | src/systemsense/storage/sqlite_store.py:261-272 | after an exception or a crash the connection reads what was committed |
| `Store.SQLiteStore.Insert` | src/systemsense/storage/sqlite_store.py:54-72 | one insert inside a transaction: a known (case, source) pair is a no-op, other conflicts are errors, and nothing is committed |
| `Store.SQLiteStore.Upsert` | src/systemsense/storage/sqlite_store.py:74-113 | history grows exactly when the new value is not equal to the stored one as Python compares decoded values, the current row is replaced either way |
| `Store.EqualToPython` | src/systemsense/storage/sqlite_store.py:161-169 | decoded values are equal as in Python: true with 1, false with 0, whole numbers with their floats, nothing of different kinds |
| `Store.EqualByParts` | src/systemsense/storage/sqlite_store.py:161-169 | lists are equal item by item and objects field by field |
| `Store.SQLiteStore.Invalidate` | src/systemsense/storage/sqlite_store.py:115-124 | marks every current row of the category and counts them |
| `Store.SQLiteStore.Advance` | src/systemsense/storage/sqlite_store.py:143-159 | sets one bookmark inside the transaction |
| `Store.SQLiteStore.Append` | src/systemsense/storage/sqlite_store.py:126-141 | one audit row, or an error on a known event ID or an unknown case |
| `Store.SQLiteStore.Link` | src/systemsense/storage/sqlite_store.py:171-211 | keeps the metadata of a known content and relates the stored artifact to the case |
| `Store.SQLiteStore.DeleteArtifact` | src/systemsense/storage/sqlite_store.py:692-705 | deletes the row only when no case is related to it, and says whether it did |
| `Store.SQLiteStore.DeleteEvidenceRows` | src/systemsense/storage/sqlite_store.py:333-371 | deletes by identifier and counts |
| `Store.SQLiteStore.InsertCase` | src/systemsense/storage/sqlite_store.py:274-288 | adds a case, or fails on a known identifier |
| `Artifacts.RunKeepsInv` | src/systemsense/storage/artifact_store.py:72-103 | in every state reachable by put, prune and orphan-cleaning steps, relation removals and a crash between any two steps, each artifact row has its object file with the content of its digest, and each relation is of a case that put this content |
| `Artifacts.InvNext` | src/systemsense/storage/retention.py:65-114 | every single step keeps that invariant |
| `Artifacts.ReferencedSurvives` | src/systemsense/storage/retention.py:65-114 | no step removes the row or the file of an artifact that a case is related to |
| `Artifacts.RelatedStaysReadable` | src/systemsense/storage/artifact_store.py:105-133 | over any run, as long as its relation is not removed a case keeps row, file and content of what it put |
| `Artifacts.DeleteTakesOneRow` | src/systemsense/storage/sqlite_store.py:692-705 | deleting an unreferenced artifact takes exactly its row, frees its digest and keeps the tables sound |
| `Artifacts.LinkKeepsSound` | src/systemsense/storage/sqlite_store.py:171-211 | linking keeps digests, identifiers and relations consistent and adds a row only for a new digest |
| `ArtifactStore.ArtifactStore.Put` | src/systemsense/storage/artifact_store.py:72-103 | the content is on disk whatever happens; on success the case can read this very artifact, with the metadata given if its digest is new and the stored ones otherwise; on a store error, exactly for an unknown case or a clash of identifiers, the tables are unchanged |
| `ArtifactStore.ArtifactStore.WriteObject` | src/systemsense/storage/artifact_store.py:165-182 | adds the object under its path, keeps an existing one, leaves no temporary file |
| `ArtifactStore.ArtifactStore.GetTextExcerpt` | src/systemsense/storage/artifact_store.py:105-149 | returns the requested range of exactly the stored content, redacted and bounded, only to a related case; each of the four errors exactly in its case, and a missing object file never |
| `ArtifactStore.ReadAtMeans` | src/systemsense/storage/artifact_store.py:127-133 | the bytes read are those from the offset on, one by one, as many as asked for and there are |
| `ArtifactStore.ArtifactForCase` | src/systemsense/storage/sqlite_store.py:616-645 | finds an artifact only through a relation of the asking case |
| `ArtifactStore.FileSystem.Rglob` | src/systemsense/storage/retention.py:98-102 | lists every file below objects once, in an arbitrary order |
| `ArtifactRuns.PutIsARun` | src/systemsense/storage/artifact_store.py:72-103 | an uninterrupted put is the run of the protocol that writes a temporary file, renames it and links the row, or only links it if the object is there, and has the effect of `Put` |
| `ArtifactRuns.PruneIsARun` | src/systemsense/storage/retention.py:62-114 | the artifact loop of a prune with its unlinking and the orphan walk after it are one run of the protocol, with the effect of `Prune` |
| `EvidenceRetention.PruneEvidenceStep` | src/systemsense/storage/retention.py:49-60 | one prune removes the oldest raw rows and leaves every coverage row; it removes exactly a batch, or leaves nothing expired and the bytes within the cap |
| `EvidenceRetention.PruneTakesItsQuota` | src/systemsense/storage/retention.py:51-60 | the exact number: the expired rows as far as the batch reaches; and if it reaches further and the bytes of the others exceed the cap, the whole batch |
| `EvidenceRetention.PruneIsJust` | src/systemsense/storage/retention.py:51-60 | only raw rows go, none younger than one that stays, and an unexpired one only when the unexpired rows alone exceed the cap and the expired ones do not fill the batch |
| `EvidenceRetention.EvidenceConverges` | src/systemsense/storage/retention.py:49-60 | n prunes at a fixed time settle the evidence as soon as n batches cover the raw rows, so ceil(n / batch_size) suffice |
| `EvidenceRetention.SettledStays` | src/systemsense/storage/retention.py:49-60 | settled evidence is a fixpoint of pruning |
| `EvidenceRetention.DeleteOldestPrefix` | src/systemsense/storage/sqlite_store.py:333-371 | deleting the k oldest raw rows leaves the younger ones in order and every coverage row |
| `EvidenceRetention.ExpiredComeFirst` | src/systemsense/storage/sqlite_store.py:333-354 | the expired raw rows are a prefix of the raw rows in age order |
| `ArtifactRetention.PruneListPrefix` | src/systemsense/storage/retention.py:62-78 | the artifacts deleted in one prune are a prefix of the oldest-first unreferenced list, each with its file and nothing else; the loop stops short only when the next one is not expired and the true total, which the counter equals, is within the cap |
| `ArtifactRetention.DeletedForAReason` | src/systemsense/storage/retention.py:65-74 | each deleted artifact is expired, or the total without those deleted before it still exceeds the cap |
| `ArtifactRetention.PruneArtifactsStep` | src/systemsense/storage/retention.py:62-78 | one prune deletes exactly a batch of unreferenced artifacts or settles them |
| `ArtifactRetention.ArtifactsConverge` | src/systemsense/storage/retention.py:62-78 | ceil(unreferenced / batch_size) prunes settle the artifacts |
| `ArtifactRetention.DeleteRound` | src/systemsense/storage/retention.py:71-78 | one deletion keeps rows and files consistent and the running byte counter equal to the true total |
| `ArtifactRetention.StopsForGood` | src/systemsense/storage/retention.py:65-72 | once an artifact is neither expired nor over the cap, no younger one is deleted |
| `ArtifactRetention.BlockedMeansReferenced` | src/systemsense/storage/retention.py:81-91 | once settled, a blocked artifact cap means that every remaining artifact is referenced |
| `ArtifactRetention.CleanFilesStep` | src/systemsense/storage/retention.py:93-114 | the walk removes only files that no row names, at most its budget, and fewer only when no listed one is left |
| `Retention.RetentionManager.Prune` | src/systemsense/storage/retention.py:49-91 | one full prune in the sense of the convergence result; it takes exactly its quota of evidence, the oldest raw rows and fresh ones only over the cap, and only unreferenced artifacts that are expired or over the cap; the report tells the truth about the store it leaves: counts, remaining bytes and both blocked flags; rows and files stay consistent and coverage rows stay |
| `Retention.FullPrunesConverge` | src/systemsense/storage/retention.py:49-91 | n full prunes at a fixed time, each with its orphan walk, settle evidence and artifacts and leave no orphan file, each as soon as n batches cover the raw rows, the unreferenced artifacts and the orphans there were at the start |
| `Retention.PruningMakesNoOrphan` | src/systemsense/storage/retention.py:65-78 | deleting artifacts makes no orphan file |
| `Retention.RetentionManager.EvidencePhase` | src/systemsense/storage/retention.py:50-60 | the two evidence deletions: exactly the quota, only what is just |
| `Retention.RetentionManager.ArtifactPhase` | src/systemsense/storage/retention.py:62-78 | the loop refines the recursive description that the convergence results are about |
| `Retention.RetentionManager.CleanOrphanFiles` | src/systemsense/storage/retention.py:93-114 | removes only orphans, at most a batch, and leaves one only after a full batch |
| `BoundedQueue.OfferThenDrain` | src/systemsense/collection/queue.py:37-69 | offers followed by a full drain are the first max_size of the stable sort by priority, the most urgent first |
| `BoundedQueue.EveryEnvelopeAccountedFor` | src/systemsense/collection/queue.py:37-80 | under any mix of offers and pops each envelope is exactly one of queued, popped or dropped |
| `BoundedQueue.EveryDropReported` | src/systemsense/collection/queue.py:71-80 | and the reports are one for each drop: TRUNCATED, of its case and source, at its capture time |
| `BoundedQueue.DroppedNeverBeatsKept` | src/systemsense/collection/queue.py:44-59 | only a full queue drops, and nothing kept at that moment comes after the dropped envelope in (priority, arrival) |
| `BoundedQueue.OfferKeepsTheBest` | src/systemsense/collection/queue.py:37-59 | an offer leaves the max_size best of what was queued and what was offered |
| `BoundedQueue.PopTakesTheFirst` | src/systemsense/collection/queue.py:61-69 | a pop returns the least element in (priority, arrival) and leaves the others in order |
| `BoundedQueue.BoundedEnvelopeQueue.Offer` | src/systemsense/collection/queue.py:37-59 | the new observable order is the old one with the offer inserted, cut to the capacity; accepted exactly when the offer is queued afterwards, evicted is the one element that left, and an overflow is reported exactly when the queue was full |
| `BoundedQueue.BoundedEnvelopeQueue.Pop` | src/systemsense/collection/queue.py:61-69 | takes the head of the observable order, at least as urgent as everything queued, or reports an empty queue |
| `BoundedQueue.WorstIndex` | src/systemsense/collection/queue.py:44-47 | the element that every other one precedes |
| `BoundedQueue.BestIndex` | src/systemsense/collection/queue.py:64-67 | the element that precedes every other one |
| `Coalescer.AddKeepsLru` | src/systemsense/collection/coalescer.py:41-74 | an add keeps the dictionary an exact LRU cache of the events since the last flush, with aggregates per residency |
| `Coalescer.ResidentIffHit` | src/systemsense/collection/coalescer.py:41-62 | a key is resident exactly when it has been seen and fewer than max_groups other keys arrived since its last occurrence |
| `Coalescer.EnvelopeCoalescer.Add` | src/systemsense/collection/coalescer.py:41-74 | the returned group describes exactly the events of the current residency; eviction happens exactly on a miss at capacity and takes the least recent group; counts are conserved |
| `Coalescer.EnvelopeCoalescer.KeysInOrder` | src/systemsense/collection/coalescer.py:38-39 | the keys are the most recently seen ones, ordered by last occurrence |
| `Coalescer.EnvelopeCoalescer.Flush` | src/systemsense/collection/coalescer.py:76-79 | returns the live groups and starts an empty history |
| `Coalescer.HitKeepsRecency` | src/systemsense/collection/coalescer.py:44-60 | moving the hit key to the end keeps recency order |
| `Coalescer.MissKeepsRecency` | src/systemsense/collection/coalescer.py:62-73 | entering at the end, after dropping the first when full, keeps recency order |
| `Coalescer.HitKeepsAggregates` | src/systemsense/collection/coalescer.py:44-60 | a hit updates count, least and greatest time of its own residency and of no other |
| `Coalescer.MissKeepsAggregates` | src/systemsense/collection/coalescer.py:62-74 | a miss starts a new residency and leaves the others as they are |
| `Planner.MakePlan` | src/systemsense/orchestration/planner.py:59-112 | the plan is the one of the lexicographically greatest feasible choice among the eligible candidates, within budget and count; its lists hold exactly the considered candidates, each for its reason, in order |
| `Planner.ConsideredMeans` | src/systemsense/orchestration/planner.py:60-76 | considered are the common candidates and those that share a trait or have a term in the symptom; common ones first, then by falling value, rising cost and name |
| `Planner.BestPlanMeans` | src/systemsense/orchestration/planner.py:83-112 | selected and over budget are candidates that are common or neither fresh nor low in value; the other two lists hold the fresh and the low ones; the total is the sum of the selected costs |
| `Planner.GreedyIsGreatest` | src/systemsense/orchestration/planner.py:90-104 | first-fit in the considered order is the lexicographically greatest feasible choice |
| `Planner.GreatestIsUnique` | src/systemsense/orchestration/planner.py:90-104 | there is only one such choice |
| `Planner.BestPlanIsUnique` | src/systemsense/orchestration/planner.py:78-112 | so the plan is determined by the considered candidates and the request |
| `Planner.SkippedStillDoesNotFit` | src/systemsense/orchestration/planner.py:90-95 | a probe skipped for budget would not fit after the whole selection either |
| `Planner.PlanPartitions` | src/systemsense/orchestration/planner.py:78-112 | every considered candidate is selected or in exactly one skip list |
| `Planner.CatalogueOrderIrrelevant` | src/systemsense/orchestration/planner.py:61-76 | with unique probe IDs the considered order does not depend on the order of the catalogue |
| `Ordering.LexIsDictionaryOrder` | src/systemsense/orchestration/planner.py:61-76 | strings are ordered as in a dictionary: extensions after the string, and else the first difference decides |
| `Ranking.RankEvidence` | src/systemsense/evidence/ranking.py:40-71 | argument errors first; otherwise the selection is the rounds, cut at the limit |
| `Ranking.GroupByCategory` | src/systemsense/evidence/ranking.py:57-59 | the dictionary holds each category in score order, the categories in order of appearance |
| `Ranking.RankingLength` | src/systemsense/evidence/ranking.py:40-71 | the length is min(limit, sum over the categories of min(size, cap)) |
| `Ranking.CategoryPrefix` | src/systemsense/evidence/ranking.py:53-71 | restricted to a category the result is a prefix of its score order |
| `Ranking.ScoresNeverIncrease` | src/systemsense/evidence/ranking.py:53-56 | within a category higher scores come first, equal ones by identifier |
| `Ranking.LeftOutNeverBeatsShown` | src/systemsense/evidence/ranking.py:57-71 | what is shown are candidates with their scores, and one left out of a category beats none shown there |
| `Ranking.ScoreIsAWeighing` | src/systemsense/evidence/ranking.py:28-37 | a score lies between 0 and 1, never falls when a component rises, and each component has its share of it |
| `Ranking.Fairness` | src/systemsense/evidence/ranking.py:62-70 | no category shows its (k+1)-th item before every category with at least k items has shown k |
| `Ranking.LargerLimitExtends` | src/systemsense/evidence/ranking.py:67-70 | the result for a limit is a prefix of the result for a larger one |
| `Ranking.InputOrderIrrelevant` | src/systemsense/evidence/ranking.py:53-56 | with unique IDs the result does not depend on the order of the candidates |
| `Brief.ParseBack` | src/systemsense/evidence/brief.py:78-125 | splitting the text at its line breaks recovers exactly the cited evidence and coverage IDs, whatever the free texts and probe IDs contain, and the added IDs if no pending probe ID contains a line break |
| `Brief.BriefReadsBack` | src/systemsense/evidence/brief.py:140-153 | the included and delta IDs of a brief can be read off its text, under the same condition for delta |
| `Brief.KeptExactlyWhenItFits` | src/systemsense/evidence/brief.py:127-138 | a candidate is kept exactly when it fits with everything kept before it, and then stays |
| `Brief.OverBudgetExactlyWhen` | src/systemsense/evidence/brief.py:127-142 | packing ends over the budget exactly when neither the empty envelope nor any single candidate fits |
| `Brief.RaisesExactlyWhen` | src/systemsense/evidence/brief.py:140-142 | so the error is raised exactly when the empty envelope is too long and stays so with any one pending probe; in particular never when it fits |
| `Brief.ShortProbeShortens` | src/systemsense/evidence/brief.py:101-125 | how much one listed probe changes the length: a probe ID of at most 37 characters makes the text shorter than the line that says probes were omitted |
| `Brief.OnlyAProbeFits` | src/systemsense/evidence/brief.py:135-142 | an input with a permitted budget at which the empty envelope is too long and the brief with its one probe is returned |
| `Brief.LoneEvidenceIsLonger` | src/systemsense/evidence/brief.py:92-95 | one evidence citation is always longer than the line it replaces |
| `Brief.LoneCoverageIsLonger` | src/systemsense/evidence/brief.py:96-100 | one coverage citation is always longer than the line it replaces |
| `Brief.BriefAddsUp` | src/systemsense/evidence/brief.py:143-153 | with distinct IDs cited and omitted add up to the candidates, of evidence, coverage and probes alike, and delta is what is cited and was not cited by the brief before |
| `Brief.EvidenceOrderIrrelevant` | src/systemsense/evidence/brief.py:61-64 | with distinct IDs what is packed does not depend on the order in which evidence is given |
| `Brief.BestIsOfferedFirst` | src/systemsense/evidence/brief.py:61-64 | evidence is offered best score first, then oldest, then by identifier, and nothing is lost |
| `Brief.CoverageIsOfferedByName` | src/systemsense/evidence/brief.py:65-68 | coverage is offered by category and identifier |
| `Brief.ProbesAreOfferedOnce` | src/systemsense/evidence/brief.py:69 | pending probes are offered each once, by name |
| `Brief.DecimalReadsBack` | src/systemsense/evidence/brief.py:78-125 | a printed count consists of digits without a leading zero and reads back |
| `Brief.BriefGenerator.Generate` | src/systemsense/evidence/brief.py:48-153 | another case is refused; otherwise three packing passes in order; a returned text is never longer than max_chars, and revisions count from one |
| `Brief.BriefGenerator.PackEvidence` | src/systemsense/evidence/brief.py:127-130 | the append-render-pop loop is greedy packing |
| `Brief.BriefGenerator.PackCoverage` | src/systemsense/evidence/brief.py:131-134 | the same for coverage under the selected evidence |
| `Brief.BriefGenerator.PackProbes` | src/systemsense/evidence/brief.py:135-138 | the same for probes under both selections |
| `Text.Clip` | src/systemsense/evidence/brief.py:198-201 | at most limit characters: the value itself, or its first limit - 1 characters without their trailing white space, and an ellipsis |
| `Text.ClipKeepsOneLine` | src/systemsense/evidence/brief.py:198-201 | clipping introduces no line break |
| `Text.NormalizedIsOneLine` | src/systemsense/evidence/brief.py:212-213 | joining the words of a text leaves no line break |
| `Text.SplitOfJoin` | src/systemsense/evidence/brief.py:125 | splitting at line breaks inverts joining when no line contains one |
| `Text.SplitOfJoinFlat` | src/systemsense/evidence/brief.py:125 | splitting joined texts that may contain line breaks yields the lines of each, in order |
| `Sequences.UniqueMembers` | src/systemsense/evidence/brief.py:183-191 | the unique IDs are the given ones, each once |
| `Circuit.HistoryDecides` | src/systemsense/orchestration/circuit_breaker.py:31-53 | the state is decided by the failures since the last success, the time of the last one and whether a trial is pending; closed exactly below the threshold |
| `Circuit.CircuitBreaker.Allow` | src/systemsense/orchestration/circuit_breaker.py:31-41 | grants exactly what the history of calls says |
| `Circuit.CircuitBreaker.RecordFailure` | src/systemsense/orchestration/circuit_breaker.py:43-48 | adds one failure to the history |
| `Circuit.CircuitBreaker.RecordSuccess` | src/systemsense/orchestration/circuit_breaker.py:50-53 | adds one success to the history |
| `Circuit.CooldownHolds` | src/systemsense/orchestration/probes.py:131-141 | after the failure that opens the circuit nothing runs before its time plus the cooldown, and the first authorized run after that does |
| `Circuit.TrialOutcome` | src/systemsense/orchestration/probes.py:226-248 | a trial that ends OK closes and resets; failed, timed out or truncated reopens from its own time; denied stays half-open |
| `Circuit.HalfOpenIffDeniedTrial` | src/systemsense/orchestration/probes.py:237-240 | between runs the circuit is half-open exactly when some trial was denied by the worker |
| `Circuit.DeniedTrialHappens` | src/systemsense/orchestration/probes.py:237-240 | it is reachable: a failed run, then a run denied by the worker once the cooldown is over |
| `Circuit.SteadyExecutorNeverSticks` | src/systemsense/orchestration/executor.py:46-50 | an executor that denies a probe always or never, as the one of the repository does, never leaves its circuit half-open |
| `Circuit.HalfOpenIsStuck` | src/systemsense/orchestration/circuit_breaker.py:35-36 | from then on the probe never runs again |
| `Circuit.ClosedIffFewFailedRuns` | src/systemsense/orchestration/probes.py:226-248 | the circuit is closed exactly when fewer than threshold runs failed since the last OK run |
| `Circuit.AttemptStep` | src/systemsense/orchestration/probes.py:113-224 | what one run does to the circuit, in terms of the state it finds |
| `Circuit.ProbeRunner.Run` | src/systemsense/orchestration/probes.py:113-224 | unknown and unauthorized probes are denied untouched, an open circuit answers unavailable, and only the circuit of this probe changes |
| `Circuit.RunGuarded` | src/systemsense/orchestration/probes.py:131-224 | the guarded part of a run records exactly its own outcome |
| `Circuit.RunMeans` | src/systemsense/orchestration/probes.py:146-224 | a run is OK exactly when an observation within both registered limits came back, truncated exactly when one beyond them did; denied, timed out and failed are what worker, handler and validation said |
| `Circuit.BuildCircuits` | src/systemsense/orchestration/probes.py:91-97 | one fresh circuit for each probe, none shared |
| `Audit.Verify` | src/systemsense/audit.py:100-134 | accepts exactly the lists that are linked from the genesis hash and end in the checkpoint; a reported index is the first bad link, with the first check it fails, behind a correctly linked prefix |
| `Audit.AuditChain.Append` | src/systemsense/audit.py:64-92 | appends one redacted entry and keeps the chain linked |
| `Audit.AuditChain.MakeCheckpoint` | src/systemsense/audit.py:94-98 | a chain built by appends is accepted against its own checkpoint |
| `Audit.TamperingNeedsACollision` | src/systemsense/audit.py:100-146 | two different lists accepted against one checkpoint exhibit two entries with one hash |
| `Audit.CheckpointDeterminesChain` | src/systemsense/audit.py:100-146 | with an injective hash an accepted list is the chain, entry for entry |
| `Audit.PrefixLinked` | src/systemsense/audit.py:110-130 | the prefix before a rejected index is correctly linked |
| `Audit.AppendKeepsLinked` | src/systemsense/audit.py:78-92 | a continuing entry keeps the chain linked |
| `Runtime.AfterIsEffect` | src/systemsense/application/runtime.py:72-108 | persisting the probes of a new case succeeds exactly when their identifiers are new, and then each probe has its one evidence or coverage row and its one audit row, in plan order, the inventory holds the facts of the observed ones, and its history has grown by exactly those of them that changed a value, in plan order |
| `Runtime.CrashLeavesAPrefix` | src/systemsense/application/runtime.py:86-108 | wherever a crash or an error ends the call, the committed tables are the old ones, or the case row with the complete effect of a prefix of the plan |
| `Runtime.CommittedIsAPrefix` | src/systemsense/application/runtime.py:72-108 | the same, spelled out row by row |
| `Runtime.OpenCaseIsARun` | src/systemsense/application/runtime.py:54-112 | without a crash the process of small steps persists probe after probe with the effect of `OpenCase` |
| `Runtime.AuditRowsVerify` | src/systemsense/application/runtime.py:77-108 | the audit rows of a case, read in order, pass the verification of the chain |
| `Runtime.RowsAgreeWithAudit` | src/systemsense/application/runtime.py:180-270 | a probe is backed by evidence exactly when its audit row says allowed, and otherwise by a report that never says covered |
| `Runtime.RunsAreComplete` | src/systemsense/orchestration/probes.py:145-224 | a run carries an observation exactly when it ended OK |
| `Runtime.OnlyOkIsCovered` | src/systemsense/application/runtime.py:251-270 | of all statuses only OK maps to covered and to allowed |
| `Runtime.FactGoesStale` | src/systemsense/application/runtime.py:273-274 | a stored observation goes stale after five minutes in the categories core, application and network, and after an hour in the others |
| `Runtime.ReportSaysWhy` | src/systemsense/application/runtime.py:198-230 | the report of a probe that observed nothing carries its error, or how it ended if it has none |
| `Runtime.DiagnosticRuntime.OpenCase` | src/systemsense/application/runtime.py:54-112 | the loop commits the effect of a prefix of the plan: all of it on success, and up to the failing probe otherwise |
| `Runtime.DiagnosticRuntime.PersistProbe` | src/systemsense/application/runtime.py:77-108 | one probe: its chained audit entry, then its transaction |
| `Runtime.DiagnosticRuntime.PersistRows` | src/systemsense/application/runtime.py:86-108 | evidence or coverage, inventory and audit row commit together or not at all |
| `Runtime.ChainIsLinked` | src/systemsense/application/runtime.py:72-85 | the entries of a case form a linked chain with one entry for each probe, in plan order |
| `Writer.EveryInterleaving` | src/systemsense/storage/writer.py:51-87 | the invariant of the protocol holds in every interleaving of clients, closers and the worker |
| `Writer.Linearizable` | src/systemsense/storage/writer.py:51-84 | the database is the operations run one after another in queue order, and each execute that returns hands back what its operation returns at its place |
| `Writer.ExecuteReturnsItsOwn` | src/systemsense/storage/writer.py:51-61 | an execute that returns has the answer to its own request: what its operation returns at its place in the queue |
| `Writer.AnsweredExactlyOnce` | src/systemsense/storage/writer.py:77-84 | no future completes twice; after the worker exits every request ahead of the marker completed once and those behind it never, and those were put after the flag was set |
| `Writer.OnlyCheckedAreLost` | src/systemsense/storage/writer.py:51-68 | over every run that closes the writer: a request stays unanswered only if its client had passed the closed check before the flag was set, at most one for each such client, and a client in no call at that moment is refused ever after |
| `Writer.ClosedStaysShut` | src/systemsense/storage/writer.py:51-66 | from a closed state on no execute and no close gets past its check, and each new request is of a client that had passed it |
| `Writer.BehindTheMarkerHangs` | src/systemsense/storage/writer.py:55-61 | a client whose request is behind the marker waits for ever |
| `Writer.LostRequest` | src/systemsense/storage/writer.py:51-68 | such a run exists: the closed check and the put of execute are not one step |
| `Writer.WorkerGetsThere` | src/systemsense/storage/writer.py:63-84 | with a marker on the queue the next worker step is always enabled and brings it one step nearer its exit, and no other step moves it |
| `Writer.CloseReturns` | src/systemsense/storage/writer.py:63-87 | from any state with a marker on the queue, every run that gives the worker as many turns as it has steps left, whatever the clients do in between, ends with the worker gone, each request ahead of the marker answered exactly once, and every waiting close able to return |
| `Writer.CloseWaits` | src/systemsense/storage/writer.py:63-68 | a close returns only when the worker is gone: all requests ahead of the marker have been run and answered once, and none behind it |
| `Inventory.ChangeOnlyHistory` | src/systemsense/storage/sqlite_store.py:74-113 | after any refreshes and invalidations the history of a key is its values without those that Python finds equal to the one before, the current value is the last one given, and equal to the last one in the history |
| `Inventory.Recoverable` | src/systemsense/storage/sqlite_store.py:90-100 | the value a key had at any earlier moment can be read off a prefix of the history, up to values that Python finds equal |
| `Inventory.RecordedExactlyWhen` | src/systemsense/storage/sqlite_store.py:90-100 | the last history row holds the very value that is current, at every moment, exactly when no two values given in a row are equal to Python but written differently |
| `Inventory.TrueAfterOneIsNotRecorded` | src/systemsense/storage/sqlite_store.py:161-169 | after 1 and then true the history holds 1 alone and the current value is true |
| `Inventory.OtherCategoriesDoNotMatter` | src/systemsense/storage/sqlite_store.py:115-124 | what happens in other categories changes neither a current row nor its history |
| `Inventory.CurrentIsLatest` | src/systemsense/storage/sqlite_store.py:74-124 | the current row is what the key was last refreshed with, marked by the last invalidation of its category since |
| `Inventory.StaleExactlyWhen` | src/systemsense/domain/inventory.py:36-46 | until the next refresh an invalidated fact reads stale at a time exactly when that is not before the last invalidation, or past the time to live; and it can be read at all exactly when that invalidation does not precede its observation |
| `Inventory.StaleUntilRefreshed` | src/systemsense/inventory/service.py:61-75 | on a clock that no invalidation runs ahead of, an invalidated fact stays stale until it is refreshed |
| `Inventory.ReinvalidationRevives` | src/systemsense/storage/sqlite_store.py:115-124 | without that clock it need not: a later invalidation moves the time, and a read at the first one is fresh again |
| `Inventory.AssessFreshness` | src/systemsense/inventory/freshness.py:45-72 | agrees with is_stale at every time, names invalidation before expiry, and fails exactly for a time to live below one |
| `Inventory.FactKeyInjective` | src/systemsense/inventory/service.py:77-79 | different entity and name pairs have different keys |
| `Inventory.InventoryService.RefreshFact` | src/systemsense/inventory/service.py:27-34 | one committed upsert; reports a change exactly when history grew |
| `Inventory.InventoryService.Get` | src/systemsense/inventory/service.py:36-59 | nothing for an unknown key, an error exactly for a record that fails validation, else the record and its staleness |
| `Inventory.InventoryService.InvalidateFor` | src/systemsense/inventory/service.py:61-75 | marks the rows of exactly the categories of the signal, in one transaction, and counts them |
| `Inventory.OneCategoryMore` | src/systemsense/inventory/service.py:68-75 | invalidating category by category, in any order, is invalidating them all at once |
| `Pagination.DecodeOfEncode` | src/systemsense/mcp_server.py:142-170 | an issued cursor decodes to its offset exactly for the kind and bindings it was issued for |
| `Pagination.AcceptedIsSigned` | src/systemsense/mcp_server.py:151-170 | any accepted cursor carries the keyed hash of a payload with this kind, these bindings and this offset |
| `Pagination.BindingsDetermineTheQuery` | src/systemsense/mcp_server.py:236-240 | with no empty filter the bindings determine the query |
| `Pagination.FollowCovers` | src/systemsense/mcp_server.py:241-263 | with any positive limits the pages put together are the rows in order, each once, and the last has no cursor exactly when nothing is left |
| `Pagination.FollowReturnsEverything` | src/systemsense/mcp_server.py:241-263 | following the cursors ends after at most one request for each row, with everything |
| `Pagination.EveryMatchOnce` | src/systemsense/storage/sqlite_store.py:415-453 | every evidence row of the case that is of the kind and in the category asked for is returned exactly once, newest first; whatever is returned is of that case and kind, and in the category unless the category contains an underscore |
| `Pagination.MatchesMeans` | src/systemsense/storage/sqlite_store.py:428-441 | the filter lets through all that it must and only what it may |
| `Pagination.EveryReportOnce` | src/systemsense/storage/sqlite_store.py:455-478 | the same for coverage: exactly the reports of the case that name a category |
| `Pagination.RowsAreTheMatches` | src/systemsense/storage/sqlite_store.py:415-478 | the ordered rows are the matching ones, each once |
| `Pagination.EveryFactOnce` | src/systemsense/mcp_server.py:265-333 | get_evidence followed by inspect_more covers every fact once, in order |
| `Pagination.MoreFactsIsPageAt` | src/systemsense/mcp_server.py:317-327 | comparing with the length and asking for one row more come to the same page |
| `Pagination.Bounded` | src/systemsense/mcp_server.py:585-608 | a fact value is at most 800 characters and flagged truncated exactly when it was longer |
| `Pagination.PlainCategoryIsExact` | src/systemsense/storage/sqlite_store.py:434-439 | for a category without underscore the filter is the category and everything below it, for every collector |
| `Pagination.FilterIsExactWithoutUnderscore` | src/systemsense/storage/sqlite_store.py:434-439 | the filter of a category is exact for all collectors if and only if the category contains no underscore |
| `Pagination.UnderscoreMatchesMore` | src/systemsense/storage/sqlite_store.py:434-439 | with an underscore, a wildcard of LIKE, it matches other categories too: localxai.snapshot for local_ai |
| `Pagination.LowerMeans` | src/systemsense/storage/sqlite_store.py:434-439 | two characters compare equal if they are the same, or one ASCII letter in its two cases |
| `Pagination.MCPWorkspace.QueryCaseEvidence` | src/systemsense/mcp_server.py:226-263 | one page in order, only rows of the asked case, kind and category, all of them if it is the only page; and each error exactly in its case |
| `Pagination.MCPWorkspace.GetCoverageMap` | src/systemsense/mcp_server.py:335-364 | one page in order, only coverage of the asked case, all of it if it is the only page; and each error exactly in its case |
| `Pagination.MCPWorkspace.GetEvidence` | src/systemsense/mcp_server.py:265-298 | exactly the first facts when the case exists, the row is its own and parses; otherwise the error of the first of these that fails |
| `Pagination.MCPWorkspace.InspectMore` | src/systemsense/mcp_server.py:300-333 | exactly the page at the cursor when the case exists, the row is its own and parses; otherwise the error of the first of these that fails, or of the cursor |
| `Scenario.DecodeOfEncode` | benchmarks/ab/scenario.py:60-69 | the stream of length-prefixed paths and contents decodes to exactly the entries written |
| `Scenario.EqualStreams` | benchmarks/ab/scenario.py:60-69 | equal streams come from the same files with the same contents |
| `Scenario.MemberOrderIrrelevant` | benchmarks/ab/scenario.py:62 | the stream does not depend on the order of the members |
| `Scenario.StreamInPathOrder` | benchmarks/ab/scenario.py:62-69 | the stream is that of the members in ascending order of their paths |
| `Scenario.HashIdentifiesTheFiles` | benchmarks/ab/scenario.py:60-69 | with an injective hash, content hashes are equal exactly when the same files with the same contents are listed equally often; for lists without repeats, exactly when the maps from path to content are equal |
| `Scenario.ContentHash` | benchmarks/ab/scenario.py:60-69 | the updating loop hashes that stream |
| `Scenario.NumberOfBigEndian` | benchmarks/ab/scenario.py:65-67 | an eight-byte big-endian length reads back |
| `Analysis.PairRuns` | benchmarks/ab/analysis.py:217-232 | succeeds exactly on well-paired runs, with the pairs in the order of their identifiers |
| `Analysis.PairingForgetsOrder` | benchmarks/ab/analysis.py:217-232 | whether runs pair up, and their pairs, do not depend on the order of the runs |
| `Analysis.EveryRunIsPaired` | benchmarks/ab/analysis.py:220-232 | every run is in its pair |
| `Analysis.PairsAreSound` | benchmarks/ab/analysis.py:227-232 | pairs have different identifiers and are made of two runs of one scenario |
| `Analysis.IntervalBetween` | benchmarks/ab/analysis.py:245-259 | whatever is drawn, the interval is ordered and lies between the least and the greatest value |
| `Analysis.IndicesInRange` | benchmarks/ab/analysis.py:257-258 | both quantile indices are in range and are the floor and the ceiling asked for |
| `Analysis.IntervalSigns` | benchmarks/ab/analysis.py:245-259 | savings that are all positive, or all not, give an interval of that sign whatever is drawn |
| `Analysis.ClaimFollowsTheSavings` | benchmarks/ab/analysis.py:149-174 | if the treated arm passed at least as often without more damage, the sample is large enough and every valid pair saves tokens, the analysis succeeds and the token claim is allowed; if it succeeds, the time claim is allowed when every valid pair saves time; no claim when none saves or a gate fails; all whatever is drawn |
| `Analysis.AnalysisFailsExactlyWhen` | benchmarks/ab/analysis.py:87-174 | with at least 100 resamples the analysis of the pairs fails exactly when some quality-valid pair has a baseline run without tokens |
| `Analysis.ZeroTokensFail` | benchmarks/ab/analysis.py:235-238 | such an input: one pair of passing runs, the baseline with 0 tokens, fails whatever is drawn |
| `Analysis.NoMetricExactlyWhen` | benchmarks/ab/analysis.py:235-238 | the savings of a metric fail exactly when some valid pair has a zero baseline |
| `Analysis.PositiveSavings` | benchmarks/ab/analysis.py:235-238 | a saving is positive exactly when the treated run needed less, and at most 100 percent |
| `Analysis.MedianBetween` | benchmarks/ab/analysis.py:241-242 | a median lies within any bounds of its values |
| `Analysis.MedianIsInTheMiddle` | benchmarks/ab/analysis.py:241-242 | a median is the mean of the two middle values, so at most half of the values lie on either side |
| `Analysis.AnalysisForgetsOrder` | benchmarks/ab/analysis.py:87-174 | for the same draws the analysis does not depend on the order of the runs |
| `Analysis.AnalyzePairedRuns` | benchmarks/ab/analysis.py:87-174 | argument and pairing errors first, then the analysis of the pairs; it succeeds exactly for well-paired runs, enough resamples and no quality-valid baseline run without tokens; counts, rates, gate, claims and summaries are right in the sense of the next two rows |
| `Analysis.AnalysisCountsRight` | benchmarks/ab/analysis.py:97-174 | every count and rate is the cardinality of the pairs it is named after; the quality gate holds exactly when the treated arm passed at least as often and did damage at most as often; no claim is allowed otherwise |
| `Analysis.AnalysisSummarizes` | benchmarks/ab/analysis.py:108-174 | each median and interval is one of its own metric: within all bounds of the savings in it, and there exactly when there is a pair to take it from |

## Left out

- Collectors, worker processes, WMI, registry, PowerShell, transport, CLI and server registration: calls into code outside the model; a probe is an arbitrary outcome and the Event Log adapter an arbitrary answer.
- Event Log rollover and several pollers at once: the capture theorem is for one poller of an append-only log whose adapter returns the oldest events above the bookmark, as src/systemsense/platform/windows/eventlog.py:231-240 queries them; the bookmark is read outside the transaction, so two concurrent pollers are not covered.
- `put` and `prune` in different processes, and deletion of files by others: the artifact results are for one owner of the store; the steps of one operation do not interleave with those of another.
- Symbolic links, directories and path escapes in the object store and in scenario members: a path is canonical, stray or temporary.
- ArtifactStore.ArtifactStore.GetTextExcerpt: does not model UTF-8 decoding, because contents and texts are sequences of bytes; replacement characters and a cut in the middle of a character are not captured.
- `put` when writing the temporary file fails: a partial temporary file is a state of the protocol, the clean-up of a surviving process is not.
- Regular expressions of redaction and neutralization: arbitrary functions; nothing is claimed about which words are gone from a text.
- Inventory.InventoryService.Get: does not model stored records that are not inventory facts at all, because every row of the model comes from a fact.
- The check of a primary key before or after an ON CONFLICT clause: the model resolves the named conflict first.
- JSON values: a fact in a page or a stored record is its canonical JSON text; an inventory value is a JSON value, compared as Python compares decoded ones; the order of object members and numbers that are not finite are not modelled.
- Brief.ParseBack: does not claim the added IDs when a pending probe ID contains a line break, because `generate` prints these IDs as they are given; the IDs of the planner contain none.
- Pagination.MCPWorkspace.GetEvidence: takes the primary key of the evidence table as given, because SQLite enforces it.
- Circuit.ProbeRunner.Run: does not model exceptions of the executor that escape the call, because the executor is an arbitrary answer.
- Runtime.DiagnosticRuntime.OpenCase: takes the runs of the probes as inputs instead of calling the runner, because the runner is modelled by itself; planning, listed in module Planner, is not called either.
- `InventoryFact` construction inside `open_case`, pydantic length limits on error texts and other validation of values: inputs are taken as already valid.
- Writer.CloseReturns: is about runs that give the worker its turns, because the scheduler is outside the program; the failure of the worker's start and cancelled futures are not modelled.
- Pagination.MCPWorkspace.QueryCaseEvidence: returns the stored rows instead of their printed summaries; the percent sign of LIKE is left out because a category may not contain one.
- `get_case_brief`'s ranking input, `open_case` of the workspace and its two dictionaries: composition of parts that are modelled, without a law of its own.
- Rounding of floating-point numbers: scores, savings, medians and quantile indices are exact.
- `recommend_final_pair_count`, the readiness gates, arm schedules, `EvidenceGraph`, timelines and record models: they would only add easy members.
- `load_scenario` and `_resolve_member`: file lookup, without a law beyond its checks.
